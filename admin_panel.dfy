/**
 * The administrator's panel (frontend/src/pages/AdminPanel.js): four lists
 * of restaurants, one per bucket, filled from the server and then kept up to
 * date by each action without fetching again.
 */
module AdminPanel {
  import opened Wrappers
  import opened Seqs
  import opened Records

  /** The test `(r) => r.status === s`. */
  function HasStatus(s: Status): Restaurant -> bool
  {
    (r: Restaurant) => r.status == s
  }

  /** The test `(x) => x.id === id`. */
  function HasId(id: string): Restaurant -> bool
  {
    (r: Restaurant) => r.id == id
  }

  /** The test `(r) => r.id !== id`. */
  function LacksId(id: string): Restaurant -> bool
  {
    (r: Restaurant) => r.id != id
  }

  /** `all.filter((r) => r.status === s)`: a bucket as loaded. */
  function Bucket(all: seq<Restaurant>, s: Status): (b: seq<Restaurant>)
    ensures forall r :: r in b <==> r in all && r.status == s
  {
    Filter(all, HasStatus(s))
  }

  /**
   * A loaded bucket holds exactly the fetched rows of its status, in fetched
   * order, so no row is loaded into two buckets.
   */
  lemma BucketsPartition(all: seq<Restaurant>, r: Restaurant, s: Status, t: Status)
    requires s != t
    ensures r in Bucket(all, s) <==> r in all && r.status == s
    ensures !(r in Bucket(all, s) && r in Bucket(all, t))
    ensures IsSubsequence(Bucket(all, s), all)
  {
    FilterIsSubsequence(all, HasStatus(s));
  }

  /**
   * `list.find((x) => x.id === id)` copied with the bucket's status: the first
   * entry with that id, restamped, or nothing when no entry has it.
   */
  function Moved(list: seq<Restaurant>, id: string, s: Status): (m: seq<Restaurant>)
    ensures |m| <= 1
    ensures m == [] <==> forall r :: r in list ==> r.id != id
    ensures forall r :: r in m ==> r.id == id && r.status == s
    ensures m != [] ==> exists k :: 0 <= k < |list| && list[k].id == id && m[0] == list[k].(status := s)
  {
    match FirstIndex(list, HasId(id))
    case None => []
    case Some(k) => [list[k].(status := s)]
  }

  /** Taking out an id keeps every other entry, in order, and leaves no entry with that id. */
  lemma RemoveIdKeepsOthers(list: seq<Restaurant>, id: string)
    ensures forall r :: r in Filter(list, LacksId(id)) <==> r in list && r.id != id
    ensures IsSubsequence(Filter(list, LacksId(id)), list)
  {
    FilterIsSubsequence(list, LacksId(id));
  }

  const ApprovedMessage: string := "Restaurant approved successfully."
  const ApproveFailed: string := "Failed to approve restaurant."
  const RejectedMessage: string := "Restaurant rejected successfully."
  const RejectFailed: string := "Failed to reject restaurant."
  const DeletionApprovedMessage: string := "Restaurant deletion approved and completed."
  const ApproveDeleteFailed: string := "Failed to approve deletion."
  const DeletedMessage: string := "Restaurant deleted successfully."
  const DeleteFailed: string := "Failed to delete restaurant."
  const FetchFailed: string := "Failed to fetch data."

  /** The panel's state. */
  class Panel {
    var pending: seq<Restaurant>
    var approved: seq<Restaurant>
    var deleteRequested: seq<Restaurant>
    var rejected: seq<Restaurant>
    var error: string
    var success: string

    /** The three status buckets hold only rows of their own status. */
    ghost predicate Valid()
      reads this
    {
      && (forall r :: r in approved ==> r.status == Approved)
      && (forall r :: r in deleteRequested ==> r.status == DeleteRequested)
      && (forall r :: r in rejected ==> r.status == Rejected)
    }

    constructor()
      ensures pending == [] && approved == [] && deleteRequested == [] && rejected == []
      ensures error == "" && success == ""
      ensures Valid()
    {
      pending := [];
      approved := [];
      deleteRequested := [];
      rejected := [];
      error := "";
      success := "";
    }

    /**
     * `fetchData`: both messages are cleared; when both requests succeed the
     * pending list is the first response (empty when it has no body) and the
     * other buckets are the second filtered by status; when either fails,
     * only the error is set.
     */
    method Load(fetched: bool, pendingBody: Option<seq<Restaurant>>, all: seq<Restaurant>)
      modifies this
      ensures success == ""
      ensures fetched ==> && pending == (if pendingBody.Some? then pendingBody.value else [])
                          && approved == Bucket(all, Approved)
                          && deleteRequested == Bucket(all, DeleteRequested)
                          && rejected == Bucket(all, Rejected)
                          && error == ""
      ensures !fetched ==> && error == FetchFailed
                           && pending == old(pending) && approved == old(approved)
                           && deleteRequested == old(deleteRequested) && rejected == old(rejected)
      ensures old(Valid()) ==> Valid()
      ensures fetched ==> Valid()
    {
      error := "";
      success := "";
      if !fetched {
        error := FetchFailed;
        return;
      }
      pending := if pendingBody.Some? then pendingBody.value else [];
      approved := Filter(all, HasStatus(Approved));
      deleteRequested := Filter(all, HasStatus(DeleteRequested));
      rejected := Filter(all, HasStatus(Rejected));
    }

    /**
     * `handleApprove(id)`: on success the id leaves the pending list and its
     * first pending entry, if any, joins the approved list with status
     * approved; on failure only the error is set.
     */
    method Approve(id: string, ok: bool)
      requires Valid()
      modifies this
      ensures ok ==> && pending == Filter(old(pending), LacksId(id))
                     && approved == old(approved) + Moved(old(pending), id, Approved)
                     && success == ApprovedMessage && error == old(error)
      ensures !ok ==> pending == old(pending) && approved == old(approved) &&
                      error == ApproveFailed && success == old(success)
      ensures deleteRequested == old(deleteRequested) && rejected == old(rejected)
      ensures Valid()
    {
      if !ok {
        error := ApproveFailed;
        return;
      }
      var before := pending;
      var toApprove := FirstIndex(before, HasId(id));
      pending := Filter(before, LacksId(id));
      if toApprove.Some? {
        var r := before[toApprove.value];
        approved := approved + [r.(status := Approved)];
      }
      success := ApprovedMessage;
    }

    /**
     * `handleReject(id)`: on success the id leaves the pending list and its
     * first pending entry, if any, joins the rejected list with status
     * rejected; on failure only the error is set.
     */
    method Reject(id: string, ok: bool)
      requires Valid()
      modifies this
      ensures ok ==> && pending == Filter(old(pending), LacksId(id))
                     && rejected == old(rejected) + Moved(old(pending), id, Rejected)
                     && success == RejectedMessage && error == old(error)
      ensures !ok ==> pending == old(pending) && rejected == old(rejected) &&
                      error == RejectFailed && success == old(success)
      ensures approved == old(approved) && deleteRequested == old(deleteRequested)
      ensures Valid()
    {
      if !ok {
        error := RejectFailed;
        return;
      }
      var before := pending;
      var toReject := FirstIndex(before, HasId(id));
      pending := Filter(before, LacksId(id));
      if toReject.Some? {
        var r := before[toReject.value];
        rejected := rejected + [r.(status := Rejected)];
      }
      success := RejectedMessage;
    }

    /** `handleApproveDelete(id)`: on success the id leaves the delete-requested list only. */
    method ApproveDelete(id: string, ok: bool)
      requires Valid()
      modifies this
      ensures ok ==> deleteRequested == Filter(old(deleteRequested), LacksId(id)) &&
                     success == DeletionApprovedMessage && error == old(error)
      ensures !ok ==> deleteRequested == old(deleteRequested) &&
                      error == ApproveDeleteFailed && success == old(success)
      ensures pending == old(pending) && approved == old(approved) && rejected == old(rejected)
      ensures Valid()
    {
      if !ok {
        error := ApproveDeleteFailed;
        return;
      }
      deleteRequested := Filter(deleteRequested, LacksId(id));
      success := DeletionApprovedMessage;
    }

    /** `handleDelete(id)`: on success the id leaves all four lists. */
    method Delete(id: string, ok: bool)
      requires Valid()
      modifies this
      ensures ok ==> && pending == Filter(old(pending), LacksId(id))
                     && approved == Filter(old(approved), LacksId(id))
                     && deleteRequested == Filter(old(deleteRequested), LacksId(id))
                     && rejected == Filter(old(rejected), LacksId(id))
                     && success == DeletedMessage && error == old(error)
      ensures !ok ==> && pending == old(pending) && approved == old(approved)
                      && deleteRequested == old(deleteRequested) && rejected == old(rejected)
                      && error == DeleteFailed && success == old(success)
      ensures Valid()
    {
      if !ok {
        error := DeleteFailed;
        return;
      }
      pending := Filter(pending, LacksId(id));
      approved := Filter(approved, LacksId(id));
      deleteRequested := Filter(deleteRequested, LacksId(id));
      rejected := Filter(rejected, LacksId(id));
      success := DeletedMessage;
    }

    /** While the panel is consistent no restaurant sits in two of the three status buckets. */
    lemma BucketsDisjoint(r: Restaurant)
      requires Valid()
      ensures !(r in approved && r in rejected)
      ensures !(r in approved && r in deleteRequested)
      ensures !(r in rejected && r in deleteRequested)
    {
    }
  }

  /**
   * Approving grows the approved list by one entry exactly when some pending
   * entry has the id, and afterwards no pending entry has it.
   */
  lemma ApproveGrowsByOneIff(pending: seq<Restaurant>, id: string)
    ensures |Moved(pending, id, Approved)| == 1 <==> exists k :: 0 <= k < |pending| && pending[k].id == id
    ensures forall r :: r in Filter(pending, LacksId(id)) ==> r.id != id
  {
    if exists k :: 0 <= k < |pending| && pending[k].id == id {
      var k :| 0 <= k < |pending| && pending[k].id == id;
      assert pending[k] in pending;
    }
  }
}
