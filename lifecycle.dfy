/**
 * The restaurant lifecycle and the rating accumulator: the admin handlers of
 * backend/controllers/authController.js (approve, reject, approve-delete,
 * the pending list) and the handlers of backend/controllers/reviewController.js
 * (create a review, list a restaurant's reviews, delete a review), acting on
 * one store that holds the Restaurant and Review tables.
 */
module Lifecycle {
  import opened Wrappers
  import opened Records
  import opened Seqs
  import opened Http

  /** A status-update e-mail to a restaurant's owner, recorded in place of being sent. */
  datatype StatusMail = StatusMail(to: string, restaurantName: string, statusText: string)

  /**
   * What the owner lookup (`User.findByPk(restaurant.ownerId)`) and the mail
   * transport do during one request: there is no such user, the mail goes
   * out, or sending it throws.
   */
  datatype OwnerMail = NoOwner | Delivered(email: string) | SendFails(email: string)

  /** The mails a handler records for one status update. */
  function StatusMails(owner: OwnerMail, restaurantName: string, statusText: string): (ms: seq<StatusMail>)
    ensures |ms| <= 1
    ensures ms != [] <==> owner.Delivered?
    ensures ms != [] ==> ms[0] == StatusMail(owner.email, restaurantName, statusText)
  {
    if owner.Delivered? then [StatusMail(owner.email, restaurantName, statusText)] else []
  }

  /** The exact quotient num / den; the one-decimal rendering of `toFixed(1)` is not modelled. */
  datatype Ratio = Ratio(num: int, den: int)

  /** The accumulators of a restaurant whose every counted rating lies in [1, 5]. */
  predicate AccumulatorsSane(r: Restaurant)
  {
    0 <= r.ratingsCount && r.ratingsCount <= r.totalRatings <= 5 * r.ratingsCount
  }

  /**
   * The average returned by `createReview`: absent (null) while there are no
   * ratings, otherwise totalRatings / ratingsCount, which then lies in [1, 5].
   */
  function AverageRating(r: Restaurant): (avg: Option<Ratio>)
    ensures avg.Some? <==> r.ratingsCount > 0
    ensures avg.Some? ==> avg.value.den == r.ratingsCount && avg.value.num == r.totalRatings
    ensures avg.Some? && AccumulatorsSane(r) ==> avg.value.den <= avg.value.num <= 5 * avg.value.den
  {
    if r.ratingsCount > 0 then Some(Ratio(r.totalRatings, r.ratingsCount)) else None
  }

  /** One accepted rating: `ratingsCount += 1; totalRatings += rating`. */
  function AddRating(r: Restaurant, rating: int): (after: Restaurant)
    ensures r.ratingsCount >= 0 ==> AverageRating(after) == Some(Ratio(r.totalRatings + rating, r.ratingsCount + 1))
    ensures after.(ratingsCount := r.ratingsCount, totalRatings := r.totalRatings) == r
  {
    r.(ratingsCount := r.ratingsCount + 1, totalRatings := r.totalRatings + rating)
  }

  /** A rating in [1, 5] keeps the accumulators sane. */
  lemma AddRatingKeepsSane(r: Restaurant, rating: int)
    requires AccumulatorsSane(r) && 1 <= rating <= 5
    ensures AccumulatorsSane(AddRating(r, rating))
  {
  }

  /** The sum of a list of ratings. */
  function Sum(rs: seq<int>): int
    decreases |rs|
  {
    if rs == [] then 0 else rs[0] + Sum(rs[1..])
  }

  /** The accumulators after a sequence of accepted ratings, in submission order. */
  function ApplyRatings(r: Restaurant, rs: seq<int>): Restaurant
    decreases |rs|
  {
    if rs == [] then r else ApplyRatings(AddRating(r, rs[0]), rs[1..])
  }

  /**
   * N accepted ratings add N to the count and their sum to the total, and
   * change nothing else in the row.
   */
  lemma {:induction false} ApplyRatingsAccumulates(r: Restaurant, rs: seq<int>)
    ensures ApplyRatings(r, rs) ==
      r.(ratingsCount := r.ratingsCount + |rs|, totalRatings := r.totalRatings + Sum(rs))
    decreases |rs|
  {
    if rs != [] {
      ApplyRatingsAccumulates(AddRating(r, rs[0]), rs[1..]);
    }
  }

  lemma {:induction false} SumAppend(a: seq<int>, b: seq<int>)
    ensures Sum(a + b) == Sum(a) + Sum(b)
    decreases |a|
  {
    if a == [] {
      assert a + b == b;
    } else {
      SumAppend(a[1..], b);
      assert (a + b)[1..] == a[1..] + b;
    }
  }

  /** Taking one rating out of a list takes it out of the sum. */
  lemma SumRemove(b: seq<int>, j: nat)
    requires j < |b|
    ensures Sum(b) == b[j] + Sum(b[..j] + b[j + 1..])
  {
    var pre, post := b[..j], b[j + 1..];
    var tail := [b[j]] + post;
    assert b == pre + tail;
    assert tail[1..] == post;
    SumAppend(pre, tail);
    SumAppend(pre, post);
  }

  /** Taking one element out of a list takes one copy of it out of its multiset. */
  lemma MultisetRemove(b: seq<int>, j: nat)
    requires j < |b|
    ensures multiset(b[..j] + b[j + 1..]) == multiset(b) - multiset{b[j]}
  {
    var pre, post := b[..j], b[j + 1..];
    assert b == pre + [b[j]] + post;
  }

  /** The sum of ratings does not depend on the order they were submitted in. */
  lemma {:induction false} SumIsOrderFree(a: seq<int>, b: seq<int>)
    requires multiset(a) == multiset(b)
    ensures Sum(a) == Sum(b)
    decreases |a|
  {
    if a == [] {
      assert |b| == |multiset(b)| == 0;
    } else {
      assert a[0] in multiset(a);
      var j :| 0 <= j < |b| && b[j] == a[0];
      SumRemove(b, j);
      MultisetRemove(b, j);
      assert a == [a[0]] + a[1..];
      assert multiset(a[1..]) == multiset(a) - multiset{a[0]};
      SumIsOrderFree(a[1..], b[..j] + b[j + 1..]);
    }
  }

  /** Ratings in [1, 5] sum to between N and 5N. */
  lemma {:induction false} SumBounds(rs: seq<int>)
    requires forall i :: 0 <= i < |rs| ==> 1 <= rs[i] <= 5
    ensures |rs| <= Sum(rs) <= 5 * |rs|
    decreases |rs|
  {
    if rs != [] {
      SumBounds(rs[1..]);
    }
  }

  /**
   * From the schema defaults (no ratings), N accepted ratings leave
   * `ratingsCount == N` and `totalRatings == ` their sum, whatever their
   * order; the average is then never null and lies in [1, 5].
   */
  lemma RatingsFromDefaults(r: Restaurant, rs: seq<int>, shuffled: seq<int>)
    requires r.ratingsCount == 0 && r.totalRatings == 0
    requires |rs| > 0 && forall i :: 0 <= i < |rs| ==> 1 <= rs[i] <= 5
    requires multiset(shuffled) == multiset(rs)
    ensures ApplyRatings(r, rs).ratingsCount == |rs|
    ensures ApplyRatings(r, rs).totalRatings == Sum(rs)
    ensures ApplyRatings(r, shuffled) == ApplyRatings(r, rs)
    ensures AverageRating(ApplyRatings(r, rs)) == Some(Ratio(Sum(rs), |rs|))
    ensures |rs| <= Sum(rs) <= 5 * |rs|
  {
    ApplyRatingsAccumulates(r, rs);
    ApplyRatingsAccumulates(r, shuffled);
    SumIsOrderFree(rs, shuffled);
    assert |shuffled| == |multiset(shuffled)| == |multiset(rs)| == |rs|;
    SumBounds(rs);
  }

  /** The key of a review row. */
  function ReviewId(x: Review): string
  {
    x.id
  }

  /** The `where: { restaurantId }` test. */
  function IsFor(rid: string): Review -> bool
  {
    (x: Review) => x.restaurantId == rid
  }

  /** The negation of `IsFor`: the rows that `Review.destroy({ where: { restaurantId } })` keeps. */
  function NotFor(rid: string): Review -> bool
  {
    (x: Review) => x.restaurantId != rid
  }

  /** `Review.findAll({ where: { restaurantId } })`, in table order. */
  function ReviewsOf(rs: seq<Review>, rid: string): (out: seq<Review>)
    ensures forall x :: x in out <==> x in rs && x.restaurantId == rid
  {
    Filter(rs, IsFor(rid))
  }

  /** The test `review.id === id`. */
  function IdIs(id: string): Review -> bool
  {
    (x: Review) => x.id == id
  }

  /** The position of the review with this primary key (`Review.findByPk`). */
  function FindReview(rs: seq<Review>, id: string): (k: Option<nat>)
    ensures k.Some? ==> k.value < |rs| && rs[k.value].id == id
    ensures k.None? <==> forall i :: 0 <= i < |rs| ==> rs[i].id != id
  {
    FirstIndex(rs, IdIs(id))
  }

  /** The `rating` value of a request body: a number, JSON null, or no value at all. */
  datatype RatingInput = Number(n: int) | Null | Absent

  /**
   * The range test `rating < 1 || rating > 5` under JavaScript's comparisons:
   * null compares as 0 and is refused; an absent value compares false both
   * ways and passes; a number is refused exactly outside [1, 5].
   */
  predicate RangeRefuses(rating: RatingInput)
  {
    match rating
    case Number(n) => n < 1 || n > 5
    case Null => true
    case Absent => false
  }

  /**
   * The value handed to the non-null `rating` column, for an input that
   * passed the range test: a number in [1, 5] or nothing.
   */
  function RatingColumn(rating: RatingInput): (col: Option<int>)
    requires !RangeRefuses(rating)
    ensures col.Some? <==> rating.Number?
    ensures col.Some? ==> 1 <= col.value <= 5 && col.value == rating.n
  {
    match rating
    case Number(n) => Some(n)
    case Absent => None
  }

  /** The `address` field `getPendingRestaurants` adds to each row. */
  function PendingAddress(r: Restaurant): string
  {
    r.street + ", " + BuildingSegment(r.building) + r.city + ", " + r.state + ", " + r.pincode
  }

  /**
   * Two rows with the same street, city, state and pincode get the same
   * pending-list address exactly when their building segments agree: the
   * address shows the building when it is non-empty, and only then.
   */
  lemma PendingAddressShowsBuilding(r: Restaurant, s: Restaurant)
    requires r.street == s.street && r.city == s.city && r.state == s.state && r.pincode == s.pincode
    ensures PendingAddress(r) == PendingAddress(s) <==> BuildingSegment(r.building) == BuildingSegment(s.building)
  {
    var pre := r.street + ", ";
    var post := r.city + ", " + r.state + ", " + r.pincode;
    assert PendingAddress(r) == pre + BuildingSegment(r.building) + post;
    assert PendingAddress(s) == pre + BuildingSegment(s.building) + post;
    MiddleDecides(pre, BuildingSegment(r.building), BuildingSegment(s.building), post);
  }

  /**
   * The attributes `getPendingRestaurants` selects that this model carries;
   * the working hours, the map location and the creation time are the
   * selected attributes it does not carry.
   */
  datatype PendingView = PendingView(
    id: string,
    name: string,
    street: string,
    building: Option<string>,
    city: string,
    state: string,
    pincode: string,
    category: string,
    priceRange: PriceRange,
    thumbnailUrl: Option<string>)

  /** The selected attributes of a stored row. */
  function ViewOf(r: Restaurant): PendingView
  {
    PendingView(r.id, r.name, r.street, r.building, r.city, r.state, r.pincode,
                r.category, r.priceRange, r.thumbnailUrl)
  }

  /** A row of the pending list: the selected attributes and the formatted address. */
  datatype PendingRow = PendingRow(view: PendingView, address: string)

  /** The pending-list row of a stored restaurant. */
  function PendingRowOf(r: Restaurant): PendingRow
  {
    PendingRow(ViewOf(r), PendingAddress(r))
  }

  /**
   * A pending-list row shows the selected attributes and nothing else: two
   * restaurants get the same row exactly when they agree on those, whatever
   * their status, owner, rating accumulators, flags, notices and gallery.
   */
  lemma PendingRowShowsSelectedAttributesOnly(r: Restaurant, s: Restaurant)
    ensures PendingRowOf(r) == PendingRowOf(s) <==>
      && r.id == s.id && r.name == s.name && r.street == s.street && r.building == s.building
      && r.city == s.city && r.state == s.state && r.pincode == s.pincode
      && r.category == s.category && r.priceRange == s.priceRange && r.thumbnailUrl == s.thumbnailUrl
  {
    if ViewOf(r) == ViewOf(s) {
      assert PendingAddress(r) == PendingAddress(s);
    }
  }

  /**
   * The guard of `approveDeleteRestaurant` as written: the owner lookup reads
   * `restaurant.ownerId` before the null check, so a missing id throws into
   * the 500 branch; an existing row passes only if it carries the undeclared
   * `deleteRequested` flag. `None` means the deletion goes ahead.
   */
  function ApproveDeleteCheckAsWritten(found: Option<Restaurant>): (stop: Option<Response>)
    ensures stop.None? <==> found.Some? && found.value.deleteRequested
    ensures found.None? ==> stop == Some(Response(500, "Failed to approve deletion."))
  {
    if found.None? then Some(Response(500, "Failed to approve deletion."))
    else if !found.value.deleteRequested then Some(Response(400, "Delete not requested for this restaurant."))
    else None
  }

  /**
   * The guard the handler evidently intends: 404 for a missing row, 400
   * unless the row's status records a deletion request.
   */
  function ApproveDeleteCheckIntended(found: Option<Restaurant>): (stop: Option<Response>)
    ensures stop.None? <==> found.Some? && found.value.status == DeleteRequested
    ensures found.None? ==> stop == Some(Response(404, "Restaurant not found."))
  {
    if found.None? then Some(Response(404, "Restaurant not found."))
    else if found.value.status != DeleteRequested then Some(Response(400, "Delete not requested for this restaurant."))
    else None
  }

  /**
   * Counterexample for the as-written guard: a row stored by
   * `Restaurant.create` whose status is `delete_requested` is still refused
   * with 400, while the intended guard lets it through; and an unknown id
   * gets 500 where 404 is intended.
   */
  lemma ApproveDeleteAsWrittenRefusesRequestedRows(d: RestaurantDraft, freshId: string)
    requires CreateRestaurant(d, freshId).Row?
    ensures var r := CreateRestaurant(d, freshId).row.(status := DeleteRequested);
      && ApproveDeleteCheckAsWritten(Some(r)) == Some(Response(400, "Delete not requested for this restaurant."))
      && ApproveDeleteCheckIntended(Some(r)).None?
    ensures ApproveDeleteCheckAsWritten(None).value.status == 500
    ensures ApproveDeleteCheckIntended(None).value.status == 404
  {
    CreatedRowsHaveNoDeleteFlag(d, freshId);
  }

  /**
   * Rows are stored under their own id with sane accumulators; review ids
   * are distinct; every review belongs to a stored restaurant; and since a
   * deleted review is never subtracted, a restaurant's count is at least
   * the number of its stored reviews.
   */
  ghost predicate TablesConsistent(rs: map<string, Restaurant>, revs: seq<Review>)
  {
    && (forall id :: id in rs ==>
          && rs[id].id == id
          && AccumulatorsSane(rs[id])
          && |ReviewsOf(revs, id)| <= rs[id].ratingsCount)
    && UniqueBy(revs, ReviewId)
    && (forall i :: 0 <= i < |revs| ==> revs[i].restaurantId in rs)
  }

  /** A restaurant that is not yet stored has no reviews, so adding it keeps the tables consistent. */
  lemma InsertKeepsConsistent(rs: map<string, Restaurant>, revs: seq<Review>, r: Restaurant)
    requires TablesConsistent(rs, revs)
    requires r.id !in rs && AccumulatorsSane(r)
    ensures ReviewsOf(revs, r.id) == []
    ensures TablesConsistent(rs[r.id := r], revs)
  {
    FilterKeepsNone(revs, IsFor(r.id));
  }

  /**
   * Destroying a restaurant together with its reviews keeps the tables
   * consistent and leaves no review pointing at it.
   */
  lemma DestroyKeepsConsistent(rs: map<string, Restaurant>, revs: seq<Review>, id: string)
    requires TablesConsistent(rs, revs)
    ensures ReviewsOf(Filter(revs, NotFor(id)), id) == []
    ensures TablesConsistent(rs - {id}, Filter(revs, NotFor(id)))
  {
    var kept := Filter(revs, NotFor(id));
    FilterKeepsUnique(revs, NotFor(id), ReviewId);
    forall rid | rid in rs - {id}
      ensures |ReviewsOf(kept, rid)| <= rs[rid].ratingsCount
    {
      FilterCommutes(revs, NotFor(id), IsFor(rid));
    }
    forall i | 0 <= i < |kept| ensures kept[i].restaurantId in rs - {id} {
      assert kept[i] in revs;
    }
    FilterKeepsNone(kept, IsFor(id));
  }

  /**
   * Appending a review with a new id for a stored restaurant, and counting
   * its rating in [1, 5], keeps the tables consistent.
   */
  lemma AddReviewKeepsConsistent(rs: map<string, Restaurant>, revs: seq<Review>, x: Review)
    requires TablesConsistent(rs, revs)
    requires x.restaurantId in rs && 1 <= x.rating <= 5
    requires forall i :: 0 <= i < |revs| ==> revs[i].id != x.id
    ensures TablesConsistent(rs[x.restaurantId := AddRating(rs[x.restaurantId], x.rating)], revs + [x])
  {
    var rs' := rs[x.restaurantId := AddRating(rs[x.restaurantId], x.rating)];
    AppendFreshKeepsUnique(revs, x, ReviewId);
    forall rid | rid in rs'
      ensures |ReviewsOf(revs + [x], rid)| <= rs'[rid].ratingsCount
    {
      FilterAppend(revs, [x], IsFor(rid));
    }
  }

  /** Removing the review with a given id keeps the tables consistent; the accumulators stay as they were. */
  lemma DeleteReviewKeepsConsistent(rs: map<string, Restaurant>, revs: seq<Review>, id: string)
    requires TablesConsistent(rs, revs)
    ensures TablesConsistent(rs, Filter(revs, KeyIsNot(ReviewId, id)))
  {
    var kept := Filter(revs, KeyIsNot(ReviewId, id));
    FilterKeepsUnique(revs, KeyIsNot(ReviewId, id), ReviewId);
    forall rid | rid in rs
      ensures |ReviewsOf(kept, rid)| <= rs[rid].ratingsCount
    {
      FilterCommutes(revs, KeyIsNot(ReviewId, id), IsFor(rid));
    }
    forall i | 0 <= i < |kept| ensures kept[i].restaurantId in rs {
      assert kept[i] in revs;
    }
  }

  /** The Restaurant and Review tables, and the status mails sent so far. */
  class Store {
    var restaurants: map<string, Restaurant>
    var reviews: seq<Review>
    var mails: seq<StatusMail>

    /**
     * The store's tables satisfy `TablesConsistent`, and no stored row
     * carries the `deleteRequested` flag, which the schema never declares.
     */
    ghost predicate Valid()
      reads this
    {
      && TablesConsistent(restaurants, reviews)
      && (forall id :: id in restaurants ==> !restaurants[id].deleteRequested)
    }

    constructor ()
      ensures Valid()
      ensures restaurants == map[] && reviews == [] && mails == []
    {
      restaurants := map[];
      reviews := [];
      mails := [];
    }

    /**
     * A row created elsewhere (the restaurant controller is not part of this
     * model) enters the table.
     */
    method Insert(r: Restaurant)
      requires Valid()
      requires r.id !in restaurants && AccumulatorsSane(r) && !r.deleteRequested
      modifies this
      ensures Valid()
      ensures restaurants == old(restaurants)[r.id := r]
      ensures reviews == old(reviews) && mails == old(mails)
    {
      InsertKeepsConsistent(restaurants, reviews, r);
      restaurants := restaurants[r.id := r];
    }

    /** `Restaurant.findByPk(id)`. */
    function Lookup(id: string): (found: Option<Restaurant>)
      reads this
      ensures found.Some? <==> id in restaurants
      ensures found.Some? ==> found.value == restaurants[id]
    {
      if id in restaurants then Some(restaurants[id]) else None
    }

    /**
     * `approveRestaurant`: any stored row, whatever its status, becomes
     * approved and is saved before the owner is mailed; a mail that throws
     * turns the answer into 500 although the new status stays saved. An
     * unknown id gets 404 and nothing changes.
     */
    method Approve(id: string, owner: OwnerMail) returns (resp: Response)
      requires Valid()
      modifies this
      ensures Valid()
      ensures reviews == old(reviews)
      ensures id !in old(restaurants) ==>
        && resp == Response(404, "Restaurant not found")
        && restaurants == old(restaurants) && mails == old(mails)
      ensures id in old(restaurants) ==>
        && restaurants == old(restaurants)[id := old(restaurants)[id].(status := Approved)]
        && mails == old(mails) + StatusMails(owner, old(restaurants)[id].name, "approved")
        && resp == (if owner.SendFails? then Response(500, "Failed to approve restaurant")
                    else Response(200, "Restaurant approved successfully"))
    {
      if id !in restaurants {
        return Response(404, "Restaurant not found");
      }
      var r := restaurants[id];
      SetStatus(id, Approved);
      resp := Notify(owner, r.name, "approved", Response(200, "Restaurant approved successfully"),
                     Response(500, "Failed to approve restaurant"));
    }

    /**
     * `rejectRestaurant`: only a pending row becomes rejected (saved before
     * the owner is mailed, as for approve); a missing row or one in any other
     * status gets 404 and nothing changes.
     */
    method Reject(id: string, owner: OwnerMail) returns (resp: Response)
      requires Valid()
      modifies this
      ensures Valid()
      ensures reviews == old(reviews)
      ensures id !in old(restaurants) || old(restaurants)[id].status != Pending ==>
        && resp == Response(404, "Restaurant not found or not pending.")
        && restaurants == old(restaurants) && mails == old(mails)
      ensures id in old(restaurants) && old(restaurants)[id].status == Pending ==>
        && restaurants == old(restaurants)[id := old(restaurants)[id].(status := Rejected)]
        && mails == old(mails) + StatusMails(owner, old(restaurants)[id].name, "rejected")
        && resp == (if owner.SendFails? then Response(500, "Failed to reject restaurant.")
                    else Response(200, "Restaurant rejected successfully."))
    {
      if id !in restaurants || restaurants[id].status != Pending {
        return Response(404, "Restaurant not found or not pending.");
      }
      var r := restaurants[id];
      SetStatus(id, Rejected);
      resp := Notify(owner, r.name, "rejected", Response(200, "Restaurant rejected successfully."),
                     Response(500, "Failed to reject restaurant."));
    }

    /** `restaurant.status = s; await restaurant.save()`. */
    method SetStatus(id: string, s: Status)
      requires Valid() && id in restaurants
      modifies this
      ensures Valid()
      ensures restaurants == old(restaurants)[id := old(restaurants)[id].(status := s)]
      ensures reviews == old(reviews) && mails == old(mails)
    {
      restaurants := restaurants[id := restaurants[id].(status := s)];
    }

    /** Mail the owner if there is one; a send that throws yields `failure`. */
    method Notify(owner: OwnerMail, name: string, statusText: string, success: Response, failure: Response)
      returns (resp: Response)
      requires Valid()
      modifies this
      ensures Valid()
      ensures restaurants == old(restaurants) && reviews == old(reviews)
      ensures mails == old(mails) + StatusMails(owner, name, statusText)
      ensures resp == if owner.SendFails? then failure else success
    {
      match owner
      case NoOwner => resp := success;
      case Delivered(email) =>
        mails := mails + [StatusMail(email, name, statusText)];
        resp := success;
      case SendFails(_) => resp := failure;
    }

    /**
     * `approveDeleteRestaurant` as written: refused as `ApproveDeleteCheckAsWritten`
     * says, 500 for a missing id and 400 for a row without the flag. No stored
     * row carries the flag, so every call is refused and nothing changes: the
     * review cascade, the deletion and the mail after the flag test are never
     * reached (`ApproveDeleteIntended` carries them).
     */
    method ApproveDelete(id: string, owner: OwnerMail) returns (resp: Response)
      requires Valid()
      modifies this
      ensures Valid()
      ensures resp == (if id in old(restaurants) then Response(400, "Delete not requested for this restaurant.")
                       else Response(500, "Failed to approve deletion."))
      ensures restaurants == old(restaurants) && reviews == old(reviews) && mails == old(mails)
    {
      var found := Lookup(id);
      var stop := ApproveDeleteCheckAsWritten(found);
      if stop.None? {
        // `found` would carry the flag, which no stored row does.
        assert false;
      }
      resp := stop.value;
    }

    /**
     * The approve-delete the handler evidently intends: 404 for a missing
     * id, 400 unless the status is `delete_requested`, otherwise the same
     * cascade as `ApproveDelete`.
     */
    method ApproveDeleteIntended(id: string, owner: OwnerMail) returns (resp: Response)
      requires Valid()
      modifies this
      ensures Valid()
      ensures ApproveDeleteCheckIntended(old(Lookup(id))).Some? ==>
        && resp == ApproveDeleteCheckIntended(old(Lookup(id))).value
        && restaurants == old(restaurants) && reviews == old(reviews) && mails == old(mails)
      ensures ApproveDeleteCheckIntended(old(Lookup(id))).None? ==>
        && restaurants == old(restaurants) - {id}
        && reviews == Filter(old(reviews), NotFor(id))
        && mails == old(mails) + StatusMails(owner, old(restaurants)[id].name, "delete approved")
        && resp == (if owner.SendFails? then Response(500, "Failed to approve deletion.")
                    else Response(200, "Restaurant deletion approved and completed."))
    {
      var found := Lookup(id);
      var stop := ApproveDeleteCheckIntended(found);
      if stop.Some? {
        return stop.value;
      }
      var name := found.value.name;
      DestroyWithReviews(id);
      resp := Notify(owner, name, "delete approved", Response(200, "Restaurant deletion approved and completed."),
                     Response(500, "Failed to approve deletion."));
    }

    /**
     * `Review.destroy({ where: { restaurantId: id } })` followed by
     * `restaurant.destroy()`: afterwards no review refers to `id`, and every
     * other restaurant and review is as before, in the same order.
     */
    method DestroyWithReviews(id: string)
      requires Valid() && id in restaurants
      modifies this
      ensures Valid()
      ensures restaurants == old(restaurants) - {id}
      ensures reviews == Filter(old(reviews), NotFor(id))
      ensures ReviewsOf(reviews, id) == []
      ensures mails == old(mails)
    {
      DestroyKeepsConsistent(restaurants, reviews, id);
      reviews := Filter(reviews, NotFor(id));
      restaurants := restaurants - {id};
    }

    /**
     * `createReview`: the range test refuses a null rating and a number
     * outside [1, 5] with 400, and a missing restaurant gets 404; an absent
     * rating slips past the range test and is refused by the non-null column,
     * giving 500. Each refusal changes nothing. Otherwise exactly one review
     * row is appended, that restaurant's accumulators gain one rating,
     * nothing else changes, and the average returned is never null.
     */
    method CreateReview(restaurantId: string, userId: string, rating: RatingInput, comment: Option<string>, freshId: string)
      returns (resp: Response, average: Option<Ratio>)
      requires Valid()
      requires FindReview(reviews, freshId).None?  // a fresh UUID
      modifies this
      ensures Valid()
      ensures mails == old(mails)
      ensures resp.status == 201 <==> rating.Number? && 1 <= rating.n <= 5 && restaurantId in old(restaurants)
      ensures resp.status != 201 ==>
        average.None? && restaurants == old(restaurants) && reviews == old(reviews)
      ensures RangeRefuses(rating) ==> resp == Response(400, "Rating must be between 1 and 5")
      ensures !RangeRefuses(rating) && restaurantId !in old(restaurants) ==> resp == Response(404, "Restaurant not found")
      ensures rating.Absent? && restaurantId in old(restaurants) ==> resp == Response(500, "Failed to add review")
      ensures rating.Number? && 1 <= rating.n <= 5 && restaurantId in old(restaurants) ==>
        && resp == Response(201, "Review added successfully")
        && reviews == old(reviews) + [Review(freshId, restaurantId, userId, rating.n, comment)]
        && restaurants == old(restaurants)[restaurantId := AddRating(old(restaurants)[restaurantId], rating.n)]
        && average == AverageRating(restaurants[restaurantId])
        && average.Some?
    {
      if RangeRefuses(rating) {
        return Response(400, "Rating must be between 1 and 5"), None;
      }
      if restaurantId !in restaurants {
        return Response(404, "Restaurant not found"), None;
      }
      var v := CreateReviewRow(ReviewDraft(None, Some(restaurantId), Some(userId), RatingColumn(rating), comment), freshId);
      if v.Invalid? {
        return Response(500, "Failed to add review"), None;
      }
      var review := v.row;
      AddReviewKeepsConsistent(restaurants, reviews, review);
      reviews := reviews + [review];
      var r := AddRating(restaurants[restaurantId], review.rating);
      restaurants := restaurants[restaurantId := r];
      average := AverageRating(r);
      resp := Response(201, "Review added successfully");
    }

    /**
     * `getReviewsForRestaurant`: 404 for an unknown restaurant, otherwise
     * exactly the stored reviews whose `restaurantId` matches, in table order.
     */
    method GetReviewsForRestaurant(rid: string) returns (resp: Response, list: seq<Review>)
      requires Valid()
      ensures rid !in restaurants ==> resp == Response(404, "Restaurant not found") && list == []
      ensures rid in restaurants ==> resp.status == 200 && list == ReviewsOf(reviews, rid)
      ensures forall x :: x in list <==> rid in restaurants && x in reviews && x.restaurantId == rid
    {
      if rid !in restaurants {
        return Response(404, "Restaurant not found"), [];
      }
      list := ReviewsOf(reviews, rid);
      resp := Response(200, "");
    }

    /**
     * `deleteRating`: 404 for an unknown review id; otherwise that one row
     * goes and nothing else changes: in particular the restaurant's
     * `ratingsCount` and `totalRatings` keep counting it.
     */
    method DeleteRating(id: string) returns (resp: Response)
      requires Valid()
      modifies this
      ensures Valid()
      ensures restaurants == old(restaurants) && mails == old(mails)
      ensures FindReview(old(reviews), id).None? ==>
        resp == Response(404, "Review not found") && reviews == old(reviews)
      ensures FindReview(old(reviews), id).Some? ==>
        && resp == Response(200, "Review deleted successfully")
        && reviews == Filter(old(reviews), KeyIsNot(ReviewId, id))
        && |reviews| == |old(reviews)| - 1
    {
      var k := FindReview(reviews, id);
      if k.None? {
        return Response(404, "Review not found");
      }
      FilterOutUniqueKey(reviews, ReviewId, id);
      DeleteReviewKeepsConsistent(restaurants, reviews, id);
      reviews := Filter(reviews, KeyIsNot(ReviewId, id));
      resp := Response(200, "Review deleted successfully");
    }

    /**
     * `getPendingRestaurants`: one row per stored restaurant whose status is
     * pending, holding its selected attributes and its address, and no other
     * row.
     */
    function PendingRestaurants(): (rows: set<PendingRow>)
      reads this
      ensures forall row :: row in rows <==>
        && row.view.id in restaurants && restaurants[row.view.id].id == row.view.id
        && restaurants[row.view.id].status == Pending
        && row == PendingRowOf(restaurants[row.view.id])
      ensures Valid() ==> forall id :: id in restaurants && restaurants[id].status == Pending ==>
        PendingRowOf(restaurants[id]) in rows
    {
      set id | id in restaurants && restaurants[id].status == Pending && restaurants[id].id == id
        :: PendingRowOf(restaurants[id])
    }
  }

  /**
   * A deleted review keeps being counted: when a review with a new id is
   * added and then deleted, the review table is back to what it was, while
   * `AddRating` has already counted the rating for good.
   */
  lemma AddThenDeleteRestoresReviews(revs: seq<Review>, x: Review)
    requires forall i :: 0 <= i < |revs| ==> revs[i].id != x.id
    ensures Filter(revs + [x], KeyIsNot(ReviewId, x.id)) == revs
  {
    var keep := KeyIsNot(ReviewId, x.id);
    FilterAppend(revs, [x], keep);
    OtherIdsKept(revs, x.id);
    OwnIdDropped(x);
    assert revs + [] == revs;
  }

  /** Rows whose ids all differ from `id` are all kept by the filter on `id`. */
  lemma OtherIdsKept(revs: seq<Review>, id: string)
    requires forall i :: 0 <= i < |revs| ==> revs[i].id != id
    ensures Filter(revs, KeyIsNot(ReviewId, id)) == revs
  {
    forall i | 0 <= i < |revs| ensures KeyIsNot(ReviewId, id)(revs[i]) {
      assert KeyIsNot(ReviewId, id)(revs[i]) == (ReviewId(revs[i]) != id);
    }
    FilterKeepsAll(revs, KeyIsNot(ReviewId, id));
  }

  /** A row is dropped by the filter on its own id. */
  lemma OwnIdDropped(x: Review)
    ensures Filter([x], KeyIsNot(ReviewId, x.id)) == []
  {
    assert KeyIsNot(ReviewId, x.id)(x) == (ReviewId(x) != x.id);
    FilterKeepsNone([x], KeyIsNot(ReviewId, x.id));
  }

}
