/**
 * Day lists and working-hours values shared by the frontend pages: the two
 * week orders, closed-day toggling (`toggleClosedDay`, `toggleEditClosedDay`),
 * open-day derivation (`getOpenDays`, `getOpenDaysForEdit`) and the per-day
 * hour edits of `handleDayWiseChange`.
 */
module Days {
  import opened Wrappers
  import opened Seqs

  /** `daysMap` of frontend/src/pages/RestaurantDetailPage.js: the week from Sunday. */
  const SundayFirst: seq<string> := ["Sunday", "Monday", "Tuesday", "Wednesday", "Thursday", "Friday", "Saturday"]

  /** `daysOfWeek` of the registration page and the owner dashboard: the week from Monday. */
  const MondayFirst: seq<string> := ["Monday", "Tuesday", "Wednesday", "Thursday", "Friday", "Saturday", "Sunday"]

  /** An opening and a closing time as entered. */
  datatype Hours = Hours(start: string, end: string)

  /**
   * The `workingHours` JSON value. `specific` lists its day entries in the
   * object's key order (day names are never integer-like, so that is
   * insertion order).
   */
  datatype WorkingHours = WorkingHours(
    openAllDays: bool,
    sameHoursAllDays: bool,
    closedDays: Option<seq<string>>,
    allDays: Option<Hours>,
    specific: Option<seq<(string, Hours)>>)

  /** `xs.indexOf(x)`: the first position of `x`, or -1. */
  function IndexOf(xs: seq<string>, x: string): (k: int)
    ensures -1 <= k < |xs|
    ensures k == -1 <==> x !in xs
    ensures k >= 0 ==> xs[k] == x && forall j :: 0 <= j < k ==> xs[j] != x
    decreases |xs|
  {
    if |xs| == 0 then -1
    else if xs[0] == x then 0
    else var k := IndexOf(xs[1..], x); if k == -1 then -1 else k + 1
  }

  /** The test `(d) => !list.includes(d)`. */
  function NotIn(list: seq<string>): string -> bool
  {
    (d: string) => d !in list
  }

  /** The test `(d) => d !== day`. */
  function IsNot(day: string): string -> bool
  {
    (d: string) => d != day
  }

  /**
   * `prev.includes(day) ? prev.filter((d) => d !== day) : [...prev, day]`:
   * a present day is removed with all its copies, an absent one appended.
   */
  function Toggle(prev: seq<string>, day: string): (next: seq<string>)
    ensures day in next <==> day !in prev
    ensures forall d :: d != day ==> (d in next <==> d in prev)
    ensures day !in prev ==> next == prev + [day]
    ensures day in prev ==> IsSubsequence(next, prev) && |next| < |prev|
  {
    if day in prev then
      FilterIsSubsequence(prev, IsNot(day));
      FilterDropsMember(prev, IsNot(day), day);
      Filter(prev, IsNot(day))
    else prev + [day]
  }

  /** Dropping an element that fails the test makes the filtered sequence strictly shorter. */
  lemma {:induction false} FilterDropsMember(xs: seq<string>, p: string -> bool, x: string)
    requires x in xs && !p(x)
    ensures |Filter(xs, p)| < |xs|
    decreases |xs|
  {
    if xs[0] != x {
      FilterDropsMember(xs[1..], p, x);
    }
  }

  /** Toggling an absent day twice gives back the list exactly. */
  lemma ToggleTwiceAbsent(prev: seq<string>, day: string)
    requires day !in prev
    ensures Toggle(Toggle(prev, day), day) == prev
  {
    var once := prev + [day];
    forall i | 0 <= i < |prev| ensures IsNot(day)(prev[i]) {
      assert prev[i] in prev;
    }
    FilterKeepsAll(prev, IsNot(day));
    FilterAppend(prev, [day], IsNot(day));
    assert Filter([day], IsNot(day)) == [];
  }

  /**
   * Toggling a present day twice keeps it closed but moves it, as a single
   * copy, to the end; the other days keep their order.
   */
  lemma TogglePresentTwiceMovesToEnd(prev: seq<string>, day: string)
    requires day in prev
    ensures Toggle(Toggle(prev, day), day) == Filter(prev, IsNot(day)) + [day]
    ensures forall d :: d in Toggle(Toggle(prev, day), day) <==> d in prev
  {
  }

  /**
   * The open days in Monday-first order (`getOpenDays` and
   * `getOpenDaysForEdit`): the whole week when open all days, else the
   * week without the closed days.
   */
  function OpenDays(openAllDays: bool, closedDays: seq<string>): (days: seq<string>)
    ensures openAllDays ==> days == MondayFirst
    ensures forall d :: d in days <==> d in MondayFirst && (openAllDays || d !in closedDays)
    ensures IsSubsequence(days, MondayFirst)
  {
    if openAllDays then
      assert IsSubsequence(MondayFirst[6..], MondayFirst[6..]);
      MondayFirst
    else
      FilterIsSubsequence(MondayFirst, NotIn(closedDays));
      Filter(MondayFirst, NotIn(closedDays))
  }

  /** Toggling a closed day flips exactly that day between open and closed. */
  lemma ToggleFlipsOpenDay(closedDays: seq<string>, day: string, d: string)
    requires d in MondayFirst
    ensures d == day ==> (d in OpenDays(false, Toggle(closedDays, day)) <==> d !in OpenDays(false, closedDays))
    ensures d != day ==> (d in OpenDays(false, Toggle(closedDays, day)) <==> d in OpenDays(false, closedDays))
  {
  }

  /**
   * `handleDayWiseChange(day, key, value)`: sets `specific[day][key]`,
   * starting from an empty entry when the day had none; every other day,
   * and every other key of that day, is unchanged.
   */
  function SetDayHours(prev: map<string, map<string, string>>, day: string, key: string, value: string)
    : (next: map<string, map<string, string>>)
    ensures next.Keys == prev.Keys + {day}
    ensures day in next && key in next[day] && next[day][key] == value
    ensures forall d :: d in prev && d != day ==> next[d] == prev[d]
    ensures day in prev ==> (next[day].Keys == prev[day].Keys + {key} &&
      forall k :: k in prev[day] && k != key ==> next[day][k] == prev[day][k])
    ensures day !in prev ==> next[day] == map[key := value]
  {
    var entry := if day in prev then prev[day] else map[];
    prev[day := entry[key := value]]
  }
}
