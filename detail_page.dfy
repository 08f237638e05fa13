/**
 * The text helpers of frontend/src/pages/RestaurantDetailPage.js:
 * `formatDaysOpen` and `formatCustomHours`, which compress a list of days
 * into ranges of days consecutive in the Sunday-first week, and the
 * `fullAddress` template.
 *
 * Both compressions walk a day list and cut it wherever a day is not the
 * week-day right after its predecessor (`daysMap.indexOf(b) !==
 * daysMap.indexOf(a) + 1`). `Runs` states that cut once as a
 * specification: the maximal runs of adjacent days.
 */
module DetailPage {
  import opened Wrappers
  import opened Strings
  import opened Seqs
  import opened Records
  import opened Days

  /** `daysMap.indexOf(d)`: the Sunday-first position of a day name, -1 for any other string. */
  function Pos(d: string): int
  {
    IndexOf(SundayFirst, d)
  }

  /** The week positions of a day list, one per day. */
  function Positions(days: seq<string>): (ps: seq<int>)
    ensures |ps| == |days|
  {
    seq(|days|, k requires 0 <= k < |days| => Pos(days[k]))
  }

  /** A run of a day list: the positions `lo` through `hi`. */
  datatype Run = Run(lo: nat, hi: nat)

  /**
   * The day after position `k` is the week-day right after it (Saturday is
   * never followed by Sunday).
   */
  predicate Follows(ps: seq<int>, k: nat)
    requires k + 1 < |ps|
  {
    ps[k + 1] == ps[k] + 1
  }

  /** The last position of the maximal run of adjacent days that starts at `lo`. */
  function RunEnd(ps: seq<int>, lo: nat): (hi: nat)
    requires lo < |ps|
    ensures lo <= hi < |ps|
    ensures forall k :: lo <= k < hi ==> Follows(ps, k)
    ensures hi == |ps| - 1 || !Follows(ps, hi)
    decreases |ps| - lo
  {
    if lo == |ps| - 1 || !Follows(ps, lo) then lo else RunEnd(ps, lo + 1)
  }

  /** Every run lies inside a list of length `n` and starts no later than it ends. */
  predicate RunsWithin(n: nat, rs: seq<Run>)
  {
    forall k :: 0 <= k < |rs| ==> rs[k].lo <= rs[k].hi < n
  }

  /** The maximal runs of adjacent days from position `lo` on, in list order. */
  function Runs(ps: seq<int>, lo: nat): (rs: seq<Run>)
    requires lo <= |ps|
    ensures RunsWithin(|ps|, rs)
    ensures rs == [] <==> lo == |ps|
    ensures rs != [] ==> rs[0].lo == lo
    decreases |ps| - lo
  {
    if lo == |ps| then []
    else
      var hi := RunEnd(ps, lo);
      var rest := Runs(ps, hi + 1);
      assert forall k :: 1 <= k < |rest| + 1 ==> ([Run(lo, hi)] + rest)[k] == rest[k - 1];
      [Run(lo, hi)] + rest
  }

  /**
   * Consecutive runs meet: each run starts right after the previous one
   * ends, and the two days at the seam are not adjacent in the week (the
   * runs are maximal).
   */
  lemma {:induction false} RunsChain(ps: seq<int>, lo: nat, k: nat)
    requires lo <= |ps| && k + 1 < |Runs(ps, lo)|
    ensures Runs(ps, lo)[k].hi + 1 == Runs(ps, lo)[k + 1].lo
    ensures !Follows(ps, Runs(ps, lo)[k].hi)
    decreases k
  {
    var hi := RunEnd(ps, lo);
    var rest := Runs(ps, hi + 1);
    assert Runs(ps, lo) == [Run(lo, hi)] + rest;
    if k > 0 {
      RunsChain(ps, hi + 1, k - 1);
      assert Runs(ps, lo)[k] == rest[k - 1] && Runs(ps, lo)[k + 1] == rest[k];
    }
  }

  /** The last run ends at the last day: the runs cover the list to its end. */
  lemma {:induction false} RunsReachEnd(ps: seq<int>, lo: nat)
    requires lo < |ps|
    ensures Runs(ps, lo)[|Runs(ps, lo)| - 1].hi == |ps| - 1
    decreases |ps| - lo
  {
    var hi := RunEnd(ps, lo);
    var rest := Runs(ps, hi + 1);
    assert Runs(ps, lo) == [Run(lo, hi)] + rest;
    if hi + 1 < |ps| {
      RunsReachEnd(ps, hi + 1);
      assert Runs(ps, lo)[|Runs(ps, lo)| - 1] == rest[|rest| - 1];
    }
  }

  /** Inside a run every day is the week-day right after its predecessor. */
  lemma {:induction false} RunsAreAdjacent(ps: seq<int>, lo: nat, k: nat, j: nat)
    requires lo <= |ps| && k < |Runs(ps, lo)|
    requires Runs(ps, lo)[k].lo <= j < Runs(ps, lo)[k].hi
    ensures Follows(ps, j)
    decreases k
  {
    var hi := RunEnd(ps, lo);
    var rest := Runs(ps, hi + 1);
    assert Runs(ps, lo) == [Run(lo, hi)] + rest;
    if k > 0 {
      assert Runs(ps, lo)[k] == rest[k - 1];
      RunsAreAdjacent(ps, hi + 1, k - 1, j);
    }
  }

  /** Runs of `Runs` appear in list order: an earlier run ends before a later one starts. */
  lemma {:induction false} RunsOrdered(ps: seq<int>, lo: nat, a: nat, b: nat)
    requires lo <= |ps| && a < b < |Runs(ps, lo)|
    ensures Runs(ps, lo)[a].hi < Runs(ps, lo)[b].lo
    decreases b - a
  {
    RunsChain(ps, lo, a);
    if b > a + 1 {
      RunsOrdered(ps, lo, a + 1, b);
    }
  }

  /** Every position of the list lies in exactly one run. */
  lemma {:induction false} EachDayInExactlyOneRun(ps: seq<int>, j: nat)
    requires j < |ps|
    ensures exists k :: 0 <= k < |Runs(ps, 0)| && Runs(ps, 0)[k].lo <= j <= Runs(ps, 0)[k].hi
    ensures forall k, k' ::
      (0 <= k < |Runs(ps, 0)| && 0 <= k' < |Runs(ps, 0)| &&
       Runs(ps, 0)[k].lo <= j <= Runs(ps, 0)[k].hi && Runs(ps, 0)[k'].lo <= j <= Runs(ps, 0)[k'].hi) ==> k == k'
  {
    var rs := Runs(ps, 0);
    var k := RunContaining(ps, rs, j);
    forall k1, k2 | 0 <= k1 < |rs| && 0 <= k2 < |rs| && rs[k1].lo <= j <= rs[k1].hi && rs[k2].lo <= j <= rs[k2].hi
      ensures k1 == k2
    {
      if k1 < k2 {
        RunsOrdered(ps, 0, k1, k2);
      } else if k2 < k1 {
        RunsOrdered(ps, 0, k2, k1);
      }
    }
  }

  /** The run that contains position `j`, found by walking the runs in order. */
  lemma {:induction false} RunContaining(ps: seq<int>, rs: seq<Run>, j: nat) returns (k: nat)
    requires rs == Runs(ps, 0) && j < |ps|
    ensures k < |rs| && rs[k].lo <= j <= rs[k].hi
  {
    RunsReachEnd(ps, 0);
    k := 0;
    while rs[k].hi < j
      invariant k < |rs| && rs[k].lo <= j
      decreases |rs| - k
    {
      RunsChain(ps, 0, k);
      k := k + 1;
    }
  }

  /** Inside one run the positions count up by one: a run names a contiguous stretch of the week. */
  lemma {:induction false} RunIsContiguous(ps: seq<int>, k: nat, j: nat)
    requires k < |Runs(ps, 0)|
    requires Runs(ps, 0)[k].lo <= j <= Runs(ps, 0)[k].hi
    ensures ps[j] == ps[Runs(ps, 0)[k].lo] + (j - Runs(ps, 0)[k].lo)
    decreases j
  {
    if j > Runs(ps, 0)[k].lo {
      RunIsContiguous(ps, k, j - 1);
      RunsAreAdjacent(ps, 0, k, j - 1);
    }
  }

  /** How a range prints: its day alone when it starts and ends on the same name, else `First - Last`. */
  function RangeLabel(first: string, last: string): string
  {
    if first == last then first else first + " - " + last
  }

  /** How a run prints. */
  function Label(days: seq<string>, r: Run): string
    requires r.lo <= r.hi < |days|
  {
    RangeLabel(days[r.lo], days[r.hi])
  }

  /** The printed runs, in order. */
  function Labels(days: seq<string>, rs: seq<Run>): (ls: seq<string>)
    requires RunsWithin(|days|, rs)
    ensures |ls| == |rs|
    decreases |rs|
  {
    if rs == [] then [] else [Label(days, rs[0])] + Labels(days, rs[1..])
  }

  /** The ranges of a day list: the labels of its maximal runs. */
  function RangesOf(days: seq<string>): seq<string>
  {
    Labels(days, Runs(Positions(days), 0))
  }

  /** The runs from `s`: the run that starts there, then the runs after it. */
  lemma RunsStep(ps: seq<int>, s: nat)
    requires s < |ps|
    ensures Runs(ps, s) == [Run(s, RunEnd(ps, s))] + Runs(ps, RunEnd(ps, s) + 1)
  {
  }

  /**
   * One step of the walk over a day list: when the run from `s` ends at
   * `i - 1`, the labels still to produce are that run's label followed by
   * the labels of the runs from `i`.
   */
  lemma SplitOffRun(days: seq<string>, ps: seq<int>, s: nat, i: nat)
    requires |ps| == |days| && s < i <= |days| && RunEnd(ps, s) == i - 1
    ensures Labels(days, Runs(ps, s)) == [RangeLabel(days[s], days[i - 1])] + Labels(days, Runs(ps, i))
  {
    RunsStep(ps, s);
    var rs := Runs(ps, s);
    assert rs[0] == Run(s, i - 1) && rs[1..] == Runs(ps, i);
  }

  /** Where a run ends, given that it reaches at least `i - 1`, decided by the day at `i`. */
  lemma RunEndStep(ps: seq<int>, s: nat, i: nat)
    requires s < i <= |ps| && RunEnd(ps, s) >= i - 1
    ensures (i == |ps| || !Follows(ps, i - 1)) ==> RunEnd(ps, s) == i - 1
    ensures (i < |ps| && Follows(ps, i - 1)) ==> RunEnd(ps, s) >= i
  {
  }

  /**
   * The loop of `formatDaysOpen`: walks the list once, closing a range
   * whenever the next day is not adjacent or the list ends. The ranges it
   * builds are the labels of the maximal runs.
   */
  method CompressDays(days: seq<string>) returns (ranges: seq<string>)
    ensures ranges == RangesOf(days)
  {
    ranges := [];
    if |days| == 0 {
      return;
    }
    var ps := Positions(days);
    var start := days[0];
    ghost var s := 0;
    var i := 1;
    while i <= |days|
      invariant 1 <= i <= |days| + 1
      invariant i <= |days| ==> s < i && start == days[s] && RunEnd(ps, s) >= i - 1
      invariant i <= |days| ==> RangesOf(days) == ranges + Labels(days, Runs(ps, s))
      invariant i == |days| + 1 ==> RangesOf(days) == ranges
    {
      RunEndStep(ps, s, i);
      if i == |days| || !Follows(ps, i - 1) {
        SplitOffRun(days, ps, s, i);
        AppendFirst(ranges, RangeLabel(start, days[i - 1]), Labels(days, Runs(ps, i)));
        ranges := ranges + [RangeLabel(start, days[i - 1])];
        if i < |days| {
          start := days[i];
        }
        s := i;
      }
      i := i + 1;
    }
  }

  /** Moving the head of the remainder onto the produced prefix. */
  lemma AppendFirst<T>(done: seq<T>, x: T, rest: seq<T>)
    ensures done + ([x] + rest) == (done + [x]) + rest
  {
  }

  /** Joining with a separator peels off the first part, and the separator when more parts follow. */
  lemma JoinPeel(done: string, x: string, rest: seq<string>, sep: string)
    ensures done + Join([x] + rest, sep) == (if rest == [] then done + x else done + x + sep) + Join(rest, sep)
  {
    assert ([x] + rest)[1..] == rest;
  }

  /**
   * The inner loop of `formatCustomHours`: the same walk, appending each
   * range to one string and a `, ` after every range but the last. The
   * string is the ranges joined by `, `.
   */
  method GroupedDays(days: seq<string>) returns (grouped: string)
    ensures grouped == Join(RangesOf(days), ", ")
  {
    grouped := "";
    if |days| == 0 {
      return;
    }
    var ps := Positions(days);
    var start := days[0];
    ghost var s := 0;
    var i := 1;
    while i <= |days|
      invariant 1 <= i <= |days| + 1
      invariant i <= |days| ==> s < i && start == days[s] && RunEnd(ps, s) >= i - 1
      invariant i <= |days| ==> Join(RangesOf(days), ", ") == grouped + Join(Labels(days, Runs(ps, s)), ", ")
      invariant i == |days| + 1 ==> Join(RangesOf(days), ", ") == grouped
    {
      RunEndStep(ps, s, i);
      if i == |days| || !Follows(ps, i - 1) {
        SplitOffRun(days, ps, s, i);
        ghost var rest := Labels(days, Runs(ps, i));
        assert rest == [] <==> i == |days|;
        JoinPeel(grouped, RangeLabel(start, days[i - 1]), rest, ", ");
        grouped := grouped + RangeLabel(start, days[i - 1]);
        if i < |days| {
          grouped := grouped + ", ";
          start := days[i];
        }
        s := i;
      }
      i := i + 1;
    }
  }

  /** The open days of the Sunday-first week: `daysMap` without the closed days. */
  function WeekOpen(closedDays: seq<string>): seq<string>
  {
    Filter(SundayFirst, NotIn(closedDays))
  }

  /** A day is shown as open exactly when it is a week-day and not among the closed days. */
  lemma WeekOpenMembers(closedDays: seq<string>, d: string)
    ensures d in WeekOpen(closedDays) <==> d in SundayFirst && d !in closedDays
  {
  }

  /** What `formatDaysOpen` returns. */
  function DaysOpenText(workingHours: Option<WorkingHours>): string
  {
    if workingHours.None? then "Not specified"
    else
      var open := WeekOpen(ClosedOf(workingHours.value));
      if open == [] then "Closed All Days" else "Open: " + Join(RangesOf(open), ", ")
  }

  /**
   * `formatDaysOpen`: "Not specified" without working hours, "Closed All
   * Days" when every day is closed, otherwise the ranges of the open days
   * after "Open: ".
   */
  method FormatDaysOpen(workingHours: Option<WorkingHours>) returns (text: string)
    ensures text == DaysOpenText(workingHours)
    ensures workingHours.None? ==> text == "Not specified"
  {
    if workingHours.None? {
      return "Not specified";
    }
    var open := WeekOpen(ClosedOf(workingHours.value));
    if |open| == 0 {
      return "Closed All Days";
    }
    var ranges := CompressDays(open);
    text := "Open: " + Join(ranges, ", ");
  }

  /** The open days keep the week order: their positions strictly increase. */
  lemma {:induction false} WeekOpenIncreasing(closedDays: seq<string>, i: nat, j: nat)
    requires i < j < |WeekOpen(closedDays)|
    ensures 0 <= Pos(WeekOpen(closedDays)[i]) < Pos(WeekOpen(closedDays)[j])
  {
    var open := WeekOpen(closedDays);
    FilterIsSubsequence(SundayFirst, NotIn(closedDays));
    var pi := SubsequencePosition(open, SundayFirst, i);
    var pj := SubsequencePosition(open, SundayFirst, j);
    SubsequencePositionsIncrease(open, SundayFirst, i, j);
    SundayFirstPositions(pi);
    SundayFirstPositions(pj);
  }

  /** Each name of the week sits at its own position. */
  lemma SundayFirstPositions(p: nat)
    requires p < 7
    ensures Pos(SundayFirst[p]) == p
  {
  }

  /** The position in `big` that the `i`-th element of a subsequence comes from. */
  ghost function SubsequencePosition<T>(small: seq<T>, big: seq<T>, i: nat): (p: nat)
    requires IsSubsequence(small, big) && i < |small|
    ensures p < |big| && big[p] == small[i]
    decreases |big|
  {
    if small[0] == big[0] then
      (if i == 0 then 0 else 1 + SubsequencePosition(small[1..], big[1..], i - 1))
    else 1 + SubsequencePosition(small, big[1..], i)
  }

  /** Later elements of a subsequence come from later positions. */
  lemma {:induction false} SubsequencePositionsIncrease<T>(small: seq<T>, big: seq<T>, i: nat, j: nat)
    requires IsSubsequence(small, big) && i < j < |small|
    ensures SubsequencePosition(small, big, i) < SubsequencePosition(small, big, j)
    decreases |big|
  {
    if small[0] == big[0] {
      if i > 0 {
        SubsequencePositionsIncrease(small[1..], big[1..], i - 1, j - 1);
      }
    } else {
      SubsequencePositionsIncrease(small, big[1..], i, j);
    }
  }

  /** Distinct positions of the week hold distinct names. */
  lemma WeekDaysDistinct(p: nat, q: nat)
    requires p < 7 && q < 7 && p != q
    ensures SundayFirst[p] != SundayFirst[q]
  {
    SundayFirstPositions(p);
    SundayFirstPositions(q);
  }

  /** With Tuesday to Friday closed, exactly Sunday, Monday and Saturday pass the open-day test. */
  lemma MidweekClosed(closed: seq<string>, p: nat)
    requires closed == [SundayFirst[2], SundayFirst[3], SundayFirst[4], SundayFirst[5]]
    requires p < 7
    ensures NotIn(closed)(SundayFirst[p]) == (p < 2 || p == 6)
  {
    if p < 2 || p == 6 {
      forall q | 2 <= q < 6 ensures SundayFirst[p] != SundayFirst[q] {
        WeekDaysDistinct(p, q);
      }
    } else {
      assert SundayFirst[p] == closed[p - 2];
    }
  }

  /** With Tuesday to Friday closed, Sunday, Monday and Saturday stay open, in week order. */
  lemma OpenWithoutMidweek(closed: seq<string>)
    requires closed == [SundayFirst[2], SundayFirst[3], SundayFirst[4], SundayFirst[5]]
    ensures WeekOpen(closed) == [SundayFirst[0], SundayFirst[1], SundayFirst[6]]
  {
    forall p | 0 <= p < 7 ensures NotIn(closed)(SundayFirst[p]) == (p < 2 || p == 6) {
      MidweekClosed(closed, p);
    }
    FilterFirstTwoAndLast(SundayFirst, NotIn(closed));
  }

  /** The last three of seven elements, of which only the last is kept, filter to that one. */
  lemma FilterKeepsOnlySeventh<T(!new)>(w: seq<T>, keep: T -> bool)
    requires |w| == 7 && !keep(w[4]) && !keep(w[5]) && keep(w[6])
    ensures Filter(w[4..], keep) == [w[6]]
  {
    assert Filter(w[7..], keep) == [];
    FilterSuffix(w, keep, 6);
    FilterSuffix(w, keep, 5);
    FilterSuffix(w, keep, 4);
  }

  /** Dropping the third and fourth of seven elements as well leaves the last one alone. */
  lemma FilterFromThirdKeepsOnlySeventh<T(!new)>(w: seq<T>, keep: T -> bool)
    requires |w| == 7 && !keep(w[2]) && !keep(w[3]) && !keep(w[4]) && !keep(w[5]) && keep(w[6])
    ensures Filter(w[2..], keep) == [w[6]]
  {
    FilterKeepsOnlySeventh(w, keep);
    FilterSuffix(w, keep, 3);
    FilterSuffix(w, keep, 2);
  }

  /** Filtering a seven-element sequence that keeps only its first two and its last element. */
  lemma FilterFirstTwoAndLast<T(!new)>(w: seq<T>, keep: T -> bool)
    requires |w| == 7
    requires forall p :: 0 <= p < 7 ==> keep(w[p]) == (p < 2 || p == 6)
    ensures Filter(w, keep) == [w[0], w[1], w[6]]
  {
    assert keep(w[0]) && keep(w[1]) && !keep(w[2]) && !keep(w[3]);
    assert !keep(w[4]) && !keep(w[5]) && keep(w[6]);
    FilterFromThirdKeepsOnlySeventh(w, keep);
    FilterSuffix(w, keep, 1);
    FilterSuffix(w, keep, 0);
    assert w[0..] == w;
  }

  /** A list of week-days, given by their places in the Sunday-first week, has those places as its positions. */
  lemma PositionsOfWeekDays(days: seq<string>, places: seq<int>)
    requires |days| == |places|
    requires forall k :: 0 <= k < |places| ==> 0 <= places[k] < 7 && days[k] == SundayFirst[places[k]]
    ensures Positions(days) == places
  {
    forall k | 0 <= k < |places| ensures Positions(days)[k] == places[k] {
      SundayFirstPositions(places[k]);
    }
  }

  /** Positions 0 and 1 are adjacent; 1 and 6 are not. */
  lemma RunsOfZeroOneSix(ps: seq<int>)
    requires ps == [0, 1, 6]
    ensures Runs(ps, 0) == [Run(0, 1), Run(2, 2)]
  {
    assert RunEnd(ps, 2) == 2;
    assert RunEnd(ps, 0) == 1;
    RunsStep(ps, 0);
    RunsStep(ps, 2);
  }

  /** Sunday and Monday are adjacent; Monday and Saturday are not. */
  lemma RunsWithoutMidweek(days: seq<string>)
    requires days == [SundayFirst[0], SundayFirst[1], SundayFirst[6]]
    ensures Runs(Positions(days), 0) == [Run(0, 1), Run(2, 2)]
  {
    PositionsOfWeekDays(days, [0, 1, 6]);
    RunsOfZeroOneSix(Positions(days));
  }

  /** Sunday and Monday are one range; Saturday, not followed by Sunday, is another. */
  lemma RangesWithoutMidweek(days: seq<string>)
    requires days == [SundayFirst[0], SundayFirst[1], SundayFirst[6]]
    ensures RangesOf(days) == [SundayFirst[0] + " - " + SundayFirst[1], SundayFirst[6]]
  {
    RunsWithoutMidweek(days);
    WeekDaysDistinct(0, 1);
    assert [Run(0, 1), Run(2, 2)][1..] == [Run(2, 2)];
    assert [Run(2, 2)][1..] == [];
  }

  /** The closed days a working-hours value lists, none when it lists none. */
  function ClosedOf(wh: WorkingHours): seq<string>
  {
    if wh.closedDays.Some? then wh.closedDays.value else []
  }

  /** When some day is open, the text is "Open: " and the ranges of the open days. */
  lemma OpenText(wh: WorkingHours, open: seq<string>)
    requires WeekOpen(ClosedOf(wh)) == open && open != []
    ensures DaysOpenText(Some(wh)) == "Open: " + Join(RangesOf(open), ", ")
  {
  }

  /** Joining two parts puts the separator between them. */
  lemma JoinTwo(a: string, b: string, sep: string)
    ensures Join([a, b], sep) == a + sep + b
  {
    assert [a, b][1..] == [b];
  }

  /**
   * There is no wrap-around: with Tuesday to Friday closed, Sunday and
   * Monday form one range and Saturday another, although Saturday is
   * followed by Sunday in the calendar.
   */
  lemma NoWrapAround(wh: WorkingHours)
    requires wh.closedDays == Some([SundayFirst[2], SundayFirst[3], SundayFirst[4], SundayFirst[5]])
    ensures DaysOpenText(Some(wh)) == "Open: " + (SundayFirst[0] + " - " + SundayFirst[1] + ", " + SundayFirst[6])
  {
    var open := [SundayFirst[0], SundayFirst[1], SundayFirst[6]];
    OpenWithoutMidweek(ClosedOf(wh));
    OpenText(wh, open);
    RangesWithoutMidweek(open);
    JoinTwo(SundayFirst[0] + " - " + SundayFirst[1], SundayFirst[6], ", ");
  }

  /** The whole week, in Sunday-first order, is a single run. */
  lemma WeekIsOneRun()
    ensures RangesOf(SundayFirst) == [SundayFirst[0] + " - " + SundayFirst[6]]
  {
    var ps := Positions(SundayFirst);
    forall p | 0 <= p < 7 ensures ps[p] == p {
      SundayFirstPositions(p);
    }
    assert ps == [0, 1, 2, 3, 4, 5, 6];
    assert RunEnd(ps, 6) == 6;
    assert RunEnd(ps, 5) == 6;
    assert RunEnd(ps, 4) == 6;
    assert RunEnd(ps, 3) == 6;
    assert RunEnd(ps, 2) == 6;
    assert RunEnd(ps, 1) == 6;
    assert RunEnd(ps, 0) == 6;
    RunsStep(ps, 0);
    WeekDaysDistinct(0, 6);
  }

  /** Without closed days every day of the week is open. */
  lemma WeekOpenWithoutClosed()
    ensures WeekOpen([]) == SundayFirst
  {
    FilterKeepsAll(SundayFirst, NotIn([]));
  }

  /** With no closed days the whole week is one range. */
  lemma AllWeekIsOneRange(wh: WorkingHours)
    requires wh.closedDays.None? || wh.closedDays == Some([])
    ensures DaysOpenText(Some(wh)) == "Open: " + (SundayFirst[0] + " - " + SundayFirst[6])
  {
    WeekOpenWithoutClosed();
    OpenText(wh, SundayFirst);
    WeekIsOneRun();
  }

  /**
   * A Saturday (week position 6) always ends its run: no range continues
   * from Saturday into Sunday.
   */
  lemma SaturdayEndsRun(days: seq<string>, k: nat, j: nat)
    requires k < |Runs(Positions(days), 0)|
    requires Runs(Positions(days), 0)[k].lo <= j <= Runs(Positions(days), 0)[k].hi
    requires Pos(days[j]) == 6
    ensures j == Runs(Positions(days), 0)[k].hi
  {
    if j < Runs(Positions(days), 0)[k].hi {
      RunsAreAdjacent(Positions(days), 0, k, j);
    }
  }

  /** The text of one time-range group: its day ranges, a colon, the time range. */
  function GroupText(range: string, days: seq<string>): string
  {
    Join(RangesOf(days), ", ") + ": " + range
  }

  /** The key a `specific` entry is grouped under: `${start} - ${end}`. */
  function RangeText(h: Hours): string
  {
    h.start + " - " + h.end
  }

  /** A time-range group: the range and its days in entry order. */
  type Group = (string, seq<string>)

  /** The test "this group is the one for `range`". */
  function GroupKeyIs(range: string): Group -> bool
  {
    (g: Group) => g.0 == range
  }

  /** One step of the grouping: the day joins its range's group, which is opened at the end if new. */
  function AddToGroup(groups: seq<Group>, day: string, range: string): seq<Group>
  {
    match FirstIndex(groups, GroupKeyIs(range))
    case None => groups + [(range, [day])]
    case Some(k) => groups[k := (range, groups[k].1 + [day])]
  }

  /** `timeGroups` after the `forEach` over the entries. */
  function GroupsOf(entries: seq<(string, Hours)>): (groups: seq<Group>)
    ensures |groups| <= |entries|
    ensures entries != [] ==> groups != []
    decreases |entries|
  {
    if entries == [] then []
    else
      var last := entries[|entries| - 1];
      AddToGroup(GroupsOf(entries[..|entries| - 1]), last.0, RangeText(last.1))
  }

  /** The days of the entries whose time range is `range`, in entry order. */
  function DaysWithRange(entries: seq<(string, Hours)>, range: string): seq<string>
    decreases |entries|
  {
    if entries == [] then []
    else
      var last := entries[|entries| - 1];
      DaysWithRange(entries[..|entries| - 1], range) + (if RangeText(last.1) == range then [last.0] else [])
  }

  /** Some group has the range `range`. */
  ghost predicate HasGroup(groups: seq<Group>, range: string)
  {
    exists k :: 0 <= k < |groups| && groups[k].0 == range
  }

  /**
   * The position of the first entry whose time range is `range`, or the
   * number of entries when there is none.
   */
  function FirstEntryWith(entries: seq<(string, Hours)>, range: string): (f: nat)
    ensures f <= |entries|
    ensures f < |entries| ==> RangeText(entries[f].1) == range
    ensures forall i :: 0 <= i < f && i < |entries| ==> RangeText(entries[i].1) != range
    ensures f == |entries| ==> forall i :: 0 <= i < |entries| ==> RangeText(entries[i].1) != range
    decreases |entries|
  {
    if entries == [] then 0
    else
      var init := entries[..|entries| - 1];
      var f := FirstEntryWith(init, range);
      if f < |init| then f
      else if RangeText(entries[|entries| - 1].1) == range then |init|
      else |entries|
  }

  /** Some entry has the range exactly when some day is listed under it. */
  lemma {:induction false} FirstEntryWithIffDays(entries: seq<(string, Hours)>, range: string)
    ensures FirstEntryWith(entries, range) < |entries| <==> DaysWithRange(entries, range) != []
    decreases |entries|
  {
    if entries != [] {
      FirstEntryWithIffDays(entries[..|entries| - 1], range);
    }
  }

  /** Appending an entry leaves an existing first occurrence where it was. */
  lemma FirstEntryWithAppend(entries: seq<(string, Hours)>, e: (string, Hours), range: string)
    ensures FirstEntryWith(entries, range) < |entries| ==>
      FirstEntryWith(entries + [e], range) == FirstEntryWith(entries, range)
    ensures FirstEntryWith(entries, range) == |entries| && RangeText(e.1) == range ==>
      FirstEntryWith(entries + [e], range) == |entries|
  {
    assert (entries + [e])[..|entries|] == entries;
  }

  /** The groups come in the order in which their ranges first occur. */
  ghost predicate GroupsOrdered(groups: seq<Group>, entries: seq<(string, Hours)>)
  {
    forall a, b :: 0 <= a < b < |groups| ==>
      FirstEntryWith(entries, groups[a].0) < FirstEntryWith(entries, groups[b].0)
  }

  /**
   * The groups are those of the entries: no two share a range, each holds
   * exactly the days with its range in entry order, a range has a group
   * exactly when some entry has that range, and the groups come in the
   * order in which their ranges first occur.
   */
  ghost predicate GroupsMatch(groups: seq<Group>, entries: seq<(string, Hours)>)
  {
    && (forall a, b :: 0 <= a < |groups| && 0 <= b < |groups| && groups[a].0 == groups[b].0 ==> a == b)
    && (forall k :: 0 <= k < |groups| ==> groups[k].1 == DaysWithRange(entries, groups[k].0))
    && (forall range :: HasGroup(groups, range) <==> DaysWithRange(entries, range) != [])
    && GroupsOrdered(groups, entries)
  }

  /** The ranges that already have a group keep their first occurrence when an entry is added. */
  lemma GroupedRangesKeepFirst(groups: seq<Group>, entries: seq<(string, Hours)>, e: (string, Hours), k: nat)
    requires GroupsMatch(groups, entries)
    requires k < |groups|
    ensures FirstEntryWith(entries, groups[k].0) < |entries|
    ensures FirstEntryWith(entries + [e], groups[k].0) == FirstEntryWith(entries, groups[k].0)
  {
    assert HasGroup(groups, groups[k].0);
    FirstEntryWithIffDays(entries, groups[k].0);
    FirstEntryWithAppend(entries, e, groups[k].0);
  }

  /** Appending a day to an existing group keeps the groups in order. */
  lemma OldGroupKeepsOrder(groups: seq<Group>, entries: seq<(string, Hours)>, e: (string, Hours), after: seq<Group>)
    requires GroupsMatch(groups, entries)
    requires |after| == |groups| && forall k :: 0 <= k < |groups| ==> after[k].0 == groups[k].0
    ensures GroupsOrdered(after, entries + [e])
  {
    forall a, b | 0 <= a < b < |after|
      ensures FirstEntryWith(entries + [e], after[a].0) < FirstEntryWith(entries + [e], after[b].0)
    {
      GroupedRangesKeepFirst(groups, entries, e, a);
      GroupedRangesKeepFirst(groups, entries, e, b);
    }
  }

  /** A group opened at the end for a new range keeps the groups in order. */
  lemma NewGroupKeepsOrder(groups: seq<Group>, entries: seq<(string, Hours)>, e: (string, Hours))
    requires GroupsMatch(groups, entries)
    requires !HasGroup(groups, RangeText(e.1))
    ensures GroupsOrdered(groups + [(RangeText(e.1), [e.0])], entries + [e])
  {
    var r := RangeText(e.1);
    var after := groups + [(r, [e.0])];
    FirstEntryWithIffDays(entries, r);
    FirstEntryWithAppend(entries, e, r);
    assert FirstEntryWith(entries + [e], r) == |entries|;
    forall a, b | 0 <= a < b < |after|
      ensures FirstEntryWith(entries + [e], after[a].0) < FirstEntryWith(entries + [e], after[b].0)
    {
      GroupedRangesKeepFirst(groups, entries, e, a);
      if b < |groups| {
        GroupedRangesKeepFirst(groups, entries, e, b);
      }
    }
  }

  /** Adding an entry adds its day to the days of its own range and to no other. */
  lemma DaysWithRangeAppend(entries: seq<(string, Hours)>, e: (string, Hours), range: string)
    ensures DaysWithRange(entries + [e], range) ==
      DaysWithRange(entries, range) + (if RangeText(e.1) == range then [e.0] else [])
  {
    assert (entries + [e])[..|entries|] == entries;
  }

  /** A new range opens a group at the end. */
  lemma AddNewGroupMatches(groups: seq<Group>, entries: seq<(string, Hours)>, e: (string, Hours))
    requires GroupsMatch(groups, entries)
    requires FirstIndex(groups, GroupKeyIs(RangeText(e.1))).None?
    ensures GroupsMatch(AddToGroup(groups, e.0, RangeText(e.1)), entries + [e])
  {
    var r := RangeText(e.1);
    var after := AddToGroup(groups, e.0, r);
    assert after == groups + [(r, [e.0])];
    forall k | 0 <= k < |groups| ensures groups[k].0 != r {
      assert !GroupKeyIs(r)(groups[k]);
    }
    assert !HasGroup(groups, r);
    forall range ensures DaysWithRange(entries + [e], range) ==
      DaysWithRange(entries, range) + (if r == range then [e.0] else []) {
      DaysWithRangeAppend(entries, e, range);
    }
    forall range ensures HasGroup(after, range) <==> DaysWithRange(entries + [e], range) != [] {
      if HasGroup(after, range) && range != r {
        var k :| 0 <= k < |after| && after[k].0 == range;
        assert after[k] == groups[k];
      }
      if range != r && HasGroup(groups, range) {
        var k :| 0 <= k < |groups| && groups[k].0 == range;
        assert after[k].0 == range;
      }
      if range == r {
        assert after[|groups|].0 == range;
      }
    }
    forall k | 0 <= k < |after| ensures after[k].1 == DaysWithRange(entries + [e], after[k].0) {
      if k < |groups| {
        assert after[k] == groups[k];
      }
    }
    NewGroupKeepsOrder(groups, entries, e);
  }

  /** A range seen before gets the day appended to its group. */
  lemma AddToOldGroupMatches(groups: seq<Group>, entries: seq<(string, Hours)>, e: (string, Hours), j: nat)
    requires GroupsMatch(groups, entries)
    requires FirstIndex(groups, GroupKeyIs(RangeText(e.1))) == Some(j)
    ensures GroupsMatch(AddToGroup(groups, e.0, RangeText(e.1)), entries + [e])
  {
    var r := RangeText(e.1);
    var after := AddToGroup(groups, e.0, r);
    assert groups[j].0 == r;
    assert after == groups[j := (r, groups[j].1 + [e.0])];
    forall range ensures DaysWithRange(entries + [e], range) ==
      DaysWithRange(entries, range) + (if r == range then [e.0] else []) {
      DaysWithRangeAppend(entries, e, range);
    }
    forall k | 0 <= k < |after| ensures after[k].1 == DaysWithRange(entries + [e], after[k].0) {
      if k != j {
        assert after[k] == groups[k];
      }
    }
    forall range ensures HasGroup(after, range) <==> DaysWithRange(entries + [e], range) != [] {
      if HasGroup(after, range) {
        var k :| 0 <= k < |after| && after[k].0 == range;
        assert groups[k].0 == range;
      }
      if HasGroup(groups, range) {
        var k :| 0 <= k < |groups| && groups[k].0 == range;
        assert after[k].0 == range;
      }
      if range == r {
        assert after[j].0 == range;
      }
    }
    OldGroupKeepsOrder(groups, entries, e, after);
  }

  /**
   * The grouping of `formatCustomHours` is right: there is one group per
   * distinct time range that occurs, each group holds exactly the days
   * with that range, in entry order, and the groups come in the order in
   * which their ranges first occur.
   */
  lemma {:induction false} GroupsOfCorrect(entries: seq<(string, Hours)>)
    ensures GroupsMatch(GroupsOf(entries), entries)
    decreases |entries|
  {
    if entries != [] {
      var init := entries[..|entries| - 1];
      var e := entries[|entries| - 1];
      GroupsOfCorrect(init);
      assert entries == init + [e];
      match FirstIndex(GroupsOf(init), GroupKeyIs(RangeText(e.1)))
      case None => AddNewGroupMatches(GroupsOf(init), init, e);
      case Some(j) => AddToOldGroupMatches(GroupsOf(init), init, e, j);
    }
  }

  /**
   * The `forEach` of `formatCustomHours` that fills `timeGroups`: a range
   * seen for the first time opens a new group at the end (`Object.entries`
   * keeps insertion order, and a key holding " - " is never an array
   * index), and the day is pushed onto its group.
   */
  method GroupByRange(entries: seq<(string, Hours)>) returns (groups: seq<Group>)
    ensures groups == GroupsOf(entries)
  {
    groups := [];
    var i := 0;
    while i < |entries|
      invariant i <= |entries|
      invariant groups == GroupsOf(entries[..i])
    {
      var day := entries[i].0;
      var range := RangeText(entries[i].1);
      var k := FirstIndex(groups, GroupKeyIs(range));
      ghost var before := groups;
      ghost var found := k;
      if k.None? {
        groups := groups + [(range, [])];
        k := Some(|groups| - 1);
      }
      groups := groups[k.value := (range, groups[k.value].1 + [day])];
      if found.None? {
        assert [] + [day] == [day];
        assert groups == before + [(range, [day])];
      }
      assert entries[..i + 1][..i] == entries[..i];
      i := i + 1;
    }
    assert entries[..i] == entries;
  }

  /** What `formatCustomHours` returns. */
  function CustomHoursText(workingHours: Option<WorkingHours>): string
  {
    if workingHours.None? then "Not specified"
    else if workingHours.value.specific.Some? && workingHours.value.specific.value != [] then
      var groups := GroupsOf(workingHours.value.specific.value);
      Join(seq(|groups|, k requires 0 <= k < |groups| => GroupText(groups[k].0, groups[k].1)), ", ")
    else if workingHours.value.allDays.Some? then
      "All Days: " + workingHours.value.allDays.value.start + " - " + workingHours.value.allDays.value.end
    else "Not specified"
  }

  /**
   * `formatCustomHours`: with day-specific hours, one `days: range` text
   * per time-range group, joined by `, `; otherwise the shared hours after
   * "All Days: "; otherwise "Not specified".
   */
  method FormatCustomHours(workingHours: Option<WorkingHours>) returns (text: string)
    ensures text == CustomHoursText(workingHours)
  {
    if workingHours.None? {
      return "Not specified";
    }
    var wh := workingHours.value;
    if wh.specific.Some? && |wh.specific.value| > 0 {
      var groups := GroupByRange(wh.specific.value);
      var formatted: seq<string> := [];
      var k := 0;
      while k < |groups|
        invariant k <= |groups|
        invariant |formatted| == k
        invariant forall m :: 0 <= m < k ==> formatted[m] == GroupText(groups[m].0, groups[m].1)
      {
        var grouped := GroupedDays(groups[k].1);
        formatted := formatted + [grouped + ": " + groups[k].0];
        k := k + 1;
      }
      assert formatted == seq(|groups|, m requires 0 <= m < |groups| => GroupText(groups[m].0, groups[m].1));
      return Join(formatted, ", ");
    }
    if wh.allDays.Some? {
      return "All Days: " + wh.allDays.value.start + " - " + wh.allDays.value.end;
    }
    text := "Not specified";
  }

  /** `fullAddress`: street, the building segment, city, state, then ` - ` and the pincode. */
  function FullAddress(r: Restaurant): string
  {
    r.street + ", " + BuildingSegment(r.building) + r.city + ", " + r.state + " - " + r.pincode
  }

  /**
   * The detail page shows the building exactly when it is non-empty: two
   * restaurants that differ only in the building get the same address
   * exactly when both buildings are empty or both are the same string.
   */
  lemma FullAddressShowsBuilding(r: Restaurant, b: Option<string>)
    ensures FullAddress(r) == FullAddress(r.(building := b)) <==>
      BuildingSegment(r.building) == BuildingSegment(b)
    ensures BuildingSegment(b) == "" <==> b.None? || b.value == ""
  {
    var pre := r.street + ", ";
    var post := r.city + ", " + r.state + " - " + r.pincode;
    assert FullAddress(r) == pre + BuildingSegment(r.building) + post;
    assert FullAddress(r.(building := b)) == pre + BuildingSegment(b) + post;
    MiddleDecides(pre, BuildingSegment(r.building), BuildingSegment(b), post);
  }
}
