/**
 * The working-hours part of `handleRestaurantRegistration` in
 * frontend/src/pages/BusinessRegistrationPage.js: the form state (the
 * three flags, the closed days, the shared hours and the per-day hours
 * edited by `handleDayWiseChange`) becomes the `workingHours` value sent
 * to the server.
 */
module Registration {
  import opened Wrappers
  import opened Seqs
  import opened Days

  /** The per-day hours as the form holds them: day name to `{start, end}` fields. */
  type DayHours = map<string, map<string, string>>

  /** A field of a day's entry, when both the day and the field are present. */
  function Field(hours: DayHours, day: string, key: string): Option<string>
  {
    if day in hours && key in hours[day] then Some(hours[day][key]) else None
  }

  /** `specificHours[day]?.start && specificHours[day]?.end`: both times present and non-empty. */
  predicate HasBothTimes(hours: DayHours, day: string)
  {
    var s := Field(hours, day, "start");
    var e := Field(hours, day, "end");
    s.Some? && s.value != "" && e.Some? && e.value != ""
  }

  /** The `{start, end}` entry copied into the payload for a day that has both times. */
  function EntryOf(hours: DayHours, day: string): (string, Hours)
    requires HasBothTimes(hours, day)
  {
    (day, Hours(hours[day]["start"], hours[day]["end"]))
  }

  /** The `spec` object after the `forEach` over the candidate days, in the order its keys were added. */
  function SpecificOf(candidates: seq<string>, hours: DayHours): (spec: seq<(string, Hours)>)
    ensures |spec| <= |candidates|
    ensures forall i :: 0 <= i < |spec| ==> spec[i].0 in candidates && HasBothTimes(hours, spec[i].0)
    decreases |candidates|
  {
    if candidates == [] then []
    else
      var day := candidates[|candidates| - 1];
      SpecificOf(candidates[..|candidates| - 1], hours) + (if HasBothTimes(hours, day) then [EntryOf(hours, day)] else [])
  }

  /**
   * The payload's `specific` holds exactly the candidate days that have both
   * a non-empty start and a non-empty end, each with the times entered for it.
   */
  lemma {:induction false} SpecificMembers(candidates: seq<string>, hours: DayHours, e: (string, Hours))
    ensures e in SpecificOf(candidates, hours) <==>
      e.0 in candidates && HasBothTimes(hours, e.0) && e == EntryOf(hours, e.0)
    decreases |candidates|
  {
    if candidates != [] {
      var init := candidates[..|candidates| - 1];
      var day := candidates[|candidates| - 1];
      SpecificMembers(init, hours, e);
      assert candidates == init + [day];
    }
  }

  /** `specific` never holds more entries than there are candidate days. */
  lemma {:induction false} SpecificNoLonger(candidates: seq<string>, hours: DayHours)
    ensures |SpecificOf(candidates, hours)| <= |candidates|
    decreases |candidates|
  {
    if candidates != [] {
      SpecificNoLonger(candidates[..|candidates| - 1], hours);
    }
  }

  /**
   * The `forEach` that fills `spec`: each candidate day with both times
   * gets an entry, in candidate order.
   */
  method BuildSpecific(candidates: seq<string>, hours: DayHours) returns (spec: seq<(string, Hours)>)
    ensures spec == SpecificOf(candidates, hours)
  {
    spec := [];
    var i := 0;
    while i < |candidates|
      invariant i <= |candidates|
      invariant spec == SpecificOf(candidates[..i], hours)
    {
      var day := candidates[i];
      if Field(hours, day, "start").Some? && Field(hours, day, "start").value != "" &&
         Field(hours, day, "end").Some? && Field(hours, day, "end").value != "" {
        spec := spec + [(day, Hours(hours[day]["start"], hours[day]["end"]))];
      }
      assert candidates[..i + 1][..i] == candidates[..i];
      i := i + 1;
    }
    assert candidates[..i] == candidates;
  }

  /**
   * `handleRestaurantRegistration`'s `workingHoursData`: the three flags
   * always; with the same hours every day, `allDays` from the shared start
   * and end; otherwise `specific` built over the whole week when open all
   * days, or over the open days (`getOpenDays`) when not.
   */
  method AssembleWorkingHours(openAllDays: bool, sameHoursAllDays: bool, closedDays: seq<string>,
                              allDaysStart: string, allDaysEnd: string, hours: DayHours)
    returns (wh: WorkingHours)
    ensures wh.openAllDays == openAllDays && wh.sameHoursAllDays == sameHoursAllDays
    ensures wh.closedDays == Some(closedDays)
    ensures sameHoursAllDays ==> wh.allDays == Some(Hours(allDaysStart, allDaysEnd)) && wh.specific.None?
    ensures !sameHoursAllDays ==> wh.allDays.None? && wh.specific == Some(SpecificOf(OpenDays(openAllDays, closedDays), hours))
  {
    wh := WorkingHours(openAllDays, sameHoursAllDays, Some(closedDays), None, None);
    var openDays := OpenDays(openAllDays, closedDays);
    if openAllDays && sameHoursAllDays {
      wh := wh.(allDays := Some(Hours(allDaysStart, allDaysEnd)));
    } else if openAllDays && !sameHoursAllDays {
      var spec := BuildSpecific(MondayFirst, hours);
      wh := wh.(specific := Some(spec));
    } else {
      if sameHoursAllDays {
        wh := wh.(allDays := Some(Hours(allDaysStart, allDaysEnd)));
      } else {
        var spec := BuildSpecific(openDays, hours);
        wh := wh.(specific := Some(spec));
      }
    }
  }

  /**
   * With per-day hours, a day appears in the payload exactly when it is a
   * week-day, open (all days open, or not among the closed days) and has
   * both times entered.
   */
  lemma SpecificDaysAreOpenDays(openAllDays: bool, closedDays: seq<string>, hours: DayHours, e: (string, Hours))
    ensures e in SpecificOf(OpenDays(openAllDays, closedDays), hours) <==>
      e.0 in MondayFirst && (openAllDays || e.0 !in closedDays) &&
      HasBothTimes(hours, e.0) && e == EntryOf(hours, e.0)
  {
    SpecificMembers(OpenDays(openAllDays, closedDays), hours, e);
  }

  /**
   * Editing one field of one day with `handleDayWiseChange` changes the
   * payload entry of that day only: every other day keeps whether it is sent
   * and with which times.
   */
  lemma DayWiseChangeIsLocal(hours: DayHours, day: string, key: string, value: string, d: string)
    requires d != day
    ensures HasBothTimes(SetDayHours(hours, day, key, value), d) == HasBothTimes(hours, d)
    ensures HasBothTimes(hours, d) ==> EntryOf(SetDayHours(hours, day, key, value), d) == EntryOf(hours, d)
  {
  }
}
