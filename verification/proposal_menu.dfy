/** The proposal menu of a listing: a guest picks the days of the week,
    the reservation span in weeks (a fixed option or a custom number), and
    sees the check-in and check-out days, the rent and the warnings about
    the host's preferences. Money is a `real` here. */
module ProposalMenu {
  import opened Strings
  import opened JsNumbers
  import opened Collections
  import opened DaySets
  import ScheduleSelector

  /** A day cell: its key and the letter shown on it. */
  datatype WeekDay = WeekDay(id: string, dayLabel: string, index: int)

  const WeekDays: seq<WeekDay> := [
    WeekDay("sun", "S", 0),
    WeekDay("mon", "M", 1),
    WeekDay("tue", "T", 2),
    WeekDay("wed", "W", 3),
    WeekDay("thu", "T", 4),
    WeekDay("fri", "F", 5),
    WeekDay("sat", "S", 6)
  ]

  /** A reservation span option; value 0 is "Other", the custom entry. */
  datatype SpanOption = SpanOption(value: int, caption: string)

  const SpanOptions: seq<SpanOption> := [
    SpanOption(6, "6 weeks"),
    SpanOption(7, "7 weeks"),
    SpanOption(8, "8 weeks"),
    SpanOption(9, "9 weeks (~2 months)"),
    SpanOption(10, "10 weeks"),
    SpanOption(12, "12 weeks"),
    SpanOption(13, "13 weeks (3 months)"),
    SpanOption(16, "16 weeks"),
    SpanOption(17, "17 weeks (~4 months)"),
    SpanOption(20, "20 weeks"),
    SpanOption(22, "22 weeks (~5 months)"),
    SpanOption(26, "26 weeks (6 months)"),
    SpanOption(0, "Other (wks)")
  ]

  /** The host's preferences; `idealDays` may be absent. */
  datatype HostPreferences = HostPreferences(minWeeks: int, maxWeeks: int, idealDays: Option<int>)

  // ---------------------------------------------------------------------
  // Check-in and check-out

  /** The name of day `i`, found from the letter on its cell and, for the
      letters two days share, from the index. */
  function DayName(i: int): (r: string)
    requires 0 <= i < 7
    ensures |r| > 3 && [r[0]] == WeekDays[i].dayLabel && EndsWith(r, "day")
  {
    var l := WeekDays[i].dayLabel;
    if l == "S" && i == 0 then "Sunday"
    else if l == "M" then "Monday"
    else if l == "T" && i == 2 then "Tuesday"
    else if l == "W" then "Wednesday"
    else if l == "T" && i == 4 then "Thursday"
    else if l == "F" then "Friday"
    else "Saturday"
  }

  /** The letter chain names every day correctly: it agrees with the full
      names of the schedule selector's day table. */
  lemma DayNameIsFullName(i: int)
    requires 0 <= i < 7
    ensures DayName(i) == ScheduleSelector.DaysOfWeek[i].fullName
  {
  }

  datatype Stay = Stay(checkIn: Option<string>, checkOut: Option<string>)

  /** `getCheckInCheckOutDays`: the first and last of the selected days in
      increasing order, or neither when nothing is selected. */
  function CheckInCheckOut(days: seq<int>): (r: Stay)
    requires InWeek(Members(days))
    ensures r.checkIn.None? <==> |days| == 0
    ensures r.checkOut.None? <==> |days| == 0
    ensures |days| > 0 ==> r.checkIn == Some(DayName(Min(days))) && r.checkOut == Some(DayName(Max(days)))
  {
    if |days| == 0 then Stay(None, None)
    else
      var a := SortAsc(days);
      SortedEnds(days);
      Stay(Some(DayName(a[0])), Some(DayName(a[|a| - 1])))
  }

  /** The ends of the sorted list are the smallest and the largest element. */
  lemma SortedEnds(days: seq<int>)
    requires |days| > 0
    ensures |SortAsc(days)| == |days|
    ensures SortAsc(days)[0] == Min(days)
    ensures SortAsc(days)[|days| - 1] == Max(days)
  {
    var a := SortAsc(days);
    SameElements(a, days);
    AscendingEnds(a, days);
  }

  /** An ascending list with the elements of `s` starts with the smallest of
      them and ends with the largest. */
  lemma AscendingEnds(a: seq<int>, s: seq<int>)
    requires Ascending(a) && |a| > 0 && |s| > 0
    requires forall x :: x in a <==> x in s
    ensures a[0] == Min(s) && a[|a| - 1] == Max(s)
  {
    var lo, hi := Min(s), Max(s);
    assert lo in a && hi in a;
    var i :| 0 <= i < |a| && a[i] == lo;
    var j :| 0 <= j < |a| && a[j] == hi;
    assert a[0] <= a[i] && a[0] in s;
    assert a[j] <= a[|a| - 1] && a[|a| - 1] in s;
  }

  /** Check-in and check-out name the earliest and the latest selected day
      of the week (Sunday first). */
  lemma CheckInCheckOutNames(days: seq<int>)
    requires InWeek(Members(days)) && |days| > 0
    ensures CheckInCheckOut(days).checkIn == Some(ScheduleSelector.DaysOfWeek[Min(days)].fullName)
    ensures CheckInCheckOut(days).checkOut == Some(ScheduleSelector.DaysOfWeek[Max(days)].fullName)
    ensures forall d :: d in days ==> Min(days) <= d <= Max(days)
  {
    assert Min(days) in Members(days) && Max(days) in Members(days);
    DayNameIsFullName(Min(days));
    DayNameIsFullName(Max(days));
  }

  // ---------------------------------------------------------------------
  // Pricing

  /** Nights per week: one fewer than the days, none for no day. */
  function NightsPerWeek(size: int): (r: int)
    ensures r >= 0
    ensures size > 0 ==> r + 1 == size
    ensures size <= 0 ==> r == 0
  {
    if size > 0 then size - 1 else 0
  }

  /** A selection of distinct days of the week has at most six nights. */
  lemma NightsBound(days: seq<int>)
    requires NoDup(days) && InWeek(Members(days))
    ensures 0 <= NightsPerWeek(|days|) <= 6
    ensures NightsPerWeek(|days|) == 0 <==> |days| <= 1
  {
    ScheduleSelector.NoDupSize(days);
    forall x | x in Members(days)
      ensures x in Arc(0, 7)
    {
      ScheduleSelector.ArcMember(0, 7, x);
    }
    ArcSize(0, 7);
    var week, m := Arc(0, 7), Members(days);
    assert (week - m) + m == week && (week - m) * m == {};
  }

  /** The number of weeks the total is computed for: the custom number when
      the custom entry is shown and not empty, else the chosen span. `None`
      is `NaN`, from a custom entry with no leading digits. */
  function EffectiveSpan(showCustomInput: bool, customWeeks: string, reservationSpan: int): (r: Option<int>)
    ensures !showCustomInput || customWeeks == "" ==> r == Some(reservationSpan)
    ensures showCustomInput && customWeeks != "" ==> r == ParseInt(customWeeks)
  {
    if showCustomInput && customWeeks != "" then ParseInt(customWeeks) else Some(reservationSpan)
  }

  /** A custom number typed in digits is the span used. */
  lemma CustomSpanUsed(reservationSpan: int, weeks: int)
    ensures EffectiveSpan(true, IntToString(weeks), reservationSpan) == Some(weeks)
  {
    ParseIntToString(weeks);
  }

  datatype PricingCalc = PricingCalc(fourWeekRent: real, reservationTotal: Option<real>, nightsPerWeek: int)

  /** `calculatePricing`: four weeks of the nights at the nightly price, and
      a quarter of that for each week of the span (`NaN` stays `NaN`). */
  function Pricing(size: int, perNight: real, span: Option<int>): (r: PricingCalc)
    ensures r.nightsPerWeek == NightsPerWeek(size)
    ensures r.fourWeekRent == 4.0 * (NightsPerWeek(size) as real) * perNight
    ensures r.reservationTotal.None? <==> span.None?
  {
    var nightsPerWeek := NightsPerWeek(size);
    var fourWeekRent := (nightsPerWeek as real) * 4.0 * perNight;
    var reservationTotal := if span.None? then None else Some((fourWeekRent / 4.0) * (span.value as real));
    PricingCalc(fourWeekRent, reservationTotal, nightsPerWeek)
  }

  /** The total is nights per week times the nightly price times the weeks
      of the span; it grows with the span for a positive price. */
  lemma ReservationTotalIsNightsTimesWeeks(size: int, perNight: real, weeks: int)
    ensures Pricing(size, perNight, Some(weeks)).reservationTotal ==
      Some((NightsPerWeek(size) as real) * perNight * (weeks as real))
    ensures size > 1 && perNight > 0.0 && weeks > 0 ==>
      Pricing(size, perNight, Some(weeks)).reservationTotal.value > 0.0
  {
    var n, w := NightsPerWeek(size) as real, weeks as real;
    var x := n * 4.0 * perNight / 4.0 * w;
    assert Pricing(size, perNight, Some(weeks)).reservationTotal.value == x;
    assert x == n * perNight * w;
    if size > 1 && perNight > 0.0 && weeks > 0 {
      assert n * perNight > 0.0;
      assert n * perNight * w > 0.0;
    }
  }

  // ---------------------------------------------------------------------
  // Host preferences

  /** `isOutsideHostPreference`: the span is below the host's minimum or
      above the maximum; `NaN` compares as neither. */
  function SpanWarning(span: Option<int>, prefs: HostPreferences): (r: bool)
    ensures span.None? ==> !r
    ensures span.Some? && prefs.minWeeks > prefs.maxWeeks ==> r
  {
    span.Some? && (span.value < prefs.minWeeks || span.value > prefs.maxWeeks)
  }

  /** The span warning shows exactly when the span is a number outside the
      host's range of weeks. */
  lemma SpanWarningIff(span: Option<int>, prefs: HostPreferences)
    ensures SpanWarning(span, prefs) ==> span.Some?
    ensures span.Some? ==> (!SpanWarning(span, prefs) <==> prefs.minWeeks <= span.value <= prefs.maxWeeks)
  {
  }

  /** Widening the host's range of weeks never adds the span warning. */
  lemma SpanWarningWiderRange(span: Option<int>, narrow: HostPreferences, wide: HostPreferences)
    requires wide.minWeeks <= narrow.minWeeks && narrow.maxWeeks <= wide.maxWeeks
    ensures SpanWarning(span, wide) ==> SpanWarning(span, narrow)
  {
  }

  /** `isDaysOutsidePreference`: with an ideal number set (and not 0), more
      nights per week than it. */
  function DaysWarning(size: int, prefs: HostPreferences): (r: bool)
    ensures r ==> prefs.idealDays.Some? && prefs.idealDays.value != 0
    ensures r ==> NightsPerWeek(size) > prefs.idealDays.value
  {
    if prefs.idealDays.None? || prefs.idealDays.value == 0 then false
    else NightsPerWeek(size) > prefs.idealDays.value
  }

  /** Selecting more days never clears the days warning. */
  lemma DaysWarningMonotone(size: int, larger: int, prefs: HostPreferences)
    requires size <= larger
    ensures DaysWarning(size, prefs) ==> DaysWarning(larger, prefs)
  {
  }

  /** With a positive ideal, the warning needs at least two days more than
      the ideal number of nights. */
  lemma DaysWarningNeedsDays(size: int, prefs: HostPreferences)
    requires prefs.idealDays.Some? && prefs.idealDays.value > 0
    ensures DaysWarning(size, prefs) <==> size >= prefs.idealDays.value + 2
  {
  }

  /** What the menu reports to `onProposalChange`. */
  datatype ProposalData = ProposalData(
    moveInDate: string,
    strictMoveIn: bool,
    selectedDays: seq<int>,
    reservationSpan: Option<int>,
    customWeeks: Option<int>,
    fourWeekRent: real,
    reservationTotal: Option<real>)

  /** `parseInt(customWeeks) || 0`: `NaN` and 0 both give 0. */
  function CustomWeeksOrZero(customWeeks: string): (r: int)
    ensures ParseInt(customWeeks).Some? && ParseInt(customWeeks).value != 0 ==> r == ParseInt(customWeeks).value
    ensures ParseInt(customWeeks).None? ==> r == 0
  {
    var p := ParseInt(customWeeks);
    if p.None? || p.value == 0 then 0 else p.value
  }

  // ---------------------------------------------------------------------
  // The component

  class Menu {
    var moveInDate: string
    var strictMoveIn: bool
    /** `selectedDays`, a set kept in insertion order. */
    var selected: seq<int>
    var reservationSpan: int
    var customWeeks: string
    var showCustomInput: bool
    const perNight: real
    const prefs: HostPreferences

    /** The custom entry is only shown, and so only edited, in custom mode;
        leaving custom mode clears it. */
    predicate Valid()
      reads this
    {
      NoDup(selected) && (!showCustomInput ==> customWeeks == "")
    }

    /** The span the totals and warnings use. */
    function Span(): Option<int>
      reads this
    {
      EffectiveSpan(showCustomInput, customWeeks, reservationSpan)
    }

    /** The data passed to `onProposalChange` after each change. */
    function Proposal(): (p: ProposalData)
      reads this
      ensures p.moveInDate == moveInDate && p.strictMoveIn == strictMoveIn && p.selectedDays == selected
      ensures p.customWeeks.None? <==> !showCustomInput
      ensures showCustomInput ==> p.customWeeks == Some(CustomWeeksOrZero(customWeeks))
      ensures showCustomInput && ParseInt(customWeeks).None? ==> p.customWeeks == Some(0)
      ensures p.reservationSpan == Span()
      ensures p.fourWeekRent == Pricing(|selected|, perNight, Span()).fourWeekRent
      ensures p.reservationTotal == Pricing(|selected|, perNight, Span()).reservationTotal
    {
      var pricing := Pricing(|selected|, perNight, Span());
      ProposalData(moveInDate, strictMoveIn, selected, Span(),
        if showCustomInput then Some(CustomWeeksOrZero(customWeeks)) else None,
        pricing.fourWeekRent, pricing.reservationTotal)
    }

    constructor (perNight: real, prefs: HostPreferences, initialMoveInDate: string,
                 initialSelectedDays: seq<int>, initialReservationSpan: int)
      ensures Valid()
      ensures this.perNight == perNight && this.prefs == prefs
      ensures moveInDate == initialMoveInDate && !strictMoveIn
      ensures selected == Dedup(initialSelectedDays)
      ensures reservationSpan == initialReservationSpan
      ensures customWeeks == "" && !showCustomInput
      ensures Span() == Some(initialReservationSpan)
    {
      this.perNight := perNight;
      this.prefs := prefs;
      moveInDate := initialMoveInDate;
      strictMoveIn := false;
      selected := Dedup(initialSelectedDays);
      reservationSpan := initialReservationSpan;
      customWeeks := "";
      showCustomInput := false;
    }

    /** `handleDayToggle`: day `dayIndex` leaves the selection when it is
        in it and joins it otherwise. */
    method ToggleDay(dayIndex: int)
      requires Valid()
      modifies this
      ensures Valid()
      ensures dayIndex in selected <==> dayIndex !in old(selected)
      ensures forall d :: d != dayIndex ==> (d in selected <==> d in old(selected))
      ensures selected == Toggle(old(selected), dayIndex)
      ensures reservationSpan == old(reservationSpan) && customWeeks == old(customWeeks)
      ensures showCustomInput == old(showCustomInput)
      ensures moveInDate == old(moveInDate) && strictMoveIn == old(strictMoveIn)
    {
      var newSelection := selected;
      if dayIndex in newSelection {
        newSelection := Remove(newSelection, dayIndex);
      } else {
        newSelection := Add(newSelection, dayIndex);
      }
      selected := newSelection;
    }

    /** `handleReservationSpanChange` for the option `option`, whose value
        the select passes as text and the handler parses back: "Other" (0)
        shows the custom entry with span 0; any other option hides it, takes
        that span and clears the entry. */
    method ChangeSpan(option: int)
      requires Valid()
      modifies this
      ensures Valid()
      ensures option == 0 ==> showCustomInput && reservationSpan == 0 && customWeeks == old(customWeeks)
      ensures option != 0 ==> !showCustomInput && reservationSpan == option && customWeeks == ""
      ensures old(showCustomInput) == false && option == 0 ==> Span() == Some(0)
      ensures option != 0 ==> Span() == Some(option)
      ensures selected == old(selected) && moveInDate == old(moveInDate) && strictMoveIn == old(strictMoveIn)
    {
      ParseIntToString(option);
      var value := ParseInt(IntToString(option)).value;
      assert value == option;
      if value == 0 {
        showCustomInput := true;
        reservationSpan := 0;
      } else {
        showCustomInput := false;
        reservationSpan := value;
        customWeeks := "";
      }
    }

    /** Typing in the custom entry, which is only shown in custom mode. */
    method SetCustomWeeks(text: string)
      requires Valid() && showCustomInput
      modifies this
      ensures Valid()
      ensures customWeeks == text && showCustomInput
      ensures text != "" ==> Span() == ParseInt(text)
      ensures text == "" ==> Span() == Some(reservationSpan)
      ensures selected == old(selected) && reservationSpan == old(reservationSpan)
      ensures moveInDate == old(moveInDate) && strictMoveIn == old(strictMoveIn)
    {
      customWeeks := text;
    }

    method SetMoveInDate(text: string)
      requires Valid()
      modifies this
      ensures Valid()
      ensures moveInDate == text
      ensures selected == old(selected) && reservationSpan == old(reservationSpan)
      ensures customWeeks == old(customWeeks) && showCustomInput == old(showCustomInput)
      ensures strictMoveIn == old(strictMoveIn)
    {
      moveInDate := text;
    }

    method SetStrictMoveIn(checked: bool)
      requires Valid()
      modifies this
      ensures Valid()
      ensures strictMoveIn == checked
      ensures selected == old(selected) && reservationSpan == old(reservationSpan)
      ensures customWeeks == old(customWeeks) && showCustomInput == old(showCustomInput)
      ensures moveInDate == old(moveInDate)
    {
      strictMoveIn := checked;
    }
  }
}
