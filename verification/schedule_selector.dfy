/** The weekly schedule selector: seven day cells that are toggled by a
    click or selected as a run by dragging, the contiguity rule (a run may
    wrap from Saturday to Sunday), and the night-count validation. */
module ScheduleSelector {
  import opened Strings
  import opened JsNumbers
  import opened Collections
  import opened DaySets

  /** A day cell. */
  datatype Day = Day(id: string, singleLetter: string, fullName: string, index: int)

  const DaysOfWeek: seq<Day> := [
    Day("1", "S", "Sunday", 0),
    Day("2", "M", "Monday", 1),
    Day("3", "T", "Tuesday", 2),
    Day("4", "W", "Wednesday", 3),
    Day("5", "T", "Thursday", 4),
    Day("6", "F", "Friday", 5),
    Day("7", "S", "Saturday", 6)
  ]

  /** Each cell's index is its position, so the days reported for a
      selection carry the selected indices. */
  lemma DaysOfWeekIndexed()
    ensures |DaysOfWeek| == 7
    ensures forall i :: 0 <= i < 7 ==> DaysOfWeek[i].index == i
  {
  }

  // ---------------------------------------------------------------------
  // Contiguity

  /** The step from the element before position `i` to the one at it. */
  function Step(a: seq<int>, i: int): int
    requires 1 <= i < |a|
  {
    a[i] - a[i - 1]
  }

  /** Every step between neighbours is exactly 1. */
  predicate NormalRun(a: seq<int>) {
    forall i :: 1 <= i < |a| ==> Step(a, i) == 1
  }

  /** How many steps between neighbours are larger than 1. */
  function GapCount(a: seq<int>): nat
    decreases |a|
  {
    if |a| < 2 then 0
    else GapCount(a[..|a| - 1]) + (if Step(a, |a| - 1) > 1 then 1 else 0)
  }

  /** `isContiguous`: no selection, or the sorted days rise by one, or they
      have one gap and run from Sunday (0) to Saturday (6), which is a run
      wrapping round the weekend. */
  predicate Contiguous(days: seq<int>)
    ensures |days| <= 1 ==> Contiguous(days)
  {
    assert |multiset(SortAsc(days))| == |days|;
    |days| == 0 || RunOrWrap(SortAsc(days))
  }

  /** The sorted days rise by one, or have one gap and run from 0 to 6. */
  predicate RunOrWrap(a: seq<int>) {
    NormalRun(a) || (|a| > 0 && GapCount(a) == 1 && a[|a| - 1] == 6 && a[0] == 0)
  }

  /** `isContiguous`: a first loop looks for a step other than 1; a second
      counts the steps larger than 1 and gives up at the second. */
  method IsContiguous(days: seq<int>) returns (r: bool)
    ensures r == Contiguous(days)
  {
    if |days| == 0 {
      return true;
    }
    var a := SortAsc(days);
    var normal := RisesByOne(a);
    if normal {
      return true;
    }
    var oneGap := SingleGap(a);
    if oneGap {
      var lastElement := a[|a| - 1];
      var firstElement := a[0];
      if lastElement == 6 && firstElement == 0 {
        return true;
      }
    }
    return false;
  }

  /** The second loop of `isContiguous`: count the steps larger than 1,
      giving up at the second. */
  method SingleGap(a: seq<int>) returns (oneGap: bool)
    ensures oneGap <==> GapCount(a) == 1
  {
    var gapIndex := -1;
    var i := 1;
    while i < |a|
      invariant 1 <= i <= |a| || |a| == 0
      invariant |a| > 0 ==> (gapIndex == -1 <==> GapCount(a[..i]) == 0)
      invariant |a| > 0 && gapIndex != -1 ==> GapCount(a[..i]) == 1
    {
      GapCountStep(a, i);
      if a[i] - a[i - 1] > 1 {
        if gapIndex != -1 {
          GapCountPrefix(a, i + 1);
          return false;
        }
        gapIndex := i;
      }
      i := i + 1;
    }
    if |a| == 0 {
      return false;
    }
    GapCountWhole(a);
    return gapIndex != -1;
  }

  /** The first loop of `isContiguous`: stop at the first step that is not
      exactly 1. */
  method RisesByOne(a: seq<int>) returns (normal: bool)
    ensures normal == NormalRun(a)
  {
    var i := 1;
    while i < |a|
      invariant 1 <= i <= |a| || |a| == 0
      invariant forall j :: 1 <= j < i && j < |a| ==> Step(a, j) == 1
    {
      if a[i] - a[i - 1] != 1 {
        assert Step(a, i) != 1;
        return false;
      }
      i := i + 1;
    }
    return true;
  }

  /** One more element of the prefix adds its step's gap, if any. */
  lemma GapCountStep(a: seq<int>, i: int)
    requires 1 <= i < |a|
    ensures GapCount(a[..i + 1]) == GapCount(a[..i]) + (if Step(a, i) > 1 then 1 else 0)
  {
    assert a[..i + 1][..i] == a[..i];
  }

  lemma GapCountWhole(a: seq<int>)
    ensures GapCount(a[..|a|]) == GapCount(a)
  {
    assert a[..|a|] == a;
  }

  /** A prefix of a run is a run. */
  lemma NormalRunPrefix(a: seq<int>, k: int)
    requires NormalRun(a) && 0 <= k <= |a|
    ensures NormalRun(a[..k])
  {
    forall i | 1 <= i < k
      ensures Step(a[..k], i) == 1
    {
      assert Step(a, i) == 1;
    }
  }

  /** A longer prefix has at least as many gaps. */
  lemma {:induction false} GapCountPrefix(a: seq<int>, k: int)
    requires 0 <= k <= |a|
    ensures GapCount(a[..k]) <= GapCount(a)
    decreases |a| - k
  {
    if k < |a| {
      GapCountPrefix(a, k + 1);
      assert a[..k + 1][..k] == a[..k];
    } else {
      assert a[..k] == a;
    }
  }

  /** In an increasing list, having no gap is rising by exactly one. */
  lemma {:induction false} NoGapIsNormal(a: seq<int>)
    requires Increasing(a)
    ensures GapCount(a) == 0 <==> NormalRun(a)
    decreases |a|
  {
    if |a| >= 2 {
      var b := a[..|a| - 1];
      NoGapIsNormal(b);
      assert forall i :: 1 <= i < |b| ==> Step(b, i) == Step(a, i);
    }
  }

  /** A list rising by one from its first element is a range. */
  lemma {:induction false} NormalRunIsRange(a: seq<int>)
    requires NormalRun(a) && |a| > 0
    ensures a == Range(a[0], a[0] + |a|)
    decreases |a|
  {
    if |a| > 1 {
      var b := a[..|a| - 1];
      NormalRunPrefix(a, |a| - 1);
      NormalRunIsRange(b);
      var r := Range(a[0], a[0] + |a|);
      forall i | 0 <= i < |a|
        ensures a[i] == r[i]
      {
        if i < |b| {
          assert a[i] == b[i];
        } else {
          assert Step(a, i) == 1;
          assert a[i - 1] == b[i - 1];
        }
      }
    }
  }

  /** An increasing list with one gap splits there into two runs. */
  lemma {:induction false} OneGapSplit(a: seq<int>) returns (g: int)
    requires Increasing(a) && GapCount(a) == 1
    ensures 1 <= g < |a| && Step(a, g) > 1
    ensures NormalRun(a[..g]) && NormalRun(a[g..])
    decreases |a|
  {
    var b := a[..|a| - 1];
    assert Increasing(b);
    if Step(a, |a| - 1) > 1 {
      NoGapIsNormal(b);
      g := |a| - 1;
      assert a[..g] == b;
    } else {
      g := OneGapSplit(b);
      assert a[..g] == b[..g];
      assert b[g..] == a[g..|a| - 1];
      assert a[g..] == a[g..|a| - 1] + [a[|a| - 1]];
      assert NormalRun(a[g..]) by {
        var c := a[g..];
        forall i | 1 <= i < |c|
          ensures Step(c, i) == 1
        {
          if i < |c| - 1 {
            assert Step(b[g..], i) == 1;
            assert c[i] == b[g..][i] && c[i - 1] == b[g..][i - 1];
          } else {
            assert c[i] == a[|a| - 1] && c[i - 1] == a[|a| - 2];
          }
        }
      }
    }
  }

  /** Appending a run after a list adds one gap exactly when the run does
      not continue the list. */
  lemma {:induction false} GapCountAppendRun(x: seq<int>, y: seq<int>)
    requires |x| > 0 && |y| > 0 && NormalRun(y)
    ensures GapCount(x + y) == GapCount(x) + (if y[0] - x[|x| - 1] > 1 then 1 else 0)
    decreases |y|
  {
    var xy := x + y;
    if |y| == 1 {
      assert xy[..|xy| - 1] == x;
      assert xy[|xy| - 1] == y[0] && xy[|xy| - 2] == x[|x| - 1];
    } else {
      var z := y[..|y| - 1];
      NormalRunPrefix(y, |y| - 1);
      GapCountAppendRun(x, z);
      assert xy[..|xy| - 1] == x + z;
      assert Step(y, |y| - 1) == 1;
      assert xy[|xy| - 1] == y[|y| - 1] && xy[|xy| - 2] == y[|y| - 2];
    }
  }

  /** Day `x` is on the arc of `n` days from day `s` exactly when it lies
      fewer than `n` days after `s`, counting round the weekend. */
  lemma ArcMember(s: int, n: int, x: int)
    requires 0 <= s < 7 && 0 <= n <= 7
    ensures x in Arc(s, n) <==> 0 <= x < 7 && (if x >= s then x - s < n else x + 7 - s < n)
  {
    if x in Arc(s, n) {
      var i :| 0 <= i < n && x == Shift(s, i);
      assert x == if s + i < 7 then s + i else s + i - 7;
    }
    if 0 <= x < 7 && x >= s && x - s < n {
      assert Shift(s, x - s) == x;
    }
    if 0 <= x < 7 && x < s && x + 7 - s < n {
      assert Shift(s, x + 7 - s) == x;
    }
  }

  lemma RangeMember(lo: int, hi: int, x: int)
    ensures x in Members(Range(lo, hi)) <==> lo <= x < hi
  {
    var r := Range(lo, hi);
    if lo <= x < hi {
      assert r[x - lo] == x;
    }
  }

  /** An arc that does not pass Saturday is a range of days. */
  lemma ArcNoWrap(s: int, n: int)
    requires 0 <= s < 7 && 0 <= n && s + n <= 7
    ensures Arc(s, n) == Members(Range(s, s + n))
  {
    forall x
      ensures x in Arc(s, n) <==> x in Members(Range(s, s + n))
    {
      ArcMember(s, n, x);
      RangeMember(s, s + n, x);
    }
  }

  /** An arc from day `q` that passes Saturday ends on day `p - 1`. */
  lemma ArcWrap(q: int, p: int)
    requires 0 <= p <= q < 7
    ensures Arc(q, 7 - q + p) == Members(Range(0, p) + Range(q, 7))
  {
    var l := Range(0, p) + Range(q, 7);
    forall x
      ensures x in Arc(q, 7 - q + p) <==> x in Members(l)
    {
      ArcMember(q, 7 - q + p, x);
      RangeMember(0, p, x);
      RangeMember(q, 7, x);
      assert x in Members(l) <==> x in Members(Range(0, p)) || x in Members(Range(q, 7));
    }
  }

  /** A selection of days is contiguous exactly when it is empty or a run
      of consecutive days, possibly wrapping from Saturday to Sunday. */
  lemma ContiguousIffArc(days: seq<int>)
    requires NoDup(days) && InWeek(Members(days))
    ensures Contiguous(days) <==>
      |days| == 0 || exists s, n :: 0 <= s < 7 && 1 <= n <= 7 && Members(days) == Arc(s, n)
  {
    if |days| > 0 {
      var a := SortAsc(days);
      SortAscOfSet(days);
      if Contiguous(days) {
        ContiguousIsArc(days, a);
      }
      if exists s, n :: 0 <= s < 7 && 1 <= n <= 7 && Members(days) == Arc(s, n) {
        var s, n :| 0 <= s < 7 && 1 <= n <= 7 && Members(days) == Arc(s, n);
        ArcIsContiguous(days, a, s, n);
      }
    }
  }

  lemma ContiguousIsArc(days: seq<int>, a: seq<int>)
    requires a == SortAsc(days) && |a| > 0 && Increasing(a)
    requires Members(a) == Members(days) && InWeek(Members(days))
    requires Contiguous(days)
    ensures exists s, n :: 0 <= s < 7 && 1 <= n <= 7 && Members(days) == Arc(s, n)
  {
    var s, n;
    if NormalRun(a) {
      s, n := RunIsArc(a);
    } else {
      s, n := WrapIsArc(a);
    }
  }

  /** Days that rise by one are the arc from the first of them. */
  lemma RunIsArc(a: seq<int>) returns (s: int, n: int)
    requires NormalRun(a) && |a| > 0 && InWeek(Members(a))
    ensures 0 <= s < 7 && 1 <= n <= 7 && Members(a) == Arc(s, n)
  {
    assert a[0] in Members(a) && a[|a| - 1] in Members(a);
    NormalRunIsRange(a);
    s, n := a[0], |a|;
    assert a[n - 1] == s + n - 1;
    ArcNoWrap(s, n);
  }

  /** Increasing days with one gap, from Sunday to Saturday, are the arc
      that starts after the gap and wraps round the weekend. */
  lemma WrapIsArc(a: seq<int>) returns (s: int, n: int)
    requires Increasing(a) && GapCount(a) == 1 && a[0] == 0 && a[|a| - 1] == 6
    ensures 0 <= s < 7 && 1 <= n <= 7 && Members(a) == Arc(s, n)
  {
    var p, q := WrapRanges(a);
    ArcWrap(q, p);
    s, n := q, 7 - q + p;
  }

  /** Such days are a run from Sunday followed by a run to Saturday. */
  lemma WrapRanges(a: seq<int>) returns (p: int, q: int)
    requires Increasing(a) && GapCount(a) == 1 && a[0] == 0 && a[|a| - 1] == 6
    ensures 0 <= p <= q < 7 && a == Range(0, p) + Range(q, 7)
  {
    var g := OneGapSplit(a);
    var x, y := a[..g], a[g..];
    assert x[0] == 0 && y[|y| - 1] == 6;
    RunFromSunday(x);
    RunToSaturday(y);
    p, q := g, 7 - |y|;
    assert a[g - 1] == x[g - 1] && a[g] == y[0];
    assert a == x + y;
  }

  /** A run starting on Sunday is the range from Sunday. */
  lemma RunFromSunday(x: seq<int>)
    requires NormalRun(x) && |x| > 0 && x[0] == 0
    ensures x == Range(0, |x|)
  {
    NormalRunIsRange(x);
  }

  /** A run ending on Saturday is the range up to Saturday. */
  lemma RunToSaturday(y: seq<int>)
    requires NormalRun(y) && |y| > 0 && y[|y| - 1] == 6
    ensures y == Range(7 - |y|, 7)
  {
    NormalRunIsRange(y);
    assert y[|y| - 1] == y[0] + |y| - 1;
  }

  lemma ArcIsContiguous(days: seq<int>, a: seq<int>, s: int, n: int)
    requires a == SortAsc(days) && |a| > 0 && Increasing(a)
    requires Members(a) == Members(days)
    requires 0 <= s < 7 && 1 <= n <= 7 && Members(days) == Arc(s, n)
    ensures Contiguous(days)
  {
    assert |days| > 0 by {
      assert |multiset(a)| == |multiset(days)|;
    }
    if s + n <= 7 {
      UnwrappedArcRuns(a, s, n);
    } else {
      WrappedArcRuns(a, s, n);
    }
  }

  /** An increasing list holding an arc that stays within the week is a
      run. */
  lemma UnwrappedArcRuns(a: seq<int>, s: int, n: int)
    requires Increasing(a) && 0 <= s && 1 <= n && s + n <= 7 && Members(a) == Arc(s, n)
    ensures RunOrWrap(a)
  {
    ArcNoWrap(s, n);
    RangeRun(s, s + n);
    IncreasingUnique(a, Range(s, s + n));
  }

  /** An increasing list holding an arc past Saturday is a run from Sunday
      followed by a run up to Saturday. */
  lemma WrappedArcRuns(a: seq<int>, s: int, n: int)
    requires Increasing(a) && 0 <= s < 7 && n <= 7 && s + n > 7 && Members(a) == Arc(s, n)
    ensures RunOrWrap(a)
  {
    var p := s + n - 7;
    ArcWrap(s, p);
    WrapRunOrWrap(p, s);
    IncreasingUnique(a, Range(0, p) + Range(s, 7));
  }

  /** A range rises by one. */
  lemma RangeRun(lo: int, hi: int)
    ensures NormalRun(Range(lo, hi)) && Increasing(Range(lo, hi))
  {
    var r := Range(lo, hi);
    forall i | 1 <= i < |r|
      ensures Step(r, i) == 1
    {
    }
  }

  /** The days from Sunday up to `p - 1` followed by those from `q` up to
      Saturday are increasing, and pass the contiguity rule. */
  lemma WrapRunOrWrap(p: int, q: int)
    requires 1 <= p <= q < 7
    ensures Increasing(Range(0, p) + Range(q, 7))
    ensures RunOrWrap(Range(0, p) + Range(q, 7))
  {
    RangeRun(0, p);
    RangeRun(q, 7);
    IncreasingAppend(Range(0, p), Range(q, 7));
    if p == q {
      RangeSplit(0, p, 7);
      RangeRun(0, 7);
    } else {
      GapCountAppendRun(Range(0, p), Range(q, 7));
      NoGapIsNormal(Range(0, p));
      WrapEnds(p, q);
    }
  }

  lemma WrapEnds(p: int, q: int)
    requires 1 <= p <= q < 7
    ensures (Range(0, p) + Range(q, 7))[0] == 0
    ensures (Range(0, p) + Range(q, 7))[7 - q + p - 1] == 6
  {
  }

  /** A range split at `m` is the two ranges either side of it. */
  lemma RangeSplit(lo: int, m: int, hi: int)
    requires lo <= m <= hi
    ensures Range(lo, m) + Range(m, hi) == Range(lo, hi)
  {
    var l := Range(lo, m) + Range(m, hi);
    var r := Range(lo, hi);
    forall i | 0 <= i < |l|
      ensures l[i] == r[i]
    {
      if i < m - lo {
        assert l[i] == Range(lo, m)[i];
      } else {
        assert l[i] == Range(m, hi)[i - (m - lo)];
      }
    }
  }

  /** Two increasing lists, the second starting above the end of the first,
      join into an increasing list. */
  lemma IncreasingAppend(x: seq<int>, y: seq<int>)
    requires Increasing(x) && Increasing(y)
    requires |x| > 0 && |y| > 0 && x[|x| - 1] < y[0]
    ensures Increasing(x + y)
  {
    var l := x + y;
    forall i, j | 0 <= i < j < |l|
      ensures l[i] < l[j]
    {
      if i < |x| && j >= |x| {
        assert l[i] <= x[|x| - 1] && y[0] <= l[j];
      }
    }
  }

  // ---------------------------------------------------------------------
  // Dragging

  /** How many days a drag from `start` to `dayIndex` covers, going
      forward and round the weekend when needed. */
  function DragCount(start: int, dayIndex: int): (r: int)
    ensures 0 <= start < 7 && 0 <= dayIndex < 7 ==>
      1 <= r <= 7 && (start + r - 1) % 7 == dayIndex && (r == 1 <==> dayIndex == start)
  {
    if dayIndex >= start then dayIndex - start + 1 else (7 - start) + dayIndex + 1
  }

  lemma ArcStep(s: int, i: int)
    requires 0 <= i
    ensures Arc(s, i + 1) == Arc(s, i) + {Shift(s, i)}
  {
  }

  lemma ArcEmpty(s: int, n: int)
    requires n <= 0
    ensures Arc(s, n) == {}
  {
    assert forall x :: x !in Arc(s, n);
  }

  lemma MembersAdd(s: seq<int>, x: int)
    ensures Members(Add(s, x)) == Members(s) + {x}
  {
    assert forall y :: y in Members(Add(s, x)) <==> y in Add(s, x);
  }

  /** The set built while dragging: `(start + i) % 7` for `i < count`. */
  method DragRange(start: int, count: int) returns (sel: seq<int>)
    requires 0 <= start < 7
    ensures NoDup(sel) && Members(sel) == Arc(start, count)
  {
    sel := [];
    ArcEmpty(start, 0);
    var i := 0;
    while i < count
      invariant 0 <= i && (i <= count || i == 0)
      invariant NoDup(sel) && Members(sel) == Arc(start, i)
    {
      var currentDay := (start + i) % 7;
      ArcStep(start, i);
      MembersAdd(sel, currentDay);
      sel := Add(sel, currentDay);
      i := i + 1;
    }
    if count <= 0 {
      ArcEmpty(start, count);
    }
  }

  /** Dragging from cell `s` onto another cell `d` selects between two and
      seven days, starting at `s` and ending at `d`, as many as it covers,
      and they form a contiguous run. */
  lemma DragSelection(s: int, d: int, sel: seq<int>)
    requires 0 <= s < 7 && 0 <= d < 7 && s != d
    requires NoDup(sel) && Members(sel) == Arc(s, DragCount(s, d))
    ensures 2 <= DragCount(s, d) <= 7
    ensures s in Members(sel) && d in Members(sel)
    ensures |sel| == DragCount(s, d)
    ensures Contiguous(sel)
  {
    var n := DragCount(s, d);
    assert Shift(s, 0) == s;
    assert Shift(s, n - 1) == d;
    ArcSize(s, n);
    NoDupSize(sel);
    ContiguousIffArc(sel);
  }

  /** A list without duplicates has as many members as elements. */
  lemma {:induction false} NoDupSize(s: seq<int>)
    requires NoDup(s)
    ensures |Members(s)| == |s|
  {
    if |s| > 0 {
      var t := s[1..];
      assert NoDup(t);
      NoDupSize(t);
      assert Members(s) == Members(t) + {s[0]} by {
        assert s == [s[0]] + t;
      }
      assert s[0] !in Members(t);
    }
  }

  // ---------------------------------------------------------------------
  // Validation

  datatype ValidationResult = Valid | Invalid(error: string)

  function Plural(n: int): string {
    if n > 1 then "s" else ""
  }

  const MinLead: string := "Please select at least "
  const MaxLead: string := "Please select no more than "

  /** The message for too few nights; the number after its lead reads back. */
  function MinMessage(minDays: int): (r: string)
    ensures StartsWith(r, MinLead) && ParseInt(r[|MinLead|..]) == Some(minDays)
  {
    var rest := IntToString(minDays) + (" night" + Plural(minDays) + " per week");
    CountReadsBack(MinLead, minDays, " night" + Plural(minDays) + " per week");
    MinLead + rest
  }

  /** The message for too many nights; the number after its lead reads back. */
  function MaxMessage(maxDays: int): (r: string)
    ensures StartsWith(r, MaxLead) && ParseInt(r[|MaxLead|..]) == Some(maxDays)
  {
    var rest := IntToString(maxDays) + (" night" + Plural(maxDays) + " per week");
    CountReadsBack(MaxLead, maxDays, " night" + Plural(maxDays) + " per week");
    MaxLead + rest
  }

  /** A number printed between a lead and a tail that starts with a space
      parses back from after the lead. */
  lemma CountReadsBack(lead: string, n: int, tail: string)
    requires |tail| > 0 && tail[0] == ' '
    ensures var m := lead + (IntToString(n) + tail);
      StartsWith(m, lead) && ParseInt(m[|lead|..]) == Some(n)
  {
    var m := lead + (IntToString(n) + tail);
    assert m[|lead|..] == IntToString(n) + tail;
    ParseIntPrinted(n, tail);
    assert m[..|lead|] == lead;
  }

  const ContiguityMessage: string := "Please select contiguous days (e.g., Mon-Tue-Wed, not Mon-Wed-Fri)"

  /** `validateSelection`: with nights one fewer than days, the first of
      too few nights, too many nights, and (when required) a broken run. */
  function Validate(days: seq<int>, minDays: int, maxDays: int, requireContiguous: bool): (r: ValidationResult)
    ensures r.Valid? <==>
      |days| == 0 || (minDays <= |days| - 1 <= maxDays && (requireContiguous ==> Contiguous(days)))
    ensures |days| > 0 && |days| - 1 < minDays ==> r == Invalid(MinMessage(minDays))
    ensures |days| > 0 && minDays <= |days| - 1 && |days| - 1 > maxDays ==> r == Invalid(MaxMessage(maxDays))
    ensures |days| > 0 && minDays <= |days| - 1 <= maxDays && requireContiguous && !Contiguous(days) ==>
      r == Invalid(ContiguityMessage)
  {
    var dayCount := |days|;
    var nightCount := dayCount - 1;
    if dayCount == 0 then Valid
    else if nightCount < minDays then Invalid(MinMessage(minDays))
    else if nightCount > maxDays then Invalid(MaxMessage(maxDays))
    else if requireContiguous && !Contiguous(days) then Invalid(ContiguityMessage)
    else Valid
  }

  /** With the defaults (two to five nights, contiguity required) a
      selection is valid exactly when it is empty or a run of three to six
      days, wrapping round the weekend allowed. */
  lemma DefaultValidation(days: seq<int>)
    requires NoDup(days) && InWeek(Members(days))
    ensures Validate(days, 2, 5, true).Valid? <==>
      |days| == 0 || (3 <= |days| <= 6 &&
        exists s, n :: 0 <= s < 7 && 1 <= n <= 7 && Members(days) == Arc(s, n))
  {
    ContiguousIffArc(days);
  }

  // ---------------------------------------------------------------------
  // The component

  class Selector {
    /** `selectedDays`, a set kept in insertion order. */
    var selected: seq<int>
    var isDragging: bool
    var dragStart: Option<int>
    var mouseDownIndex: Option<int>
    var showError: bool
    var errorMessage: string
    var hasContiguityError: bool
    /** The selection the pending three-second check will validate. */
    var pendingCheck: Option<seq<int>>
    /** The messages passed to `onError`, oldest first. */
    var reported: seq<string>
    /** The six-second timer that hides the shown message is pending. */
    var errorTimerPending: bool
    const minDays: int
    const maxDays: int
    const requireContiguous: bool

    predicate Valid()
      reads this
    {
      NoDup(selected) && (mouseDownIndex.Some? ==> 0 <= mouseDownIndex.value < 7)
    }

    constructor (minDays: int, maxDays: int, requireContiguous: bool, initialSelection: seq<int>)
      ensures Valid()
      ensures selected == Dedup(initialSelection)
      ensures this.minDays == minDays && this.maxDays == maxDays && this.requireContiguous == requireContiguous
      ensures !isDragging && dragStart.None? && mouseDownIndex.None? && !showError && !hasContiguityError
      ensures pendingCheck.None? && reported == [] && !errorTimerPending
    {
      this.minDays := minDays;
      this.maxDays := maxDays;
      this.requireContiguous := requireContiguous;
      selected := Dedup(initialSelection);
      isDragging := false;
      dragStart := None;
      mouseDownIndex := None;
      showError := false;
      errorMessage := "";
      hasContiguityError := false;
      pendingCheck := None;
      reported := [];
      errorTimerPending := false;
    }

    /** `displayError`: show the message, restart the six-second timer that
        hides it, and report it. */
    method DisplayError(error: string)
      modifies this
      ensures errorMessage == error && showError && errorTimerPending
      ensures reported == old(reported) + [error]
      ensures selected == old(selected) && isDragging == old(isDragging)
      ensures dragStart == old(dragStart) && mouseDownIndex == old(mouseDownIndex)
      ensures hasContiguityError == old(hasContiguityError) && pendingCheck == old(pendingCheck)
    {
      errorMessage := error;
      showError := true;
      errorTimerPending := true;
      reported := reported + [error];
    }

    method MouseDown(dayIndex: int)
      requires Valid() && 0 <= dayIndex < 7
      modifies this
      ensures Valid()
      ensures mouseDownIndex == Some(dayIndex) && dragStart == Some(dayIndex)
      ensures selected == old(selected) && isDragging == old(isDragging)
      ensures showError == old(showError) && errorMessage == old(errorMessage)
      ensures hasContiguityError == old(hasContiguityError) && pendingCheck == old(pendingCheck)
      ensures reported == old(reported) && errorTimerPending == old(errorTimerPending)
    {
      mouseDownIndex := Some(dayIndex);
      dragStart := Some(dayIndex);
    }

    /** The mouse enters cell `dayIndex`: while the button is down on
        another cell, the selection becomes the run between them. */
    method MouseEnter(dayIndex: int)
      requires Valid() && 0 <= dayIndex < 7
      modifies this
      ensures Valid()
      ensures old(mouseDownIndex).Some? && dayIndex != old(mouseDownIndex).value ==>
        isDragging && Members(selected) == Arc(old(mouseDownIndex).value, DragCount(old(mouseDownIndex).value, dayIndex))
      ensures !(old(mouseDownIndex).Some? && dayIndex != old(mouseDownIndex).value) ==>
        selected == old(selected) && isDragging == old(isDragging)
      ensures mouseDownIndex == old(mouseDownIndex) && dragStart == old(dragStart)
      ensures showError == old(showError) && errorMessage == old(errorMessage)
      ensures hasContiguityError == old(hasContiguityError) && pendingCheck == old(pendingCheck)
      ensures reported == old(reported) && errorTimerPending == old(errorTimerPending)
    {
      if mouseDownIndex.Some? && dayIndex != mouseDownIndex.value {
        isDragging := true;
        var start := mouseDownIndex.value;
        var dayCount := DragCount(start, dayIndex);
        selected := DragRange(start, dayCount);
      }
    }

    /** The button is released over cell `dayIndex`. */
    method MouseUp(dayIndex: int)
      requires Valid() && 0 <= dayIndex < 7
      modifies this
      ensures Valid()
      ensures old(mouseDownIndex).None? ==> unchanged(this)
      ensures old(mouseDownIndex) == Some(dayIndex) && !old(isDragging) ==>
        selected == Toggle(old(selected), dayIndex) && pendingCheck == Some(selected)
      ensures old(mouseDownIndex).Some? && old(isDragging) ==>
        if Validate(old(selected), minDays, maxDays, requireContiguous).Invalid? then
          selected == [] && showError && errorTimerPending &&
          errorMessage == Validate(old(selected), minDays, maxDays, requireContiguous).error &&
          reported == old(reported) + [Validate(old(selected), minDays, maxDays, requireContiguous).error]
        else selected == old(selected)
      ensures old(mouseDownIndex).Some? && old(mouseDownIndex) != Some(dayIndex) && !old(isDragging) ==>
        selected == old(selected)
      ensures old(mouseDownIndex).Some? ==> !isDragging && dragStart.None? && mouseDownIndex.None?
      ensures hasContiguityError == old(hasContiguityError)
      ensures !(old(mouseDownIndex).Some? && old(isDragging) &&
                Validate(old(selected), minDays, maxDays, requireContiguous).Invalid?) ==>
        reported == old(reported) && showError == old(showError) && errorMessage == old(errorMessage) &&
        errorTimerPending == old(errorTimerPending)
      ensures !(old(mouseDownIndex) == Some(dayIndex) && !old(isDragging)) ==>
        pendingCheck == old(pendingCheck)
    {
      if mouseDownIndex.None? {
        return;
      }
      if !isDragging && dayIndex == mouseDownIndex.value {
        var newSelection := selected;
        if dayIndex in newSelection {
          newSelection := Remove(newSelection, dayIndex);
        } else {
          newSelection := Add(newSelection, dayIndex);
        }
        pendingCheck := Some(newSelection);
        selected := newSelection;
      } else if isDragging {
        var validation := Validate(selected, minDays, maxDays, requireContiguous);
        if validation.Invalid? {
          DisplayError(validation.error);
          selected := [];
        }
      }
      isDragging := false;
      dragStart := None;
      mouseDownIndex := None;
    }

    /** The three-second check after a click fires. */
    method CheckFires()
      requires Valid()
      modifies this
      ensures Valid()
      ensures selected == old(selected) && pendingCheck.None?
      ensures (old(pendingCheck).Some? &&
               Validate(old(pendingCheck).value, minDays, maxDays, requireContiguous).Invalid?) ==>
        showError && errorTimerPending &&
        errorMessage == Validate(old(pendingCheck).value, minDays, maxDays, requireContiguous).error &&
        reported == old(reported) + [Validate(old(pendingCheck).value, minDays, maxDays, requireContiguous).error]
      ensures !(old(pendingCheck).Some? &&
                Validate(old(pendingCheck).value, minDays, maxDays, requireContiguous).Invalid?) ==>
        reported == old(reported) && showError == old(showError) && errorMessage == old(errorMessage) &&
        errorTimerPending == old(errorTimerPending)
      ensures isDragging == old(isDragging) && dragStart == old(dragStart)
      ensures mouseDownIndex == old(mouseDownIndex) && hasContiguityError == old(hasContiguityError)
    {
      if pendingCheck.Some? {
        var validation := Validate(pendingCheck.value, minDays, maxDays, requireContiguous);
        if validation.Invalid? {
          DisplayError(validation.error);
        }
      }
      pendingCheck := None;
    }

    /** One run of the effect on the selection, which React repeats after
        every render in which `selectedDays`, `showError`,
        `hasContiguityError` or `displayError` changed, so also right after
        every `displayError`: flag a broken run of two or more days, showing
        the message when it is new; otherwise clear the flag and hide any
        message, whatever reported it. */
    method SelectionEffect()
      requires Valid()
      modifies this
      ensures Valid()
      ensures selected == old(selected)
      ensures hasContiguityError <==> |selected| > 1 && requireContiguous && !Contiguous(selected)
      ensures (|selected| > 1 && requireContiguous && !Contiguous(selected) &&
               !old(hasContiguityError) && !old(showError)) ==>
        showError && errorTimerPending && errorMessage == ContiguityMessage &&
        reported == old(reported) + [ContiguityMessage]
      ensures !(|selected| > 1 && requireContiguous) ==> !showError && reported == old(reported)
      ensures !(|selected| > 1 && requireContiguous && !Contiguous(selected) &&
                !old(hasContiguityError) && !old(showError)) ==>
        reported == old(reported) && errorMessage == old(errorMessage) &&
        errorTimerPending == old(errorTimerPending)
      ensures |selected| > 1 && requireContiguous &&
              !(!Contiguous(selected) && !old(hasContiguityError) && !old(showError)) ==>
        showError == old(showError)
      ensures isDragging == old(isDragging) && dragStart == old(dragStart)
      ensures mouseDownIndex == old(mouseDownIndex) && pendingCheck == old(pendingCheck)
    {
      if |selected| > 1 && requireContiguous {
        var isValid := IsContiguous(selected);
        var wasContiguousError := hasContiguityError;
        hasContiguityError := !isValid;
        if !isValid && !wasContiguousError && !showError {
          DisplayError(ContiguityMessage);
        }
      } else {
        hasContiguityError := false;
        if showError {
          showError := false;
        }
      }
    }

    /** `handleReset`: the selection is emptied, the pending check dropped
        and the message hidden. */
    method Reset()
      requires Valid()
      modifies this
      ensures Valid()
      ensures selected == [] && pendingCheck.None? && !showError && !errorTimerPending
      ensures isDragging == old(isDragging) && mouseDownIndex == old(mouseDownIndex)
      ensures dragStart == old(dragStart) && errorMessage == old(errorMessage)
      ensures hasContiguityError == old(hasContiguityError) && reported == old(reported)
    {
      selected := [];
      pendingCheck := None;
      showError := false;
      errorTimerPending := false;
    }

    /** The six-second timer of `displayError` fires: the message is
        hidden. Without a pending timer nothing happens. */
    method ErrorTimeoutFires()
      requires Valid()
      modifies this
      ensures Valid()
      ensures old(errorTimerPending) ==> !showError
      ensures !old(errorTimerPending) ==> showError == old(showError)
      ensures !errorTimerPending
      ensures selected == old(selected) && isDragging == old(isDragging)
      ensures dragStart == old(dragStart) && mouseDownIndex == old(mouseDownIndex)
      ensures errorMessage == old(errorMessage) && hasContiguityError == old(hasContiguityError)
      ensures pendingCheck == old(pendingCheck) && reported == old(reported)
    {
      if errorTimerPending {
        showError := false;
        errorTimerPending := false;
      }
    }

    /** The three-second check fires and the effect re-runs after its
        `displayError`. With at most one day selected, or without the
        contiguity rule, the message is reported to `onError` and at once
        hidden again. */
    method CheckThenEffect()
      requires Valid()
      modifies this
      ensures Valid()
      ensures selected == old(selected) && pendingCheck.None?
      ensures (old(pendingCheck).Some? &&
               Validate(old(pendingCheck).value, minDays, maxDays, requireContiguous).Invalid?) ==>
        reported == old(reported) + [Validate(old(pendingCheck).value, minDays, maxDays, requireContiguous).error]
      ensures |selected| <= 1 || !requireContiguous ==> !showError
    {
      CheckFires();
      SelectionEffect();
    }

    /** A drag is released and the effect re-runs on the emptied or kept
        selection. A rejected drag is reported to `onError`, its selection
        cleared, and its message at once hidden again. */
    method ReleaseThenEffect(dayIndex: int)
      requires Valid() && 0 <= dayIndex < 7
      modifies this
      ensures Valid()
      ensures old(mouseDownIndex).Some? && old(isDragging) &&
              Validate(old(selected), minDays, maxDays, requireContiguous).Invalid? ==>
        selected == [] && !showError &&
        reported == old(reported) + [Validate(old(selected), minDays, maxDays, requireContiguous).error]
    {
      MouseUp(dayIndex);
      SelectionEffect();
    }
  }
}
