/** The search page's filter panel: the day bubbles and their numbering, the
    price buckets, the room-type and sort controls, the state each of them
    writes, the address-bar update after every change, and the defaults
    merged in at start-up. */
module FilterControls {
  import opened Strings
  import opened JsNumbers
  import opened FilterQuery
  import opened Collections

  // ---------------------------------------------------------------------
  // Day numbering

  /** `toBubble`: a day index (0 = Sunday) to its bubble number. */
  function ToBubble(dayIndex: int): (bn: int)
    ensures 0 <= dayIndex ==> 1 <= bn <= 7
  {
    JsRem(dayIndex, 7) + 1
  }

  /** `fromBubble`: a bubble number back to its day index. */
  function FromBubble(bn: int): (d: int)
    ensures -6 <= bn ==> 0 <= d < 7
  {
    JsRem(bn - 1 + 7, 7)
  }

  /** Day indices 0..6 and bubble numbers 1..7 are in one-to-one
      correspondence, and the two maps undo each other. */
  lemma BubbleRoundTrip(d: int, bn: int)
    ensures 0 <= d < 7 ==> ToBubble(d) == d + 1 && FromBubble(ToBubble(d)) == d
    ensures 1 <= bn <= 7 ==> FromBubble(bn) == bn - 1 && ToBubble(FromBubble(bn)) == bn
  {
    if 0 <= d < 7 {
      assert JsRem(d, 7) == d;
      assert JsRem(d + 7, 7) == d;
    }
    if 1 <= bn <= 7 {
      assert JsRem(bn - 1 + 7, 7) == bn - 1;
      assert JsRem(bn - 1, 7) == bn - 1;
    }
  }

  /** Distinct day indices have distinct bubble numbers. */
  lemma ToBubbleInjective(d: int, e: int)
    requires 0 <= d < 7 && 0 <= e < 7
    ensures ToBubble(d) == ToBubble(e) <==> d == e
  {
    BubbleRoundTrip(d, 1);
    BubbleRoundTrip(e, 1);
  }

  // ---------------------------------------------------------------------
  // `Array.prototype.sort()` with no comparator: values ordered by the text
  // of `String(x)`

  /** JavaScript's `<` on strings: the first differing character decides,
      and a proper prefix comes first. */
  predicate TextLess(a: string, b: string)
    decreases |a|
  {
    if |a| == 0 then |b| > 0
    else if |b| == 0 then false
    else if a[0] != b[0] then a[0] < b[0]
    else TextLess(a[1..], b[1..])
  }

  lemma {:induction false} TextLessAsymmetric(a: string, b: string)
    ensures !(TextLess(a, b) && TextLess(b, a))
    decreases |a|
  {
    if |a| > 0 && |b| > 0 && a[0] == b[0] {
      TextLessAsymmetric(a[1..], b[1..]);
    }
  }

  lemma {:induction false} TextLessTransitive(a: string, b: string, c: string)
    ensures TextLess(a, b) && TextLess(b, c) ==> TextLess(a, c)
    decreases |a|
  {
    if |a| > 0 && |b| > 0 && |c| > 0 && a[0] == b[0] && b[0] == c[0] {
      TextLessTransitive(a[1..], b[1..], c[1..]);
    }
  }

  lemma {:induction false} TextLessTotal(a: string, b: string)
    ensures a != b ==> TextLess(a, b) || TextLess(b, a)
    decreases |a|
  {
    if |a| > 0 && |b| > 0 && a[0] == b[0] {
      assert a == [a[0]] + a[1..] && b == [b[0]] + b[1..];
      TextLessTotal(a[1..], b[1..]);
    }
  }

  /** `x` sorts before `y`. */
  predicate Precedes(x: int, y: int) {
    TextLess(IntToString(x), IntToString(y))
  }

  /** Ordered as the default sort leaves an array. */
  predicate TextSorted(s: seq<int>) {
    forall i, j :: 0 <= i < j < |s| ==> !Precedes(s[j], s[i])
  }

  /** For the single digits, text order is numeric order; bubble numbers
      1..7 therefore sort as numbers do. */
  lemma DigitOrder(x: int, y: int)
    requires 0 <= x <= 9 && 0 <= y <= 9
    ensures Precedes(x, y) <==> x < y
  {
    var cx, cy := DigitChar(x), DigitChar(y);
    assert IntToString(x) == [cx] && IntToString(y) == [cy];
    if x == y {
      assert [cx][1..] == "" && [cy][1..] == "";
      assert !TextLess([cx], [cy]);
    } else {
      assert TextLess([cx], [cy]) <==> cx < cy;
    }
  }

  /** `x` placed after every element that does not sort after it. */
  function Insert(x: int, s: seq<int>): (r: seq<int>)
    ensures multiset(r) == multiset(s) + multiset{x}
    ensures NoDup(s) && x !in s ==> NoDup(r)
  {
    if |s| == 0 then [x]
    else if Precedes(x, s[0]) then
      (if NoDup(s) && x !in s then ConsNoDup(x, s); [x] + s else [x] + s)
    else
      var t := Insert(x, s[1..]);
      InsertBehindFacts(x, s, t);
      [s[0]] + t
  }

  /** The head kept in front of the insertion into the rest. */
  lemma InsertBehindFacts(x: int, s: seq<int>, t: seq<int>)
    requires |s| > 0 && multiset(t) == multiset(s[1..]) + multiset{x}
    requires NoDup(s[1..]) && x !in s[1..] ==> NoDup(t)
    ensures multiset([s[0]] + t) == multiset(s) + multiset{x}
    ensures NoDup(s) && x !in s ==> NoDup([s[0]] + t)
  {
    assert s == [s[0]] + s[1..];
    if NoDup(s) && x !in s {
      assert NoDup(s[1..]) by {
        forall i, j | 0 <= i < j < |s[1..]|
          ensures s[1..][i] != s[1..][j]
        {
          assert s[1..][i] == s[i + 1] && s[1..][j] == s[j + 1];
        }
      }
      assert s[0] !in s[1..];
      assert s[0] !in multiset(t);
      ConsNoDup(s[0], t);
    }
  }

  lemma {:induction false} InsertSorted(x: int, s: seq<int>)
    requires TextSorted(s)
    ensures TextSorted(Insert(x, s))
    decreases |s|
  {
    if |s| == 0 {
    } else if Precedes(x, s[0]) {
      InsertFront(x, s);
    } else {
      var t := Insert(x, s[1..]);
      InsertSorted(x, s[1..]);
      assert [s[0]] + t == Insert(x, s);
      InsertBehind(x, s, t);
    }
  }

  /** An element sorting before the head of a sorted list can go first. */
  lemma InsertFront(x: int, s: seq<int>)
    requires TextSorted(s) && |s| > 0 && Precedes(x, s[0])
    ensures TextSorted([x] + s)
  {
    forall k | 0 <= k < |s|
      ensures !Precedes(s[k], x)
    {
      TextLessTransitive(IntToString(s[k]), IntToString(x), IntToString(s[0]));
      TextLessAsymmetric(IntToString(x), IntToString(s[0]));
    }
    ConsSorted(x, s);
  }

  /** The head of a sorted list stays first when the rest, with an element
      that does not sort before the head, is sorted. */
  lemma InsertBehind(x: int, s: seq<int>, t: seq<int>)
    requires TextSorted(s) && |s| > 0 && !Precedes(x, s[0])
    requires TextSorted(t) && multiset(t) == multiset(s[1..]) + multiset{x}
    ensures TextSorted([s[0]] + t)
  {
    forall j | 0 <= j < |t|
      ensures !Precedes(t[j], s[0])
    {
      var y := t[j];
      assert y in multiset(t);
      if y != x {
        assert y in multiset(s[1..]);
        var k :| 0 <= k < |s[1..]| && s[1..][k] == y;
        assert s[k + 1] == y;
      }
    }
    ConsSorted(s[0], t);
  }

  /** A value that nothing in a sorted list sorts before can go first. */
  lemma ConsSorted(a: int, t: seq<int>)
    requires TextSorted(t)
    requires forall j :: 0 <= j < |t| ==> !Precedes(t[j], a)
    ensures TextSorted([a] + t)
  {
    var r := [a] + t;
    forall i, j | 0 <= i < j < |r|
      ensures !Precedes(r[j], r[i])
    {
      assert r[j] == t[j - 1];
      if i > 0 {
        assert r[i] == t[i - 1];
      }
    }
  }

  /** `xs.sort()` on an array of integers. */
  function SortText(s: seq<int>): (r: seq<int>)
    ensures multiset(r) == multiset(s)
    ensures TextSorted(r)
    ensures NoDup(s) ==> NoDup(r)
  {
    if |s| == 0 then []
    else
      var t := SortText(s[1..]);
      InsertSorted(s[0], t);
      HeadApart(s, t);
      Insert(s[0], t)
  }

  /** The head of a list and an arrangement of its tail make up the list;
      without duplicates the head is not in the tail. */
  lemma HeadApart(s: seq<int>, t: seq<int>)
    requires |s| > 0 && multiset(t) == multiset(s[1..])
    ensures multiset(s) == multiset(t) + multiset{s[0]}
    ensures NoDup(s) ==> NoDup(s[1..]) && s[0] !in t
  {
    assert s == [s[0]] + s[1..];
    if NoDup(s) {
      assert s[0] !in s[1..];
      assert s[0] !in multiset(t);
    }
  }

  /** A duplicate-free array has exactly one sorted arrangement, so
      `SortText` is what any implementation of the default sort returns. */
  lemma {:induction false} SortedUnique(a: seq<int>, b: seq<int>)
    requires TextSorted(a) && TextSorted(b)
    requires multiset(a) == multiset(b) && NoDup(a)
    ensures a == b
    decreases |a|
  {
    if |a| > 0 {
      SortedFirst(a, b[0]);
      SortedFirst(b, a[0]);
      if IntToString(a[0]) == IntToString(b[0]) {
        IntToStringInjective(a[0], b[0]);
      }
      TextLessTotal(IntToString(a[0]), IntToString(b[0]));
      assert a[0] == b[0];
      SortedTail(a);
      SortedTail(b);
      assert multiset(a[1..]) == multiset(b[1..]);
      assert NoDup(a[1..]);
      SortedUnique(a[1..], b[1..]);
    }
  }

  /** Every element of a sorted array other than its first does not sort
      before the first. */
  lemma SortedFirst(a: seq<int>, y: int)
    requires TextSorted(a) && y in multiset(a)
    ensures |a| > 0 && (y == a[0] || !Precedes(y, a[0]))
  {
    var k :| 0 <= k < |a| && a[k] == y;
  }

  /** The tail of a sorted array is sorted and holds the rest of it. */
  lemma SortedTail(a: seq<int>)
    requires TextSorted(a) && |a| > 0
    ensures TextSorted(a[1..])
    ensures multiset(a[1..]) == multiset(a) - multiset{a[0]}
  {
    assert a == [a[0]] + a[1..];
  }

  /** A sorted duplicate-free array of single digits is strictly increasing. */
  lemma SortedDigitsIncrease(s: seq<int>)
    requires TextSorted(s) && NoDup(s)
    requires forall i :: 0 <= i < |s| ==> 0 <= s[i] <= 9
    ensures forall i, j :: 0 <= i < j < |s| ==> s[i] < s[j]
  {
    forall i, j | 0 <= i < j < |s|
      ensures s[i] < s[j]
    {
      DigitOrder(s[j], s[i]);
    }
  }

  // ---------------------------------------------------------------------
  // The weekly-schedule buttons

  /** The button for day `idx` shows as pressed (`aria-pressed`). */
  predicate DayPressed(days: seq<int>, idx: int) {
    idx in Map(FromBubble, days)
  }

  /** Bubble numbers all within 1..7. */
  predicate BubbleDays(days: seq<int>) {
    forall i :: 0 <= i < |days| ==> 1 <= days[i] <= 7
  }

  /** With bubble numbers 1..7, day `idx` is pressed exactly when its
      bubble number is in the state. */
  lemma PressedIff(days: seq<int>, idx: int)
    requires BubbleDays(days) && 0 <= idx < 7
    ensures DayPressed(days, idx) <==> ToBubble(idx) in days
  {
    var shown := Map(FromBubble, days);
    BubbleRoundTrip(idx, 1);
    if idx in shown {
      var i :| 0 <= i < |shown| && shown[i] == idx;
      BubbleRoundTrip(0, days[i]);
      assert days[i] == ToBubble(idx);
    }
    if ToBubble(idx) in days {
      var i :| 0 <= i < |days| && days[i] == ToBubble(idx);
      BubbleRoundTrip(0, days[i]);
      assert shown[i] == idx;
    }
  }

  /** The day list after clicking the button of day `idx`:
      `Array.from(set).sort()` of the toggled set. */
  function ClickedDays(days: seq<int>, idx: int): seq<int> {
    SortText(Toggle(Dedup(days), ToBubble(idx)))
  }

  /** A click flips the membership of that day's bubble number only and
      leaves a sorted list without duplicates; with bubble numbers 1..7 the
      list stays within 1..7 and in increasing order. */
  lemma DayClick(days: seq<int>, idx: int)
    requires 0 <= idx < 7
    ensures ToBubble(idx) in ClickedDays(days, idx) <==> ToBubble(idx) !in days
    ensures forall y :: y != ToBubble(idx) ==> (y in ClickedDays(days, idx) <==> y in days)
    ensures NoDup(ClickedDays(days, idx)) && TextSorted(ClickedDays(days, idx))
    ensures BubbleDays(days) ==> BubbleDays(ClickedDays(days, idx))
    ensures BubbleDays(days) ==>
      forall i, j :: 0 <= i < j < |ClickedDays(days, idx)| ==> ClickedDays(days, idx)[i] < ClickedDays(days, idx)[j]
  {
    var t := Toggle(Dedup(days), ToBubble(idx));
    SortedMembers(t);
    if BubbleDays(days) {
      ClickedBubbles(days, idx);
    }
  }

  /** With bubble numbers 1..7 the clicked list keeps to 1..7 and
      increases. */
  lemma ClickedBubbles(days: seq<int>, idx: int)
    requires 0 <= idx < 7 && BubbleDays(days)
    ensures BubbleDays(ClickedDays(days, idx))
    ensures forall i, j :: 0 <= i < j < |ClickedDays(days, idx)| ==> ClickedDays(days, idx)[i] < ClickedDays(days, idx)[j]
  {
    var t := Toggle(Dedup(days), ToBubble(idx));
    var r := SortText(t);
    assert r == ClickedDays(days, idx);
    SortedMembers(t);
    forall i | 0 <= i < |r|
      ensures 1 <= r[i] <= 7
    {
      assert r[i] in r;
      assert r[i] in t;
    }
    SortedDigitsIncrease(r);
  }

  /** The `aria-pressed` attribute of each of the seven day buttons, as the
      panel writes them from the day list when it is built. */
  function PressedAttributes(days: seq<int>): (r: seq<bool>)
    ensures |r| == 7
    ensures forall j :: 0 <= j < 7 ==> (r[j] <==> DayPressed(days, j))
  {
    seq(7, j requires 0 <= j < 7 => DayPressed(days, j))
  }

  /** The pressed state rendered from the clicked day list differs from the
      one rendered from the current list exactly at the clicked day. */
  lemma ClickFlipsPressed(days: seq<int>, idx: int, j: int)
    requires BubbleDays(days) && 0 <= idx < 7 && 0 <= j < 7
    ensures DayPressed(ClickedDays(days, idx), j) <==> (DayPressed(days, j) != (j == idx))
  {
    DayClick(days, idx);
    PressedIff(days, j);
    PressedIff(ClickedDays(days, idx), j);
    ToBubbleInjective(idx, j);
  }

  /** The schedule-selector callback's day list:
      `Array.from(new Set(indices.map(toBubble))).sort()`. */
  function SelectedBubbles(indices: seq<int>): seq<int> {
    SortText(Dedup(Map(ToBubble, indices)))
  }

  /** For day indices 0..6 the list holds exactly their bubble numbers, in
      increasing order. */
  lemma SelectedBubblesSpec(indices: seq<int>)
    requires forall i :: 0 <= i < |indices| ==> 0 <= indices[i] < 7
    ensures forall d :: 0 <= d < 7 ==> (ToBubble(d) in SelectedBubbles(indices) <==> d in indices)
    ensures BubbleDays(SelectedBubbles(indices))
    ensures forall i, j :: 0 <= i < j < |SelectedBubbles(indices)| ==>
      SelectedBubbles(indices)[i] < SelectedBubbles(indices)[j]
  {
    var m := Map(ToBubble, indices);
    var r := SelectedBubbles(indices);
    MappedBubbles(indices);
    SortedMembers(Dedup(m));
    forall i | 0 <= i < |r|
      ensures 1 <= r[i] <= 7
    {
      assert r[i] in m;
    }
    SortedDigitsIncrease(r);
  }

  /** Sorting keeps the members of a list. */
  lemma SortedMembers(s: seq<int>)
    ensures forall y :: y in SortText(s) <==> y in s
  {
    var r := SortText(s);
    forall y
      ensures y in r <==> y in s
    {
      assert y in r <==> y in multiset(r);
      assert y in s <==> y in multiset(s);
    }
  }

  /** The mapped day indices are exactly the bubble numbers of the days. */
  lemma MappedBubbles(indices: seq<int>)
    requires forall i :: 0 <= i < |indices| ==> 0 <= indices[i] < 7
    ensures forall d :: 0 <= d < 7 ==> (ToBubble(d) in Map(ToBubble, indices) <==> d in indices)
    ensures forall y :: y in Map(ToBubble, indices) ==> 1 <= y <= 7
  {
    var m := Map(ToBubble, indices);
    forall d | 0 <= d < 7
      ensures ToBubble(d) in m <==> d in indices
    {
      if ToBubble(d) in m {
        var i :| 0 <= i < |m| && m[i] == ToBubble(d);
        ToBubbleInjective(d, indices[i]);
      }
      if d in indices {
        var i :| 0 <= i < |indices| && indices[i] == d;
        assert m[i] == ToBubble(d);
      }
    }
  }

  // ---------------------------------------------------------------------
  // Price buckets, room types and sort options

  datatype PriceBucket = PriceBucket(caption: string, min: int, max: int)

  const PriceBuckets: seq<PriceBucket> := [
    PriceBucket("< $200/night", 20, 200),
    PriceBucket("$200-$350/night", 200, 350),
    PriceBucket("$350-$500/night", 350, 500),
    PriceBucket("$500+/night", 500, 999999),
    PriceBucket("All Prices", 0, 999999)
  ]

  /** An option of a select or checkbox group: its value and its caption. */
  datatype Choice = Choice(value: string, caption: string)

  const RoomTypes: seq<Choice> := [
    Choice("private_room", "Private room"),
    Choice("shared_room", "Shared room"),
    Choice("studio", "Studio")
  ]

  const SortOptions: seq<Choice> := [
    Choice("recommendation_score", "Our Recommendations"),
    Choice("price", "Price-Lowest to Highest"),
    Choice("view_count", "Most viewed"),
    Choice("created_date", "Recently Added")
  ]

  /** The price option shown as selected: both bounds equal, as numbers. */
  predicate BucketSelected(q: Query, b: PriceBucket) {
    q.priceMin == Num(b.min) && q.priceMax == Num(b.max)
  }

  /** The state after choosing price bucket `i`. */
  function WithBucket(q: Query, i: int): (r: Query)
    requires 0 <= i < |PriceBuckets|
    ensures BucketSelected(r, PriceBuckets[i])
    ensures r.scheduleDays == q.scheduleDays && r.roomTypes == q.roomTypes && r.sortBy == q.sortBy
  {
    q.(priceMin := Num(PriceBuckets[i].min), priceMax := Num(PriceBuckets[i].max))
  }

  /** After choosing bucket `i`, that bucket and no other shows as
      selected. */
  lemma OneBucketSelected(q: Query, i: int, j: int)
    requires 0 <= i < |PriceBuckets| && 0 <= j < |PriceBuckets|
    ensures BucketSelected(WithBucket(q, i), PriceBuckets[j]) <==> i == j
  {
  }

  /** The selected room types after a checkbox change:
      `Array.from(set)` after `add` or `delete`. */
  function ToggledRoomTypes(types: seq<string>, v: string, checked: bool): (r: seq<string>)
    ensures v in r <==> checked
    ensures forall y :: y != v ==> (y in r <==> y in types)
    ensures NoDup(r)
  {
    var members := Dedup(types);
    if checked then Add(members, v) else Remove(members, v)
  }

  // ---------------------------------------------------------------------
  // Start-up and the address bar

  const DefaultMin: int := 0
  const DefaultMax: int := 999999
  const DefaultSort: string := "recommendation_score"

  /** `Object.assign(defaults, parsed)`: the parsed fields win, and the
      defaults fill the price bounds and the sort key when the query had
      none. */
  function WithDefaults(p: Query): (r: Query)
    ensures r.scheduleDays == p.scheduleDays && r.roomTypes == p.roomTypes
    ensures r.priceMin == (if p.priceMin == Absent then Num(DefaultMin) else p.priceMin)
    ensures r.priceMax == (if p.priceMax == Absent then Num(DefaultMax) else p.priceMax)
    ensures r.sortBy == (if p.sortBy.None? then Some(DefaultSort) else p.sortBy)
  {
    Query(p.scheduleDays,
          if p.priceMin == Absent then Num(DefaultMin) else p.priceMin,
          if p.priceMax == Absent then Num(DefaultMax) else p.priceMax,
          p.roomTypes,
          if p.sortBy.None? then Some(DefaultSort) else p.sortBy)
  }

  /** The state the panel starts from; `None` where parsing the address's
      query throws. */
  function InitialState(search: string): (r: Option<Query>)
    ensures r.None? <==> QueryOf(search).None?
    ensures r.Some? ==> Complete(r.value)
    ensures r.Some? ==>
      r.value.scheduleDays == QueryOf(search).value.scheduleDays &&
      r.value.roomTypes == QueryOf(search).value.roomTypes
  {
    match QueryOf(search)
      case None => None
      case Some(p) => Some(WithDefaults(p))
  }

  /** Every field is present: what `InitialState` produces and every
      handler keeps. */
  predicate Complete(q: Query) {
    q.priceMin != Absent && q.priceMax != Absent && q.sortBy.Some?
  }

  /** A state that the address bar carries without loss: well formed, and
      no empty room type. */
  predicate Clean(q: Query) {
    WellFormed(q) && forall i :: 0 <= i < |q.roomTypes| ==> q.roomTypes[i] != ""
  }

  /** Without a query the panel starts with no days, the "All Prices"
      bucket, no room types and the recommendation sort. */
  lemma InitialWithoutQuery()
    ensures InitialState("") == Some(Query([], Num(0), Num(999999), [], Some("recommendation_score")))
    ensures forall j :: 0 <= j < |PriceBuckets| ==>
      (BucketSelected(InitialState("").value, PriceBuckets[j]) <==> j == 4)
  {
    EmptyQueries();
  }

  /** The query part `replaceUrl` puts after the path. */
  function SearchOf(s: Query): (r: string)
    ensures r == "" <==> Parts(s) == []
    ensures r != "" ==> r[0] == '?'
  {
    var qs := QueryString(s);
    if qs == "" then "" else "?" + qs
  }

  /** `replaceUrl`: the address the page is left at. */
  function UrlFor(pathname: string, s: Query): (r: string)
    ensures |pathname| <= |r| && r[..|pathname|] == pathname
    ensures WellFormed(s) ==> QueryOf(r[|pathname|..]) == Some(s)
  {
    var r := pathname + SearchOf(s);
    assert r[|pathname|..] == SearchOf(s);
    if WellFormed(s) then SearchRoundTrip(s); r else r
  }

  /** Reading back the written query gives the state back. */
  lemma SearchRoundTrip(s: Query)
    requires WellFormed(s)
    ensures QueryOf(SearchOf(s)) == Some(s)
  {
    var qs := QueryString(s);
    QueryRoundTrip(s);
    if qs != "" {
      var parts := Parts(s);
      PartsPlain(s);
      assert |parts| > 0;
      JoinHead(parts, "&");
      assert qs[0] != '?';
      assert Segments("?" + qs) == Segments(qs) by {
        assert ("?" + qs)[1..] == qs;
      }
    }
  }

  /** Reloading the page at the address a handler left restores the whole
      state. */
  lemma ReloadRestores(s: Query)
    requires WellFormed(s) && Complete(s)
    ensures InitialState(SearchOf(s)) == Some(s)
  {
    SearchRoundTrip(s);
  }

  /** The listed room types and sort keys are non-empty and free of ','. */
  lemma ChoicesPlain()
    ensures forall i :: 0 <= i < |RoomTypes| ==> RoomTypes[i].value != "" && ',' !in RoomTypes[i].value
    ensures forall i :: 0 <= i < |SortOptions| ==> SortOptions[i].value != ""
  {
    assert ',' !in "private_room";
    assert ',' !in "shared_room";
    assert ',' !in "studio";
  }

  /** A room-type change with one of the listed values keeps the state
      clean. */
  lemma ToggleKeepsClean(q: Query, i: int, checked: bool)
    requires Clean(q) && 0 <= i < |RoomTypes|
    ensures Clean(q.(roomTypes := ToggledRoomTypes(q.roomTypes, RoomTypes[i].value, checked)))
  {
    var v := RoomTypes[i].value;
    var r := ToggledRoomTypes(q.roomTypes, v, checked);
    ChoicesPlain();
    forall k | 0 <= k < |r|
      ensures ',' !in r[k] && r[k] != ""
    {
      assert r[k] in r;
      if r[k] != v {
        var m :| 0 <= m < |q.roomTypes| && q.roomTypes[m] == r[k];
      }
    }
    assert |r| > 0 ==> r[0] != "";
  }

  // ---------------------------------------------------------------------
  // The panel

  /** The panel's state object, the address it last wrote and the day
      buttons' `aria-pressed` attributes. */
  class FilterPanel {
    var state: Query
    const pathname: string
    /** The address after the last `replaceState`; `None` before any. */
    var url: Option<string>
    /** Written when the panel is built; no handler writes them again. */
    var pressed: seq<bool>

    constructor (pathname: string, initial: Query)
      ensures this.pathname == pathname && state == initial && url == None
      ensures pressed == PressedAttributes(initial.scheduleDays)
    {
      this.pathname := pathname;
      state := initial;
      url := None;
      pressed := PressedAttributes(initial.scheduleDays);
    }

    /** `setState`: the address now carries the state. */
    method SetState()
      modifies this
      ensures state == old(state)
      ensures url == Some(UrlFor(pathname, state))
      ensures pressed == old(pressed)
    {
      var qs := StringifyQuery(state);
      url := Some(pathname + (if qs != "" then "?" + qs else ""));
    }

    /** A click on the button of day `idx`. */
    method ClickDay(idx: int)
      requires 0 <= idx < 7
      modifies this
      ensures state == old(state).(scheduleDays := ClickedDays(old(state).scheduleDays, idx))
      ensures url == Some(UrlFor(pathname, state))
      ensures Clean(old(state)) ==> Clean(state)
      ensures Complete(old(state)) ==> Complete(state)
      ensures pressed == old(pressed)
      ensures old(pressed) == PressedAttributes(old(state).scheduleDays) && BubbleDays(old(state).scheduleDays) ==>
        pressed[idx] != PressedAttributes(state.scheduleDays)[idx]
    {
      var members := Dedup(state.scheduleDays);
      var bn := ToBubble(idx);
      if bn in members {
        members := Remove(members, bn);
      } else {
        members := Add(members, bn);
      }
      state := state.(scheduleDays := SortText(members));
      SetState();
      if old(pressed) == PressedAttributes(old(state).scheduleDays) && BubbleDays(old(state).scheduleDays) {
        ClickFlipsPressed(old(state).scheduleDays, idx, idx);
      }
    }

    /** A change of the price select to the option of bucket `i`, whose
        value is `String(i)`. */
    method ChooseBucket(i: int)
      requires 0 <= i < |PriceBuckets|
      modifies this
      ensures state == WithBucket(old(state), i)
      ensures url == Some(UrlFor(pathname, state))
      ensures pressed == old(pressed)
      ensures Clean(old(state)) ==> Clean(state)
      ensures Complete(old(state)) ==> Complete(state)
    {
      ParseIntToString(i);
      var idx := ParseInt(IntToString(i)).value;
      state := state.(priceMin := Num(PriceBuckets[idx].min));
      state := state.(priceMax := Num(PriceBuckets[idx].max));
      SetState();
    }

    /** A change of the checkbox of room type `i`. */
    method ChangeRoomType(i: int, checked: bool)
      requires 0 <= i < |RoomTypes|
      modifies this
      ensures state == old(state).(roomTypes := ToggledRoomTypes(old(state).roomTypes, RoomTypes[i].value, checked))
      ensures url == Some(UrlFor(pathname, state))
      ensures pressed == old(pressed)
      ensures Clean(old(state)) ==> Clean(state)
      ensures Complete(old(state)) ==> Complete(state)
    {
      var arr := Dedup(state.roomTypes);
      if checked {
        arr := Add(arr, RoomTypes[i].value);
      } else {
        arr := Remove(arr, RoomTypes[i].value);
      }
      if Clean(old(state)) {
        ToggleKeepsClean(old(state), i, checked);
      }
      state := state.(roomTypes := arr);
      SetState();
    }

    /** A change of the sort select to option `i`. */
    method ChooseSort(i: int)
      requires 0 <= i < |SortOptions|
      modifies this
      ensures state == old(state).(sortBy := Some(SortOptions[i].value))
      ensures url == Some(UrlFor(pathname, state))
      ensures pressed == old(pressed)
      ensures Clean(old(state)) ==> Clean(state)
      ensures Complete(old(state)) ==> Complete(state)
    {
      var v := SortOptions[i].value;
      ChoicesPlain();
      assert v != "";
      state := state.(sortBy := Some(v));
      SetState();
    }

    /** The schedule selector reports the selected day indices. */
    method SelectionChange(indices: seq<int>)
      modifies this
      ensures state == old(state).(scheduleDays := SelectedBubbles(indices))
      ensures url == Some(UrlFor(pathname, state))
      ensures pressed == old(pressed)
      ensures Clean(old(state)) ==> Clean(state)
      ensures Complete(old(state)) ==> Complete(state)
    {
      state := state.(scheduleDays := SortText(Dedup(Map(ToBubble, indices))));
      SetState();
    }
  }

  /** `init`: nothing happens without the mount point; otherwise the query
      of the address is parsed (a malformed escape throws, and nothing is
      mounted) and the defaults merged in. */
  method Init(mounted: bool, pathname: string, search: string) returns (panel: Option<FilterPanel>)
    ensures !mounted ==> panel.None?
    ensures mounted ==> (panel.Some? <==> InitialState(search).Some?)
    ensures panel.Some? ==>
      (fresh(panel.value) && panel.value.state == InitialState(search).value &&
       panel.value.pathname == pathname && panel.value.url == None &&
       panel.value.pressed == PressedAttributes(panel.value.state.scheduleDays))
    ensures panel.Some? ==> Complete(panel.value.state)
  {
    if !mounted {
      return None;
    }
    var parsed := ParseQuery(search);
    if parsed.None? {
      return None;
    }
    var p := new FilterPanel(pathname, WithDefaults(parsed.value));
    return Some(p);
  }
}
