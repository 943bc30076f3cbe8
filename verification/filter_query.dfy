/** The search filters' URL codec: `parseQuery` reads the filter state from a
    `key=value&...` query string and `stringifyQuery` writes it back, with
    values percent-encoded. */
module FilterQuery {
  import opened Strings
  import opened JsNumbers
  import opened UriComponent

  /** A price field: not in the state, a number, or JavaScript's NaN (what
      `parseInt` gives for a value without digits). */
  datatype Price = Absent | Num(value: int) | NaN

  /** The filter state: bubble day numbers, the price range, the selected
      room types and the sort key (`None` when the state has no `sort_by`). */
  datatype Query = Query(
    scheduleDays: seq<int>,
    priceMin: Price,
    priceMax: Price,
    roomTypes: seq<string>,
    sortBy: Option<string>)

  /** What an empty query string parses to. */
  const EmptyQuery: Query := Query([], Absent, Absent, [], None)

  function PriceOf(n: Option<int>): (p: Price)
    ensures p != Absent
  {
    match n
      case None => NaN
      case Some(v) => Num(v)
  }

  /** `parts.map(v => parseInt(v, 10)).filter(n => !isNaN(n))` */
  function Numbers(parts: seq<string>): (r: seq<int>)
    ensures |r| <= |parts|
  {
    if |parts| == 0 then []
    else match ParseInt(parts[0])
      case None => Numbers(parts[1..])
      case Some(n) => [n] + Numbers(parts[1..])
  }

  /** Parsing distributes over the pieces: the numbers of a list are the
      numbers of its first part followed by those of the rest. */
  lemma {:induction false} NumbersAppend(a: seq<string>, b: seq<string>)
    ensures Numbers(a + b) == Numbers(a) + Numbers(b)
    decreases |a|
  {
    if |a| > 0 {
      var ab := a + b;
      assert ab[0] == a[0] && ab[1..] == a[1..] + b;
      NumbersAppend(a[1..], b);
      NumbersCons(ab);
      NumbersCons(a);
      assert NumberOf(a[0]) + (Numbers(a[1..]) + Numbers(b)) ==
        (NumberOf(a[0]) + Numbers(a[1..])) + Numbers(b);
    } else {
      assert a + b == b;
    }
  }

  /** The first piece's number, if any, comes first. */
  lemma NumbersCons(parts: seq<string>)
    requires |parts| > 0
    ensures Numbers(parts) == NumberOf(parts[0]) + Numbers(parts[1..])
  {
  }

  /** One piece contributes its number, or nothing when it parses to NaN. */
  lemma NumbersOne(v: string)
    ensures Numbers([v]) == NumberOf(v)
  {
    assert [v][1..] == [];
    NumbersCons([v]);
  }

  function NumberOf(v: string): seq<int> {
    match ParseInt(v)
      case None => []
      case Some(n) => [n]
  }

  /** A number is kept exactly when some piece parses to it. */
  lemma NumbersMembers(parts: seq<string>)
    ensures forall n :: n in Numbers(parts) <==> exists i :: 0 <= i < |parts| && ParseInt(parts[i]) == Some(n)
  {
    forall n ensures n in Numbers(parts) <==> exists i :: 0 <= i < |parts| && ParseInt(parts[i]) == Some(n) {
      NumberMember(parts, n);
    }
  }

  lemma NumberMember(parts: seq<string>, n: int)
    ensures n in Numbers(parts) <==> exists i :: 0 <= i < |parts| && ParseInt(parts[i]) == Some(n)
  {
    NumberKept(parts, n);
    SomeParsesAt(parts, n);
  }

  /** Some piece, scanning from the front, reads as `n` under `read`. */
  predicate SomeParses(parts: seq<string>, read: string -> Option<int>, n: int)
    decreases |parts|
  {
    |parts| > 0 && (read(parts[0]) == Some(n) || SomeParses(parts[1..], read, n))
  }

  lemma {:induction false} NumberKept(parts: seq<string>, n: int)
    ensures n in Numbers(parts) <==> SomeParses(parts, ParseInt, n)
    decreases |parts|
  {
    if |parts| > 0 {
      NumberKept(parts[1..], n);
      NumbersCons(parts);
      assert n in NumberOf(parts[0]) <==> ParseInt(parts[0]) == Some(n);
    }
  }

  lemma SomeParsesAt(parts: seq<string>, n: int)
    ensures SomeParses(parts, ParseInt, n) <==> exists i :: 0 <= i < |parts| && ParseInt(parts[i]) == Some(n)
  {
    if SomeParses(parts, ParseInt, n) {
      var i := ParsingPiece(parts, ParseInt, n);
    }
    if exists i :: 0 <= i < |parts| && ParseInt(parts[i]) == Some(n) {
      var i :| 0 <= i < |parts| && ParseInt(parts[i]) == Some(n);
      PieceParses(parts, ParseInt, n, i);
    }
  }

  lemma {:induction false} ParsingPiece(parts: seq<string>, read: string -> Option<int>, n: int) returns (i: nat)
    requires SomeParses(parts, read, n)
    ensures i < |parts| && read(parts[i]) == Some(n)
    decreases |parts|
  {
    if read(parts[0]) == Some(n) {
      i := 0;
    } else {
      var j := ParsingPiece(parts[1..], read, n);
      i := j + 1;
      assert parts[i] == parts[1..][j];
    }
  }

  lemma {:induction false} PieceParses(parts: seq<string>, read: string -> Option<int>, n: int, i: nat)
    requires i < |parts| && read(parts[i]) == Some(n)
    ensures SomeParses(parts, read, n)
    decreases i
  {
    if i > 0 {
      assert parts[1..][i - 1] == parts[i];
      PieceParses(parts[1..], read, n, i - 1);
    }
  }

  /** One decoded `key`/`val` pair applied to the state being built; unknown
      keys change nothing, and an empty `schedule_days` or `room_types` value
      leaves the list as it was. */
  function Apply(q: Query, key: string, val: string): (r: Query)
    ensures r.scheduleDays != q.scheduleDays ==> key == "schedule_days"
    ensures r.priceMin != q.priceMin ==> key == "price_min"
    ensures r.priceMax != q.priceMax ==> key == "price_max"
    ensures r.roomTypes != q.roomTypes ==> key == "room_types"
    ensures r.sortBy != q.sortBy ==> key == "sort_by"
    ensures key == "sort_by" ==> r.sortBy == Some(val)
  {
    assert "sort_by"[1] != "schedule_days"[1];
    if key == "schedule_days" && val != "" then q.(scheduleDays := Numbers(Split(val, ',')))
    else if key == "price_min" then q.(priceMin := PriceOf(ParseInt(val)))
    else if key == "price_max" then q.(priceMax := PriceOf(ParseInt(val)))
    else if key == "room_types" && val != "" then q.(roomTypes := Split(val, ','))
    else if key == "sort_by" then q.(sortBy := Some(val))
    else q
  }

  /** A segment split at its first '=', both halves decoded; a segment
      without '=' is all key with value "". `None` where decoding throws. */
  function Pair(seg: string): Option<(string, string)> {
    var idx := IndexOf(seg, '=');
    if idx >= 0 then
      match (Decode(seg[..idx]), Decode(seg[idx + 1..]))
        case (Some(k), Some(v)) => Some((k, v))
        case _ => None
    else
      match Decode(seg)
        case Some(k) => Some((k, ""))
        case None => None
  }

  /** The segments applied in order to `q`; a last segment that does not
      decode throws. */
  function ApplyAll(q: Query, segs: seq<string>): (r: Option<Query>)
    ensures |segs| > 0 && Pair(segs[|segs| - 1]).None? ==> r.None?
    decreases |segs|
  {
    if |segs| == 0 then Some(q)
    else match ApplyAll(q, segs[..|segs| - 1])
      case None => None
      case Some(q') =>
        match Pair(segs[|segs| - 1])
          case None => None
          case Some((k, v)) => Some(Apply(q', k, v))
  }

  /** Every segment decodes, checked from the last one back as `ApplyAll`
      goes. */
  predicate AllDecode(segs: seq<string>) {
    AllFromBack(segs, PairDecodes)
  }

  predicate PairDecodes(seg: string) {
    Pair(seg).Some?
  }

  /** Applying the segments succeeds exactly when they all decode. */
  lemma {:induction false} ApplyAllDecodes(q: Query, segs: seq<string>)
    ensures ApplyAll(q, segs).Some? <==> AllDecode(segs)
    decreases |segs|
  {
    if |segs| > 0 {
      ApplyAllDecodes(q, segs[..|segs| - 1]);
    }
  }

  /** `AllDecode` holds exactly when each segment decodes. */
  lemma AllDecodeEach(segs: seq<string>)
    ensures AllDecode(segs) <==> forall i :: 0 <= i < |segs| ==> Pair(segs[i]).Some?
  {
    AllFromBackEach(segs, PairDecodes);
  }

  /** Every segment passes `ok`, checked from the last one back. */
  predicate AllFromBack(segs: seq<string>, ok: string -> bool)
    decreases |segs|
  {
    |segs| == 0 || (AllFromBack(segs[..|segs| - 1], ok) && ok(segs[|segs| - 1]))
  }

  lemma {:induction false} AllFromBackEach(segs: seq<string>, ok: string -> bool)
    ensures AllFromBack(segs, ok) <==> forall i :: 0 <= i < |segs| ==> ok(segs[i])
    decreases |segs|
  {
    if |segs| > 0 {
      var init := segs[..|segs| - 1];
      AllFromBackEach(init, ok);
      if AllFromBack(segs, ok) {
        forall i | 0 <= i < |segs|
          ensures ok(segs[i])
        {
          if i < |init| {
            assert init[i] == segs[i];
          }
        }
      }
      if forall i :: 0 <= i < |segs| ==> ok(segs[i]) {
        forall i | 0 <= i < |init|
          ensures ok(init[i])
        {
          assert init[i] == segs[i];
        }
      }
    }
  }

  /** Applying the segments throws exactly when one of them does not
      decode. */
  lemma ApplyAllFails(q: Query, segs: seq<string>)
    ensures ApplyAll(q, segs).None? <==> exists i :: 0 <= i < |segs| && Pair(segs[i]).None?
  {
    ApplyAllDecodes(q, segs);
    AllDecodeEach(segs);
  }

  /** A piece of a split on `c` holds no `c`. */
  lemma SplitPiecesFree(body: string, c: char)
    ensures forall k :: 0 <= k < |Split(body, c)| ==> c !in Split(body, c)[k]
  {
    var ps := Split(body, c);
    forall k | 0 <= k < |ps| ensures c !in ps[k] {
      forall i | 0 <= i < |ps[k]| ensures ps[k][i] != c {
        assert !OccursAt(ps[k], [c], i);
        assert ps[k][i..i + 1] == [ps[k][i]];
      }
    }
  }

  /** Dropping the empty strings keeps every survivor as it was. */
  lemma {:induction false} NonEmptyFree(xs: seq<string>, c: char)
    requires forall k :: 0 <= k < |xs| ==> c !in xs[k]
    ensures forall k :: 0 <= k < |NonEmpty(xs)| ==> c !in NonEmpty(xs)[k]
    decreases |xs|
  {
    if |xs| > 0 {
      NonEmptyFree(xs[1..], c);
    }
  }

  /** The non-empty '&'-separated segments, after an optional leading '?'. */
  function Segments(qs: string): (r: seq<string>)
    ensures forall i :: 0 <= i < |r| ==> r[i] != "" && '&' !in r[i]
  {
    var body := if |qs| > 0 && qs[0] == '?' then qs[1..] else qs;
    SplitPiecesFree(body, '&');
    NonEmptyFree(Split(body, '&'), '&');
    NonEmpty(Split(body, '&'))
  }

  /** `parseQuery(qs)`; `None` where it throws URIError. */
  function QueryOf(qs: string): (r: Option<Query>)
    ensures r.None? <==> exists i :: 0 <= i < |Segments(qs)| && Pair(Segments(qs)[i]).None?
  {
    ApplyAllFails(EmptyQuery, Segments(qs));
    if qs == "" then Some(EmptyQuery) else ApplyAll(EmptyQuery, Segments(qs))
  }

  /** `parseQuery`: the segments are applied one by one to `out`. */
  method ParseQuery(qs: string) returns (r: Option<Query>)
    ensures r == QueryOf(qs)
  {
    var out := EmptyQuery;
    if qs == "" {
      return Some(out);
    }
    var body := if qs[0] == '?' then qs[1..] else qs;
    var params := NonEmpty(Split(body, '&'));
    QueryOfSome(qs);
    var i := 0;
    while i < |params|
      invariant 0 <= i <= |params|
      invariant ApplyAll(EmptyQuery, params[..i]) == Some(out)
    {
      var pair := params[i];
      var prev := out;
      var kv := Pair(pair);
      if kv.None? {
        ApplyAllFailsAt(EmptyQuery, params, i);
        return None;
      }
      var (key, val) := kv.value;
      out := SetField(out, key, val);
      ApplyAllPrefixStep(EmptyQuery, params, i, prev, key, val);
      i := i + 1;
    }
    assert params[..|params|] == params;
    return Some(out);
  }

  /** The body of `parseQuery`'s loop for one decoded pair: the field the
      key names is set from the value. */
  method SetField(out: Query, key: string, val: string) returns (next: Query)
    ensures next == Apply(out, key, val)
  {
    next := out;
    if key == "schedule_days" && val != "" {
      next := next.(scheduleDays := Numbers(Split(val, ',')));
    } else if key == "price_min" {
      next := next.(priceMin := PriceOf(ParseInt(val)));
    } else if key == "price_max" {
      next := next.(priceMax := PriceOf(ParseInt(val)));
    } else if key == "room_types" && val != "" {
      next := next.(roomTypes := Split(val, ','));
    } else if key == "sort_by" {
      next := next.(sortBy := Some(val));
    }
  }

  /** One more segment that decodes applies on top of the prefix before
      it. */
  lemma ApplyAllPrefixStep(q: Query, segs: seq<string>, i: int, prev: Query, key: string, val: string)
    requires 0 <= i < |segs| && ApplyAll(q, segs[..i]) == Some(prev)
    requires Pair(segs[i]) == Some((key, val))
    ensures ApplyAll(q, segs[..i + 1]) == Some(Apply(prev, key, val))
  {
    assert segs[..i + 1][..i] == segs[..i];
  }

  /** A non-empty query string is parsed by applying its segments. */
  lemma QueryOfSome(qs: string)
    requires qs != ""
    ensures QueryOf(qs) ==
      ApplyAll(EmptyQuery, NonEmpty(Split(if qs[0] == '?' then qs[1..] else qs, '&')))
  {
  }

  /** A segment that does not decode makes the whole run fail. */
  lemma ApplyAllFailsAt(q: Query, segs: seq<string>, i: int)
    requires 0 <= i < |segs| && Pair(segs[i]).None?
    ensures ApplyAll(q, segs) == None
  {
    ApplyAllFails(q, segs);
  }

  function PriceText(p: Price): string {
    match p
      case Num(n) => IntToString(n)
      case _ => "NaN"
  }

  /** `String(n)` of every day. */
  function Texts(ns: seq<int>): (r: seq<string>)
    ensures |r| == |ns|
    ensures forall i :: 0 <= i < |ns| ==> r[i] == IntToString(ns[i])
  {
    if |ns| == 0 then [] else [IntToString(ns[0])] + Texts(ns[1..])
  }

  /** `key + '=' + value` */
  function Segment(key: string, v: string): string {
    key + "=" + v
  }

  function DaysPart(s: Query): (r: seq<string>)
    ensures r == [] <==> |s.scheduleDays| == 0
    ensures r != [] ==> StartsWith(r[0], "schedule_days=") && |r| == 1
  {
    if |s.scheduleDays| > 0 then [Segment("schedule_days", Encode(Join(Texts(s.scheduleDays), ",")))] else []
  }

  function MinPart(s: Query): (r: seq<string>)
    ensures r == [] <==> s.priceMin == Absent
    ensures r != [] ==> StartsWith(r[0], "price_min=") && |r| == 1
  {
    if s.priceMin != Absent then [Segment("price_min", PriceText(s.priceMin))] else []
  }

  function MaxPart(s: Query): (r: seq<string>)
    ensures r == [] <==> s.priceMax == Absent
    ensures r != [] ==> StartsWith(r[0], "price_max=") && |r| == 1
  {
    if s.priceMax != Absent then [Segment("price_max", PriceText(s.priceMax))] else []
  }

  function RoomPart(s: Query): (r: seq<string>)
    ensures r == [] <==> |s.roomTypes| == 0
    ensures r != [] ==> StartsWith(r[0], "room_types=") && |r| == 1
  {
    if |s.roomTypes| > 0 then [Segment("room_types", Encode(Join(s.roomTypes, ",")))] else []
  }

  function SortPart(s: Query): (r: seq<string>)
    ensures r == [] <==> s.sortBy.None? || s.sortBy.value == ""
    ensures r != [] ==> StartsWith(r[0], "sort_by=") && |r| == 1
  {
    if s.sortBy.Some? && s.sortBy.value != "" then [Segment("sort_by", Encode(s.sortBy.value))] else []
  }

  /** The segments `stringifyQuery` writes, in its fixed field order. */
  function Parts(s: Query): (r: seq<string>)
    ensures |r| <= 5
    ensures r == [] <==>
      |s.scheduleDays| == 0 && s.priceMin == Absent && s.priceMax == Absent &&
      |s.roomTypes| == 0 && (s.sortBy.None? || s.sortBy.value == "")
  {
    DaysPart(s) + MinPart(s) + MaxPart(s) + RoomPart(s) + SortPart(s)
  }

  /** `stringifyQuery(s)` */
  function QueryString(s: Query): (r: string)
    ensures r == "" <==> Parts(s) == []
  {
    Join(Parts(s), "&")
  }

  /** `stringifyQuery`: the present fields are pushed onto `parts`, which is
      then joined with '&'. */
  method StringifyQuery(s: Query) returns (r: string)
    ensures r == QueryString(s)
  {
    var parts: seq<string> := [];
    assert parts + DaysPart(s) == DaysPart(s);
    if |s.scheduleDays| > 0 {
      parts := parts + [Segment("schedule_days", Encode(Join(Texts(s.scheduleDays), ",")))];
    }
    if s.priceMin != Absent {
      parts := parts + [Segment("price_min", PriceText(s.priceMin))];
    }
    assert parts == DaysPart(s) + MinPart(s);
    if s.priceMax != Absent {
      parts := parts + [Segment("price_max", PriceText(s.priceMax))];
    }
    assert parts == DaysPart(s) + MinPart(s) + MaxPart(s);
    if |s.roomTypes| > 0 {
      parts := parts + [Segment("room_types", Encode(Join(s.roomTypes, ",")))];
    }
    assert parts == DaysPart(s) + MinPart(s) + MaxPart(s) + RoomPart(s);
    if s.sortBy.Some? && s.sortBy.value != "" {
      parts := parts + [Segment("sort_by", Encode(s.sortBy.value))];
    }
    assert parts == Parts(s);
    r := Join(parts, "&");
  }

  /** States that survive the round trip: room types without ',' (and not
      the single empty type), and no empty sort key. Any days and prices,
      NaN included, do. */
  predicate WellFormed(s: Query) {
    (forall i :: 0 <= i < |s.roomTypes| ==> ',' !in s.roomTypes[i]) &&
    s.roomTypes != [""] &&
    s.sortBy != Some("")
  }

  // ---------------------------------------------------------------------
  // Properties of the parser

  /** A failed decode stops the parse whatever follows. */
  lemma {:induction false} ApplyAllNone(q: Query, a: seq<string>, b: seq<string>)
    requires ApplyAll(q, a) == None
    ensures ApplyAll(q, a + b) == None
    decreases |b|
  {
    if |b| == 0 {
      assert a + b == a;
    } else {
      assert (a + b)[..|a + b| - 1] == a + b[..|b| - 1];
      ApplyAllNone(q, a, b[..|b| - 1]);
    }
  }

  /** Applying `a` then `b` is applying `a + b`. */
  lemma {:induction false} ApplyAllAppend(q: Query, a: seq<string>, b: seq<string>)
    ensures ApplyAll(q, a + b) ==
      match ApplyAll(q, a) case None => None case Some(q') => ApplyAll(q', b)
    decreases |b|
  {
    if |b| == 0 {
      assert a + b == a;
    } else {
      assert (a + b)[..|a + b| - 1] == a + b[..|b| - 1];
      ApplyAllAppend(q, a, b[..|b| - 1]);
    }
  }

  lemma ApplyOne(q: Query, seg: string)
    ensures ApplyAll(q, [seg]) ==
      match Pair(seg) case None => None case Some((k, v)) => Some(Apply(q, k, v))
  {
    assert [seg][..0] == [];
  }

  /** A key that needs no escaping and holds no separator. */
  predicate PlainKey(key: string) {
    |key| > 0 && key[0] != '?' &&
    forall i :: 0 <= i < |key| ==> key[i] != '=' && key[i] != '%' && key[i] != '&'
  }

  lemma KeysPlain()
    ensures PlainKey("schedule_days") && PlainKey("price_min") && PlainKey("price_max")
    ensures PlainKey("room_types") && PlainKey("sort_by")
  {
  }

  /** `key=value` with a plain key is split at the '=' after the key. */
  lemma PairOf(key: string, v: string)
    requires PlainKey(key)
    ensures Pair(Segment(key, v)) ==
      match Decode(v) case None => None case Some(x) => Some((key, x))
  {
    var seg := Segment(key, v);
    assert seg[..|key|] == key;
    IndexOfAt(seg, '=', |key|);
    assert seg[|key| + 1..] == v;
    assert '%' !in key;
    DecodePlain(key);
  }

  /** Reading back the printed days gives the days. */
  lemma {:induction false} NumbersOfTexts(ns: seq<int>)
    ensures Numbers(Texts(ns)) == ns
    decreases |ns|
  {
    if |ns| > 0 {
      ParseIntToString(ns[0]);
      assert Texts(ns)[1..] == Texts(ns[1..]);
      NumbersOfTexts(ns[1..]);
    }
  }

  lemma ParseIntNaN()
    ensures ParseInt("NaN") == None
  {
    var t := "NaN";
    assert t[0] == 'N';
    assert !IsJsWhitespace(t[0]);
    assert TrimStart(t) == t;
    assert SignStripped(t) == t;
    assert !IsDigit(t[0]);
    assert LeadingDigits(t) == "";
  }

  lemma PriceTextPlain(p: Price)
    ensures forall i :: 0 <= i < |PriceText(p)| ==> PriceText(p)[i] != '&' && PriceText(p)[i] != '%'
  {
  }

  /** A printed price is plain text and parses back to the price. */
  lemma PriceRoundTrip(p: Price)
    requires p != Absent
    ensures Decode(PriceText(p)) == Some(PriceText(p))
    ensures PriceOf(ParseInt(PriceText(p))) == p
  {
    match p {
      case Num(n) =>
        ParseIntToString(n);
      case NaN =>
        ParseIntNaN();
    }
    PriceTextPlain(p);
    DecodePlain(PriceText(p));
  }

  lemma DaysPartApplies(q: Query, s: Query)
    requires q.scheduleDays == []
    ensures ApplyAll(q, DaysPart(s)) == Some(q.(scheduleDays := s.scheduleDays))
  {
    KeysPlain();
    if |s.scheduleDays| > 0 {
      var ts := Texts(s.scheduleDays);
      var j := Join(ts, ",");
      ApplyOne(q, Segment("schedule_days", Encode(j)));
      PairOf("schedule_days", Encode(j));
      DecodeEncode(j);
      JoinNonEmpty(ts, ",");
      assert forall i :: 0 <= i < |ts| ==> ',' !in ts[i];
      SplitJoin(ts, ',');
      NumbersOfTexts(s.scheduleDays);
    }
  }

  lemma MinPartApplies(q: Query, s: Query)
    requires q.priceMin == Absent
    ensures ApplyAll(q, MinPart(s)) == Some(q.(priceMin := s.priceMin))
  {
    KeysPlain();
    if s.priceMin != Absent {
      ApplyOne(q, Segment("price_min", PriceText(s.priceMin)));
      PairOf("price_min", PriceText(s.priceMin));
      PriceRoundTrip(s.priceMin);
    }
  }

  lemma MaxPartApplies(q: Query, s: Query)
    requires q.priceMax == Absent
    ensures ApplyAll(q, MaxPart(s)) == Some(q.(priceMax := s.priceMax))
  {
    KeysPlain();
    if s.priceMax != Absent {
      ApplyOne(q, Segment("price_max", PriceText(s.priceMax)));
      PairOf("price_max", PriceText(s.priceMax));
      PriceRoundTrip(s.priceMax);
    }
  }

  lemma RoomPartApplies(q: Query, s: Query)
    requires q.roomTypes == []
    requires WellFormed(s)
    ensures ApplyAll(q, RoomPart(s)) == Some(q.(roomTypes := s.roomTypes))
  {
    KeysPlain();
    var rt := s.roomTypes;
    if |rt| > 0 {
      var j := Join(rt, ",");
      ApplyOne(q, Segment("room_types", Encode(j)));
      PairOf("room_types", Encode(j));
      DecodeEncode(j);
      if |rt| == 1 {
        assert rt[0] != "";
      }
      assert j != "";
      SplitJoin(rt, ',');
    }
  }

  lemma SortPartApplies(q: Query, s: Query)
    requires q.sortBy == None
    requires WellFormed(s)
    ensures ApplyAll(q, SortPart(s)) == Some(q.(sortBy := s.sortBy))
  {
    KeysPlain();
    if s.sortBy.Some? {
      ApplyOne(q, Segment("sort_by", Encode(s.sortBy.value)));
      PairOf("sort_by", Encode(s.sortBy.value));
      DecodeEncode(s.sortBy.value);
    }
  }

  /** A segment `stringifyQuery` writes: non-empty, without '&', and not
      starting with '?'. */
  predicate PlainSegment(seg: string) {
    |seg| > 0 && seg[0] != '?' && forall i :: 0 <= i < |seg| ==> seg[i] != '&'
  }

  lemma KeyedSegment(key: string, v: string)
    requires PlainKey(key)
    requires forall i :: 0 <= i < |v| ==> v[i] != '&'
    ensures PlainSegment(Segment(key, v))
  {
    var seg := Segment(key, v);
    forall i | 0 <= i < |seg| ensures seg[i] != '&' {
      if i < |key| {
        assert seg[i] == key[i];
      } else if i > |key| {
        assert seg[i] == v[i - |key| - 1];
      }
    }
  }

  lemma PartsPlain(s: Query)
    ensures forall i :: 0 <= i < |Parts(s)| ==> PlainSegment(Parts(s)[i])
  {
    KeysPlain();
    if |s.scheduleDays| > 0 {
      EncodeNoDelimiters(Join(Texts(s.scheduleDays), ","));
      KeyedSegment("schedule_days", Encode(Join(Texts(s.scheduleDays), ",")));
    }
    if s.priceMin != Absent {
      PriceTextPlain(s.priceMin);
      KeyedSegment("price_min", PriceText(s.priceMin));
    }
    if s.priceMax != Absent {
      PriceTextPlain(s.priceMax);
      KeyedSegment("price_max", PriceText(s.priceMax));
    }
    if |s.roomTypes| > 0 {
      EncodeNoDelimiters(Join(s.roomTypes, ","));
      KeyedSegment("room_types", Encode(Join(s.roomTypes, ",")));
    }
    if s.sortBy.Some? && s.sortBy.value != "" {
      EncodeNoDelimiters(s.sortBy.value);
      KeyedSegment("sort_by", Encode(s.sortBy.value));
    }
    PlainAppend(DaysPart(s), MinPart(s));
    PlainAppend(DaysPart(s) + MinPart(s), MaxPart(s));
    PlainAppend(DaysPart(s) + MinPart(s) + MaxPart(s), RoomPart(s));
    PlainAppend(DaysPart(s) + MinPart(s) + MaxPart(s) + RoomPart(s), SortPart(s));
  }

  /** Lists of plain segments stay plain when concatenated. */
  lemma PlainAppend(a: seq<string>, b: seq<string>)
    requires forall i :: 0 <= i < |a| ==> PlainSegment(a[i])
    requires forall i :: 0 <= i < |b| ==> PlainSegment(b[i])
    ensures forall i :: 0 <= i < |a + b| ==> PlainSegment((a + b)[i])
  {
    forall i | 0 <= i < |a + b|
      ensures PlainSegment((a + b)[i])
    {
      if i >= |a| {
        assert (a + b)[i] == b[i - |a|];
      }
    }
  }

  /** `parseQuery(stringifyQuery(s))` gives `s` back for every well-formed
      state. */
  lemma QueryRoundTrip(s: Query)
    requires WellFormed(s)
    ensures QueryOf(QueryString(s)) == Some(s)
  {
    var parts := Parts(s);
    var q0 := EmptyQuery;
    var q1 := q0.(scheduleDays := s.scheduleDays);
    var q2 := q1.(priceMin := s.priceMin);
    var q3 := q2.(priceMax := s.priceMax);
    var q4 := q3.(roomTypes := s.roomTypes);
    DaysPartApplies(q0, s);
    MinPartApplies(q1, s);
    MaxPartApplies(q2, s);
    RoomPartApplies(q3, s);
    SortPartApplies(q4, s);
    assert q4.(sortBy := s.sortBy) == s;
    var a := DaysPart(s);
    var b := MinPart(s);
    var c := MaxPart(s);
    var d := RoomPart(s);
    var e := SortPart(s);
    ApplyAllAppend(q0, a, b);
    ApplyAllAppend(q0, a + b, c);
    ApplyAllAppend(q0, a + b + c, d);
    ApplyAllAppend(q0, a + b + c + d, e);
    assert ApplyAll(q0, parts) == Some(s);
    if |parts| > 0 {
      PartsPlain(s);
      var qs := QueryString(s);
      JoinNonEmpty(parts, "&");
      JoinHead(parts, "&");
      assert qs[0] != '?';
      SplitJoin(parts, '&');
      NonEmptyId(parts);
      assert Segments(qs) == parts;
    }
  }

  // ---------------------------------------------------------------------
  // One more segment at the end of a query string

  lemma {:induction false} SegmentsAppend(qs: string, seg: string)
    requires |seg| > 0 && forall i :: 0 <= i < |seg| ==> seg[i] != '&'
    ensures Segments(qs + "&" + seg) == Segments(qs) + [seg]
  {
    var body := if |qs| > 0 && qs[0] == '?' then qs[1..] else qs;
    var s := qs + "&" + seg;
    assert s[0] == if |qs| > 0 then qs[0] else '&';
    assert (if |s| > 0 && s[0] == '?' then s[1..] else s) == body + ['&'] + seg;
    SplitConcat(body, '&', seg);
    FindNoChar(seg, '&');
    NonEmptyAppend(Split(body, '&'), [seg]);
    assert NonEmpty([seg]) == [seg];
  }

  lemma ApplyLast(q: Query, segs: seq<string>, seg: string)
    ensures ApplyAll(q, segs + [seg]) ==
      match ApplyAll(q, segs)
        case None => None
        case Some(q') => match Pair(seg) case None => None case Some((k, v)) => Some(Apply(q', k, v))
  {
    assert (segs + [seg])[..|segs|] == segs;
  }

  /** The empty query string is no special case. */
  lemma QueryOfSegments(qs: string)
    ensures QueryOf(qs) == ApplyAll(EmptyQuery, Segments(qs))
  {
    if qs == "" {
      assert Split("", '&') == [""];
    }
  }

  /** A segment appended to a query string is applied after all the others. */
  lemma QueryAppend(qs: string, seg: string)
    requires |seg| > 0 && forall i :: 0 <= i < |seg| ==> seg[i] != '&'
    ensures QueryOf(qs + "&" + seg) ==
      match QueryOf(qs)
        case None => None
        case Some(q) => match Pair(seg) case None => None case Some((k, v)) => Some(Apply(q, k, v))
  {
    SegmentsAppend(qs, seg);
    QueryOfSegments(qs);
    QueryOfSegments(qs + "&" + seg);
    ApplyLast(EmptyQuery, Segments(qs), seg);
  }

  /** When a key repeats, the last occurrence wins: a later price replaces
      the one parsed so far. */
  lemma LaterPriceWins(qs: string, q: Query, n: int)
    requires QueryOf(qs) == Some(q)
    ensures QueryOf(qs + "&" + Segment("price_min", IntToString(n))) == Some(q.(priceMin := Num(n)))
    ensures QueryOf(qs + "&" + Segment("price_max", IntToString(n))) == Some(q.(priceMax := Num(n)))
  {
    LaterMinWins(qs, q, n);
    LaterMaxWins(qs, q, n);
  }

  /** A later `price_min` replaces the one parsed so far. */
  lemma LaterMinWins(qs: string, q: Query, n: int)
    requires QueryOf(qs) == Some(q)
    ensures QueryOf(qs + "&" + Segment("price_min", IntToString(n))) == Some(q.(priceMin := Num(n)))
  {
    PricePair("price_min", n);
    ApplyMin(q, IntToString(n));
    QueryAppend(qs, Segment("price_min", IntToString(n)));
  }

  /** A later `price_max` replaces the one parsed so far. */
  lemma LaterMaxWins(qs: string, q: Query, n: int)
    requires QueryOf(qs) == Some(q)
    ensures QueryOf(qs + "&" + Segment("price_max", IntToString(n))) == Some(q.(priceMax := Num(n)))
  {
    PricePair("price_max", n);
    ApplyMax(q, IntToString(n));
    QueryAppend(qs, Segment("price_max", IntToString(n)));
  }

  /** A written price pair is a plain segment that splits back into its key
      and the printed number, which parses back to the number. */
  lemma PricePair(key: string, n: int)
    requires key == "price_min" || key == "price_max"
    ensures PlainSegment(Segment(key, IntToString(n)))
    ensures Pair(Segment(key, IntToString(n))) == Some((key, IntToString(n)))
    ensures PriceOf(ParseInt(IntToString(n))) == Num(n)
  {
    KeysPlain();
    PriceTextPlain(Num(n));
    PriceRoundTrip(Num(n));
    KeyedSegment(key, IntToString(n));
    PairOf(key, IntToString(n));
  }

  /** A `price_min` pair sets the minimum price only. */
  lemma ApplyMin(q: Query, v: string)
    ensures Apply(q, "price_min", v) == q.(priceMin := PriceOf(ParseInt(v)))
  {
    assert "price_min"[0] != "schedule_days"[0];
  }

  /** A `price_max` pair sets the maximum price only. */
  lemma ApplyMax(q: Query, v: string)
    ensures Apply(q, "price_max", v) == q.(priceMax := PriceOf(ParseInt(v)))
  {
    assert "price_max"[0] != "schedule_days"[0];
    assert "price_max"[7] != "price_min"[7];
  }

  /** A later sort key replaces the one parsed so far, even an empty one. */
  lemma LaterSortWins(qs: string, q: Query, x: string)
    requires QueryOf(qs) == Some(q)
    ensures QueryOf(qs + "&" + Segment("sort_by", Encode(x))) == Some(q.(sortBy := Some(x)))
  {
    KeysPlain();
    EncodeNoDelimiters(x);
    KeyedSegment("sort_by", Encode(x));
    PairOf("sort_by", Encode(x));
    DecodeEncode(x);
    QueryAppend(qs, Segment("sort_by", Encode(x)));
  }

  /** A segment with an unknown key changes nothing, provided its value
      decodes (a malformed escape makes the whole parse throw). */
  lemma UnknownKeyIgnored(qs: string, key: string, v: string)
    requires PlainKey(key)
    requires key != "schedule_days" && key != "price_min" && key != "price_max"
    requires key != "room_types" && key != "sort_by"
    requires forall i :: 0 <= i < |v| ==> v[i] != '&'
    requires Decode(v).Some?
    ensures QueryOf(qs + "&" + Segment(key, v)) == QueryOf(qs)
  {
    KeyedSegment(key, v);
    PairOf(key, v);
    QueryAppend(qs, Segment(key, v));
  }

  /** An empty `schedule_days` or `room_types` value leaves the list as it
      was; a key with no '=' at all has the value "". */
  lemma EmptyValues(qs: string, q: Query)
    requires QueryOf(qs) == Some(q)
    ensures QueryOf(qs + "&" + Segment("schedule_days", "")) == Some(q)
    ensures QueryOf(qs + "&" + Segment("room_types", "")) == Some(q)
    ensures QueryOf(qs + "&" + "sort_by") == Some(q.(sortBy := Some("")))
  {
    KeysPlain();
    EmptyListValue(qs, "schedule_days");
    EmptyListValue(qs, "room_types");
    var k := "sort_by";
    assert IndexOf(k, '=') == -1;
    DecodePlain(k);
    QueryAppend(qs, k);
  }

  /** Appending `key=` parses as applying `key` with the value "". */
  lemma EmptyListValue(qs: string, key: string)
    requires PlainKey(key)
    ensures QueryOf(qs + "&" + Segment(key, "")) ==
      match QueryOf(qs) case None => None case Some(q) => Some(Apply(q, key, ""))
  {
    KeyedSegment(key, "");
    PairOf(key, "");
    QueryAppend(qs, Segment(key, ""));
  }

  /** The empty query string, a lone '?' and separators alone parse to the
      empty state. */
  lemma EmptyQueries()
    ensures QueryOf("") == Some(EmptyQuery)
    ensures QueryOf("?") == Some(EmptyQuery)
    ensures QueryOf("&&") == Some(EmptyQuery)
  {
    assert "?"[1..] == "";
    SeparatorsOnly();
    assert NonEmpty(["", "", ""]) == [];
  }

  /** Two separators split into three empty pieces. */
  lemma SeparatorsOnly()
    ensures Split("&&", '&') == ["", "", ""]
  {
    assert Split("", '&') == [""];
    SplitFirst("", '&', "");
    assert "" + ['&'] + "" == "&";
    SplitFirst("", '&', "&");
    assert "" + ['&'] + "&" == "&&";
  }
}
