/** The search page's filter-structure validator: a single pass over the
    start-tag and text events of the page that raises id flags, tracks the
    group a checkbox or option button belongs to, and counts them; then twelve
    checks decide pass or fail. */
module FilterStructure {
  import opened Strings

  /** The group the parser attributes checkboxes and option buttons to. */
  datatype Context = NoContext | Schedule | PropertyType | Amenity | Bedroom | Bathroom

  /** A parser event. `id` and `cls` are "" when the attribute is absent; `typ`
      is `None` when the tag has no (valued) type attribute. */
  datatype Event =
    | StartTag(tag: string, id: string, cls: string, typ: Option<string>)
    | Text(data: string)

  /** The parser's table of flags and counters. */
  datatype Elements = Elements(
    filterSection: bool,
    filterTitle: bool,
    clearButton: bool,
    locationInput: bool,
    minPrice: bool,
    maxPrice: bool,
    scheduleCheckboxes: nat,
    propertyTypeCheckboxes: nat,
    bedroomButtons: nat,
    bathroomButtons: nat,
    amenityCheckboxes: nat,
    applyButton: bool)

  const InitialElements: Elements :=
    Elements(false, false, false, false, false, false, 0, 0, 0, 0, 0, false)

  datatype ParserState = ParserState(elements: Elements, context: Context)

  const InitialState: ParserState := ParserState(InitialElements, NoContext)

  /** The ids whose presence the validator records. */
  predicate IsTrackedId(id: string) {
    id == "filter-section" || id == "clear-filters" || id == "location-input" ||
    id == "min-price" || id == "max-price" || id == "apply-filters"
  }

  /** The flag recorded for a tracked id. */
  function IdFlag(e: Elements, id: string): bool {
    if id == "filter-section" then e.filterSection
    else if id == "clear-filters" then e.clearButton
    else if id == "location-input" then e.locationInput
    else if id == "min-price" then e.minPrice
    else if id == "max-price" then e.maxPrice
    else if id == "apply-filters" then e.applyButton
    else false
  }

  /** The counter kept for a group; no counter for `NoContext`. */
  function Count(e: Elements, k: Context): nat {
    match k
      case NoContext => 0
      case Schedule => e.scheduleCheckboxes
      case PropertyType => e.propertyTypeCheckboxes
      case Amenity => e.amenityCheckboxes
      case Bedroom => e.bedroomButtons
      case Bathroom => e.bathroomButtons
  }

  /** The group a class attribute marks, by substring test in priority order;
      `NoContext` when it carries no marker. */
  function MarkerContext(cls: string): (k: Context)
    ensures k == Schedule <==> Contains(cls, "schedule-options")
    ensures k == PropertyType <==>
      !Contains(cls, "schedule-options") && Contains(cls, "property-type-options")
    ensures k == Amenity <==>
      !Contains(cls, "schedule-options") && !Contains(cls, "property-type-options") &&
      Contains(cls, "amenities-options")
    ensures k == Bedroom <==>
      !Contains(cls, "schedule-options") && !Contains(cls, "property-type-options") &&
      !Contains(cls, "amenities-options") && Contains(cls, "bedroom-options")
    ensures k == Bathroom <==>
      !Contains(cls, "schedule-options") && !Contains(cls, "property-type-options") &&
      !Contains(cls, "amenities-options") && !Contains(cls, "bedroom-options") &&
      Contains(cls, "bathroom-options")
    ensures k == NoContext <==>
      !Contains(cls, "schedule-options") && !Contains(cls, "property-type-options") &&
      !Contains(cls, "amenities-options") && !Contains(cls, "bedroom-options") &&
      !Contains(cls, "bathroom-options")
  {
    if Contains(cls, "schedule-options") then Schedule
    else if Contains(cls, "property-type-options") then PropertyType
    else if Contains(cls, "amenities-options") then Amenity
    else if Contains(cls, "bedroom-options") then Bedroom
    else if Contains(cls, "bathroom-options") then Bathroom
    else NoContext
  }

  predicate IsMarker(ev: Event) {
    ev.StartTag? && MarkerContext(ev.cls) != NoContext
  }

  /** The tag counts toward group `k`, when `k` is the current group: a checkbox
      input for the three checkbox groups, an option button for the two
      button groups. */
  predicate CountsToward(ev: Event, k: Context) {
    ev.StartTag? &&
    match k
      case NoContext => false
      case Schedule | PropertyType | Amenity => ev.tag == "input" && ev.typ == Some("checkbox")
      case Bedroom | Bathroom => ev.tag == "button" && Contains(ev.cls, "option-button")
  }

  /** The six tracked ids are pairwise different. */
  lemma TrackedIdsDistinct()
    ensures "filter-section" != "clear-filters"
    ensures "filter-section" != "location-input"
    ensures "filter-section" != "min-price"
    ensures "filter-section" != "max-price"
    ensures "filter-section" != "apply-filters"
    ensures "clear-filters" != "location-input"
    ensures "clear-filters" != "min-price"
    ensures "clear-filters" != "max-price"
    ensures "clear-filters" != "apply-filters"
    ensures "location-input" != "min-price"
    ensures "location-input" != "max-price"
    ensures "location-input" != "apply-filters"
    ensures "min-price" != "max-price"
    ensures "min-price" != "apply-filters"
    ensures "max-price" != "apply-filters"
  {
    assert "filter-section"[0] != "location-input"[0];
    assert "clear-filters"[0] != "apply-filters"[0];
    assert "min-price"[1] != "max-price"[1];
  }

  /** A tracked id's flag in a table whose flags were raised for `id`. */
  lemma MarkedFlag(e: Elements, r: Elements, id: string, t: string)
    requires IsTrackedId(t)
    requires r.filterSection == (e.filterSection || id == "filter-section")
    requires r.clearButton == (e.clearButton || id == "clear-filters")
    requires r.locationInput == (e.locationInput || id == "location-input")
    requires r.minPrice == (e.minPrice || id == "min-price")
    requires r.maxPrice == (e.maxPrice || id == "max-price")
    requires r.applyButton == (e.applyButton || id == "apply-filters")
    ensures IdFlag(r, t) <==> IdFlag(e, t) || id == t
  {
    TrackedIdsDistinct();
  }

  /** The id flags after a start tag with id `id`. */
  function MarkIds(e: Elements, id: string): (r: Elements)
    ensures forall t :: IsTrackedId(t) ==> (IdFlag(r, t) <==> IdFlag(e, t) || id == t)
    ensures forall k :: Count(r, k) == Count(e, k)
    ensures r.filterTitle == e.filterTitle
  {
    var r := e.(filterSection := e.filterSection || id == "filter-section",
                clearButton := e.clearButton || id == "clear-filters",
                locationInput := e.locationInput || id == "location-input",
                minPrice := e.minPrice || id == "min-price",
                maxPrice := e.maxPrice || id == "max-price",
                applyButton := e.applyButton || id == "apply-filters");
    assert forall t :: IsTrackedId(t) ==> (IdFlag(r, t) <==> IdFlag(e, t) || id == t) by {
      forall t | IsTrackedId(t)
        ensures IdFlag(r, t) <==> IdFlag(e, t) || id == t
      {
        MarkedFlag(e, r, id, t);
      }
    }
    r
  }

  /** One more on the counter of group `k`; nothing for `NoContext`. */
  function AddOne(e: Elements, k: Context): (r: Elements)
    ensures forall g :: Count(r, g) == Count(e, g) + (if g == k && k != NoContext then 1 else 0)
    ensures forall t :: IdFlag(r, t) == IdFlag(e, t)
    ensures r.filterTitle == e.filterTitle
  {
    match k
      case NoContext => e
      case Schedule => e.(scheduleCheckboxes := e.scheduleCheckboxes + 1)
      case PropertyType => e.(propertyTypeCheckboxes := e.propertyTypeCheckboxes + 1)
      case Amenity => e.(amenityCheckboxes := e.amenityCheckboxes + 1)
      case Bedroom => e.(bedroomButtons := e.bedroomButtons + 1)
      case Bathroom => e.(bathroomButtons := e.bathroomButtons + 1)
  }

  /** The group after a start tag with class `cls`: its marker if it has one,
      the current group otherwise. */
  function NextContext(k: Context, cls: string): Context {
    if MarkerContext(cls) == NoContext then k else MarkerContext(cls)
  }

  /** The state after one event: the reference definition the parser's
      handlers are proved against. */
  function Step(st: ParserState, ev: Event): (r: ParserState)
    ensures ev.Text? ==> r.context == st.context
    ensures IsMarker(ev) ==> r.context == MarkerContext(ev.cls)
    ensures !IsMarker(ev) ==> r.context == st.context
  {
    match ev
      case Text(data) =>
        ParserState(st.elements.(filterTitle := st.elements.filterTitle || Contains(data, "Filters")), st.context)
      case StartTag(tag, id, cls, typ) =>
        var k := NextContext(st.context, cls);
        var e := MarkIds(st.elements, id);
        ParserState(if CountsToward(ev, k) then AddOne(e, k) else e, k)
  }

  /** The state after a sequence of events, from `st`. */
  function RunFrom(st: ParserState, evs: seq<Event>): ParserState
    decreases |evs|
  {
    if |evs| == 0 then st else Step(RunFrom(st, evs[..|evs| - 1]), evs[|evs| - 1])
  }

  /** The state after feeding a whole document to a fresh parser. */
  function Run(evs: seq<Event>): ParserState {
    RunFrom(InitialState, evs)
  }

  /** The parser object: the table and the current group, both updated in
      place by the two handlers. */
  class FilterElementParser {
    var elements: Elements
    var currentContext: Context

    function State(): ParserState
      reads this
    {
      ParserState(elements, currentContext)
    }

    constructor()
      ensures State() == InitialState
    {
      elements := InitialElements;
      currentContext := NoContext;
    }

    /** `handle_starttag`: id flags, then the group update, then counting. */
    method HandleStartTag(tag: string, id: string, cls: string, typ: Option<string>)
      modifies this
      ensures State() == Step(old(State()), StartTag(tag, id, cls, typ))
    {
      MarkId(id);
      TrackContext(cls);
      CountTag(tag, cls, typ);
    }

    /** The id checks of `handle_starttag`. */
    method MarkId(id: string)
      modifies this
      ensures elements == MarkIds(old(elements), id)
      ensures currentContext == old(currentContext)
    {
      TrackedIdsDistinct();
      if id == "filter-section" {
        elements := elements.(filterSection := true);
      }
      if id == "clear-filters" {
        elements := elements.(clearButton := true);
      }
      if id == "location-input" {
        elements := elements.(locationInput := true);
      }
      if id == "min-price" {
        elements := elements.(minPrice := true);
      }
      if id == "max-price" {
        elements := elements.(maxPrice := true);
      }
      if id == "apply-filters" {
        elements := elements.(applyButton := true);
      }
    }

    /** The group tracking of `handle_starttag`: the first marker found in the
        class attribute, in priority order, replaces the current group. */
    method TrackContext(cls: string)
      modifies this
      ensures currentContext == NextContext(old(currentContext), cls)
      ensures elements == old(elements)
    {
      if Contains(cls, "schedule-options") {
        currentContext := Schedule;
      } else if Contains(cls, "property-type-options") {
        currentContext := PropertyType;
      } else if Contains(cls, "amenities-options") {
        currentContext := Amenity;
      } else if Contains(cls, "bedroom-options") {
        currentContext := Bedroom;
      } else if Contains(cls, "bathroom-options") {
        currentContext := Bathroom;
      }
    }

    /** The counting of `handle_starttag`, against the group already updated
        for this tag. */
    method CountTag(tag: string, cls: string, typ: Option<string>)
      modifies this
      ensures currentContext == old(currentContext)
      ensures elements == if CountsToward(StartTag(tag, "", cls, typ), currentContext)
        then AddOne(old(elements), currentContext) else old(elements)
    {
      if tag == "input" && typ == Some("checkbox") {
        if currentContext == Schedule {
          elements := elements.(scheduleCheckboxes := elements.scheduleCheckboxes + 1);
        } else if currentContext == PropertyType {
          elements := elements.(propertyTypeCheckboxes := elements.propertyTypeCheckboxes + 1);
        } else if currentContext == Amenity {
          elements := elements.(amenityCheckboxes := elements.amenityCheckboxes + 1);
        }
      }

      if tag == "button" && Contains(cls, "option-button") {
        if currentContext == Bedroom {
          elements := elements.(bedroomButtons := elements.bedroomButtons + 1);
        } else if currentContext == Bathroom {
          elements := elements.(bathroomButtons := elements.bathroomButtons + 1);
        }
      }
    }

    /** `handle_data`: the title flag latches on the first text with "Filters". */
    method HandleData(data: string)
      modifies this
      ensures State() == Step(old(State()), Text(data))
    {
      if Contains(data, "Filters") && !elements.filterTitle {
        elements := elements.(filterTitle := true);
      }
    }

    /** `feed`: every event, in document order, to its handler. */
    method Feed(evs: seq<Event>)
      modifies this
      ensures State() == RunFrom(old(State()), evs)
    {
      var i := 0;
      while i < |evs|
        invariant 0 <= i <= |evs|
        invariant State() == RunFrom(old(State()), evs[..i])
      {
        assert evs[..i + 1][..i] == evs[..i];
        match evs[i] {
          case StartTag(tag, id, cls, typ) => HandleStartTag(tag, id, cls, typ);
          case Text(data) => HandleData(data);
        }
        i := i + 1;
      }
      assert evs[..|evs|] == evs;
    }
  }

  /** The twelve labelled checks of the report, in report order. */
  function Checks(e: Elements): (cs: seq<(string, bool)>)
    ensures |cs| == 12
  {
    [ ("Filter Section", e.filterSection),
      ("Filter Title", e.filterTitle),
      ("Clear Button", e.clearButton),
      ("Location Input", e.locationInput),
      ("Min Price Input", e.minPrice),
      ("Max Price Input", e.maxPrice),
      ("Schedule Checkboxes (>=3)", e.scheduleCheckboxes >= 3),
      ("Property Type Checkboxes (>=4)", e.propertyTypeCheckboxes >= 4),
      ("Bedroom Buttons (>=5)", e.bedroomButtons >= 5),
      ("Bathroom Buttons (>=5)", e.bathroomButtons >= 5),
      ("Amenity Checkboxes (>=6)", e.amenityCheckboxes >= 6),
      ("Apply Button", e.applyButton) ]
  }

  /** The page has every required element. */
  predicate Complete(e: Elements) {
    e.filterSection && e.filterTitle && e.clearButton && e.locationInput &&
    e.minPrice && e.maxPrice && e.applyButton &&
    Count(e, Schedule) >= 3 && Count(e, PropertyType) >= 4 &&
    Count(e, Bedroom) >= 5 && Count(e, Bathroom) >= 5 && Count(e, Amenity) >= 6
  }

  /** All checks pass exactly when the page is complete. */
  lemma ChecksPassComplete(e: Elements)
    ensures (forall j :: 0 <= j < 12 ==> Checks(e)[j].1) <==> Complete(e)
  {
    if forall j :: 0 <= j < 12 ==> Checks(e)[j].1 {
      assert Checks(e)[6].1 && Checks(e)[7].1 && Checks(e)[8].1;
      assert Checks(e)[9].1 && Checks(e)[10].1 && Checks(e)[11].1;
      assert Checks(e)[0].1 && Checks(e)[1].1 && Checks(e)[2].1;
      assert Checks(e)[3].1 && Checks(e)[4].1 && Checks(e)[5].1;
    }
  }

  /** `validate_html`: `None` is a missing page, which fails without parsing;
      otherwise the page is parsed and the result is the conjunction of the
      checks, accumulated one by one. */
  method ValidateHtml(page: Option<seq<Event>>) returns (allPassed: bool)
    ensures allPassed <==> page.Some? && Complete(Run(page.value).elements)
  {
    if page.None? {
      return false;
    }
    var parser := new FilterElementParser();
    parser.Feed(page.value);
    var checks := Checks(parser.elements);
    allPassed := AllPassed(checks);
    ChecksPassComplete(parser.elements);
  }

  /** The report loop: `all_passed` starts true and is cleared by every
      failed check. */
  method AllPassed(checks: seq<(string, bool)>) returns (allPassed: bool)
    ensures allPassed <==> forall j :: 0 <= j < |checks| ==> checks[j].1
  {
    allPassed := true;
    var i := 0;
    while i < |checks|
      invariant 0 <= i <= |checks|
      invariant allPassed <==> forall j :: 0 <= j < i ==> checks[j].1
    {
      if !checks[i].1 {
        allPassed := false;
      }
      i := i + 1;
    }
  }

  /** The process exit status. */
  function ExitCode(success: bool): (code: int)
    ensures code == 0 <==> success
    ensures code == 0 || code == 1
  {
    if success then 0 else 1
  }

  // ---------------------------------------------------------------------
  // Properties of a run

  /** Running `a` then `b` is running `a + b`. */
  lemma {:induction false} RunFromAppend(st: ParserState, a: seq<Event>, b: seq<Event>)
    ensures RunFrom(st, a + b) == RunFrom(RunFrom(st, a), b)
    decreases |b|
  {
    if |b| == 0 {
      assert a + b == a;
    } else {
      assert (a + b)[..|a + b| - 1] == a + b[..|b| - 1];
      RunFromAppend(st, a, b[..|b| - 1]);
    }
  }

  /** A tracked id's flag is set exactly when some start tag carries that id,
      compared as a whole string. */
  lemma {:induction false} IdFlagIff(evs: seq<Event>, id: string)
    requires IsTrackedId(id)
    ensures IdFlag(Run(evs).elements, id) <==>
      exists i :: 0 <= i < |evs| && evs[i].StartTag? && evs[i].id == id
    decreases |evs|
  {
    if |evs| > 0 {
      var p := evs[..|evs| - 1];
      IdFlagIff(p, id);
      StepIdFlag(Run(p), evs[|evs| - 1], id);
      if exists i :: 0 <= i < |p| && p[i].StartTag? && p[i].id == id {
        var i :| 0 <= i < |p| && p[i].StartTag? && p[i].id == id;
        assert evs[i] == p[i];
      }
      if exists i :: 0 <= i < |evs| && evs[i].StartTag? && evs[i].id == id {
        var i :| 0 <= i < |evs| && evs[i].StartTag? && evs[i].id == id;
        if i < |p| {
          assert p[i] == evs[i];
        }
      }
    }
  }

  /** One event sets a tracked id's flag exactly when it is a start tag
      with that id, and never clears it. */
  lemma StepIdFlag(st: ParserState, ev: Event, id: string)
    requires IsTrackedId(id)
    ensures IdFlag(Step(st, ev).elements, id) <==> IdFlag(st.elements, id) || (ev.StartTag? && ev.id == id)
  {
    if ev.StartTag? {
      var k := NextContext(st.context, ev.cls);
      var e := MarkIds(st.elements, ev.id);
      assert IdFlag(e, id) <==> IdFlag(st.elements, id) || ev.id == id;
      assert IdFlag(AddOne(e, k), id) == IdFlag(e, id);
    }
  }

  /** The title flag is set exactly when some text chunk contains "Filters". */
  lemma {:induction false} TitleIff(evs: seq<Event>)
    ensures Run(evs).elements.filterTitle <==>
      exists i :: 0 <= i < |evs| && evs[i].Text? && Contains(evs[i].data, "Filters")
    decreases |evs|
  {
    if |evs| > 0 {
      var p := evs[..|evs| - 1];
      TitleIff(p);
      if exists i :: 0 <= i < |p| && p[i].Text? && Contains(p[i].data, "Filters") {
        var i :| 0 <= i < |p| && p[i].Text? && Contains(p[i].data, "Filters");
        assert evs[i] == p[i];
      }
      if exists i :: 0 <= i < |evs| && evs[i].Text? && Contains(evs[i].data, "Filters") {
        var i :| 0 <= i < |evs| && evs[i].Text? && Contains(evs[i].data, "Filters");
        if i < |p| {
          assert p[i] == evs[i];
        }
      }
    }
  }

  /** Event `i` is a marker and no later event is. */
  predicate LastMarkerAt(evs: seq<Event>, i: int) {
    0 <= i < |evs| && IsMarker(evs[i]) && forall j :: i < j < |evs| ==> !IsMarker(evs[j])
  }

  /** Before the first marker there is no current group. */
  lemma {:induction false} NoMarkerNoContext(evs: seq<Event>)
    requires forall i :: 0 <= i < |evs| ==> !IsMarker(evs[i])
    ensures Run(evs).context == NoContext
    decreases |evs|
  {
    if |evs| > 0 {
      var p := evs[..|evs| - 1];
      assert forall i :: 0 <= i < |p| ==> !IsMarker(p[i]) by {
        forall i | 0 <= i < |p| ensures !IsMarker(p[i]) {
          assert p[i] == evs[i];
        }
      }
      NoMarkerNoContext(p);
      assert !IsMarker(evs[|evs| - 1]);
    }
  }

  /** The current group is the group of the last marker seen: it is never
      cleared. */
  lemma {:induction false} LastMarkerContext(evs: seq<Event>, i: int)
    requires LastMarkerAt(evs, i)
    ensures Run(evs).context == MarkerContext(evs[i].cls)
    decreases |evs|
  {
    var p := evs[..|evs| - 1];
    if i < |evs| - 1 {
      assert LastMarkerAt(p, i) by {
        assert p[i] == evs[i];
        forall j | i < j < |p| ensures !IsMarker(p[j]) {
          assert p[j] == evs[j];
        }
      }
      LastMarkerContext(p, i);
      assert !IsMarker(evs[|evs| - 1]);
    }
  }

  /** One start tag adds one to at most one counter: the counter of the group
      current after the tag's own marker is applied, when the tag is the kind
      that group counts. Every other counter is unchanged. */
  lemma StepAttribution(st: ParserState, ev: Event, k: Context)
    requires ev.StartTag?
    ensures Count(Step(st, ev).elements, k) ==
      Count(st.elements, k) + (if k == Step(st, ev).context && CountsToward(ev, k) then 1 else 0)
  {
  }

  /** Before any marker, nothing is counted. */
  lemma {:induction false} NoMarkerNoCount(evs: seq<Event>, k: Context)
    requires forall i :: 0 <= i < |evs| ==> !IsMarker(evs[i])
    ensures Count(Run(evs).elements, k) == 0
    decreases |evs|
  {
    if |evs| > 0 {
      var p := evs[..|evs| - 1];
      assert forall i :: 0 <= i < |p| ==> p[i] == evs[i];
      NoMarkerNoCount(p, k);
      NoMarkerNoContext(p);
      if evs[|evs| - 1].StartTag? {
        StepAttribution(Run(p), evs[|evs| - 1], k);
      }
    }
  }

  /** Flags only latch and counters only grow. */
  predicate Below(e: Elements, f: Elements) {
    (e.filterSection ==> f.filterSection) && (e.filterTitle ==> f.filterTitle) &&
    (e.clearButton ==> f.clearButton) && (e.locationInput ==> f.locationInput) &&
    (e.minPrice ==> f.minPrice) && (e.maxPrice ==> f.maxPrice) &&
    (e.applyButton ==> f.applyButton) &&
    e.scheduleCheckboxes <= f.scheduleCheckboxes &&
    e.propertyTypeCheckboxes <= f.propertyTypeCheckboxes &&
    e.amenityCheckboxes <= f.amenityCheckboxes &&
    e.bedroomButtons <= f.bedroomButtons && e.bathroomButtons <= f.bathroomButtons
  }

  lemma StepGrows(st: ParserState, ev: Event)
    ensures Below(st.elements, Step(st, ev).elements)
  {
    if ev.StartTag? {
      var k := NextContext(st.context, ev.cls);
      var e := MarkIds(st.elements, ev.id);
      assert Below(st.elements, e);
      assert Below(e, AddOne(e, k)) by {
        AddOneGrows(e, k);
      }
      assert Step(st, ev).elements == if CountsToward(ev, k) then AddOne(e, k) else e;
    }
  }

  lemma AddOneGrows(e: Elements, k: Context)
    ensures Below(e, AddOne(e, k))
  {
  }

  lemma {:induction false} RunGrows(st: ParserState, evs: seq<Event>)
    ensures Below(st.elements, RunFrom(st, evs).elements)
    decreases |evs|
  {
    if |evs| > 0 {
      RunGrows(st, evs[..|evs| - 1]);
      StepGrows(RunFrom(st, evs[..|evs| - 1]), evs[|evs| - 1]);
    }
  }

  /** Feeding more of the page never loses an element found so far. */
  lemma Monotone(evs: seq<Event>, more: seq<Event>)
    ensures Below(Run(evs).elements, Run(evs + more).elements)
  {
    RunFromAppend(InitialState, evs, more);
    RunGrows(Run(evs), more);
  }

  /** Order matters: a checkbox seen before the schedule marker is not
      counted, one seen after it is. */
  lemma OrderSensitive()
    ensures Run([StartTag("input", "", "", Some("checkbox")),
                 StartTag("div", "", "schedule-options", None)]).elements.scheduleCheckboxes == 0
    ensures Run([StartTag("div", "", "schedule-options", None),
                 StartTag("input", "", "", Some("checkbox"))]).elements.scheduleCheckboxes == 1
  {
    var m := StartTag("div", "", "schedule-options", None);
    var c := StartTag("input", "", "", Some("checkbox"));
    assert StartsWith("schedule-options", "schedule-options");
    assert MarkerContext("schedule-options") == Schedule;
    assert MarkerContext("") == NoContext;
    assert [m, c][..1] == [m] && [c, m][..1] == [c];
    assert [m][..0] == [] && [c][..0] == [];
    assert RunFrom(InitialState, []) == InitialState;
    var s1 := Step(InitialState, c);
    assert s1.elements.scheduleCheckboxes == 0;
    assert Run([c]) == s1;
    assert Run([c, m]) == Step(s1, m);
    assert Step(s1, m).elements.scheduleCheckboxes == 0;
    var s2 := Step(InitialState, m);
    assert s2.context == Schedule;
    assert Run([m]) == s2;
    assert Run([m, c]) == Step(s2, c);
    assert Step(s2, c).elements.scheduleCheckboxes == 1;
  }
}
