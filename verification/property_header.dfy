/** The listing page's header: the title, the "Located in" line and the
    "type - n guests max" details, and the container's class. */
module PropertyHeader {
  import opened Strings
  import opened JsNumbers

  datatype Location = Location(neighborhood: string, city: string)

  datatype Props = Props(title: string, location: Location, propertyType: string,
                         maxGuests: int, className: Option<string>)

  /** The container's class list: `property-header`, then the optional
      extra class. */
  function ContainerClass(className: Option<string>): (r: string)
    ensures StartsWith(r, "property-header")
    ensures r == "property-header" <==> className.None? || className.value == ""
  {
    WithClass("property-header", className)
  }

  /** `Located in {neighborhood}, {city}` */
  function LocationText(loc: Location): (r: string)
    ensures |r| == 13 + |loc.neighborhood| + |loc.city|
    ensures StartsWith(r, "Located in ") && EndsWith(r, loc.city)
    ensures r[11..11 + |loc.neighborhood|] == loc.neighborhood
  {
    var head := "Located in " + loc.neighborhood + ", ";
    ConcatAffixes(head, loc.city);
    ConcatAffixes("Located in ", loc.neighborhood + ", ");
    assert head + loc.city == "Located in " + loc.neighborhood + ", " + loc.city;
    assert head[..11] == "Located in ";
    head + loc.city
  }

  /** A neighbourhood without commas is the text between "Located in " and
      the first ", ", and the city is everything after it. */
  lemma LocationReadBack(loc: Location)
    requires ',' !in loc.neighborhood
    ensures var t := LocationText(loc);
      StartsWith(t, "Located in ") &&
      Find(t, ", ") == Some(11 + |loc.neighborhood|) &&
      t[11..11 + |loc.neighborhood|] == loc.neighborhood &&
      t[13 + |loc.neighborhood|..] == loc.city
  {
    var p := "Located in " + loc.neighborhood;
    assert ", "[0] !in p;
    FindAfter(p, ", ", loc.city);
    assert LocationText(loc) == p + ", " + loc.city;
  }

  /** `{propertyType} - {maxGuests} guest{maxGuests !== 1 ? 's' : ''} max` */
  function Details(propertyType: string, maxGuests: int): (r: string)
    ensures StartsWith(r, propertyType + " - ")
    ensures EndsWith(r, " max")
  {
    var head := propertyType + " - ";
    var tail := IntToString(maxGuests) + " guest" + (if maxGuests != 1 then "s" else "");
    ConcatAffixes(head, tail + " max");
    ConcatAffixes(head + tail, " max");
    assert head + (tail + " max") == (head + tail) + " max";
    propertyType + " - " + IntToString(maxGuests) + " guest" + (if maxGuests != 1 then "s" else "") + " max"
  }

  /** The plural is used for every count but one, zero included. */
  lemma DetailsPlural(propertyType: string, maxGuests: int)
    ensures EndsWith(Details(propertyType, maxGuests), " guests max") <==> maxGuests != 1
    ensures maxGuests == 1 ==> Details(propertyType, maxGuests) == propertyType + " - 1 guest max"
  {
    var d := Details(propertyType, maxGuests);
    var head := propertyType + " - " + IntToString(maxGuests);
    if maxGuests != 1 {
      assert d == head + " guests max";
    } else {
      assert IntToString(1) == "1";
      assert d == head + " guest max";
      assert d[|d| - 11..] == head[|head| - 1..] + " guest max";
      assert d[|d| - 11..][1] != " guests max"[1];
    }
  }

  /** The guest count can be read back from the details. */
  lemma DetailsCount(propertyType: string, maxGuests: int)
    ensures var d := Details(propertyType, maxGuests);
      ParseInt(d[|propertyType| + 3..]) == Some(maxGuests)
  {
    var rest := " guest" + (if maxGuests != 1 then "s" else "") + " max";
    assert Details(propertyType, maxGuests)[|propertyType| + 3..] == IntToString(maxGuests) + rest;
    ParseIntPrinted(maxGuests, rest);
  }

  /** What the component renders. */
  datatype HeaderView = HeaderView(containerClass: string, title: string, location: string, details: string)

  /** The title is shown as given, next to the location and details lines. */
  function Render(p: Props): (r: HeaderView)
    ensures r.title == p.title
    ensures StartsWith(r.location, "Located in ") && EndsWith(r.location, ", " + p.location.city)
    ensures StartsWith(r.details, p.propertyType + " - ")
    ensures StartsWith(r.containerClass, "property-header")
  {
    var loc := LocationText(p.location);
    assert loc == ("Located in " + p.location.neighborhood) + (", " + p.location.city);
    var details := Details(p.propertyType, p.maxGuests);
    assert details[..|p.propertyType| + 3] == p.propertyType + " - ";
    HeaderView(ContainerClass(p.className), p.title, loc, details)
  }
}
