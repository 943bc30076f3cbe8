/** The listing's image grid: always four slots filled from the front of the
    image list, each a button whose tab order, label, picture and click
    depend on whether the slot holds an image and whether that image failed
    to load. */
module ImageGrid {
  import opened Strings
  import opened JsNumbers

  /** A listing image; the thumbnail is optional. */
  datatype ListingImage = ListingImage(url: string, alt: string, thumbnail: Option<string>)

  type Slot = Option<ListingImage>

  const SlotCount: nat := 4

  /** `Array.from({ length: 4 }, (_, i) => images[i] || null)` */
  function Slots(images: seq<ListingImage>): (r: seq<Slot>)
    ensures |r| == SlotCount
    ensures forall i :: 0 <= i < SlotCount && i < |images| ==> r[i] == Some(images[i])
    ensures forall i :: |images| <= i < SlotCount ==> r[i] == None
  {
    seq(SlotCount, i requires 0 <= i < SlotCount => if i < |images| then Some(images[i]) else None)
  }

  /** The slots depend only on the first four images: later images are
      never shown. */
  lemma SlotsIgnoreRest(images: seq<ListingImage>, more: seq<ListingImage>)
    requires |images| >= SlotCount
    ensures Slots(images + more) == Slots(images)
    ensures Slots(images) == Slots(images[..SlotCount])
  {
    var a := Slots(images + more);
    var b := Slots(images);
    var c := Slots(images[..SlotCount]);
    forall i | 0 <= i < SlotCount
      ensures a[i] == b[i] && b[i] == c[i]
    {
      assert (images + more)[i] == images[i] == images[..SlotCount][i];
    }
  }

  /** The number of filled slots is the number of images, up to four, and
      the filled slots come first. */
  lemma FilledSlots(images: seq<ListingImage>, i: int)
    requires 0 <= i < SlotCount
    ensures Slots(images)[i].Some? <==> i < |images|
    ensures Slots(images)[i].Some? ==> forall j :: 0 <= j < i ==> Slots(images)[j].Some?
  {
  }

  /** `tabIndex`: a filled slot is reachable with the keyboard. */
  function TabIndex(slot: Slot): (r: int)
    ensures r == 0 <==> slot.Some?
    ensures r == -1 <==> slot.None?
  {
    if slot.Some? then 0 else -1
  }

  /** `aria-label` of the slot at position `index` (counted from 0). */
  function AriaLabel(slot: Slot, index: int): (r: string)
    ensures slot.Some? ==> StartsWith(r, "View image ") && EndsWith(r, ": " + slot.value.alt)
    ensures slot.None? ==> StartsWith(r, "Image slot ") && EndsWith(r, " empty")
  {
    match slot
      case Some(image) => "View image " + IntToString(index + 1) + ": " + image.alt
      case None => "Image slot " + IntToString(index + 1) + " empty"
  }

  /** The label tells a filled slot from an empty one, and the number
      written in it is the slot's position counted from 1. */
  lemma AriaLabelNumbersSlot(slot: Slot, index: int)
    ensures StartsWith(AriaLabel(slot, index), "View image ") <==> slot.Some?
    ensures ParseInt(AriaLabel(slot, index)[11..]) == Some(index + 1)
  {
    var text := AriaLabel(slot, index);
    var head := if slot.Some? then "View image " else "Image slot ";
    var rest := if slot.Some? then ": " + slot.value.alt else " empty";
    LabelShape(slot, index);
    LabelNumber(head, index + 1, rest);
    assert text[..11] == head;
    assert "Image slot "[0] != "View image "[0];
  }

  /** The label is its head, the printed number and its tail. */
  lemma LabelShape(slot: Slot, index: int)
    ensures AriaLabel(slot, index) ==
      (if slot.Some? then "View image " else "Image slot ") + IntToString(index + 1) +
      (if slot.Some? then ": " + slot.value.alt else " empty")
  {
    if slot.Some? {
      assert AriaLabel(slot, index) == "View image " + IntToString(index + 1) + (": " + slot.value.alt);
    }
  }

  /** A printed number between an 11-character head and a tail that does
      not start with a digit is read back. */
  lemma LabelNumber(head: string, n: int, rest: string)
    requires |head| == 11 && (|rest| == 0 || !IsDigit(rest[0]))
    ensures (head + IntToString(n) + rest)[..11] == head
    ensures ParseInt((head + IntToString(n) + rest)[11..]) == Some(n)
  {
    var tail := IntToString(n) + rest;
    assert head + IntToString(n) + rest == head + tail;
    assert (head + tail)[11..] == tail;
    assert (head + tail)[..11] == head;
    ParseIntPrinted(n, rest);
  }

  /** `image.thumbnail || image.url`: an empty thumbnail counts as none. */
  function DisplaySrc(image: ListingImage): (r: string)
    ensures image.thumbnail.Some? && image.thumbnail.value != "" ==> r == image.thumbnail.value
    ensures image.thumbnail.None? || image.thumbnail.value == "" ==> r == image.url
  {
    if image.thumbnail.Some? && image.thumbnail.value != "" then image.thumbnail.value else image.url
  }

  /** What a slot shows. */
  datatype View = Placeholder | Unavailable | Picture(src: string, alt: string)

  /** A slot without an image shows the placeholder; an image that failed
      shows "Image unavailable"; any other shows its picture. */
  function SlotView(slot: Slot, index: int, errors: set<int>): (r: View)
    ensures r == Placeholder <==> slot.None?
    ensures r == Unavailable <==> slot.Some? && index in errors
    ensures r.Picture? ==> r == Picture(DisplaySrc(slot.value), slot.value.alt)
  {
    match slot
      case None => Placeholder
      case Some(image) => if index in errors then Unavailable else Picture(DisplaySrc(image), image.alt)
  }

  /** The caption of the error state. */
  function ViewText(v: View): string {
    match v
      case Unavailable => "Image unavailable"
      case _ => ""
  }

  /** Once a slot shows the error state it keeps showing it as errors are
      added. */
  lemma UnavailableStays(slot: Slot, index: int, before: set<int>, after: set<int>)
    requires before <= after
    requires SlotView(slot, index, before) == Unavailable
    ensures SlotView(slot, index, after) == Unavailable
    ensures ViewText(SlotView(slot, index, after)) == "Image unavailable"
  {
  }

  /** `handleImageClick`: the callback, when given, receives the slot's
      image and index; an empty slot does nothing. */
  function Click(slots: seq<Slot>, index: int, hasCallback: bool): (r: Option<(ListingImage, int)>)
    requires 0 <= index < |slots|
    ensures r.Some? <==> hasCallback && slots[index].Some?
    ensures r.Some? ==> r.value.0 == slots[index].value && r.value.1 == index
  {
    if slots[index].Some? && hasCallback then Some((slots[index].value, index)) else None
  }

  /** A click on slot `i` passes the `i`-th image, whenever there is one. */
  lemma ClickPassesImage(images: seq<ListingImage>, i: int)
    requires 0 <= i < SlotCount && i < |images|
    ensures Click(Slots(images), i, true) == Some((images[i], i))
  {
  }

  class Grid {
    const slots: seq<Slot>
    /** The indices whose image failed to load. */
    var imageErrors: set<int>
    /** The indices whose image has loaded. */
    var loadedImages: set<int>

    constructor (images: seq<ListingImage>)
      ensures slots == Slots(images)
      ensures imageErrors == {} && loadedImages == {}
    {
      slots := Slots(images);
      imageErrors := {};
      loadedImages := {};
    }

    /** The four slots as shown. */
    function Views(): (r: seq<View>)
      reads this
      ensures |r| == |slots|
      ensures forall i :: 0 <= i < |slots| ==> r[i] == SlotView(slots[i], i, imageErrors)
    {
      seq(|slots|, i reads this requires 0 <= i < |slots| => SlotView(slots[i], i, imageErrors))
    }

    /** `handleImageError` */
    method HandleImageError(index: int)
      modifies this
      ensures imageErrors == old(imageErrors) + {index}
      ensures loadedImages == old(loadedImages)
    {
      imageErrors := imageErrors + {index};
    }

    /** `handleImageLoad` */
    method HandleImageLoad(index: int)
      modifies this
      ensures loadedImages == old(loadedImages) + {index}
      ensures imageErrors == old(imageErrors)
    {
      loadedImages := loadedImages + {index};
    }
  }

  /** After an error on a filled slot, that slot shows the error state and
      every other slot looks as before. */
  lemma ErrorShowsUnavailable(slots: seq<Slot>, errors: set<int>, index: int)
    requires 0 <= index < |slots| && slots[index].Some?
    ensures SlotView(slots[index], index, errors + {index}) == Unavailable
    ensures forall j :: 0 <= j < |slots| && j != index ==>
      SlotView(slots[j], j, errors + {index}) == SlotView(slots[j], j, errors)
  {
  }
}
