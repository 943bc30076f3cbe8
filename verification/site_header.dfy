/** The site header: each navigation dropdown is a small state machine
    driven by clicks, hovering, keys and clicks elsewhere on the page; the
    hamburger button flips three class flags for the mobile layout. */
module SiteHeader {
  import opened Strings

  /** Where the keyboard focus is, as far as one dropdown is concerned. */
  datatype Focus = Elsewhere | Trigger | Item(index: nat)

  datatype Key = Enter | Space | ArrowDown | ArrowUp | Escape | OtherKey

  /** One dropdown: the `isOpen` variable of its closure, its `active` and
      `hover` classes, whether its menu is styled visible, and the focus. */
  datatype DropdownState = DropdownState(isOpen: bool, active: bool, hover: bool, menuVisible: bool, focus: Focus)

  datatype Event =
    | TriggerClick
    | MouseEnter
    | MouseLeave
    | TriggerKey(key: Key)
    | ItemKey(index: nat, key: Key)
    /** A click anywhere in the document; `inside` when the target lies in
        some dropdown. */
    | DocumentClick(inside: bool)

  const Initial: DropdownState := DropdownState(false, false, false, false, Elsewhere)

  /** A keyboard event on an item comes from one of the menu's items. */
  predicate Fits(e: Event, itemCount: nat) {
    e.ItemKey? ==> e.index < itemCount
  }

  /** `onClick` */
  function Toggled(s: DropdownState): DropdownState {
    s.(isOpen := !s.isOpen, active := !s.isOpen, menuVisible := !s.isOpen)
  }

  /** The item focused by ArrowDown on item `i`: the next one, or the
      first after the last. */
  function NextItem(i: nat, itemCount: nat): (r: nat)
    requires i < itemCount
    ensures r < itemCount && r == (i + 1) % itemCount
  {
    if i + 1 < itemCount then i + 1 else 0
  }

  /** The effect of one event, as the header's listeners are written. */
  function Next(s: DropdownState, e: Event, itemCount: nat): (r: DropdownState)
    requires Fits(e, itemCount)
    ensures r.isOpen != s.isOpen <==> e == TriggerClick || e == TriggerKey(Enter) || e == TriggerKey(Space)
    ensures r.hover != s.hover ==> e == MouseEnter || e == MouseLeave
    ensures r.focus != s.focus ==> r.focus == Trigger || (r.focus.Item? && r.focus.index < itemCount)
  {
    match e
      case TriggerClick => Toggled(s)
      case MouseEnter => s.(hover := true)
      case MouseLeave =>
        if s.isOpen then s.(hover := false)
        else s.(hover := false, active := false, menuVisible := false)
      case TriggerKey(k) =>
        if k == Enter || k == Space then Toggled(s)
        else if k == ArrowDown && s.active && itemCount > 0 then s.(focus := Item(0))
        else s
      case ItemKey(i, k) =>
        if k == ArrowDown then s.(focus := Item(NextItem(i, itemCount)))
        else if k == ArrowUp then s.(focus := if i > 0 then Item(i - 1) else Trigger)
        else if k == Escape then s.(active := false, focus := Trigger)
        else s
      case DocumentClick(inside) =>
        if inside then s else s.(active := false, menuVisible := false)
  }

  /** A trigger click flips `isOpen` and shows or hides the menu with it. */
  lemma ClickFlips(s: DropdownState, itemCount: nat)
    ensures var t := Next(s, TriggerClick, itemCount);
      t.isOpen == !s.isOpen && t.active == t.isOpen && t.menuVisible == t.isOpen &&
      t.hover == s.hover && t.focus == s.focus
    ensures Next(Next(s, TriggerClick, itemCount), TriggerClick, itemCount).isOpen == s.isOpen
  {
  }

  /** Entering adds `hover`; leaving removes it and closes the menu only
      when `isOpen` is false. */
  lemma HoverRules(s: DropdownState, itemCount: nat)
    ensures Next(s, MouseEnter, itemCount) == s.(hover := true)
    ensures var t := Next(s, MouseLeave, itemCount);
      !t.hover && t.isOpen == s.isOpen &&
      (s.isOpen ==> t.active == s.active && t.menuVisible == s.menuVisible) &&
      (!s.isOpen ==> !t.active && !t.menuVisible)
  {
  }

  /** Enter and Space on the trigger act as a click; ArrowDown moves to the
      first item only while the dropdown is active. */
  lemma TriggerKeys(s: DropdownState, itemCount: nat)
    ensures Next(s, TriggerKey(Enter), itemCount) == Next(s, TriggerClick, itemCount)
    ensures Next(s, TriggerKey(Space), itemCount) == Next(s, TriggerClick, itemCount)
    ensures Next(s, TriggerKey(ArrowDown), itemCount).focus == Item(0) <==>
      (s.active && itemCount > 0) || s.focus == Item(0)
    ensures Next(s, TriggerKey(ArrowDown), itemCount).isOpen == s.isOpen
  {
  }

  /** ArrowDown cycles through the items; ArrowUp steps back and leaves the
      first item for the trigger. Down then up returns to the same item
      except from the last one, where it lands on the trigger. */
  lemma ItemArrows(s: DropdownState, i: nat, itemCount: nat)
    requires i < itemCount
    ensures Next(s, ItemKey(i, ArrowDown), itemCount).focus == Item((i + 1) % itemCount)
    ensures Next(s, ItemKey(i, ArrowUp), itemCount).focus == (if i == 0 then Trigger else Item(i - 1))
    ensures var t := Next(s, ItemKey(i, ArrowDown), itemCount);
      Next(t, ItemKey(NextItem(i, itemCount), ArrowUp), itemCount).focus ==
        (if i + 1 < itemCount then Item(i) else Trigger)
  {
  }

  /** Escape on an item and a click outside every dropdown remove `active`
      but leave `isOpen` as it was. */
  lemma EscapeAndOutsideKeepIsOpen(s: DropdownState, i: nat, itemCount: nat)
    requires i < itemCount
    ensures var t := Next(s, ItemKey(i, Escape), itemCount);
      !t.active && t.isOpen == s.isOpen && t.focus == Trigger && t.menuVisible == s.menuVisible
    ensures var t := Next(s, DocumentClick(false), itemCount);
      !t.active && !t.menuVisible && t.isOpen == s.isOpen
    ensures Next(s, DocumentClick(true), itemCount) == s
  {
  }

  /** The open state as shown and as remembered agree. */
  predicate Consistent(s: DropdownState) {
    s.active == s.isOpen && s.menuVisible == s.isOpen
  }

  /** As written, opening a menu and clicking elsewhere hides it while
      `isOpen` stays true, so the next click on the trigger leaves the menu
      hidden. Escape instead leaves the menu visible with `active`
      removed. */
  lemma OutsideClickDesync(itemCount: nat)
    ensures var shown := Next(Initial, TriggerClick, itemCount);
      var away := Next(shown, DocumentClick(false), itemCount);
      shown.menuVisible && !away.menuVisible && !Consistent(away) &&
      !Next(away, TriggerClick, itemCount).menuVisible
    ensures itemCount > 0 ==>
      var shown := Next(Initial, TriggerClick, itemCount);
      var escaped := Next(shown, ItemKey(0, Escape), itemCount);
      escaped.menuVisible && !escaped.active && !Consistent(escaped)
  {
  }

  /** The intended machine: Escape and a click outside close the menu,
      `isOpen` included. */
  function NextIntended(s: DropdownState, e: Event, itemCount: nat): DropdownState
    requires Fits(e, itemCount)
  {
    match e
      case ItemKey(_, Escape) => s.(isOpen := false, active := false, menuVisible := false, focus := Trigger)
      case DocumentClick(false) => s.(isOpen := false, active := false, menuVisible := false)
      case _ => Next(s, e, itemCount)
  }

  /** In the intended machine the shown and the remembered state always
      agree, so every trigger click flips what is shown. */
  lemma IntendedStaysConsistent(s: DropdownState, e: Event, itemCount: nat)
    requires Fits(e, itemCount) && Consistent(s)
    ensures Consistent(NextIntended(s, e, itemCount))
    ensures NextIntended(s, TriggerClick, itemCount).menuVisible == !s.menuVisible
  {
  }

  /** One dropdown wired up by the header's effect. */
  class Dropdown {
    var isOpen: bool
    var active: bool
    var hover: bool
    var menuVisible: bool
    var focus: Focus
    const itemCount: nat

    function State(): DropdownState
      reads this
    {
      DropdownState(isOpen, active, hover, menuVisible, focus)
    }

    constructor (itemCount: nat)
      ensures State() == Initial && this.itemCount == itemCount
    {
      this.itemCount := itemCount;
      isOpen := false;
      active := false;
      hover := false;
      menuVisible := false;
      focus := Elsewhere;
    }

    /** `onClick` on the trigger. */
    method Click()
      modifies this
      ensures State() == Next(old(State()), TriggerClick, itemCount)
    {
      isOpen := !isOpen;
      if isOpen {
        active := true;
        menuVisible := true;
      } else {
        active := false;
        menuVisible := false;
      }
    }

    /** `onEnter` */
    method MouseEntered()
      modifies this
      ensures State() == Next(old(State()), MouseEnter, itemCount)
    {
      hover := true;
    }

    /** `onLeave` */
    method MouseLeft()
      modifies this
      ensures State() == Next(old(State()), MouseLeave, itemCount)
    {
      hover := false;
      if !isOpen {
        active := false;
        menuVisible := false;
      }
    }

    /** `onTriggerKey` */
    method TriggerKeyDown(k: Key)
      modifies this
      ensures State() == Next(old(State()), TriggerKey(k), itemCount)
    {
      if k == Enter || k == Space {
        Click();
      } else if k == ArrowDown && active {
        if itemCount > 0 {
          focus := Item(0);
        }
      }
    }

    /** `onItemKey` of item `i`. */
    method ItemKeyDown(i: nat, k: Key)
      requires i < itemCount
      modifies this
      ensures State() == Next(old(State()), ItemKey(i, k), itemCount)
    {
      if k == ArrowDown {
        var next := if i + 1 < itemCount then i + 1 else 0;
        focus := Item(next);
      } else if k == ArrowUp {
        focus := if i > 0 then Item(i - 1) else Trigger;
      } else if k == Escape {
        active := false;
        focus := Trigger;
      }
    }

    /** `onDocClick`, as it affects this dropdown. */
    method DocumentClicked(inside: bool)
      modifies this
      ensures State() == Next(old(State()), DocumentClick(inside), itemCount)
    {
      if !inside {
        active := false;
        menuVisible := false;
      }
    }
  }

  // ---------------------------------------------------------------------
  // Mobile menu

  /** The `active` class of the hamburger and the `mobile-active` classes
      of the centre and right parts of the navigation. */
  datatype MobileState = MobileState(hamburgerActive: bool, centerActive: bool, rightActive: bool)

  /** Which parts the header found; a missing part is left alone. */
  datatype Parts = Parts(hasRoot: bool, hasHamburger: bool, hasCenter: bool, hasRight: bool)

  /** `toggleMobileMenu` */
  function ToggleMobile(s: MobileState, p: Parts): (r: MobileState)
    ensures !p.hasRoot ==> r == s
    ensures p.hasRoot ==>
      (r.hamburgerActive != s.hamburgerActive <==> p.hasHamburger) &&
      (r.centerActive != s.centerActive <==> p.hasCenter) &&
      (r.rightActive != s.rightActive <==> p.hasRight)
  {
    if !p.hasRoot then s
    else MobileState(
      if p.hasHamburger then !s.hamburgerActive else s.hamburgerActive,
      if p.hasCenter then !s.centerActive else s.centerActive,
      if p.hasRight then !s.rightActive else s.rightActive)
  }

  /** Toggling twice restores all three classes; with every part present a
      single toggle keeps the three in step. */
  lemma ToggleMobileInvolution(s: MobileState, p: Parts)
    ensures ToggleMobile(ToggleMobile(s, p), p) == s
    ensures (p.hasRoot && p.hasHamburger && p.hasCenter && p.hasRight &&
             s.hamburgerActive == s.centerActive == s.rightActive) ==>
      var t := ToggleMobile(s, p);
      t.hamburgerActive == t.centerActive == t.rightActive == !s.hamburgerActive
  {
  }

  class MobileNav {
    var hamburgerActive: bool
    var centerActive: bool
    var rightActive: bool
    const parts: Parts

    function State(): MobileState
      reads this
    {
      MobileState(hamburgerActive, centerActive, rightActive)
    }

    constructor (parts: Parts)
      ensures State() == MobileState(false, false, false) && this.parts == parts
    {
      this.parts := parts;
      hamburgerActive := false;
      centerActive := false;
      rightActive := false;
    }

    method Toggle()
      modifies this
      ensures State() == ToggleMobile(old(State()), parts)
    {
      if !parts.hasRoot {
        return;
      }
      if parts.hasHamburger {
        hamburgerActive := !hamburgerActive;
      }
      if parts.hasCenter {
        centerActive := !centerActive;
      }
      if parts.hasRight {
        rightActive := !rightActive;
      }
    }
  }

  // ---------------------------------------------------------------------
  // Props and the header's class

  /** The component's props; `None` is an omitted prop. */
  datatype HeaderProps = HeaderProps(logoSrc: Option<string>, exploreHref: Option<string>, className: Option<string>)

  const DefaultLogoSrc: string := "shared/images/logo.png"
  const DefaultExploreHref: string := "search/index.html"

  /** The logo and explore link used: the default replaces only an
      omitted prop. */
  function Resolved(p: HeaderProps): (r: (string, string))
    ensures p.logoSrc.None? ==> r.0 == DefaultLogoSrc
    ensures p.logoSrc.Some? ==> r.0 == p.logoSrc.value
    ensures p.exploreHref.None? ==> r.1 == DefaultExploreHref
    ensures p.exploreHref.Some? ==> r.1 == p.exploreHref.value
  {
    (if p.logoSrc.Some? then p.logoSrc.value else DefaultLogoSrc,
     if p.exploreHref.Some? then p.exploreHref.value else DefaultExploreHref)
  }

  /** The `<header>` element's class list. */
  function HeaderClass(p: HeaderProps): (r: string)
    ensures StartsWith(r, "main-header")
    ensures r == "main-header" <==> p.className.None? || p.className.value == ""
  {
    WithClass("main-header", p.className)
  }
}
