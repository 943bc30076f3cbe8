/** The page script that mounts the site header: it picks the logo path
    from the page's location and renders the header; a second block of the
    same script then renders the header again with no props. */
module HeaderMount {
  import opened Strings
  import SiteHeader

  const ParentLogo: string := "../shared/images/logo.png"
  const LocalLogo: string := "shared/images/logo.png"

  /** The logo path for a page: backslashes become slashes, then a path
      with a `/search/` segment (`indexOf` is not -1) looks one directory
      up. */
  function LogoSrc(pathname: string): (r: string)
    ensures r == ParentLogo <==> Contains(ReplaceChar(pathname, '\\', '/'), "/search/")
    ensures r == LocalLogo <==> !Contains(ReplaceChar(pathname, '\\', '/'), "/search/")
  {
    var path := ReplaceChar(pathname, '\\', '/');
    if Contains(path, "/search/") then ParentLogo else LocalLogo
  }

  /** Replacing backslashes distributes over concatenation. */
  lemma {:induction false} ReplaceAppend(a: string, b: string)
    ensures ReplaceChar(a + b, '\\', '/') == ReplaceChar(a, '\\', '/') + ReplaceChar(b, '\\', '/')
  {
    var l := ReplaceChar(a + b, '\\', '/');
    var r := ReplaceChar(a, '\\', '/') + ReplaceChar(b, '\\', '/');
    forall i | 0 <= i < |l|
      ensures l[i] == r[i]
    {
      if i < |a| {
        assert (a + b)[i] == a[i];
      } else {
        assert (a + b)[i] == b[i - |a|];
      }
    }
  }

  /** A search page is recognised whichever separator its path uses. */
  lemma SearchPagesLookUp(before: string, after: string)
    ensures LogoSrc(before + "/search/" + after) == ParentLogo
    ensures LogoSrc(before + "\\search\\" + after) == ParentLogo
  {
    assert ReplaceChar("/search/", '\\', '/') == "/search/";
    SegmentLooksUp(before, "/search/", after);
    assert ReplaceChar("\\search\\", '\\', '/') == "/search/";
    SegmentLooksUp(before, "\\search\\", after);
  }

  /** Any segment that normalises to `/search/` selects the parent logo. */
  lemma SegmentLooksUp(before: string, segment: string, after: string)
    requires ReplaceChar(segment, '\\', '/') == "/search/"
    ensures LogoSrc(before + segment + after) == ParentLogo
  {
    ReplaceAppend(before + segment, after);
    ReplaceAppend(before, segment);
    ContainsMiddle(ReplaceChar(before, '\\', '/'), "/search/", ReplaceChar(after, '\\', '/'));
  }

  /** The globals the script looks for: the mount point, the component
      library's `Header` and `SiteHeader` exports, React and ReactDOM. */
  datatype Globals = Globals(hasRoot: bool, hasHeader: bool, hasSiteHeader: bool,
                             hasReact: bool, hasReactDom: bool, hasCreateRoot: bool)

  /** React, ReactDOM with `createRoot`, and the mount point are present. */
  predicate ReactReady(g: Globals) {
    g.hasRoot && g.hasReact && g.hasReactDom && g.hasCreateRoot
  }

  /** The first block only looks for `Header`. */
  predicate CanRender(g: Globals) {
    ReactReady(g) && g.hasHeader
  }

  /** The first block: nothing without the root, the component and React;
      otherwise the chosen logo and the search link. */
  function FirstMount(g: Globals, pathname: string): (r: Option<SiteHeader.HeaderProps>)
    ensures r.Some? <==> g.hasRoot && g.hasHeader && g.hasReact && g.hasReactDom && g.hasCreateRoot
    ensures r.Some? ==> SiteHeader.Resolved(r.value) == (LogoSrc(pathname), "search/index.html")
  {
    if !CanRender(g) then None
    else Some(SiteHeader.HeaderProps(Some(LogoSrc(pathname)), Some("search/index.html"), None))
  }

  /** The second block falls back to `SiteHeader` when there is no
      `Header`, and renders with no props. */
  function SecondMount(g: Globals): (r: Option<SiteHeader.HeaderProps>)
    ensures r.Some? <==> g.hasRoot && (g.hasHeader || g.hasSiteHeader) && g.hasReact && g.hasReactDom && g.hasCreateRoot
    ensures r.Some? ==> r.value == SiteHeader.HeaderProps(None, None, None)
  {
    if !ReactReady(g) || !(g.hasHeader || g.hasSiteHeader) then None
    else Some(SiteHeader.HeaderProps(None, None, None))
  }

  /** Whenever the first block renders, so does the second; with only the
      `SiteHeader` export, the second block renders alone. */
  lemma SecondCoversFirst(g: Globals, pathname: string)
    ensures FirstMount(g, pathname).Some? ==> SecondMount(g).Some?
    ensures ReactReady(g) && !g.hasHeader && g.hasSiteHeader ==>
      FirstMount(g, pathname).None? && SecondMount(g).Some?
  {
  }

  /** The props of the last render of the page. */
  function Rendered(g: Globals, pathname: string): (r: Option<SiteHeader.HeaderProps>)
    ensures r == SecondMount(g)
  {
    SecondCoversFirst(g, pathname);
    match SecondMount(g)
      case Some(p) => Some(p)
      case None => FirstMount(g, pathname)
  }

  /** The second render wins: the page ends with the component's default
      logo path, even on a search page where the first block chose the
      parent directory's logo. The explore link is the same either way. */
  lemma LastRenderUsesDefaults(g: Globals, before: string, after: string)
    requires CanRender(g)
    ensures var path := before + "/search/" + after;
      SiteHeader.Resolved(FirstMount(g, path).value).0 == ParentLogo &&
      Rendered(g, path).Some? &&
      SiteHeader.Resolved(Rendered(g, path).value) == (LocalLogo, "search/index.html")
  {
    SearchPagesLookUp(before, after);
  }
}
