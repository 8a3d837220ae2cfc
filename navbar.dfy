/**
 * The sticky navigation bar: a "scrolled" flag driven by the window's scroll
 * position, the logo size that follows it, the active-link rule, and the
 * prefixed logo and texture URLs.
 */
module Navbar {
  import AssetPath

  /** Scrolled means strictly more than this many pixels down. */
  const ScrollThreshold: int := 20

  const LogoPath: string := "img/logo_wtext_horizontal_white.svg"
  const TexturePath: string := "img/texture_background.png"

  class Header {
    var isScrolled: bool

    constructor()
      ensures !isScrolled
    {
      isScrolled := false;
    }

    /** The scroll listener, also run once when the bar mounts. */
    method HandleScroll(scrollY: int)
      modifies this
      ensures isScrolled <==> scrollY > ScrollThreshold
    {
      isScrolled := scrollY > ScrollThreshold;
    }
  }

  /** The logo's (width, height): 135×30 once scrolled, 150×34 at the top. */
  function LogoSize(isScrolled: bool): (size: (nat, nat))
    ensures isScrolled <==> size == (135, 30)
    ensures !isScrolled <==> size == (150, 34)
  {
    if isScrolled then (135, 30) else (150, 34)
  }

  /** Scrolling down shrinks the logo in both directions. */
  lemma LogoShrinksWhenScrolled()
    ensures LogoSize(true).0 < LogoSize(false).0 && LogoSize(true).1 < LogoSize(false).1
  {
  }

  /** A header that has just handled a scroll shows the logo size that belongs to that position. */
  method LogoAfterScroll(scrollY: int) returns (size: (nat, nat))
    ensures scrollY > ScrollThreshold ==> size == (135, 30)
    ensures scrollY <= ScrollThreshold ==> size == (150, 34)
  {
    var h := new Header();
    h.HandleScroll(scrollY);
    size := LogoSize(h.isScrolled);
  }

  datatype NavLink = Home | CatalogLink

  function Href(link: NavLink): string
  {
    match link
    case Home => "/"
    case CatalogLink => "/catalog"
  }

  /** The `currentPage` value that marks a link as the active one. */
  function PageName(link: NavLink): string
  {
    match link
    case Home => "home"
    case CatalogLink => "catalog"
  }

  /** Active styling applies exactly when `currentPage` names the link's page. */
  predicate IsActive(link: NavLink, currentPage: string)
  {
    currentPage == PageName(link)
  }

  /** At most one link is styled active, and with the default `currentPage` of "" none is. */
  lemma AtMostOneActive(currentPage: string, a: NavLink, b: NavLink)
    requires IsActive(a, currentPage) && IsActive(b, currentPage)
    ensures a == b
  {
  }

  lemma DefaultPageHasNoActiveLink(link: NavLink)
    ensures !IsActive(link, "")
  {
  }

  /** The logo URL: the prefix, one separator, and the relative logo path in full. */
  function LogoSrc(basePath: string): (url: string)
    ensures url == basePath + "/" + LogoPath
  {
    AssetPath.NormalizeUnslashed(basePath, LogoPath);
    AssetPath.Normalize(basePath, LogoPath)
  }

  /** The background texture URL, built the same way. */
  function TextureSrc(basePath: string): (url: string)
    ensures url == basePath + "/" + TexturePath
  {
    AssetPath.NormalizeUnslashed(basePath, TexturePath);
    AssetPath.Normalize(basePath, TexturePath)
  }
}
