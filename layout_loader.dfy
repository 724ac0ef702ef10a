/** The layout route's loader (client/app/routes/_layout.tsx): the CMS header's
    navigation links become menu items and its logo data the site logo, with
    fixed fallbacks when loading fails. */
module LayoutLoader {
  import opened Wrappers
  import opened Json
  import opened Navigation

  /** One `navItems` entry (a shared link component) as the CMS returns it. */
  datatype NavLink = NavLink(id: int, caption: string, href: string, isExternal: Option<bool>)

  datatype LogoImage = LogoImage(url: Option<string>, alternativeText: Option<string>)

  /** The header's logo component; every field may be missing. */
  datatype LogoData = LogoData(caption: Option<string>, href: Option<string>, image: Option<LogoImage>)

  datatype Header = Header(navItems: Option<seq<NavLink>>, logo: Option<LogoData>)

  /** The global single type's `data`. */
  datatype GlobalData = GlobalData(header: Option<Header>)

  /** How the fetch of the global data ended: a failure of the request, a
      non-ok status or an unreadable body all throw inside the `try`. */
  datatype Fetched = Failed | Loaded(data: Option<GlobalData>)

  datatype LoaderData = LoaderData(menuItems: seq<MenuItem>, logo: Logo, strapiUrl: string)

  /** The callback of `navItems.map`, for the entry at position `index`. */
  function MenuItemOf(item: NavLink, index: nat): (m: MenuItem)
    ensures m.id == item.id && m.caption == item.caption && m.url == item.href
    ensures m.order == (index + 1) * 10
    ensures m.isExternal <==> item.isExternal == Some(true)
  {
    MenuItem(item.id, item.caption, item.href, (index + 1) * 10, item.isExternal.GetOr(false))
  }

  /** `navItems.map(...)`: one menu item per link, in order. */
  function MenuItemsOf(navItems: seq<NavLink>): (ms: seq<MenuItem>)
    ensures |ms| == |navItems|
    ensures forall i :: 0 <= i < |navItems| ==> ms[i] == MenuItemOf(navItems[i], i)
  {
    seq(|navItems|, i requires 0 <= i < |navItems| => MenuItemOf(navItems[i], i))
  }

  /** The orders of the menu are positive multiples of ten and strictly
      increasing, so sorting the menu by order keeps the CMS's sequence. */
  lemma MenuOrdersIncrease(navItems: seq<NavLink>)
    ensures var ms := MenuItemsOf(navItems);
      (forall i :: 0 <= i < |ms| ==> ms[i].order > 0 && ms[i].order % 10 == 0) &&
      (forall i, j :: 0 <= i < j < |ms| ==> ms[i].order < ms[j].order)
  {
    var ms := MenuItemsOf(navItems);
    forall i, j | 0 <= i < j < |ms| ensures ms[i].order < ms[j].order {
      assert ms[i].order == (i + 1) * 10 && ms[j].order == (j + 1) * 10;
    }
  }

  /** `data?.header?.navItems || []`. */
  function NavItemsOf(data: Option<GlobalData>): (items: seq<NavLink>)
    ensures data.Some? && data.value.header.Some? && data.value.header.value.navItems.Some? ==>
      items == data.value.header.value.navItems.value
    ensures data.None? || data.value.header.None? || data.value.header.value.navItems.None? ==> items == []
  {
    if data.Some? && data.value.header.Some? && data.value.header.value.navItems.Some? then
      data.value.header.value.navItems.value
    else []
  }

  /** `data?.header?.logo`: the header's logo data, if both are present. */
  function LogoDataOf(data: Option<GlobalData>): (d: Option<LogoData>)
    ensures d.Some? <==> data.Some? && data.value.header.Some? && data.value.header.value.logo.Some?
    ensures d.Some? ==> d == data.value.header.value.logo
  {
    if data.Some? && data.value.header.Some? then data.value.header.value.logo else None
  }

  /** The logo from `data?.header?.logo || {}`. */
  function LogoOf(logoData: Option<LogoData>, strapiUrl: string): (l: Logo)
    ensures var d := logoData.GetOr(LogoData(None, None, None));
      l.caption == (if NonEmpty(d.caption) then d.caption.value else "ADC") &&
      l.href == (if NonEmpty(d.href) then d.href.value else "/")
    ensures var d := logoData.GetOr(LogoData(None, None, None));
      l.imageUrl.Some? <==> d.image.Some? && NonEmpty(d.image.value.url)
    ensures var d := logoData.GetOr(LogoData(None, None, None));
      l.imageUrl.Some? ==> l.imageUrl.value == strapiUrl + d.image.value.url.value
    ensures var d := logoData.GetOr(LogoData(None, None, None));
      (d.image.Some? && NonEmpty(d.image.value.alternativeText) ==> l.altText == d.image.value.alternativeText.value) &&
      (!(d.image.Some? && NonEmpty(d.image.value.alternativeText)) && NonEmpty(d.caption) ==> l.altText == d.caption.value) &&
      (!(d.image.Some? && NonEmpty(d.image.value.alternativeText)) && !NonEmpty(d.caption) ==> l.altText == "Logo")
    ensures l.caption != "" && l.href != "" && l.altText != ""
  {
    var d := logoData.GetOr(LogoData(None, None, None));
    var imageUrl := if d.image.Some? then d.image.value.url else None;
    var imageAlt := if d.image.Some? then d.image.value.alternativeText else None;
    Logo(StrOr(d.caption, "ADC"),
         StrOr(d.href, "/"),
         if NonEmpty(imageUrl) then Some(strapiUrl + imageUrl.value) else None,
         StrOr(imageAlt, StrOr(d.caption, "Logo")))
  }

  /** The loader's value in its `catch` branch. */
  function Fallback(strapiUrl: string): (r: LoaderData)
    ensures r.menuItems == [] && r.strapiUrl == strapiUrl
    ensures r.logo == Logo("ADC", "/", None, "ADC")
  {
    LoaderData([], Logo("ADC", "/", None, "ADC"), strapiUrl)
  }

  /** The loader, given the outcome of its fetch. */
  function Loader(strapiUrl: string, fetched: Fetched): (r: LoaderData)
    ensures fetched.Failed? ==> r == Fallback(strapiUrl)
    ensures fetched.Loaded? ==> r.menuItems == MenuItemsOf(NavItemsOf(fetched.data))
    ensures fetched.Loaded? ==> r.logo == LogoOf(LogoDataOf(fetched.data), strapiUrl)
    ensures r.strapiUrl == strapiUrl
  {
    match fetched
    case Failed => Fallback(strapiUrl)
    case Loaded(data) =>
      LoaderData(MenuItemsOf(NavItemsOf(data)), LogoOf(LogoDataOf(data), strapiUrl), strapiUrl)
  }

  /** A response without a header gives an empty menu and the default logo
      rather than the error fallback; the two differ only in the logo's alt
      text ("Logo" against "ADC"). A header without links, whatever its logo,
      still gives an empty menu. */
  lemma MissingHeaderGivesEmptyMenu(strapiUrl: string, data: Option<GlobalData>)
    requires data.None? || data.value.header.None?
    ensures Loader(strapiUrl, Loaded(data)).menuItems == []
    ensures Loader(strapiUrl, Loaded(data)).logo == Logo("ADC", "/", None, "Logo")
    ensures Loader(strapiUrl, Loaded(data)).logo.altText != Loader(strapiUrl, Failed).logo.altText
  {
  }

  lemma HeaderWithoutLinksGivesEmptyMenu(strapiUrl: string, header: Header)
    requires header.navItems.None?
    ensures Loader(strapiUrl, Loaded(Some(GlobalData(Some(header))))).menuItems == []
    ensures Loader(strapiUrl, Loaded(Some(GlobalData(Some(header))))).logo == LogoOf(header.logo, strapiUrl)
  {
  }
}
