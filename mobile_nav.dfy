/** The mobile navigation widget (client/app/components/layout/MobileNav.tsx):
    a header bar with a hamburger button that opens a full-screen menu, and
    the page-scroll lock that follows the menu's state. */
module MobileNav {
  import opened Wrappers
  import opened Json
  import opened Navigation

  /** The background class of the bar and of the open panel. */
  function BgClass(v: Variant): (c: string)
    ensures |c| > 3 && c[..3] == "bg-"
    ensures c == "bg-white" <==> v == Default
  {
    match v
    case Default => "bg-white"
    case Dark => "bg-black"
    case Transparent => "bg-transparent"
  }

  /** The text class of the logo, the buttons and the menu links. */
  function TextClass(v: Variant): (c: string)
    ensures |c| > 5 && c[..5] == "text-"
    ensures c == "text-black" <==> v == Default
  {
    match v
    case Default => "text-black"
    case Dark => "text-white"
    case Transparent => "text-white"
  }

  /** Each variant has its own background; dark and transparent share the
      white text, which only the default variant does not use. */
  lemma VariantTables(v: Variant, w: Variant)
    ensures BgClass(v) == BgClass(w) <==> v == w
    ensures TextClass(v) == "text-white" <==> v != Default
    ensures TextClass(Dark) == TextClass(Transparent)
  {
  }

  /** The body's `overflow` style for a menu state. */
  function OverflowFor(open: bool): (s: string)
    ensures s == "hidden" <==> open
    ensures s == "" <==> !open
  {
    if open then "hidden" else ""
  }

  /** The logo link's content: the image when there is an image url, else the caption. */
  datatype LogoContent = LogoPicture(src: string, alt: string) | LogoCaption(caption: string)

  function LogoContentOf(logo: Logo): (c: LogoContent)
    ensures c.LogoPicture? <==> NonEmpty(logo.imageUrl)
    ensures c.LogoPicture? ==> c.src == logo.imageUrl.value && c.alt == logo.altText
    ensures c.LogoCaption? ==> c.caption == logo.caption
  {
    if NonEmpty(logo.imageUrl) then LogoPicture(logo.imageUrl.value, logo.altText) else LogoCaption(logo.caption)
  }

  /** The always-visible bar: its classes, the logo linking to the logo's
      `href`, and the hamburger's `aria-expanded`. */
  datatype Bar = Bar(bgClass: string, textClass: string, logoHref: string, logo: LogoContent, ariaExpanded: bool)

  /** The open overlay: the panel's classes, its logo, and one link per menu item. */
  datatype Overlay = Overlay(bgClass: string, textClass: string, logoHref: string, logo: LogoContent,
                             links: seq<MenuLink>)

  datatype View = View(bar: Bar, overlay: Option<Overlay>)

  /** The controls inside the open overlay that close it. */
  datatype CloseControl = Backdrop | PanelLogo | CloseButton | MenuEntry(id: int)

  /** The widget's state: the menu state, the body's overflow style that the
      effect keeps in step with it, and whether the widget is mounted. */
  class MobileNavState {
    var isOpen: bool
    var bodyOverflow: string
    var mounted: bool

    /** While mounted, the page scrolls exactly when the menu is closed; after
        unmounting the style is cleared. */
    predicate Valid()
      reads this
    {
      bodyOverflow == (if mounted then OverflowFor(isOpen) else "")
    }

    /** Mounting: the menu starts closed and the effect clears the style. */
    constructor ()
      ensures Valid() && mounted && !isOpen && bodyOverflow == ""
    {
      isOpen := false;
      mounted := true;
      bodyOverflow := "";
    }

    /** The rendered widget for the current state. */
    function Render(menuItems: seq<MenuItem>, logo: Logo, variant: Variant): (v: View)
      reads this
      ensures v.bar.ariaExpanded == isOpen
      ensures v.overlay.Some? <==> isOpen
      ensures v.bar.logoHref == logo.href && v.bar.logo == LogoContentOf(logo)
      ensures v.bar.bgClass == BgClass(variant) && v.bar.textClass == TextClass(variant)
      ensures v.overlay.Some? ==> v.overlay.value.links == MenuLinks(menuItems)
      ensures v.overlay.Some? ==> v.overlay.value.bgClass == BgClass(variant) && v.overlay.value.logoHref == logo.href
      ensures v.overlay.Some? ==> v.overlay.value.textClass == TextClass(variant) && v.overlay.value.logo == LogoContentOf(logo)
    {
      View(Bar(BgClass(variant), TextClass(variant), logo.href, LogoContentOf(logo), isOpen),
           if isOpen then Some(Overlay(BgClass(variant), TextClass(variant), logo.href, LogoContentOf(logo),
                                       MenuLinks(menuItems)))
           else None)
    }

    /** The effect that follows every change of `isOpen`. */
    method SyncOverflow()
      requires mounted
      modifies this
      ensures Valid() && isOpen == old(isOpen) && mounted
    {
      if isOpen {
        bodyOverflow := "hidden";
      } else {
        bodyOverflow := "";
      }
    }

    /** The hamburger button opens the menu; pressing it again keeps it open. */
    method ClickHamburger()
      requires Valid() && mounted
      modifies this
      ensures Valid() && mounted && isOpen && bodyOverflow == "hidden"
    {
      isOpen := true;
      SyncOverflow();
    }

    /** Every control of the open overlay closes it. */
    method ClickToClose(control: CloseControl)
      requires Valid() && mounted && isOpen
      modifies this
      ensures Valid() && mounted && !isOpen && bodyOverflow == ""
    {
      isOpen := false;
      SyncOverflow();
    }

    /** The window's keydown listener: Escape closes an open menu; any other
        key, or Escape on a closed menu, changes nothing. */
    method KeyDown(key: string)
      requires Valid() && mounted
      modifies this
      ensures Valid() && mounted
      ensures isOpen == (old(isOpen) && key != "Escape")
      ensures !(key == "Escape" && old(isOpen)) ==> isOpen == old(isOpen) && bodyOverflow == old(bodyOverflow)
    {
      if key == "Escape" && isOpen {
        isOpen := false;
        SyncOverflow();
      }
    }

    /** Unmounting runs the effect's cleanup, which clears the style. */
    method Unmount()
      requires Valid() && mounted
      modifies this
      ensures Valid() && !mounted && bodyOverflow == "" && isOpen == old(isOpen)
    {
      mounted := false;
      bodyOverflow := "";
    }
  }
}
