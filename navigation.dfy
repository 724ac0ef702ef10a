/** The navigation types shared by the layout loader, the hero and the
    navigation widgets (client/app/types/navigation.ts). */
module Navigation {
  import opened Wrappers

  /** A navigation entry; `caption` is the source's `label`, `order` its display weight. */
  datatype MenuItem = MenuItem(id: int, caption: string, url: string, order: int, isExternal: bool)

  /** The site logo; `imageUrl` is `null` when there is no image. */
  datatype Logo = Logo(caption: string, href: string, imageUrl: Option<string>, altText: string)

  /** The three colour treatments of the header; exactly one is active. */
  datatype Variant = Default | Dark | Transparent

  /** How a menu item is rendered: an external item is an anchor opening a new
      tab, any other item a client-side router link. */
  datatype MenuLink =
    | NewTabAnchor(key: int, href: string, caption: string, target: string, rel: string)
    | RouterLink(key: int, to: string, caption: string)
  {
    /** The address the link leads to. */
    function Target(): string {
      match this
      case NewTabAnchor(_, href, _, _, _) => href
      case RouterLink(_, to, _) => to
    }
  }

  /** The element produced for one menu item, keyed by its id. */
  function MenuLinkOf(item: MenuItem): (l: MenuLink)
    ensures l.NewTabAnchor? <==> item.isExternal
    ensures l.key == item.id && l.caption == item.caption && l.Target() == item.url
    ensures l.NewTabAnchor? ==> l.target == "_blank" && l.rel == "noopener noreferrer"
  {
    if item.isExternal then NewTabAnchor(item.id, item.url, item.caption, "_blank", "noopener noreferrer")
    else RouterLink(item.id, item.url, item.caption)
  }

  /** One element per menu item, in order (`menuItems.map(...)`). */
  function MenuLinks(items: seq<MenuItem>): (ls: seq<MenuLink>)
    ensures |ls| == |items|
    ensures forall i :: 0 <= i < |items| ==> ls[i] == MenuLinkOf(items[i])
  {
    seq(|items|, i requires 0 <= i < |items| => MenuLinkOf(items[i]))
  }
}
