/** The hero block's view model (client/app/components/blocks/Hero.tsx): which
    parts of the section appear and what they link to. */
module Hero {
  import opened Wrappers
  import opened Json
  import opened Navigation

  /** A call-to-action link of the CMS (`TLink`). */
  datatype Link = Link(id: int, href: string, caption: string, isExternal: bool)

  /** The hero block's own fields (`IHero`); the background image is left out,
      because the component never renders it. */
  datatype HeroContent = HeroContent(
    id: int,
    heading: string,
    subtitle: Option<string>,
    showMenuItemsInHero: Option<bool>,
    ctaButtons: seq<Link>)

  /** A rendered call-to-action button. */
  datatype CtaView = CtaView(key: int, to: string, caption: string, target: Option<string>, rel: Option<string>)

  /** What the section shows: the heading, and the optional subtitle, inline
      menu and call-to-action group. */
  datatype HeroView = HeroView(
    heading: string,
    subtitle: Option<string>,
    inlineMenu: Option<seq<MenuLink>>,
    ctaGroup: Option<seq<CtaView>>)

  /** The flag after the destructuring default `showMenuItemsInHero = true`. */
  function ShowMenuItems(h: HeroContent): (b: bool)
    ensures b <==> h.showMenuItemsInHero != Some(false)
  {
    h.showMenuItemsInHero.GetOr(true)
  }

  /** A button links to its `href`; only an external one opens a new tab. */
  function CtaOf(button: Link): (c: CtaView)
    ensures c.key == button.id && c.to == button.href && c.caption == button.caption
    ensures c.target.Some? <==> button.isExternal
    ensures c.rel.Some? <==> button.isExternal
    ensures button.isExternal ==> c.target == Some("_blank") && c.rel == Some("noopener noreferrer")
  {
    if button.isExternal then CtaView(button.id, button.href, button.caption, Some("_blank"), Some("noopener noreferrer"))
    else CtaView(button.id, button.href, button.caption, None, None)
  }

  function CtaViews(buttons: seq<Link>): (cs: seq<CtaView>)
    ensures |cs| == |buttons|
    ensures forall i :: 0 <= i < |buttons| ==> cs[i] == CtaOf(buttons[i])
  {
    seq(|buttons|, i requires 0 <= i < |buttons| => CtaOf(buttons[i]))
  }

  /** The hero, given its block and the menu the renderer passes (`menuItems = []`). */
  function RenderHero(h: HeroContent, menuItems: Option<seq<MenuItem>>): (v: HeroView)
    ensures v.heading == h.heading
    ensures v.subtitle.Some? <==> NonEmpty(h.subtitle)
    ensures v.subtitle.Some? ==> v.subtitle == h.subtitle
    ensures v.inlineMenu.Some? <==> h.showMenuItemsInHero != Some(false) && menuItems.Some? && |menuItems.value| > 0
    ensures v.inlineMenu.Some? ==> v.inlineMenu.value == MenuLinks(menuItems.value)
    ensures v.ctaGroup.Some? <==> |h.ctaButtons| > 0
    ensures v.ctaGroup.Some? ==> v.ctaGroup.value == CtaViews(h.ctaButtons)
  {
    var items := menuItems.GetOr([]);
    HeroView(
      h.heading,
      WhenNonEmpty(h.subtitle),
      if ShowMenuItems(h) && |items| > 0 then Some(MenuLinks(items)) else None,
      if |h.ctaButtons| > 0 then Some(CtaViews(h.ctaButtons)) else None)
  }

  /** With the flag and the menu both left unset the inline menu is absent,
      because the menu defaults to empty; a non-empty menu is shown in order,
      each entry leading to its item's url. */
  lemma InlineMenuDefaults(h: HeroContent, menuItems: seq<MenuItem>)
    requires h.showMenuItemsInHero.None?
    ensures RenderHero(h, None).inlineMenu.None?
    ensures |menuItems| > 0 ==>
      var links := RenderHero(h, Some(menuItems)).inlineMenu.value;
      |links| == |menuItems| && forall i :: 0 <= i < |links| ==> links[i].Target() == menuItems[i].url
  {
  }
}
