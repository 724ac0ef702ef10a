/** The landing route (client/app/routes/_layout._index.tsx): its loader's
    not-found rule and the flag it sends to the layout when a hero shows the
    menu itself. */
module IndexRoute {
  import opened Wrappers
  import opened Json
  import opened Navigation
  import opened Hero

  /** The block test inside `blocks.some(...)`: only a hero counts, and only
      when its flag is truthy, so an absent, `null` or `false` flag does not. */
  predicate HeroWithMenuItems(block: Object): (b: bool)
    ensures !FieldIs(block, "__component", "blocks.hero") ==> !b
    ensures Get(block, "showMenuItemsInHero") in {None, Some(JNull), Some(JBool(false))} ==> !b
    ensures FieldIs(block, "__component", "blocks.hero") && Get(block, "showMenuItemsInHero") == Some(JBool(true)) ==> b
  {
    FieldIs(block, "__component", "blocks.hero") && FieldTruthy(block, "showMenuItemsInHero")
  }

  /** `hasHeroWithMenuItems`: `blocks.some(...)`. */
  function HasHeroWithMenuItems(blocks: seq<Object>): (b: bool)
    ensures b <==> exists i :: 0 <= i < |blocks| && HeroWithMenuItems(blocks[i])
  {
    if blocks == [] then false
    else HeroWithMenuItems(blocks[0]) || HasHeroWithMenuItems(blocks[1..])
  }

  /** The flag does not depend on the order of the blocks. */
  lemma FlagIgnoresOrder(a: seq<Object>, b: seq<Object>)
    requires multiset(a) == multiset(b)
    ensures HasHeroWithMenuItems(a) == HasHeroWithMenuItems(b)
  {
    if HasHeroWithMenuItems(a) {
      var i :| 0 <= i < |a| && HeroWithMenuItems(a[i]);
      assert a[i] in multiset(b);
      var j :| 0 <= j < |b| && b[j] == a[i];
    }
    if HasHeroWithMenuItems(b) {
      var j :| 0 <= j < |b| && HeroWithMenuItems(b[j]);
      assert b[j] in multiset(a);
      var i :| 0 <= i < |a| && a[i] == b[j];
    }
  }

  /** How the landing-page request ended, as far as this loader looks at it. */
  datatype LoaderOutcome = NotFound(status: int) | PageData(data: Json)

  /** The loader: a 404 response when the answer carries no (truthy) `data`. */
  function IndexLoader(response: Option<Object>): (r: LoaderOutcome)
    ensures r.NotFound? <==> !(response.Some? && FieldTruthy(response.value, "data"))
    ensures r.NotFound? ==> r.status == 404
    ensures r.PageData? ==> Get(response.value, "data") == Some(r.data) && Truthy(r.data)
  {
    if response.Some? && FieldTruthy(response.value, "data") then PageData(response.value["data"])
    else NotFound(404)
  }

  /** The part of the layout's outlet context this page touches: the parent's
      hide flag, which changes only through `setHideMenuItems` when the
      context provides one. */
  class LayoutContext {
    const providesSetter: bool
    var hideMenuItems: bool

    constructor (providesSetter: bool, hideMenuItems: bool)
      ensures this.providesSetter == providesSetter && this.hideMenuItems == hideMenuItems
    {
      this.providesSetter := providesSetter;
      this.hideMenuItems := hideMenuItems;
    }

    /** The effect body, run after a render with `blocks`. */
    method RunEffect(blocks: seq<Object>)
      modifies this
      ensures providesSetter ==> hideMenuItems == HasHeroWithMenuItems(blocks)
      ensures !providesSetter ==> hideMenuItems == old(hideMenuItems)
    {
      var hasHeroWithMenuItems := HasHeroWithMenuItems(blocks);
      if providesSetter {
        hideMenuItems := hasHeroWithMenuItems;
      }
    }

    /** The effect's cleanup, run on unmount and before the effect re-runs. */
    method Cleanup()
      modifies this
      ensures providesSetter ==> !hideMenuItems
      ensures !providesSetter ==> hideMenuItems == old(hideMenuItems)
    {
      if providesSetter {
        hideMenuItems := false;
      }
    }
  }

  /** The hero block as JSON, as the renderer spreads it into the hero's props:
      an unset flag is an absent field. */
  function HeroJson(h: HeroContent): (b: Object)
    ensures FieldIs(b, "__component", "blocks.hero")
    ensures "showMenuItemsInHero" in b <==> h.showMenuItemsInHero.Some?
    ensures h.showMenuItemsInHero.Some? ==> b["showMenuItemsInHero"] == JBool(h.showMenuItemsInHero.value)
  {
    var base := map["__component" := JStr("blocks.hero"), "id" := JNum(h.id), "heading" := JStr(h.heading)];
    var withSubtitle := if h.subtitle.Some? then base["subtitle" := JStr(h.subtitle.value)] else base;
    if h.showMenuItemsInHero.Some? then withSubtitle["showMenuItemsInHero" := JBool(h.showMenuItemsInHero.value)]
    else withSubtitle
  }

  /** The hero's default and the page's test disagree: a hero whose flag is
      unset shows its inline menu (a non-empty one) yet does not ask the
      layout to hide the menu, and it is the only such case. Whenever the
      flag is set the two agree. */
  lemma UnsetFlagShowsMenuWithoutHiding(h: HeroContent, menuItems: seq<MenuItem>)
    requires |menuItems| > 0
    ensures var shown := RenderHero(h, Some(menuItems)).inlineMenu.Some?;
      var hides := HasHeroWithMenuItems([HeroJson(h)]);
      (shown && !hides) <==> h.showMenuItemsInHero.None?
    ensures h.showMenuItemsInHero.Some? ==>
      RenderHero(h, Some(menuItems)).inlineMenu.Some? == HasHeroWithMenuItems([HeroJson(h)])
  {
    assert HasHeroWithMenuItems([HeroJson(h)]) == HeroWithMenuItems(HeroJson(h));
  }
}
