/** The client's dispatch from a landing page's block list to block components
    (client/app/components/blocks/BlockRenderer.tsx). */
module BlockRenderer {
  import opened Wrappers
  import opened Json
  import opened Navigation

  /** A block as the CMS delivers it: a JSON object whose `__component` field
      names its kind. */
  type Block = Object

  /** The six block components other than the hero. */
  datatype Component = SectionHeading | CardGrid | ContentWithImage | MarkdownText | PersonCard | FeaturedArticles

  /** The element rendered for one block: its React key is the block's `id`,
      its props are the block's fields; the hero alone also gets the menu. */
  datatype Node =
    | HeroNode(key: Option<Json>, props: Block, menuItems: Option<seq<MenuItem>>)
    | BlockNode(component: Component, key: Option<Json>, props: Block)
  {
    /** The discriminant that selects this node's component. */
    function Discriminant(): string {
      match this
      case HeroNode(_, _, _) => HeroDiscriminant
      case BlockNode(c, _, _) => DiscriminantOf(c)
    }
  }

  const HeroDiscriminant := "blocks.hero"

  /** The discriminant of each non-hero component. */
  function DiscriminantOf(c: Component): (d: string)
    ensures d != HeroDiscriminant
  {
    match c
    case SectionHeading => "blocks.section-heading"
    case CardGrid => "blocks.card-grid"
    case ContentWithImage => "blocks.content-with-image"
    case MarkdownText => "blocks.markdown"
    case PersonCard => "blocks.person-card"
    case FeaturedArticles => "blocks.featured-articles"
  }

  /** The non-hero component a discriminant selects, if any. */
  function ComponentOf(d: string): (c: Option<Component>)
    ensures c.Some? ==> DiscriminantOf(c.value) == d
  {
    if d == "blocks.section-heading" then Some(SectionHeading)
    else if d == "blocks.card-grid" then Some(CardGrid)
    else if d == "blocks.content-with-image" then Some(ContentWithImage)
    else if d == "blocks.markdown" then Some(MarkdownText)
    else if d == "blocks.person-card" then Some(PersonCard)
    else if d == "blocks.featured-articles" then Some(FeaturedArticles)
    else None
  }

  /** The table of discriminants is one-to-one: every component is selected by
      its own discriminant and by no other. */
  lemma ComponentOfDiscriminant(c: Component, d: string)
    ensures ComponentOf(DiscriminantOf(c)) == Some(c)
    ensures ComponentOf(d) == Some(c) <==> d == DiscriminantOf(c)
  {
  }

  /** The block's `__component` when it is a string (`switch` compares with `===`). */
  function DiscriminantField(block: Block): Option<string> {
    if "__component" in block && block["__component"].JStr? then Some(block["__component"].s) else None
  }

  /** The block kinds the switch has a case for. */
  predicate Recognised(block: Block) {
    var d := DiscriminantField(block);
    d.Some? && (d.value == HeroDiscriminant || ComponentOf(d.value).Some?)
  }

  /** `renderBlock`: the element for one block, or `None` (`null`) for a
      discriminant without a case. */
  function RenderBlock(block: Block, menuItems: Option<seq<MenuItem>>): (r: Option<Node>)
    ensures r.Some? <==> Recognised(block)
    ensures r.Some? ==> DiscriminantField(block) == Some(r.value.Discriminant())
    ensures r.Some? ==> r.value.key == Get(block, "id") && r.value.props == block
    ensures r.Some? && r.value.HeroNode? ==> r.value.menuItems == menuItems
  {
    var d := DiscriminantField(block);
    if d == Some(HeroDiscriminant) then Some(HeroNode(Get(block, "id"), block, menuItems))
    else if d.Some? && ComponentOf(d.value).Some? then Some(BlockNode(ComponentOf(d.value).value, Get(block, "id"), block))
    else None
  }

  /** Kinds the populate middleware asks the CMS for but the switch does not
      handle: their blocks render nothing. */
  lemma UnhandledKindsRenderNothing(block: Block, menuItems: Option<seq<MenuItem>>)
    requires DiscriminantField(block) in
      {Some("blocks.stats"), Some("blocks.industries"), Some("blocks.client-logos"), Some("blocks.featured-cases")}
    ensures RenderBlock(block, menuItems).None?
  {
  }

  /** `blocks.map(renderBlock)`: one slot per block, in order. */
  function Render(blocks: seq<Block>, menuItems: Option<seq<MenuItem>>): (slots: seq<Option<Node>>)
    ensures |slots| == |blocks|
    ensures forall i :: 0 <= i < |blocks| ==> slots[i] == RenderBlock(blocks[i], menuItems)
  {
    seq(|blocks|, i requires 0 <= i < |blocks| => RenderBlock(blocks[i], menuItems))
  }

  /** The elements React actually shows: the slots without the `null`s. */
  function Present(slots: seq<Option<Node>>): (ns: seq<Node>)
    ensures |ns| <= |slots|
  {
    if slots == [] then []
    else if slots[0].Some? then [slots[0].value] + Present(slots[1..])
    else Present(slots[1..])
  }

  /** The recognised blocks, in their original relative order. */
  function RecognisedBlocks(blocks: seq<Block>): (rs: seq<Block>)
    ensures forall i :: 0 <= i < |rs| ==> Recognised(rs[i])
  {
    if blocks == [] then []
    else if Recognised(blocks[0]) then [blocks[0]] + RecognisedBlocks(blocks[1..])
    else RecognisedBlocks(blocks[1..])
  }

  /** Dropping the `null` slots leaves exactly one element per recognised
      block, in the blocks' order, each the element of its own block (so its
      component, its props, its `id` key and, for a hero, the menu follow from
      `RenderBlock`): an unknown block between two others affects neither. */
  lemma {:induction false} PresentIsRecognised(blocks: seq<Block>, menuItems: Option<seq<MenuItem>>)
    ensures var ns := Present(Render(blocks, menuItems)); var rs := RecognisedBlocks(blocks);
      |ns| == |rs| &&
      forall i :: 0 <= i < |ns| ==> Some(ns[i]) == RenderBlock(rs[i], menuItems)
  {
    if blocks != [] {
      PresentIsRecognised(blocks[1..], menuItems);
      assert Render(blocks, menuItems)[1..] == Render(blocks[1..], menuItems);
    }
  }

  /** No block is shown when no block is recognised; an empty list renders empty. */
  lemma {:induction false} NothingRecognisedNothingShown(blocks: seq<Block>, menuItems: Option<seq<MenuItem>>)
    requires forall i :: 0 <= i < |blocks| ==> !Recognised(blocks[i])
    ensures Present(Render(blocks, menuItems)) == []
  {
    if blocks != [] {
      assert Render(blocks, menuItems)[1..] == Render(blocks[1..], menuItems);
      NothingRecognisedNothingShown(blocks[1..], menuItems);
    }
  }

  /** A hero, an unknown block and a statistics block render as the hero
      alone: the statistics kind has no case in the switch. */
  lemma HeroUnknownStats(hero: Block, unknown: Block, stats: Block, menuItems: Option<seq<MenuItem>>)
    requires DiscriminantField(hero) == Some("blocks.hero")
    requires DiscriminantField(unknown) == Some("unknown.x")
    requires DiscriminantField(stats) == Some("blocks.stats")
    ensures Present(Render([hero, unknown, stats], menuItems)) == [HeroNode(Get(hero, "id"), hero, menuItems)]
  {
    var slots := Render([hero, unknown, stats], menuItems);
    assert slots == [RenderBlock(hero, menuItems), None, None];
    var none: seq<Option<Node>> := [None];
    assert none[1..] == [];
    assert Present(none) == [];
    assert slots[1..] == [None] + none;
    assert Present(slots[1..]) == [];
  }
}
