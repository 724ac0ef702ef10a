/** The block-list update of the hero content script (add-hero-content.mjs):
    the first hero block is overwritten with the script's hero content, or
    the hero is put at the front when the page has none. */
module HeroUpsert {
  import opened Wrappers
  import opened Json

  /** The one call to action of the script's hero. */
  const CtaButton: Object := map[
    "href" := JStr("/contact"),
    "label" := JStr("Learn more"),
    "isExternal" := JBool(false),
    "isButtonLink" := JBool(true),
    "type" := JStr("PRIMARY")]

  const HeroHeading := "Leading the most impactful AI transformation"

  /** The hero content the script writes. */
  const HeroBlock: Object := map[
    "__component" := JStr("blocks.hero"),
    "heading" := JStr(HeroHeading),
    "subtitle" := JNull,
    "showMenuItemsInHero" := JBool(true),
    "ctaButtons" := JArr([JObj(CtaButton)]),
    "backgroundImage" := JNull]

  predicate IsHero(block: Object) {
    FieldIs(block, "__component", "blocks.hero")
  }

  /** `findIndex` for the first hero block: its index, or -1 when there is none. */
  function FindHeroIndex(blocks: seq<Object>): (k: int)
    ensures -1 <= k < |blocks|
    ensures k >= 0 ==> IsHero(blocks[k]) && forall j :: 0 <= j < k ==> !IsHero(blocks[j])
    ensures k == -1 <==> forall j :: 0 <= j < |blocks| ==> !IsHero(blocks[j])
  {
    if blocks == [] then -1
    else if IsHero(blocks[0]) then 0
    else
      var k := FindHeroIndex(blocks[1..]);
      if k < 0 then -1 else k + 1
  }

  /** The first hero of a list whose blocks before `k` are not heroes is at `k`. */
  lemma FirstHeroAt(blocks: seq<Object>, k: nat)
    requires k < |blocks| && IsHero(blocks[k])
    requires forall j :: 0 <= j < k ==> !IsHero(blocks[j])
    ensures FindHeroIndex(blocks) == k
  {
  }

  /** `{...current, ...heroBlock}`: the script's fields win, the others are kept. */
  function MergeHero(current: Object): (r: Object)
    ensures r.Keys == current.Keys + HeroBlock.Keys
    ensures forall f :: f in HeroBlock ==> r[f] == HeroBlock[f]
    ensures forall f :: f in current && f !in HeroBlock ==> r[f] == current[f]
  {
    Spread(current, HeroBlock)
  }

  /** The updated block list, from the existing one (`blocks || []`). */
  function UpsertHeroBlocks(existing: seq<Object>): (r: seq<Object>)
    ensures (forall j :: 0 <= j < |existing| ==> !IsHero(existing[j])) ==> r == [HeroBlock] + existing
    ensures forall k :: 0 <= k < |existing| && IsHero(existing[k]) && (forall j :: 0 <= j < k ==> !IsHero(existing[j])) ==>
      |r| == |existing| && r[k] == MergeHero(existing[k]) &&
      forall i :: 0 <= i < |existing| && i != k ==> r[i] == existing[i]
  {
    var k := FindHeroIndex(existing);
    if k >= 0 then existing[k := MergeHero(existing[k])] else [HeroBlock] + existing
  }

  /** A hero block with the script's heading, the inline menu switched on and
      the script's call to action. */
  predicate CarriesScriptHero(block: Object) {
    IsHero(block) &&
    Get(block, "heading") == Some(JStr(HeroHeading)) &&
    Get(block, "showMenuItemsInHero") == Some(JBool(true)) &&
    Get(block, "ctaButtons") == Some(JArr([JObj(CtaButton)]))
  }

  lemma MergeCarriesScriptHero(current: Object)
    ensures CarriesScriptHero(HeroBlock)
    ensures CarriesScriptHero(MergeHero(current))
  {
    assert "__component" in HeroBlock && "heading" in HeroBlock;
    assert "showMenuItemsInHero" in HeroBlock && "ctaButtons" in HeroBlock;
  }

  /** Every result's first hero carries the script's hero content. */
  lemma UpsertLeavesHero(existing: seq<Object>)
    ensures var r := UpsertHeroBlocks(existing); var k := FindHeroIndex(r);
      k >= 0 && CarriesScriptHero(r[k])
  {
    var r := UpsertHeroBlocks(existing);
    var k := FindHeroIndex(existing);
    MergeCarriesScriptHero(if k >= 0 then existing[k] else HeroBlock);
    if k >= 0 {
      FirstHeroAt(r, k);
    } else {
      FirstHeroAt(r, 0);
    }
  }

  /** A page without blocks gets exactly the hero. */
  lemma MissingBlocksGiveHero()
    ensures UpsertHeroBlocks([]) == [HeroBlock]
  {
  }

  /** A second run over the script's own output is a no-op. */
  lemma UpsertIdempotent(existing: seq<Object>)
    ensures UpsertHeroBlocks(UpsertHeroBlocks(existing)) == UpsertHeroBlocks(existing)
  {
    var r := UpsertHeroBlocks(existing);
    var k := FindHeroIndex(existing);
    if k >= 0 {
      FirstHeroAt(r, k);
      assert MergeHero(r[k]) == r[k];
    } else {
      FirstHeroAt(r, 0);
      assert MergeHero(r[0]) == r[0];
    }
  }

  /** The script's list logic on JavaScript arrays: `existing` (`null` for a
      missing list) is read but not written; the update branch copies it and
      assigns the merged hero into the copy. */
  method UpsertHero(blocks: array?<Object>) returns (updated: array<Object>)
    ensures fresh(updated)
    ensures updated[..] == UpsertHeroBlocks(if blocks == null then [] else blocks[..])
  {
    var existing: array<Object>;
    if blocks == null {
      existing := new Object[0];
    } else {
      existing := blocks;
    }
    var heroIndex := FindHeroIndex(existing[..]);
    if heroIndex >= 0 {
      updated := new Object[existing.Length](i requires 0 <= i < existing.Length reads existing => existing[i]);
      updated[heroIndex] := MergeHero(existing[heroIndex]);
    } else {
      updated := new Object[existing.Length + 1](
        i requires 0 <= i < existing.Length + 1 reads existing => if i == 0 then HeroBlock else existing[i - 1]);
      assert updated[..] == [HeroBlock] + existing[..];
    }
  }
}
