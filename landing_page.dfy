/** The landing-page controller's `find`, which attaches the published
    industries and cases to the blocks that display them
    (server/src/api/landing-page/controllers/landing-page.ts). */
module LandingPage {
  import opened Wrappers
  import opened Json

  const IndustriesDiscriminant := "blocks.industries"
  const FeaturedCasesDiscriminant := "blocks.featured-cases"

  /** The list injected for `fetched || []`; `None` is a `null` result. */
  function ListOr(fetched: Option<seq<Json>>): (l: Json)
    ensures l.JArr? && Truthy(l)
    ensures fetched.Some? ==> l.items == fetched.value
    ensures fetched.None? ==> l.items == []
  {
    JArr(fetched.GetOr([]))
  }

  /** Object `o` with field `k` set to `v` and every other field kept. */
  predicate SetsOnly(o: Object, r: Object, k: string, v: Json) {
    r.Keys == o.Keys + {k} && r[k] == v && forall f :: f in o && f != k ==> r[f] == o[f]
  }

  /** The callback of `blocks.map`: an industries block gets the fetched
      industries, a featured-cases block the fetched cases, by spread. */
  function InjectBlock(block: Object, industries: Option<seq<Json>>, cases: Option<seq<Json>>): (r: Object)
    ensures FieldIs(block, "__component", IndustriesDiscriminant) ==>
      SetsOnly(block, r, "industries", ListOr(industries))
    ensures FieldIs(block, "__component", FeaturedCasesDiscriminant) ==>
      SetsOnly(block, r, "cases", ListOr(cases))
    ensures (!FieldIs(block, "__component", IndustriesDiscriminant) &&
             !FieldIs(block, "__component", FeaturedCasesDiscriminant)) ==> r == block
    ensures Get(r, "__component") == Get(block, "__component")
  {
    if FieldIs(block, "__component", IndustriesDiscriminant) then
      Spread(block, map["industries" := ListOr(industries)])
    else if FieldIs(block, "__component", FeaturedCasesDiscriminant) then
      Spread(block, map["cases" := ListOr(cases)])
    else block
  }

  /** Injecting twice with the same lists is the same as injecting once. */
  lemma InjectBlockIdempotent(block: Object, industries: Option<seq<Json>>, cases: Option<seq<Json>>)
    ensures InjectBlock(InjectBlock(block, industries, cases), industries, cases)
      == InjectBlock(block, industries, cases)
  {
    var once := InjectBlock(block, industries, cases);
    if FieldIs(block, "__component", IndustriesDiscriminant) {
      assert once + map["industries" := ListOr(industries)] == once;
    } else if FieldIs(block, "__component", FeaturedCasesDiscriminant) {
      assert once + map["cases" := ListOr(cases)] == once;
    }
  }

  /** The mapped block list. */
  function InjectBlocks(blocks: seq<Object>, industries: Option<seq<Json>>, cases: Option<seq<Json>>)
    : (rs: seq<Object>)
    ensures |rs| == |blocks|
    ensures forall i :: 0 <= i < |blocks| ==> rs[i] == InjectBlock(blocks[i], industries, cases)
  {
    seq(|blocks|, i requires 0 <= i < |blocks| => InjectBlock(blocks[i], industries, cases))
  }

  /** The map keeps length, order and every block's kind; it is idempotent. */
  lemma InjectBlocksIdempotent(blocks: seq<Object>, industries: Option<seq<Json>>, cases: Option<seq<Json>>)
    ensures InjectBlocks(InjectBlocks(blocks, industries, cases), industries, cases)
      == InjectBlocks(blocks, industries, cases)
  {
    var once := InjectBlocks(blocks, industries, cases);
    forall i | 0 <= i < |blocks|
      ensures InjectBlock(once[i], industries, cases) == once[i]
    {
      InjectBlockIdempotent(blocks[i], industries, cases);
    }
  }

  /** A block list as JSON: an array of objects. */
  predicate IsBlockArray(v: Json) {
    v.JArr? && forall i :: 0 <= i < |v.items| ==> v.items[i].JObj?
  }

  function BlocksOf(v: Json): (bs: seq<Object>)
    requires IsBlockArray(v)
    ensures |bs| == |v.items|
  {
    seq(|v.items|, i requires 0 <= i < |v.items| => v.items[i].fields)
  }

  function BlockArray(bs: seq<Object>): (v: Json)
    ensures IsBlockArray(v) && BlocksOf(v) == bs
  {
    JArr(seq(|bs|, i requires 0 <= i < |bs| => JObj(bs[i])))
  }

  /** `response.data?.blocks` is truthy. */
  predicate HasBlocks(data: Option<Object>) {
    data.Some? && FieldTruthy(data.value, "blocks")
  }

  /** What `find` needs of Strapi's response: a truthy `blocks` field is an
      array of objects (it is mapped and each entry's `__component` read). */
  predicate WellShaped(data: Option<Object>) {
    HasBlocks(data) ==> IsBlockArray(data.value["blocks"])
  }

  /** `response.data` after the injection. */
  function InjectData(data: Option<Object>, industries: Option<seq<Json>>, cases: Option<seq<Json>>)
    : (r: Option<Object>)
    requires WellShaped(data)
    ensures !HasBlocks(data) ==> r == data
    ensures HasBlocks(data) ==> r.Some? && r.value.Keys == data.value.Keys
    ensures HasBlocks(data) ==> forall f :: f in data.value && f != "blocks" ==> r.value[f] == data.value[f]
    ensures HasBlocks(data) ==>
      (IsBlockArray(r.value["blocks"]) &&
       BlocksOf(r.value["blocks"]) == InjectBlocks(BlocksOf(data.value["blocks"]), industries, cases))
  {
    if HasBlocks(data) then
      Some(data.value["blocks" := BlockArray(InjectBlocks(BlocksOf(data.value["blocks"]), industries, cases))])
    else data
  }

  /** The response object `find` returns; `data` is `None` when the core
      controller found no document. */
  class Response {
    var data: Option<Object>

    constructor (data: Option<Object>)
      ensures this.data == data
    {
      this.data := data;
    }

    /** The injection step of `find`: `industries` and `cases` are the
        results of the two `findMany` queries. */
    method InjectRelations(industries: Option<seq<Json>>, cases: Option<seq<Json>>)
      requires WellShaped(data)
      modifies this
      ensures data == InjectData(old(data), industries, cases)
    {
      if data.Some? && FieldTruthy(data.value, "blocks") {
        var injected := InjectBlocks(BlocksOf(data.value["blocks"]), industries, cases);
        data := Some(data.value["blocks" := BlockArray(injected)]);
      }
    }
  }

  /** Running the injection on its own result changes nothing. */
  lemma InjectDataIdempotent(data: Option<Object>, industries: Option<seq<Json>>, cases: Option<seq<Json>>)
    requires WellShaped(data)
    ensures WellShaped(InjectData(data, industries, cases))
    ensures InjectData(InjectData(data, industries, cases), industries, cases) == InjectData(data, industries, cases)
  {
    var once := InjectData(data, industries, cases);
    if HasBlocks(data) {
      var bs := BlocksOf(once.value["blocks"]);
      InjectBlocksIdempotent(BlocksOf(data.value["blocks"]), industries, cases);
      assert InjectBlocks(bs, industries, cases) == bs;
      assert once.value["blocks" := BlockArray(bs)] == once.value;
    }
  }
}
