/** The featured-cases block (client/app/components/blocks/FeaturedCases.tsx). */
module FeaturedCases {
  import opened Wrappers
  import opened Json
  import opened Cards

  datatype Case = Case(id: int, title: string, slug: string, description: string, category: string, image: Image)

  /** The block's props; `cases` is the list the landing-page controller injects. */
  datatype FeaturedCasesProps = FeaturedCasesProps(
    heading: Option<string>, text: Option<string>, buttonText: Option<string>, cases: Option<seq<Case>>)

  /** The card of one case: category above title; the description is not shown. */
  function CaseCard(c: Case, media: string -> string): (card: Card)
    ensures card.key == c.id
    ensures card.to == DetailLink("/cases", c.slug)
    ensures card.imageSrc == media(c.image.url)
    ensures card.alt == ImageAlt(c.image, c.title)
    ensures card.captions == [c.category, c.title]
  {
    Card(c.id, "/cases/" + c.slug, media(c.image.url), ImageAlt(c.image, c.title), [c.category, c.title])
  }

  /** The rendered block. */
  function RenderFeaturedCases(p: FeaturedCasesProps, media: string -> string): (s: CardSection)
    ensures s.header == Header(p.heading, "Featured cases", p.text, "/cases", p.buttonText, "See all cases")
    ensures s.cards.Some? <==> p.cases.Some? && |p.cases.value| > 0
    ensures s.cards.Some? ==> (|s.cards.value| == |p.cases.value| &&
      forall i :: 0 <= i < |p.cases.value| ==> s.cards.value[i] == CaseCard(p.cases.value[i], media))
  {
    var cases := p.cases.GetOr([]);
    CardSection(
      Header(p.heading, "Featured cases", p.text, "/cases", p.buttonText, "See all cases"),
      if |cases| > 0 then Some(seq(|cases|, i requires 0 <= i < |cases| => CaseCard(cases[i], media)))
      else None)
  }

  /** Every card leads to its own case's page, from which the slug is read
      back; cases with different slugs never share a link. */
  lemma CaseLinksDistinguishSlugs(p: FeaturedCasesProps, media: string -> string, i: nat, j: nat)
    requires p.cases.Some? && i < |p.cases.value| && j < |p.cases.value|
    ensures var cards := RenderFeaturedCases(p, media).cards.value;
      var a := p.cases.value[i]; var b := p.cases.value[j];
      cards[i].to[|"/cases/"|..] == a.slug &&
      (cards[i].to == cards[j].to <==> a.slug == b.slug)
  {
    var a := p.cases.value[i];
    var b := p.cases.value[j];
    DetailLinkReadBack("/cases", a.slug, b.slug);
  }
}
