/** The industries block (client/app/components/blocks/Industries.tsx). */
module Industries {
  import opened Wrappers
  import opened Json
  import opened Cards

  datatype Industry = Industry(id: int, title: string, slug: string, image: Image)

  /** The block's props; `industries` is the list the landing-page controller injects. */
  datatype IndustriesProps = IndustriesProps(
    heading: Option<string>, text: Option<string>, buttonText: Option<string>, industries: Option<seq<Industry>>)

  /** The card of one industry; `media` resolves a CMS media url. */
  function IndustryCard(industry: Industry, media: string -> string): (c: Card)
    ensures c.key == industry.id
    ensures c.to == DetailLink("/industries", industry.slug)
    ensures c.imageSrc == media(industry.image.url)
    ensures c.alt == ImageAlt(industry.image, industry.title)
    ensures c.captions == [industry.title]
  {
    Card(industry.id, "/industries/" + industry.slug, media(industry.image.url),
         ImageAlt(industry.image, industry.title), [industry.title])
  }

  /** The rendered block. */
  function RenderIndustries(p: IndustriesProps, media: string -> string): (s: CardSection)
    ensures s.header == Header(p.heading, "Industries", p.text, "/industries", p.buttonText, "See all industries")
    ensures s.cards.Some? <==> p.industries.Some? && |p.industries.value| > 0
    ensures s.cards.Some? ==> (|s.cards.value| == |p.industries.value| &&
      forall i :: 0 <= i < |p.industries.value| ==> s.cards.value[i] == IndustryCard(p.industries.value[i], media))
  {
    var industries := p.industries.GetOr([]);
    CardSection(
      Header(p.heading, "Industries", p.text, "/industries", p.buttonText, "See all industries"),
      if |industries| > 0 then
        Some(seq(|industries|, i requires 0 <= i < |industries| => IndustryCard(industries[i], media)))
      else None)
  }

  /** Every card leads to its own industry's page, from which the slug is read
      back; industries with different slugs never share a link. */
  lemma IndustryLinksDistinguishSlugs(p: IndustriesProps, media: string -> string, i: nat, j: nat)
    requires p.industries.Some? && i < |p.industries.value| && j < |p.industries.value|
    ensures var cards := RenderIndustries(p, media).cards.value;
      var a := p.industries.value[i]; var b := p.industries.value[j];
      cards[i].to[|"/industries/"|..] == a.slug &&
      (cards[i].to == cards[j].to <==> a.slug == b.slug)
  {
    var a := p.industries.value[i];
    var b := p.industries.value[j];
    DetailLinkReadBack("/industries", a.slug, b.slug);
  }
}
