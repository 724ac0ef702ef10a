/** The parts shared by the industries and featured-cases blocks
    (client/app/components/blocks/Industries.tsx,
    client/app/components/blocks/FeaturedCases.tsx): a header with a fixed
    link and a list of image cards leading to detail pages. */
module Cards {
  import opened Wrappers
  import opened Json

  /** A media reference as the CMS delivers it. */
  datatype Image = Image(url: string, alternativeText: Option<string>)

  /** The section header: heading, optional text paragraph and the button. */
  datatype HeaderView = HeaderView(heading: string, text: Option<string>, buttonTo: string, buttonCaption: string)

  /** One card: its key, link target, image source and alt text, and the
      lines of text it shows, top to bottom. */
  datatype Card = Card(key: int, to: string, imageSrc: string, alt: string, captions: seq<string>)

  /** A rendered section; `cards` is `None` when the card list is not rendered. */
  datatype CardSection = CardSection(header: HeaderView, cards: Option<seq<Card>>)

  /** `image.alternativeText || title`. */
  function ImageAlt(image: Image, title: string): (alt: string)
    ensures NonEmpty(image.alternativeText) ==> alt == image.alternativeText.value
    ensures !NonEmpty(image.alternativeText) ==> alt == title
  {
    StrOr(image.alternativeText, title)
  }

  /** The detail page of an item: the listing path, a slash and the slug. */
  function DetailLink(listing: string, slug: string): (to: string)
    ensures |to| == |listing| + 1 + |slug|
  {
    listing + "/" + slug
  }

  /** The slug is read back from a detail link, so two cards link to the same
      page only when their slugs are equal. */
  lemma DetailLinkReadBack(listing: string, slug: string, other: string)
    ensures DetailLink(listing, slug)[..|listing| + 1] == listing + "/"
    ensures DetailLink(listing, slug)[|listing| + 1..] == slug
    ensures DetailLink(listing, slug) == DetailLink(listing, other) <==> slug == other
  {
    var to := DetailLink(listing, slug);
    assert to[|listing| + 1..] == slug;
    assert to[..|listing| + 1] == listing + "/";
    assert DetailLink(listing, other)[|listing| + 1..] == other;
  }

  /** The header of both sections; a destructuring default replaces only a
      missing value, so an empty heading stays empty. */
  function Header(heading: Option<string>, defaultHeading: string, text: Option<string>,
                  buttonTo: string, buttonText: Option<string>, defaultButton: string): (h: HeaderView)
    ensures h.heading == (if heading.Some? then heading.value else defaultHeading)
    ensures h.buttonCaption == (if buttonText.Some? then buttonText.value else defaultButton)
    ensures h.buttonTo == buttonTo
    ensures h.text.Some? <==> NonEmpty(text)
    ensures h.text.Some? ==> h.text == text
  {
    HeaderView(heading.GetOr(defaultHeading), WhenNonEmpty(text), buttonTo, buttonText.GetOr(defaultButton))
  }
}
