/** The preview path resolver and the preview handler of the CMS admin
    configuration (server/config/admin.ts). */
module PreviewPath {
  import opened Wrappers
  import opened Json
  import opened FormUrlEncoded

  const PageUid := "api::page.page"
  const LandingPageUid := "api::landing-page.landing-page"
  const ArticleUid := "api::article.article"
  const HomepageSlug := "homepage"

  /** The fetched document, of which the resolver reads only `slug`. */
  datatype Document = Document(slug: Option<string>)

  /** `getPreviewPathname`: the in-app path that previews a document of
      content type `uid`, or `None` (`null`) when there is none. Total: an
      unknown content type is not an error. */
  function PreviewPathname(uid: string, locale: Option<string>, document: Document): (r: Option<string>)
    ensures r.Some? ==> |r.value| > 0 && r.value[0] == '/'
  {
    var slug := document.slug;
    if uid == PageUid then
      if slug == Some(HomepageSlug) then
        (if NonEmpty(locale) then Some("/" + locale.value) else Some("/"))
      else
        (if NonEmpty(slug) then Some("/" + slug.value) else None)
    else if uid == LandingPageUid then
      Some("/home")
    else if uid == ArticleUid then
      (if !NonEmpty(slug) then Some("/articles") else Some("/articles/" + slug.value))
    else
      None
  }

  /** Pages: the homepage previews at the locale's root, any other page at its slug. */
  lemma PagePreviewPath(locale: Option<string>, document: Document)
    ensures document.slug == Some(HomepageSlug) && NonEmpty(locale) ==>
      PreviewPathname(PageUid, locale, document) == Some("/" + locale.value)
    ensures document.slug == Some(HomepageSlug) && !NonEmpty(locale) ==>
      PreviewPathname(PageUid, locale, document) == Some("/")
    ensures document.slug != Some(HomepageSlug) ==>
      (PreviewPathname(PageUid, locale, document).Some? <==> NonEmpty(document.slug))
    ensures document.slug != Some(HomepageSlug) && NonEmpty(document.slug) ==>
      PreviewPathname(PageUid, locale, document) == Some("/" + document.slug.value)
  {
  }

  /** The landing page is a single document and always previews at `/home`. */
  lemma LandingPagePreviewPath(locale: Option<string>, document: Document)
    ensures PreviewPathname(LandingPageUid, locale, document) == Some("/home")
  {
  }

  /** Articles preview at their own path, or at the listing when the slug is missing or empty. */
  lemma ArticlePreviewPath(locale: Option<string>, document: Document)
    ensures !NonEmpty(document.slug) ==> PreviewPathname(ArticleUid, locale, document) == Some("/articles")
    ensures NonEmpty(document.slug) ==>
      PreviewPathname(ArticleUid, locale, document) == Some("/articles/" + document.slug.value)
  {
  }

  /** Content types without a rule have no preview. */
  lemma OtherTypesHaveNoPreview(uid: string, locale: Option<string>, document: Document)
    requires uid != PageUid && uid != LandingPageUid && uid != ArticleUid
    ensures PreviewPathname(uid, locale, document) == None
  {
  }

  /** The locale matters only for the homepage. */
  lemma LocaleOnlyAffectsHomepage(uid: string, l1: Option<string>, l2: Option<string>, document: Document)
    requires !(uid == PageUid && document.slug == Some(HomepageSlug))
    ensures PreviewPathname(uid, l1, document) == PreviewPathname(uid, l2, document)
  {
  }

  /** The resolver read as a rule table keyed by content type: a reference
      definition independent of the nested dispatch. */
  datatype Rule =
    | LocalizedHomeOrSlug(homeSlug: string)  // `homeSlug` at the locale root, other slugs under "/"
    | FixedPath(path: string)                 // the same path for every document
    | ListingOrItem(listing: string)          // the listing without a slug, `listing/slug` with one

  const PreviewRules: map<string, Rule> := map[
    PageUid := LocalizedHomeOrSlug(HomepageSlug),
    LandingPageUid := FixedPath("/home"),
    ArticleUid := ListingOrItem("/articles")
  ]

  function ApplyRule(rule: Rule, locale: Option<string>, slug: Option<string>): Option<string> {
    match rule
    case LocalizedHomeOrSlug(home) =>
      if slug == Some(home) then Some("/" + (if NonEmpty(locale) then locale.value else ""))
      else if NonEmpty(slug) then Some("/" + slug.value)
      else None
    case FixedPath(p) => Some(p)
    case ListingOrItem(listing) =>
      if NonEmpty(slug) then Some(listing + "/" + slug.value) else Some(listing)
  }

  /** The dispatch agrees with the rule table on every input, and a type
      without a rule has no preview. */
  lemma PreviewPathnameFollowsRules(uid: string, locale: Option<string>, document: Document)
    ensures uid in PreviewRules ==>
      PreviewPathname(uid, locale, document) == ApplyRule(PreviewRules[uid], locale, document.slug)
    ensures uid !in PreviewRules ==> PreviewPathname(uid, locale, document) == None
  {
    if uid == PageUid && document.slug == Some(HomepageSlug) && !NonEmpty(locale) {
      assert "/" + "" == "/";
    }
    if uid == ArticleUid && NonEmpty(document.slug) {
      assert "/articles" + "/" + document.slug.value == "/articles/" + document.slug.value;
    }
  }

  /** The slug can be read back from the path of an article or of a page other than the homepage. */
  lemma {:induction false} SlugReadBack(uid: string, locale: Option<string>, document: Document)
    requires NonEmpty(document.slug)
    requires uid == ArticleUid || (uid == PageUid && document.slug != Some(HomepageSlug))
    ensures var p := PreviewPathname(uid, locale, document).value;
      var prefix := if uid == ArticleUid then "/articles/" else "/";
      |prefix| <= |p| && p[..|prefix|] == prefix && p[|prefix|..] == document.slug.value
  {
    var s := document.slug.value;
    if uid == ArticleUid {
      assert PreviewPathname(uid, locale, document).value == "/articles/" + s;
      assert ("/articles/" + s)[|"/articles/"|..] == s;
    } else {
      assert PreviewPathname(uid, locale, document).value == "/" + s;
    }
  }

  /** The outcome of the asynchronous preview handler. */
  datatype PreviewOutcome =
    | Rejected              // the document was not found: destructuring `null` throws
    | NoPreview             // the handler returns `null` and preview is disabled
    | Redirect(url: string) // the client URL the editor is sent to

  /** The `status` query value: the requested status, `"draft"` when it is missing or empty. */
  function StatusParam(status: Option<string>): (s: string)
    ensures NonEmpty(status) ==> s == status.value
    ensures !NonEmpty(status) ==> s == "draft"
  {
    StrOr(status, "draft")
  }

  lemma QueryText(e: string)
    ensures "preview" + "=" + "true" + "&" + "status" + "=" + e == "preview=true&status=" + e
  {
  }

  lemma UrlText(origin: string, path: string, e: string)
    ensures origin + path + "?" + ("preview=true&status=" + e) == origin + path + "?preview=true&status=" + e
  {
  }

  /** The query the handler builds, written out. */
  lemma PreviewQuery(st: string)
    ensures Serialize(PreviewParams(st)) == "preview=true&status=" + Encode(st)
  {
    SerializeTwoPlainNames("preview", "true", "status", st);
    QueryText(Encode(st));
  }

  /** The parameters of the preview link, in the order they are written. */
  function PreviewParams(st: string): (ps: seq<(string, string)>)
    ensures Lookup(ps, "preview") == Some("true") && Lookup(ps, "status") == Some(st)
    ensures forall i :: 0 <= i < |ps| ==> ps[i].0 in {"preview", "status"}
  {
    [("preview", "true"), ("status", st)]
  }

  /** `preview.config.handler`, given the document `findOne` returned
      (`None` for `null`) and the configured client origin. */
  function PreviewHandler(clientUrl: string, uid: string, locale: Option<string>, status: Option<string>,
                          document: Option<Document>): (o: PreviewOutcome)
    ensures o.Rejected? <==> document.None?
    ensures o.NoPreview? <==> document.Some? && PreviewPathname(uid, locale, document.value).None?
    ensures o.Redirect? ==>
      o.url == clientUrl + PreviewPathname(uid, locale, document.value).value
               + "?preview=true&status=" + Encode(StatusParam(status))
  {
    match document
    case None => Rejected
    case Some(doc) =>
      var pathname := PreviewPathname(uid, locale, doc);
      if !NonEmpty(pathname) then NoPreview
      else
        PreviewQuery(StatusParam(status));
        UrlText(clientUrl, pathname.value, Encode(StatusParam(status)));
        Redirect(clientUrl + pathname.value + "?" + Serialize(PreviewParams(StatusParam(status))))
  }

  /** For a status that is a plain word the URL carries it verbatim. */
  lemma PreviewUrlWithPlainStatus(clientUrl: string, uid: string, locale: Option<string>, status: Option<string>,
                                  document: Document)
    requires PlainWord(StatusParam(status))
    requires PreviewPathname(uid, locale, document).Some?
    ensures PreviewHandler(clientUrl, uid, locale, status, Some(document)) ==
      Redirect(clientUrl + PreviewPathname(uid, locale, document).value + "?preview=true&status=" + StatusParam(status))
  {
    EncodePlainWord(StatusParam(status));
  }
}
