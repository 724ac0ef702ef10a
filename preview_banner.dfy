/** The banner the client shows in preview mode
    (client/app/components/PreviewBanner.tsx), and the round trip from the
    preview link the CMS builds to the banner computed from that link's query. */
module PreviewBanner {
  import opened Wrappers
  import opened Json
  import opened FormUrlEncoded
  import opened PreviewPath

  /** The text of the banner, or `None` when nothing is rendered; `params`
      are the parsed query parameters of the current location. */
  function Banner(params: seq<(string, string)>): (r: Option<string>)
    ensures r.Some? <==> Lookup(params, "preview") == Some("true")
    ensures r.Some? && NonEmpty(Lookup(params, "status")) ==>
      r.value == "Preview Mode - Viewing " + Lookup(params, "status").value + " version"
    ensures r.Some? && !NonEmpty(Lookup(params, "status")) ==> r.value == "Preview Mode"
  {
    var isPreview := Lookup(params, "preview") == Some("true");
    var status := Lookup(params, "status");
    if !isPreview then None
    else Some("Preview Mode" + (if NonEmpty(status) then " - Viewing " + status.value + " version" else ""))
  }

  /** The parameters the banner reads, in their original order. */
  function Relevant(params: seq<(string, string)>): (r: seq<(string, string)>)
    ensures forall i :: 0 <= i < |r| ==> r[i].0 == "preview" || r[i].0 == "status"
  {
    if params == [] then []
    else if params[0].0 == "preview" || params[0].0 == "status" then [params[0]] + Relevant(params[1..])
    else Relevant(params[1..])
  }

  lemma {:induction false} LookupRelevant(params: seq<(string, string)>, name: string)
    requires name == "preview" || name == "status"
    ensures Lookup(Relevant(params), name) == Lookup(params, name)
  {
    if params != [] {
      LookupRelevant(params[1..], name);
      if params[0].0 == "preview" || params[0].0 == "status" {
        assert ([params[0]] + Relevant(params[1..]))[1..] == Relevant(params[1..]);
      }
    }
  }

  /** Query parameters other than `preview` and `status` have no effect:
      two queries that agree on those two give the same banner. */
  lemma OtherParamsIgnored(p1: seq<(string, string)>, p2: seq<(string, string)>)
    requires Relevant(p1) == Relevant(p2)
    ensures Banner(p1) == Banner(p2)
  {
    LookupRelevant(p1, "preview");
    LookupRelevant(p2, "preview");
    LookupRelevant(p1, "status");
    LookupRelevant(p2, "status");
  }

  predicate OptNoQueryOrFragment(s: Option<string>) {
    s.None? || NoQueryOrFragment(s.value)
  }

  lemma PreviewPathSafe(uid: string, locale: Option<string>, document: Document)
    requires OptNoQueryOrFragment(locale) && OptNoQueryOrFragment(document.slug)
    ensures var p := PreviewPathname(uid, locale, document); p.Some? ==> NoQueryOrFragment(p.value)
  {
    if NonEmpty(locale) { NoQueryOrFragmentConcat("/", locale.value); }
    if NonEmpty(document.slug) {
      NoQueryOrFragmentConcat("/", document.slug.value);
      NoQueryOrFragmentConcat("/articles/", document.slug.value);
    }
  }

  lemma BannerText(e: string)
    ensures "Preview Mode" + (" - Viewing " + e + " version") == "Preview Mode - Viewing " + e + " version"
  {
  }

  lemma ParsePreviewParams(st: string)
    ensures ParseQuery(Serialize(PreviewParams(st))) == [("preview", "true"), ("status", Encode(st))]
  {
    ParseTwoPlainNames("preview", "true", "status", st);
  }

  /** The preview query is parsed back into its two pairs. */
  lemma ParsePreviewQuery(st: string)
    ensures ParseQuery("preview=true&status=" + Encode(st)) == [("preview", "true"), ("status", Encode(st))]
  {
    PreviewQuery(st);
    ParsePreviewParams(st);
  }

  /** A status value without `#` leaves the whole preview query free of it. */
  lemma PreviewQueryHasNoFragment(e: string)
    requires forall i :: 0 <= i < |e| ==> e[i] != '#'
    ensures forall i :: 0 <= i < |"preview=true&status=" + e| ==> ("preview=true&status=" + e)[i] != '#'
  {
    var query := "preview=true&status=" + e;
    forall i | 0 <= i < |query| ensures query[i] != '#' {
      if i >= 20 { assert query[i] == e[i - 20]; }
    }
  }

  /** The banner for the two parsed preview parameters names the status. */
  lemma BannerOfPreviewParams(e: string, params: seq<(string, string)>)
    requires params == [("preview", "true"), ("status", e)] && e != ""
    ensures Banner(params) == Some("Preview Mode - Viewing " + e + " version")
  {
    assert Lookup(params, "preview") == Some("true");
    assert Lookup(params, "status") == Some(e);
    BannerText(e);
  }

  lemma BannerOfParsedQuery(prefix: string, e: string)
    requires NoQueryOrFragment(prefix) && e != ""
    requires forall i :: 0 <= i < |e| ==> e[i] != '#'
    requires ParseQuery("preview=true&status=" + e) == [("preview", "true"), ("status", e)]
    ensures Banner(ParseQuery(SearchOf(prefix + "?" + ("preview=true&status=" + e))))
      == Some("Preview Mode - Viewing " + e + " version")
  {
    var query := "preview=true&status=" + e;
    PreviewQueryHasNoFragment(e);
    SearchOfComposed(prefix, query);
    BannerOfPreviewParams(e, [("preview", "true"), ("status", e)]);
  }

  /** The banner computed from any URL that ends in the preview query. */
  lemma BannerOfPreviewQuery(prefix: string, st: string)
    requires NoQueryOrFragment(prefix) && st != ""
    ensures Banner(ParseQuery(SearchOf(prefix + "?" + ("preview=true&status=" + Encode(st)))))
      == Some("Preview Mode - Viewing " + Encode(st) + " version")
  {
    EncodeFreeOfDelimiters(st);
    EncodeNonEmpty(st);
    ParsePreviewQuery(st);
    BannerOfParsedQuery(prefix, Encode(st));
  }

  /** Round trip: the banner computed from a preview link's query is shown, for every
      status (no status value can hide or override the `preview` flag); for a
      status that is a plain word, the banner names the status the handler
      put in, "draft" when none was requested. */
  lemma PreviewLinkShowsBanner(clientUrl: string, uid: string, locale: Option<string>, status: Option<string>,
                               document: Document)
    requires PreviewPathname(uid, locale, document).Some?
    requires NoQueryOrFragment(clientUrl)
    requires OptNoQueryOrFragment(locale) && OptNoQueryOrFragment(document.slug)
    ensures PreviewHandler(clientUrl, uid, locale, status, Some(document)).Redirect?
    ensures Banner(ParseQuery(SearchOf(PreviewHandler(clientUrl, uid, locale, status, Some(document)).url))).Some?
    ensures PlainWord(StatusParam(status)) ==>
      Banner(ParseQuery(SearchOf(PreviewHandler(clientUrl, uid, locale, status, Some(document)).url)))
        == Some("Preview Mode - Viewing " + StatusParam(status) + " version")
  {
    var st := StatusParam(status);
    var p := PreviewPathname(uid, locale, document).value;
    var url := PreviewHandler(clientUrl, uid, locale, status, Some(document)).url;
    UrlText(clientUrl, p, Encode(st));
    assert url == (clientUrl + p) + "?" + ("preview=true&status=" + Encode(st));
    PreviewPathSafe(uid, locale, document);
    NoQueryOrFragmentConcat(clientUrl, p);
    BannerOfPreviewQuery(clientUrl + p, st);
    if PlainWord(st) {
      EncodePlainWord(st);
    }
  }

  lemma ArticleUrlText(clientUrl: string, before: string, after: string, e: string)
    ensures clientUrl + ("/articles/" + (before + "#" + after)) + "?preview=true&status=" + e
      == (clientUrl + "/articles/" + before) + "#" + (after + "?preview=true&status=" + e)
  {
  }

  /** The handler puts the slug into the path unescaped: an article whose slug
      holds a `#` gets a link whose preview query lies inside the fragment,
      so the banner computed from the link's query is `None`. */
  lemma FragmentInSlugHidesBanner(clientUrl: string, locale: Option<string>, status: Option<string>,
                                  before: string, after: string)
    requires NoQueryOrFragment(clientUrl) && NoQueryOrFragment(before)
    ensures var o := PreviewHandler(clientUrl, ArticleUid, locale, status, Some(Document(Some(before + "#" + after))));
      o.Redirect? && Banner(ParseQuery(SearchOf(o.url))).None?
  {
    var slug := before + "#" + after;
    var o := PreviewHandler(clientUrl, ArticleUid, locale, status, Some(Document(Some(slug))));
    var e := Encode(StatusParam(status));
    assert slug[|before|] == '#';
    assert PreviewPathname(ArticleUid, locale, Document(Some(slug))) == Some("/articles/" + slug);
    var prefix, rest := clientUrl + "/articles/" + before, after + "?preview=true&status=" + e;
    ArticleUrlText(clientUrl, before, after, e);
    assert o.url == prefix + "#" + rest;
    NoQueryOrFragmentConcat(clientUrl, "/articles/");
    NoQueryOrFragmentConcat(clientUrl + "/articles/", before);
    SearchOfFragmentFirst(prefix, rest);
    assert ParseQuery(SearchOf(o.url)) == [];
  }
}
