# ADC website: a verified model of its content rules

The ADC marketing site has two halves: a Strapi CMS server, and a React Router client that renders the pages the CMS describes.
This project models the small, self-contained rules inside that site and proves their properties in Dafny.

- **Preview links.**
  - The CMS admin's preview resolver maps a content type, a locale and a document to an in-app path.
  - The preview handler turns that path into a client URL carrying `preview=true&status=…`.
  - The client's preview banner reads the URL back.
- **The block pipeline.**
  - The landing-page controller attaches the published industries and cases to the blocks that show them.
  - The client's block renderer dispatches each block on its `__component` discriminant.
  - The landing route derives a "hide the navigation menu" flag from the blocks.
  - A maintenance script adds or overwrites the page's hero block.
- **Navigation data.**
  - The layout loader turns the CMS header into menu items and a logo, with fallbacks.
  - The mobile menu is an open/closed state machine with a body-scroll lock.
- **Block view models.** Hero, statistics, industries, featured cases and the client-logo strip, each a function from props to an abstract view record: which parts appear, the ordered children, link targets and alt texts.

Modules, one per source file (plus shared ones):

| module | models |
|---|---|
| `Wrappers`, `Json` | optional values, JSON values, JavaScript truthiness, spread |
| `FormUrlEncoded` | the `application/x-www-form-urlencoded` serializer of the WHATWG URL Standard (section 5.2), and query splitting |
| `PreviewPath`, `PreviewBanner` | `server/config/admin.ts`, `client/app/components/PreviewBanner.tsx` |
| `Navigation` | `client/app/types/navigation.ts` and the menu-link rule shared by the hero and the mobile menu |
| `BlockRenderer` | `client/app/components/blocks/BlockRenderer.tsx` |
| `LandingPage` | `server/src/api/landing-page/controllers/landing-page.ts` |
| `HeroUpsert` | `add-hero-content.mjs` |
| `LayoutLoader` | `client/app/routes/_layout.tsx` |
| `IndexRoute` | `client/app/routes/_layout._index.tsx` |
| `Hero`, `Stats`, `Industries`, `FeaturedCases`, `ClientLogos`, `Cards` | the block components of the same names; `Cards` holds what industries and featured cases share |
| `MobileNav` | `client/app/components/layout/MobileNav.tsx` |

How the source's shapes carry over:
- Blocks and responses travel as untyped JSON, so they are JSON objects (`map<string, Json>`) here.
- A property read, `===` on a string literal, truthiness and `{...a, ...b}` are each written out, in `Json`.
- The components' typed props become datatypes with `Option` fields for the optional ones.
- Stateful code becomes classes and methods:
  - the controller's in-place overwrite of `response.data.blocks`;
  - the script's copy-then-assign of the blocks array;
  - the route's effect and cleanup on the layout's flag;
  - the mobile menu's state.

Three behaviours of the code deserve a note:
- `BlockRenderer` has no case for `blocks.stats`, although the populate middleware requests that kind.
  `BlockRenderer.HeroUnknownStats` proves that a hero, an unknown block and a statistics block render as the hero alone.
- The landing route computes a hide flag for the navigation menu, but no component reads it (see "Left out").
- The preview handler interpolates the slug into the path unescaped.
  An article slug holding a `#` moves the preview query into the fragment, so the banner `PreviewBanner` computes from that link's query is `None`.
  `PreviewBanner.FragmentInSlugHidesBanner` proves this.
  The round trip `PreviewBanner.PreviewLinkShowsBanner` therefore assumes an origin, locale and slug without `?` or `#`.

## Model

| member | source | states |
|---|---|---|
| `PreviewPath.PreviewPathname` | server/config/admin.ts:2-33 | the resolver is total, and every path it returns is non-empty and starts with `/` |
| `PreviewPath.PagePreviewPath` | server/config/admin.ts:8-14 | the `homepage` slug gives `/` + locale (just `/` without a locale); any other slug gives `/` + slug, and no preview when the slug is missing or empty |
| `PreviewPath.LandingPagePreviewPath` | server/config/admin.ts:17-19 | the landing page always previews at `/home` |
| `PreviewPath.ArticlePreviewPath` | server/config/admin.ts:22-27 | an article previews at `/articles/` + slug, or at `/articles` without a slug |
| `PreviewPath.OtherTypesHaveNoPreview` | server/config/admin.ts:29-31 | any other content type has no preview |
| `PreviewPath.LocaleOnlyAffectsHomepage` | server/config/admin.ts:6-32 | outside the homepage, two locales give the same result |
| `PreviewPath.PreviewPathnameFollowsRules` | server/config/admin.ts:6-32 | the nested dispatch agrees everywhere with an independent table of rules, one per content type |
| `PreviewPath.SlugReadBack` | server/config/admin.ts:12-27 | for articles and ordinary pages, the slug is exactly what follows the path's fixed prefix |
| `PreviewPath.StatusParam` | server/config/admin.ts:70 | the status is the requested one, or `draft` when it is missing or empty |
| `PreviewPath.PreviewParams` | server/config/admin.ts:68-71 | the link's parameters read back `preview` as `true` and `status` as the status, and hold no other name |
| `PreviewPath.PreviewHandler` | server/config/admin.ts:55-74 | a missing document rejects; no path means no preview, and the converse; otherwise the URL is the origin, the path, then `?preview=true&status=` and the encoded status |
| `PreviewPath.PreviewUrlWithPlainStatus` | server/config/admin.ts:68-73 | a status made of unreserved characters appears in the URL verbatim |
| `FormUrlEncoded.EncodePlainWord` | server/config/admin.ts:68-71 | the serializer leaves a value of unreserved characters unchanged |
| `FormUrlEncoded.EncodeFreeOfDelimiters` | server/config/admin.ts:68-71 | no encoded value contains `&`, `=`, `?` or `#` |
| `FormUrlEncoded.ParseSerialize` | server/config/admin.ts:68-73 | splitting a serialized query on `&` and `=` returns every pair, in order, as encoded |
| `FormUrlEncoded.Encode` | server/config/admin.ts:68-71 | a name or value of n code points serializes to between n and 12n characters |
| `FormUrlEncoded.EncodeConcat` | server/config/admin.ts:68-71 | the serialization works code point by code point: that of a concatenation is the concatenation of the serializations |
| `FormUrlEncoded.EncodeChar` | server/config/admin.ts:68-71 | an unreserved code point stays itself, a space becomes `+`, and any other becomes the `%XX` escapes of its UTF-8 bytes; 1 to 12 characters in all |
| `FormUrlEncoded.Utf8` | server/config/admin.ts:68-71 | one byte below U+0080 (the code point itself), two below U+0800, three below U+10000, else four; the lead byte marks the length and the others are continuation bytes 0x80-0xBF |
| `FormUrlEncoded.Utf8RoundTrip` | server/config/admin.ts:68-71 | the UTF-8 bytes give the code point back |
| `FormUrlEncoded.Escape` | server/config/admin.ts:68-71 | a byte becomes `%`, then its high and its low hexadecimal digit, upper case |
| `FormUrlEncoded.PercentBytes` | server/config/admin.ts:68-71 | three characters per byte, the i-th triple being the escape of the i-th byte, and no delimiter among them |
| `FormUrlEncoded.Serialize` | server/config/admin.ts:73 | the serialized parameters hold no `?` and no `#`, whatever the values, so they can follow the path's `?` as one query |
| `FormUrlEncoded.SplitPair` | client/app/components/PreviewBanner.tsx:9 | a piece is cut at its first `=`: the name holds no `=`, name `=` value is the piece again, and a piece without `=` is a name with an empty value |
| `FormUrlEncoded.ParseQuery` | client/app/components/PreviewBanner.tsx:9 | a query yields at most one pair per character; no name or value holds `&` and no name holds `=` |
| `FormUrlEncoded.SearchOf` | client/app/components/PreviewBanner.tsx:9 | the query is what lies between the first `?` and the first `#`, empty when no `?` precedes the fragment; it never holds `#` |
| `FormUrlEncoded.SearchOfFragmentFirst` | client/app/components/PreviewBanner.tsx:9 | a `#` before any `?` leaves the URL with an empty query |
| `FormUrlEncoded.Lookup` | client/app/components/PreviewBanner.tsx:10-11 | a parameter is found exactly when some pair has that name, and its value is that of the first such pair |
| `FormUrlEncoded.SearchOfComposed` | client/app/components/PreviewBanner.tsx:9 | the query read from `prefix?query` is `query` when the prefix has no `?` or `#` and the query no `#` |
| `PreviewBanner.Banner` | client/app/components/PreviewBanner.tsx:8-22 | shown exactly when `preview` is `true`; the text is `Preview Mode` with ` - Viewing <status> version` exactly when the status is present and non-empty |
| `PreviewBanner.OtherParamsIgnored` | client/app/components/PreviewBanner.tsx:9-11 | two queries that agree on `preview` and `status` give the same banner |
| `PreviewBanner.ParsePreviewQuery` | client/app/components/PreviewBanner.tsx:9-11 | the handler's query parses back into its two pairs |
| `PreviewBanner.BannerOfPreviewQuery` | client/app/components/PreviewBanner.tsx:9-20 | for any URL ending in the handler's query, the banner `PreviewBanner` computes from the URL's query is shown and names the encoded status |
| `PreviewBanner.PreviewLinkShowsBanner` | client/app/components/PreviewBanner.tsx:10-20 | round trip: when the client origin, the locale and the slug hold no `?` or `#`, the banner `PreviewBanner` computes from the query of every link the handler makes is shown; for a plain-word status it names the status the handler put in (`draft` by default) |
| `PreviewBanner.FragmentInSlugHidesBanner` | server/config/admin.ts:26 | for an article whose slug holds a `#`, the banner `PreviewBanner` computes from the preview link's query is `None`, since the unescaped slug puts the query inside the fragment |
| `Navigation.MenuLinkOf` | client/app/components/blocks/Hero.tsx:47-63 | an external item becomes an anchor to its url with target `_blank` and rel `noopener noreferrer`; any other item becomes a router link to its url; both are keyed by id and show the label |
| `Navigation.MenuLinks` | client/app/components/layout/MobileNav.tsx:149-183 | one link per menu item, in order |
| `BlockRenderer.ComponentOfDiscriminant` | client/app/components/blocks/BlockRenderer.tsx:26-40 | each of the six non-hero discriminants selects its own component and no other |
| `BlockRenderer.RenderBlock` | client/app/components/blocks/BlockRenderer.tsx:25-44 | a node exactly for the seven handled discriminants, of that discriminant's component; it is keyed by the block's `id` and carries the block's fields, and only the hero receives `menuItems` |
| `BlockRenderer.UnhandledKindsRenderNothing` | client/app/components/blocks/BlockRenderer.tsx:26-43 | statistics, industries, client-logo and featured-cases blocks render `null` |
| `BlockRenderer.Render` | client/app/components/blocks/BlockRenderer.tsx:46 | one slot per block, in order |
| `BlockRenderer.PresentIsRecognised` | client/app/components/blocks/BlockRenderer.tsx:41-46 | dropping the `null` slots leaves one node per recognised block, in input order, each the element `renderBlock` makes for that block (component, props, key and, for the hero, the menu) |
| `BlockRenderer.NothingRecognisedNothingShown` | client/app/components/blocks/BlockRenderer.tsx:41-46 | a list of only unknown blocks, or an empty list, shows nothing |
| `BlockRenderer.HeroUnknownStats` | client/app/components/blocks/BlockRenderer.tsx:26-46 | hero, unknown and statistics blocks render as the hero node alone |
| `LandingPage.ListOr` | server/src/api/landing-page/controllers/landing-page.ts:29-35 | the injected value is always a (truthy) array: the fetched list, or `[]` when the fetch gave `null` |
| `LandingPage.InjectBlock` | server/src/api/landing-page/controllers/landing-page.ts:26-38 | an industries block gains `industries` = the fetched list (or `[]`), a featured-cases block gains `cases`, other fields are kept, and every other block is returned unchanged |
| `LandingPage.InjectBlockIdempotent` | server/src/api/landing-page/controllers/landing-page.ts:26-38 | injecting twice with the same lists equals injecting once |
| `LandingPage.InjectBlocks` | server/src/api/landing-page/controllers/landing-page.ts:25-39 | same length and order, block by block |
| `LandingPage.InjectBlocksIdempotent` | server/src/api/landing-page/controllers/landing-page.ts:25-39 | the mapped list is a fixed point of the map |
| `LandingPage.InjectData` | server/src/api/landing-page/controllers/landing-page.ts:24-40 | without data or without blocks the response data are untouched; otherwise only `blocks` changes, to the injected list |
| `LandingPage.Response.InjectRelations` | server/src/api/landing-page/controllers/landing-page.ts:24-42 | the in-place update leaves `data` equal to the injected data |
| `LandingPage.InjectDataIdempotent` | server/src/api/landing-page/controllers/landing-page.ts:24-40 | running the injection on its own result changes nothing |
| `HeroUpsert.FindHeroIndex` | add-hero-content.mjs:61-63 | the index of the first hero, or -1 exactly when there is none |
| `HeroUpsert.MergeHero` | add-hero-content.mjs:69-72 | the merged block has the keys of both; the script's fields win and fields only on the old block (such as `id`) are kept |
| `HeroUpsert.UpsertHeroBlocks` | add-hero-content.mjs:58-76 | without a hero, the hero comes first and the old list follows; otherwise only the first hero changes, to the merge, and everything else, later heroes included, stays in place |
| `HeroUpsert.MergeCarriesScriptHero` | add-hero-content.mjs:40-55 | the script's hero, and every merge with it, is a hero block with the script's heading, its menu flag set and its call to action |
| `HeroUpsert.UpsertLeavesHero` | add-hero-content.mjs:40-76 | afterwards the first hero carries the script's heading, menu flag and call to action |
| `HeroUpsert.MissingBlocksGiveHero` | add-hero-content.mjs:58-75 | a page without blocks gets exactly the hero |
| `HeroUpsert.UpsertIdempotent` | add-hero-content.mjs:61-76 | running the script's list logic on its own output changes nothing |
| `HeroUpsert.UpsertHero` | add-hero-content.mjs:65-76 | on arrays: a fresh array holding the upserted list, the existing array (`null` reads as empty) left unmodified |
| `LayoutLoader.MenuItemOf` | client/app/routes/_layout.tsx:31-37 | id and label are copied, url comes from `href`, order is (index + 1) × 10, and the item is external only when `isExternal` is true |
| `LayoutLoader.MenuItemsOf` | client/app/routes/_layout.tsx:31-37 | one menu item per nav link, in order |
| `LayoutLoader.MenuOrdersIncrease` | client/app/routes/_layout.tsx:35 | orders are positive multiples of ten and strictly increasing |
| `LayoutLoader.LogoOf` | client/app/routes/_layout.tsx:40-45 | label falls back to `ADC` and href to `/`; the image url is the media origin + url when present; alt falls back from the image's alternative text to the label to `Logo`; none of label, href or alt is ever empty |
| `LayoutLoader.Fallback` | client/app/routes/_layout.tsx:52-65 | empty menu and the fixed logo `ADC`, `/`, no image, alt `ADC` |
| `LayoutLoader.NavItemsOf` | client/app/routes/_layout.tsx:25 | the header's nav links when data, header and links are all present, otherwise no links |
| `LayoutLoader.LogoDataOf` | client/app/routes/_layout.tsx:26 | the header's logo data exactly when data, header and logo are all present |
| `LayoutLoader.Loader` | client/app/routes/_layout.tsx:14-66 | a failed load gives the fallback; a successful one gives the mapped nav links and the logo `LogoOf` builds from the header's logo data |
| `LayoutLoader.MissingHeaderGivesEmptyMenu` | client/app/routes/_layout.tsx:25-26 | a missing header gives an empty menu and the default logo, whose alt text (`Logo`) differs from the error fallback's (`ADC`) |
| `LayoutLoader.HeaderWithoutLinksGivesEmptyMenu` | client/app/routes/_layout.tsx:25-26 | a header without links gives an empty menu and the logo built from its own logo data |
| `IndexRoute.HeroWithMenuItems` | client/app/routes/_layout._index.tsx:36 | a block that is not a hero never counts; a hero counts with the flag `true`, and no block counts with the flag absent, `null` or `false` |
| `IndexRoute.HasHeroWithMenuItems` | client/app/routes/_layout._index.tsx:35-37 | true exactly when some block is a hero with a truthy `showMenuItemsInHero` |
| `IndexRoute.FlagIgnoresOrder` | client/app/routes/_layout._index.tsx:35-37 | any permutation of the blocks gives the same flag |
| `IndexRoute.IndexLoader` | client/app/routes/_layout._index.tsx:9-15 | a 404 exactly when the response has no truthy `data`; otherwise the data |
| `IndexRoute.LayoutContext.RunEffect` | client/app/routes/_layout._index.tsx:39-41 | with a setter, the layout's flag becomes the computed flag; without one, nothing changes |
| `IndexRoute.LayoutContext.Cleanup` | client/app/routes/_layout._index.tsx:44-48 | with a setter the flag is reset to false; without one nothing changes |
| `IndexRoute.HeroJson` | client/app/components/blocks/BlockRenderer.tsx:28 | the hero block as the CMS sends it: a `blocks.hero` discriminant, and a `showMenuItemsInHero` field exactly when the flag is set, holding it |
| `IndexRoute.UnsetFlagShowsMenuWithoutHiding` | client/app/routes/_layout._index.tsx:36 | with a non-empty menu, a hero whose flag is unset shows its inline menu but does not set the hide flag; this is the only case where the two disagree |
| `Hero.ShowMenuItems` | client/app/components/blocks/Hero.tsx:23 | the menu flag defaults to true: it is false only when set to false |
| `Hero.CtaViews` | client/app/components/blocks/Hero.tsx:71 | one button per call to action, in order |
| `Hero.CtaOf` | client/app/components/blocks/Hero.tsx:71-80 | a button links to its `href`, shows its label and gets target `_blank` and rel `noopener noreferrer` exactly when external |
| `Hero.RenderHero` | client/app/components/blocks/Hero.tsx:22-87 | the heading always shows; the subtitle shows exactly when non-empty; the inline menu shows exactly when the flag is not false and the menu is non-empty, with one link per item; the CTA group shows exactly when there are buttons, one per button in order |
| `Hero.InlineMenuDefaults` | client/app/components/blocks/Hero.tsx:23-45 | with the flag and the menu unset there is no inline menu; a non-empty menu with the flag unset shows every item, linking to its url |
| `Stats.RenderStats` | client/app/components/blocks/Stats.tsx:17-87 | the heading always shows; the text shows when non-empty; the grid shows when there are stats, one cell per stat in order; the link shows when both its text and its target are non-empty, and it leads to the target |
| `Stats.StatCellOf` | client/app/components/blocks/Stats.tsx:58-70 | a cell shows the number, then the label, keyed by id |
| `Stats.GridKeepsFigures` | client/app/components/blocks/Stats.tsx:58-70 | the cells' first lines are the stats' numbers, in order |
| `Cards.ImageAlt` | client/app/components/blocks/Industries.tsx:61 | alt is the image's alternative text when non-empty, otherwise the title |
| `Cards.Header` | client/app/components/blocks/Industries.tsx:21-46 | the defaults apply only to missing values; the text shows when non-empty; the button always leads to the fixed listing |
| `Cards.DetailLinkReadBack` | client/app/components/blocks/Industries.tsx:54 | a detail link is the listing, `/`, then the slug; two such links are equal exactly when their slugs are |
| `Industries.IndustryCard` | client/app/components/blocks/Industries.tsx:51-74 | a card is keyed by id, leads to `/industries/` + slug, shows the title, and takes its alt from the image's alternative text or else the title |
| `Industries.RenderIndustries` | client/app/components/blocks/Industries.tsx:21-81 | defaults `Industries` and `See all industries`; the button leads to `/industries`; the grid shows only for a non-empty list, with one card per industry in order |
| `Industries.IndustryLinksDistinguishSlugs` | client/app/components/blocks/Industries.tsx:54 | each card's slug can be read back from its link, and two cards share a link only when their slugs are equal |
| `FeaturedCases.CaseCard` | client/app/components/blocks/FeaturedCases.tsx:55-81 | a card is keyed by id, leads to `/cases/` + slug, shows the category then the title, and takes its alt from the image's alternative text or else the title |
| `FeaturedCases.RenderFeaturedCases` | client/app/components/blocks/FeaturedCases.tsx:23-90 | defaults `Featured cases` and `See all cases`; the button leads to `/cases`; the list shows only for a non-empty list, with one card per case in order |
| `FeaturedCases.CaseLinksDistinguishSlugs` | client/app/components/blocks/FeaturedCases.tsx:58 | each card's slug can be read back from its link, and two cards share a link only when their slugs are equal |
| `ClientLogos.Tripled` | client/app/components/blocks/ClientLogos.tsx:18 | the track has 3n entries, and entry i is logo i mod n |
| `ClientLogos.IntToString` | client/app/components/blocks/ClientLogos.tsx:35 | an id prints as decimal digits, with a leading `-` exactly when negative |
| `ClientLogos.TileKey` | client/app/components/blocks/ClientLogos.tsx:35 | a key is the printed id, a dash, then the printed index, and nothing after the id's end is a dash |
| `ClientLogos.TileOf` | client/app/components/blocks/ClientLogos.tsx:33-44 | a tile's key is `<id>-<index>`; its alt is the alternative text when non-empty, otherwise `Client logo` |
| `ClientLogos.RenderClientLogos` | client/app/components/blocks/ClientLogos.tsx:14-50 | nothing renders exactly when the logos are missing or empty; the heading shows when non-empty; the track is the tripled list, tile by tile |
| `ClientLogos.NatToStringInjective` | client/app/components/blocks/ClientLogos.tsx:35 | different indices print differently |
| `ClientLogos.TileKeysDistinct` | client/app/components/blocks/ClientLogos.tsx:35 | keys at different positions differ whatever the ids, since the dash-free index follows the last dash |
| `ClientLogos.TrackKeysUnique` | client/app/components/blocks/ClientLogos.tsx:33-35 | all keys on the track are pairwise distinct, although every id occurs three times |
| `MobileNav.BgClass` | client/app/components/layout/MobileNav.tsx:49-53 | every variant has a `bg-` class, and `bg-white` belongs to the default variant alone |
| `MobileNav.TextClass` | client/app/components/layout/MobileNav.tsx:55-59 | every variant has a `text-` class, and `text-black` belongs to the default variant alone |
| `MobileNav.VariantTables` | client/app/components/layout/MobileNav.tsx:50-60 | the background table is one-to-one over the three variants; dark and transparent share `text-white`, which default does not use |
| `MobileNav.OverflowFor` | client/app/components/layout/MobileNav.tsx:37-42 | overflow is `hidden` exactly when open, and empty exactly when closed |
| `MobileNav.LogoContentOf` | client/app/components/layout/MobileNav.tsx:74-82 | the logo shows its image (with its alt text) exactly when it has an image url, and otherwise its label |
| `MobileNav.MobileNavState.constructor` | client/app/components/layout/MobileNav.tsx:22 | the menu starts closed, with the body scrollable |
| `MobileNav.MobileNavState.Render` | client/app/components/layout/MobileNav.tsx:62-189 | `aria-expanded` mirrors the state; the overlay with one link per menu item is rendered exactly when open; the bar and the panel use the variant's background and text classes, the logo's href and the logo's content |
| `MobileNav.MobileNavState.SyncOverflow` | client/app/components/layout/MobileNav.tsx:37-43 | the effect sets the body's overflow to match the menu's state, restoring the invariant, and leaves the state itself alone |
| `MobileNav.MobileNavState.ClickHamburger` | client/app/components/layout/MobileNav.tsx:86-87 | the hamburger opens the menu, also when it is already open, and locks the body's scroll |
| `MobileNav.MobileNavState.ClickToClose` | client/app/components/layout/MobileNav.tsx:104-170 | the backdrop, the panel logo, the close button and every menu link close the menu and release the scroll lock |
| `MobileNav.MobileNavState.KeyDown` | client/app/components/layout/MobileNav.tsx:25-34 | Escape closes an open menu; any other key, or Escape on a closed menu, changes nothing |
| `MobileNav.MobileNavState.Unmount` | client/app/components/layout/MobileNav.tsx:44-46 | unmounting clears the overflow style |

## Left out

- Network and CMS I/O are parameters of the model, not modelled calls:
  - the preview handler's `findOne`;
  - the controller's `super.find` and `findMany`;
  - the layout loader's `fetch`, and its `console.log` and `console.error` output;
  - the hero script's GET and PUT, plus `process.exit` and logging;
  - `getLandingPage`.
- Which route a preview link reaches, and whether that route mounts `PreviewBanner`, is not modelled. The lemmas about preview links state the banner `PreviewBanner` computes from the link's query, not what a given page shows.
- `handleApiError` in the landing route is not part of this model: the loader modelled is the 404 rule alone.
- `getStrapiMedia` is an opaque function parameter: its code is not part of this model.
- `STRAPI_URL` and `CLIENT_URL` are parameters too, because they come from the process environment.
- Percent-decoding on the client is not modelled: the query is split on `&` and the first `=`.
  - As a result, the banner round trip names the encoded status.
  - It names the status itself only for plain-word statuses (`draft`, `published`).
- The serializer works on Unicode scalar values, which is what a Dafny `char` is. JavaScript strings can also hold lone surrogates, which `URLSearchParams` replaces with U+FFFD; the model has no such strings.
- JSON numbers are integers: there is no floating point.
- Values outside the source's declared types are not modelled:
  - the typed props of the view components, and the header data of the layout loader;
  - a `blocks` field that is truthy but not an array of objects. The controller's `WellShaped` precondition, and the hero script's array of objects, stand for Strapi's contract;
  - a `null` entry in a block list, on which `block.__component` would throw.
- `Hero` takes the hero's own fields as a typed record.
  - The hand-off from the renderer's JSON props (`BlockRenderer.HeroNode`) to `Hero.RenderHero` is not modelled. `IndexRoute.HeroJson` goes the other way, from the record to JSON, and serves only the lemma comparing the hero's default with the hide flag.
  - The background image is destructured but never rendered, so it is not part of the record.
- The navigation bar's actual suppression is not in the model, because the code has none:
  - the layout renders its `Outlet` without a context;
  - `Navigation` takes no hide prop.
  - The model states only how the flag is computed and when the setter is called.
- React specifics are abstracted to view records: scheduling of effects and renders, listener registration, animation, and every CSS class other than the variant tables.
- `MobileNav.MobileNavState.SyncOverflow` applies the overflow effect directly after each state change, instead of after React's commit.
- `IndexRoute.LayoutContext.RunEffect`: React reruns the effect only when its dependencies change. The model treats every run alike.
- The layout renders `<Outlet />` without a context (client/app/routes/_layout.tsx:82), and the route destructures `useOutletContext()` (client/app/routes/_layout._index.tsx:31). Under React Router that context would be undefined and the destructuring would throw during render, so the effect might never be reached. This rests on the library's behaviour, which is not part of this model, and has not been confirmed. The model's effect, both with and without a setter, describes the code as if a context object were present.
- Determinism ("identical inputs give identical output") holds of every Dafny function by construction, so no lemma states it.
- Out of the model's scope:
  - the seed scripts, the populate middleware and the route tables;
  - the admin theme and the logo conversion script;
  - `DesktopNav` and `Navigation`, a styling table and a wrapper.
