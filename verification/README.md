# Static-site generator core, modelled in Dafny

The generator turns a set of HTML partials and subforum descriptions into a
static site. For each subforum it:

- loads JSON post records from one or more data sources and gives each record
  defaults;
- overlays metadata records onto the posts, matched by title;
- builds inverted indexes from tag to posts and from developer name to posts;
- cuts every list into pages of ten with previous / numbered / next navigation;
- writes alias pages per tag and per developer under `vn/{type}/{slug}[-n].html`;
- derives output paths, canonical URLs, RSS links and per-template JSON records
  from the posts' `link` fields;
- wraps every page in the `base` partial by placeholder substitution.

There are three generations of `createFullPage`:

- global regex replacement, with optional partials defaulting to `''`;
- first-occurrence replacement of seven placeholders, with title and canonical
  defaults;
- first-occurrence replacement of five placeholders.

The model is functional. JavaScript values form a datatype (`JsValues.Value`).
A post is a `map<string, Value>`. Objects whose key order matters (the
metadata declaration and the tag/developer indexes) are sequences. File and
network reads, JSON parsing, the link builder of a template and the slug
generator are function parameters. Errors the JavaScript would throw are
`Err` values of `JsValues.Error`.

Modules, one per file:

- `Wrappers`: `Option` and `Result`.
- `JsValues`: values, truthiness, `||`, property reads, spreads, strict
  equality, string conversion, and the property names every object inherits.
- `Text`: `indexOf`, `String.replace` with a string pattern (first occurrence),
  global replacement proved equal to split-then-join, and the one-slash strip.
- `Assembly`: the three `createFullPage` variants, `index.html` and `404.html`,
  and article processing of the oldest generator.
- `Posts`: record normalisation, source loading and flattening,
  `mergeMetadata`, and the sequential metadata merge of `loadSubforumData`.
- `TagIndex`: the `allTags` and `allDevelopers` indexes.
- `Pagination`: page count, page slices, page URLs and the navigation block.
- `Links`: output paths, canonical and RSS URLs, post-page fallbacks, template
  resolution, and the older generator's URLs.
- `SubforumPages`: a subforum's listing pages.
- `AliasPages`: tag and developer pages, the slug memo and the per-type
  listing.
- `JsonProjection`: the four `generateJSON` projections.

## Model

| member | source | states |
|---|---|---|
| JsValues.Or | old/ssg1603.js:102-107 | `a \|\| b` is one of its operands, the left one exactly when it is truthy, and it is truthy exactly when either operand is |
| JsValues.OrAssociative | old/ssg1603.js:102-107 | `(a \|\| b) \|\| c` and `a \|\| (b \|\| c)` pick the same operand |
| JsValues.Spread | old/ssg1603.js:72-75 | spreading an object copies its own fields; spreading a value that is not an object, array or string copies nothing |
| JsValues.SpreadIndexed | old/ssg1603.js:72-75 | spreading an array or a string copies exactly its elements (characters) under their canonical decimal indexes `"0"`, `"1"`, … and nothing else |
| JsValues.NatToStringRoundTrip | old/ssg1603.js:236 | the decimal rendering of a page number reads back as that number |
| JsValues.NatToStringInjective | old/ssg1603.js:236 | different page numbers render differently |
| Text.IndexOf | old/ssg2.js:56-63 | the result is the leftmost occurrence of the pattern, or none when it occurs nowhere |
| Text.ReplaceFirst | old/ssg2.js:56-63 | only the leftmost occurrence is replaced; text without the pattern is unchanged |
| Text.ReplaceAllIsSplitJoin | ssg.js:54-68 | global replacement keeps every piece between occurrences and turns every occurrence into the replacement |
| Text.SplitJoinRoundTrip | ssg.js:54-68 | splitting on a separator and joining with it gives back the text |
| Text.SplitPiecesAbsent | ssg.js:54-68 | no piece of a split holds the separator |
| Text.ReplaceAllAbsent | ssg.js:54-68 | text without the pattern passes through global replacement unchanged |
| Text.ReplaceAllSelf | ssg.js:54-68 | replacing a pattern by itself everywhere is the identity |
| Text.ReplaceAllDollarFree | ssg.js:54-68 | replacement inputs without `$` give output without `$`, so chained steps stay literal |
| Text.StripSlash | ssg.js:222-227 | the result is the link itself, or the link minus exactly one leading slash |
| Assembly.SubstituteAllNoMarkers | ssg.js:61-68 | a template holding none of the markers passes through global substitution unchanged |
| Assembly.SubstituteFirstNoMarkers | old/ssg2.js:56-63 | a template holding none of the markers passes through first-occurrence substitution unchanged |
| Assembly.CreateFullPage | ssg.js:52-69 | page assembly succeeds exactly when the `base` partial exists |
| Assembly.BaseWithoutMarkersVerbatim | ssg.js:61-68 | a base without the seven markers comes back verbatim |
| Assembly.MissingPartialIsEmpty | ssg.js:54-66 | a missing head, header, footer or aside partial assembles exactly like an empty one |
| Assembly.SameReadPartialsSamePage | old/ssg1603.js:130-147 | the page depends only on the partials it reads |
| Assembly.DefaultParameters | ssg.js:52 | omitted arguments act as canonical `''`, title `'Default Title'`, description `''`, image `''` |
| Assembly.DescriptionOnlyInHead | ssg.js:54-58 | without a `{{head}}` marker in base, description and image do not influence the page |
| Assembly.DescriptionMarkerSurvivesInBase | ssg.js:61-68 | a base whose only marker is `{{description}}` or `{{image}}` comes back with it |
| Assembly.DescriptionMarkerSurvivesHead | ssg.js:54-68 | with `{{head}}` in front of it, the head partial fills that marker and a later `{{description}}` or `{{image}}` in base is left in the page |
| Assembly.MainContentIsResubstituted | ssg.js:64-68 | a `{{title}}` inside the main content is filled by the later title step |
| Assembly.CreateFullPageFirst | old/ssg2.js:53-67 | first-occurrence assembly succeeds exactly when the `base` partial exists |
| Assembly.MissingPartialIsUndefinedText | old/ssg2.js:57-61 | a missing partial is inserted as the text `undefined` |
| Assembly.FalsyArgumentsDefault | old/ssg2.js:62-63 | any falsy canonical URL or title assembles as `''` and `'Default Title'` |
| Assembly.HeadTitleConsumedFirst | old/ssg2.js:56-63 | a `{{title}}` in the inserted head is the one filled, and the base's own marker survives |
| Assembly.CreateFullPageFive | old/ssg.js:52-64 | five-marker assembly succeeds exactly when the `base` partial exists |
| Assembly.FiveWithoutMarkersVerbatim | old/ssg.js:55-60 | a base without the five markers is written verbatim |
| Assembly.TitleAndCanonicalPassThrough | old/ssg.js:52-60 | a base holding only `{{title}}` and `{{canonicalUrl}}` comes back with both |
| Assembly.TitleAndCanonicalSurviveHead | old/ssg.js:52-60 | with `{{head}}` in front, the head partial fills it and the later `{{title}}` and `{{canonicalUrl}}` are left in the page |
| Assembly.OnlyFirstMainFilled | old/ssg.js:55-60 | only the first `{{main}}` is filled and a second one survives |
| Assembly.IndexPage | old/ssg.js:91-100 | `index.html` can be built exactly when there is a base partial |
| Assembly.IndexPageWithoutMarkers | old/ssg.js:93 | a base without the five markers is `index.html` as it stands |
| Assembly.IndexPageFillsMain | old/ssg.js:93 | the index partial (the text "undefined" when missing) takes the place of base's `{{main}}`, the text around it kept, whatever the other partials hold |
| Assembly.Verbatim | old/ssg.js:103-108 | `404.html` is the 404 partial exactly; a missing partial fails |
| Assembly.ProcessArticles | old/ssg.js:67-88 | every article keeps its file name and is wrapped in base; the run fails exactly when base is missing and there is an article |
| Posts.WithDefaults | old/ssg1603.js:99-107 | the record keeps every spread field outside the six defaulted ones, has exactly those keys plus the six, and each defaulted field other than `link` is the raw value or its default |
| Posts.NormalizePost | old/ssg1603.js:100-108 | a record fails exactly when it is nullish or its link builder fails; all its other fields are kept; each defaulted field is truthy, keeps a truthy raw value and otherwise takes its default; a falsy link comes from the builder |
| Posts.NormalizeAll | old/ssg1603.js:99-108 | records keep their order and each one is normalised; one failing record fails the source |
| Posts.LoadSource | old/ssg1603.js:88-112 | a readable source that parses to an array whose records all normalise yields exactly those posts, in order; a source that cannot be read, does not parse to an array, or has one failing record contributes no posts |
| Posts.LoadPostsAppend | old/ssg1603.js:87-122 | posts of two source lists come out concatenated in declared order |
| Posts.FailedSourceContributesNothing | old/ssg1603.js:109-112 | any source that yields no posts (unreadable, not an array, a failing record, or empty) can be removed from anywhere in the list without changing the posts |
| Posts.LoadedTitlesTruthy | old/ssg1603.js:102 | every loaded post has a truthy title |
| Posts.LoadMetadata | old/ssg1603.js:51-67 | a readable location gives its parsed JSON whatever its shape; a location that is not a string, or a failed read, gives `[]` |
| Posts.FindFrom | old/ssg1603.js:71 | the first matching record, or none when no record matches, or an error exactly when a nullish record is reached first |
| Posts.FindFirst | old/ssg1603.js:71 | `find` from the start, with the same three outcomes |
| Posts.MergeMetadata | old/ssg1603.js:69-77 | length and order are preserved; each post is overlaid with the first matching record, metadata winning; unmatched posts are unchanged; non-array metadata fails when there are posts |
| Posts.MergeKeepsKey | old/ssg1603.js:69-77 | a post's match key is the same after the merge |
| Posts.MergeIdempotent | old/ssg1603.js:69-77 | merging the same metadata twice gives the result of merging it once |
| Posts.MergeEmptyIsIdentity | old/ssg1603.js:63-66 | metadata that failed to load (`[]`) leaves the posts unchanged |
| Posts.MergeAllAppend | old/ssg1603.js:123-125 | applying two lists of metadata sources is applying the first and then the second |
| Posts.FailedMetadataIsSkipped | old/ssg1603.js:116-125 | a failed metadata source can be dropped from the declaration without changing the outcome |
| Posts.LaterMetadataWins | old/ssg1603.js:123-125 | a field set by the second source's matching record is in the final post, whatever the first source did |
| Posts.MergeAllKeepsKey | old/ssg1603.js:123-125 | the title of every post is unchanged across all metadata sources |
| Posts.DataFiles | old/ssg1603.js:82 | an array of locations is taken as given; any other value is a one-element list |
| Posts.LoadSubforumData | old/ssg1603.js:79-128 | a falsy `data` gives no posts; with no metadata the loaded posts come back unchanged; the load fails exactly when some metadata value is not an array while there are posts, or its search for some post's title reaches a nullish record first; on success every post keeps its index and title and equals the loaded post taken through each metadata source on its own |
| Posts.MergeAllOk | old/ssg1603.js:122-125 | merging a list of metadata sources succeeds exactly when each source, tried on the unmerged posts, would succeed |
| Posts.MergeAllEach | old/ssg1603.js:122-125 | a successful merge gives, at each index, that post overlaid with its first match in each source in turn, independently of the other posts |
| Posts.SubforumTitlesTruthy | old/ssg1603.js:79-128 | every post a subforum yields has a truthy title |
| TagIndex.Push | old/ssg1603.js:178-185 | the post is appended to the named bucket and no other; a new key is appended to the key order; an inherited name not yet owned throws |
| TagIndex.PushAllSpec | old/ssg1603.js:178-181 | each bucket gains the post once per occurrence of its name, with no deduplication; it fails exactly when some name is an unowned inherited key |
| TagIndex.TagNames | old/ssg1603.js:178-181 | one bucket name per tag, in order, as a property key |
| TagIndex.DeveloperNames | old/ssg1603.js:182-185 | one bucket name per developer, its `name` as a property key |
| TagIndex.AddPost | old/ssg1603.js:174-186 | a post enters both indexes exactly when tags and developers are arrays, no developer is nullish and no tag or developer name is an unowned inherited key; it pushes under each tag and each developer name and never changes which inherited names are owned |
| TagIndex.HitsInheritedSame | old/ssg1603.js:178-185 | indexes owning the same inherited names reject the same name lists |
| TagIndex.BuildIndexSucceeds | old/ssg1603.js:174-186 | indexing a list of posts succeeds exactly when every post could be entered into the starting indexes |
| TagIndex.AddPostSpec | old/ssg1603.js:174-186 | each bucket gains the post once per occurrence of its name among the post's tags (or developers) |
| TagIndex.BuildIndexBuckets | old/ssg1603.js:174-186 | after indexing, each bucket is its old list followed by the posts carrying its name, in list order and with repetitions; existing keys keep their order |
| Pagination.PageCount | old/ssg1603.js:213 | the fewest pages of ten that hold the items; zero exactly for no items |
| Pagination.PageSlice | old/ssg1603.js:215-218 | page p holds items `(p-1)*10` onwards, at most ten, non-empty for an existing page |
| Pagination.Paginate | old/ssg1603.js:213-218 | one non-empty slice of at most ten per page, and the slices laid end to end are the list |
| Pagination.PageSlicesPrefix | old/ssg1603.js:213-218 | the slices of the first k pages laid end to end are the first 10k items |
| Pagination.PageSlicesFlatten | old/ssg1603.js:213-218 | every page's slice, laid end to end, gives back the list: nothing is lost, repeated or reordered |
| Pagination.PageSuffix | old/ssg1603.js:236 | page 1 has no suffix and page p ≥ 2 has `-p` |
| Pagination.PageHrefInjective | old/ssg1603.js:242 | different pages of one prefix have different file names |
| Pagination.PageHrefPrefixInjective | old/ssg1603.js:236 | different prefixes give different URLs for the same page |
| Pagination.NumberedLinks | old/ssg1603.js:358-360 | one link per page 1..total, each leading to that page's file, active exactly when marking is on and it is the current page |
| Pagination.PaginationNav | old/ssg1603.js:355-365 | previous exactly when p > 1, unsuffixed when it leads to page 1; next exactly when p < total; numbered links cover 1..total, and a link is active exactly when marking is on and it is the current page |
| Pagination.NavStaysInRange | old/ssg1603.js:355-365 | on an existing page, every navigation link leads to an existing page |
| Pagination.NavHrefs | old/ssg1603.js:355-365 | the navigation's hrefs are its previous, next and numbered links |
| Pagination.OnlyCurrentActive | old/ssg1603.js:359-360 | with marking on, exactly the current page's link is active |
| SubforumPages.ListingPageAt | old/ssg1603.js:215-242 | page p is written to `{key}[-p].html` with that file under the base URL as canonical, the subforum's title, description and banner, and navigation built from `subforum.link` |
| SubforumPages.SubforumListing | old/ssg1603.js:213-245 | one listing page per ten posts, together listing every post once in order, with no two pages sharing a file |
| SubforumPages.NavMatchesCanonicalsIff | old/ssg1603.js:220-236 | the numbered links lead to the listing pages' canonical URLs exactly when `subforum.link` is the base URL followed by the key |
| Links.Stem | ssg.js:222 | a string link loses at most one leading slash; a non-string link throws |
| Links.PostOutputPath | ssg.js:227 | the post's file is its stem plus `.html` |
| Links.PostCanonical | ssg.js:222 | the post's canonical URL starts with the base URL and fails exactly on a non-string link |
| Links.CanonicalNamesOutputFile | ssg.js:222-227 | the canonical URL plus `.html` is the base URL plus the output path |
| Links.RssItem | ssg.js:111-114 | an item's link and guid are equal, and both are the base URL plus the post's output path |
| Links.RssChannel | ssg.js:107-122 | the channel link and the feed URL share one stem, ending `.html` and `.rss` |
| Links.PostPageArgs | ssg.js:219-226 | a post page gets its canonical URL and title, `content` or else the subforum description, and `image` or else the subforum icon |
| Links.LoadedPostNeverUsesIcon | old/ssg1603.js:106 | a loaded post always has a truthy image, so its page never uses the subforum icon |
| Links.ResolveTemplate | ssg.js:189-192 | a template resolves exactly when its name is registered; an unknown non-inherited name gives "Template ... not found for subforum ..." |
| Links.ResolveAll | ssg.js:188-192 | the template checks pass exactly when every subforum's template is registered; otherwise, among those checks, the error is that of the first unknown one |
| Links.Ssg2SubforumCanonical | old/ssg2.js:151 | the older subforum canonical URL is the base URL followed by the key |
| Links.Ssg2PostUrls | old/ssg2.js:169-176 | the older canonical URL is the host followed by the unstripped link; the file strips one slash |
| Links.CanonicalsAgreeIffLeadingSlash | old/ssg2.js:169 | the older and newer canonical URLs of a post agree exactly when its link starts with `/` |
| AliasPages.GetSlug | generateTagDevAliasPages.js:27-32 | a cached name gets its cached slug with nothing changed; a new name gets a fresh slug that is cached from then on; no earlier entry changes |
| AliasPages.PostHrefs | old/ssg1603.js:283-288 | each listed post links to the base URL plus its output path; a non-string link throws |
| AliasPages.NamePage | old/ssg1603.js:275-315 | page p of a name sits at `vn/{type}/{slug}[-p].html` for both canonical URL and file, titled `name - meta`, listing slice p, with navigation marking the page |
| AliasPages.NavLinksAreCanonicals | old/ssg1603.js:355-365 | numbered link q under any page of a name is the canonical URL of that name's page q |
| AliasPages.NamePagesUpTo | old/ssg1603.js:274-277 | generating pages 1 to `count`, when no page fails, yields exactly `count` pages |
| AliasPages.NamePagesUpToAt | old/ssg1603.js:274-277 | the pages come out in page order: entry i is the page numbered i + 1 |
| AliasPages.NamePagesUpToOk | old/ssg1603.js:274-277 | pages 1 to `count` all build exactly when every one of their slices has only string links |
| AliasPages.SlicesHaveStringLinksAll | old/ssg1603.js:274-277 | the page-by-page link check covers every page from 1 to `count` |
| AliasPages.PageLinksCover | old/ssg1603.js:274-277 | every post lies on some page, so the slices all have string links exactly when the whole bucket has |
| AliasPages.NamePagesUpToFlatten | old/ssg1603.js:274-277 | the posts of a name's pages, laid end to end, are its bucket |
| AliasPages.NamePagesPaths | old/ssg1603.js:272-283 | every page of a name sits at that name's slug under its own number |
| AliasPages.NamePages | old/ssg1603.js:272-277 | a name has one page per ten posts, numbered in order, and none for an empty bucket; it fails exactly when some post of the bucket has a non-string link, and otherwise its pages' posts laid end to end are the bucket |
| AliasPages.AllNamePages | old/ssg1603.js:268-271 | generating pages never changes an already cached slug |
| AliasPages.NamesHaveStringLinksAll | old/ssg1603.js:266-277 | the name-by-name link check covers the bucket of every name |
| AliasPages.AllNamePagesOk | old/ssg1603.js:266-277 | the pages of all names build exactly when every bucket has string links, whatever slugs the generator returns |
| AliasPages.AllNamePagesConcat | old/ssg1603.js:266-277 | the output is each name's pages at the slug it ends up cached under, names in key order, concatenated |
| AliasPages.PagesOfNamesPaths | old/ssg1603.js:266-283 | every page of that concatenation sits at its name's cached slug under its own number |
| AliasPages.AllNamePagesSlugs | old/ssg1603.js:268-320 | afterwards every name has a cached slug, and each name with posts has its first page at that slug's unsuffixed path |
| AliasPages.IndexEntries | old/ssg1603.js:321-330 | the listing has one entry per key in key order, linking to the cached slug's page 1 without touching the cache |
| AliasPages.GenerateCategory | old/ssg1603.js:266-346 | the listing of a type is written to `vn/{type}/index.html` with canonical `vn/{type}/` and one entry per key in key order; the type builds exactly when every bucket has string links; every slug cached before stays cached and unchanged; its pages are each name's pages at the slug it leaves cached, in key order |
| AliasPages.CategoryPaths | old/ssg1603.js:266-283 | every page of a type sits at its name's slug in the cache the type leaves behind |
| AliasPages.IndexLinksToFirstPages | old/ssg1603.js:321-330 | each listing entry of a name with posts links to the canonical URL of that name's first page |
| AliasPages.AllNamePagesAreNamePages | old/ssg1603.js:293-315 | every alias page's canonical URL is the base URL followed by its output path |
| AliasPages.GenerateAliasPages | old/ssg1603.js:250-253 | the tag listing is `vn/tags/index.html` and the developer listing `vn/developers/index.html` |
| AliasPages.SharedSlugs | old/ssg1603.js:250-266 | tags are generated first and share the slug cache with developers, so a name that is both has its developer pages under the slug of its tag pages |
| AliasPages.NamePageAsWritten | generateTagDevAliasPages.js:6-16 | as written, every alias page throws: the one whose posts all have string links throws a ReferenceError for `baseurl` |
| AliasPages.NamePagesAsWritten | generateTagDevAliasPages.js:42-59 | as written, any name with posts fails and only an empty bucket succeeds |
| AliasPages.AsWrittenFailsOnOnePost | generateTagDevAliasPages.js:6-16 | one tag with one well-formed post fails as written but gets its page at `vn/tags/{slug}.html` once the base URL is in scope |
| JsonProjection.TemplateNamed | templates.js:1-77 | exactly the four exported template names have a projection |
| JsonProjection.JsonLink | templates.js:6 | the JSON link is the base URL, the link minus one leading slash, and `.json`; a non-string link throws |
| JsonProjection.GenerateJson | templates.js:3-75 | a record exists exactly for non-nullish post and subforum with string links; it has exactly the template's copied fields plus link, description and subforum; description defaults to `''` |
| JsonProjection.JsonLinkMatchesPage | templates.js:6 | a post's JSON link and its page's URL share one stem |
| JsonProjection.TemplateSpecificFields | templates.js:20-75 | only vn omits `author`, only programming has `flair`, only vn has `tags` |

## Left out

- File, directory and network I/O (`readFile`, `writeFile`, `fetch`, `ensureDirectoryExists`, `loadFilesFromDir`), `JSON.parse` and `console` output. A read-and-parse is the `Loader` parameter; writes are represented by the output paths and contents they would receive.
- `writeFile` is never imported in generateTagDevAliasPages.js (line 82). Writing is not modelled, so this has no counterpart.
- generateTagDevAliasPages.js:3 imports `createFullPage` and `ensureDirectoryExists` from ssg.js, which exports nothing: it has no `module.exports` and runs `runSSG()` at line 253. Both would be `undefined` there. The model treats the module as if the imports resolved; page wrapping is `Assembly.CreateFullPage`.
- `Promise.all` fan-out. Subforums are processed one after another in entry order. Because of this, bucket order across subforums is claimed only within one subforum's list.
- `generateSlugtags` is imported from templates.js but not exported by it (templates.js:79-81), and templates.js defines no `generatePostLink`. Both are function parameters: the slug generator with its own state, and the link builder, where `None` means it throws.
- AliasPages.NamePage: this assumes some slug generator is in scope. In generateTagDevAliasPages.js, because of the missing export, every `getSlug` call as written would throw a TypeError before any page. old/ssg1603.js takes its templates from old/templates.js, which is not part of this model, so whether its `getSlug` calls succeed is not known.
- Links.ResolveAll: only the template checks are modelled. Each subforum's page renderer (ssg.js:195) runs right after that subforum's own check, so a renderer that throws for an earlier subforum can be the error `Promise.all` reports (ssg.js:188). One example is a games template whose subforum has no posts, where `subforum.posts.map` throws (ssg.js:88). Renderer exceptions are not modelled.
- Text.ReplaceAll and Text.ReplaceFirst: replacement strings must contain no `$`. The `$&`, `$1` and `$$` patterns of `String.prototype.replace` are not modelled.
- JsValues.Get: `length` and inherited properties (`"x".length`, `String.prototype.link`) read as `undefined`. Own fields of objects, array elements and string characters are modelled.
- JsValues.Value: numbers are integers. Floating point, `NaN` and integer-like object keys ordered before other keys are not modelled.
- The HTML, RSS and JSON template-literal bodies, and `new Date(...).toUTCString()`. Pages are modelled by their file name, canonical URL, head arguments, listed posts and navigation links, not their markup.
- Pagination.PaginationNav: the `class="active"` attribute is a flag on each numbered link, not markup.
- update-mtime.js, src/codeMirror.js, models/src/codeMirror.js and rollup.config.mjs: they hold no generation logic.
- mtime-based change detection and collision-suffixed slugs: no file of the repository implements them.
- TagIndex.AddPost: when a post could fail in several ways, the error reported may differ. The model checks every developer for nullish before pushing any developer, while the code reads each developer's name just before its push. A nullish developer always gives the `null` message, and an unowned inherited name gives a generic `push` message. Whether the post fails, and the buckets when it does not, are exact. After a failure the whole run stops, so the partly filled indexes are not observable.
- JsonProjection.GenerateJson: the error message does not depend on which field read threw first. Success and the record are exact.

## Findings

| source | as written | input that shows it | evidently intended | confidence | as-written member | corrected member |
|---|---|---|---|---|---|---|
| generateTagDevAliasPages.js:6-16 | `generatePaginationLinks` is a top-level function that reads `baseurl`, which is bound only as a parameter of `generateTagDevAliasPages`. Every call throws a ReferenceError, so every alias page of a name with posts fails. | one tag whose bucket is one post with a string link (AliasPages.AsWrittenFailsOnOnePost) | the navigation built under the base URL the generator was given, as old/ssg1603.js does with its module-level `baseurl` | not executed | AliasPages.NamePagesAsWritten | AliasPages.NamePages |
