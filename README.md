# VoidRain blog core, modelled in Dafny

This project models the parts of the VoidRain blog (a Next.js site) that compute something:

- **The tag URL pipeline.**
  - The `Tag` link component writes `/tags/` followed by the percent-encoded tag.
  - `formatTagForUrl` and `getTagFromUrl` are in both the TypeScript and the CommonJS utility module.
  - The Next.js middleware decodes the first path segment after `/tags/`, slugifies it, and redirects when the slug differs from the raw segment.
- **Tag statistics.**
  - `createTagCount` counts tags over all posts. Drafts are skipped in production.
  - The tags page lists the tags, most used first.
- **Site search.**
  - The filter over the search index: a trimmed-query guard, then a case-insensitive substring match on title, summary or any tag.
  - The open/closed state of the dialog, and what each of its event handlers changes.
- **The two animated backgrounds.** Only their arithmetic skeleton is modelled.
  - `DataFlowBackground.tsx`: stream generation, the scroll-speed cap, turbulence, the pointer's pull, and the particle index arithmetic.
  - `DataFlowBackground.jsx`: the glyph particle pool, its reset, fall, attraction and bottom-edge recycling.

The string inputs are modelled as follows:

- **URLs are UTF-8 bytes.** A URL string in the tag pipeline is its UTF-8 encoding (`seq<byte>`).
- **`decodeURIComponent` and `encodeURIComponent`** follow the `Decode` and `Encode` operations of ECMA-262 (section 19.2.6). The unescaped set is the unreserved characters of RFC 3986 plus `!*'()`. A multi-byte escape must spell a well-formed UTF-8 sequence in the sense of RFC 3629, table 3-7 of Unicode. Every failure is the single `URIError`.
- **`String.prototype.replace`** with a string pattern is modelled with its `GetSubstitution` `$` patterns.
- **Search strings** are Dafny strings. `trim` removes the ECMAScript WhiteSpace and LineTerminator code points.

The following are function parameters:

- `slug` (github-slugger) and `toLowerCase`, whose code is not part of this model.
- `Math.random()`, given as a sequence of draws in [0, 1) with an explicit cursor.
- `Math.sqrt`, given as any function that returns the non-negative square root.
- The step `(cos a·d, sin a·d)` of stream generation, given as any function that returns a vector of length `d`.

## Model

| member | source | states |
|---|---|---|
| NextMiddleware.Middleware | middleware.ts:6-36 | a path that does not start with `/tags/` passes through unchanged (`Next`) |
| NextMiddleware.TagPartIsSegment | middleware.ts:11-13 | `split('/tags/')[1].split('/')[0]` is exactly the segment right after the leading `/tags/`; it holds no `/`, and the path is `/tags/` + segment + the rest |
| NextMiddleware.MiddlewareOnTagPath | middleware.ts:15-31 | on a `/tags/` path: a decoding error passes through; a slug equal to the raw segment passes through; any other slug redirects to the path with `/tags/<segment>` replaced by `/tags/<slug>` |
| NextMiddleware.RedirectIff | middleware.ts:10-27 | the middleware redirects exactly when the path is under `/tags/`, its segment decodes, and the slug of the decoded tag differs from the raw segment |
| NextMiddleware.DecodeErrorPassesThrough | middleware.ts:28-31 | a segment that `decodeURIComponent` rejects never redirects; the request continues |
| NextMiddleware.RedirectPath | middleware.ts:25 | when the slug holds no `$`, the redirect target is `/tags/` + slug + the rest of the original path, so sub-routes are kept |
| NextMiddleware.DollarInSlugIsSubstituted | middleware.ts:25 | a `$&` in the replacement is expanded by `replace`: with slug `$&`, `/tags/A` redirects to `/tags//tags/A` |
| JsStrings.IndexOf | middleware.ts:11-13 | the first index where the pattern occurs, or none when it occurs nowhere |
| JsStrings.Split | middleware.ts:11 | `split` always yields at least one piece |
| JsStrings.ReplaceAtStart | middleware.ts:25 | replacing a prefix by a `$`-free string yields that string followed by the rest |
| JsStrings.SubstitutionLiteralPrefix | middleware.ts:25 | a `$`-free prefix of a replacement template is copied literally |
| Uri.DecodeEncode | components/Tag.jsx:10 | `decodeURIComponent(encodeURIComponent(t)) == t` for every well-formed UTF-8 string `t` |
| Uri.EncodeIsPercentEncoded | components/Tag.jsx:10 | `encodeURIComponent` output holds only unescaped bytes and `%XX` triplets, and never a `/` |
| Uri.DecodeWithoutPercent | middleware.ts:17 | a segment with no `%` decodes to itself |
| Uri.DecodeRejectsBadEscape | middleware.ts:17 | a `%` not followed by two hex digits makes decoding fail with `URIError` |
| Uri.DecodeEscapeAll | middleware.ts:17 | a fully escaped byte string decodes to itself exactly when it is well-formed UTF-8, and fails otherwise |
| TagUtils.FormatIsIdentity | utils/tag.ts:12-14 | `formatTagForUrl` returns the tag unchanged |
| TagUtils.GetTagFromUrlRoundTrip | utils/tag.ts:20-22 | `getTagFromUrl(encodeURIComponent(formatTagForUrl(t))) == t` for every well-formed tag |
| TagUtils.GetTagFromUrlWithoutPercent | utils/tag.ts:20-22 | a URL tag without `%` is returned as is |
| TagUtils.GetTagFromUrlRejectsBadEscape | utils/tag.ts:20-22 | a malformed escape makes `getTagFromUrl` throw `URIError` |
| TagUtils.GetTagFromUrlRejectsInvalidUtf8 | utils/tag.ts:20-22 | escaped bytes that are not UTF-8 make `getTagFromUrl` throw `URIError` |
| TagUtilsCjs.ExportsMatchTypeScript | utils/tag.js:12-27 | both exported functions agree with the TypeScript module on every input |
| TagUtilsCjs.ExportedRoundTrip | utils/tag.js:20-22 | the exported pair round-trips every well-formed tag through `encodeURIComponent` |
| TagUtilsCjs.ExportedWithoutPercent | utils/tag.js:20-22 | the exported `getTagFromUrl` returns a `%`-free tag unchanged |
| TagUtilsCjs.ExportedRejectsBadEscape | utils/tag.js:20-22 | the exported `getTagFromUrl` throws on a malformed escape |
| TagLink.Tag | components/Tag.jsx:9-20 | the link shows the tag text itself and points under `/tags/` |
| TagLink.HrefIsPrefixAndEncoding | components/Tag.jsx:10-14 | the href is `/tags/` + `encodeURIComponent(text)`, percent-encoded and free of `/` |
| TagLink.HrefSegmentRoundTrip | components/Tag.jsx:14 | the middleware's segment of a tag link is the encoded tag, and `getTagFromUrl` recovers the text |
| TagLink.MiddlewareOnTagLink | components/Tag.jsx:10-14 | for every tag text whose `slug(text)` holds no `$`, following its link makes the middleware pass through exactly when `slug(text)` equals the encoded text, and otherwise redirect to `/tags/` + `slug(text)` |
| CustomSearch.TrimStart | components/CustomSearch.tsx:33 | removes exactly the leading whitespace: a suffix of the input, blank before it, not starting with whitespace |
| CustomSearch.TrimEnd | components/CustomSearch.tsx:33 | removes exactly the trailing whitespace |
| CustomSearch.Trim | components/CustomSearch.tsx:33 | `query.trim()` is empty exactly when the query is all whitespace; otherwise both ends are non-whitespace |
| CustomSearch.Includes | components/CustomSearch.tsx:41-43 | `includes` holds exactly when the pattern occurs at some index |
| CustomSearch.Matches | components/CustomSearch.tsx:40-43 | an item matches exactly when one of its present title, summary or tags, lower-cased, contains the lower-cased query |
| CustomSearch.Filter | components/CustomSearch.tsx:39-44 | the results are a subsequence of the index (order kept), every result matches, and each matching item occurs in the results exactly as often as in the index (non-matching ones never) |
| CustomSearch.HandleSearch | components/CustomSearch.tsx:32-47 | a blank query or an empty index gives no results; otherwise the results are the matching items in index order, each with its multiplicity in the index |
| CustomSearch.MissingFieldsNeverMatch | components/CustomSearch.tsx:41-43 | an item with no title, summary or tags never matches, because optional chaining yields `undefined` |
| CustomSearch.UntrimmedQueryMisses | components/CustomSearch.tsx:33-44 | the guard trims but the match does not: query `" a"` misses a title `"a"` that query `"a"` finds |
| CustomSearch.KeyDownOpen | components/CustomSearch.tsx:56-63 | Ctrl/Cmd+K opens; Escape closes, and wins over K; any other key leaves the state |
| CustomSearch.KeyDownIdempotent | components/CustomSearch.tsx:56-63 | handling the same key event twice gives the same state as once |
| CustomSearch.SearchProvider.constructor | components/CustomSearch.tsx:9-12 | closed, with empty query, index and results |
| CustomSearch.SearchProvider.LoadIndex | components/CustomSearch.tsx:15-29 | the index is replaced, and the results are recomputed from the current query |
| CustomSearch.SearchProvider.SetQuery | components/CustomSearch.tsx:50-52 | the query is replaced, and the results are recomputed against the index |
| CustomSearch.SearchProvider.KeyDown | components/CustomSearch.tsx:56-64 | the open state becomes `KeyDownOpen` of the old state |
| CustomSearch.SearchProvider.Toggle | components/CustomSearch.tsx:71 | `toggleSearch` flips the open state |
| CustomSearch.SearchProvider.Close | components/CustomSearch.tsx:79 | the dialog's close handler closes it |
| CustomSearch.SearchProvider.SelectResult | components/CustomSearch.tsx:101-104 | clicking result k navigates to `'/' + path` and closes the dialog |
| TagCount.CountedTags | contentlayer.config.ts:9-11 | a tag is visited exactly when some post that has tags and is, in production, not a draft carries it |
| TagCount.TallyCounts | contentlayer.config.ts:13-17 | the counted keys are exactly the tags seen, and each count is the tag's number of occurrences, at least 1 |
| TagCount.TallySnoc | contentlayer.config.ts:13-17 | visiting one more tag makes its count its earlier number of occurrences plus one; every other tag keeps its presence and its count |
| TagCount.CreateTagCount | contentlayer.config.ts:6-20 | the nested loops compute the tally of the counted tags: same keys, each count equal to the number of occurrences |
| TagCount.SumOfCounts | contentlayer.config.ts:13-17 | the counts add up to the number of tags seen |
| TagCount.CreateTagCountSum | contentlayer.config.ts:6-20 | the counts in `tag-data.json` add up to the number of counted tag uses |
| TagCount.TaglessPostIgnored | contentlayer.config.ts:10 | a post without tags changes nothing |
| TagCount.DraftSkippedInProduction | contentlayer.config.ts:10 | in production a draft post changes nothing |
| TagCount.CountedPostContributes | contentlayer.config.ts:10-11 | a post that passes the filter (tagged, and in production not `draft: true`; outside production drafts included) contributes all its tags, in place |
| TagCount.RepeatedTagCountedTwice | contentlayer.config.ts:13-17 | a tag listed twice in one post is counted twice |
| TagCount.Bump | contentlayer.config.ts:14 | `+= 1` adds one to a number, and leaves a text value text |
| TagCount.TallyAsWritten | contentlayer.config.ts:13-17 | the as-written dictionary has exactly the tags seen as keys |
| TagCount.ConstructorTagGarbled | contentlayer.config.ts:13 | a post tagged `constructor` gets a non-numeric entry as written, where the intended count is 1 |
| TagCount.AsWrittenAgreesOffPrototype | contentlayer.config.ts:13-17 | for tags that are not `Object.prototype` names, the as-written dictionary equals the intended count |
| TagsPage.Insert | app/tags/page.tsx:10-12 | inserting adds exactly that tag, as a multiset |
| TagsPage.SortByCount | app/tags/page.tsx:10-12 | the sorted tags are a permutation of the keys |
| TagsPage.SortedNonIncreasing | app/tags/page.tsx:10-12 | the sorted tags are in non-increasing order of count |
| TagsPage.SortStable | app/tags/page.tsx:10-12 | tags with equal counts keep their key order, as the stable `Array.prototype.sort` does |
| TagsPage.SortedTagsOnce | app/tags/page.tsx:10 | when the keys enumerate the dictionary, every tag appears exactly once after sorting |
| TagsPage.TagsPage | app/tags/page.tsx:9-36 | the fallback text shows exactly when there are no tags; otherwise each tag appears exactly once, with its own count, most used first |
| DataFlowStreams.Divide | components/DataFlowBackground.tsx:231-232 | dividing by a positive distance is ordinary division; 0 / 0 is NaN |
| DataFlowStreams.CreateDataStreams | components/DataFlowBackground.tsx:95-145 | 24 streams in layers of 8, 10 and 6 with that layer's speed and colour; each has 5 to 8 points, width in [0.5, 2), direction ±1, offset in [0, 100), a first point inside the canvas and steps of length in [50, 150) |
| DataFlowStreams.CreateStream | components/DataFlowBackground.tsx:106-141 | one stream of the given layer satisfying the same well-formedness |
| DataFlowStreams.ScrollSpeed | components/DataFlowBackground.tsx:49-59 | a scroll event sets a speed only when time has passed; the speed lies in [0, 5], and equals 5 exactly when the distance·10 is at least 5·timeDelta |
| DataFlowStreams.DecayedScrollSpeed | components/DataFlowBackground.tsx:61 | the delayed decay never raises the speed, and strictly lowers a positive one |
| DataFlowStreams.TurbulenceStep | components/DataFlowBackground.tsx:168-170 | one frame keeps turbulence in [0, 4.95], and keeps it rising toward 0.99·scrollSpeed without exceeding it |
| DataFlowStreams.TurbulenceAfter | components/DataFlowBackground.tsx:164-170 | after any number of frames at a fixed scroll speed, turbulence stays in [0, 0.99·scrollSpeed] |
| DataFlowStreams.TurbulenceRises | components/DataFlowBackground.tsx:164-170 | at a fixed scroll speed turbulence never decreases from frame to frame |
| DataFlowStreams.TurbulenceAmount | components/DataFlowBackground.tsx:218 | the per-layer amount is turbulence plus 1.5, 1 or 0.5, so within [0.5, 6.45] |
| DataFlowStreams.MouseInfluence | components/DataFlowBackground.tsx:223-235 | no pull from 200 or more away; NaN in both coordinates when the pointer is exactly on the point; otherwise a finite pull whose signs point toward the pointer |
| DataFlowStreams.SegmentPairs | components/DataFlowBackground.tsx:212-214 | one (start, end) pair per consecutive pair of points |
| DataFlowStreams.ParticleIndices | components/DataFlowBackground.tsx:271-275 | layers 0 and 1 get floor(n/2)+1 indices, running non-decreasing from the first point to the last, all in range; layer 2 gets none |
| DataFlowStreams.IndexBounds | components/DataFlowBackground.tsx:274 | `floor(i·(n-1)/(count-1))` lies in [0, n-1], hitting 0 for the first particle and n-1 for the last |
| DataFlowStreams.IndexStep | components/DataFlowBackground.tsx:274 | successive particle indices never decrease |
| DataFlowStreams.DataFlowScene.constructor | components/DataFlowBackground.tsx:17-22 | size 0×0, no streams, no scroll speed, no pointer, nothing running; the scroll position and clock at mount are remembered (tsx:46-47) |
| DataFlowStreams.DataFlowScene.RestartRender | components/DataFlowBackground.tsx:151-162 | the render effect runs exactly when both dimensions are positive; it restarts progress and turbulence and draws the first frame |
| DataFlowStreams.DataFlowScene.Frame | components/DataFlowBackground.tsx:164-170 | a frame advances progress by 0.01 and turbulence by one `TurbulenceStep`, keeping the scene's invariant |
| DataFlowStreams.DataFlowScene.Resize | components/DataFlowBackground.tsx:91-148 | a new size with a zero dimension keeps the old streams and stops rendering; otherwise 24 well-formed streams for the new size are built and rendering restarts; the scroll memory is kept |
| DataFlowStreams.DataFlowScene.Scroll | components/DataFlowBackground.tsx:46-62 | when time has passed since the remembered event the speed becomes `ScrollSpeed` and the position and time are remembered; otherwise both stay; a changed speed restarts rendering, an unchanged one leaves the render loop as it was |
| DataFlowStreams.DataFlowScene.DecayScroll | components/DataFlowBackground.tsx:61 | the speed becomes its decayed value; a changed speed restarts rendering, an unchanged one leaves the render loop as it was |
| DataFlowStreams.DataFlowScene.MouseMove | components/DataFlowBackground.tsx:73-75 | the pointer is set, and rendering restarts: running exactly when the canvas has a size, with one frame drawn |
| DataFlowStreams.DataFlowScene.MouseLeave | components/DataFlowBackground.tsx:77-79 | the pointer is cleared; rendering restarts when a pointer was set, and the render loop is left as it was otherwise |
| DataFlowParticles.Canvas.constructor | components/DataFlowBackground.jsx:12-18 | the canvas takes the window's size |
| DataFlowParticles.Canvas.Resize | components/DataFlowBackground.jsx:12-15 | a resize sets the canvas to the window's size |
| DataFlowParticles.ScrollDistance | components/DataFlowBackground.jsx:41 | the scroll speed is non-negative, and zero exactly when the page did not move |
| DataFlowParticles.Listeners.constructor | components/DataFlowBackground.jsx:22-25 | no pointer, zero speed, and the current scroll position remembered |
| DataFlowParticles.Listeners.MouseMove | components/DataFlowBackground.jsx:28-31 | the pointer takes the event's coordinates |
| DataFlowParticles.Listeners.MouseOut | components/DataFlowBackground.jsx:34-37 | the pointer becomes undefined |
| DataFlowParticles.Listeners.Scroll | components/DataFlowBackground.jsx:40-42 | the speed becomes the distance scrolled, uncapped, and the position is remembered |
| DataFlowParticles.Listeners.DecayScroll | components/DataFlowBackground.jsx:44-46 | the timer multiplies the speed by 0.85, never raising it |
| DataFlowParticles.GetRandomJSON | components/DataFlowBackground.jsx:69-75 | always one of the ten JSON snippets |
| DataFlowParticles.SpeedFactor | components/DataFlowBackground.jsx:54 | the speed factor lies in [0.8, 1.2] |
| DataFlowParticles.Size | components/DataFlowBackground.jsx:59 | the font size lies in [10, 14] |
| DataFlowParticles.Place | components/DataFlowBackground.jsx:62-67 | reset puts x across the width and y in the band one canvas height above the top edge; speed lies in [1, 4) and opacity in [0.1, 0.8) |
| DataFlowParticles.Attraction | components/DataFlowBackground.jsx:82-96 | no pull without a truthy pointer or from 150 or more away; a pull of (2, 0) when the pointer is on the particle; otherwise a pull whose signs point toward the pointer |
| DataFlowParticles.PointerAtZeroIgnored | components/DataFlowBackground.jsx:82 | a pointer at x = 0 or y = 0 is falsy and pulls nothing |
| DataFlowParticles.Fall | components/DataFlowBackground.jsx:79 | every frame a particle falls by at least 0.8 |
| DataFlowParticles.Brighten | components/DataFlowBackground.jsx:94 | opacity rises by 0.02, capped at 1 |
| DataFlowParticles.Moved | components/DataFlowBackground.jsx:77-96 | with no pull, a particle moves straight down by its fall; with a pull, it also moves by the pull and brightens; speed is kept and opacity stays at most 1 |
| DataFlowParticles.Particle.constructor | components/DataFlowBackground.jsx:51-60 | reset first, then the layer's speed factor and size, a binary or JSON kind, and a text of that kind |
| DataFlowParticles.Particle.Reset | components/DataFlowBackground.jsx:62-67 | the four placement fields become `Place` of the next four draws; nothing else changes |
| DataFlowParticles.Particle.Update | components/DataFlowBackground.jsx:77-102 | the particle moves as `Moved`, and is reset exactly when it ends below the bottom edge, so it ends at or above the edge; the particle invariants are kept |
| DataFlowParticles.LayerOf | components/DataFlowBackground.jsx:125-136 | particle k is in layer 1 for k < 50, layer 3 from 130 on, and layer 2 between |
| DataFlowParticles.ParticleField.constructor | components/DataFlowBackground.jsx:124 | the pool starts empty |
| DataFlowParticles.ParticleField.CreateParticles | components/DataFlowBackground.jsx:125-136 | 180 new, distinct particles are appended, 50/80/50 in layers 1/2/3, and the old ones are kept |
| DataFlowParticles.ParticleField.AddParticle | components/DataFlowBackground.jsx:128 | one new particle of the given layer is appended and the pool stays distinct and valid |
| DataFlowParticles.ParticleField.UpdateOne | components/DataFlowBackground.jsx:145-148 | the one particle ends where `UpdatedFrom` says (the move of `Moved`, or a reset from draws at or after the cursor when that move ends below the bottom edge); no other particle moves and none changes its traits |
| DataFlowParticles.ParticleField.Animate | components/DataFlowBackground.jsx:139-151 | the pool is the same distinct particles; each ends where `UpdatedFrom` says for its own start, at or above the bottom edge, with layer, speed factor, kind, text and size kept |

## Left out

- **Side effects.** The following are outside the model:
  - I/O: reading posts, `fetch('/search.json')`, `writeFileSync` of `tag-data.json` and its `prettier` formatting.
  - Console logging.
  - Router navigation, which is modelled only as the returned target path.
  - The Headless UI `Dialog`.
  - React rendering, and every canvas drawing call (gradients, strokes, shadows, text).
- **Browser timing.** React hooks and their scheduling, `setTimeout`, `requestAnimationFrame` and `performance.now()` are not modelled. Each effect or timer is a synchronous method that its caller invokes; times are parameters.
- **Trigonometry.**
  - `Math.sin`, `Math.cos` and `Math.atan2` are not modelled. The wave offsets built from them only feed drawing.
  - `Math.sqrt` and the stream step are parameters constrained by what they return.
- **Functions outside this model.** `slug` from github-slugger and `toLowerCase` are arbitrary function parameters, because their code is not part of this model.
- **Encoding limits.**
  - Strings with unpaired surrogates cannot be expressed as UTF-8 bytes. For them `encodeURIComponent` throws, and this is not modelled.
  - `new URL(newPath, request.url)` resolution and normalisation are not modelled; the redirect carries the new path.
- **Other files.** `components/Tag.tsx` is not part of this model. It is a different component from `Tag.jsx`: it imports `formatTag` from `utils/tag`, which exports no function of that name (it exports `formatTagForUrl`), and it links to `/blog/tag/` plus the formatted tag without `encodeURIComponent`.
- **Listener cleanup in `DataFlowBackground.jsx`.**
  - The cleanup removes the `resize` listener correctly. The `mousemove`, `mouseout` and `scroll` removals pass freshly created functions, so those three listeners are never removed.
  - `animate` is never cancelled.
  - Unmounting is not modelled, so this is not modelled.
- **Object.prototype and `__proto__`.** `Object.prototype` names other than `__proto__` are covered by the finding below. A `__proto__` tag is not modelled: the assignment is ignored and the tag silently disappears.
- DataFlowStreams.ParticleIndices requires at least 2 points for layers 0 and 1. With 1 point the source computes 0 / 0 and reads `points[NaN]`. That is never reached, because every stream has 5 to 8 points.
- DataFlowStreams.MouseInfluence states the direction of the pull (each component's sign) and not its exact length `(1 - dist/200)·strength`.
- DataFlowParticles.Attraction states the direction of the pull and not its exact length `2·(150 - dist)/150`.
- DataFlowParticles.ParticleField.Animate states that a particle reset during a frame takes its placement from draws at or after the frame's first cursor, not from exactly which cursor; the cursor depends on how many particles before it were reset.
- DataFlowStreams.CreateDataStreams states a lower bound on the draws consumed, not the exact number; that number depends on the segment counts drawn.
- DataFlowStreams.CreateStream is one stream of `createDataStreams` split out as its own method; it has no counterpart function in the source.
- **`toggleSearch`.**
  - It captures `isOpen` from the render that defined it.
  - It is modelled as flipping the current state, which is what it does once the component has re-rendered.
  - A double call between renders is not modelled.

## Findings

| source | as written | input that shows it | evidently intended | confidence | as-written member | corrected member |
|---|---|---|---|---|---|---|
| contentlayer.config.ts:13-17 | `tag in tagCount` on `{}` is also true for inherited `Object.prototype` names, so `tagCount[tag] += 1` appends to the text of an inherited method | a post tagged `constructor`: the JSON gets a text value instead of the count 1 | count every tag as an own key: first use 1, then +1 | not executed | TagCount.ConstructorTagGarbled | TagCount.CreateTagCount |
