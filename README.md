# LinkPreview metadata engine in Dafny

LinkPreview turns a fetched web page into a link preview. A preview is a page URL and
a store of named string properties (`title`, `description`, `url`, `icon`, `image`, ...).
Each property has content and metadata sub-keys. A fixed, ordered registry of
metadata processors fills the store:

- The OpenGraph processor scans `meta` tags. It writes `og:` keys authoritatively,
  overwriting what is there, and writes other `prefix:name` keys only into empty slots.
- The generic HTML processor searches `link` and `meta` tags in document order.
  It fills the canonical URL, title, description and favicon only where they are
  still nil. It may also probe `/favicon.ico`.
- The Wikipedia processor fills a missing description on `wikipedia.org` pages.
  It uses the page's short description, or else the Wikipedia API.

The typed setter of the preview never overwrites: it merges first-writer-wins.

This project models that engine: the property store and its merge, the typed accessors
and the debug text, the three processors, `URL.baseHostName`, and the provider's
registry and loading pipeline. It also models the older one-file revision
(`Sources/LinkPreview.swift`), whose OpenGraph parsing is last-writer-wins. It then
proves the rules that decide, for every slot, whether it is written, whether an
existing value is kept, and which tag wins.

Modules (one Dafny file each):

| module | file | models |
|---|---|---|
| `Wrappers` | `wrappers.dfy` | `Optional`, `??`, the throw-or-return outcome |
| `Text` | `text.dfy` | `split(separator:)`, `joined(separator:)`, case folding, string order |
| `Decimal` | `decimal.dfy` | `"\(n)"` and `Int(_:)`/`UInt(_:)` on 64-bit integers |
| `Urls` | `urls.dfy` | the parts of `URL`/`URLComponents` the core reads, plus Foundation's URL functions as a parameter |
| `UrlExtensions` | `url_extensions.dfy` | `URL.baseHostName` |
| `Sorting` | `sorting.dfy` | `sorted()` on a set of keys |
| `Metadata` | `metadata.dfy` | `LinkPreviewProperty`, `merge(with:)`, property names, value conversions |
| `Dom` | `dom.dfy` | the parsed document as SwiftSoup exposes it: elements, attributes, selectors, `text()` |
| `Previews` | `link_preview.dfy` | `LinkPreview`: lookup, typed getter and setter, `debugDescription` |
| `Processing` | `processing.dfy` | processing options, activation rules, network answers, a processor's outcome |
| `OpenGraphProcessor` | `open_graph.dfy` | the `meta` tag loop |
| `GenericHTMLProcessor` | `generic_html.dfy` | the four searches, the fills, the favicon probe |
| `WikipediaAPIProcessor` | `wikipedia.dfy` | the guard chain, the API request, the page-record fill |
| `Provider` | `provider.dfy` | `LinkPreviewProvider` (a class), its registry and `load` entry points |
| `Scenarios` | `scenarios.dfy` | the two offline tests of the package, end to end |
| `LegacyLinkPreview` | `legacy.dfy` | the older revision's `OpenGraphMetadata` and `LinkPreview` |

**How state is represented**
- Swift structs updated through `mutating` or `inout` code (`LinkPreviewProperty.merge`,
  the subscript setter, each processor's `updateLinkPreview`) become methods. Each method
  returns the new value and is proved equal to a specification function, about which the
  lemmas speak.
- `LinkPreviewProvider` is a class. Its `registeredProcessors` and `options` fields are
  changed by `RegisterProcessor` and `UnregisterProcessor`.
- Foundation's URL functions, the network, the HTML parser, the URL session, processor
  activation and client processors are parameters of the model: the `Foundation`,
  `Network` and `Provider.Environment` records of functions. The model says what the
  core does with their answers.

**Overwriting.** The typed setter (`Sources/LinkPreview/LinkPreview.swift:40-47`) has no
authoritative mode: it always merges first-writer-wins, so a later write through it never
replaces content already there (`Previews.SetNeverOverwrites`). Only the OpenGraph
processor overwrites, because it writes `preview.properties` directly.

## Model

| member | source | states |
|---|---|---|
| `Text.Split` | Sources/LinkPreview/URL+Extensions.swift:11 | every piece is non-empty and free of the separator |
| `Text.SplitOfJoin` | Sources/LinkPreview/URL+Extensions.swift:11 | `split` gives back the pieces that `joined` glued, when they are non-empty and separator-free |
| `Text.SeparatorCount` | Sources/LinkPreview/URL+Extensions.swift:11 | a join of n separator-free pieces holds n - 1 separators |
| `Text.Join` | Sources/LinkPreview/URL+Extensions.swift:11 | an empty list joins to ""; otherwise the result starts with the first piece and is one separator per gap longer than the pieces together |
| `Text.LessTransitive` | Sources/LinkPreview/LinkPreview.swift:91 | the key order used by `sorted()` is transitive |
| `Text.LessTotal` | Sources/LinkPreview/LinkPreview.swift:91 | any two distinct keys are ordered one way or the other |
| `Text.EqualsIgnoringCase` | Sources/LinkPreview/Processors/GenericHTMLProcessor.swift:36 | equal lengths and equal characters after ASCII case folding; every string equals itself |
| `Text.HasPrefix` | Sources/LinkPreview.swift:32 | `s` starts with `prefix` character by character, and is then `prefix` followed by the rest |
| `UrlExtensions.Suffix` | Sources/LinkPreview/URL+Extensions.swift:11 | `suffix(n)` is the last min(n, count) elements, in order |
| `UrlExtensions.BaseHost` | Sources/LinkPreview/URL+Extensions.swift:11 | the labels of the result are exactly the last two non-empty labels of the host; it has at most one dot and, unless empty, no empty label |
| `UrlExtensions.BaseHostName` | Sources/LinkPreview/URL+Extensions.swift:11 | nil exactly when the URL has no host; otherwise the base host of the host |
| `UrlExtensions.BaseHostIdempotent` | Sources/LinkPreview/URL+Extensions.swift:11 | taking the base host of a base host changes nothing |
| `UrlExtensions.BaseHostOfTwoLabels` | Sources/LinkPreview/URL+Extensions.swift:11 | a host of two non-empty labels is returned unchanged |
| `UrlExtensions.BaseHostOfWikipedia` | Sources/LinkPreview/URL+Extensions.swift:11 | "en.wikipedia.org" maps to "wikipedia.org" |
| `Sorting.MinimumExists` | Sources/LinkPreview/LinkPreview.swift:91 | every finite non-empty key set has a least key |
| `Sorting.SortedUnique` | Sources/LinkPreview/LinkPreview.swift:91 | a key set has exactly one strictly increasing listing |
| `Sorting.Sorted` | Sources/LinkPreview/LinkPreview.swift:91 | `keys.sorted()` lists every key once, in increasing order |
| `Decimal.ParseInt` | Sources/LinkPreview/LinkPreviewMetadata.swift:64-67 | `Int(s)` succeeds exactly on a decimal literal whose value fits in 64 signed bits, and then gives that value |
| `Decimal.ParseUInt` | Sources/LinkPreview/LinkPreviewMetadata.swift:73-76 | `UInt(s)` succeeds exactly on a decimal literal whose value fits in 64 unsigned bits, and then gives that value |
| `Decimal.Describe` | Sources/LinkPreview/LinkPreviewMetadata.swift:68-70 | `"\(n)"` is the canonical decimal form: a minus sign exactly for a negative number, no plus sign, no leading zero |
| `Decimal.DescribeIsLiteral` | Sources/LinkPreview/LinkPreviewMetadata.swift:68-70 | `"\(n)"` is a decimal literal whose value is n, for every integer |
| `Decimal.IntRoundTrip` | Sources/LinkPreview/LinkPreviewMetadata.swift:64-71 | `Int("\(n)") == n` for every 64-bit signed n |
| `Decimal.UIntRoundTrip` | Sources/LinkPreview/LinkPreviewMetadata.swift:73-80 | `UInt("\(n)") == n` for every 64-bit unsigned n |
| `Decimal.NonNumericRejected` | Sources/LinkPreview/LinkPreviewMetadata.swift:64-80 | "abc", "12a", "-" and "" are not an `Int`; "-1" is not a `UInt`, while "-0" is zero |
| `Decimal.SignAndLeadingZerosAccepted` | Sources/LinkPreview/LinkPreviewMetadata.swift:64-76 | "+7" and "007" parse as 7 and "-007" as -7, as `Int(_:)` and `UInt(_:)` accept them |
| `Metadata.PredefinedNamesDistinct` | Sources/LinkPreview/LinkPreviewMetadata.swift:17-23 | the seven raw names are pairwise distinct; `canonicalURL` is "url" and `faviconURL` is "icon" |
| `Metadata.Merged` | Sources/LinkPreview/LinkPreviewMetadata.swift:37-47 | the name is kept; existing content wins and nil content adopts the incoming one; the metadata keys are the union, and on a shared key the existing value wins |
| `Metadata.Merge` | Sources/LinkPreview/LinkPreviewMetadata.swift:37-47 | the in-place merge, with its loop over the incoming metadata, leaves exactly the merged property |
| `Metadata.MergeIdempotent` | Sources/LinkPreview/LinkPreviewMetadata.swift:37-47 | merging the same property twice is merging it once |
| `Metadata.MergeWithNothing` | Sources/LinkPreview/LinkPreviewMetadata.swift:37-47 | merging a property with no content and no metadata is the identity |
| `Metadata.ParseValue` | Sources/LinkPreview/LinkPreviewMetadata.swift:55-89 | a parsed value has the requested type; a string parses as itself; an `Int`/`UInt` parses exactly when `Int(_:)`/`UInt(_:)` accepts the content, to the value it gives; a URL exists exactly when `URL(string:relativeTo: page.baseURL)` gives one, and is that URL |
| `Metadata.ValueContent` | Sources/LinkPreview/LinkPreviewMetadata.swift:59-88 | a string is stored as itself, an `Int`/`UInt` as a form `Int(_:)`/`UInt(_:)` parse back to it, a URL as its `absoluteString` |
| `Metadata.StringRoundTrip` | Sources/LinkPreview/LinkPreviewMetadata.swift:55-62 | a string is stored as itself and read back as itself |
| `Metadata.IntRoundTrip` | Sources/LinkPreview/LinkPreviewMetadata.swift:64-71 | an `Int` read back from its stored form is the same `Int` |
| `Metadata.UIntRoundTrip` | Sources/LinkPreview/LinkPreviewMetadata.swift:73-80 | a `UInt` read back from its stored form is the same `UInt` |
| `Metadata.NonNumericContent` | Sources/LinkPreview/LinkPreviewMetadata.swift:64-80 | content that is not a decimal literal reads as no `Int` and no `UInt` |
| `Previews.PropertyNamed` | Sources/LinkPreview/LinkPreview.swift:22-28 | present exactly when the name is a key, and then that key's entry |
| `Previews.Get` | Sources/LinkPreview/LinkPreview.swift:33-39 | nil when the key is absent or its content is nil; otherwise the parse of the content at the preview's URL, of the name's type |
| `Previews.WithValue` | Sources/LinkPreview/LinkPreview.swift:40-47 | an absent key gets a property named after it, with the serialised value (nil for nil) and no metadata; a present key keeps its name, its metadata and any content it has; no other key changes and the URL stays |
| `Previews.Set` | Sources/LinkPreview/LinkPreview.swift:40-47 | the setter's insert-or-merge leaves exactly that preview |
| `Previews.SetThenGetString` | Sources/LinkPreview/LinkPreview.swift:33-46 | setting a string on an absent key and reading it back gives that string |
| `Previews.SetNeverOverwrites` | Sources/LinkPreview/LinkPreview.swift:42-43 | on an entry that has content, the setter changes nothing at all |
| `Previews.StringProperty` | Sources/LinkPreview/LinkPreview.swift:64-72 | `title`/`description` are present exactly when the entry has content, and are that content |
| `Previews.StringPropertyIsGet` | Sources/LinkPreview/LinkPreview.swift:64-72 | the string accessors read what the typed getter reads |
| `Previews.UrlProperty` | Sources/LinkPreview/LinkPreview.swift:54-62 | a URL accessor is nil without stored content; with content it is `URL(string: content, relativeTo: url.baseURL)` |
| `Previews.MetadataTextOf` | Sources/LinkPreview/LinkPreview.swift:108-113 | the inner loop writes one "\n  key: value" line per key, in the given order |
| `Previews.MetadataText` | Sources/LinkPreview/LinkPreview.swift:108-113 | a property's metadata lines come in sorted key order; none without metadata |
| `Previews.EntryText` | Sources/LinkPreview/LinkPreview.swift:102-113 | one entry is the name, the quoted content (a "description" over 200 characters cut to 200 and marked " [truncated]") and its metadata lines |
| `Previews.EntriesStep` | Sources/LinkPreview/LinkPreview.swift:93-97 | a key adds its entry only when its content is not nil |
| `Previews.EntriesText` | Sources/LinkPreview/LinkPreview.swift:93-114 | the loop, with its `numberPrinted` counter, writes the entries of properties with content, in order, separated by "\n" |
| `Previews.DebugDescription` | Sources/LinkPreview/LinkPreview.swift:89-116 | the text lists every property with content in sorted key order, joined by newlines |
| `OpenGraphProcessor.NonEmpty` | Sources/LinkPreview/Processors/OpenGraphProcessor.swift:64-68 | nil exactly for the empty string, otherwise the string |
| `OpenGraphProcessor.TagKey` | Sources/LinkPreview/Processors/OpenGraphProcessor.swift:27-31 | a non-empty `property` attribute takes priority; otherwise the `name` attribute |
| `OpenGraphProcessor.TagWrite` | Sources/LinkPreview/Processors/OpenGraphProcessor.swift:27-53 | a tag writes exactly when it has a key of at least two non-empty segments and `content`; an `og` first segment is dropped and makes the write authoritative; the next segment names the property, and the one after it (if any) is the only metadata key; a non-`og` write always targets metadata |
| `OpenGraphProcessor.Written` | Sources/LinkPreview/Processors/OpenGraphProcessor.swift:44-59 | only `properties[name]` changes: it is created with that name if absent; the addressed slot becomes the value if the write is authoritative, or keeps its value with the new one only filling a nil; every other slot stays |
| `OpenGraphProcessor.Updated` | Sources/LinkPreview/Processors/OpenGraphProcessor.swift:22-25 | the URL stays, and without a document the preview is unchanged |
| `OpenGraphProcessor.StoreTag` | Sources/LinkPreview/Processors/OpenGraphProcessor.swift:26-60 | one iteration, with its `removeFirst` edits of `components`, stores exactly the tag's write |
| `OpenGraphProcessor.UpdateLinkPreview` | Sources/LinkPreview/Processors/OpenGraphProcessor.swift:16-61 | the loop over the `meta` tags applies their writes in document order |
| `OpenGraphProcessor.LastAuthoritative` | Sources/LinkPreview/Processors/OpenGraphProcessor.swift:48-57 | there is a last authoritative value exactly when some write to the slot is authoritative |
| `OpenGraphProcessor.SlotStepHit` | Sources/LinkPreview/Processors/OpenGraphProcessor.swift:48-57 | a write aimed at a slot keeps the slot at the value the precedence rule gives |
| `OpenGraphProcessor.SlotStepMiss` | Sources/LinkPreview/Processors/OpenGraphProcessor.swift:45-59 | a write aimed elsewhere leaves the slot alone |
| `OpenGraphProcessor.SlotStep` | Sources/LinkPreview/Processors/OpenGraphProcessor.swift:26-60 | one iteration keeps every slot at the value the precedence rule gives |
| `OpenGraphProcessor.SlotAfterTags` | Sources/LinkPreview/Processors/OpenGraphProcessor.swift:26-60 | after the loop, each slot holds the last `og` value written there; failing that, what it held before; failing that, the first value written there |
| `OpenGraphProcessor.NonOpenGraphNeverOverwrites` | Sources/LinkPreview/Processors/OpenGraphProcessor.swift:48-57 | without `og` tags, every slot that had a value keeps it |
| `OpenGraphProcessor.NoAuthoritativeWrites` | Sources/LinkPreview/Processors/OpenGraphProcessor.swift:35-39 | without `og` tags, no write to any slot is authoritative |
| `OpenGraphProcessor.ApplyTagsKeepsNames` | Sources/LinkPreview/Processors/OpenGraphProcessor.swift:45-59 | every stored property stays named after its key, and no key is removed |
| `OpenGraphProcessor.TagWithoutContentSkipped` | Sources/LinkPreview/Processors/OpenGraphProcessor.swift:41-43 | a tag without `content` changes nothing |
| `OpenGraphProcessor.ArticlePublishedTime` | Sources/LinkPreview/Processors/OpenGraphProcessor.swift:44-57 | "article:published_time" sets metadata `published_time` of `article`, only if empty |
| `OpenGraphProcessor.OpenGraphTitle` | Sources/LinkPreview/Processors/OpenGraphProcessor.swift:35-51 | "og:title" is the authoritative content of `title` |
| `OpenGraphProcessor.OpenGraphImageWidth` | Sources/LinkPreview/Processors/OpenGraphProcessor.swift:44-56 | "og:image:width:px" is the authoritative metadata `width` of `image`; the last segment is ignored |
| `OpenGraphProcessor.PlainDescriptionSkipped` | Sources/LinkPreview/Processors/OpenGraphProcessor.swift:32-33 | `name="description"` has one segment and is skipped |
| `OpenGraphProcessor.EmptyPropertyFallsBackToName` | Sources/LinkPreview/Processors/OpenGraphProcessor.swift:27-31 | an empty `property` falls back to `name` |
| `GenericHTMLProcessor.FirstMatch` | Sources/LinkPreview/Processors/GenericHTMLProcessor.swift:21-27 | a found element is in the list and passes the test; nothing is found exactly when no element passes |
| `GenericHTMLProcessor.FirstMatchIsFirst` | Sources/LinkPreview/Processors/GenericHTMLProcessor.swift:21-27 | no element before the found one passes the test |
| `GenericHTMLProcessor.FirstMatchOfSelect` | Sources/LinkPreview/Processors/GenericHTMLProcessor.swift:18-27 | scanning the selected elements is scanning the document for elements that match the selector and pass the test |
| `GenericHTMLProcessor.FindFaviconURL` | Sources/LinkPreview/Processors/GenericHTMLProcessor.swift:17-28 | the parsed `href` of the first link in document order whose `rel` is exactly one of the four values and whose `href` resolves; nil if there is none |
| `GenericHTMLProcessor.FindCanonicalURL` | Sources/LinkPreview/Processors/GenericHTMLProcessor.swift:30-45 | the first link whose `rel` equals "canonical" ignoring case, links whose access throws passed over; nil if there is none |
| `GenericHTMLProcessor.FindDescription` | Sources/LinkPreview/Processors/GenericHTMLProcessor.swift:47-57 | the `content` of the first `meta` named "description" ignoring case, nil there if it has none, and nil without such a tag |
| `GenericHTMLProcessor.FindTitle` | Sources/LinkPreview/Processors/GenericHTMLProcessor.swift:59-61 | never nil; empty when the document has no `title` element |
| `GenericHTMLProcessor.FindTitleOfOneTitle` | Sources/LinkPreview/Processors/GenericHTMLProcessor.swift:59-61 | a document whose only `title` element is the one at index k has that element's text as its title |
| `GenericHTMLProcessor.FindTitleJoinsTexts` | Sources/LinkPreview/Processors/GenericHTMLProcessor.swift:59-61 | when every `title` element has text, the title is their texts in document order, separated by single spaces |
| `GenericHTMLProcessor.ProbeComponents` | Sources/LinkPreview/Processors/GenericHTMLProcessor.swift:66-71 | present exactly when the URL has components; those components with the path "/favicon.ico" and the same scheme, host and query |
| `GenericHTMLProcessor.DefaultFaviconIfExists` | Sources/LinkPreview/Processors/GenericHTMLProcessor.swift:63-84 | the probe URL exactly when it exists and answers 200; any other status, or a throw, gives nil |
| `GenericHTMLProcessor.FillIfNil` | Sources/LinkPreview/Processors/GenericHTMLProcessor.swift:92-94 | one fill step keeps the URL, adds or removes no other key, and changes no entry with content |
| `GenericHTMLProcessor.FillStep` | Sources/LinkPreview/Processors/GenericHTMLProcessor.swift:92-94 | a guarded write through the setter is exactly that fill step |
| `GenericHTMLProcessor.FillFromDocument` | Sources/LinkPreview/Processors/GenericHTMLProcessor.swift:92-106 | the four guarded writes in the source's order |
| `GenericHTMLProcessor.UpdateLinkPreview` | Sources/LinkPreview/Processors/GenericHTMLProcessor.swift:86-111 | the document searches, then the probe, with the requests made |
| `GenericHTMLProcessor.FilledFromDocumentFrame` | Sources/LinkPreview/Processors/GenericHTMLProcessor.swift:92-106 | the fills touch only `url`, `title`, `description` and `icon`, and no entry that has content |
| `GenericHTMLProcessor.UpdatedFrame` | Sources/LinkPreview/Processors/GenericHTMLProcessor.swift:86-111 | the whole update keeps the URL, touches only those four names, and never an entry with content |
| `GenericHTMLProcessor.UpdatedRequests` | Sources/LinkPreview/Processors/GenericHTMLProcessor.swift:108-110 | the only request is the probe, made only when no favicon remains after the searches and additional requests are allowed |
| `GenericHTMLProcessor.FillKeepsString` | Sources/LinkPreview/Processors/GenericHTMLProcessor.swift:92-106 | a fill of another name leaves a string accessor as it was |
| `GenericHTMLProcessor.FillSetsString` | Sources/LinkPreview/Processors/GenericHTMLProcessor.swift:96-98 | a fill on a nil string accessor leaves it at the value found |
| `GenericHTMLProcessor.FillsTitle` | Sources/LinkPreview/Processors/GenericHTMLProcessor.swift:96-98 | with no title yet, the fills leave exactly the title found |
| `GenericHTMLProcessor.FillsDescription` | Sources/LinkPreview/Processors/GenericHTMLProcessor.swift:100-102 | with no description yet, the fills leave exactly the description found, or none |
| `GenericHTMLProcessor.ProbedKeepsString` | Sources/LinkPreview/Processors/GenericHTMLProcessor.swift:108-110 | the probe step leaves every string accessor other than `icon` alone |
| `GenericHTMLProcessor.UpdatedTitle` | Sources/LinkPreview/Processors/GenericHTMLProcessor.swift:96-98 | with no title yet, the update leaves the `findTitle` result |
| `GenericHTMLProcessor.UpdatedDescription` | Sources/LinkPreview/Processors/GenericHTMLProcessor.swift:100-102 | with no description yet, the update leaves the `findDescription` result |
| `GenericHTMLProcessor.UpdatedKeepsStrings` | Sources/LinkPreview/Processors/GenericHTMLProcessor.swift:92-106 | a title or description already there stays |
| `GenericHTMLProcessor.Updated` | Sources/LinkPreview/Processors/GenericHTMLProcessor.swift:86-111 | the URL stays, and the only request it can make is the favicon probe |
| `GenericHTMLProcessor.Probed` | Sources/LinkPreview/Processors/GenericHTMLProcessor.swift:108-110 | the probe is requested only when the favicon getter is nil and additional requests are allowed; without that permission nothing changes |
| `GenericHTMLProcessor.FillSetsContent` | Sources/LinkPreview/Processors/GenericHTMLProcessor.swift:92-106 | a fill on an entry without content stores the found value's content there |
| `GenericHTMLProcessor.UpdatedCanonicalURL` | Sources/LinkPreview/Processors/GenericHTMLProcessor.swift:92-94 | with no `url` content yet, the update stores the `absoluteString` of what `findCanonicalURL` gives, or no content |
| `GenericHTMLProcessor.FilledFavicon` | Sources/LinkPreview/Processors/GenericHTMLProcessor.swift:104-106 | with no `icon` content yet, the fills store the content of the favicon found |
| `GenericHTMLProcessor.ProbedFavicon` | Sources/LinkPreview/Processors/GenericHTMLProcessor.swift:108-110 | the probe stores the probed URL in an `icon` entry without content when requests are allowed, and keeps content already there |
| `GenericHTMLProcessor.UpdatedFavicon` | Sources/LinkPreview/Processors/GenericHTMLProcessor.swift:104-110 | with no `icon` content yet, the update stores the favicon link found; without one, the probed `/favicon.ico` if requests are allowed and it answered 200; otherwise no content |
| `WikipediaAPIProcessor.FromPage` | Sources/LinkPreview/Processors/WikipediaAPIProcessor.swift:81-87 | the page-record fill keeps the URL |
| `WikipediaAPIProcessor.Fetch` | Sources/LinkPreview/Processors/WikipediaAPIProcessor.swift:46-90 | the query construction, the request and the answer handling give exactly the API step |
| `WikipediaAPIProcessor.UpdateLinkPreview` | Sources/LinkPreview/Processors/WikipediaAPIProcessor.swift:15-91 | the guard chain in the source's order, then the short description, then the API |
| `WikipediaAPIProcessor.ShortDescription` | Sources/LinkPreview/Processors/WikipediaAPIProcessor.swift:35-36 | empty without a `div.shortdescription`; when each has text, their texts in document order separated by spaces |
| `WikipediaAPIProcessor.ApiUrl` | Sources/LinkPreview/Processors/WikipediaAPIProcessor.swift:46-61 | the URL Foundation builds from `https`, the page's host, `/w/api.php` and the six query items in order |
| `WikipediaAPIProcessor.Fetched` | Sources/LinkPreview/Processors/WikipediaAPIProcessor.swift:59-90 | the API step keeps the URL and requests at most the API URL |
| `WikipediaAPIProcessor.Updated` | Sources/LinkPreview/Processors/WikipediaAPIProcessor.swift:15-91 | the URL stays, and the only request it can make is the API URL |
| `WikipediaAPIProcessor.GuardsLeaveAlone` | Sources/LinkPreview/Processors/WikipediaAPIProcessor.swift:22-33 | off `wikipedia.org`, without a document, or with a description, nothing changes and nothing is requested |
| `WikipediaAPIProcessor.NoRequestsLeavesAlone` | Sources/LinkPreview/Processors/WikipediaAPIProcessor.swift:35-44 | without a non-empty short description and with additional requests disallowed, nothing changes and nothing is requested |
| `WikipediaAPIProcessor.ShortDescriptionUsed` | Sources/LinkPreview/Processors/WikipediaAPIProcessor.swift:35-39 | a non-empty short description becomes the description, with no request |
| `WikipediaAPIProcessor.UpdatedRequests` | Sources/LinkPreview/Processors/WikipediaAPIProcessor.swift:42-65 | the only request is the API call, made only when every guard has passed, there is no short description and additional requests are allowed |
| `WikipediaAPIProcessor.ApiRequestNamesArticle` | Sources/LinkPreview/Processors/WikipediaAPIProcessor.swift:46-57 | the request goes to `https`, the page's host and "/w/api.php", with `titles` the URL's last path component |
| `WikipediaAPIProcessor.FailedAnswerLeavesAlone` | Sources/LinkPreview/Processors/WikipediaAPIProcessor.swift:66-79 | a throw, a non-200 status or an answer without a page record changes nothing |
| `WikipediaAPIProcessor.FromPageFills` | Sources/LinkPreview/Processors/WikipediaAPIProcessor.swift:81-87 | without a description, the extract becomes it; the title is the existing one, else the page's |
| `WikipediaAPIProcessor.KeptTransitive` | Sources/LinkPreview/Processors/WikipediaAPIProcessor.swift:81-87 | keeping the rest of the preview composes across the two fills |
| `WikipediaAPIProcessor.WithValueKept` | Sources/LinkPreview/Processors/WikipediaAPIProcessor.swift:81-87 | a write of `title` or `description` keeps every other key and every entry with content |
| `WikipediaAPIProcessor.FromPageKept` | Sources/LinkPreview/Processors/WikipediaAPIProcessor.swift:81-87 | the page-record fill keeps the rest of the preview |
| `WikipediaAPIProcessor.FetchedKept` | Sources/LinkPreview/Processors/WikipediaAPIProcessor.swift:63-90 | the API step keeps the rest of the preview |
| `WikipediaAPIProcessor.UpdatedFrame` | Sources/LinkPreview/Processors/WikipediaAPIProcessor.swift:15-91 | the URL stays; only `title` and `description` can change, and only where they have no content |
| `WikipediaAPIProcessor.EnglishWikipediaRecognised` | Sources/LinkPreview/Processors/WikipediaAPIProcessor.swift:22-24 | "en.wikipedia.org" passes the host guard |
| `Provider.Registered` | Sources/LinkPreview/LinkPreviewProvider.swift:29-34 | the identity is present afterwards; the old list is a prefix; the length grows by one exactly when it was absent |
| `Provider.FirstIndex` | Sources/LinkPreview/LinkPreviewProvider.swift:37 | found exactly when present, at an index holding it with no earlier occurrence |
| `Provider.Unregistered` | Sources/LinkPreview/LinkPreviewProvider.swift:36-41 | an absent identity changes nothing; otherwise exactly one occurrence is removed |
| `Provider.RegisteredKeepsDistinct` | Sources/LinkPreview/LinkPreviewProvider.swift:29-34 | registering keeps the registry free of duplicates |
| `Provider.RegisterIdempotent` | Sources/LinkPreview/LinkPreviewProvider.swift:29-34 | registering twice is registering once |
| `Provider.RemovalKeepsDistinct` | Sources/LinkPreview/LinkPreviewProvider.swift:40 | removing one element keeps a list duplicate-free |
| `Provider.UnregisteredKeepsDistinct` | Sources/LinkPreview/LinkPreviewProvider.swift:36-41 | unregistering keeps the registry duplicate-free and leaves the identity absent |
| `Provider.RemovalIsSubsequence` | Sources/LinkPreview/LinkPreviewProvider.swift:40 | `remove(at:)` keeps the other elements in order |
| `Provider.UnregisterKeepsOrder` | Sources/LinkPreview/LinkPreviewProvider.swift:36-41 | unregistering keeps the relative order of the rest |
| `Provider.RegisterThenUnregister` | Sources/LinkPreview/LinkPreviewProvider.swift:29-41 | registering a new identity and unregistering it restores the registry |
| `Provider.DefaultRegistry` | Sources/LinkPreview/LinkPreviewProvider.swift:16-22 | the defaults are OpenGraph, generic HTML, Wikipedia, with no duplicates |
| `Provider.Applying` | Sources/LinkPreview/LinkPreviewProvider.swift:62-64 | the processors that run are registered ones that apply |
| `Provider.RunStepsSkipsInapplicable` | Sources/LinkPreview/LinkPreviewProvider.swift:61-72 | running the registry is running only the processors that apply, in the same order |
| `Provider.RunStepsAppend` | Sources/LinkPreview/LinkPreviewProvider.swift:61-72 | running two lists in a row is running their concatenation, with the requests in order |
| `Provider.WithDefaultUserAgent` | Sources/LinkPreview/LinkPreviewProvider.swift:45 | setting the default `User-Agent` keeps the request's URL |
| `Provider.AcceptedStatusRange` | Sources/LinkPreview/LinkPreviewProvider.swift:50-52 | 200 and 298 are accepted; 199, 299 and 300 are not |
| `Provider.StatusAccepted` | Sources/LinkPreview/LinkPreviewProvider.swift:50 | accepted exactly for a 2xx status other than 299 |
| `Provider.LoadedWithStatus` | Sources/LinkPreview/LinkPreviewProvider.swift:43-56 | `load(with:)` fails with the status exactly when an HTTP response is outside 200..<299, and succeeds only on an accepted one |
| `Provider.LoadedWith` | Sources/LinkPreview/LinkPreviewProvider.swift:43-56 | a thrown session error fails, a non-HTTP response is `invalidResponse`, and an accepted one is loaded as HTML at the response's URL, else the request's |
| `Provider.LoadedHtml` | Sources/LinkPreview/LinkPreviewProvider.swift:58-74 | fails exactly when the parser throws, with the parser's error |
| `Provider.RunProcessor` | Sources/LinkPreview/LinkPreviewProvider.swift:65-71 | each processor type runs its own `updateLinkPreview` |
| `Provider.LinkPreviewProvider.constructor` | Sources/LinkPreview/LinkPreviewProvider.swift:22-27 | a new provider has the default processors and options, with no duplicates |
| `Provider.LinkPreviewProvider.RegisterProcessor` | Sources/LinkPreview/LinkPreviewProvider.swift:29-34 | the registry becomes the registered list, the options stay, and no duplicates appear |
| `Provider.LinkPreviewProvider.UnregisterProcessor` | Sources/LinkPreview/LinkPreviewProvider.swift:36-41 | the registry becomes the unregistered list, the options stay, and the identity is gone |
| `Provider.LinkPreviewProvider.LoadHtml` | Sources/LinkPreview/LinkPreviewProvider.swift:58-74 | a parse failure throws; otherwise the processors that apply run in registry order, starting from an empty preview bound to the URL |
| `Provider.LinkPreviewProvider.LoadWith` | Sources/LinkPreview/LinkPreviewProvider.swift:43-56 | a session error throws; a non-HTTP response is `invalidResponse` and a rejected status is `unsuccessfulHTTPStatus`; otherwise the body is loaded at the response's URL, or the request's |
| `Scenarios.ExampleIsNotWikipedia` | Sources/LinkPreview/Processors/WikipediaAPIProcessor.swift:22-24 | an `example.com` URL does not pass the Wikipedia host guard |
| `Scenarios.DefaultLoad` | Sources/LinkPreview/LinkPreviewProvider.swift:58-74 | outside Wikipedia, a default load is the OpenGraph processor, then the generic one, each if it applies |
| `Scenarios.OpenGraphOnFirstPage` | Tests/LinkPreviewTests/LinkPreviewTests.swift:22-32 | on the `og:title` page, the OpenGraph processor stores the title "Title" and no description |
| `Scenarios.OpenGraphOnSecondPage` | Tests/LinkPreviewTests/LinkPreviewTests.swift:34-44 | on the `<title>` page, the OpenGraph processor accepts no tag |
| `Scenarios.DescriptionFoundOnFirstPage` | Tests/LinkPreviewTests/LinkPreviewTests.swift:22-32 | `findDescription` on the first page gives "Hello, world" |
| `Scenarios.DescriptionFoundOnSecondPage` | Tests/LinkPreviewTests/LinkPreviewTests.swift:34-44 | `findDescription` on the second page gives "Hello, world" |
| `Scenarios.TitleFoundOnSecondPage` | Tests/LinkPreviewTests/LinkPreviewTests.swift:34-44 | `findTitle` on the second page gives "Title" |
| `Scenarios.DescriptionFallback` | Tests/LinkPreviewTests/LinkPreviewTests.swift:22-32 | loading the `og:title` page at example.com succeeds with title "Title" and description "Hello, world" |
| `Scenarios.TitleFallback` | Tests/LinkPreviewTests/LinkPreviewTests.swift:34-44 | loading the `<title>` page at example.com succeeds with title "Title" and description "Hello, world" |
| `LegacyLinkPreview.OgKey` | Sources/LinkPreview.swift:28-33 | present exactly for a non-empty `property` that starts with "og:", and then the rest of it |
| `LegacyLinkPreview.Write` | Sources/LinkPreview.swift:32-44 | only `og:` tags with `content` write, and they write that content; a key without ':' sets that property's content; a key with ':' writes metadata field `pieces[1]` of property `pieces[0]` when it splits into two or more pieces, the content of its one piece when it splits into one, and nothing when it splits into none |
| `LegacyLinkPreview.WriteAgreesWhereNoTrap` | Sources/LinkPreview.swift:37-44 | wherever the loop body as written does not trap, the bounds-checked write is the same |
| `LegacyLinkPreview.TrailingColonTraps` | Sources/LinkPreview.swift:37-41 | `og:title:` traps the loop as written, while the bounds-checked loop stores the title |
| `LegacyLinkPreview.Stored` | Sources/LinkPreview.swift:41-43 | only the target property is added or changed |
| `LegacyLinkPreview.StoreTag` | Sources/LinkPreview.swift:27-46 | one iteration stores exactly the tag's write |
| `LegacyLinkPreview.Parse` | Sources/LinkPreview.swift:24-49 | `init(document:at:)` with its loop body bounds-checked (the Findings row): stores the `meta[property]` tags' writes in document order; on a tag meeting `Traps` the source traps, while this loop stores what `Write` gives |
| `LegacyLinkPreview.LastWrite` | Sources/LinkPreview.swift:41-43 | a last write exists only if some tag writes that slot |
| `LegacyLinkPreview.StoredSlot` | Sources/LinkPreview.swift:41-43 | a write overwrites the slot it aims at and leaves the others |
| `LegacyLinkPreview.LastWriterWins` | Sources/LinkPreview.swift:25-47 | after the loop, a slot holds the value of the last tag aimed at it, or its old value if none is |
| `LegacyLinkPreview.StoredTagsKeepNames` | Sources/LinkPreview.swift:41-43 | every stored property is named after its key |
| `LegacyLinkPreview.NonOpenGraphTagSkipped` | Sources/LinkPreview.swift:26-36 | a tag that is not an `og:` tag with `content` changes nothing |
| `LegacyLinkPreview.Get` | Sources/LinkPreview.swift:14-22 | nil when the property or its content is absent; otherwise the parse of the content at the page URL |
| `LegacyLinkPreview.OgText` | Sources/LinkPreview.swift:14-22 | at a string name, the stored content |
| `LegacyLinkPreview.FromHtml` | Sources/LinkPreview.swift:139-143 | throws exactly when the parse does; otherwise the URL, the document and its OpenGraph metadata |
| `LegacyLinkPreview.FaviconURL` | Sources/LinkPreview.swift:104-116 | the first link whose `rel` is exactly one of the four values; nil without one |
| `LegacyLinkPreview.CanonicalURL` | Sources/LinkPreview.swift:122-137 | the first link whose `rel` equals "canonical" ignoring case; the page's own URL, not nil, without one |
| `LegacyLinkPreview.CanonicalAcrossRevisions` | Sources/LinkPreview.swift:122-137 | with a canonical link both revisions agree; without one this revision gives the page URL and the later one nil |
| `LegacyLinkPreview.Description` | Sources/LinkPreview.swift:145-162 | the OpenGraph description if there is one, else the first `meta` named "description" ignoring case |
| `LegacyLinkPreview.Title` | Sources/LinkPreview.swift:156-166 | never nil: the OpenGraph title if there is one, else the `title` text |
| `LegacyLinkPreview.MediaURL` | Sources/LinkPreview.swift:168-178 | `imageURL`/`videoURL`/`audioURL` exist exactly when the property's content resolves relative to the page URL's `baseURL`, and are that URL |
| `LegacyLinkPreview.ImageURL` | Sources/LinkPreview.swift:168-170 | `imageURL` is the `image` content resolved relative to the page, nil without content |
| `LegacyLinkPreview.VideoURL` | Sources/LinkPreview.swift:172-174 | `videoURL` is the `video` content resolved relative to the page, nil without content |
| `LegacyLinkPreview.AudioURL` | Sources/LinkPreview.swift:176-178 | `audioURL` is the `audio` content resolved relative to the page, nil without content |
| `LegacyLinkPreview.LoadedWith` | Sources/LinkPreview.swift:199-214 | a thrown session error fails, a non-HTTP response is `invalidResponse`, a status outside 200..<299 is `unsuccessfulHTTPStatus` with it, and an accepted response is parsed at its URL, else the request's |
| `LegacyLinkPreview.LoadedFrom` | Sources/LinkPreview.swift:216-221 | a plain request for a URL always has a page URL to fall back on; a successful load came from an accepted HTTP response and is bound to the response's URL, else the requested one |
| `LegacyLinkPreview.LoadAcrossRevisions` | Sources/LinkPreview.swift:199-214 | `load(with:)` fails in this revision exactly when the provider's does, with the same error |

## Left out

- Network I/O is not modelled: `URLSession.data(for:)`, `HTTPClient.execute`, the 1 s and 5 s timeouts, and the 1 MB body limit. Their outcomes are parameters: the session's answer, the favicon probe's status, and the Wikipedia answer.
- JSON decoding of the Wikipedia answer is not modelled. The answer's payload is the first page record of `query.pages`, or none when the body does not have that shape. Which record `pages.first` picks from an unordered dictionary is not modelled.
- HTML parsing and CSS selectors are not modelled.
  - A document is its elements in document order.
  - `select` is modelled for the three selector forms the core uses (`tag`, `tag[attr]`, `tag.class`).
  - `absUrl("href")` is a per-element input.
  - `Elements.text()` is each element's whole `text()`, with a space after any text that came before.
- A missing attribute is modelled as a failed `try? attr(...)`. SwiftSoup answers an empty string instead; a page that relies on this is written with the attribute present and empty.
- Foundation's URL parsing and resolution are not modelled: `URL(string:)`, `URL(string:relativeTo: baseURL)`, `URLComponents`, `lastPathComponent`. They are parameters.
- Dictionary keys and `sorted()` compare strings by Unicode scalars, not by Swift's canonical equivalence. Keys such as "e\u{301}" and "\u{e9}" are one key in Swift and two in the model.
- `caseInsensitiveCompare`, and the case-insensitive header-name match of `setValueIfNotSet`, are approximated by folding ASCII letters to lower case. Foundation's locale-aware comparison is not modelled.
- The 200-character truncation of `debugDescription` counts `char`s, not Swift grapheme clusters.
- `async`/`await`, `Sendable` and cancellation are not modelled. The processor loop is sequential.
- Processor activation (`applies(to:)` and `MetadataProcessorActivationRule`) is a parameter. The rule datatype is declared but not evaluated.
- A client processor's effect is a parameter (`Environment.custom`).
- The package test that expects a custom processor to replace an existing title is not modelled. Through the merging setter that cannot happen (`Previews.SetNeverOverwrites`).
- The two tests that load live sites need the network and are not modelled.
- `hostFaviconURL`, in both revisions, is not modelled. It is a single Foundation call, `URL(string: "favicon.ico", relativeTo: baseURL)`, and nothing in the core uses it.
- The older revision's `debugDescription` is not modelled. It prints in dictionary iteration order, which Swift leaves unspecified.
- `LinkPreviewURLRequest.swift`, `URLRequest+Extensions.swift`, the `WebsiteSpecificUserAgent` lookup, `Sources/LinkPreviewCLI/Main.swift` and `Package.swift` are not part of this model. `Provider.WithDefaultUserAgent` stands for `setValueIfNotSet` on the `User-Agent` field.
- The options' `websiteSpecificUserAgents` and `requestTimeout` are carried but read by nothing in the core.
- The `urlSession` field and the `in session:` parameter are represented by the session function of `Provider.Environment`.
- The error case `unableToParseResponse` is never thrown by the code. A parse failure surfaces as the parser's own error, which the model calls `Thrown`.
- `Provider.LinkPreviewProvider.LoadWith`: requires `Provider.HasPageUrl`. The source force-unwraps `request.url` when an accepted response has no URL, and traps there. `LegacyLinkPreview.LoadedWith` has the same precondition.
- `GenericHTMLProcessor.UpdateLinkPreview`: runs all four document searches before the fills rather than each one under its guard. The searches have no effect, so the outcome is the same.
- `Previews.DebugDescription`: specified through a ghost sorted listing of the keys. `Sorting.Sorted` computes that listing by repeated minimum selection, not by Swift's sorting algorithm.

## Findings

| source | as written | input that shows it | evidently intended | confidence | as-written member | corrected member |
|---|---|---|---|---|---|---|
| Sources/LinkPreview.swift:37-41 | whenever the key after `og:` contains ':', `pieces[1]` is read without checking that `split` gave two pieces | `<meta property="og:title:" content="x">`: "title:" splits into ["title"], so `pieces[1]` is out of range and the process traps (likewise "og::", which splits into nothing) | store the one piece's content, as the later `OpenGraphProcessor` does for "og:title:" (["og", "title"]), and skip a key with no piece | not executed; high that it traps, medium on the intended result | `LegacyLinkPreview.TrailingColonTraps` | `LegacyLinkPreview.Write` |
