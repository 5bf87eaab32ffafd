# metascraper resolver, modelled in Dafny

This project models the metadata resolver of `metascraper.ts`. The resolver
is the default export, which takes a URL and gives back a record of page
metadata or null. It works in three steps:

1. It trims the URL and gives up on an empty one.
2. It fetches the URL and gives up on a response that is not ok.
3. It classifies the response by its `content-type` header:
   - For an HTML page, it builds the record step by step. It sets `type` to
     `html`. Then, for each of seventeen fields, it evaluates a chain of
     lookups combined with JavaScript `||` and assigns the field when the
     chain produced a non-empty string.
   - For every other response the record is just `{type: image | video | audio | unknown}`.

The lookups are `getMeta(key, doc)` and two others:
- `getMeta` takes the `content` of the first `meta[name=key]`. Only when no
  such element exists does it take the first `meta[property=key]`.
- The `href` of the first `link[rel='icon']`.
- The text of the `<title>` of the page the resolver itself runs in.

Modules, one file each:

- `Wrappers` (`wrappers.dfy`): `Option`.
- `Dom` (`dom.dfy`): a parsed document is a sequence of elements in document
  order. Each element has a tag and an attribute map. `querySelector` is the
  first element that matches. `getAttribute` gives null for a missing attribute.
- `JsString` (`js_string.dfy`): `trim`, using ECMAScript's white-space and
  line-terminator set. `includes`. `replace` with a one-character string pattern.
- `MetaLookup` (`meta_lookup.dfy`): `getMeta`.
- `Fallback` (`fallback.dfy`): the chain operands and the `||` chains. A
  value is truthy when it is a non-empty string. `||` yields the first truthy
  operand, or else its last operand.
- `ContentType` (`content_type.dfy`): the case-sensitive classification of
  the header, tried in the order html, image, video, audio.
- `Fields` (`fields.dfy`): the seventeen fields, their output keys and their
  exact chains. It also defines the record of an HTML page as a function
  (`HtmlRecord`) and gives its characterisation (`DescribesPage`).
- `Precedence` (`precedence.dfy`): what the chains imply for particular fields.
- `Metascraper` (`metascraper.dfy`): the resolver itself. It is a method that
  builds the record in place, field by field, as the source does. It is
  proved equal to the answer function `Answer`.

Two behaviours of the code are kept where the standards suggest otherwise:
- The header tests are case-sensitive substring tests, so `Text/HTML` is
  `unknown`, although section 8.3.1 of RFC 9110 makes media types
  case-insensitive.
- `replace("@", "")` removes the first `@` of `twitter:site` wherever that
  `@` is, not only a leading one.

## Model

| member | source | states |
|---|---|---|
| Metascraper.Scrape | metascraper.ts:6-189 | A URL that trims to empty makes no request and yields null. Otherwise exactly the trimmed URL is requested and the result is `Answer` of its response. |
| Metascraper.BuildRecord | metascraper.ts:24-185 | For a successful response, the if-chain over the `content-type` header builds exactly the record `Answer` gives. |
| Metascraper.AnswerForHtml | metascraper.ts:26-31 | A successful response whose header contains `text/html` is answered with `HtmlRecord` of its body. |
| Metascraper.AnswerForOtherKind | metascraper.ts:177-185 | Any other successful response is answered with a record holding only `type`, the classified kind's name. |
| Metascraper.Answer | metascraper.ts:22-31 | Null exactly when the response is not ok. Otherwise `type` is the classified kind. A non-HTML record holds only `type`. An HTML record satisfies `DescribesPage` for the body. |
| Metascraper.AssignIfTruthy | metascraper.ts:44 | One `if (x) data.x = x` step: a non-empty string is stored under the key, and anything else leaves the record unchanged. |
| Metascraper.AssignFields | metascraper.ts:31-174 | The seventeen `if (x) data.x = x` steps, run in source order from `{type: "html"}`, build exactly `HtmlRecord` of the page. |
| Fields.AssignedInOrder | metascraper.ts:44-174 | Assigning the fields one at a time in source order gives the same record as the field-order fold `Collect`. |
| Fields.CollectNext | metascraper.ts:44-174 | One more conditional assignment extends the record of the fields before it. |
| Fields.CollectCharacterized | metascraper.ts:44-174 | A field's key is in the record iff its value is truthy, and then it holds that exact value. Every key comes from a field. |
| Fields.HtmlRecordDescribesPage | metascraper.ts:31-174 | The record has `type` = `html`. Each field's key is present iff its chain produced a non-empty string, and then holds that string. No other keys are present. |
| Fields.DescribesPageUnique | metascraper.ts:31-174 | At most one record satisfies that description for a page, so the description determines the record. |
| Fields.RecordEntry | metascraper.ts:44-174 | Entry of one field in the page's record: present iff its chain is truthy, holding the chain's value. |
| Fields.ValueIsEarliest | metascraper.ts:34-172 | A field's value is the earliest operand of its chain that is a non-empty string, whatever follows it. |
| Fields.FieldOmittedIff | metascraper.ts:44-174 | A field is left out of the record iff no operand of its chain is a non-empty string. |
| Fields.KeysDistinct | metascraper.ts:44-174 | Every field is assigned. Distinct fields have distinct keys, and none of them is `type`. |
| Fields.KeyNamesField | metascraper.ts:44-174 | Each field's output key names that field, and the field is in the evaluation order. |
| Fields.KeyInjective | metascraper.ts:44-174 | Two distinct fields never write the same key. |
| Fields.FieldNamedInverse | metascraper.ts:44-174 | A key that names a field is that field's output key. |
| Fields.Field.Key | metascraper.ts:44-174 | The seventeen output keys, `title` to `updateDate`. Their distinctness and their difference from `type` are stated by `Fields.KeysDistinct`. |
| Fields.Value | metascraper.ts:34-172 | The value of one field's chain on a page. It is characterised by `Fields.ValueIsEarliest` and `Fields.FieldOmittedIff`. |
| Fields.HtmlRecord | metascraper.ts:31-174 | The record of an HTML page as a function of the page. It is characterised by `Fields.HtmlRecordDescribesPage`. |
| Fields.DescribesPage | metascraper.ts:31-174 | What a record of an HTML page is: `type` is `html`, and each field's key is present iff its chain is truthy, holding that value. No other key is present. |
| Fields.Field.Chain | metascraper.ts:34-172 | Every chain has at least one operand. The operands are exactly the source's, in order. |
| Fallback.Truthy | metascraper.ts:44 | JavaScript truthiness of a string-or-null: a non-empty string. |
| Fallback.Or | metascraper.ts:34-42 | JavaScript's logical or of two values is one of them, and it is truthy iff either operand is. |
| Fallback.Eval | metascraper.ts:35-50 | The four operand kinds: `getMeta(key)`, `getMeta(key)?.replace("@", "")`, the text of the ambient `<title>`, and the `href` of the first `link[rel='icon']` (`metascraper.ts:139`). |
| Fallback.Resolve | metascraper.ts:34-42 | The value of one chain: the logical or of its evaluated operands, characterised by `Fallback.OrAll` and `Fallback.EarliestTruthyWins`. |
| Fallback.OrAll | metascraper.ts:34-42 | A chain of logical ors is truthy iff one of its operands is, and its value is one of its operands. |
| Fallback.EarliestTruthyWins | metascraper.ts:34-42 | The chain's value is its first truthy operand. |
| Fallback.AllFalsyGivesLast | metascraper.ts:34-42 | With no truthy operand, the chain's value is its last operand. |
| Fallback.LaterOperandsIrrelevant | metascraper.ts:34-42 | Operands after a truthy one can be replaced by anything without changing the chain. |
| Fallback.RepeatedOperandRedundant | metascraper.ts:112-122 | An operand repeated right after itself does not change the chain. |
| MetaLookup.GetMeta | metascraper.ts:191-197 | A non-null result is the `content` of some `meta` element whose `name` or `property` is the key. With no `meta[name=key]` and no `meta[property=key]` the result is null. |
| MetaLookup.NameMatchDecides | metascraper.ts:191-193 | The first `meta[name=key]` decides, whatever its `content` is. |
| MetaLookup.PropertyMatchDecides | metascraper.ts:194-195 | Without any `meta[name=key]`, the first `meta[property=key]` decides. |
| MetaLookup.NameWithoutContentShadowsProperty | metascraper.ts:191-197 | A `name` match without `content` yields null even when a `property` match with content follows. |
| MetaLookup.PropertyUsedWithoutName | metascraper.ts:194-195 | A lone `meta[property=key]` supplies the value. |
| Dom.GetAttribute | metascraper.ts:193 | `getAttribute`: the attribute's value, or null when the element lacks it. |
| Dom.IndexOfFirst | metascraper.ts:192 | The index found is the first matching element, and none means no element matches. |
| Dom.QuerySelector | metascraper.ts:192 | Null iff nothing matches. Otherwise the result matches and belongs to the document. |
| Dom.Filter | metascraper.ts:192 | Lists exactly the matching elements of the document: every element listed matches and belongs to the document, and every matching element is listed. |
| Dom.QuerySelectorIsFirstOfFilter | metascraper.ts:192 | `querySelector` is the head of the list of all matches, or null when that list is empty. |
| Dom.QuerySelectorFirst | metascraper.ts:192 | A matching element with no match before it is the answer: `querySelector` returns the first match in document order. |
| Dom.QuerySelectorUnaffectedByNonMatching | metascraper.ts:192 | A non-matching element placed first does not change the answer. |
| JsString.Trim | metascraper.ts:9-10 | The trimmed URL has no white space at either end. It is empty iff the URL is all white space. |
| JsString.TrimIsSlice | metascraper.ts:9 | `trim` keeps one contiguous slice of the URL and drops only white space. |
| JsString.TrimStart | metascraper.ts:9 | Drops a white-space prefix, keeps a suffix, and starts with non-white space. |
| JsString.TrimEnd | metascraper.ts:9 | Drops a white-space suffix, keeps a prefix, and ends with non-white space. |
| JsString.TrimIdempotent | metascraper.ts:9 | Trimming twice is trimming once. |
| JsString.Contains | metascraper.ts:26 | `includes`: a case-sensitive substring test, characterised by `JsString.ContainsIffOccurs`. |
| JsString.ContainsIffOccurs | metascraper.ts:26 | `includes` holds iff the needle occurs at some position of the header. |
| JsString.RemoveFirst | metascraper.ts:50 | `replace("@", "")` leaves a string without `@` unchanged and otherwise removes one character. |
| JsString.IndexOf | metascraper.ts:50 | The position found holds the first occurrence of the character. |
| JsString.RemoveFirstCutsAtIndex | metascraper.ts:50 | `replace` removes exactly the first `@` and keeps the rest in order. |
| ContentType.HeaderIncludes | metascraper.ts:26 | `headers.get("content-type")?.includes(needle)`: false when the header is missing. |
| ContentType.Classify | metascraper.ts:26-185 | Any kind but `unknown` has its substring in the header, and a missing header is `unknown`. |
| ContentType.ClassifyIsFirstIncluded | metascraper.ts:26-185 | The kind is the first of html, image, video, audio whose substring the header contains. It is `unknown` iff the header contains none of them. |
| ContentType.MissingFirstCharacter | metascraper.ts:26 | A needle whose first character is absent from the header is not included. |
| ContentType.MissingHeaderIsUnknown | metascraper.ts:26-185 | A response without a `content-type` header is `unknown`. |
| ContentType.PngIsImage | metascraper.ts:177-178 | `image/png` is classified as image. |
| ContentType.ImageWhenNotHtml | metascraper.ts:26-182 | A header without `text/html` that contains `image` is image, whatever else it contains, because the image test runs before the video and audio tests. |
| ContentType.ImageTestedBeforeVideo | metascraper.ts:177-180 | The header `video/image` is image, because the image test runs before the video test. |
| ContentType.UpperCaseHtmlIsUnknown | metascraper.ts:26-185 | `Text/HTML` is not HTML nor anything else: the tests are case-sensitive. |
| Precedence.TwitterTitleFirst | metascraper.ts:34-35 | A non-empty `twitter:title` is the title. |
| Precedence.OgTitleSecond | metascraper.ts:34-36 | Without a usable `twitter:title`, a non-empty `og:title` is the title. |
| Precedence.PageTitleThird | metascraper.ts:34-37 | Without either, the ambient page's `<title>` is the title, ahead of the `title` meta. |
| Precedence.TwitterImageFirst | metascraper.ts:80-81 | A non-empty `twitter:image` beats `og:image` and every later source. |
| Precedence.SiteNameFirst | metascraper.ts:46-47 | `og:site_name` is taken unchanged, `@` included. |
| Precedence.SiteNameFromTwitterSite | metascraper.ts:46-50 | The last resort is `twitter:site` with its first `@` removed. |
| Precedence.BareAtSiteOmitted | metascraper.ts:46-52 | A `twitter:site` of just `@` evaluates to the empty string, and the record has no `siteName` key. |
| Precedence.TwitterHandleStripped | metascraper.ts:46-50 | A lone `twitter:site` of `@example` gives the site name `example`. |
| Precedence.FaviconPrefersIconLink | metascraper.ts:138-139 | A non-empty `href` on the first `link[rel='icon']` is the favicon, ahead of the msapplication keys. |
| Precedence.LoneMetaOtherKey | metascraper.ts:191-197 | A document whose only `meta` has some other `name` answers null. |
| Precedence.IssuedDateNeverFound | metascraper.ts:162-168 | The chain asks for `dc.date.issued ` with a trailing space, so a page dated only by `dc.date.issued` evaluates to null for the creation date, and its record has no `creationDate` key. |
| Precedence.VideoWidthRepeatRedundant | metascraper.ts:112-115 | The second `og:video:width` probe changes nothing. |
| Precedence.VideoHeightRepeatRedundant | metascraper.ts:119-122 | The second `og:video:height` probe changes nothing. |
| Precedence.ImageWidthVerbatim | metascraper.ts:89-90 | A non-empty `twitter:image:width` is the image width, the page's string unchanged. It is not parsed as a number. |

## Left out

- Failed requests: `await fetch(…)` (`metascraper.ts:15`) and `await siteData.text()` (`metascraper.ts:27`) reject on a transport failure, and then the whole call rejects instead of returning null. `Scrape` takes `fetch` as a total function, so that error path is not modelled.
- Key order: the returned object keeps insertion order (`type` first, then the fields in assignment order), which `Object.keys` and `JSON.stringify` show. A `map<string, string>` has no order, so the model states which keys and values the record has but not their order.
- The network request and its options (`metascraper.ts:15-20`) and the `async`/`await` sequencing. `Scrape` takes `fetch` as a function from URL to response. A response is its ok flag, its optional `content-type` value and its body as a parsed document.
- HTML parsing by `DOMParser` (`metascraper.ts:27-29`). The body is given already parsed, as a sequence of elements with attribute maps.
- Selector strings (`metascraper.ts:139`, `192`, `194`), including keys that contain quotes. A selector is an equality test on one attribute.
- `rel` matching: HTML compares the `rel` value of `link[rel='icon']` case-insensitively, but the model compares it exactly.
- The global browser `document` (`metascraper.ts:37`). Its `<title>` text is an optional input, `pageTitle`.
- `console.log` (`metascraper.ts:11`).
- Number-typed record values: the record type allows numbers, but every value the code stores is a string, so a record is a map from strings to strings.
- `null` and `undefined`: the model does not distinguish them; both are the absent value.
