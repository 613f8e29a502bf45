# gistizer, modelled in Dafny

gistizer is a Cloudflare Worker that turns a GitHub file link into an
embeddable script. The request path `/github/{user}/{repo}/{blob|raw}/{ref}/{file}`
names a file. The query options `slice`, `footer`, `highlight`, `lang`, `skin`
and `fetchfrom` choose which lines are shown and how they look. The worker
answers with JavaScript that inserts the chosen lines, HTML-escaped and
wrapped for the code-prettify highlighter, right after its own `<script>`
element. When anything throws, the answer is still a 200 script, and that
script shows the error text instead.

This project models `src/index.ts`:

- the request handler (`fetch`), in module `Gistizer`;
- the class `GitHubCode`, in module `Gistizer`;
- the pure logic the class relies on, in one module per concern:
  - `RequestPath`: the path expression, the leaf name and the three URLs;
  - `Options`: the six query options;
  - `Slicing`: resolving negative bounds, the line anchor and
    `Array.prototype.slice`;
  - `Lines`: splitting and joining lines;
  - `Html`: `encodeHtml`;
  - `Template`: the script and markup text;
  - `JsNumbers`: the JavaScript number behaviour the request pipeline uses
    (`parseInt`, `String(n)`, NaN, `slice` index arithmetic).

`GitHubCode` is a Dafny class with the source's fields.

- Its constructor fills them exactly as the source does.
- `FetchCodes` appends the line anchor to `blobUrl` in place.
- `GetBody` builds the script from the fields.

Each method is proved against a function of the request:

- `ParseRequest` for the constructor;
- `Codes` and `FetchAnchor` for `fetchCodes`;
- `Body` for `getBody`;
- `Handle` for the handler.

`GistizerProperties` then proves what the service promises about `Handle`.

The network fetch, `JSON.stringify` and `encodeURI` are parameters of the
model: they are the function fields of `Host.Runtime`.

Behaviours of `src/index.ts` worth noting:

- The `linenums:` directive in the `pre` class (`src/index.ts:132`) carries
  the raw `sliceStart` (for example `-3`), not the resolved start. See
  `Template.PreClassLinenums`.
- Without a colon, group 1 sets both bounds (`src/index.ts:59-63`). So
  `slice=0`, or `slice=-N` on an N-line file, resolves both bounds to 0:
  `slice(-1, 0)` is empty and the anchor is `#L0`. See
  `GistizerProperties.SingleSliceAtZero`.
- With a colon and no end (`src/index.ts:177-178`), a start that resolves to
  0 (`slice=0:`, or `slice=-N:` on an N-line file) becomes `slice(-1)`, which
  is the last line. See `Slicing.SelectFromZero`. A start that resolves below
  0 counts back once more, so `slice=-20:` on a 10-line file shows the whole
  file. See `Slicing.SelectBelowZero`.
- Without a colon, an empty first group leaves the start at 1 but sets the
  end to `parseInt("")`, which is NaN. That is the same as no end.
- The `pre` class is `prettyprint` whether or not highlighting is on. Only
  the loader block depends on `highlight`.

## Model

| member | source | states |
|---|---|---|
| Gistizer.Fetch | src/index.ts:1-15 | the handler's response is exactly `Handle` of the path, the query and the runtime |
| Gistizer.Handle | src/index.ts:1-15 | the status is 404 exactly for `/favicon.ico` |
| Gistizer.ErrorText | src/index.ts:11 | `${e}` of an error starts with `Error`; it is `Error` alone exactly when the message is empty, and otherwise ends with the message |
| Gistizer.ErrorResponse | src/index.ts:10-14 | a thrown error is answered with status 200, the JavaScript content type and a script that inserts the JSON-quoted message after the current script tag: it opens with the `insertAdjacentHTML("afterend", ` call and closes with the quoted message and `) })();` |
| Gistizer.Body | src/index.ts:116-145 | `getBody` fails exactly when the upstream answer for `FetchUrl` is not 200, and then with that answer's body as the message |
| Gistizer.Page | src/index.ts:116-145 | the page is the embed script: it opens with the fixed head that defines `write`, then, when highlighting, the loader of the quoted prettify URL, and it closes with `write(` of the JSON-quoted page fragment followed by the call to `prettyPrint` |
| Gistizer.PageMarkup | src/index.ts:130-141 | the page fragment opens with the `gistizer` wrapper and the `pre` class of the request, and closes with the code, `</pre></div>`, the footer linking the URI-encoded view URL, the repository and the escaped file name, and the closing `</div></div>` |
| GistizerProperties.SuccessPage | src/index.ts:116-145 | after a 200 answer, `getBody` succeeds with the embed script writing the fragment whose code is the HTML-escaped join of the selected lines of the answer body, and whose footer links the view URL with the line anchor |
| Gistizer.Codes | src/index.ts:149-184 | `fetchCodes` fails exactly on a non-200 status, with the body as the message; otherwise its lines are a contiguous run of the split text |
| Gistizer.FetchUrl | src/index.ts:150-160 | the URL fetched is on jsDelivr for the jsDelivr backend and on GitHub for the GitHub backend |
| Gistizer.FinalViewUrl | src/index.ts:49-53 | `blobUrl` after `fetchCodes` starts with the view URL, and equals it after a failed fetch |
| Gistizer.FetchAnchor | src/index.ts:170-176 | the anchor is empty after a failed fetch, and otherwise empty or a `#L` line anchor |
| GistizerProperties.FaviconNotFound | src/index.ts:4-6 | `/favicon.ico` is answered 404 with a null body and no content type, whatever the query |
| GistizerProperties.AlwaysScript | src/index.ts:7-14 | every other path gets status 200, the JavaScript content type and a body, whether or not something threw |
| GistizerProperties.UnsupportedPath | src/index.ts:10-14 | for a path the expression rejects, the body is the error script around the JSON of `Error: not supported path: <path>` |
| GistizerProperties.NotSupportedText | src/index.ts:11 | `${e}` of the path error is `Error: ` followed by the message |
| GistizerProperties.UnsupportedPathOffline | src/index.ts:37-40 | a rejected path is answered without looking at the network |
| GistizerProperties.UpstreamFailure | src/index.ts:163-165 | a non-200 upstream status gives the error response whose message is the upstream body |
| GistizerProperties.OnlyFetchedUrlMatters | src/index.ts:149-162 | the response depends on the network only through the one URL the backend choice names |
| GistizerProperties.BodyReadsOneUrl | src/index.ts:116-162 | `getBody` depends only on the upstream answer for `FetchUrl` |
| GistizerProperties.BackendChoice | src/index.ts:104-114 | the file is fetched from GitHub's raw URL exactly when `fetchfrom` is `github` in some ASCII case, and from jsDelivr otherwise |
| GistizerProperties.RunHasNoBreak | src/index.ts:166-183 | a contiguous run of break-free lines is break-free |
| GistizerProperties.ShownCodeReadsBack | src/index.ts:146-147 | the escaped code block decodes to the LF join of the chosen lines, and when any line is chosen, splitting it again gives those lines back |
| GistizerProperties.WholeFileByDefault | src/index.ts:166 | with no `slice` option, the decoded code block is the whole file with every line ending turned into LF |
| GistizerProperties.ViewAnchored | src/index.ts:170-176 | after a successful fetch, the view URL gains an anchor exactly when the resolved start is not 1 or an end is set |
| GistizerProperties.ViewAfterFailure | src/index.ts:163-165 | a failed fetch leaves `blobUrl` as the constructor built it |
| Gistizer.ParseRequest | src/index.ts:35-53 | the request fails exactly when the path does not match, with `not supported path: <path>`; on success the parts are valid, they rebuild the path, and the leaf is the last segment of the file path |
| Gistizer.GitHubCode.Create | src/index.ts:35-40 | `new GitHubCode(url)` throws the path error exactly when `ParseRequest` fails; otherwise it gives a fresh object whose fields are `ParseRequest`'s request, with the URLs derived from the parts |
| Gistizer.GitHubCode.constructor | src/index.ts:41-115 | the fields are the matched groups, the two fetch URLs and the view URL built from them, the leaf name, and each option parsed over its default |
| Gistizer.GitHubCode.PlainView | src/index.ts:49-53 | `blobUrl` gains `?plain=1` exactly when the leaf ends in `.md`, and is otherwise unchanged |
| Gistizer.GitHubCode.SliceOption | src/index.ts:56-67 | the imperative slice parse leaves `sliceStart` and `sliceEnd` equal to `ParseSlice` |
| Gistizer.GitHubCode.FooterOption | src/index.ts:68-75 | the imperative footer parse equals `ParseFooter` |
| Gistizer.GitHubCode.HighlightOption | src/index.ts:76-79 | the imperative highlight parse equals `ParseHighlight` |
| Gistizer.GitHubCode.LangOption | src/index.ts:80-83 | the imperative lang parse equals `ParseLang` |
| Gistizer.GitHubCode.SkinOption | src/index.ts:84-103 | the `switch` on the lowered value equals `ParseSkin` |
| Gistizer.GitHubCode.FetchCodesEscaped | src/index.ts:146-148 | the result fails as `fetchCodes` fails; otherwise it is the escaped LF join of its lines; `blobUrl` gains the anchor |
| Gistizer.GitHubCode.FetchFromOption | src/index.ts:104-114 | the `switch` on the lowered value equals `ParseFetchFrom` |
| Gistizer.GitHubCode.FetchCodes | src/index.ts:149-184 | fetches the backend's URL, fails with the body on a non-200 status, otherwise returns `SelectLines` of the split text; `blobUrl` gains exactly `FetchAnchor` |
| Gistizer.GitHubCode.GetBody | src/index.ts:116-145 | leaves the request fields unchanged, returns `Body` of the request, and leaves `blobUrl` as the view URL plus the anchor |
| RequestPath.ParsePath | src/index.ts:37-40 | an accepted path is valid parts joined as `/github/{user}/{repo}/{kind}/{ref}/{file}` with kind `blob` or `raw` |
| RequestPath.ParsePathComplete | src/index.ts:37 | every path of that form is accepted, with those very parts |
| RequestPath.ParsePathExact | src/index.ts:37-45 | the match gives `parts` exactly when the parts are valid and the path is built from them |
| RequestPath.SplitSegment | src/index.ts:37 | a `[^\/]+` group and the rest after its `/` |
| RequestPath.SplitSegmentOf | src/index.ts:37 | a segment followed by `/` is split off exactly |
| RequestPath.SplitKind | src/index.ts:37 | the `blob` or `raw` group and the rest after its `/` |
| RequestPath.SplitKindOf | src/index.ts:37 | `blob/` and `raw/` are split off exactly |
| RequestPath.LastSegment | src/index.ts:50 | `split('/').pop()` is no longer than the path and holds no `/` |
| RequestPath.JsDelivrUrl | src/index.ts:47 | the jsDelivr URL starts with `https://cdn.jsdelivr.net/gh/` and ends with `/` and the file path |
| RequestPath.JsDelivrUrlCarriesParts | src/index.ts:47 | the jsDelivr URL reads back to the user, the file path and `{repo}@{ref}`; when the repository name has no `@`, to all four parts |
| RequestPath.GitHubRawUrl | src/index.ts:48 | GitHub's raw URL starts with `https://github.com/` |
| RequestPath.BlobBaseUrl | src/index.ts:48-49 | the blob URL starts with `https://github.com/` and is one character longer than the raw URL, `blob` for `raw` |
| RequestPath.LastSegmentIsLeaf | src/index.ts:50 | the leaf ends the path, holds no `/`, and is preceded by a `/` unless it is the whole path |
| RequestPath.LastSegmentAfterSlash | src/index.ts:50 | the leaf of `a/f` is the leaf of `f` |
| RequestPath.LeafOfFile | src/index.ts:45-50 | for an accepted path, the leaf is the last segment of the file group |
| RequestPath.ViewUrl | src/index.ts:49-53 | the view URL is the blob URL, followed by `?plain=1` exactly when the leaf ends in `.md` |
| RequestPath.RawUrlCarriesParts | src/index.ts:48 | GitHub's raw URL, read back as a service path, parses to the same parts with `raw` |
| RequestPath.BlobUrlCarriesParts | src/index.ts:49 | the blob URL, read back as a service path, parses to the same parts with `blob` |
| Options.DigitsPrefix | src/index.ts:58 | the greedy `\d*` at the start: all digits, a prefix, and not followed by a digit |
| Options.Param | src/index.ts:56 | `searchParams.get` gives a value exactly for a name in the query, and then that name's value |
| Options.IsSet | src/index.ts:57 | the `if (opt)` test: `null` and the empty string are falsy |
| Options.SignedPrefix | src/index.ts:58 | the greedy `-?\d*` at the start: signed digits, a prefix, and not followed by a digit |
| Options.MatchSlice | src/index.ts:58 | the three groups of the slice expression: group 1 is the greedy `-?\d*` match at the start; the colon takes part exactly when it follows group 1; group 3 is then the greedy `-?\d*` match right after the colon, and `""` otherwise |
| Options.SecondGroup | src/index.ts:58 | group 3 is the greedy `-?\d*` match after the colon when the colon took part, and `""` otherwise |
| Options.ParseSlice | src/index.ts:56-67 | no option keeps start 1 and no end; without a colon a non-empty group 1 sets both bounds to the same value; an empty group 1 keeps start 1 |
| Options.SliceSingle | src/index.ts:59-63 | `slice=N` sets start and end both to N |
| Options.SliceOnward | src/index.ts:59-66 | `slice=N:` sets the start to N and leaves the end unset |
| Options.SliceBetween | src/index.ts:59-66 | `slice=N:M` sets start N and end M |
| Options.SliceUpTo | src/index.ts:59-66 | `slice=:M` keeps start 1 and sets end M |
| Options.SliceDefaults | src/index.ts:56-67 | an absent, empty or non-numeric slice leaves start 1 and no end |
| Options.SliceLoneDash | src/index.ts:60-63 | `slice=-` makes both bounds NaN |
| Options.IsOffWord | src/index.ts:73 | an off word has one to five characters; the test itself is the four words after ASCII lower-casing, and `Options.OffWordIgnoresCase` proves the `/i` |
| Options.ParseFooter | src/index.ts:68-75 | the footer is minimal exactly for the literal `minimal`, and hidden only for an off word |
| Options.SignedPrefixOf | src/index.ts:58 | the decimal text of an integer is matched whole by `-?\d*` |
| Options.MatchAfterColon | src/index.ts:58 | after group 1 and a colon, group 3 is matched on the rest |
| Options.FooterModes | src/index.ts:68-75 | minimal exactly for the literal `minimal`, hidden exactly for an off word in any case, full otherwise |
| Options.ParseHighlight | src/index.ts:76-79 | highlighting is off only for an off word |
| Options.HighlightOff | src/index.ts:76-79 | highlighting is off exactly for an off word in any case |
| Options.OffWordIgnoresCase | src/index.ts:73 | the off-word test gives the same answer for values equal up to ASCII case |
| Options.ParseLang | src/index.ts:80-83 | the language is set exactly when the option is a non-empty string, and is then that string |
| Options.SkinNamed | src/index.ts:86-102 | a recognised name selects the skin with that name |
| Options.ParseSkin | src/index.ts:84-103 | a skin other than `sons-of-obsidian` is chosen only by its name in some ASCII case |
| Options.SkinChoice | src/index.ts:84-103 | a value selects skin `k` exactly when it is `k`'s name in some ASCII case, or when it names no skin and `k` is `sons-of-obsidian` |
| Options.ParseFetchFrom | src/index.ts:104-114 | a backend other than jsDelivr is chosen only by its name in some ASCII case |
| Options.FetchFromChoice | src/index.ts:104-114 | GitHub is chosen exactly by `github` in some ASCII case |
| Slicing.Resolve | src/index.ts:168-169 | a non-negative bound is kept, a negative one counts back from the line count, and NaN stays NaN |
| Slicing.Anchor | src/index.ts:170-176 | the anchor is empty or starts with `#L` |
| Slicing.SelectLines | src/index.ts:177-183 | the returned lines are a contiguous run of the split lines |
| Slicing.AnchorPresence | src/index.ts:170 | the anchor is empty exactly when the resolved start is 1 and no end is set |
| Slicing.AnchorForm | src/index.ts:171-175 | a non-empty anchor is `#L{s}` exactly when the resolved bounds are equal or the end is unset, and otherwise starts with `#L{s}-L` |
| Slicing.SingleAnchorReads | src/index.ts:172 | `#L{s}` reads back to `s` |
| Slicing.RangeAnchorReads | src/index.ts:174 | `#L{s}-L{e}` reads back to `s` and `e` |
| Slicing.AnchorRoundTrip | src/index.ts:170-176 | a non-empty anchor reads back to the resolved bounds, or to the start twice when no end is set |
| Slicing.SelectInclusive | src/index.ts:168-180 | with both bounds resolving into `1..N` in order, the lines are `s..e` inclusive and the anchor names the same lines |
| Slicing.SelectToEnd | src/index.ts:177-178 | with no end, the lines run from the resolved start to the end of the file |
| Slicing.SelectReversed | src/index.ts:179-180 | an end resolving before the start gives no lines |
| Slicing.SelectFromZero | src/index.ts:177-178 | a start resolving to 0 with no end gives the last line only |
| Slicing.SelectNaNStart | src/index.ts:177-182 | `slice=-` shows the whole file; a NaN start with end M shows the first M lines |
| Slicing.SelectBelowZero | src/index.ts:177-178 | a start resolving below 0 with no end shows the last lines counted back from it once more, or the whole file when that reaches past the first line |
| Slicing.SelectEndsAtZero | src/index.ts:179-180 | an end resolving to 0 shows no line, whatever the start |
| GistizerProperties.SingleSliceAtZero | src/index.ts:59-63 | `slice=0`, and `slice=-N` on N lines, set both bounds to that value, show no line, and anchor the view at `#L0` |
| Lines.SplitLines | src/index.ts:166 | at least one line, none holding CR or LF |
| Lines.JoinSplit | src/index.ts:166 | splitting then joining with LF normalises line endings and keeps every other character |
| Lines.SplitJoin | src/index.ts:166 | break-free lines survive joining with LF and splitting again |
| Lines.LineCount | src/index.ts:166 | the number of lines is one more than the number of line endings |
| Lines.JoinCount | src/index.ts:147 | joining `n` break-free lines adds `n - 1` LFs |
| Lines.JoinLines | src/index.ts:147 | `join("\n")` is at least one character per separator and starts with the first line |
| Html.EncodeHtml | src/index.ts:186-198 | the output has no `<` or `>` and is at least as long as the input |
| Html.EscapeChar | src/index.ts:187-197 | the callback gives an entity starting with `&` exactly for `&`, `<` and `>`, leaves any other character as it is, and never returns `<` or `>` |
| Html.DecodeEncode | src/index.ts:186-198 | decoding the three entities gives the input back |
| Html.EncodeConcat | src/index.ts:186-198 | escaping distributes over concatenation |
| Html.EncodePlain | src/index.ts:186-198 | text without `&`, `<`, `>` is unchanged |
| Html.EncodeSpecial | src/index.ts:186-198 | text with any of them grows and gains an `&` |
| Html.EncodeIdempotentIff | src/index.ts:186-198 | escaping twice equals escaping once exactly when there is nothing to escape |
| JsNumbers.IntStr | src/index.ts:60 | the decimal text of an integer matches `-?\d*` and `parseInt` reads it back |
| JsNumbers.NatStr | src/index.ts:172-174 | the text of a natural number is non-empty, all digits, and its decimal value is the number |
| JsNumbers.ParseInt | src/index.ts:60 | `parseInt` of a `-?\d*` match is NaN exactly for `""` and `-`, and a negative value only comes from a leading `-` |
| JsNumbers.NumStr | src/index.ts:172-174 | `String(v)` is non-empty, made of digits, `-` and the letters of `NaN`, and ends in a digit or `N` |
| JsNumbers.NumStrRoundTrip | src/index.ts:172-174 | the text of a number reads back to it |
| JsNumbers.SliceIndex | src/index.ts:178-180 | `slice`'s index for an argument: NaN is 0, a value within `0..len` is itself, a negative value counts back from `len`, and anything past either end is clamped to `0` or `len` |
| JsNumbers.Pred | src/index.ts:178-180 | `v - 1` is NaN exactly for NaN, and otherwise one less than `v` |
| JsNumbers.JsSlice | src/index.ts:178-180 | `slice` gives a contiguous run of the array, no longer than it |
| JsNumbers.JsSliceInRange | src/index.ts:178-180 | within bounds, `slice(i, j)` is the half-open range, or empty when `i >= j` |
| JsNumbers.JsSliceNegative | src/index.ts:178-180 | negative arguments count back from the end |
| Template.PrettifyUrlNamesSkin | src/index.ts:118 | the loader URL is the bare URL exactly for the default skin, and different skins give different URLs |
| Template.SkinNameInjective | src/index.ts:33 | different skins have different names |
| Template.PrettifyUrl | src/index.ts:118 | the loader URL starts with the bare loader URL and, for a skin other than `default`, ends with `&skin=` and its name |
| Template.PreClassLang | src/index.ts:132 | the class has ` lang-X` right after `prettyprint` exactly when a language is set |
| Template.PreClassLinenums | src/index.ts:132 | the class ends in `linenums:` and the raw start exactly when the start is not 1, and that text reads back to the start |
| Template.PreClass | src/index.ts:132 | the class always starts with `prettyprint` |
| Template.MetaModes | src/index.ts:135-139 | hidden gives no meta block; minimal puts `&nbsp;` after the opening tag; full puts the attribution there; both shown footers end with the file-name link |
| Template.Meta | src/index.ts:135-139 | the meta block is empty exactly when the footer is hidden |
| Template.Attribution | src/index.ts:136 | the attribution opens with a link to the file view and ends with a link to the project |
| Template.FileLink | src/index.ts:138 | the file link points at the file view, and its text is the escaped leaf name |
| Template.MarkupCount | src/index.ts:131-141 | the code adds its own characters to the fragment and nothing else |
| Template.EscapedCodeAddsNoTags | src/index.ts:131-141 | escaped file content adds no `<` or `>` to the fragment |
| Template.Markup | src/index.ts:131-141 | the fragment opens with the gist, file and data elements and the `pre` class, and ends with the code, `</pre></div>`, the meta block and the closing tags |
| Template.ScriptLoader | src/index.ts:119-144 | the script opens with the fixed head, has the loader block right after it exactly when highlighting is on, and ends with the write call |
| Template.Script | src/index.ts:119-144 | with highlighting on, the script opens with the head followed by the loader block carrying the loader URL JSON; it always ends with the markup JSON and the rest of the write call |
| Template.Loader | src/index.ts:121-128 | the loader block opens with `if (!('PR' in window)) {` and ends with the loader URL JSON as the new script's `src`, then the insertion |
| Template.WriteCall | src/index.ts:129-144 | the write call passes the markup JSON to `write(`, then highlights when the highlighter is loaded |
| Template.ErrorScript | src/index.ts:12 | the error script opens with the `insertAdjacentHTML("afterend", ` call and ends with the message JSON followed by `) })();` |

## Left out

- Network I/O: `fetch` is a total function from a URL to a status and a body text (`Host.Upstream`). A rejected fetch promise, a body that cannot be read, and redirects are not modelled.
- `new URL(request.url)` and `url.searchParams`: the model takes the pathname and a map from option name to its first value, after percent-decoding. Parsing and decoding the URL are not modelled.
- `JSON.stringify` and `encodeURI` are uninterpreted parameters (`Host.Runtime`). The model does not state what they produce, only where their results go.
- JavaScript numbers are modelled as integers or NaN. Floating point is not modelled: the bounds come from `parseInt` on digit strings. Very large values, `-0` (whose text is `0`) and precision loss are not modelled.
- Strings are sequences of Dafny characters, not UTF-16 code units. The `.` of the path expression excludes the four JavaScript line terminators.
- `toLowerCase` and the `i` flag are modelled as ASCII case mapping. That is exact for the literal names compared here, but not for other Unicode case mappings.
- What the script does in a browser: inserting HTML, loading the highlighter, and the `PR` global.
- `fetchCodes`' `unexpected fetchfrom` throw and `encodeHtml`'s `throw new Error("")` are unreachable: `fetchfrom` is always one of the two backends, and the callback only sees `&`, `<` or `>`. The model has no such branch.
- Gistizer.GitHubCode.constructor: the path match and its throw happen in `Create`, which passes the matched parts to the constructor. Dafny constructors cannot fail.
- Gistizer.GitHubCode.constructor: each option is computed by a static method and then assigned to its field. The source assigns the field over its default inside one constructor body.
- RequestPath.JsDelivrUrl: the repository and ref are read back separately only when the repository name has no `@`. The path expression accepts a repository name with `@`, and then `{repo}@{ref}` is read back only as a whole.
- `ctx` and `env` of the handler are unused by the source and are not modelled.
