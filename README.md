# imaginarium in Dafny

This project models the core of imaginarium, an HTTP image server. It reads a
request path, fetches the stored image from an object store, and answers with a
resized, rotated, blurred and re-encoded copy. The model covers three parts:

- **The cosmetic-parameter scanner** (`paramParser`, module `Parameters`). Each
  keyword's regular expression is a recognizer, written as a function from a
  string and a position to an optional hit. The recognizer follows the
  expression's own order of alternatives and its backtracking. A global
  `String.replace` with a callback is a scan (`Scan`): on a match it skips the
  match, otherwise it advances one character. Each callback then writes its
  field, so the last match wins (`Apply`, `ApplyAll`). `ParseParameters` is the
  imperative method. It runs the six keyword replaces one after another, and is
  proved equal to the pure function `Parsed`. The facts about what each keyword
  accepts are in `ParameterScanFacts` and `ParameterKeywordFacts`.
- **The route table and its handlers** (module `Routes`). A path is a sequence
  of decoded segments, and a route is a list of segment matchers. The 31
  routes sit in declaration order: 14 cover shapes, 10 contain, 2 fill,
  2 inside, 2 outside, then the catch-all `/:filename/:parameters?`.
  `FirstRoute` finds the first matching route. `ResizeOf` builds the handler's
  resize descriptor. sharp's `gravity` and `strategy` tables are a parameter.
  The facts are in `RouteFacts`.
- **The pipeline** (modules `Pipeline` and `PipelineFacts`):
  - the method gate;
  - the object key `fileKeyPattern.replace(':filename', …)`;
  - content negotiation;
  - `processImage`;
  - the `manipulator`'s mapping of outcomes and errors to responses.

  `ProcessImage` is an imperative method. It builds the list of sharp
  operations step by step, as the source reassigns `source`, and is proved equal
  to the function `Process`. The object store, sharp's metadata reader and
  renderer, and the Accept-header negotiator are parameters. The metadata reader
  and the renderer may reject, as sharp does for an object it cannot decode or an
  option it refuses, and their errors reach the manipulator's error handling.

Some behaviours are modelled as the code has them:

- Routes 267-268 of `src/app.ts` capture `bg:bgcolor`, while the handler reads
  only `background`. On those two routes the background text is captured but
  the default `rgba(0,0,0,1)` is used (`RouteFacts.ContainBackground`).
- A route's `bg:background` segment is the literal `bg` followed by the
  background text. A segment `bg(#ff0000)` therefore gives the background
  `(#ff0000)`, not `#ff0000`.
- A store error is answered with its own status code when it has one (for a
  missing object, the store's 404). No 404 is manufactured.
- The format scan is sensitive to overlap: in `webpng` the scan resumes after
  `webp`, so the format is WebP.

## Model

| member | source | states |
|---|---|---|
| Text.DecimalOfCanonical | src/app.ts:235-236 | `Number` of a canonical numeral gives back a number whose decimal text is that numeral |
| Text.CanonicalInjective | src/parseParameters.ts:41 | two canonical numerals with the same value are the same text |
| Text.ReplaceFirst | src/app.ts:137 | with a string pattern, only the first occurrence is replaced: the text before it is kept, the pattern becomes the replacement, and the rest is kept; without an occurrence the string is unchanged |
| Text.ReplaceFirstAbsent | src/app.ts:137 | a string without the pattern's first character is left unchanged by a first-occurrence replace |
| Text.ReplaceFirstAfter | src/app.ts:137 | in `p + pat + q` where `p` lacks the pattern's first character, the occurrence right after `p` is the one replaced |
| Parameters.FormatOf | src/parseParameters.ts:30-35 | the `formats` table is defined exactly on `jpeg`, `png`, `svg`, `webp` |
| Parameters.Parameters.Field | src/parseParameters.ts:18-28 | the stored token of a field belongs to that field's keyword |
| Parameters.ColorIntThen | src/parseParameters.ts:1 | a recognized `colorInt` is at least one character long and closed by the expected delimiter |
| Parameters.AlphaThen | src/parseParameters.ts:3 | a recognized `colorAlpha` is at least one character long and closed by `)` |
| Parameters.RgbAt | src/parseParameters.ts:4 | an `rgb(...)` match is at least 10 characters and ends with `)` |
| Parameters.RgbaAt | src/parseParameters.ts:5 | an `rgba(...)` match is at least 13 characters and ends with `)` |
| Parameters.HexEnd | src/parseParameters.ts:2 | a hex colour match is `#` followed by exactly n hexadecimal digits |
| Parameters.FormEnd | src/parseParameters.ts:2-6 | each colour alternative consumes at least one character and stays in bounds |
| Parameters.FirstColor | src/parseParameters.ts:6 | the first colour alternative that is followed by `)` is taken, with a non-empty length |
| Parameters.ColorAt | src/parseParameters.ts:6 | a colour inside `rotate(...)` is non-empty and followed by `)` |
| Parameters.SigmaAt | src/parseParameters.ts:8 | a recognized sigma is in the `blurSigma` language and followed by `)` |
| Parameters.QualityCallAt | src/parseParameters.ts:7-11 | a `quality(...)`/`alphaQuality(...)` match is non-empty and stores a number in 1..100 |
| Parameters.QualityTextValue | src/parseParameters.ts:7 | a `qualityInt` text is all digits with a value in 1..100 |
| Parameters.BlurAt | src/parseParameters.ts:12 | a blur match is non-empty and yields a blur token |
| Parameters.FormatAt | src/parseParameters.ts:13 | a format match is non-empty and yields a format token |
| Parameters.ProgressiveAt | src/parseParameters.ts:16 | a progressive match is non-empty and yields a progressive token |
| Parameters.AngleAt | src/parseParameters.ts:15 | the angle of `rotate(` has one to three digits, so it lies in -999..999 |
| Parameters.RotateAt | src/parseParameters.ts:14-15 | a rotate match is non-empty and stores an angle in -999..999 |
| Parameters.RotateTail | src/parseParameters.ts:15 | what follows the angle keeps the angle and ends the match after it |
| Parameters.MatchAt | src/parseParameters.ts:10-16 | each keyword's recognizer yields only tokens of that keyword |
| Parameters.PatternOf | src/parseParameters.ts:10-16 | each keyword's pattern yields only that keyword's tokens |
| Parameters.Scan | src/parseParameters.ts:40-83 | a global replace visits only matches of its own keyword |
| Parameters.Scanned | src/parseParameters.ts:40-83 | the matches of one keyword's global replace are all of that keyword |
| Parameters.ScanStep | src/parseParameters.ts:40-83 | a global replace takes a match and resumes after it, or advances one character |
| Parameters.ApplyStep | src/parseParameters.ts:40-83 | folding the callbacks over a scan applies a match and resumes after it, or resumes at the next character, as the replace does |
| Parameters.Apply | src/parseParameters.ts:41-79 | a callback sets its own field to the token and leaves every other field unchanged |
| Parameters.ApplyAll | src/parseParameters.ts:40-83 | running the callbacks of a scan in order leaves the last token in its field, and a field no token writes keeps its value |
| Parameters.Parsed | src/parseParameters.ts:37-86 | an empty segment, which is what a route without a parameters segment passes, parses to `{}`; the value of each field is stated by `ParameterScanFacts.ParsedField` |
| Parameters.ReplaceAll | src/parseParameters.ts:40-44 | the loop over one keyword's matches ends with the fold of its callbacks over the scan |
| Parameters.ParseParameters | src/parseParameters.ts:37-86 | the six replaces, in order, give the parsed parameters |
| ParameterScanFacts.ApplyAllField | src/parseParameters.ts:37-86 | after a keyword's replace, its field holds the last match and the other fields are unchanged |
| ParameterScanFacts.PatternOfAt | src/parseParameters.ts:10-16 | each keyword's pattern is its recognizer |
| ParameterScanFacts.ParsedField | src/parseParameters.ts:37-86 | each field of the result is the last match of its keyword's scan |
| ParameterScanFacts.ScanNonEmpty | src/parseParameters.ts:40-83 | a global replace calls its callback at least once iff the pattern matches somewhere from the start position |
| ParameterScanFacts.ScanTokenIsMatch | src/parseParameters.ts:40-83 | every token the replace stores is the token of a match at some position |
| ParameterScanFacts.ScanLast | src/parseParameters.ts:40-83 | the last match that does not overlap an earlier one is the last token of the scan |
| ParameterScanFacts.FieldSetIffMatch | src/parseParameters.ts:37-86 | a field is set iff its keyword matches somewhere in the segment |
| ParameterScanFacts.FieldFromMatch | src/parseParameters.ts:37-86 | a set field holds the token of some match of its keyword |
| ParameterScanFacts.LastMatchWins | src/parseParameters.ts:37-86 | when the match at i is the last one and not overlapped, the field is its token |
| ParameterScanFacts.NoMatchNoParameters | src/parseParameters.ts:38-85 | a segment in which no keyword matches parses to the empty parameters |
| ParameterKeywordFacts.QualityTextOfDecimal | src/parseParameters.ts:7 | every number in 1..100 written canonically is a `qualityInt` |
| ParameterKeywordFacts.QualityTextIff | src/parseParameters.ts:7 | a canonical numeral is a `qualityInt` iff its value is in 1..100 |
| ParameterKeywordFacts.QualityCallSound | src/parseParameters.ts:7-11 | an accepted `name(...)` is exactly `name(` + a canonical numeral in 1..100 + `)`, and its value is stored |
| ParameterKeywordFacts.QualityCallComplete | src/parseParameters.ts:7-11 | every `name(n)` with n in 1..100 written canonically is accepted and stores n |
| ParameterKeywordFacts.QualityCallRejects | src/parseParameters.ts:7-11 | `name(0)` and `name(n)` for n above 100 are refused |
| ParameterKeywordFacts.ProgressiveSetIffOccurs | src/parseParameters.ts:58-62 | `progressive` is set iff the word occurs in the segment |
| ParameterKeywordFacts.ProgressiveArgument | src/parseParameters.ts:58-62 | a match stores false iff it is written `progressive(0)` or `progressive(false)` |
| ParameterKeywordFacts.FormatAtWord | src/parseParameters.ts:13-35 | a format word in any case is matched whole and mapped through `formats` |
| ParameterKeywordFacts.FormatSetIffWord | src/parseParameters.ts:52-56 | `format` is set iff a format word occurs, in any case |
| ParameterKeywordFacts.BlurSetIffOccurs | src/parseParameters.ts:46-50 | `blur` is set iff the word occurs |
| ParameterKeywordFacts.BlurSigmaSound | src/parseParameters.ts:8-12 | a numeric sigma comes only from a whole `blur(...)` call with a `blurSigma` argument |
| ParameterKeywordFacts.BlurOfNumeral | src/parseParameters.ts:8-12 | `blur(n)` stores n's text when n <= 1000 and otherwise matches bare `blur` (automatic sigma) |
| ParameterKeywordFacts.NumeralAtMost1000 | src/parseParameters.ts:8 | a numeral of n >= 1 denotes at most 1000 iff it has at most three digits or is `1000` |
| ParameterKeywordFacts.SigmaOfShortDigits | src/parseParameters.ts:8 | one to three digits without a leading zero, followed by `)`, are a sigma |
| ParameterKeywordFacts.SigmaOfLongDigits | src/parseParameters.ts:8 | four or more digits are a sigma only when they are `1000` |
| ParameterKeywordFacts.BlurOfTenths | src/parseParameters.ts:8-12 | `blur(.d)` and `blur(0.d)` store the sigma only for d >= 3, and otherwise match bare `blur` |
| ParameterKeywordFacts.SigmaOfTenths | src/parseParameters.ts:8 | `.d` and `0.d` followed by `)` are a sigma iff d >= 3 |
| ParameterKeywordFacts.SigmaOfText | src/parseParameters.ts:8 | every `blurSigma` text followed by `)` is recognized whole, except `0` followed by `)d)` with d in 3..9, where `0?.[3-9]` takes `0)d` |
| ParameterKeywordFacts.BlurOfSigmaText | src/parseParameters.ts:8-12 | `blur(w)` stores w for every `blurSigma` text w, except `blur(0)d)` with d in 3..9, which stores `0)d` |
| ParameterKeywordFacts.RgbSlices | src/parseParameters.ts:4 | an `rgb(...)` text cut at its delimiters is the three components in `rgb(a,b,c)` form |
| ParameterKeywordFacts.RgbPieces | src/parseParameters.ts:4 | three `colorInt` components with their delimiters make an `rgb` text |
| ParameterKeywordFacts.RgbAtSound | src/parseParameters.ts:4 | what the `rgb` recognizer accepts is in the `rgb` language |
| ParameterKeywordFacts.RgbaSlices | src/parseParameters.ts:5 | an `rgba(...)` text cut at its delimiters is its four components in `rgba(a,b,c,d)` form |
| ParameterKeywordFacts.RgbaPieces | src/parseParameters.ts:5 | three `colorInt` and a `colorAlpha` component make an `rgba` text |
| ParameterKeywordFacts.RgbaAtSound | src/parseParameters.ts:5 | what the `rgba` recognizer accepts is in the `rgba` language |
| ParameterKeywordFacts.HexPieces | src/parseParameters.ts:2 | a hex match of 3 or 6 digits is a `colorHex` text |
| ParameterKeywordFacts.FormEndSound | src/parseParameters.ts:2-6 | each colour alternative accepts only texts of the `color` language |
| ParameterKeywordFacts.FirstColorFrom | src/parseParameters.ts:6 | the colour found is what one of the alternatives recognized |
| ParameterKeywordFacts.ColorAtSound | src/parseParameters.ts:6 | whatever the colour recognizer accepts is in the `color` language |
| ParameterKeywordFacts.ColorAtComplete | src/parseParameters.ts:2-6 | every text of the `color` language followed by `)` is recognized whole, so the recognizer accepts exactly that language |
| ParameterKeywordFacts.RgbColorAt | src/parseParameters.ts:4-6 | `rgb(r,g,b)` before `)` fails both hex alternatives and is taken whole by the `rgb` alternative |
| ParameterKeywordFacts.RgbaColorAt | src/parseParameters.ts:5-6 | `rgba(r,g,b,a)` before `)` fails the hex and `rgb` alternatives and is taken whole by the `rgba` alternative |
| ParameterKeywordFacts.ColorIntThenOf | src/parseParameters.ts:1 | a `colorInt` followed by its non-digit delimiter is taken whole |
| ParameterKeywordFacts.AlphaThenOf | src/parseParameters.ts:3 | a `colorAlpha` followed by `)` is taken whole |
| ParameterKeywordFacts.ColorIntThenSound | src/parseParameters.ts:1 | whatever the `colorInt` recognizer takes before its delimiter is in the `colorInt` language |
| ParameterKeywordFacts.AlphaThenSound | src/parseParameters.ts:3 | whatever the `colorAlpha` recognizer takes before `)` is in the `colorAlpha` language |
| ParameterKeywordFacts.RgbAtOf | src/parseParameters.ts:4 | every `rgb` text is recognized whole by the `rgb` recognizer |
| ParameterKeywordFacts.RgbaAtOf | src/parseParameters.ts:5 | every `rgba` text is recognized whole by the `rgba` recognizer |
| ParameterKeywordFacts.RotateBackgroundSound | src/parseParameters.ts:70-83 | a rotation's background is always a text in the `color` language |
| ParameterKeywordFacts.TailBackgroundSound | src/parseParameters.ts:70-83 | the background stored after the angle is a `color` text |
| ParameterKeywordFacts.NumeralBelow1000 | src/parseParameters.ts:15 | numbers up to 999 have at most three digits |
| ParameterKeywordFacts.AngleOfNumeral | src/parseParameters.ts:14-15 | `rotate(` + sign + up to three digits reads as that signed number |
| ParameterKeywordFacts.NumeralPieces | src/parseParameters.ts:15 | in `rotate(` + sign + numeral, the sign is seen and the numeral is the whole digit run |
| ParameterKeywordFacts.AngleOfPieces | src/parseParameters.ts:14-15 | a digit run of one to three digits after `rotate(` and a sign is read as the signed angle |
| ParameterKeywordFacts.RotateOfAngle | src/parseParameters.ts:70-83 | `rotate(n)` and `rotate(-n)` with n <= 999 store the signed angle and no background |
| ParameterKeywordFacts.HexColorAt | src/parseParameters.ts:2-6 | a hex colour followed by `)` is recognized whole; a six-digit colour is not cut to three |
| ParameterKeywordFacts.TailWithColor | src/parseParameters.ts:70-83 | a comma, white space and a recognized colour after the angle store the colour as the background |
| ParameterKeywordFacts.TailOfHexColor | src/parseParameters.ts:70-83 | `,` + any white space + a hex colour + `)` store that colour, whatever the white space |
| ParameterKeywordFacts.TailOfColor | src/parseParameters.ts:70-83 | `,` + any white space + any colour + `)` after the angle stores that colour as the background; `rotate(10, rgb(1,2,3))` stores `rgb(1,2,3)` |
| ParameterKeywordFacts.SpacesThenColor | src/parseParameters.ts:15 | `\s*` before a colour takes the whole white-space run, and the colour after it is recognized whole |
| ParameterKeywordFacts.RotateOfTail | src/parseParameters.ts:14-15 | the rotation at a position is what follows its angle |
| ParameterKeywordFacts.HexTail | src/parseParameters.ts:15 | white space then a hex colour closed by `)`: the space run ends at the colour, which is recognized whole |
| ParameterKeywordFacts.RotateRejectsLongAngle | src/parseParameters.ts:15 | an angle of four or more digits is refused |
| ParameterKeywordFacts.RotateRejectsOtherDelimiter | src/parseParameters.ts:15 | an angle followed by anything but `)` or `,` is refused |
| ParameterKeywordFacts.RotateRejectsMissingAngle | src/parseParameters.ts:15 | `rotate(` with no digit after the optional minus sign is refused |
| Routes.SizePair | src/app.ts:197-218 | a `WxH` segment splits into two size texts around its `x` |
| Routes.MatchSegment | src/app.ts:196-203 | a matcher records the segment as the file name only for `:filename`, and never touches `parameters` |
| Routes.MatchedSegmentNonEmpty | src/app.ts:196-203 | no segment matcher accepts an empty segment |
| Routes.MatchSegments | src/app.ts:208-386 | a matched run of segments has no empty segment, keeps the `parameters` capture, and records the first segment as the file name when `:filename` is the only file-name matcher and comes first |
| Routes.Route.Segments | src/app.ts:210-376 | every route starts with `:filename`; the optional `unlarge` segment comes before the group keyword; the catch-all has one fixed segment |
| Routes.MatchRoute | src/app.ts:196-386 | a route matches paths of its own length or one longer, with no empty segment; the extra segment, and only it, is captured as `parameters` |
| Routes.RouteAt | src/app.ts:208-386 | the table in registration order: 14 cover routes, 10 contain, 2 fill, 2 inside, 2 outside, then the catch-all; no shape repeats `:filename` or `unlarge` after its keyword |
| Routes.FirstRoute | src/app.ts:208-386 | the route found matches, and no earlier route does; none found means no route matches |
| Routes.Lookup | src/app.ts:238-241 | a table entry counts only when the key is present and its value is truthy (non-zero) |
| Routes.CoverAnchor | src/app.ts:233-241 | a truthy gravity entry gives its value, else a truthy strategy entry gives its value, else the text itself; so it differs from the contain position exactly for a strategy name that is not a gravity |
| Routes.ContainAnchor | src/app.ts:285-286 | the contain position is the gravity value when the table has a truthy entry for it, else the normalized text |
| Routes.Normalize | src/app.ts:233 | `position.replace('-', ' ')` keeps the length and changes at most a hyphen, into a space |
| Routes.SizeOf | src/app.ts:235-236 | `Number(w)` is present iff the size was captured, and its decimal text is the captured text |
| Routes.SegmentsCapture | src/app.ts:210-268 | a match captures the file name, and the width and height exactly when the route has the corresponding segments |
| Routes.SegmentsCaptureFlags | src/app.ts:210-223 | `unlarge` is captured iff the route has the segment, as `unlarge`; `parameters` is captured only by the trailing segment |
| Routes.SegmentsCaptureOptional | src/app.ts:259-272 | `position`, `background` and `bgcolor` are captured exactly by their own segments |
| Routes.SegmentsWellFormed | src/app.ts:197-198 | the captured sizes are size texts and the file name is non-empty |
| Routes.TableSizes | src/app.ts:210-355 | cover routes end in a width, height or `WxH` segment; the other groups always end in `WxH` |
| Routes.RouteCaptured | src/app.ts:226-371 | each route gives its handler the dimensions the handler converts |
| Routes.ResizeOf | src/app.ts:226-373 | the catch-all builds no descriptor and every other group does; the descriptor has at least one dimension, a dimension exactly when it was captured, `Number` of the captured text, and `withoutEnlargement` is `!!unlarge`; cover and contain get the cover or contain anchor of the normalized captured position or `center`, and no other group gets a position; only contain gets a background, the captured one or `rgba(0,0,0,1)` |
| Routes.Resolve | src/app.ts:225-384 | a handler passes on the non-empty file name, `{}` as the parameters when there is no parameters segment, and a descriptor exactly when it is not the catch-all |
| Routes.RouteRequest | src/app.ts:208-386 | a request is resolved iff some route matches it; what it carries is stated by `RouteFacts.Dispatched` and `RouteFacts.RequestFields` |
| RouteFacts.SizeTextOfDecimal | src/app.ts:197-198 | the size pattern accepts exactly the canonical numerals of 1..9999 |
| RouteFacts.SizeTextRoundTrip | src/app.ts:197-198 | printing `Number(w)` of a size text gives back the text |
| RouteFacts.SegmentsAt | src/app.ts:210-223 | in a matching path, a keyword segment is the keyword, `unlarge` is `unlarge`, the file name is non-empty and a `WxH` segment splits |
| RouteFacts.MatchedAt | src/app.ts:210-223 | a matching path carries the route's literal segments |
| RouteFacts.SegmentSucceeds | src/app.ts:196-203 | whether a segment matches does not depend on earlier captures |
| RouteFacts.SegmentsSucceed | src/app.ts:208-386 | a route matches iff each of its segments matches |
| RouteFacts.RouteSegments | src/app.ts:375-386 | a route matches on its fixed segments, optionally followed by the parameters segment |
| RouteFacts.Dispatched | src/app.ts:208-386 | a resolved request came from the first route that matches, and it is that route's handler applied to the captures |
| RouteFacts.RequestFields | src/app.ts:225-384 | a resolved request's file name is the first segment, and its parameters are the parsed segment after the route's fixed segments, or the parsed empty segment when there is none |
| RouteFacts.ShapeUnlarge | src/app.ts:211-213 | a route has the `unlarge` segment iff it is the `unlarge` twin |
| RouteFacts.TableRest | src/app.ts:208-386 | every route but the last is a keyword shape, with no further `unlarge` segment |
| RouteFacts.CatchAllShape | src/app.ts:376 | the catch-all matches exactly one or two non-empty segments |
| RouteFacts.ShortPathsReachCatchAll | src/app.ts:375-386 | a path of at most two segments can only be taken by the catch-all |
| RouteFacts.BothSizesRequired | src/app.ts:259-354 | contain, fill, inside and outside accept `/f/keyword/s` iff f is non-empty and s is `WxH`; a single dimension does not route |
| RouteFacts.SizeRoute | src/app.ts:259-354 | `/f/keyword/WxH` matches a route |
| RouteFacts.KeywordThenSize | src/app.ts:259-354 | a three-segment match for those groups has a non-empty file name and a `WxH` segment |
| RouteFacts.PlainSizeShape | src/app.ts:218-354 | every keyword has a plain `WxH` route |
| RouteFacts.WordOfText | src/app.ts:210-223 | a keyword's text reads back as the keyword |
| RouteFacts.WordTextInjective | src/app.ts:210-354 | different keywords have different texts |
| RouteFacts.UnlargeIff | src/app.ts:242-364 | `withoutEnlargement` is set iff the second segment is `unlarge` |
| RouteFacts.RouteUnlarge | src/app.ts:210-230 | a keyword route captures `unlarge` iff the second segment is `unlarge`, which happens iff the route is the `unlarge` twin |
| RouteFacts.ResizeUnlarge | src/app.ts:242-381 | every group but the catch-all builds a descriptor, and `withoutEnlargement` is `!!unlarge` |
| RouteFacts.NormalizeHyphen | src/app.ts:228-233 | `left-top` and its kind normalize to `left top` |
| RouteFacts.NormalizePlain | src/app.ts:228-233 | a position without a hyphen is unchanged |
| RouteFacts.DefaultPosition | src/app.ts:226-241 | a cover or contain route without a position is anchored at `center`, looked up as it is |
| RouteFacts.HyphenPosition | src/app.ts:233-241 | a captured position `a-b` is looked up in the tables as `a b` |
| RouteFacts.WidthOnlyRequest | src/app.ts:210-243 | `/f/resize/wN` and `/f/cover/wN` give a cover descriptor with width N, no height, the `center` position and no `withoutEnlargement` |
| RouteFacts.FirstWidthRoute | src/app.ts:210-212 | a path matching a plain width route is taken by that route |
| RouteFacts.ResizeFields | src/app.ts:234-365 | each handler's fit; at least one dimension, both outside cover; a position iff cover or contain; a background iff contain |
| RouteFacts.RoutedDescriptor | src/app.ts:208-373 | a resolved descriptor's fit is the one named by the path's keyword segment, with the handler's fields |
| RouteFacts.KeywordSegment | src/app.ts:210-268 | the keyword segment comes right after the file name or after `unlarge` |
| RouteFacts.SegmentsSwap | src/app.ts:210-221 | replacing a literal segment in both the route and the path does not change the captures |
| RouteFacts.Twins | src/app.ts:210-221 | each `resize` route is followed by its `cover` twin with the same segments |
| RouteFacts.ResizeCoverSynonym | src/app.ts:210-221 | `resize` and `cover` are synonyms: same group, same captures |
| RouteFacts.SegmentsBackgroundAt | src/app.ts:260-265 | the last `bg` segment captures its text after `bg` as `background` |
| RouteFacts.ShapeRest | src/app.ts:210-268 | a shape's segments are the file name, `unlarge`, the keyword, then its own segments |
| RouteFacts.ContainResize | src/app.ts:272-281 | the contain background is the captured one, else `rgba(0,0,0,1)` |
| RouteFacts.ContainBackground | src/app.ts:259-272 | a contain route with `bg:background` uses the text after `bg`; without one the default is used, even on the `bg:bgcolor` routes that capture a colour |
| Pipeline.Negotiate | src/app.ts:148-170 | a forced format is taken iff there is no Accept header or it accepts that format, with no fallback; otherwise JPEG without a header, else the negotiator's pick among the four types |
| Pipeline.ObjectKey | src/app.ts:137 | a key pattern that starts with `:filename` gives the file name followed by the rest of the pattern, whose placeholders stay as they are |
| Pipeline.Density | src/app.ts:79-90 | the density is positive and at most 2400; below the cap, intrinsic × density / 96 is the desired size; the cap is reached exactly when 96 × desired >= 2400 × intrinsic; an intrinsic size of 0 gives the cap |
| Pipeline.SvgDensity | src/app.ts:74-91 | a density exists iff the descriptor has a width or a height, and it is in (0, 2400]; with a width it is 96 × width / intrinsic width when that is below 2400 and 2400 otherwise, and without a width the same holds for the height |
| Pipeline.EncodingOf | src/app.ts:111-124 | every type but SVG has an encoder |
| Pipeline.Process | src/app.ts:41-125 | the stored bytes pass through only for an SVG target; a rendered plan is for a non-SVG target, starts with the load and ends with the encoder |
| Pipeline.ProcessImage | src/app.ts:41-125 | the step-by-step pipeline builds exactly the plan `Process` describes |
| Pipeline.Fail | src/app.ts:185-193 | an error with a status code is answered with that code and its message; any other goes to the next handler |
| Pipeline.Answer | src/app.ts:179-184 | a 200 answer carries the body, its length, the given type's name and the one-year immutable cache header |
| Pipeline.Manipulate | src/app.ts:127-194 | a store error is answered through the error handling; a bare status is 406 and arises exactly when the object is found and negotiation yields nothing; an image answer has its body's length, the negotiated type and the cache header; a pass-through or a successful render is answered 200 with those bytes; the manipulator never falls through as unrouted |
| Pipeline.Handle | src/app.ts:33-39 | a bare 405 answers exactly the methods other than GET, and only a GET that no route matches falls through |
| PipelineFacts.KeyOfTemplate | src/app.ts:137 | the file name replaces the first `:filename` of the key pattern |
| PipelineFacts.DefaultKey | src/app.ts:9 | with the default pattern the key is the file name |
| PipelineFacts.KeyWithoutPlaceholder | src/app.ts:137 | a pattern without `:` is used as the key itself |
| PipelineFacts.ProcessOutcomes | src/app.ts:56-124 | SVG from a raster gives 406; SVG to SVG passes through the bytes unchanged; SVG with a descriptor but no dimension fails; no other failure; otherwise a plan is rendered |
| PipelineFacts.PlanPieces | src/app.ts:90-124 | a plan is the load, the optional resize, rotate and blur steps, then the encoder |
| PipelineFacts.PlanOrder | src/app.ts:93-124 | a plan starts with the load and ends with the encoder; resize, rotate and blur come in that order |
| PipelineFacts.RanksIncrease | src/app.ts:93-108 | the optional steps keep their order |
| PipelineFacts.PlanSteps | src/app.ts:94-108 | resize and rotate are in the plan iff requested, with their values; blur with a sigma iff one was parsed, without one iff bare `blur` |
| PipelineFacts.PlanDensity | src/app.ts:74-91 | the load carries a density iff the source is SVG and a descriptor is present, and it is the computed one |
| PipelineFacts.RoutedNeverLacksDimension | src/app.ts:84-86 | no routed request reaches the missing-dimension error |
| PipelineFacts.NonGetRefused | src/app.ts:33-39 | any method but GET is answered 405 |
| PipelineFacts.StoreErrorAnswered | src/app.ts:185-193 | a store error is answered with its status code and message, or passed on when it has none |
| PipelineFacts.ForcedFormatRefused | src/app.ts:151-170 | a forced format that the Accept header refuses is answered 406 |
| PipelineFacts.UnforcedRefused | src/app.ts:156-170 | without a forced format, an Accept header that accepts none of the four offered types is answered 406 |
| PipelineFacts.RenderedAnswered | src/app.ts:172-184 | a rendered image is answered 200 with the negotiated type, the rendered bytes, their length and the cache header |
| PipelineFacts.SvgServedAsStored | src/app.ts:67-69 | an SVG source asked as SVG is served unchanged, with its length and the cache header |
| PipelineFacts.RasterToSvgRefused | src/app.ts:56-63 | a raster source asked as SVG is answered 406 `Cannot convert <format> to SVG` |
| PipelineFacts.ImageAnswers | src/app.ts:148-184 | a 200 answer comes from a routed GET with the body's length and the one-year immutable cache header; its type is the forced format, JPEG without a format or an Accept header, and otherwise the negotiator's pick among the offered types |
| PipelineFacts.SharpErrorAnswered | src/app.ts:185-193 | an error from sharp's metadata reader or renderer is answered with its status code, or passed to the next handler when it has none |

## Left out

- Express's path matching is reduced to matching whole segments. The path arrives already split and URL-decoded. Case-insensitive and trailing-slash matching are not modelled.
- Pipeline.Negotiate: the Accept header is not parsed. `req.accepts` is a function parameter that returns none or one of the types offered, so the model states only what is decided around it.
- The object store (S3 `getObject`) is a `fetch` parameter. The start-up environment checks (`src/app.ts:7-17`) are not modelled. A missing object has whatever status code the store attaches to its error.
- Pipeline.ObjectKey: the `$` replacement patterns of `String.replace` are not modelled; the file name is inserted literally.
- sharp's pixel operations are not modelled. `processImage` is modelled as the list of operations it applies. sharp's `metadata()` is a parameter, and so is the renderer that turns a plan into bytes. Each may reject with an error, which the model answers as the source does. Which inputs sharp rejects is not modelled: the model does not say that `blur(0)` or `blur(x5)` gives a sigma sharp refuses. It says only that such a rejection, when the renderer makes it, is answered by the error handling.
- Pipeline.Density: JavaScript numbers are modelled as reals. An intrinsic width of 0 (JavaScript `Infinity`) is modelled as the 2400 cap. The intrinsic dimensions are naturals, so a missing one (`undefined`, which gives `NaN`) is not modelled. Floating-point rounding is not modelled.
- Pipeline.ProcessImage: the `96` default density is dead code and is not modelled, since the code always overwrites it or throws. The `Unknown format` branch cannot be reached, because SVG targets were answered earlier.
- Parameters.ParseParameters: `Number(sigma)` is not applied to the blur sigma. The sigma is kept as its captured text. Because the `.` in `blurSigma` is unescaped, the pattern also admits texts such as `x5`, which `Number` turns into `NaN`; that value is not modelled.
- Parameters.SigmaAt: strings are modelled as sequences of Unicode characters, not of UTF-16 code units. A regex without the `u` flag reads code units, so its unescaped `.` sees only the first half of a surrogate pair. For `blur(😀5)` the source matches bare `blur` (the sigma pattern fails on the second half of the pair and the optional group is skipped). The model takes the emoji as the one character of `.` and stores the sigma `😀5`. The same holds for Parameters.BlurAt. Characters outside the Basic Multilingual Plane are not modelled as two units.
- `console.log` of errors is left out.
- `src/index.ts` (the server start) is not part of this model.
