# address-verifier in Dafny

A model of the decision logic of address-verifier, a small Next.js web
application. Signed-in users enter an Australian postcode, suburb and state.
A GraphQL resolver then checks the triple against the Australia Post locality
directory and writes an audit entry for the verdict.

The model covers three parts of the application:

- **The `verifyAddress` resolver and its helpers** (`src/app/api/graphql/route.ts`).
  - `wire.dfy` models JSON values as JavaScript sees them, with truthiness and
    `String()`. It also holds `unwrapData`, `normalizeRecord` and the shaping
    of a directory response into a list of locality records.
  - `suburb.dfy` holds `normalizeSuburb`.
  - `cookie.dfy` holds `getCookieVal`.
  - `resolver.dfy` holds the resolver. `Verdict` and `Respond` define the
    outcome and the audit entry. `VerifyAddress` is the resolver written step
    by step, with its `let` variables and its two searches as loops, and it is
    proved equal to `Respond`. Each of the two directory requests is its own
    oracle of type `Lookup`, which answers with a record list or the value that
    was thrown. They are separate, so the second request may answer
    differently from the first even for the same terms.
    `Wire.AusPostLookup` builds such an oracle from a raw directory through
    `callAusPost`'s response shaping, and `Resolver.MelbourneVerifies` runs
    the resolver through it end to end.
- **The verify page's form** (`src/app/verify/page.tsx`, in `verify_form.dfy`):
  the three validators, form validity, and the postcode keystroke sanitiser.
  The class `VerifyForm` holds the page's React state. Its handlers are
  methods: change, blur and submit.
- **The middleware** (`middleware.ts`, in `routing.dfy`): a pure routing
  decision. JWT validity is an abstract predicate.

`text.dfy` models the JavaScript string built-ins the code relies on:
`\s`, `\d`, `trim`, ASCII `toUpperCase`, `split`, `startsWith` and
`Array.prototype.find`. `wrappers.dfy` holds `Option` and `Result`.

Several quirks of the code are reproduced as written and shown by lemmas:

- The resolver compares the record's normalised state with the caller's raw
  `state`. A lower-case state argument can therefore never verify.
- A record without a postcode matches any queried postcode.
- A latitude or longitude of numeric zero is treated as absent.
- The HTTP status is never checked, so an error body counts as an empty
  result list.

## Model

| member | source | states |
|---|---|---|
| Suburb.CollapseRuns | src/app/api/graphql/route.ts:48 | `replace(/\s+/g, ' ')` as a left-to-right scan; the result is never longer than the input and is non-empty for a non-empty input when not continuing a run, as `replace` starts; what it keeps is the `CollapseRunsJoinsWords` row |
| Suburb.NormalizeSuburb | src/app/api/graphql/route.ts:47-49 | trim, collapse, upper-case; its own contract says the result has no lower-case letter and is never longer than the name; what it keeps is the `NormalizeSuburbJoinsWords` row |
| Suburb.WordLen | src/app/api/graphql/route.ts:48 | the length of the leading run of non-whitespace characters: every character before it is non-whitespace, and the character at it, if any, is whitespace |
| Suburb.Words | src/app/api/graphql/route.ts:47-49 | defines the words of a text, independently of the code: its maximal runs of non-whitespace characters, in order |
| Suburb.WordsAreRuns | src/app/api/graphql/route.ts:48 | every word is non-empty and contains no whitespace |
| Suburb.NoWordsIffAllWhitespace | src/app/api/graphql/route.ts:48 | a text has no words exactly when it is all whitespace |
| Suburb.WordsSeparated | src/app/api/graphql/route.ts:48 | a non-empty whitespace run splits the words: those of `a + w + b` are those of `a` followed by those of `b` |
| Suburb.WordsOfTrim | src/app/api/graphql/route.ts:48 | `trim` keeps every word |
| Suburb.CollapseRunsJoinsWords | src/app/api/graphql/route.ts:48 | the collapse keeps the words, in order, with one space between consecutive words, and one space at an edge exactly where the text starts or ends with whitespace |
| Suburb.NormalizeSuburbJoinsWords | src/app/api/graphql/route.ts:47-49 | the normal form is the name's words, in order, upper-cased and joined by single spaces, with nothing around them |
| Suburb.NormalizeSuburbIgnoresCase | src/app/api/graphql/route.ts:47-49 | upper-casing a name first does not change its normal form, so names that differ only in case normalise alike |
| Suburb.NormalizeSuburbIgnoresEdgeWhitespace | src/app/api/graphql/route.ts:47-49 | whitespace added before or after a name does not change its normal form |
| Suburb.NormalizeSuburbCollapsesInnerRun | src/app/api/graphql/route.ts:47-49 | any non-empty whitespace run inside a name normalises as a single space |
| Suburb.NoWhitespaceIsUpperCased | src/app/api/graphql/route.ts:47-49 | a name without whitespace is only upper-cased |
| Suburb.NormalizeSuburbIsNormalized | src/app/api/graphql/route.ts:47-49 | the result is upper-case, has no whitespace at either end, and every whitespace character in it is a single space between non-whitespace characters |
| Suburb.NormalizedIsFixed | src/app/api/graphql/route.ts:47-49 | a string already in normalised form is returned unchanged |
| Suburb.NormalizeSuburbIdempotent | src/app/api/graphql/route.ts:47-49 | normalising twice equals normalising once |
| Text.TrimStartDropsLeadingWhitespace | src/app/api/graphql/route.ts:48 | `trimStart` removes a prefix made only of whitespace and keeps the rest unchanged |
| Text.TrimEndDropsTrailingWhitespace | src/app/api/graphql/route.ts:48 | `trimEnd` removes a suffix made only of whitespace and keeps the rest unchanged |
| Text.TrimUpper | src/app/api/graphql/route.ts:48 | trimming and upper-casing commute |
| Suburb.CollapseRunsUpper | src/app/api/graphql/route.ts:48 | collapsing whitespace and upper-casing commute |
| Wire.UnwrapData | src/app/api/graphql/route.ts:21-23 | returns the `data` member exactly when the value is an object with a `data` key, and the value itself otherwise |
| Wire.NormalizeRecord | src/app/api/graphql/route.ts:37-45 | location and state are upper-case; the postcode falls back from `postcode` to `postal_code` to null, and is null only when both are falsy; the location is the upper-cased `String` of a truthy `suburb`, else of a truthy `location`, else empty; the state is the upper-cased `String` of a truthy `state`, else empty; a coordinate is present exactly when its wire value is truthy and then carries that value |
| Wire.NormalizeAll | src/app/api/graphql/route.ts:65 | mapping succeeds exactly when no element is null or undefined; the records then match the elements one by one, in order; otherwise the TypeError of the first nullish element is thrown |
| Wire.LocalityPayload | src/app/api/graphql/route.ts:63 | `data?.localities?.locality`: undefined unless the value is an object with `localities`, then that object's `locality` or undefined |
| Wire.AsList | src/app/api/graphql/route.ts:64 | an array payload is used as is, any other truthy payload becomes a one-element list, and a falsy payload the empty list |
| Wire.ShapeResponse | src/app/api/graphql/route.ts:60-65 | from the parsed body to the record list: a falsy payload gives the empty list; a failure is always an Error thrown for an array payload; every record has upper-case location and state |
| Wire.CallAusPost | src/app/api/graphql/route.ts:50-75 | a thrown request propagates its thrown value; an answered request yields exactly the shaping of its parsed body (`ShapeResponse`), a record list or an Error, whatever its HTTP status |
| Wire.DataWrapperIsTransparent | src/app/api/graphql/route.ts:60-65 | a body wrapped in `{ data: ... }` yields the same records as the bare body |
| Wire.SingleObjectIsOneElementList | src/app/api/graphql/route.ts:63-65 | a single locality object yields the same one-record list as an array holding only it |
| Wire.ListPayloadKeepsOrder | src/app/api/graphql/route.ts:63-65 | an array of non-null localities yields one record per element, in order |
| Wire.BodyWithoutLocalitiesIsEmpty | src/app/api/graphql/route.ts:56-64 | a body without `data` or `localities` (such as an error body) yields the empty list rather than a failure, since the status is never checked |
| Wire.ZeroLatitudeIsDropped | src/app/api/graphql/route.ts:42 | a wire latitude of numeric zero leaves the record without a latitude |
| Cookie.Segments | src/app/api/graphql/route.ts:31-33 | one segment per `;`-separated piece of the header, each trimmed |
| Cookie.GetCookieVal | src/app/api/graphql/route.ts:29-36 | no value for a missing or empty header; otherwise a value exactly when some trimmed segment starts with `name=`, and then it is the text after `name=` in the first such segment |
| Cookie.CookieRoundTrip | src/app/api/graphql/route.ts:29-36 | a header holding just `name=value` gives back `value` |
| Cookie.CookieAfterOtherCookie | src/app/api/graphql/route.ts:29-36 | a segment for a different cookie placed before `name=value` does not hide it |
| Resolver.FailureMessage | src/app/api/graphql/route.ts:130 | the message starts with "Australia Post request failed: " and continues with the thrown Error's message, or "Unknown error" for any other thrown value |
| Resolver.RecordPostcode | src/app/api/graphql/route.ts:102 | defines the record's postcode as compared: `String` of a truthy postcode, else the queried postcode |
| Resolver.IsHit | src/app/api/graphql/route.ts:101-106 | defines the `find` callback: record postcode equal, normalised record state equal to the raw `state`, normalised location equal to the normalised suburb |
| Resolver.HitTest | src/app/api/graphql/route.ts:101-106 | the callback `IsHit` as a function value, the form `find` receives |
| Resolver.FirstHit | src/app/api/graphql/route.ts:100-107 | defines `byPostcode.find(...)` as the first index whose record passes the callback |
| Resolver.InState | src/app/api/graphql/route.ts:119 | defines the `some` callback: normalised location equal to the target and normalised state equal to the raw `state` |
| Resolver.SuburbInState | src/app/api/graphql/route.ts:118-120 | defines `bySuburb.some(...)`: some record passes `InState` |
| Resolver.Verdict | src/app/api/graphql/route.ts:94-131 | defines the verdict of the try/catch block from the two requests' answers; its properties are the lemma rows below |
| Resolver.Audit | src/app/api/graphql/route.ts:137-145 | defines the audit document built from the arguments, the session email, the timestamp and the verdict |
| Resolver.Respond | src/app/api/graphql/route.ts:81-152 | defines the whole outcome: the input error for an empty argument, otherwise the verdict with its audit document |
| Resolver.FindHit | src/app/api/graphql/route.ts:100-107 | the `find` scan, a loop that stops at the first exact match; returns exactly `FirstHit` |
| Resolver.AnyInState | src/app/api/graphql/route.ts:118-120 | the `some` scan, a loop that stops at the first record with the suburb in the state; returns exactly `SuburbInState` |
| Resolver.VerifyAddress | src/app/api/graphql/route.ts:80-153 | the step-by-step resolver, with its `let` variables reassigned across the branches and the two scans, produces exactly `Respond`: the input error, or the verdict with its audit entry |
| Resolver.SuccessIffExactMatch | src/app/api/graphql/route.ts:100-131 | success holds exactly when the postcode lookup answers and some record matches on postcode (or has none), raw state and normalised suburb; the message is the fixed "valid" text exactly on success, since every failure message differs from it |
| Resolver.CoordinatesOnlyOnHit | src/app/api/graphql/route.ts:109-115 | latitude and longitude are present together or not at all, only on success, and then exactly when the first hit has both; they are the hit's own values |
| Resolver.FallbackVerdict | src/app/api/graphql/route.ts:116-126 | without a hit the verdict fails with no coordinates; if the suburb lookup throws, the message is the failure text; otherwise "does not exist in the state" exactly when no record has the suburb in the state, and "does not match the suburb" exactly when one does |
| Resolver.LookupFailureVerdict | src/app/api/graphql/route.ts:129-131 | when a lookup that is reached throws, the verdict fails with no coordinates, and its message is the fixed prefix followed by the cause taken from what that lookup threw |
| Resolver.SecondRequestMayFailAlone | src/app/api/graphql/route.ts:95-131 | a first request without a hit followed by a second request that throws is a possible run, even when the suburb is the same text as the postcode; it ends in the second request's failure message |
| Resolver.FallbackOnlyOnMiss | src/app/api/graphql/route.ts:109-117 | when the postcode lookup throws or finds a hit, the verdict does not depend on what the suburb lookup would answer |
| Resolver.ResponseAndAudit | src/app/api/graphql/route.ts:84-144 | empty arguments, and only those, give the input error, with the fixed "required" message; otherwise the audit entry echoes the arguments and timestamp, mirrors success, carries the message as its error exactly on failure, and names the session's email, or "anonymous" when there is none |
| Resolver.LowercaseStateNeverVerifies | src/app/api/graphql/route.ts:104 | a state argument with a lower-case letter never verifies; when both lookups answer, the verdict always says the suburb is not in that state |
| Resolver.MissingPostcodeMatchesAnyQuery | src/app/api/graphql/route.ts:102-105 | for a record without a postcode, the exact-match test reduces to the suburb-in-state test |
| Resolver.ZeroLatitudeHitHasNoCoordinates | src/app/api/graphql/route.ts:112-115 | a hit on a record whose wire latitude was numeric zero verifies without coordinates |
| Resolver.MelbourneLookup | src/app/api/graphql/route.ts:56-65 | a directory answering the postcode request with the Melbourne record yields, through callAusPost, the one normalised record |
| Resolver.MelbourneVerifies | src/app/api/graphql/route.ts:94-115 | 3000 / Melbourne / VIC verifies with the record's coordinates, through callAusPost's shaping, whatever the suburb request would answer |
| VerifyPage.ValidatePostcode | src/app/verify/page.tsx:46-50 | no error exactly for four decimal digits; the empty input gives "required", any other input the four-digits message |
| VerifyPage.ValidateSuburb | src/app/verify/page.tsx:51-58 | no error exactly when the trimmed value has 2 to 50 characters, all letters, whitespace, apostrophes or hyphens; the errors come in the order empty, too short, too long, bad characters |
| VerifyPage.ValidateState | src/app/verify/page.tsx:59-63 | no error exactly for one of the eight state and territory codes; the empty input gives "required", anything else "Invalid state." |
| VerifyPage.IsFormValid | src/app/verify/page.tsx:65-68 | defines form validity as all three validators returning null |
| VerifyPage.SubmitEnabled | src/app/verify/page.tsx:179-181 | defines the button as enabled when no query is in flight and the form is valid |
| VerifyPage.FormValidIff | src/app/verify/page.tsx:65-68 | the form is valid exactly when the postcode is four digits, the trimmed suburb is acceptable, and the state is a known code |
| VerifyPage.SubmitEnabledIff | src/app/verify/page.tsx:179-181 | the submit button is enabled exactly when no query is in flight and the form is valid |
| VerifyPage.KeepDigits | src/app/verify/page.tsx:127 | only digits remain, and the result is never longer than the input |
| VerifyPage.KeepDigitsAppend | src/app/verify/page.tsx:127 | keeping the digits of a concatenation concatenates the kept digits |
| VerifyPage.SanitizePostcode | src/app/verify/page.tsx:127 | the stored postcode is the first four (or fewer) digits of what was typed, in order |
| VerifyPage.SanitizeIdempotent | src/app/verify/page.tsx:127 | sanitising a sanitised postcode changes nothing |
| VerifyPage.SanitizedPostcodeValidIff | src/app/verify/page.tsx:127 | the sanitised postcode passes the validator exactly when at least four digits were typed |
| VerifyPage.SanitizeKeepsValidPostcode | src/app/verify/page.tsx:127 | a valid postcode passes through the sanitiser unchanged |
| VerifyPage.Keystroke | src/app/verify/page.tsx:126-130 | typing a digit into a field with fewer than four digits appends it; any other keystroke, or a fifth digit, leaves the field unchanged |
| VerifyPage.VerifyForm.constructor | src/app/verify/page.tsx:33-39 | all three fields start empty and no error is shown |
| VerifyPage.VerifyForm.KeystrokeOnStoredPostcode | src/app/verify/page.tsx:126-130 | on a form kept valid by the change handlers, typing a digit at the end of a postcode with fewer than four digits appends it, and any other keystroke, or a fifth digit, leaves the stored postcode as it is |
| VerifyPage.VerifyForm.OnPostcodeChange | src/app/verify/page.tsx:126-130 | stores the sanitised postcode, re-validates only when an error is showing, leaves the other fields alone, and keeps the postcode at four digits or fewer |
| VerifyPage.VerifyForm.OnPostcodeBlur | src/app/verify/page.tsx:131 | the postcode error becomes the validator's verdict on the stored postcode |
| VerifyPage.VerifyForm.OnSuburbChange | src/app/verify/page.tsx:143-146 | stores the suburb as typed and re-validates only when an error is showing |
| VerifyPage.VerifyForm.OnSuburbBlur | src/app/verify/page.tsx:147 | the suburb error becomes the validator's verdict on the stored suburb |
| VerifyPage.VerifyForm.OnStateChange | src/app/verify/page.tsx:158-162 | stores the selection upper-cased and re-validates only when an error is showing |
| VerifyPage.VerifyForm.OnStateBlur | src/app/verify/page.tsx:163 | the state error becomes the validator's verdict on the stored state |
| VerifyPage.KnownStateIsUpperCase | src/app/verify/page.tsx:59-63 | every state the validator accepts is already upper-case |
| VerifyPage.VerifyForm.OnSubmit | src/app/verify/page.tsx:89-101 | sets all three errors from the validators; issues a query exactly when the form is valid, carrying the postcode, the suburb and the upper-cased state, which is the stored state itself |
| Routing.Middleware | middleware.ts:5-24 | a `/verify…` path without a token is redirected to `/login`, dropping the query; `/` with a token the JWT check accepts is redirected to `/verify`, keeping the query; these are the only redirects, and everything else passes |
| Routing.Route | middleware.ts:26-28 | paths outside the matcher pass untouched; matched paths get the middleware's decision |
| Routing.ProtectedPathNeedsToken | middleware.ts:11-13 | every matched page under `/verify` sends a visitor without a token to `/login` |
| Routing.ProtectedPathIgnoresTokenValidity | middleware.ts:11-23 | on matched `/verify` pages any token gets through, whether or not the JWT check would accept it |
| Routing.SignedInHomeGoesToVerify | middleware.ts:14-18 | `/` with a token the JWT check accepts redirects to `/verify` with the query kept |
| Routing.HomeWithoutValidTokenPasses | middleware.ts:14-23 | `/` with no token, or with one the JWT check rejects, passes through |
| Routing.NoRedirectLoop | middleware.ts:11-28 | following either redirect with the same cookie passes through |

## Left out

- The URL construction and `fetch` in `callAusPost` (network I/O). The directory is a parameter that returns a parsed body or a thrown value. A body that is not JSON counts as a thrown value.
- The `Number(...)` coercion of coordinates (floating point). A coordinate keeps its wire value; only its presence is modelled.
- JavaScript numbers are represented by their `String()` text. Only `0` and `NaN` are falsy. The model does not restrict that text to what `String` can produce for some number, so its statements also cover texts such as `0.0` that no number has.
- `toUpperCase` is modelled on ASCII letters only. String lengths count characters, not UTF-16 code units.
- `String()` of an object that defines its own `toString` is not modelled. Every object gives `[object Object]`.
- The `esClient.index` call (fire-and-forget I/O). Only the audit document's value is modelled. The timestamp is a parameter instead of the clock.
- The GraphQL Yoga schema, the context function that reads the session email through the JWT check, and the GET/POST/OPTIONS handlers (framework plumbing). The session email is a parameter of the resolver.
- `src/lib/auth.ts` and `src/lib/jwt.ts` (bcrypt and jose). In the middleware, token validity is a predicate parameter.
- The `console.log` in the middleware.
- The login and register routes and pages, the home page, the layout, the Apollo wrapper and the map component. They are not part of this model.
- The verify page's localStorage restore and persist effects (browser I/O). Restoring can put text into the fields that the change handlers would never produce, so `VerifyForm.Valid` is stated as kept by the handlers rather than assumed by `OnSubmit`.
- Rendering of the verify page's result and error, and the logout button.
