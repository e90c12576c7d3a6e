# yaya-api request signing and relay, modelled in Dafny

The yaya-api backend relays calls to the YaYa Wallet API. This project models the part of it that has logic:

- **`generateSignature`** builds the canonical string `timestamp ++ METHOD ++ /path ++ JSON(body)?`, signs it with HMAC-SHA256 and returns the signature as padded base64 (section 4 of RFC 4648), together with the timestamp.
- **`YayaHttpService`** resolves its base URL, API key, API secret and mock flag once, in its constructor. Its `get` normalises the path. It then either answers from fixed mock fixtures or signs the request, adds three headers and sends it upstream.
- **`mockResponse`** is a first-match dispatcher on substrings of the path.
- **`TimeService.getTime`** and **`TransactionsService.findByUser`** are the two adapters. Each maps to one relay path and one params shape.

Modules and files:

- `wrappers.dfy` (Option, Result)
- `base64.dfy`: encoder, decoder and round trip
- `text.dfy`: ASCII `toUpperCase`, `includes`, decimal `toString`
- `paths.dfy`: leading-slash normalisation, trailing-slash stripping
- `json.dfy`: JavaScript values, truthiness, property lookup
- `signature.dfy`: `src/utils/signature.ts`
- `yaya_http.dfy`: `src/yaya-http/yaya-http.service.ts`
- `time_service.dfy`: `src/time/time.service.ts`
- `transactions_service.dfy`: `src/transactions/transactions.service.ts`

Foreign code is passed in as function-typed parameters: HMAC-SHA256 returns 32 bytes, `JSON.stringify` returns a string, and the HTTP transport returns the response data or an error. `generateSignature` takes the clock as a number of milliseconds. `YayaHttpService` and the adapters take a `Clock` value holding the milliseconds and the ISO text, and group the foreign functions in `Effects`.

`YayaHttpService` is a class whose `const` fields are set once by its constructor, matching the source's `readonly` fields. `Get` is a method proved against the function `Outcome`. The adapters are classes that hold the relay and call `Get`.

Three behaviours of the code differ from what its names and comments suggest. The model follows the code:

- Mock mode is always on. `useMock` is `config.get('USE_MOCK') || 'true'`, a non-empty string that JavaScript treats as true, so `USE_MOCK=false` still selects the mock. The real branch is modelled, and `MockAlwaysOn` shows that a constructed service never reaches it.
- The real `get` signs `JSON(params)` whenever `params` has at least one key. The GET query params are not left out of the signed string.
- The search mock returns the fixed record t3 whatever its params: there is no filtering. It answers any path that includes `/api/en/transaction/search` and neither of the two earlier fixture paths. The plural `/api/en/transactions/search` does not include it and gets the catch-all message. There is no `post` and no search adapter.

## Model

| member | source | states |
|---|---|---|
| Base64.Encode | src/utils/signature.ts:11-14 | the output has 4 characters per started group of 3 bytes, each from the alphabet A-Z a-z 0-9 + / or '=' |
| Base64.DecodeEncode | src/utils/signature.ts:14 | decoding the base64 text of any byte string gives back exactly those bytes |
| Base64.EncodeInjective | src/utils/signature.ts:14 | distinct digests have distinct base64 texts |
| Base64.EncodeDecode | src/utils/signature.ts:14 | a text that decodes at all is the encoding of what it decodes to: the decoder accepts only the canonical text, with the unused low bits of a padded last group zero |
| Base64.DecodeUnique | src/utils/signature.ts:14 | the encoding of a digest is the only text that decodes to it |
| Base64.EncodePadding | src/utils/signature.ts:14 | the '=' characters are exactly the last (3 - n mod 3) mod 3 characters |
| Text.ToUpper | src/utils/signature.ts:10 | keeps the length and upper-cases each lower-case letter, leaving other characters alone |
| Text.ToUpperCaseInsensitive | src/utils/signature.ts:10 | two methods upper-case to the same string if and only if they are equal ignoring letter case |
| Text.ToUpperIdempotent | src/utils/signature.ts:10 | upper-casing an upper-cased method changes nothing |
| Text.ContainsSelf | src/yaya-http/yaya-http.service.ts:68-88 | every path includes itself |
| Text.MissingCharNotContained | src/yaya-http/yaya-http.service.ts:68-88 | a path that lacks one of a fixture path's characters does not include that fixture path |
| Text.NatToDecimal | src/utils/signature.ts:7 | `Date.now().toString()` is a non-empty string of decimal digits with no leading zero |
| Text.DecimalRoundTrip | src/utils/signature.ts:7 | reading the timestamp text back as a number gives the clock value |
| Text.DecimalCanonical | src/utils/signature.ts:7 | the decimal text of a number is the only non-empty digit string without a leading zero that denotes it |
| Text.Contains | src/yaya-http/yaya-http.service.ts:68-88 | `includes` holds for every prefix, the empty string included, and never for a string longer than the path |
| Text.NatToDecimalInjective | src/utils/signature.ts:7 | distinct clock values give distinct timestamps |
| Paths.NormalizePath | src/utils/signature.ts:8 | the result starts with '/', ends with the whole input, is at most one character longer, and equals the input exactly when the input already starts with '/' |
| Paths.NormalizePathIdempotent | src/yaya-http/yaya-http.service.ts:29 | normalising a normalised path changes nothing |
| Paths.NormalizePathLeadingSlash | src/utils/signature.ts:8 | `p` and `/p` normalise to the same path, `/p` |
| Paths.StripTrailingSlashes | src/yaya-http/yaya-http.service.ts:19 | the result is a prefix of the input that does not end in '/', and everything removed is '/' |
| Paths.StripTrailingSlashesUnique | src/yaya-http/yaya-http.service.ts:19 | any prefix with those three properties is the stripped URL |
| Paths.StripTrailingSlashesIdempotent | src/yaya-http/yaya-http.service.ts:19 | stripping twice equals stripping once |
| Json.Truthy | src/yaya-http/yaya-http.service.ts:32 | `undefined`, `null`, `0` and `""` are falsy; a non-empty string, a non-zero number, every array and every object are truthy |
| Json.Keys | src/yaya-http/yaya-http.service.ts:40 | `Object.keys` lists one name per field, in the fields' list order |
| Json.Lookup | src/yaya-http/yaya-http.service.ts:78-84 | reading a missing property gives `undefined`; a present one gives the value of one of its fields |
| Json.LookupAt | src/yaya-http/yaya-http.service.ts:78-84 | a property reads as the value of its first field |
| Signature.Prehash | src/utils/signature.ts:10 | the canonical string starts with the timestamp |
| Signature.EncodedDigestShape | src/utils/signature.ts:11-14 | base64 of a 32-byte digest is 44 characters: 43 from the alphabet, then one '=' |
| Signature.GenerateSignature | src/utils/signature.ts:6-17 | the timestamp is non-empty decimal digits with no leading zero that denote the clock value; the signature is 44 base64 characters with exactly one '=', and it decodes to the HMAC, under the secret, of the canonical string built with that same timestamp |
| Signature.SignedAtUnique | src/utils/signature.ts:6-17 | that promise admits exactly one result: any timestamp and signature meeting it are those `generateSignature` returns |
| Signature.PrehashNullBody | src/utils/signature.ts:10 | a null body appends nothing (neither "{}" nor "null") |
| Signature.SignatureIgnoresMethodCaseAndLeadingSlash | src/utils/signature.ts:8-14 | the same secret, body and clock give the same timestamp and signature for methods equal up to case and paths that normalise alike |
| Signature.UpperGet | src/utils/signature.ts:10 | `get` and `GET` both upper-case to `GET` |
| Signature.SameCanonicalStringForTimePath | src/utils/signature.ts:8-10 | `get api/en/time` and `GET /api/en/time` give the canonical string `timestamp ++ "GET/api/en/time"` |
| Signature.PrehashBodySensitive | src/utils/signature.ts:10 | bodies that serialise differently give different canonical strings |
| Signature.SignatureSensitiveToDigest | src/utils/signature.ts:11-14 | when the HMACs of the two canonical strings differ, the signatures differ |
| YayaHttp.SettingOr | src/yaya-http/yaya-http.service.ts:20-21 | an unset or empty setting gives the fallback, any other setting gives itself; a non-empty fallback makes the result non-empty |
| YayaHttp.ResolveBaseUrl | src/yaya-http/yaya-http.service.ts:19 | the base URL is never empty and never ends in '/'; it is the setting without its trailing slashes when that is non-empty, otherwise `https://yayawallet.com` |
| YayaHttp.ResolveUseMock | src/yaya-http/yaya-http.service.ts:22 | `useMock` is non-empty, and therefore truthy, for every configuration |
| YayaHttp.UseMockFalseStillMocks | src/yaya-http/yaya-http.service.ts:22 | with USE_MOCK set to 'false', `useMock` is the truthy string 'false' |
| YayaHttp.RouteOf | src/yaya-http/yaya-http.service.ts:68-96 | the first fixture path the path includes picks the branch: time before find-by-user before search; the catch-all only when it includes none |
| YayaHttp.MockResponse | src/yaya-http/yaya-http.service.ts:67-97 | the mock payload is always an object whose keys are exactly those of the selected branch, in order |
| YayaHttp.TimeMockFields | src/yaya-http/yaya-http.service.ts:68-74 | the time fixture gives the clock value, timezone 'UTC' and client_ip '127.0.0.1' |
| YayaHttp.FindByUserMockFields | src/yaya-http/yaya-http.service.ts:76-86 | the find-by-user fixture echoes `params.userId` and `params.page`, lists t1 then t2, and sets `currentPage` to `params.p` when it is truthy, else to 1 |
| YayaHttp.SearchMockFixed | src/yaya-http/yaya-http.service.ts:88-94 | the search fixture is the single record t3, whatever the params |
| YayaHttp.CatchAllMockMessage | src/yaya-http/yaya-http.service.ts:96 | a path that includes none of the three fixture paths gets `message` = "Mock response for " followed by the path |
| YayaHttp.TimePathRoute | src/yaya-http/yaya-http.service.ts:68 | `/api/en/time` reaches the time fixture |
| YayaHttp.FindByUserPathRoute | src/yaya-http/yaya-http.service.ts:68-76 | `/api/en/transactions/find-by-user` reaches the find-by-user fixture, not the time fixture |
| YayaHttp.SearchPathRoute | src/yaya-http/yaya-http.service.ts:68-88 | `/api/en/transaction/search` reaches the search fixture |
| YayaHttp.PluralPathMissesSearchPath | src/yaya-http/yaya-http.service.ts:88 | `/api/en/transactions/search` does not include `/api/en/transaction/search` |
| YayaHttp.PluralSearchPathFallsThrough | src/yaya-http/yaya-http.service.ts:67-97 | the plural `/api/en/transactions/search` matches no fixture and gets `{message: "Mock response for <path>"}` |
| YayaHttp.RelayPrehash | src/yaya-http/yaya-http.service.ts:40 | the real branch's canonical string starts with `timestamp ++ "GET" ++ fullPath` |
| YayaHttp.RelayPrehashMatchesSignerWithoutParams | src/yaya-http/yaya-http.service.ts:40 | with no params it equals `generateSignature`'s canonical string for a GET with a null body |
| YayaHttp.RelayPrehashWithParams | src/yaya-http/yaya-http.service.ts:40 | with at least one param it ends with `JSON(params)` |
| YayaHttp.SignedHeaders | src/yaya-http/yaya-http.service.ts:46-50 | three headers under three distinct names, carrying the API key, the signature and the timestamp |
| YayaHttp.RealRequest | src/yaya-http/yaya-http.service.ts:39-55 | the request goes to the base URL followed by the path, with the params unchanged, the API key header first and the decimal clock value as timestamp header |
| YayaHttp.RealRequestShape | src/yaya-http/yaya-http.service.ts:39-55 | the URL is the base URL, whose last character is not '/', followed by the normalised path, whose first character is '/'; the params go unchanged; there are exactly three headers: the API key, a 44-character base64 signature that decodes to the HMAC of the canonical string, and a timestamp of digits with no leading zero that denotes the clock value and begins that string |
| YayaHttp.YayaHttpService.constructor | src/yaya-http/yaya-http.service.ts:15-23 | each field is resolved from the configuration with its fallback, and the service satisfies `Valid` |
| YayaHttp.YayaHttpService.Get | src/yaya-http/yaya-http.service.ts:28-62 | the result is `Outcome`: the mock payload for the normalised path in mock mode; otherwise the data of the one signed request sent, or its error passed on unchanged |
| YayaHttp.MockAlwaysOn | src/yaya-http/yaya-http.service.ts:22-36 | a constructed service answers every `get` from `mockResponse(fullPath, params)`, and the result does not depend on the transport |
| Time.TimeService.constructor | src/time/time.service.ts:6 | the service keeps the relay it is given |
| Time.TimeService.GetTime | src/time/time.service.ts:9-11 | the relay's result for `api/en/time` with empty params, unchanged; for a constructed relay, the time envelope for the clock value |
| Time.TimeRelayPathNormalizes | src/time/time.service.ts:10 | `api/en/time` normalises to `/api/en/time` |
| Time.GetTimeMockFields | src/time/time.service.ts:10 | the time call succeeds with `time` = clock, timezone 'UTC' and client_ip '127.0.0.1' |
| Time.TimeRealPrehash | src/time/time.service.ts:10 | a real time call would sign `timestamp ++ "GET/api/en/time"`, with no params segment |
| Transactions.FindByUserParams | src/transactions/transactions.service.ts:9 | the params object has exactly the keys userId and page, in that order |
| Transactions.TransactionsService.constructor | src/transactions/transactions.service.ts:6 | the service keeps the relay it is given |
| Transactions.TransactionsService.FindByUser | src/transactions/transactions.service.ts:8-10 | the relay's result for the find-by-user path and `{userId, page}`, unchanged; for a constructed relay it succeeds, echoes userId and page, lists t1 then t2, and has currentPage 1 |
| Transactions.FindByUserRelayPathNormalizes | src/transactions/transactions.service.ts:9 | the relayed path normalises to `/api/en/transactions/find-by-user` |
| Transactions.FindByUserAnswersFromFixture | src/transactions/transactions.service.ts:9 | the normalised path reaches the find-by-user fixture; the payload echoes the arguments, lists t1 then t2, and has currentPage 1 because no `p` is sent |
| Transactions.FindByUserRealPrehash | src/transactions/transactions.service.ts:9 | a real call would always sign `JSON({userId, page})` after the path |

## Left out

- The outbound HTTP call (`HttpService.get`, `firstValueFrom`, the `async`/Promise machinery) is the `send` parameter, called once. Its timeout and redirect settings (`yaya-http.module.ts`) are transport configuration and are not modelled.
- Logging (`Logger.log`, `Logger.error`, `console.log`) is output only and is not modelled. The error branch is modelled as "the transport error is returned unchanged".
- HMAC-SHA256 and `JSON.stringify` are foreign library code and are parameters: an arbitrary function returning 32 bytes, and an arbitrary function to strings. Determinism of the signature follows from `GenerateSignature` being a function. That distinct canonical strings give distinct signatures is proved only as far as the HMAC itself gives distinct digests.
- `Date.now()` and `new Date().toISOString()` are read from one `Clock` value. The source reads the clock separately for the time field and for each fixture's `created_at`, so those reads could differ by a millisecond; the model takes them as one instant.
- Text.ToUpper: upper-cases ASCII letters only. JavaScript's `toUpperCase` also maps other Unicode letters, some into several characters.
- JavaScript numbers are modelled as integers: the clock, amounts and `page`. NaN and fractions are not modelled. The controller passes `page` as it arrives from the query string; the model takes the declared `number` type.
- Json.Keys: lists the keys in the fields' list order. JavaScript's `Object.keys` and `JSON.stringify` put keys that look like array indexes first, in ascending numeric order. No object the source builds has such a key, and `get` reads only the number of keys.
- Json.Lookup: an object is a list of fields, and a repeated key reads as its first field. Objects built by the source never repeat a key.
- The controllers, Nest modules, `main.ts`, the DTO validation annotations, the transaction interface and the end-to-end test are framework wiring and are not part of this model.
