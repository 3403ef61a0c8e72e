# go-http-client, modelled in Dafny

This project models the core of a small curl-like HTTP client written in Go and proves properties of the model. The core has three parts:

- **Rate limiter** (`ratelimit/ratelimit.go`). It parses rate specifications such as `10/s`, `100/30s`, `50/m` and `1000/h` into a limit and a burst. A `RateLimiter` is either disabled or wraps a token bucket. It admits requests (`Allow`, `Wait`), can be reconfigured or disabled (`SetRate`), and reports `Stats`.
- **Authenticators** (`auth/*.go`). Basic, bearer and custom-header authentication set one request header. OAuth2 client-credentials authentication caches an access token until its expiry and otherwise fetches a new one from the token endpoint. `NewAuthenticator` picks one kind from the configuration by a fixed precedence.
- **Request building** (`main.go`). It covers:
  - the repeatable `-H`, `-q` and `-f` flag lists;
  - parsing of `Key: Value` header entries and `key=value` query and form entries;
  - the choice of the `-d` body source;
  - how `makeRequest` combines these: a form beats data, and the multipart content type can be overridden by `-H`.

Files and modules:

| file | module | contents |
|---|---|---|
| `base.dfy` | `Wrappers` | `Option`, `Result`, `Outcome` |
| `gostrings.dfy` | `GoStrings` | the Go `strings` functions the client uses: `Split`, `SplitN(…, 2)`, `Join`, `TrimSpace` |
| `bytes.dfy` | `GoBytes` | the UTF-8 bytes of a Go string (RFC 3629) |
| `base64.dfy` | `Base64` | standard padded base64 (section 4 of RFC 4648), encoder and decoder |
| `goparse.dfy` | `GoConv`, `GoTime` | `strconv.Atoi` and `time.ParseDuration` for the inputs the client passes them |
| `http.dfy` | `Http` | headers, `url.Values` and the outbound `Request` object |
| `ratelimit.dfy` | `RateLimit` | `ratelimit/ratelimit.go` |
| `auth.dfy` | `Auth` | `auth/auth.go`, `basic.go`, `bearer.go`, `custom.go` and `oauth2.go` |
| `cli.dfy` | `Cli` | the request-building helpers of `main.go` |

Modelling choices:

- **Strings and the token bucket.** Go strings are sequences of Unicode scalar values. The bucket from `golang.org/x/time/rate` is an abstract value: it holds the configured limit, the burst and a whole number of tokens, observed with no time passing between calls.
- **Inputs for the outside world.** The clock is an input `now`, in nanoseconds. Whether a waiting caller's context is cancelled is an input `cancelled`. What the OAuth2 token endpoint does with a request is an input `Exchange`.
- **Objects the source changes in place.** These are classes: `RateLimiter`, `OAuth2ClientCredentials`, the outbound `Request` and the flag lists. The OAuth2 class keeps a ghost log `sent` of the token requests it has issued, so caching can be stated: a valid cached token means nothing is sent.

## Model

| member | source | states |
|---|---|---|
| GoStrings.Split | ratelimit/ratelimit.go:47 | `strings.Split` on one separator character always yields at least one piece |
| GoStrings.SplitCount | ratelimit/ratelimit.go:47-48 | the number of pieces is the number of separators plus one |
| GoStrings.SplitPiecesFree | ratelimit/ratelimit.go:47 | no piece contains the separator |
| GoStrings.JoinSplit | ratelimit/ratelimit.go:47 | joining the pieces with the separator gives back the input |
| GoStrings.SplitTwo | ratelimit/ratelimit.go:47-50 | there are exactly two pieces iff the input has exactly one separator, and then the input is the first piece, the separator, the second |
| GoStrings.SplitNone | ratelimit/ratelimit.go:47-48 | with no separator the only piece is the whole input |
| GoStrings.SplitAround | ratelimit/ratelimit.go:47-57 | two separator-free texts around one separator split back into exactly those two |
| GoStrings.CountZero | ratelimit/ratelimit.go:47-49 | the separator count is zero iff the separator does not occur |
| GoStrings.SplitFirst | main.go:200-206 | `SplitN(s, sep, 2)` has two parts iff the separator occurs; the parts are the text before the first separator and the rest |
| GoStrings.SplitFirstUnique | main.go:243-246 | a separator-free prefix, the separator and any rest split into exactly that prefix and that rest |
| GoStrings.SpaceRunEnd | main.go:245-246 | the scan from an index stops at the first non-space character (or the end), with only white space before it |
| GoStrings.SpaceRunStart | main.go:245-246 | the backward scan to an index stops just after the last non-space character (or at the start), with only white space after it |
| GoStrings.TrimLeft | main.go:245-246 | the result is a suffix of the input, what was removed is all white space, and the result does not start with white space |
| GoStrings.TrimRight | main.go:245-246 | the result is a prefix of the input, what was removed is all white space, and the result does not end with white space |
| GoStrings.TrimSpace | main.go:245-246 | the result neither starts nor ends with white space, and it is empty iff the input is all white space |
| GoStrings.TrimSpaceSurrounded | main.go:245-246 | white space around a trimmed core is removed and the core is kept intact |
| GoStrings.TrimLeftSpaces | main.go:245-246 | leading white space before a non-space start is removed exactly |
| GoStrings.TrimRightSpaces | main.go:245-246 | trailing white space after a non-space end is removed exactly |
| GoStrings.TrimSpaceIdempotent | main.go:245-246 | trimming twice is trimming once |
| GoBytes.EncodeRune | auth/basic.go:29 | UTF-8 encoding of one character: 1 to 4 bytes, a single byte exactly for ASCII (and then the same value), continuation bytes in 0x80..0xBF |
| GoBytes.Utf8 | auth/basic.go:29 | `[]byte(s)` has at least as many bytes as `s` has characters |
| GoBytes.Utf8Append | auth/basic.go:28-29 | the bytes of a concatenation are the concatenation of the bytes |
| GoBytes.Utf8Ascii | auth/basic.go:29 | an ASCII string's bytes are its characters' codes, one each |
| Base64.Alphabet | auth/basic.go:29 | no digit of the standard alphabet is the pad character `=` |
| Base64.Index | auth/basic.go:29 | a character's index, when it has one, is below 64 and maps back to that character |
| Base64.IndexAlphabet | auth/basic.go:29 | every index maps to a character whose index is that index |
| Base64.Encode | auth/basic.go:29 | the padded encoding has 4 characters per started group of 3 bytes |
| Base64.GroupRoundTrip | auth/basic.go:29 | a full 3-byte group decodes back to its bytes |
| Base64.RoundTripOne | auth/basic.go:29 | a final group of one byte, padded `==`, decodes back to it |
| Base64.RoundTripTwo | auth/basic.go:29 | a final group of two bytes, padded `=`, decodes back to them |
| Base64.RoundTrip | auth/basic.go:29 | decoding the encoding of any byte sequence gives that sequence back |
| GoConv.Atoi | ratelimit/ratelimit.go:52-55 | an accepted integer lies in the int64 range, the text ends in a digit, and a negative value was written with `-` |
| GoTime.DigitRun | ratelimit/ratelimit.go:84 | the leading run of digits is all digits and is maximal |
| GoTime.UnitRun | ratelimit/ratelimit.go:84 | the unit after a number runs up to the next digit or `.` |
| GoTime.UnitValue | ratelimit/ratelimit.go:84 | every accepted unit (`ns`, `us`, `µs`, `μs`, `ms`, `s`, `m`, `h`) is a positive number of nanoseconds |
| GoTime.ParseDuration | ratelimit/ratelimit.go:84-87 | an accepted duration lies in the int64 range, and a negative one was written with `-` |
| GoTime.ParseDurationSeconds | ratelimit/ratelimit.go:84 | `30s` is thirty seconds |
| GoTime.ParseDurationSegments | ratelimit/ratelimit.go:84 | `2m30s` adds its segments to 150 seconds |
| GoTime.ParseDurationRejects | ratelimit/ratelimit.go:84-87 | a unit with no number (`s`) and text with no digits (`xyz`) are not durations |
| RateLimit.PerSecond | ratelimit/ratelimit.go:62-63 | the limit in admissions per second times the period in seconds is the request count, and it is positive iff the count is |
| RateLimit.ParseRateDuration | ratelimit/ratelimit.go:72-94 | a bare `s`, `m` or `h` is one second, minute or hour; anything else is accepted iff it is a Go duration above zero; every accepted duration is positive |
| RateLimit.ParseRate | ratelimit/ratelimit.go:46-69 | a specification without exactly one `/` is refused as not `requests/duration`; an accepted one has a positive period and a burst equal to its positive request count |
| RateLimit.ParseRateParts | ratelimit/ratelimit.go:46-69 | `requests/duration` fails on a bad or non-positive count first, then on the duration, and otherwise gives that count per that duration with burst = count |
| RateLimit.ParseTenPerSecond | ratelimit/ratelimit_test.go:15 | `10/s` is ten per second, burst ten, i.e. a limit of exactly 10.0 per second |
| RateLimit.ParseHundredPerThirtySeconds | ratelimit/ratelimit_test.go:16 | `100/30s` is a hundred per thirty seconds |
| RateLimit.ParsePerMinute | ratelimit/ratelimit_test.go:17 | `50/m` is fifty per minute, with the bare minute unit and a burst of fifty |
| RateLimit.ParsePerHour | ratelimit/ratelimit_test.go:18 | `1000/h` is a thousand per hour, with the bare hour unit and a burst of a thousand |
| RateLimit.ParseRejectsShape | ratelimit/ratelimit_test.go:19 | `invalid` (no `/`) and `1/2/s` (two) are refused as not `requests/duration` |
| RateLimit.ParseRejectsCount | ratelimit/ratelimit_test.go:21-22 | `0/s` and `-10/s` are refused for their count |
| RateLimit.ParseRejectsDuration | ratelimit/ratelimit_test.go:23 | `10/xyz` is refused for its duration |
| RateLimit.NewBucket | ratelimit/ratelimit.go:38 | a new bucket has the given limit and burst, is consistent, and starts full (tokens = burst) |
| RateLimit.Reconfigure | ratelimit/ratelimit.go:145-146 | the new limit and burst take effect, the bucket stays consistent and no tokens are added |
| RateLimit.RateLimiter.Init | ratelimit/ratelimit.go:30 | the limiter holds the given flag and bucket |
| RateLimit.RateLimiter.New | ratelimit/ratelimit.go:28-43 | `""` gives a disabled limiter with no bucket; otherwise it fails iff the specification does not parse, with that error; an accepted one gives an enabled limiter with a full bucket of the parsed limit and burst |
| RateLimit.RateLimiter.Allow | ratelimit/ratelimit.go:98-111 | disabled: admits and changes nothing; enabled: admits iff a token is left and then takes exactly one, otherwise reports "rate limit exceeded" and changes nothing |
| RateLimit.RateLimiter.IsEnabled | ratelimit/ratelimit.go:153-158 | reports the flag; an enabled (consistent) limiter always has a consistent bucket for `Allow` and `Wait` to consult |
| RateLimit.RateLimiter.Wait | ratelimit/ratelimit.go:114-123 | disabled: returns at once; enabled: succeeds iff the context does not end before a token is available to it (an already-ended context fails even with tokens left); on success it takes an available token, or with none left takes the one that arrives; on failure nothing changes |
| RateLimit.RateLimiter.SetRate | ratelimit/ratelimit.go:126-151 | `""` disables and keeps the bucket; a bad specification is refused and nothing changes; a good one installs its limit and burst (in a new full bucket if there was none) and enables |
| RateLimit.RateLimiter.Stats | ratelimit/ratelimit.go:161-175 | `enabled` is always reported; `limit`, `burst` and `tokens` are reported, with the bucket's values, exactly when enabled with a bucket |
| RateLimit.AllowRepeatedly | ratelimit/ratelimit.go:98-111 | of `k` immediate `Allow` calls on an enabled limiter, exactly the first `tokens` pass and the rest report "rate limit exceeded"; the bucket loses one token per pass |
| RateLimit.FullBurst | ratelimit/ratelimit.go:28-43 | a new limiter admits exactly `burst` (the specification's request count) immediate requests and refuses the next |
| RateLimit.BurstScenario | ratelimit/ratelimit_test.go:42-66 | with `2/s`, two immediate `Allow` calls pass and the third is refused |
| RateLimit.SetRateScenario | ratelimit/ratelimit_test.go:68-97 | a limiter made from `""` is disabled, `SetRate("5/s")` enables it and `SetRate("")` disables it again |
| Http.SetHeader | auth/bearer.go:19 | `Header.Set`: the key holds the new value and no other key changes |
| Http.SetHeaderIdempotent | auth/custom.go:21 | setting the same header twice equals setting it once |
| Http.AddValue | main.go:257 | `Values.Add`: the value goes after the key's earlier values; other keys are unchanged |
| Http.BearerCredential | auth/bearer.go:19 | the header value is `Bearer ` followed by exactly the token |
| Http.Request.constructor | main.go:121 | a new request has the given method, URL and query and no headers |
| Auth.BasicAuth.EncodeCredentials | auth/basic.go:27-30 | the result decodes (base64) to exactly the UTF-8 bytes of the username, the byte of `:` and the bytes of the password, and its length is 4 per started 3-byte group of the bytes of `username:password` |
| Auth.EncodedLengthAscii | auth/basic.go:27-30 | for ASCII credentials the length is 4 × ⌈(\|user\| + \|password\| + 1) / 3⌉ |
| Auth.BasicAuth.Applied | auth/basic.go:20-25 | with either credential set, `Authorization` becomes `Basic ` + the encoded credentials; with neither, nothing changes; other headers never change |
| Auth.BasicAuth.Apply | auth/basic.go:20-25 | never fails, and leaves the request's headers as `Applied` says |
| Auth.BasicIdempotent | auth/basic.go:20-25 | applying basic authentication twice is applying it once |
| Auth.BearerAuth.Applied | auth/bearer.go:17-22 | with a token, `Authorization` becomes `Bearer <token>`; without, nothing changes; other headers never change |
| Auth.BearerAuth.Apply | auth/bearer.go:17-22 | never fails, and leaves the request's headers as `Applied` says |
| Auth.BearerIdempotent | auth/bearer.go:17-22 | applying a bearer token twice is applying it once |
| Auth.CustomAuth.Applied | auth/custom.go:19-24 | with a non-empty name and value, that header holds the value; otherwise nothing changes; other headers never change |
| Auth.CustomAuth.Apply | auth/custom.go:19-24 | never fails, and leaves the request's headers as `Applied` says |
| Auth.CustomIdempotent | auth/custom.go:19-24 | applying a custom header twice is applying it once |
| Auth.Granted | auth/oauth2.go:96-107 | an answer yields a token only with status 200 and a decoded body, and then exactly when its `access_token` is non-empty |
| Auth.FetchFailure | auth/oauth2.go:81-107 | the reported error names the first stage that failed: request creation, transport, a status other than 200 (with that status), decoding, or an empty token |
| Auth.TokenForm | auth/oauth2.go:72-79 | the form holds `grant_type=client_credentials`, `client_id` and `client_secret`, plus `scope` (the scopes joined by spaces) exactly when there are scopes |
| Auth.TokenExpiry | auth/oauth2.go:109-114 | a fresh token is still valid right after the fetch iff no lifetime is declared or it exceeds 60 s; a declared lifetime always ends the token before the server's expiry |
| Auth.ExpiryWithinLifetime | auth/oauth2.go:110-111 | a token declared to live more than 60 s is valid now and is given up before the server's own expiry |
| Auth.ShortLifetimeIsStale | auth/oauth2.go:110-111 | a declared lifetime of 1 to 60 s gives an expiry no later than now |
| Auth.DefaultExpiry | auth/oauth2.go:112-113 | with no positive lifetime declared, the token lasts 55 minutes |
| Auth.Wrap64 | auth/oauth2.go:111 | the 64-bit wrap lies in the int64 range and leaves int64 values unchanged |
| Auth.ExpiryAsWritten | auth/oauth2.go:109-114 | as the source computes it: the expiry lies within an int64 duration of now, and without a declared lifetime it is 55 minutes on |
| Auth.ExpiryAsWrittenAgrees | auth/oauth2.go:110-114 | the source's 64-bit computation equals the exact one while the duration fits in int64 |
| Auth.ExpiryAsWrittenOverflows | auth/oauth2.go:110-111 | for `expires_in` = 10^10 the source's expiry lies before now, although the exact one lies after |
| Auth.OAuth2ClientCredentials.Init | auth/oauth2.go:34-39 | the authenticator holds the given settings, no token and no sent requests |
| Auth.OAuth2ClientCredentials.New | auth/oauth2.go:29-40 | fails exactly when the client ID, the secret or the token URL is empty; otherwise gives an authenticator with those settings and no token |
| Auth.OAuth2ClientCredentials.HasValidToken | auth/oauth2.go:54 | a cached token counts as valid only if it is non-empty, and never from its expiry instant on |
| Auth.OAuth2ClientCredentials.TokenRequestSent | auth/oauth2.go:72-87 | the token request is a POST to the token URL, with the form content type, `Accept: application/json` and the client-credentials form |
| Auth.OAuth2ClientCredentials.FetchToken | auth/oauth2.go:71-117 | a request is sent unless it cannot be created; succeeds iff the answer is 200 with a decodable non-empty token, which is cached with its expiry and returned; otherwise reports the stage that failed and leaves the cache alone |
| Auth.OAuth2ClientCredentials.GetValidToken | auth/oauth2.go:52-69 | a cached token that is non-empty and not yet expired is returned with nothing sent; otherwise the result is the fetch's |
| Auth.OAuth2ClientCredentials.Apply | auth/oauth2.go:42-50 | succeeds iff a valid token is cached or the fetch is granted, and then sets `Authorization: Bearer <token>`; on failure it wraps the fetch error and leaves the request and the cache unchanged |
| Auth.CachedTokenScenario | auth/oauth2.go:42-69 | after a token is fetched with a one-hour lifetime, a second `Apply` one second later succeeds with the same `Bearer` header and no second token request, whatever the endpoint would answer |
| Auth.Choose | auth/auth.go:23-41 | no authenticator is chosen iff no username or password, no bearer token, not all three OAuth2 settings and not both custom settings are given |
| Auth.ChoosePrecedence | auth/auth.go:23-41 | basic is chosen iff a username or password is set; bearer iff not, and a token is set; OAuth2 iff neither, and all three client settings are set; custom iff none of these, and both custom settings are set |
| Auth.BasicWinsRegardless | auth/auth.go:24-26 | with a username or password, the other settings make no difference |
| Auth.PartialOAuth2FallsThrough | auth/auth.go:32-40 | OAuth2 settings without a token URL fall through to the custom header, or to none |
| Auth.NewAuthenticator | auth/auth.go:23-41 | never fails; builds the chosen kind from its own settings (a fresh OAuth2 authenticator with no token), or none when nothing is chosen |
| Cli.FlagList.constructor | main.go:64-66 | a flag list starts empty |
| Cli.FlagList.String | main.go:31-33 | the values joined by `, `: empty for no values, the value itself for one, and otherwise starting with the first value followed by `, ` |
| Cli.FlagList.Set | main.go:35-38 | `Set` never fails and appends the value after the earlier ones, which are kept |
| Cli.MapSeq | main.go:242 | one element per entry, in entry order |
| Cli.ParseHeader | main.go:243-246 | an entry gives a key and value iff it contains `:` |
| Cli.HeaderKey | main.go:243-245 | an entry has a key iff it contains `:` |
| Cli.SetPairsMapStep | main.go:242-248 | setting the pairs of one more element is setting one more pair |
| Cli.HeaderEntriesStep | main.go:242-248 | each further entry sets its own key and value on the headers so far, or is skipped |
| Cli.AddHeaders | main.go:241-250 | the headers end as the entries applied in order to the request's headers |
| Cli.HeaderWithoutColonSkipped | main.go:243-244 | an entry without `:` changes nothing |
| Cli.HeaderSplitsAtFirstColon | main.go:243-246 | an entry splits at its first `:`: the key is the trimmed text before it, the value the trimmed rest, further colons included |
| Cli.HeaderEntryTrimmed | main.go:245-247 | white space around the key and around the value does not reach the header |
| Cli.LastPairWins | main.go:242-248 | after setting key/value pairs in order, a key holds the value of the last pair that names it |
| Cli.UnnamedPairKept | main.go:242-248 | a key that no pair names keeps its presence and value |
| Cli.LastHeaderWins | main.go:242-248 | a header's value is the one from the last entry that names it |
| Cli.UnnamedHeaderKept | main.go:241-250 | a header no entry names keeps its presence and value |
| Cli.AddQueryParams | main.go:252-261 | the query ends as the entries applied in order to the URL's query |
| Cli.AddPairsMapStep | main.go:254-259 | adding the pairs of one more element is adding one more pair |
| Cli.QueryEntriesStep | main.go:254-259 | each further entry adds its value under its key to the query so far, or is skipped |
| Cli.PairValuesForAppend | main.go:254-259 | the values a list of pairs gives a key are those of its prefix followed by those of its last pair |
| Cli.AddPairGet | main.go:257 | one added pair puts its value after the key's earlier values, and the key is present afterwards iff it was before or the pair names it |
| Cli.PairsAccumulate | main.go:254-259 | after adding pairs in order, each key holds its old values followed by the values of the pairs naming it, in order |
| Cli.QueryAccumulates | main.go:252-261 | each key ends with its old values followed by the values of the entries naming it, in entry order, and is present iff it has any |
| Cli.FormPartOf | main.go:200-209 | an entry gives a field iff it contains `=`; the field's name has no `=`; a file field's entry is `name=@path`, a text field's entry is `name=value` with a value not starting with `@` |
| Cli.BuildFormData | main.go:195-239 | succeeds iff every entry contains `=`, with one field per entry in order; otherwise fails on the first entry without `=`, naming it |
| Cli.BodySourceOf | main.go:160-193 | `""` gives no body, `-` standard input, `@path` that file, and anything else the text itself |
| Cli.EffectiveMethod | main.go:121 | an empty method is read as `GET`; any other is kept |
| Cli.MakeRequest | main.go:100-131 | succeeds iff every form entry has `=` and the method (empty read as `GET`) is a token; a form error is reported before a request-creation error; form entries take precedence over data, and a form body holds one field per entry, in order; a form sets the multipart content type before the `-H` entries, which may replace it; without a form, the headers come from the entries alone; the query entries are added to the URL's query |
| Cli.ContentTypeOnlyFromForm | main.go:126-130 | without form entries, `Content-Type` is present only if an `-H` entry names it |

## Left out

- Locks (`sync.RWMutex` in the rate limiter and the OAuth2 authenticator) and concurrency. Calls are modelled one at a time. `getValidToken`'s double-checked locking therefore reduces to one check.
- RateLimit.Bucket: the passage of time is not modelled. Tokens are whole numbers observed with no time elapsed, so refilling at the limit's rate is not captured. The floating-point limit is kept as the exact ratio `PerSecond`, not as `float64`.
- RateLimit.Reconfigure: caps the tokens at the new burst at once. The library caps them when it next advances the bucket, which every later `Allow`, `Wait` and `Tokens` does first.
- RateLimit.RateLimiter.Wait: does not model blocking or deadlines. Whether the context ends before a token is available to the caller (already ended on entry, or ending while it waits) is the input `cancelled`.
- GoTime.ParseDuration: covers the grammar the specifications use: an optional sign, then one or more `digits unit` segments, and `0`. It refuses fractional numbers such as `1.5s`, which Go accepts. Overflow inside one segment is checked only on the total.
- GoConv.Atoi: accepts an optional sign and decimal digits within the int64 range. This matches `strconv.Atoi` on 64-bit platforms.
- Http.Header: header names are not canonicalised (`textproto.CanonicalMIMEHeaderKey`). The model keeps one value per name, as `Header.Set` leaves it.
- Auth.OAuth2ClientCredentials.FetchToken: the cached expiry is the exact `TokenExpiry`, not the wrapped 64-bit product that auth/oauth2.go:111 computes (`ExpiryAsWritten`; see Findings). The two agree for every lifetime up to 9 223 372 036 s (`ExpiryAsWrittenAgrees`).
- Auth.OAuth2ClientCredentials.FetchToken: JSON decoding and the HTTP exchange are outside the model; their outcome is the input `Exchange`. `url.Values.Encode` and percent-encoding of the form are not modelled; the form is a map. The fixed 30-second client timeout is part of the transport and not modelled.
- Cli.AddQueryParams: re-encoding the query into `RawQuery` (sorted, percent-encoded) is not modelled.
- Cli.BuildFormData: the multipart bytes, `filepath.Base` of file names, and file reading and copying errors are not modelled. Each field is recorded as a `FormPart`.
- Cli.BodySourceOf: reading standard input (lines joined by newlines) or a file is I/O and not modelled. Only the choice of source is.
- Cli.MakeRequest: request creation is modelled only for the method; URL parsing and its errors (in `url.Parse` and again in `http.NewRequest`), the request timeout, sending the request, and printing the response are I/O and not modelled. The parsed URL's query is the input `urlQuery`.
- Flag registration and parsing in `main` and the usage message are not modelled. Only the flag lists' `Set` and `String` are.
- `response/formatter.go` is not part of this model.
- Go strings are modelled as sequences of Unicode scalar values. Strings holding invalid UTF-8 are not represented.

## Findings

| source | as written | input that shows it | evidently intended | confidence | as-written member | corrected member |
|---|---|---|---|---|---|---|
| auth/oauth2.go:110-111 | `time.Duration(ExpiresIn-60) * time.Second` is a 64-bit product that wraps around for lifetimes above about 9.2 × 10^9 s | `expires_in` = 10000000000: the product wraps to −8 446 744 133.7 s, so the new token's expiry lies in the past and every request fetches a new token | the token is valid for its declared lifetime less 60 s | not executed | Auth.ExpiryAsWrittenOverflows | Auth.ExpiryWithinLifetime |
