# quick-voice-transcribe: a verified model of its small logic

quick-voice-transcribe is a voice-memo web app: a browser client records audio and sends it
to a Firebase/Express backend for transcription, then browses its history. Almost all of it is
vendor SDK calls and React UI. This project models in Dafny the three parts that hold logic of
their own, and proves what they promise:

- **Date and time strings** (`src/utils.js`, module `Utils`): `formatDay` gives `YYYY-MM-DD`
  (for years 1000 to 9999, the calendar-date form of RFC 3339 `full-date`, section 5.6; the
  year is not padded, so year 999 gives `999-01-01` and year -5 gives `-5-01-01`). `formatTimestamp` gives
  `DD/MM/YYYY HH:MM`. Both use the two-digit `padStart` rule. The model also covers
  `getTimezone` and the alert message chosen by `alertAndLogErr`. The `Date` getters become an
  input record `LocalTime(year, month0, day, hours, minutes)`.
- **The bearer-token gate** (`functions/index.js`, module `Server`): the `authenticate`
  middleware checks the `Bearer ` prefix. It extracts the token with `split('Bearer ')[1]`
  semantics and asks the identity service to verify it. Then it either sets `req.uid` and calls
  `next`, or answers 401 with one of two fixed bodies. The `/api/ping` route sits behind it.
- **The client API** (`src/api.js`, module `Api`): the `Authorization` header on every request,
  the error message a failed call throws, and `fetchAudio` with its page-wide `audioCache`.
  The cache is a grow-only memo from file name to object URL.

Supporting modules: `Values` (`undefined`, thrown errors, and the `||` fallback on strings),
`Strings` (`toString` on integers, `padStart`, `startsWith`, `indexOf` and `split` with a string
separator), `Http` (the `Bearer ` prefix shared by both sides) and `ClientServer` (the client's
header as the server reads it, and `ping` end to end).

Foreign calls are parameters. The identity service's `verifyIdToken` is a function from a
token to `Some(uid)`, or `None` when it throws. How a `fetch` ends is an input value, which
includes a promise the runtime rejects with an error of its own. The properties are proved for
every such value.

Notes on the code:
- The prefix check accepts only the exact, case-sensitive `Bearer ` with its trailing space.
- The extracted token stops at a second occurrence of `Bearer ` (`ExtractToken`).
- When `fetchAudio` calls do not overlap, entries of the audio cache are never removed or replaced.
- `fetch` strips trailing whitespace from a header value, so the header for an empty token
  arrives as `Bearer` and fails the prefix check (`ClientServer.ClientTokenReachesVerifier`).
- A year before year 0 prints with a leading '-'; split on '-', the day string then has an
  empty first piece (`Utils.FormatDayPieces`).

## Model

| member | source | states |
|---|---|---|
| `Values.Or` | src/api.js:11 | `v \|\| fallback`: the string when it is defined and non-empty, otherwise the fallback |
| `Strings.Digits` | src/utils.js:9 | `n.toString()` is a non-empty digit string; it has one digit exactly when n < 10; it starts with '0' only for 0 |
| `Strings.IntString` | src/utils.js:11 | `${year}` starts with '-' exactly for negative years; otherwise it is the plain numeral |
| `Strings.ParseInt` | src/utils.js:11 | reads an optional leading '-' and a numeral: the numeral's value, negated after a '-' |
| `Strings.DigitsRoundTrip` | src/utils.js:9 | a printed numeral reads back as the same number |
| `Strings.IntStringRoundTrip` | src/utils.js:11 | every integer, negative ones included, prints to text that reads back as the same integer |
| `Strings.DigitsLength` | src/utils.js:8 | numerals of 1, 2, 3 and 4 digits for the matching ranges; more than 4 digits from 10000 on |
| `Strings.PadStart` | src/utils.js:9 | `padStart` gives length max(len, target); the original string ends the result; only fill characters come before it |
| `Strings.LowerAscii` | functions/index.js:38 | the case-insensitive route match: same length, ASCII capitals lowered, every other character kept |
| `Strings.IndexOf` | functions/index.js:26 | the first index where the separator occurs, or -1 exactly when it occurs nowhere |
| `Strings.Split` | functions/index.js:26 | `split(sep)` with a non-empty separator always yields at least one piece |
| `Strings.SplitJoin` | functions/index.js:26 | joining the pieces of `split(sep)` with `sep` gives the original string |
| `Strings.SplitPiecesFree` | functions/index.js:26 | no piece of `split(sep)` contains `sep` |
| `Strings.SplitAfter` | functions/index.js:26 | when `sep` first occurs right after `a`, `split` yields `a`, then the split of the rest |
| `Strings.SplitLeadingChar` | src/utils.js:11 | a string that starts with the separator splits into an empty piece, then the split of the rest |
| `Strings.SplitThree` | src/utils.js:11 | three pieces free of a separator character, joined by it, split back into the same three pieces |
| `Http.BearerAuthorization` | src/api.js:5 | the header starts with `Bearer ` and the text after it is exactly the token |
| `Utils.Pad2` | src/utils.js:9-10 | the padded month and day contain only digits |
| `Utils.Pad2Digits` | src/utils.js:9-10 | `padStart(2, '0')` puts one '0' before a one-digit value and leaves a value ≥ 10 unchanged; the result has 2 characters exactly for values ≤ 99 |
| `Utils.Pad2RoundTrip` | src/utils.js:17-20 | a padded value ≤ 99 reads back as the value |
| `Utils.AlertMessage` | src/utils.js:3 | the alert shows `err.message` when it is non-empty, else `An error occurred`; never an empty text |
| `Utils.FormatDay` | src/utils.js:6-12 | the day string opens with the year's text and a '-' |
| `Utils.FormatTimestamp` | src/utils.js:14-22 | the timestamp opens with the two-digit day and a '/' |
| `Utils.GetTimezone` | src/utils.js:24 | the result is positive exactly for a negative `getTimezoneOffset()` and negative exactly for a positive one |
| `Utils.ParseDay` | src/utils.js:6-12 | the reader that inverts `formatDay`: it accepts three '-'-separated pieces, or four with an empty first piece for a negative year, and its month and day are the last two pieces read as numerals |
| `Utils.ParseTimestamp` | src/utils.js:14-22 | the reader that inverts `formatTimestamp`: it accepts a date and a time part separated by a space, reads the year from the third '/'-piece and the 1-based month from the second |
| `Utils.FormatDayPieces` | src/utils.js:8-11 | split on '-', the day string gives year, `pad2(month0 + 1)` and `pad2(day)`, in that order: the month is 1-based; a negative year gives an empty piece, then its digits, month and day |
| `Utils.FormatDayShape` | src/utils.js:6-12 | the day string is the year's text, '-', two month digits, '-', two day digits: six characters longer than the year's text |
| `Utils.FormatDayLength` | src/utils.js:6-12 | among years ≥ 0, the day string has 10 characters exactly for 4-digit years and fewer for earlier ones, since the year is not padded; years -999 to -100 also give 10 characters |
| `Utils.FormatDayRoundTrip` | src/utils.js:6-12 | reading the day string back gives (year, month0 + 1, day), for every year |
| `Utils.FormatTimestampPieces` | src/utils.js:14-22 | the timestamp is `pad2(day)/pad2(month)/year`, a space, then `pad2(hours):pad2(minutes)`, for every year |
| `Utils.FormatTimestampRoundTrip` | src/utils.js:14-22 | reading the timestamp back gives exactly the local time it was made from, for every year |
| `Utils.TimestampReversesDay` | src/utils.js:6-22 | the timestamp's date part has the day string's fields in reverse order; for a negative year, the day string's empty piece and digits make up the timestamp's signed year |
| `Utils.GetTimezoneIsLocalMinusUtc` | src/utils.js:24 | the negated `getTimezoneOffset()` is local time minus UTC, so it is positive east of UTC |
| `Server.HasBearerPrefix` | functions/index.js:23 | a header that passes the prefix test is present and at least as long as `Bearer `; the bare prefix passes |
| `Server.ExtractToken` | functions/index.js:26 | the token is the text after the leading `Bearer `, up to the next `Bearer ` or the end of the header |
| `Server.ExtractTokenRoundTrip` | functions/index.js:26 | a token free of `Bearer ` comes back whole from the header `Bearer <token>` |
| `Server.Decide` | functions/index.js:21-35 | missing header or wrong prefix gives NoToken; otherwise the extracted token goes to the verifier; its rejection gives InvalidToken and its uid gives Verified |
| `Server.MissingPrefixRejected` | functions/index.js:22-25 | a missing header, or one without the exact `Bearer ` prefix, is rejected before the verifier |
| `Server.Request.constructor` | functions/index.js:19-22 | a request carries its method, path, `Authorization` header and the body parser's failure status, if any, with no `uid` yet |
| `Server.Response.constructor` | functions/index.js:24 | a response starts with status 200 and nothing written |
| `Server.Authenticate` | functions/index.js:21-35 | no token: 401 with the no-token body; the verifier is not called and neither is `next`. Rejected token: 401 with the invalid-token body, `uid` unset, no `next`. Verified: `req.uid` is the decoded uid, `next` runs exactly once, nothing is written |
| `Server.IsPingPath` | functions/index.js:38 | only a path of 9 or 10 characters can match the route path `/api/ping` |
| `Server.IsPingPathMeaning` | functions/index.js:38 | a path matches exactly when it has 9 characters, or 10 ending in '/', and its first nine agree with `/api/ping` up to the case of ASCII letters |
| `Server.IsPingRoute` | functions/index.js:38 | a request the GET route serves has the ping path and is never an OPTIONS request |
| `Server.PingRouteMatches` | functions/index.js:38 | GET and HEAD match, any letter case and one trailing '/' match; POST, OPTIONS, a longer path and a doubled '/' do not |
| `Server.Ping` | functions/index.js:38-40 | the ping route answers `pong` |
| `Server.Handle` | functions/index.js:18-42 | a body the JSON parser rejects gets its error status before `authenticate` runs; otherwise every route runs only after `authenticate` succeeds: a matching ping request gets 200 `pong`, an OPTIONS request on the ping path 200 with the allowed methods `GET,HEAD`, any other authenticated request 404; else the 401 bodies |
| `Api.PingRequest` | src/api.js:3-7 | GET `/api/ping` with no query, and the token recoverable from after `Bearer ` |
| `Api.SpeechToTextRequest` | src/api.js:20-26 | POST `/api/speech-to-text`, and the token recoverable from after `Bearer ` |
| `Api.GetHistoryRequest` | src/api.js:39-44 | GET `/api/history` with the day as given and a timezone numeral that reads back as the offset |
| `Api.AudioRequest` | src/api.js:64-69 | GET `/api/audio/` followed by exactly the file name, and the token recoverable from after `Bearer ` |
| `Api.RequestsCarryBearerToken` | src/api.js:3-69 | the ping, speech-to-text, history and audio requests all carry `Authorization: Bearer <token>` |
| `Api.Outcome` | src/api.js:8-15 | success returns the payload; failure throws the server's `error` when it is non-empty, else `Failed api <name>`, never an empty message; a rejected promise passes the runtime's error on |
| `Api.Ping` | src/api.js:1-16 | the call's request carries the bearer header; it succeeds exactly for an ok response and falls back to `Failed api ping` |
| `Api.SpeechToText` | src/api.js:18-35 | a POST with the bearer header; it succeeds exactly for an ok response and falls back to `Failed api speechToText` |
| `Api.GetHistory` | src/api.js:37-53 | the query starts with the day; it succeeds exactly for an ok response and falls back to `Failed api getHistory` |
| `Api.CallErrors` | src/api.js:8-53 | `ping`, `speechToText` and `getHistory` throw the server's message or fall back to `Failed api ping`, `Failed api speechToText` and `Failed api getHistory` |
| `Api.FetchAudioStep` | src/api.js:57-79 | a hit returns the cached URL with no request. A failed miss throws `Failed to fetch audio`, a rejected one the runtime's error, and both leave the cache alone. A successful miss stores the returned URL under the file name |
| `Api.FetchAudioGrows` | src/api.js:55-78 | a fetch never removes or changes an entry and adds only the requested file, only on success |
| `Api.FetchAudioIdempotent` | src/api.js:59-63 | after a successful fetch, fetching the same file again sends nothing and returns the same URL |
| `Api.CacheOnlyGrows` | src/api.js:55-78 | over any sequence of calls, every entry present at the start, and every URL a call returned, is still cached unchanged at the end |
| `Api.AudioClient.constructor` | src/api.js:55 | the audio cache starts empty |
| `Api.AudioClient.FetchAudio` | src/api.js:57-79 | the method's result, its request and the new cache are those of the cache step; the cache only grows |
| `ClientServer.IdTokenHasNoBearer` | functions/index.js:26 | a JWT-shaped ID token never contains `Bearer ` |
| `ClientServer.NormalizeHeaderValue` | src/api.js:4-6 | the header value sent is a slice of the value set with only HTTP whitespace cut from either end, and it neither starts nor ends with HTTP whitespace; a value without such whitespace at its ends is sent unchanged |
| `ClientServer.EmptyTokenHeader` | src/api.js:5 | the header for an empty token, `Bearer `, arrives as `Bearer` |
| `ClientServer.IdTokenHeaderUnchanged` | src/api.js:5 | the header for a non-empty ID token arrives unchanged |
| `ClientServer.ClientTokenReachesVerifier` | functions/index.js:22-30 | an empty token reaches the server as `Bearer` and is rejected as missing; any other ID token passes the prefix check and the verifier sees exactly it |
| `ClientServer.WireText` | functions/index.js:24-39 | a text body arrives as its text; a JSON error body as `{"error":"`, the message, then `"}`; no body or an error page as "" |
| `ClientServer.Deliver` | src/api.js:8-13 | `resp.ok` holds exactly for a 2xx status, whose body `ping` reads as text; otherwise a JSON error body supplies the `error` field, and any other body makes `resp.json()` reject |
| `ClientServer.ServedAnswer` | src/api.js:8-15 | the backend's pong, no-token and invalid-token answers become `pong`, `Unauthorized: No token provided` and `Unauthorized: Invalid token` in the client |
| `ClientServer.PingRoundTrip` | src/api.js:1-16 | `api.ping` against the backend returns `pong` for a token the identity service accepts, throws `Unauthorized: Invalid token` for one it rejects, and `Unauthorized: No token provided` for an empty token |

## Left out

- The speech-to-text upload, history query and audio download routes are not part of `functions/index.js`, so they are not part of this model.
- The React components, the recorder, the clipboard and the theme are UI, and are not part of this model.
- `functions/testing/getAuthToken.js` and `vite.config.js` are a script and build configuration, and are not part of this model.
- `new Date(timestamp)` and the local-time getters depend on the machine's time zone. The model takes their results as a `LocalTime` input. An invalid `Date` (whose getters give `NaN`) is not modelled.
- `Utils.GetTimezoneIsLocalMinusUtc`: `getTimezoneOffset()` is an input; the clock and time zone database behind it are not modelled.
- `verifyIdToken`, `fetch`, `resp.json()`, `resp.text()`, `resp.blob()` and `URL.createObjectURL` are foreign calls. They are modelled only by their results: a function from token to uid, and an input response value whose rejected case carries the runtime's error message as an input.
- `ClientServer.WireText`: JSON string escaping is not modelled; the backend's two messages need none. The HTML of Express's error pages is not modelled either.
- `Api.GetHistoryRequest` keeps the query parameters as decoded name/value pairs; `encodeURIComponent` is not modelled. The speech-to-text form data is not modelled.
- `Api.Outcome`: the `error` field is taken to be a string or absent; a non-string `error` (which the backend never sends) is not modelled.
- `Api.Outcome`: the parsed JSON that `speechToText` and `getHistory` return is modelled as an opaque payload string.
- `Server.Handle`: the JSON body parser is modelled only by the status it fails with; which bodies it rejects is not modelled. HEAD responses carry the body in the model; the HTTP layer drops it on the wire. The `Allow` header of the automatic OPTIONS answer is not modelled, and its body is Express 4's `GET,HEAD` (Express 5 writes `GET, HEAD`).
- `Server.Ping`: conditional request headers are not modelled. `res.send('pong')` sets a weak `ETag`, and a GET or HEAD whose `If-None-Match` lists it (or is `*`) gets 304 with no body instead of 200 `pong`; the browser then serves its cached `pong`, so `ClientServer.PingRoundTrip`'s result is the same.
- `Server.Handle`: the model's request carries no `If-None-Match` (or other conditional) header, so the 304 answer to a matching conditional GET or HEAD on the ping route is not modelled; the contract's 200 `pong` holds for unconditional requests.
- `Strings.Digits`, `Strings.IntString`: numbers are taken to be below 10^21, where JavaScript prints the plain numeral; from 10^21 on `toString` uses exponent form (`1e+21`). Date fields and minute offsets stay far below that bound.
- `Server.IsPingRoute`: only ASCII letters are compared without regard to case; the regular-expression case folding of other characters is not modelled.
- Logging (`console`, `logger`), `onRequest`'s hosting and the region setting do not change the status or body of any modelled response, and are left out.
- Concurrent `fetchAudio` calls are not modelled; calls are sequential. Two overlapping calls for the same file both miss, and the later one replaces the URL the earlier one stored.
