# Response layer of wandrs/http, modelled in Dafny

This project models the decision logic of a Go HTTP response layer:

- **the status translator** (`status.go`): `ErrorToAPIStatus` turns any handler error into a Kubernetes-style `Status` record, and `APIError` writes that record to the response, with a `Retry-After` header when its details ask for a delay;
- **the route-parameter accessors** (`urlparam.go`): `Params`, `ParamsInt`, `ParamsInt64` and `SetParams` over the chi router's parameter list;
- **the response wrapper in its two versions**: `response.go` (logging, write-state queries, `APIError`) and `http.go` (500 fallback on render failure, string-only `Error`). The two files declare the same Go names with different shapes, so each is a Dafny module of its own, `Response` and `Http`, with a class `Response` in each.

Modules, leaves first:

| module | file | models |
|---|---|---|
| `Wrappers` | wrappers.dfy | `Option` |
| `Encoding` | encoding.dfy | bytes, UTF-8 encoding of text written to a body |
| `Strconv` | strconv.dfy | `strconv.ParseUint`, `ParseInt` (base 10) and `Itoa` as Go writes them |
| `Url` | url.dfy | `url.PathEscape` / `url.PathUnescape` (percent-encoding, section 2.1 of RFC 3986) |
| `Chi` | chi.dfy | chi's route context: a list of (key, value) pairs, appended by `Add`, searched from the end by `URLParam` |
| `NetHttp` | nethttp.dfy | the raw sink (`Writer`: headers, status with 0 for unsent, body bytes, and whether it tracks writes), `http.StatusText`, `http.Error`, the request, the render engine |
| `ApiStatus` | apistatus.dfy | status.go: the translator and the sink effect of `APIError` |
| `UrlParam` | urlparam.dfy | urlparam.go as functions of the parameter list |
| `Response` | response.dfy | response.go, plus `APIError` |
| `Http` | http.dfy | http.go, plus the urlparam.go methods |

Where each method goes: `APIError` is a method of the `response.go` class, because that file's `ResponseWriter` interface declares it. The urlparam.go methods belong to the `http.go` class, because they use `w.req` as a `*http.Request`, and so does that class.

Representation choices:

- Route keys and values are byte strings (`seq<byte>`), as Go strings are. Percent-decoding can produce any byte.
- Status fields, headers and log texts are Dafny strings. Text written to a body goes through UTF-8.
- The sink's state is the `SinkState` value: the headers, the headers as they stood when the status line went out (`sent`, what the client receives), the status, and the body. A write under a status that allows no body (1xx, 204, 304) is refused, as net/http refuses it, and counts no bytes. Each operation is a pure function of it: `WriteHeaderEffect`, `WriteEffect`, `RespondEffect`, `PlainErrorEffect`, `EngineEffect`. The class methods are proved to move `Writer.Snapshot()` by those functions.
- The render engine is represented by its result for the call at hand, `Encoded(bytes)` or `EncodeError(reason)`. That result is a parameter of each render method; for `APIError` it is the function `json` applied to the translated status. On success the engine writes its status and bytes. On failure the engine writes nothing, and the `*render.Render` the caller built then answers with `http.Error(w, err.Error(), 500)` unless its `DisableHTTPErrorRendering` option is set. The model keeps that option as `Renderer.rendersErrors`, true with the library's defaults.
- Logging is kept in ghost sequences on the `response.go` object: `logged` for logr errors and for the request log entry's `Panic` records, and `reports` for what is passed to `runtime.HandleError`.
- Go panics become `requires`:
  - `Written`, `Status` and `BytesWritten` need a tracking sink;
  - `response.go`'s `Error` needs `contents[0]` to be a string when two or more contents are given;
  - net/http's `WriteHeader` needs a code in 100..999.

Behaviour of the code as written that a reader may not expect:

- `response.go`'s `Error` with no contents does **not** write `StatusText(status)`. The initial assignment is always overwritten, and the `%s` formatting of nil gives `%!s(<nil>)` (`Response.NoContentsIgnoresStatusText`).
- `ParamsInt`/`ParamsInt64` do not return 0 for every bad value. `strconv.ParseInt` reports overflow together with the nearest int64 bound, and the accessors keep that value: `"99999999999999999999"` reads as `9223372036854775807`. The digit loop stops at the first overflowing digit, so a long run of digits followed by junk also clamps. Text of at most 19 bytes that is not a decimal integer reads as 0 (`UrlParam.ParamsIntClamps`, `UrlParam.ParamsIntRejects`).
- A render failure in `response.go` adds no response of its own. It only records a `Panic` on the request log entry, if there is one (chi's log entry records a panic; it does not raise one). Whatever the client sees comes from the Render: a plain-text 500 with the error text when it renders errors, nothing otherwise.
- A render failure in `http.go` with a Render that renders errors writes two plain-text bodies under one 500: the Render's error text, then `Render failed, reason: ` and the error (`Http.FailureFallsBack`).
- `metav1.StatusReasonUnknown` is the empty reason, so an opaque error's translated reason is `""`.

## Model

| member | source | states |
|---|---|---|
| ApiStatus.ErrorToAPIStatus | status.go:35-91 | kind/version are always "Status"/"v1" and the code is never 0. A status-bearing error keeps its reason, message, details and any nonzero code. The status string is Success/Failure unless a status-bearing error brought another one. At most one report is made, and it is made exactly for an opaque error or an unknown status string. |
| ApiStatus.NilIsSuccess | status.go:37-46 | a nil error gives Success, code 200, no reason, message or details, and no report |
| ApiStatus.StructuredIsNormalised | status.go:48-72 | a status-bearing error's record equals the reported one except for four fields: kind/version are stamped, an empty status becomes Failure, and code 0 becomes 200 for Success or 500 otherwise. An unknown status string is reported once and kept. |
| ApiStatus.OpaqueIsFailure | status.go:73-89 | an opaque error of any kind gives Failure, code 500, the unknown reason and its text as message, with exactly one report |
| ApiStatus.ErrorToAPIStatusAsWritten | status.go:37 | the nil test as written: where it returns, the translation is ErrorToAPIStatus's |
| ApiStatus.AsWrittenPanicsExactly | status.go:37 | the nil test as written panics exactly for an opaque error whose kind cannot be nil |
| ApiStatus.DeadlineExceededPanics | status.go:37 | context.DeadlineExceeded makes the code as written panic; the intended translation is Failure with code 500 |
| ApiStatus.RetryAfter | status.go:99-102 | a Retry-After value exists if and only if details are present and RetryAfterSeconds > 0 |
| ApiStatus.RetryAfterReadsBack | status.go:99-101 | the header value is the decimal text of the delay: strconv.ParseInt reads it back as exactly RetryAfterSeconds |
| ApiStatus.WithRetryAfter | status.go:99-102 | sets Retry-After to the delay exactly when one is asked for; status, body and sent headers are untouched |
| ApiStatus.ApiErrorEffect | status.go:99-110 | APIError's effect on the sink keeps it consistent (no bytes and no headers out before a status, and a valid status) |
| ApiStatus.ApiErrorHeaders | status.go:99-102 | APIError changes only the Retry-After header, and only when a delay is given; otherwise the headers are unchanged |
| ApiStatus.RetryAfterSentWithStatus | status.go:99-110 | the header is set before anything is written: when APIError sends the first status line, the headers sent with it include Retry-After |
| ApiStatus.NoContentHasNoBody | status.go:104-107 | with code 204 only the status line is written; the body is unchanged |
| ApiStatus.OtherCodesRenderJson | status.go:109-110 | any other code writes the engine's JSON bytes under that code (where the status allows a body). A failed encoding writes nothing, or the Render's plain-text 500 when it renders errors. |
| Response.Response.APIError | status.go:95-111 | returns the translated code. Adds the translation's reports to the report log. Moves the sink by the APIError effect: Retry-After first, so it goes out with the status line (`ApiStatus.RetryAfterSentWithStatus`), then a 204 line or the JSON. Logs a render failure only when JSON was attempted. |
| Response.ChooseLogger | response.go:61-67 | the first supplied logger, else the default klog logger named "wandrs" |
| Response.Response.constructor | response.go:60-74 | NewResponseWriter stores writer, request (wrapped) and renderer unchanged, picks the logger, and starts with empty logs |
| Response.Response.R | response.go:76-78 | returns the stored request wrapper |
| Response.TitleAndMessage | response.go:143-157 | fewer than two contents never give a title |
| Response.LaterContentsIgnored | response.go:146-148 | with two or more contents, title = contents[0] and message from contents[1]; later contents change nothing |
| Response.MessageSource | response.go:149-157 | one content gives no title and its message; an error value contributes its Error() text |
| Response.NoContentsIgnoresStatusText | response.go:141-157 | with no contents the message is "%!s(<nil>)", which is never StatusText(status) |
| Response.FailureLog | response.go:85-89 | a Panic record is added if and only if the render failed and a request log entry exists; it carries the error text |
| Response.FailureWritesNothing | response.go:85-89 | the wrapper adds no write after a failed render: with a Render that does not render errors, the sink is left exactly as it was |
| Response.FailureRendersError | response.go:85-89 | with a Render that renders errors, a failed render leaves one plain-text 500 (unless a status was sent) carrying the error text |
| Response.Describe | response.go:153-157 | a string is written as it is, an error value as its Error() text, nil as "%!s(<nil>)", any other value as its "%s" form |
| Response.Response.Emit | response.go:84-138 | the shared render shape: the sink moves by the engine's effect, the log grows by the failure log, and reports are unchanged |
| Response.Response.Render | response.go:84-90 | as Emit, for Render |
| Response.Response.Data | response.go:92-98 | as Emit, for Data |
| Response.Response.HTML | response.go:100-106 | as Emit, for HTML |
| Response.Response.JSON | response.go:108-114 | as Emit, for JSON |
| Response.Response.JSONP | response.go:116-122 | as Emit, for JSONP |
| Response.Response.Text | response.go:124-130 | as Emit, for Text |
| Response.Response.XML | response.go:132-138 | as Emit, for XML |
| Response.Response.Error | response.go:140-165 | logs (logger, message, title) exactly when the title is non-empty, then writes the message as one plain-text response (the caller's status unless a status was already sent); the report log is unchanged |
| Response.Response.Written | response.go:168-173 | requires a tracking sink; true exactly when a status > 0 has been sent |
| Response.Response.Status | response.go:177-182 | requires a tracking sink; the status sent (0 if none), positive exactly when Written |
| Response.Response.BytesWritten | response.go:185-190 | requires a tracking sink; the body length, and on a consistent sink a positive count implies Written |
| UrlParam.TrimColon | urlparam.go:18 | removes exactly one leading ':' and leaves any other name as it is |
| UrlParam.Params | urlparam.go:17-20 | the result is no longer than the stored value, and is "" when the stored value does not decode |
| UrlParam.OneColonStripped | urlparam.go:18 | ":q" looks up q, so "id" and ":id" read the same parameter and "::id" reads ":id" |
| UrlParam.PlainValueVerbatim | urlparam.go:18 | a stored value without '%' is returned unchanged |
| UrlParam.ParamsInt | urlparam.go:23-26 | always within the int64 range (64-bit int) |
| UrlParam.ParamsInt64 | urlparam.go:29-32 | always within the int64 range |
| UrlParam.ParamsIntExact | urlparam.go:23-32 | a decimal string in the int64 range is read exactly by both accessors |
| UrlParam.ParamsIntRejects | urlparam.go:23-32 | text of at most 19 bytes that is not a decimal integer ("abc", "", absent) reads as 0 |
| UrlParam.ParamsIntClamps | urlparam.go:23-32 | a decimal string beyond int64 reads as the nearest bound, the same for both accessors |
| UrlParam.ParamsAfterSet | urlparam.go:41-44 | after the pair SetParams appends, Params(k) is v; a name that trims to another key reads what it read before |
| Http.Response.SetParams | urlparam.go:41-44 | appends exactly (TrimColon(k), PathEscape(v)) with the existing pairs unchanged, and Params(k) then returns v |
| Http.Response.Params | urlparam.go:17-20 | reads the request's current route parameters, never longer than the stored value (UrlParam.Params carries the properties) |
| Http.Response.ParamsInt | urlparam.go:23-26 | reads the request's current route parameters, within the int64 range (UrlParam.ParamsInt carries the properties) |
| Http.Response.ParamsInt64 | urlparam.go:29-32 | reads the request's current route parameters, within the int64 range (UrlParam.ParamsInt64 carries the properties) |
| Url.UnescapeEscape | urlparam.go:18 | decoding undoes encoding for any set of kept bytes that excludes '%' |
| Url.PathRoundTrip | urlparam.go:43 | PathUnescape(PathEscape(v)) == v |
| Url.UnescapePlain | urlparam.go:18 | text with no '%' decodes to itself |
| Url.EscapeSafe | urlparam.go:43 | text made only of kept bytes is escaped to itself |
| Url.UnescapeBadSuffix | urlparam.go:18 | a '%' without two hex digits after it makes the value undecodable, after any well-formed prefix |
| Url.PathEscape | urlparam.go:43 | at most three bytes per byte, and PathUnescape gives the input back |
| Url.Escape | urlparam.go:43 | the escaped text is between one and three times as long as the input |
| Url.PathUnescape | urlparam.go:18 | decoded text is never longer than its input |
| Chi.LookupLast | urlparam.go:18 | the value of the last pair with the key, or "" when no pair has it |
| Chi.LookupAfterAdd | urlparam.go:42-43 | an appended pair decides its own key's lookup and no other key's |
| Chi.RouteContext.Add | urlparam.go:43 | exactly one pair is appended at the end |
| Chi.RouteContext.URLParam | urlparam.go:18 | "" for a key never added; the last pair's value when the last pair has the key |
| Strconv.ParseIntExact | urlparam.go:30 | ParseInt reads a decimal string in the int64 range exactly, with no error |
| Strconv.ParseIntClamps | urlparam.go:30 | out-of-range decimal strings give the nearest bound with a range error |
| Strconv.ParseIntRejects | urlparam.go:24 | short non-decimal text gives 0 with a syntax error |
| Strconv.ParseInt | urlparam.go:24 | the value is always in the int64 range, and 0 on a syntax error |
| Strconv.ParseUintFrom | urlparam.go:24 | the digit loop's value is within 64 bits: 0 on a syntax error, MaxUint64 on overflow |
| Strconv.ParseUint | urlparam.go:24 | the unsigned value fits in 64 bits, and is 0 on a syntax error and MaxUint64 on overflow |
| Strconv.ParseUintExact | urlparam.go:30 | a digit run that fits in 64 bits parses exactly |
| Strconv.ParseUintOverflow | urlparam.go:30 | a digit run too large for 64 bits is a range error |
| Strconv.ParseUintSyntax | urlparam.go:24 | up to 19 bytes with a non-digit among them give a syntax error |
| Strconv.ItoaRoundTrip | status.go:100 | Itoa of an int64 is decimal text that ParseInt reads back exactly |
| Strconv.Itoa | status.go:100 | nonempty text that starts with '-' exactly for a negative number |
| Encoding.Utf8Concat | http.go:128 | the bytes of a concatenation are the concatenation of the bytes |
| NetHttp.StatusText | http.go:124 | a known reason phrase (starting with a capital) or "" |
| NetHttp.RespondEffect | http.go:82-84 | a status line and bytes: the first status sticks and goes out with the headers of that moment, the bytes are appended where the status allows a body, the headers are kept, and consistency is preserved |
| NetHttp.PlainErrorEffect | http.go:128 | http.Error: the status sticks if none was sent, the message bytes are appended where the status allows a body, the headers are kept |
| NetHttp.EngineEffect | http.go:82 | one engine call: on success its status and bytes; on failure nothing, or a plain-text 500 with the error text when the Render renders errors; consistency is preserved |
| NetHttp.NoBodyUnder204And304 | status.go:104-106 | under 204 and 304 a write is refused and changes nothing |
| NetHttp.EffectsKeepConsistent | response.go:164 | WriteHeader and Write keep "no bytes before a status" true |
| NetHttp.Writer.WriteHeader | status.go:105 | the first status written sticks |
| NetHttp.Writer.SetHeader | status.go:101 | only the named header changes |
| NetHttp.Writer.Error | http.go:128 | moves the sink by PlainErrorEffect |
| NetHttp.Writer.Write | response.go:164 | moves the sink by WriteEffect: 200 is sent first if no status was, and bytes are kept only where the status allows a body |
| NetHttp.Renderer.Emit | http.go:82 | on success writes status and bytes and returns no error; on failure moves the sink by EngineEffect (nothing, or the Render's plain-text 500) and returns the reason |
| Http.ErrorMessage | http.go:124-127 | with no contents the message is StatusText(status) |
| Http.FirstContentWins | http.go:125-127 | with contents, the message is contents[0] and the rest are ignored |
| Http.Response.Error | http.go:123-129 | writes the message (StatusText, or the first content) as one plain-text response, under the caller's status unless a status was already sent |
| Http.RenderOrFallback | http.go:81-121 | the effect of a render method keeps the sink consistent |
| Http.FailureFallsBack | http.go:82-84 | a failed render ends in status 500 unless one was already sent. The body gets "Render failed, reason: " plus the error, preceded by the bare error text when the Render renders errors, and nothing is added under a status that allows no body. |
| Http.RenderFailedMessage | http.go:83 | the message is the prefix "Render failed, reason: " followed by exactly the error text |
| Http.SuccessAddsNothing | http.go:81-121 | a successful render writes the engine's status and bytes (where the status allows a body) and nothing else |
| Http.Response.Emit | http.go:81-121 | the shared render shape: engine output, else the 500 fallback |
| Http.Response.Render | http.go:81-85 | as Emit, for Render |
| Http.Response.Data | http.go:87-91 | as Emit, for Data |
| Http.Response.HTML | http.go:93-97 | as Emit, for HTML |
| Http.Response.JSON | http.go:99-103 | as Emit, for JSON |
| Http.Response.JSONP | http.go:105-109 | as Emit, for JSONP |
| Http.Response.Text | http.go:111-115 | as Emit, for Text |
| Http.Response.XML | http.go:117-121 | as Emit, for XML |
| Http.Response.constructor | http.go:65-71 | NewResponseWriter stores writer, request and renderer unchanged |
| Http.Response.R | http.go:73-75 | returns exactly the stored request |

## Left out

- query.go: every accessor is one call into a forms library that is not part of this model, so its defaults and parsing cannot be stated from visible code.
- context.go: its four methods forward to the request context (deadline, done channel, error, values) and have no logic of their own; cancellation is not modelled.
- `ParamsFloat64`: floating-point parsing is not modelled.
- `TemplateLookup`, `HTMLString`, `Redirect`, `RedirectToFirst`, `ServeContent`, `ServeFile`: these are interface methods with no implementation in the modelled files.
- The encoders of the render engine (JSON, XML, HTML templates, JSONP, text, raw data): a render's outcome is a parameter. The headers an engine sets (Content-Type) are not modelled, and neither is a write that fails partway.
- The render methods' payload arguments (template name and binding, callback, value) only reach the engine, so they have no effect in the model beyond the engine's result.
- `http.Error`'s Content-Type and nosniff headers and its trailing newline: the model writes the status and the message bytes (where the status allows a body) only.
- net/http header-name canonicalisation: header names are compared as given.
- Response.Response.Error: its contract does not state the order of logging and writing (the body logs first), because the logs and the sink are kept apart.
- Response.Response.Error: the logged message is `fmt.Errorf(v)`, and the model records `v` as is. A message that contains '%' verbs would be reformatted by Go.
- klog flag-set initialisation and logr internals: a logger is a value, supplied or the default.
- The typed-nil check with `reflect`: a nil pointer held in the error interface is folded into the `Nil` error. `Structured` errors stand for pointer-kind errors such as `*StatusError`. An `Opaque` error records whether its kind can be nil. For one that cannot (a struct or integer value such as `context.DeadlineExceeded` or a `syscall.Errno`), Go panics in `reflect.Value.IsNil`. `ErrorToAPIStatusAsWritten` models that panic, and the rest of the model uses the total `ErrorToAPIStatus` (see Findings).
- The `Status` record keeps kind, version, status, message, reason, details and code. Its list metadata and the details' list of causes are not modelled.
- The nil route context (chi without a router) is not modelled: `Params` would read "" and `SetParams` would panic.
- `int` is taken as 64 bits (`strconv.IntSize` = 64); 32-bit platforms are not modelled. `ParseInt` is modelled for bit sizes 0 and 64, the only ones used.
- 1xx informational responses, and net/http's "superfluous WriteHeader" log line: any valid code commits the status, and a later one changes nothing.
- Concurrency: the wrapper is used by one goroutine at a time, so the model is sequential.

## Findings

| source | as written | input that shows it | evidently intended | confidence | as-written member | corrected member |
|---|---|---|---|---|---|---|
| status.go:37 | `reflect.ValueOf(err).IsNil()` is called on every non-nil error, and panics for an error whose dynamic kind cannot be nil | `ErrorToAPIStatus(context.DeadlineExceeded)`, the `ctx.Err()` of a timed-out request (a struct value) | only nil pointers (and other nillable kinds) count as nil, and every other error is translated, here as Failure with code 500 | high; not executed | ApiStatus.ErrorToAPIStatusAsWritten, ApiStatus.DeadlineExceededPanics | ApiStatus.ErrorToAPIStatus, ApiStatus.OpaqueIsFailure |
