/**
 * The status translator: every error a handler returns becomes a
 * Kubernetes-style Status record (kind "Status", version "v1"), whether the
 * error is nil, reports its own Status, or is an opaque Go error. Reports to
 * runtime.HandleError are returned beside the record. The module also gives
 * the sink effect of APIError, which writes that record.
 */
module ApiStatus {
  import opened Wrappers
  import opened Encoding
  import opened NetHttp
  import Strconv

  newtype int32 = x: int | -0x8000_0000 <= x < 0x8000_0000

  const StatusSuccess := "Success"
  const StatusFailure := "Failure"
  /** metav1.StatusReasonUnknown, which apimachinery defines as the empty reason. */
  const StatusReasonUnknown := ""
  const RetryAfterHeader := "Retry-After"

  datatype Details = Details(name: string, group: string, kind: string, uid: string, retryAfterSeconds: int32)

  datatype Status = Status(
    kind: string,
    apiVersion: string,
    status: string,
    message: string,
    reason: string,
    details: Option<Details>,
    code: int32)

  /**
   * A handler's error: nil (also a nil pointer held in the error interface),
   * one that reports its own Status (such as *StatusError, a pointer), or any
   * other error with its text. `nillable` says whether the dynamic kind of an
   * opaque error is one reflect's IsNil accepts (pointer, map, slice, chan,
   * func, interface); a struct or integer error value such as
   * context.DeadlineExceeded or a syscall.Errno is not.
   */
  datatype Err = Nil | Structured(reported: Status) | Opaque(text: string, nillable: bool)

  /** What runtime.HandleError is told about. */
  datatype Report = WrongStatusField(err: Err) | NotAStatus(err: Err)

  /** The Status record built for an error, and the reports made while building it. */
  datatype Translation = Translation(status: Status, reports: seq<Report>)

  predicate KnownStatus(s: string) { s == StatusSuccess || s == StatusFailure }

  /** ErrorToAPIStatus. */
  function ErrorToAPIStatus(err: Err): (t: Translation)
    ensures t.status.kind == "Status" && t.status.apiVersion == "v1"
    ensures t.status.code != 0
    ensures err.Structured? ==>
              && t.status.reason == err.reported.reason
              && t.status.message == err.reported.message
              && t.status.details == err.reported.details
              && (err.reported.code != 0 ==> t.status.code == err.reported.code)
    ensures KnownStatus(t.status.status) || (err.Structured? && t.status.status == err.reported.status)
    ensures t.reports == [] || t.reports == [WrongStatusField(err)] || t.reports == [NotAStatus(err)]
    ensures t.reports != [] <==> err.Opaque? || (err.Structured? && !KnownStatus(t.status.status))
  {
    match err
    case Nil =>
      Translation(Status("Status", "v1", StatusSuccess, "", "", None, 200), [])
    case Structured(reported) =>
      var st := if |reported.status| == 0 then reported.(status := StatusFailure) else reported;
      var code: int32 :=
        if st.code != 0 then st.code
        else if st.status == StatusSuccess then 200
        else 500;
      var reports := if KnownStatus(st.status) then [] else [WrongStatusField(err)];
      Translation(st.(code := code, kind := "Status", apiVersion := "v1"), reports)
    case Opaque(text, _) =>
      Translation(Status("Status", "v1", StatusFailure, text, StatusReasonUnknown, None, 500), [NotAStatus(err)])
  }

  /** A nil error is a bare success: code 200, no reason, message or details, nothing reported. */
  lemma NilIsSuccess()
    ensures ErrorToAPIStatus(Nil) ==
            Translation(Status("Status", "v1", StatusSuccess, "", "", None, 200), [])
  {
  }

  /**
   * A status-bearing error keeps everything but four fields: the kind and
   * version are stamped, an empty status string becomes Failure, and a zero
   * code becomes 200 for Success and 500 otherwise; only a status string
   * other than Success and Failure is reported, once.
   */
  lemma StructuredIsNormalised(reported: Status)
    ensures var t := ErrorToAPIStatus(Structured(reported));
            var status := if reported.status == "" then StatusFailure else reported.status;
            && t.status == reported.(
                 kind := "Status", apiVersion := "v1", status := status,
                 code := if reported.code != 0 then reported.code
                         else if status == StatusSuccess then 200 else 500)
            && t.reports == if KnownStatus(status) then [] else [WrongStatusField(Structured(reported))]
  {
  }

  /** An opaque error of any kind becomes a Failure with code 500, the unknown reason and its text as message, reported once. */
  lemma OpaqueIsFailure(text: string, nillable: bool)
    ensures ErrorToAPIStatus(Opaque(text, nillable)) ==
            Translation(Status("Status", "v1", StatusFailure, text, StatusReasonUnknown, None, 500),
                        [NotAStatus(Opaque(text, nillable))])
  {
  }

  /** Whether reflect.ValueOf(err).IsNil() returns rather than panics. */
  predicate IsNilAccepts(err: Err) {
    match err
    case Nil => true
    case Structured(_) => true
    case Opaque(_, nillable) => nillable
  }

  /**
   * ErrorToAPIStatus as status.go:37 writes the nil test: `err == nil`
   * short-circuits, and otherwise IsNil is called on the error's dynamic
   * value, which panics (None here) for a kind that cannot be nil. Where it
   * returns, the translation is the one ErrorToAPIStatus gives.
   */
  function ErrorToAPIStatusAsWritten(err: Err): (t: Option<Translation>)
    ensures t.Some? ==> t.value == ErrorToAPIStatus(err)
  {
    if err.Nil? then Some(ErrorToAPIStatus(err))
    else if !IsNilAccepts(err) then None
    else Some(ErrorToAPIStatus(err))
  }

  /** The nil test as written panics exactly for opaque errors of a kind that cannot be nil. */
  lemma AsWrittenPanicsExactly(err: Err)
    ensures ErrorToAPIStatusAsWritten(err).None? <==> err.Opaque? && !err.nillable
  {
  }

  /**
   * ctx.Err() on a timed-out request is context.DeadlineExceeded, a struct
   * value: the code as written panics on it, while the translation the rest
   * of the model uses answers Failure with code 500.
   */
  lemma DeadlineExceededPanics()
    ensures ErrorToAPIStatusAsWritten(Opaque("context deadline exceeded", false)) == None
    ensures ErrorToAPIStatus(Opaque("context deadline exceeded", false)).status.code == 500
  {
  }

  /** The Retry-After value APIError sets: the seconds in decimal, when details give a positive number. */
  function RetryAfter(st: Status): (d: Option<string>)
    ensures d.Some? <==> st.details.Some? && st.details.value.retryAfterSeconds > 0
  {
    if st.details.Some? && st.details.value.retryAfterSeconds > 0
    then Some(Strconv.Itoa(st.details.value.retryAfterSeconds as int))
    else None
  }

  /** The header value reads back, with strconv.ParseInt, as exactly the retry delay. */
  lemma RetryAfterReadsBack(st: Status)
    requires RetryAfter(st).Some?
    ensures Strconv.ParseInt(Utf8(RetryAfter(st).value), 64) ==
            Strconv.NumResult(st.details.value.retryAfterSeconds as int, Strconv.NoError)
  {
    Strconv.ItoaRoundTrip(st.details.value.retryAfterSeconds as int);
  }

  /** The headers once APIError has looked at the delay: Retry-After set when the details ask for one. */
  function WithRetryAfter(s: SinkState, st: Status): (r: SinkState)
    ensures r.sent == s.sent && r.status == s.status && r.body == s.body
    ensures r.headers == if RetryAfter(st).Some? then s.headers[RetryAfterHeader := RetryAfter(st).value] else s.headers
  {
    match RetryAfter(st)
    case Some(delay) => s.(headers := s.headers[RetryAfterHeader := delay])
    case None => s
  }

  /**
   * The sink effect of APIError once the status is translated: Retry-After
   * set first if need be, then a bare 204 status line, or the engine's JSON
   * encoding `out` of the status under its code.
   */
  function ApiErrorEffect(s: SinkState, st: Status, out: RenderResult, rendersErrors: bool): (r: SinkState)
    ensures Consistent(s) && (out.Encoded? ==> ValidCode(st.code as int)) ==> Consistent(r)
  {
    var withDelay := WithRetryAfter(s, st);
    if st.code as int == StatusNoContent then WriteHeaderEffect(withDelay, StatusNoContent)
    else EngineEffect(withDelay, st.code as int, out, rendersErrors)
  }

  /** Retry-After is the only header APIError touches, and it is set exactly when the details ask for a delay. */
  lemma ApiErrorHeaders(s: SinkState, st: Status, out: RenderResult, rendersErrors: bool)
    ensures ApiErrorEffect(s, st, out, rendersErrors).headers ==
            if RetryAfter(st).Some? then s.headers[RetryAfterHeader := RetryAfter(st).value] else s.headers
  {
  }

  /**
   * The header is set before anything is written: whenever APIError is the
   * first to send a status line, Retry-After goes out with it.
   */
  lemma RetryAfterSentWithStatus(s: SinkState, st: Status, out: RenderResult, rendersErrors: bool)
    requires s.status == 0
    ensures var r := ApiErrorEffect(s, st, out, rendersErrors);
            r.status != 0 ==> r.sent == WithRetryAfter(s, st).headers
  {
  }

  /** Code 204 sends only the status line: the body stays as it was. */
  lemma NoContentHasNoBody(s: SinkState, st: Status, out: RenderResult, rendersErrors: bool)
    requires st.code as int == StatusNoContent
    ensures ApiErrorEffect(s, st, out, rendersErrors).body == s.body
    ensures ApiErrorEffect(s, st, out, rendersErrors).status == if s.status == 0 then StatusNoContent else s.status
  {
  }

  /**
   * Any other code sends the JSON body under that code (where the status
   * allows a body); a failed encoding sends nothing, or the Render's own
   * plain-text 500 when it renders errors.
   */
  lemma OtherCodesRenderJson(s: SinkState, st: Status, out: RenderResult, rendersErrors: bool)
    requires st.code as int != StatusNoContent
    ensures var r := ApiErrorEffect(s, st, out, rendersErrors);
            out.Encoded? && ValidCode(st.code as int) ==>
              && r.status == (if s.status == 0 then st.code as int else s.status)
              && r.body == s.body + if BodyAllowed(r.status) then out.bytes else []
    ensures var r := ApiErrorEffect(s, st, out, rendersErrors);
            out.EncodeError? && !rendersErrors ==> r.body == s.body && r.status == s.status
    ensures var r := ApiErrorEffect(s, st, out, rendersErrors);
            out.EncodeError? && rendersErrors ==>
              && r.status == (if s.status == 0 then StatusInternalServerError else s.status)
              && r.body == s.body + if BodyAllowed(r.status) then Utf8(out.reason) else []
  {
  }
}
