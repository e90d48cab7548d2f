/**
 * The logging version of the response wrapper: a request log entry (when
 * the request has one) receives render failures, a logr logger receives
 * titled errors, and the write-state queries need the sink to track writes.
 * APIError, the status translator's entry point, belongs to this version.
 */
module Response {
  import opened Encoding
  import opened Wrappers
  import opened NetHttp
  import ApiStatus

  /** A logr.Logger: the klog-backed default, or one the caller supplies. */
  datatype Logger = Klog(name: string) | Supplied(id: nat)

  /** klogr.New().WithName("wandrs"). */
  const DefaultLogger := Klog("wandrs")

  /** NewResponseWriter's logger: the first one supplied, else the default. */
  function ChooseLogger(loggers: seq<Logger>): (l: Logger)
    ensures loggers != [] ==> l == loggers[0]
    ensures loggers == [] ==> l == DefaultLogger
  {
    if |loggers| > 0 then loggers[0] else DefaultLogger
  }

  /**
   * One argument of Error: a string, an error value with its Error() text,
   * nil (also what a missing argument reads as), or any other value with
   * the text fmt's "%s" gives it.
   */
  datatype Content = Str(s: string) | ErrorValue(text: string) | NilValue | Value(formatted: string)

  /** fmt.Sprintf("%s", nil). */
  const NilFormatted := "%!s(<nil>)"

  /** The message Error writes for its message source. */
  function Describe(c: Content): (d: string)
    ensures c.Str? ==> d == c.s
    ensures c.ErrorValue? ==> d == c.text
    ensures c.NilValue? ==> d == NilFormatted
    ensures c.Value? ==> d == c.formatted
  {
    match c
    case Str(s) => s
    case ErrorValue(text) => text
    case NilValue => NilFormatted
    case Value(formatted) => formatted
  }

  /**
   * Error's choice of (title, message): two or more contents give the title
   * contents[0], which must be a string (the type assertion panics
   * otherwise), and the message from contents[1]; one content gives no
   * title and the message from contents[0]; none formats nil.
   */
  function TitleAndMessage(contents: seq<Content>): (r: (string, string))
    requires |contents| > 1 ==> contents[0].Str?
    ensures |contents| <= 1 ==> r.0 == ""
  {
    if |contents| > 1 then (contents[0].s, Describe(contents[1]))
    else if |contents| > 0 then ("", Describe(contents[0]))
    else ("", Describe(NilValue))
  }

  /** Only the first two contents matter. */
  lemma LaterContentsIgnored(contents: seq<Content>, more: seq<Content>)
    requires |contents| >= 2 && contents[0].Str?
    ensures TitleAndMessage(contents + more) == TitleAndMessage(contents)
    ensures TitleAndMessage(contents) == (contents[0].s, Describe(contents[1]))
  {
    assert (contents + more)[0] == contents[0] && (contents + more)[1] == contents[1];
  }

  /** An error value contributes its Error() text, anything else its "%s" form. */
  lemma MessageSource(c: Content, title: string)
    ensures TitleAndMessage([c]) == ("", Describe(c))
    ensures TitleAndMessage([Str(title), c]).1 == Describe(c)
    ensures c.ErrorValue? ==> Describe(c) == c.text
  {
  }

  /** With no contents, the status text is not what gets written: the message is the "%s" form of nil. */
  lemma NoContentsIgnoresStatusText(code: int)
    ensures TitleAndMessage([]) == ("", NilFormatted)
    ensures TitleAndMessage([]).1 != StatusText(code)
  {
    assert NilFormatted[0] == '%';
  }

  /** One entry of the log: an error logged with a title, or a request log entry's Panic record. */
  datatype LogRecord = Logged(logger: Logger, message: string, title: string) | EntryPanic(reason: string)

  /** What a render method logs for the engine's result. */
  function FailureLog(hasLogEntry: bool, out: RenderResult): (log: seq<LogRecord>)
    ensures log != [] <==> hasLogEntry && out.EncodeError?
    ensures log != [] ==> log == [EntryPanic(out.reason)]
  {
    if hasLogEntry && out.EncodeError? then [EntryPanic(out.reason)] else []
  }

  /**
   * This wrapper adds no write of its own after a failed render: with a
   * Render that does not render errors the sink is left exactly as it was.
   */
  lemma FailureWritesNothing(s: SinkState, status: int, reason: string)
    ensures EngineEffect(s, status, EncodeError(reason), false) == s
  {
  }

  /** With a Render that renders errors, the error text goes out once, as a plain-text 500 unless a status was sent. */
  lemma FailureRendersError(s: SinkState, status: int, reason: string)
    ensures var r := EngineEffect(s, status, EncodeError(reason), true);
            && r.headers == s.headers
            && r.status == (if s.status == 0 then StatusInternalServerError else s.status)
            && r.body == s.body + if BodyAllowed(r.status) then Utf8(reason) else []
  {
  }

  /** The unexported `request` wrapper around the *http.Request. */
  class Request {
    const httpRequest: NetHttp.Request

    constructor (httpRequest: NetHttp.Request)
      ensures this.httpRequest == httpRequest
    {
      this.httpRequest := httpRequest;
    }
  }

  class Response {
    const w: Writer
    const req: Request
    const r: Renderer
    const log: Logger
    /** What the loggers and request log entries have recorded. */
    ghost var logged: seq<LogRecord>
    /** What runtime.HandleError has been told. */
    ghost var reports: seq<ApiStatus.Report>

    /** NewResponseWriter. */
    constructor (w: Writer, req: NetHttp.Request, r: Renderer, loggers: seq<Logger>)
      ensures this.w == w && this.req.httpRequest == req && this.r == r
      ensures log == ChooseLogger(loggers)
      ensures logged == [] && reports == []
    {
      this.w := w;
      this.req := new Request(req);
      this.r := r;
      this.log := ChooseLogger(loggers);
      logged := [];
      reports := [];
    }

    method R() returns (req: Request)
      ensures req == this.req
    {
      req := this.req;
    }

    /** The shape shared by the render methods: the engine call, then Panic on the log entry if it failed. */
    method Emit(status: int, out: RenderResult)
      requires out.Encoded? ==> ValidCode(status)
      requires w.Valid()
      modifies w, this
      ensures w.Valid()
      ensures w.Snapshot() == EngineEffect(old(w.Snapshot()), status, out, r.rendersErrors)
      ensures logged == old(logged) + FailureLog(req.httpRequest.hasLogEntry, out)
      ensures reports == old(reports)
    {
      var err := r.Emit(w, status, out);
      if err.Some? {
        if req.httpRequest.hasLogEntry {
          logged := logged + [EntryPanic(err.value)];
        }
      }
    }

    /** Render(e, data), with `status` the status of the engine e. */
    method Render(status: int, out: RenderResult)
      requires out.Encoded? ==> ValidCode(status)
      requires w.Valid()
      modifies w, this
      ensures w.Valid()
      ensures w.Snapshot() == EngineEffect(old(w.Snapshot()), status, out, r.rendersErrors)
      ensures logged == old(logged) + FailureLog(req.httpRequest.hasLogEntry, out)
      ensures reports == old(reports)
    {
      Emit(status, out);
    }

    method Data(status: int, out: RenderResult)
      requires out.Encoded? ==> ValidCode(status)
      requires w.Valid()
      modifies w, this
      ensures w.Valid()
      ensures w.Snapshot() == EngineEffect(old(w.Snapshot()), status, out, r.rendersErrors)
      ensures logged == old(logged) + FailureLog(req.httpRequest.hasLogEntry, out)
      ensures reports == old(reports)
    {
      Emit(status, out);
    }

    method HTML(status: int, name: string, out: RenderResult)
      requires out.Encoded? ==> ValidCode(status)
      requires w.Valid()
      modifies w, this
      ensures w.Valid()
      ensures w.Snapshot() == EngineEffect(old(w.Snapshot()), status, out, r.rendersErrors)
      ensures logged == old(logged) + FailureLog(req.httpRequest.hasLogEntry, out)
      ensures reports == old(reports)
    {
      Emit(status, out);
    }

    method JSON(status: int, out: RenderResult)
      requires out.Encoded? ==> ValidCode(status)
      requires w.Valid()
      modifies w, this
      ensures w.Valid()
      ensures w.Snapshot() == EngineEffect(old(w.Snapshot()), status, out, r.rendersErrors)
      ensures logged == old(logged) + FailureLog(req.httpRequest.hasLogEntry, out)
      ensures reports == old(reports)
    {
      Emit(status, out);
    }

    method JSONP(status: int, callback: string, out: RenderResult)
      requires out.Encoded? ==> ValidCode(status)
      requires w.Valid()
      modifies w, this
      ensures w.Valid()
      ensures w.Snapshot() == EngineEffect(old(w.Snapshot()), status, out, r.rendersErrors)
      ensures logged == old(logged) + FailureLog(req.httpRequest.hasLogEntry, out)
      ensures reports == old(reports)
    {
      Emit(status, out);
    }

    method Text(status: int, out: RenderResult)
      requires out.Encoded? ==> ValidCode(status)
      requires w.Valid()
      modifies w, this
      ensures w.Valid()
      ensures w.Snapshot() == EngineEffect(old(w.Snapshot()), status, out, r.rendersErrors)
      ensures logged == old(logged) + FailureLog(req.httpRequest.hasLogEntry, out)
      ensures reports == old(reports)
    {
      Emit(status, out);
    }

    method XML(status: int, out: RenderResult)
      requires out.Encoded? ==> ValidCode(status)
      requires w.Valid()
      modifies w, this
      ensures w.Valid()
      ensures w.Snapshot() == EngineEffect(old(w.Snapshot()), status, out, r.rendersErrors)
      ensures logged == old(logged) + FailureLog(req.httpRequest.hasLogEntry, out)
      ensures reports == old(reports)
    {
      Emit(status, out);
    }

    /**
     * Error(status, contents...): with a non-empty title the message is
     * logged under that title first; then one plain-text response with the
     * caller's status and the chosen message is written.
     */
    method Error(status: int, contents: seq<Content>)
      requires ValidCode(status)
      requires |contents| > 1 ==> contents[0].Str?
      requires w.Valid()
      modifies w, this
      ensures w.Valid()
      ensures w.Snapshot() == PlainErrorEffect(old(w.Snapshot()), status, TitleAndMessage(contents).1)
      ensures var (title, message) := TitleAndMessage(contents);
              logged == old(logged) + if title != "" then [Logged(log, message, title)] else []
      ensures reports == old(reports)
    {
      var (title, message) := TitleAndMessage(contents);
      if |title| > 0 {
        logged := logged + [Logged(log, message, title)];
      }
      w.Error(message, status);
    }

    /** Written: whether a status has been sent. */
    function Written(): (written: bool)
      requires w.tracking
      reads w
      ensures written <==> w.status > 0
    {
      w.status > 0
    }

    /** Status: the status sent, or 0 if none has been. */
    function Status(): (code: int)
      requires w.tracking
      reads w
      ensures code == w.status
      ensures code > 0 <==> Written()
    {
      w.status
    }

    /** BytesWritten: the number of body bytes sent. */
    function BytesWritten(): (n: nat)
      requires w.tracking
      reads w
      ensures n == |w.body|
      ensures w.Valid() && n > 0 ==> Written()
    {
      |w.body|
    }

    /**
     * APIError: translate err, set Retry-After when the details ask for a
     * delay, then send a bare 204 or the JSON encoding of the status (the
     * engine's result for it is json(status)); return the code.
     */
    method APIError(err: ApiStatus.Err, json: ApiStatus.Status -> RenderResult) returns (code: int)
      requires var st := ApiStatus.ErrorToAPIStatus(err).status; json(st).Encoded? ==> ValidCode(st.code as int)
      requires w.Valid()
      modifies w, this
      ensures var t := ApiStatus.ErrorToAPIStatus(err);
              && code == t.status.code as int
              && w.Snapshot() == ApiStatus.ApiErrorEffect(old(w.Snapshot()), t.status, json(t.status), r.rendersErrors)
              && reports == old(reports) + t.reports
              && logged == old(logged) +
                   if code == StatusNoContent then [] else FailureLog(req.httpRequest.hasLogEntry, json(t.status))
      ensures w.Valid()
    {
      var t := ApiStatus.ErrorToAPIStatus(err);
      reports := reports + t.reports;
      var status := t.status;
      code := status.code as int;
      var delay := ApiStatus.RetryAfter(status);
      if delay.Some? {
        w.SetHeader(ApiStatus.RetryAfterHeader, delay.value);
      }
      if code == StatusNoContent {
        w.WriteHeader(code);
        return;
      }
      JSON(code, json(status));
    }
  }
}
