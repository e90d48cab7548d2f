/**
 * The collaborators the response layer writes through: the raw response
 * sink (net/http's ResponseWriter, possibly wrapped by chi's write-tracking
 * WrapResponseWriter), the inbound request, the status texts of net/http,
 * plain-text errors (http.Error), and the render engine reduced to what one
 * call of it produces.
 */
module NetHttp {
  import opened Encoding
  import opened Wrappers
  import Chi

  const StatusOK := 200
  const StatusNoContent := 204
  const StatusInternalServerError := 500

  /** net/http's WriteHeader panics for any code outside 100..999. */
  predicate ValidCode(code: int) { 100 <= code <= 999 }

  /** http.StatusText: the reason phrase of a known code, "" for any other. */
  function StatusText(code: int): (text: string)
    ensures text == "" || 'A' <= text[0] <= 'Z'
  {
    match code
    case 100 => "Continue"
    case 101 => "Switching Protocols"
    case 102 => "Processing"
    case 103 => "Early Hints"
    case 200 => "OK"
    case 201 => "Created"
    case 202 => "Accepted"
    case 203 => "Non-Authoritative Information"
    case 204 => "No Content"
    case 205 => "Reset Content"
    case 206 => "Partial Content"
    case 207 => "Multi-Status"
    case 208 => "Already Reported"
    case 226 => "IM Used"
    case 300 => "Multiple Choices"
    case 301 => "Moved Permanently"
    case 302 => "Found"
    case 303 => "See Other"
    case 304 => "Not Modified"
    case 305 => "Use Proxy"
    case 307 => "Temporary Redirect"
    case 308 => "Permanent Redirect"
    case 400 => "Bad Request"
    case 401 => "Unauthorized"
    case 402 => "Payment Required"
    case 403 => "Forbidden"
    case 404 => "Not Found"
    case 405 => "Method Not Allowed"
    case 406 => "Not Acceptable"
    case 407 => "Proxy Authentication Required"
    case 408 => "Request Timeout"
    case 409 => "Conflict"
    case 410 => "Gone"
    case 411 => "Length Required"
    case 412 => "Precondition Failed"
    case 413 => "Request Entity Too Large"
    case 414 => "Request URI Too Long"
    case 415 => "Unsupported Media Type"
    case 416 => "Requested Range Not Satisfiable"
    case 417 => "Expectation Failed"
    case 418 => "I'm a teapot"
    case 421 => "Misdirected Request"
    case 422 => "Unprocessable Entity"
    case 423 => "Locked"
    case 424 => "Failed Dependency"
    case 425 => "Too Early"
    case 426 => "Upgrade Required"
    case 428 => "Precondition Required"
    case 429 => "Too Many Requests"
    case 431 => "Request Header Fields Too Large"
    case 451 => "Unavailable For Legal Reasons"
    case 500 => "Internal Server Error"
    case 501 => "Not Implemented"
    case 502 => "Bad Gateway"
    case 503 => "Service Unavailable"
    case 504 => "Gateway Timeout"
    case 505 => "HTTP Version Not Supported"
    case 506 => "Variant Also Negotiates"
    case 507 => "Insufficient Storage"
    case 508 => "Loop Detected"
    case 510 => "Not Extended"
    case 511 => "Network Authentication Required"
    case _ => ""
  }

  /** net/http's bodyAllowedForStatus: 1xx, 204 and 304 responses carry no body. */
  predicate BodyAllowed(code: int) { !(100 <= code <= 199) && code != 204 && code != 304 }

  /**
   * What the sink holds: the header map, the headers as they stood when the
   * status line went out (what the client receives), the status sent (0
   * while unsent) and the body bytes sent.
   */
  datatype SinkState = SinkState(headers: map<string, string>, sent: map<string, string>, status: int, body: Bytes)

  /** Nothing goes out before a status line, and a sent status is one WriteHeader accepts. */
  predicate Consistent(s: SinkState) {
    (s.status == 0 ==> s.body == [] && s.sent == map[]) && (s.status != 0 ==> ValidCode(s.status))
  }

  /** WriteHeader: the first status sent sticks, with the headers of that moment; later ones change nothing. */
  function WriteHeaderEffect(s: SinkState, code: int): SinkState {
    if s.status == 0 then s.(status := code, sent := s.headers) else s
  }

  /**
   * Write: an unsent status becomes 200 first; the bytes are appended when
   * the status allows a body, and refused (ErrBodyNotAllowed, 0 bytes
   * counted) when it does not.
   */
  function WriteEffect(s: SinkState, data: Bytes): SinkState {
    var h := WriteHeaderEffect(s, StatusOK);
    if BodyAllowed(h.status) then h.(body := s.body + data) else h
  }

  /** A status line followed by body bytes, as an engine or http.Error writes them. */
  function RespondEffect(s: SinkState, code: int, data: Bytes): (r: SinkState)
    ensures r.headers == s.headers
    ensures r.sent == if s.status == 0 then s.headers else s.sent
    ensures r.status == (if s.status != 0 then s.status else if code != 0 then code else StatusOK)
    ensures r.body == s.body + if BodyAllowed(r.status) then data else []
    ensures ValidCode(code) && Consistent(s) ==> Consistent(r)
  {
    WriteEffect(WriteHeaderEffect(s, code), data)
  }

  /** http.Error(w, msg, code): a plain-text response with that status and message. */
  function PlainErrorEffect(s: SinkState, code: int, msg: string): (r: SinkState)
    ensures r.headers == s.headers
    ensures r.sent == if s.status == 0 then s.headers else s.sent
    ensures ValidCode(code) ==> r.status == (if s.status == 0 then code else s.status)
    ensures r.body == s.body + if BodyAllowed(r.status) then Utf8(msg) else []
    ensures ValidCode(code) && Consistent(s) ==> Consistent(r)
  {
    RespondEffect(s, code, Utf8(msg))
  }

  /** Every sink operation keeps a consistent state consistent. */
  lemma EffectsKeepConsistent(s: SinkState, code: int, data: Bytes)
    requires Consistent(s) && ValidCode(code)
    ensures Consistent(WriteHeaderEffect(s, code))
    ensures Consistent(WriteEffect(s, data))
  {
  }

  /** Under 204 and 304 a write is refused: the status is kept and no byte is added. */
  lemma NoBodyUnder204And304(s: SinkState, data: Bytes)
    requires s.status == StatusNoContent || s.status == 304
    ensures WriteEffect(s, data) == s
  {
  }

  /** What one call of the render engine produced: the encoded bytes, or the encoding error. */
  datatype RenderResult = Encoded(bytes: Bytes) | EncodeError(reason: string)

  /** The raw response sink. `tracking` says whether it implements chi's WrapResponseWriter. */
  class Writer {
    var headers: map<string, string>
    var sent: map<string, string>
    var status: int
    var body: Bytes
    const tracking: bool

    constructor (tracking: bool)
      ensures Snapshot() == SinkState(map[], map[], 0, [])
      ensures this.tracking == tracking
    {
      headers, sent, status, body := map[], map[], 0, [];
      this.tracking := tracking;
    }

    function Snapshot(): SinkState
      reads this
    {
      SinkState(headers, sent, status, body)
    }

    ghost predicate Valid()
      reads this
    {
      Consistent(Snapshot())
    }

    /** Header().Set(key, value): after the status line it no longer reaches the client. */
    method SetHeader(key: string, value: string)
      modifies this
      ensures Snapshot() == old(Snapshot()).(headers := old(headers)[key := value])
    {
      headers := headers[key := value];
    }

    method WriteHeader(code: int)
      requires ValidCode(code)
      modifies this
      ensures Snapshot() == WriteHeaderEffect(old(Snapshot()), code)
    {
      if status == 0 {
        status, sent := code, headers;
      }
    }

    method Write(data: Bytes)
      modifies this
      ensures Snapshot() == WriteEffect(old(Snapshot()), data)
    {
      if status == 0 {
        status, sent := StatusOK, headers;
      }
      if BodyAllowed(status) {
        body := body + data;
      }
    }

    /** http.Error(w, msg, code). */
    method Error(msg: string, code: int)
      requires ValidCode(code)
      modifies this
      ensures Snapshot() == PlainErrorEffect(old(Snapshot()), code, msg)
    {
      WriteHeader(code);
      Write(Utf8(msg));
    }
  }

  /** The inbound *http.Request, reduced to the context values this layer reads. */
  class Request {
    /** chi.RouteContext(r.Context()). */
    const route: Chi.RouteContext
    /** Whether middleware.GetLogEntry(r) finds a request log entry. */
    const hasLogEntry: bool

    constructor (route: Chi.RouteContext, hasLogEntry: bool)
      ensures this.route == route && this.hasLogEntry == hasLogEntry
    {
      this.route := route;
      this.hasLogEntry := hasLogEntry;
    }
  }

  /**
   * The effect of one call of render.Render's methods: on success the
   * engine's status line and bytes; on failure the engine writes nothing,
   * and then, unless the Render was built with DisableHTTPErrorRendering,
   * the Render itself answers with http.Error(w, err.Error(), 500).
   */
  function EngineEffect(s: SinkState, status: int, out: RenderResult, rendersErrors: bool): (r: SinkState)
    ensures r.headers == s.headers
    ensures out.Encoded? ==> r.status == (if s.status != 0 then s.status else if status != 0 then status else StatusOK)
    ensures out.Encoded? ==> r.body == s.body + if BodyAllowed(r.status) then out.bytes else []
    ensures out.EncodeError? && !rendersErrors ==> r == s
    ensures out.EncodeError? && rendersErrors ==>
              && r.status == (if s.status == 0 then StatusInternalServerError else s.status)
              && r.body == s.body + if BodyAllowed(r.status) then Utf8(out.reason) else []
    ensures Consistent(s) && (out.Encoded? ==> ValidCode(status)) ==> Consistent(r)
  {
    if out.Encoded? then RespondEffect(s, status, out.bytes)
    else if rendersErrors then PlainErrorEffect(s, StatusInternalServerError, out.reason)
    else s
  }

  /**
   * The *render.Render handle; each of its render calls is modelled by Emit.
   * `rendersErrors` is the negation of its DisableHTTPErrorRendering option
   * (true with the library's defaults).
   */
  class Renderer {
    const rendersErrors: bool

    constructor (rendersErrors: bool)
      ensures this.rendersErrors == rendersErrors
    {
      this.rendersErrors := rendersErrors;
    }

    /**
     * One call such as r.JSON(w, status, v): when the payload encodes, the
     * status and the encoded bytes are written and no error is returned;
     * when it does not, the engine writes nothing, the Render answers with
     * a plain-text 500 if it renders errors, and the error is returned.
     */
    method Emit(w: Writer, status: int, out: RenderResult) returns (err: Option<string>)
      requires out.Encoded? ==> ValidCode(status)
      modifies w
      ensures w.Snapshot() == EngineEffect(old(w.Snapshot()), status, out, rendersErrors)
      ensures err == if out.Encoded? then None else Some(out.reason)
    {
      if out.Encoded? {
        w.WriteHeader(status);
        w.Write(out.bytes);
        err := None;
      } else {
        if rendersErrors {
          w.Error(out.reason, StatusInternalServerError);
        }
        err := Some(out.reason);
      }
    }
  }
}
