/**
 * The plain version of the response wrapper: a failed render is answered
 * with a 500 plain-text response naming the failure, Error takes string
 * contents only, and the route-parameter accessors read and write the
 * request's route context.
 */
module Http {
  import opened Encoding
  import opened NetHttp
  import Chi
  import Url
  import UrlParam
  import Strconv

  /** Error's message: contents[0] if there is one, else the status text. */
  function ErrorMessage(status: int, contents: seq<string>): (m: string)
    ensures contents == [] ==> m == StatusText(status)
  {
    if |contents| > 0 then contents[0] else StatusText(status)
  }

  /** Contents after the first never change the message. */
  lemma FirstContentWins(status: int, contents: seq<string>, more: seq<string>)
    requires contents != []
    ensures ErrorMessage(status, contents + more) == contents[0]
    ensures ErrorMessage(status, contents) == contents[0]
  {
    assert (contents + more)[0] == contents[0];
  }

  const RenderFailedPrefix := "Render failed, reason: "

  /** fmt.Sprintf("Render failed, reason: %v", err). */
  function RenderFailedMessage(reason: string): (m: string)
    ensures |m| == |RenderFailedPrefix| + |reason|
    ensures m[..|RenderFailedPrefix|] == RenderFailedPrefix && m[|RenderFailedPrefix|..] == reason
  {
    RenderFailedPrefix + reason
  }

  /**
   * The sink effect of a render method: the engine call (with the Render's
   * own error response if it renders errors), then the 500 fallback when it
   * failed.
   */
  function RenderOrFallback(s: SinkState, status: int, out: RenderResult, rendersErrors: bool): (r: SinkState)
    requires out.Encoded? ==> ValidCode(status)
    ensures Consistent(s) ==> Consistent(r)
  {
    var engine := EngineEffect(s, status, out, rendersErrors);
    if out.Encoded? then engine
    else PlainErrorEffect(engine, StatusInternalServerError, RenderFailedMessage(out.reason))
  }

  /**
   * A failed render ends in status 500 unless a status was already sent.
   * The body gets the failure message, preceded by the bare error text when
   * the Render answered first; nothing is added under a status that allows
   * no body.
   */
  lemma FailureFallsBack(s: SinkState, status: int, reason: string, rendersErrors: bool)
    ensures var r := RenderOrFallback(s, status, EncodeError(reason), rendersErrors);
            && r.headers == s.headers
            && r.status == (if s.status == 0 then StatusInternalServerError else s.status)
            && r.body == s.body +
                 if !BodyAllowed(r.status) then []
                 else (if rendersErrors then Utf8(reason) else []) + Utf8("Render failed, reason: " + reason)
  {
    var e := EngineEffect(s, status, EncodeError(reason), rendersErrors);
    if rendersErrors && BodyAllowed(e.status) {
      assert s.body + Utf8(reason) + Utf8(RenderFailedMessage(reason))
          == s.body + (Utf8(reason) + Utf8(RenderFailedMessage(reason)));
    }
  }

  /** A successful render writes the engine's status and bytes and nothing more. */
  lemma SuccessAddsNothing(s: SinkState, status: int, bytes: Bytes, rendersErrors: bool)
    requires ValidCode(status)
    ensures var r := RenderOrFallback(s, status, Encoded(bytes), rendersErrors);
            && r.headers == s.headers
            && r.status == (if s.status == 0 then status else s.status)
            && r.body == s.body + if BodyAllowed(r.status) then bytes else []
  {
  }

  class Response {
    const w: Writer
    const req: NetHttp.Request
    const r: Renderer

    /** NewResponseWriter: the three handles are stored as they are. */
    constructor (w: Writer, req: NetHttp.Request, r: Renderer)
      ensures this.w == w && this.req == req && this.r == r
    {
      this.w := w;
      this.req := req;
      this.r := r;
    }

    function R(): (req: NetHttp.Request)
      ensures req == this.req
    {
      this.req
    }

    /** The shape shared by the render methods: the engine call, then the fallback if it failed. */
    method Emit(status: int, out: RenderResult)
      requires out.Encoded? ==> ValidCode(status)
      modifies w
      ensures w.Snapshot() == RenderOrFallback(old(w.Snapshot()), status, out, r.rendersErrors)
    {
      var err := r.Emit(w, status, out);
      if err.Some? {
        w.Error(RenderFailedMessage(err.value), StatusInternalServerError);
      }
    }

    /** Render(e, data), with `status` the status of the engine e. */
    method Render(status: int, out: RenderResult)
      requires out.Encoded? ==> ValidCode(status)
      modifies w
      ensures w.Snapshot() == RenderOrFallback(old(w.Snapshot()), status, out, r.rendersErrors)
    {
      Emit(status, out);
    }

    method Data(status: int, out: RenderResult)
      requires out.Encoded? ==> ValidCode(status)
      modifies w
      ensures w.Snapshot() == RenderOrFallback(old(w.Snapshot()), status, out, r.rendersErrors)
    {
      Emit(status, out);
    }

    method HTML(status: int, name: string, out: RenderResult)
      requires out.Encoded? ==> ValidCode(status)
      modifies w
      ensures w.Snapshot() == RenderOrFallback(old(w.Snapshot()), status, out, r.rendersErrors)
    {
      Emit(status, out);
    }

    method JSON(status: int, out: RenderResult)
      requires out.Encoded? ==> ValidCode(status)
      modifies w
      ensures w.Snapshot() == RenderOrFallback(old(w.Snapshot()), status, out, r.rendersErrors)
    {
      Emit(status, out);
    }

    method JSONP(status: int, callback: string, out: RenderResult)
      requires out.Encoded? ==> ValidCode(status)
      modifies w
      ensures w.Snapshot() == RenderOrFallback(old(w.Snapshot()), status, out, r.rendersErrors)
    {
      Emit(status, out);
    }

    method Text(status: int, out: RenderResult)
      requires out.Encoded? ==> ValidCode(status)
      modifies w
      ensures w.Snapshot() == RenderOrFallback(old(w.Snapshot()), status, out, r.rendersErrors)
    {
      Emit(status, out);
    }

    method XML(status: int, out: RenderResult)
      requires out.Encoded? ==> ValidCode(status)
      modifies w
      ensures w.Snapshot() == RenderOrFallback(old(w.Snapshot()), status, out, r.rendersErrors)
    {
      Emit(status, out);
    }

    /** Error(status, contents...): one plain-text response, under the caller's status unless one was sent. */
    method Error(status: int, contents: seq<string>)
      requires ValidCode(status)
      modifies w
      ensures w.Snapshot() == PlainErrorEffect(old(w.Snapshot()), status, ErrorMessage(status, contents))
    {
      var v := StatusText(status);
      if |contents| > 0 {
        v := contents[0];
      }
      w.Error(v, status);
    }

    function Params(p: Bytes): (s: Bytes)
      reads req.route
      ensures |s| <= |req.route.URLParam(UrlParam.TrimColon(p))|
    {
      UrlParam.Params(req.route.urlParams, p)
    }

    function ParamsInt(p: Bytes): (n: int)
      reads req.route
      ensures Strconv.MinInt64 <= n <= Strconv.MaxInt64
    {
      UrlParam.ParamsInt(req.route.urlParams, p)
    }

    function ParamsInt64(p: Bytes): (n: int)
      reads req.route
      ensures Strconv.MinInt64 <= n <= Strconv.MaxInt64
    {
      UrlParam.ParamsInt64(req.route.urlParams, p)
    }

    /** SetParams(k, v): one escaped pair appended, so that Params(k) reads v back. */
    method SetParams(k: Bytes, v: Bytes)
      modifies req.route
      ensures req.route.urlParams == old(req.route.urlParams) + [(UrlParam.TrimColon(k), Url.PathEscape(v))]
      ensures Params(k) == v
    {
      UrlParam.ParamsAfterSet(req.route.urlParams, k, v, k);
      req.route.Add(UrlParam.TrimColon(k), Url.PathEscape(v));
    }
  }
}
