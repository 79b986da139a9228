/**
 * The parts of Go's net/http, net and io that the proxy and the replayer
 * drive, reduced to the state they change: a response writer whose first
 * status wins, the incoming request, an upstream response, a raw
 * connection, and the outbound client that never follows redirects.
 * Network transfers themselves are opaque: their results are inputs.
 */
module NetHttp {
  import opened Headers

  const StatusOK := 200
  const StatusInternalServerError := 500
  const StatusServiceUnavailable := 503

  /**
   * An http.ResponseWriter. The status line and the header map sent with
   * it are fixed by the first `WriteHeader` (or by the first `Write`,
   * which implies status 200); later `WriteHeader` calls are ignored.
   */
  class ResponseWriter {
    /** The map `Header()` returns, which handlers fill before the status is written. */
    const header: Header
    /** Whether the writer also implements http.Hijacker. */
    const hijackable: bool
    var wroteHeader: bool
    var status: int
    /** The header map as it stood when the status was written. */
    var sentHeader: HeaderMap
    var body: string

    constructor (hijackable: bool)
      ensures this.hijackable == hijackable
      ensures fresh(header) && header.fields == map[]
      ensures !wroteHeader && body == ""
    {
      this.hijackable := hijackable;
      header := new Header(map[]);
      wroteHeader, status, sentHeader, body := false, 0, map[], "";
    }

    method WriteHeader(code: int)
      modifies this
      ensures wroteHeader && body == old(body)
      ensures old(wroteHeader) ==> status == old(status) && sentHeader == old(sentHeader)
      ensures !old(wroteHeader) ==> status == code && sentHeader == header.fields
    {
      if !wroteHeader {
        wroteHeader, status, sentHeader := true, code, header.fields;
      }
    }

    method Write(data: string)
      modifies this
      ensures wroteHeader && body == old(body) + data
      ensures old(wroteHeader) ==> status == old(status) && sentHeader == old(sentHeader)
      ensures !old(wroteHeader) ==> status == StatusOK && sentHeader == header.fields
    {
      if !wroteHeader {
        WriteHeader(StatusOK);
      }
      body := body + data;
    }
  }

  /** http.Error: writes `code` (if no status was written yet) and `msg` on a line of its own. */
  method Error(w: ResponseWriter, msg: string, code: int)
    modifies w
    ensures w.wroteHeader && w.body == old(w.body) + msg + "\n"
    ensures old(w.wroteHeader) ==> w.status == old(w.status) && w.sentHeader == old(w.sentHeader)
    ensures !old(w.wroteHeader) ==> w.status == code && w.sentHeader == w.header.fields
  {
    w.WriteHeader(code);
    w.Write(msg + "\n");
  }

  /** An incoming server request; the handlers change only `requestURI`. */
  class Request {
    const Method: string
    /** The authority the client asked for (the CONNECT target). */
    const host: string
    const url: string
    var requestURI: string
    const header: Header
    const body: string

    constructor (Method: string, host: string, url: string, requestURI: string, header: Header, body: string)
      ensures this.Method == Method && this.host == host && this.url == url
      ensures this.requestURI == requestURI && this.header == header && this.body == body
    {
      this.Method, this.host, this.url := Method, host, url;
      this.requestURI, this.header, this.body := requestURI, header, body;
    }
  }

  /** A response received from an upstream server. */
  class Response {
    const statusCode: int
    const header: Header
    const body: string
    /** How many times `Body.Close` was called. */
    var bodyCloses: nat

    constructor (statusCode: int, header: Header, body: string)
      ensures this.statusCode == statusCode && this.header == header && this.body == body
      ensures bodyCloses == 0
    {
      this.statusCode, this.header, this.body := statusCode, header, body;
      bodyCloses := 0;
    }

    method CloseBody()
      modifies this
      ensures bodyCloses == old(bodyCloses) + 1
    {
      bodyCloses := bodyCloses + 1;
    }
  }

  /** What one upstream exchange gives: a response, or a transport-level error. */
  datatype Reply = Replied(resp: Response) | TransportError(msg: string)

  /** The objects a handler may change when it consumes `reply`. */
  function ReplyFrame(reply: Reply): set<object> {
    if reply.Replied? then {reply.resp, reply.resp.header} else {}
  }

  /** The header maps of a chain of exchanges, which the redirect decision reads. */
  function HopFrame(first: Reply, later: seq<Reply>): set<object> {
    (if first.Replied? then {first.resp.header} else {})
      + set i | 0 <= i < |later| && later[i].Replied? :: later[i].resp.header
  }

  /** A request as handed to the outbound client. */
  datatype Outbound = Outbound(Method: string, url: string, requestURI: string, header: HeaderMap, body: string)

  const StatusMovedPermanently := 301
  const StatusFound := 302
  const StatusSeeOther := 303
  const StatusTemporaryRedirect := 307
  const StatusPermanentRedirect := 308

  /** The statuses after which http.Client considers following a `Location`. */
  predicate IsRedirectStatus(code: int) {
    code == StatusMovedPermanently || code == StatusFound || code == StatusSeeOther
    || code == StatusTemporaryRedirect || code == StatusPermanentRedirect
  }

  /** The first `Location` value of a response, "" when there is none (Header.Get). */
  function LocationOf(reply: Reply): string
    reads if reply.Replied? then {reply.resp.header} else {}
  {
    if reply.Replied? && ValuesOf(reply.resp.header.fields, "Location") != [] then
      ValuesOf(reply.resp.header.fields, "Location")[0]
    else ""
  }

  /**
   * A response the client would follow: a redirect status with a non-empty
   * `Location`. A 307 or 308 keeps the method and body, so it is not
   * followed when the request has a body the client cannot send again
   * (`hasBody`: neither handler's request can rewind its body).
   */
  predicate WantsRedirect(reply: Reply, hasBody: bool)
    reads if reply.Replied? then {reply.resp.header} else {}
  {
    && reply.Replied?
    && IsRedirectStatus(reply.resp.statusCode)
    && !(hasBody && (reply.resp.statusCode == StatusTemporaryRedirect || reply.resp.statusCode == StatusPermanentRedirect))
    && LocationOf(reply) != ""
  }

  /** The error http.Client.Do reports when a redirect's `Location` does not parse as a URL reference. */
  function LocationError(loc: string): string {
    "failed to parse Location header \"" + loc + "\""
  }

  /** A redirect whose `Location` the client cannot parse: Do fails on it before asking the hook. */
  predicate BadLocation(reply: Reply, hasBody: bool, locationParses: string -> bool)
    reads if reply.Replied? then {reply.resp.header} else {}
  {
    WantsRedirect(reply, hasBody) && !locationParses(LocationOf(reply))
  }

  /**
   * What the client's CheckRedirect hook answers: `ErrUseLastResponse`
   * (the hook both handlers install) or nil (follow).
   */
  datatype CheckRedirect = UseLastResponse | Follow

  /**
   * The redirect loop of http.Client.Do. `first` is the answer to the
   * request itself, `later` the answers successive redirected requests
   * would receive; `locationParses` is the URL parser's verdict on a
   * `Location`. A redirect's `Location` is parsed before the hook is asked,
   * and a failure ends the loop with an error whatever the hook would say.
   * Otherwise a redirect is followed only when the hook says so; the chain
   * ends with the last answer known.
   */
  function Exchange(first: Reply, later: seq<Reply>, hasBody: bool, policy: CheckRedirect,
                    locationParses: string -> bool): (r: Reply)
    reads HopFrame(first, later)
    ensures !WantsRedirect(first, hasBody) ==> r == first
    ensures BadLocation(first, hasBody, locationParses) ==> r == TransportError(LocationError(LocationOf(first)))
    ensures policy == UseLastResponse && !BadLocation(first, hasBody, locationParses) ==> r == first
    ensures r.Replied? ==> r == first || r in later
    decreases |later|
  {
    if !WantsRedirect(first, hasBody) then first
    else if !locationParses(LocationOf(first)) then TransportError(LocationError(LocationOf(first)))
    else if policy == UseLastResponse || later == [] then first
    else Exchange(later[0], later[1..], hasBody, policy, locationParses)
  }

  /** Where a followed chain stops on `reply`: an error for an unparsable redirect, else the reply itself. */
  function StopAt(reply: Reply, hasBody: bool, locationParses: string -> bool): Reply
    reads if reply.Replied? then {reply.resp.header} else {}
  {
    if BadLocation(reply, hasBody, locationParses) then TransportError(LocationError(LocationOf(reply))) else reply
  }

  /**
   * When redirects are followed, the loop stops at the first answer in the
   * chain that is not a redirect with a parsable `Location` (at the last one
   * when all of them are): that answer, or the parse error for it.
   */
  lemma {:induction false} FollowStopsAtFirstFinal(first: Reply, later: seq<Reply>, hasBody: bool,
                                                   locationParses: string -> bool, k: nat)
    requires k <= |later|
    requires forall i :: 0 <= i < k ==>
      WantsRedirect(([first] + later)[i], hasBody) && locationParses(LocationOf(([first] + later)[i]))
    requires k == |later| || !WantsRedirect(([first] + later)[k], hasBody)
                          || !locationParses(LocationOf(([first] + later)[k]))
    ensures Exchange(first, later, hasBody, Follow, locationParses) == StopAt(([first] + later)[k], hasBody, locationParses)
    decreases k
  {
    if k > 0 {
      assert WantsRedirect(([first] + later)[0], hasBody);
      assert [later[0]] + later[1..] == later;
      forall i | 0 <= i < k - 1
        ensures WantsRedirect(([later[0]] + later[1..])[i], hasBody)
             && locationParses(LocationOf(([later[0]] + later[1..])[i]))
      {
        assert ([first] + later)[i + 1] == later[i];
      }
      assert k - 1 == |later[1..]| || ([first] + later)[k] == ([later[0]] + later[1..])[k - 1];
      FollowStopsAtFirstFinal(later[0], later[1..], hasBody, locationParses, k - 1);
    }
  }

  /**
   * The hook decides: a redirect with a parsable `Location` answered by a
   * final response yields that final response when followed, but the
   * redirect itself under `ErrUseLastResponse`, which is what `Do` returns.
   */
  lemma RedirectPassedThrough(req: Outbound, first: Reply, next: Reply, locationParses: string -> bool)
    requires req.requestURI == "" && WantsRedirect(first, req.body != "") && !WantsRedirect(next, req.body != "")
    requires locationParses(LocationOf(first))
    ensures Exchange(first, [next], req.body != "", Follow, locationParses) == next
    ensures Do(req, first, [next], locationParses) == first
    ensures IsRedirectStatus(Do(req, first, [next], locationParses).resp.statusCode)
  {
    FollowStopsAtFirstFinal(first, [next], req.body != "", locationParses, 1);
  }

  /** A redirect whose `Location` does not parse is an error under either hook answer. */
  lemma UnparsableLocationFails(req: Outbound, first: Reply, later: seq<Reply>, locationParses: string -> bool)
    requires req.requestURI == "" && BadLocation(first, req.body != "", locationParses)
    ensures Do(req, first, later, locationParses) == TransportError(LocationError(LocationOf(first)))
    ensures Exchange(first, later, req.body != "", Follow, locationParses) == Do(req, first, later, locationParses)
  {
    FollowStopsAtFirstFinal(first, later, req.body != "", locationParses, 0);
  }

  /**
   * A 307 or 308 answer to a request with a body is handed back as it is:
   * the client does not follow it, so its `Location` is never parsed.
   */
  lemma BodyKeepsTemporaryRedirect(req: Outbound, first: Reply, later: seq<Reply>, locationParses: string -> bool)
    requires req.requestURI == "" && req.body != "" && first.Replied?
    requires first.resp.statusCode == StatusTemporaryRedirect || first.resp.statusCode == StatusPermanentRedirect
    ensures Do(req, first, later, locationParses) == first
    ensures Exchange(first, later, true, Follow, locationParses) == first
  {
  }

  const RequestURISetError := "http: Request.RequestURI can't be set in client requests"

  /** The operation name url.Error reports: "Get" for no method, else the method with its tail in lower case. */
  function UrlErrorOp(Method: string): string {
    if Method == "" then "Get" else [Method[0]] + LowerAll(Method[1..])
  }

  function LowerAll(s: string): (r: string)
    ensures |r| == |s|
  {
    if s == [] then [] else [ToLower(s[0])] + LowerAll(s[1..])
  }

  /**
   * http.Client.Do for a client whose CheckRedirect returns
   * ErrUseLastResponse: a request that still carries a server-side
   * RequestURI is refused with a url.Error before anything is sent; a
   * redirect whose `Location` does not parse is an error; otherwise the
   * answer to the request itself, a redirect included.
   */
  function Do(req: Outbound, upstream: Reply, later: seq<Reply>, locationParses: string -> bool): (r: Reply)
    reads HopFrame(upstream, later)
    ensures req.requestURI != "" ==>
      r == TransportError(UrlErrorOp(req.Method) + " \"" + req.url + "\": " + RequestURISetError)
    ensures req.requestURI == "" ==> (r == upstream <==> !BadLocation(upstream, req.body != "", locationParses))
    ensures req.requestURI == "" && BadLocation(upstream, req.body != "", locationParses) ==>
      r == TransportError(LocationError(LocationOf(upstream)))
    ensures r.Replied? ==> r == upstream
  {
    if req.requestURI != "" then TransportError(UrlErrorOp(req.Method) + " \"" + req.url + "\": " + RequestURISetError)
    else Exchange(upstream, later, req.body != "", UseLastResponse, locationParses)
  }

  /** A raw TCP connection (net.Conn). */
  class Conn {
    /** The bytes reading from this connection yields before end of stream or an error. */
    var pending: string
    /** The bytes written to this connection. */
    var sent: string
    /** How many times `Close` was called. */
    var closes: nat

    constructor (pending: string)
      ensures this.pending == pending && sent == "" && closes == 0
    {
      this.pending, sent, closes := pending, "", 0;
    }

    method Close()
      modifies this
      ensures closes == old(closes) + 1
      ensures pending == old(pending) && sent == old(sent)
    {
      closes := closes + 1;
    }
  }

  /** Neither end has been closed, so reads and writes on them can succeed. */
  predicate BothOpen(dest: Conn, src: Conn)
    reads dest, src
  {
    dest.closes == 0 && src.closes == 0
  }

  /**
   * io.Copy between two connections: when both are open, everything `src`
   * yields is written to `dest`, in order; a read from or a write to a
   * closed connection fails at once and nothing moves.
   */
  method Copy(dest: Conn, src: Conn)
    requires dest != src
    modifies dest, src
    ensures old(BothOpen(dest, src)) ==> dest.sent == old(dest.sent) + old(src.pending) && src.pending == ""
    ensures !old(BothOpen(dest, src)) ==> dest.sent == old(dest.sent) && src.pending == old(src.pending)
    ensures dest.pending == old(dest.pending) && src.sent == old(src.sent)
    ensures dest.closes == old(dest.closes) && src.closes == old(src.closes)
  {
    if dest.closes == 0 && src.closes == 0 {
      dest.sent := dest.sent + src.pending;
      src.pending := "";
    }
  }
}
