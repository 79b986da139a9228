/**
 * The proxy of main.go: `ServeHTTP` sends CONNECT requests to the tunnel
 * path (`HandleHTTPS`) and every other method to the forwarding path
 * (`HandleHTTP`). Dialling, hijacking and the upstream round trip are
 * opaque: their results are inputs. `log.Fatal`, which ends the process,
 * becomes a `Fatal` outcome. The writer's `status` and `body` are what the
 * handler asked to send; after a `Fatal` the process exits before the
 * buffered response is flushed, so the client need not receive them.
 */
module Proxy {
  import opened Wrappers
  import opened Headers
  import opened NetHttp

  const MethodConnect := "CONNECT"
  /** The text sent to the client when the writer cannot be hijacked. */
  const HijackUnsupportedText := "Hijacking not supported"
  /** The error value returned in that case. */
  const HijackUnsupportedErr := "hijacking not supported"

  /** The result of dialling the CONNECT target. */
  datatype DialResult = Dialed(conn: Conn) | DialFailed(msg: string)

  /** The result of `Hijack` on a writer that implements http.Hijacker. */
  datatype HijackResult = Hijacked(conn: Conn) | HijackFailed(msg: string)

  /** One relay task, `transfer(dest, src)`. */
  datatype Relay = Relay(dest: Conn, src: Conn)

  /** What `handleHTTPS` leaves behind: two running relay tasks, or a fatal stop. */
  datatype HttpsOutcome =
    | Relaying(toTarget: Relay, toClient: Relay)
    | HttpsFatal(err: string)

  /** What `handleHTTP` leaves behind; `sent` is the request handed to the client. */
  datatype HttpOutcome =
    | Forwarded(sent: Outbound)
    | HttpFatal(sent: Outbound, err: string)

  datatype Served = ViaHttps(https: HttpsOutcome) | ViaHttp(http: HttpOutcome)

  /** copyHeaders of main.go: the same append-merge as utils.CopyHeaders. */
  method CopyHeaders(to: Header, from: Header) returns (ghost order: seq<string>)
    requires to != from
    modifies to
    ensures from.fields == old(from.fields)
    ensures IsVisitOrder(order, from.fields.Keys)
    ensures to.fields == AddAll(old(to.fields), from.fields, order)
    ensures Canonical(from.fields) ==> to.fields == Merge(old(to.fields), from.fields)
    ensures from.fields == map[] ==> to.fields == old(to.fields)
    ensures TotalValues(to.fields) == TotalValues(old(to.fields)) + TotalValues(from.fields)
    ensures Canonical(old(to.fields)) ==> Canonical(to.fields)
  {
    order := Headers.CopyHeaders(to, from);
  }

  /**
   * connectHandshake: dials the host the client asked for (`dial` stands
   * for net.DialTimeout over TCP with a 10-second limit); a failed dial is
   * reported with 503 and yields no connection; a successful one is
   * acknowledged with 200.
   */
  method ConnectHandshake(w: ResponseWriter, r: Request, dial: string -> DialResult) returns (conn: Conn?, err: Option<string>)
    modifies w
    ensures dial(r.host).DialFailed? ==> conn == null && err == Some(dial(r.host).msg)
    ensures dial(r.host).DialFailed? ==> w.body == old(w.body) + dial(r.host).msg + "\n"
    ensures dial(r.host).Dialed? ==> conn == dial(r.host).conn && err == None && w.body == old(w.body)
    ensures w.wroteHeader
    ensures old(w.wroteHeader) ==> w.status == old(w.status)
    ensures !old(w.wroteHeader) ==>
      w.status == (if dial(r.host).Dialed? then StatusOK else StatusServiceUnavailable)
  {
    match dial(r.host)
    case DialFailed(msg) =>
      Error(w, msg, StatusServiceUnavailable);
      return null, Some(msg);
    case Dialed(c) =>
      w.WriteHeader(StatusOK);
      return c, None;
  }

  /**
   * connectHijacker: a writer that is not a Hijacker, or a failing
   * Hijack, is answered with 500 and yields no connection.
   */
  method ConnectHijacker(w: ResponseWriter, hijack: HijackResult) returns (conn: Conn?, err: Option<string>)
    modifies w
    ensures conn != null <==> w.hijackable && hijack.Hijacked?
    ensures conn != null ==> conn == hijack.conn && err == None && w.body == old(w.body)
    ensures !w.hijackable ==> err == Some(HijackUnsupportedErr)
    ensures !w.hijackable ==> w.body == old(w.body) + HijackUnsupportedText + "\n"
    ensures w.hijackable && hijack.HijackFailed? ==>
      err == Some(hijack.msg) && w.body == old(w.body) + hijack.msg + "\n"
    ensures conn == null ==> w.wroteHeader
    ensures conn == null && !old(w.wroteHeader) ==> w.status == StatusInternalServerError
    ensures old(w.wroteHeader) ==> w.status == old(w.status)
    ensures conn != null ==> w.wroteHeader == old(w.wroteHeader) && w.status == old(w.status)
  {
    if !w.hijackable {
      Error(w, HijackUnsupportedText, StatusInternalServerError);
      return null, Some(HijackUnsupportedErr);
    }
    match hijack
    case HijackFailed(msg) =>
      Error(w, msg, StatusInternalServerError);
      return null, Some(msg);
    case Hijacked(c) =>
      return c, None;
  }

  /**
   * transfer: relays what `src` yields to `dest` (nothing when either end
   * is already closed), then closes both (the deferred calls run
   * `src.Close` first), once each, however the copy ended.
   */
  method Transfer(dest: Conn, src: Conn)
    requires dest != src
    modifies dest, src
    ensures old(BothOpen(dest, src)) ==> dest.sent == old(dest.sent) + old(src.pending) && src.pending == ""
    ensures !old(BothOpen(dest, src)) ==> dest.sent == old(dest.sent) && src.pending == old(src.pending)
    ensures dest.closes == old(dest.closes) + 1 && src.closes == old(src.closes) + 1
    ensures src.sent == old(src.sent) && dest.pending == old(dest.pending)
  {
    Copy(dest, src);
    src.Close();
    dest.Close();
  }

  /**
   * handleHTTPS: the two relay tasks start only when the dial and the
   * hijack both succeed. Once the handshake has written 200, the 500s
   * asked for by a failing hijack are too late and the status stays 200.
   */
  method HandleHTTPS(w: ResponseWriter, r: Request, dial: string -> DialResult, hijack: HijackResult) returns (out: HttpsOutcome)
    requires !w.wroteHeader
    modifies w
    ensures out.Relaying? <==> dial(r.host).Dialed? && w.hijackable && hijack.Hijacked?
    ensures out.Relaying? ==>
      out.toTarget == Relay(dial(r.host).conn, hijack.conn) && out.toClient == Relay(hijack.conn, dial(r.host).conn)
    ensures out.Relaying? ==> w.status == StatusOK && w.body == old(w.body)
    ensures dial(r.host).DialFailed? ==> out == HttpsFatal(dial(r.host).msg)
    ensures dial(r.host).DialFailed? ==> w.status == StatusServiceUnavailable && w.body == old(w.body) + dial(r.host).msg + "\n"
    ensures dial(r.host).Dialed? ==> w.status == StatusOK
    ensures dial(r.host).Dialed? && !w.hijackable ==>
      out == HttpsFatal(HijackUnsupportedErr) && w.body == old(w.body) + HijackUnsupportedText + "\n"
    ensures dial(r.host).Dialed? && w.hijackable && hijack.HijackFailed? ==>
      out == HttpsFatal(hijack.msg) && w.body == old(w.body) + hijack.msg + "\n"
  {
    var destConn, err := ConnectHandshake(w, r, dial);
    if err.Some? {
      w.WriteHeader(StatusInternalServerError);
      return HttpsFatal(err.value);
    }
    var srcConn, err2 := ConnectHijacker(w, hijack);
    if err2.Some? {
      w.WriteHeader(StatusInternalServerError);
      return HttpsFatal(err2.value);
    }
    // the two relay goroutines start here, one per direction
    return Relaying(Relay(destConn, srcConn), Relay(srcConn, destConn));
  }

  /**
   * The two `transfer` calls handleHTTPS starts, run one after the other
   * (one of their interleavings). The first relays the client's bytes to
   * the target if both were open, then closes both ends; the second finds
   * them closed and moves nothing. Since each call closes both of its
   * ends, each connection is closed twice in all.
   */
  method RunRelays(relays: HttpsOutcome)
    requires relays.Relaying?
    requires relays.toTarget.dest != relays.toTarget.src
    requires relays.toClient == Relay(relays.toTarget.src, relays.toTarget.dest)
    modifies relays.toTarget.dest, relays.toTarget.src
    ensures var target, client := relays.toTarget.dest, relays.toTarget.src;
      && target.sent == old(target.sent) + (if old(BothOpen(target, client)) then old(client.pending) else "")
      && client.sent == old(client.sent)
      && target.pending == old(target.pending)
      && target.closes == old(target.closes) + 2
      && client.closes == old(client.closes) + 2
  {
    Transfer(relays.toTarget.dest, relays.toTarget.src);
    assert !BothOpen(relays.toClient.dest, relays.toClient.src);
    Transfer(relays.toClient.dest, relays.toClient.src);
  }

  /**
   * handleHTTP: clears RequestURI, sends the request through a client that
   * never follows redirects, and passes the upstream status, headers and
   * body back; the headers are copied before the status is written.
   * `upstream` is the answer to the request itself, `later` the answers a
   * followed redirect would have received. A redirect whose `Location`
   * does not parse makes the client fail, which is fatal here.
   */
  method HandleHTTP(w: ResponseWriter, r: Request, upstream: Reply, later: seq<Reply>, locationParses: string -> bool)
    returns (out: HttpOutcome)
    requires !w.wroteHeader
    requires upstream.Replied? ==> upstream.resp.header != w.header
    modifies w, w.header, r, ReplyFrame(upstream)
    ensures r.requestURI == ""
    ensures out.sent == Outbound(r.Method, r.url, "", old(r.header.fields), r.body)
    ensures out.Forwarded? <==> upstream.Replied? && !old(BadLocation(upstream, r.body != "", locationParses))
    ensures var reply := old(Do(out.sent, upstream, later, locationParses));
      reply.TransportError? ==>
        && out == HttpFatal(out.sent, reply.msg)
        && w.status == StatusInternalServerError && w.body == old(w.body) + reply.msg + "\n"
    ensures out.Forwarded? ==>
      var resp := upstream.resp;
      && w.status == resp.statusCode
      && w.sentHeader == w.header.fields
      && (Canonical(resp.header.fields) ==> w.sentHeader == Merge(old(w.header.fields), resp.header.fields))
      && TotalValues(w.sentHeader) == TotalValues(old(w.header.fields)) + TotalValues(resp.header.fields)
      && resp.header.fields == old(resp.header.fields)
      && w.body == old(w.body) + resp.body
      && resp.bodyCloses == old(resp.bodyCloses) + 1
  {
    r.requestURI := "";
    var sent := Outbound(r.Method, r.url, r.requestURI, r.header.fields, r.body);
    var reply := Do(sent, upstream, later, locationParses);
    match reply
    case TransportError(msg) =>
      Error(w, msg, StatusInternalServerError);
      return HttpFatal(sent, msg);
    case Replied(resp) =>
      ghost var order := CopyHeaders(w.header, resp.header);
      w.WriteHeader(resp.statusCode);
      w.Write(resp.body);
      resp.CloseBody();
      return Forwarded(sent);
  }

  /** proxy.ServeHTTP: CONNECT goes to the tunnel, every other method is forwarded. */
  method ServeHTTP(w: ResponseWriter, r: Request, dial: string -> DialResult, hijack: HijackResult,
                   upstream: Reply, later: seq<Reply>, locationParses: string -> bool)
    returns (out: Served)
    requires !w.wroteHeader
    requires upstream.Replied? ==> upstream.resp.header != w.header
    modifies w, w.header, r, ReplyFrame(upstream)
    ensures out.ViaHttps? <==> r.Method == MethodConnect
    ensures out.ViaHttps? ==> r.requestURI == old(r.requestURI) && w.header.fields == old(w.header.fields)
    ensures out.ViaHttps? ==> (out.https.Relaying? <==> dial(r.host).Dialed? && w.hijackable && hijack.Hijacked?)
    ensures out.ViaHttp? ==> r.requestURI == "" && out.http.sent.requestURI == ""
    ensures out.ViaHttp? ==> (out.http.Forwarded? <==> upstream.Replied? && !old(BadLocation(upstream, r.body != "", locationParses)))
  {
    if r.Method == MethodConnect {
      var o := HandleHTTPS(w, r, dial, hijack);
      return ViaHttps(o);
    } else {
      var o := HandleHTTP(w, r, upstream, later, locationParses);
      return ViaHttp(o);
    }
  }
}
