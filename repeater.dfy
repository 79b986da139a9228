/**
 * ExecRepReq of repeater/repeater.go: picks the `id` query value, looks
 * the stored request up, rebuilds it and sends it again, then writes the
 * upstream answer back. The library parsers (strconv.Atoi,
 * http.ReadRequest, the URL check of http.NewRequest) are uninterpreted
 * functions passed in; the upstream round trip is an input. Errors the
 * code only logs are followed to where the code goes next: after a failed
 * parse, request construction or round trip, the next line dereferences a
 * nil pointer, which is the `Panicked` outcome.
 */
module Repeater {
  import opened Headers
  import opened NetHttp
  import Db

  const UsageText := "Set id param to query in URL to repeat request\nVisit http://localhost/ for more info\n"
  const WarnText := "WARN: using first ID\n"

  /** Which `id` query value is used, and whether a warning is written first. */
  datatype IdChoice = NoId | FirstId(text: string, warn: bool)

  /** The choice of lines 24-35: none, the only one, or the first of several with a warning. */
  function ChooseId(info: seq<string>): (c: IdChoice)
    ensures c.NoId? <==> |info| == 0
    ensures c.FirstId? ==> c.text == info[0]
    ensures c.FirstId? ==> (c.warn <==> |info| > 1)
  {
    if |info| < 1 then NoId else FirstId(info[0], |info| > 1)
  }

  /** strconv.Atoi's two results: the number (0 or a clamped value on error) and whether it parsed. */
  datatype AtoiResult = AtoiResult(value: int, ok: bool)

  /** http.ReadRequest's result, reduced to the parts the replay uses. */
  datatype ParsedRequest = ParsedRequest(Method: string, header: HeaderMap, body: string) | ParseError(msg: string)

  /** The library and network behaviour a replay runs against. */
  datatype ReplayEnv = ReplayEnv(
    atoi: string -> AtoiResult,
    lookupFails: bool,
    readRequest: string -> ParsedRequest,
    /** Whether http.NewRequest accepts this URL text. */
    acceptsUrl: string -> bool,
    /** The answer to the replayed request itself. */
    upstream: Reply,
    /** The answers a followed redirect would have received. */
    later: seq<Reply>,
    /** Whether the client's URL parser accepts a redirect's `Location`. */
    locationParses: string -> bool)

  /** The EOF error http.ReadRequest reports for an empty dump. */
  const EmptyDumpError := "EOF"

  /**
   * http.ReadRequest on a stored dump: an empty dump has no request line
   * and gives EOF with no request; anything else is up to `readRequest`.
   */
  function ReadRequest(env: ReplayEnv, raw: string): ParsedRequest {
    if raw == "" then ParseError(EmptyDumpError) else env.readRequest(raw)
  }

  /** The line whose nil dereference ends a replay after an error that was only logged. */
  datatype PanicSite = AfterReadRequest | AfterNewRequest | AfterDo

  datatype ReplayOutcome =
    | UsageShown
    | Panicked(id: int, site: PanicSite)
    | Replayed(id: int, sent: Outbound, dumpHeader: HeaderMap)

  /**
   * ExecRepReq. The two CopyHeaders calls run as written, with `to` and
   * `from` swapped: line 59 copies the (always empty) header of the new
   * request into the parsed dump, so the request sent carries no header at
   * all; line 66 copies the caller's response headers into the upstream
   * response, so the caller's header map gains nothing.
   */
  method ExecRepReq(w: ResponseWriter, info: seq<string>, db: Db.Database, env: ReplayEnv)
    returns (out: ReplayOutcome)
    requires !w.wroteHeader
    requires env.upstream.Replied? ==> env.upstream.resp.header != w.header
    modifies w, ReplyFrame(env.upstream)
    ensures out.UsageShown? <==> |info| == 0
    ensures |info| == 0 ==> w.status == StatusOK && w.body == old(w.body) + UsageText
    ensures |info| == 0 ==> ReplyFrame(env.upstream) == {} || unchanged(ReplyFrame(env.upstream))
    ensures |info| > 1 ==> w.status == StatusOK && old(w.body) + WarnText <= w.body
    ensures |info| == 1 ==> old(w.body) <= w.body
    ensures |info| == 1 && out.Panicked? ==> w.body == old(w.body) && w.wroteHeader == old(w.wroteHeader)
    ensures |info| > 1 && out.Panicked? ==> w.body == old(w.body) + WarnText
    ensures out.Panicked? && out.site != AfterDo ==> ReplyFrame(env.upstream) == {} || unchanged(ReplyFrame(env.upstream))
    ensures |info| > 0 && (env.lookupFails || forall i :: 0 <= i < |db.rows| ==> db.rows[i].Id != env.atoi(info[0]).value) ==>
      out == Panicked(env.atoi(info[0]).value, AfterReadRequest)
    ensures !out.UsageShown? ==> out.id == env.atoi(info[0]).value
    ensures out.Replayed? ==>
      var rec := FetchedRecord(db.rows, out.id, env.lookupFails);
      var parsed := ReadRequest(env, rec.Request);
      && parsed.ParsedRequest?
      && out.sent == Outbound(parsed.Method, rec.Host, "", map[], parsed.body)
      && out.dumpHeader == parsed.header
    ensures out.Replayed? <==>
      |info| > 0 && env.upstream.Replied? &&
      var rec := FetchedRecord(db.rows, env.atoi(info[0]).value, env.lookupFails);
      var parsed := ReadRequest(env, rec.Request);
      && parsed.ParsedRequest? && env.acceptsUrl(rec.Host)
      && !old(BadLocation(env.upstream, parsed.body != "", env.locationParses))
    ensures out.Replayed? ==>
      var resp := env.upstream.resp;
      && w.sentHeader == old(w.header.fields)
      && w.header.fields == old(w.header.fields)
      && (Canonical(old(w.header.fields)) ==> resp.header.fields == Merge(old(resp.header.fields), old(w.header.fields)))
      && w.body == old(w.body) + (if |info| > 1 then WarnText else "") + resp.body
      && w.status == (if |info| > 1 then StatusOK else resp.statusCode)
      && resp.bodyCloses == old(resp.bodyCloses) + 1
  {
    var choice := ChooseId(info);
    if choice.NoId? {
      w.Write(UsageText);
      return UsageShown;
    }
    if choice.warn {
      w.Write(WarnText);
    }
    var parsedId := env.atoi(choice.text);
    // a parse error is only logged; parsedId.value is used regardless
    var id := parsedId.value;
    var rec := db.GetReqById(id, env.lookupFails);
    var parsed := ReadRequest(env, rec.Request);
    if parsed.ParseError? {
      return Panicked(id, AfterReadRequest);
    }
    if !env.acceptsUrl(rec.Host) {
      return Panicked(id, AfterNewRequest);
    }
    var sent, dumpHeader, ok := Forward(w, parsed.Method, rec.Host, parsed.header, parsed.body, env.upstream, env.later, env.locationParses);
    if !ok {
      return Panicked(id, AfterDo);
    }
    return Replayed(id, sent, dumpHeader);
  }

  /**
   * Lines 59-69 of ExecRepReq, once the stored request has been parsed and
   * rebuilt: the header copy into the dump, the round trip, and the answer
   * written back. `ok` is false when the round trip failed (a transport
   * error, or a redirect whose `Location` does not parse), where the code
   * goes on to dereference the missing response.
   */
  method Forward(w: ResponseWriter, Method: string, host: string, header: HeaderMap, body: string,
                 upstream: Reply, later: seq<Reply>, locationParses: string -> bool)
    returns (sent: Outbound, dumpHeader: HeaderMap, ok: bool)
    requires upstream.Replied? ==> upstream.resp.header != w.header
    modifies w, ReplyFrame(upstream)
    ensures sent == Outbound(Method, host, "", map[], body)
    ensures dumpHeader == header
    ensures ok <==> upstream.Replied? && !old(BadLocation(upstream, body != "", locationParses))
    ensures !ok ==> w.wroteHeader == old(w.wroteHeader) && w.status == old(w.status) && w.body == old(w.body)
    ensures ok ==>
      var resp := upstream.resp;
      && w.wroteHeader
      && w.header.fields == old(w.header.fields)
      && w.sentHeader == (if old(w.wroteHeader) then old(w.sentHeader) else old(w.header.fields))
      && w.status == (if old(w.wroteHeader) then old(w.status) else resp.statusCode)
      && (Canonical(old(w.header.fields)) ==> resp.header.fields == Merge(old(resp.header.fields), old(w.header.fields)))
      && w.body == old(w.body) + resp.body
      && resp.bodyCloses == old(resp.bodyCloses) + 1
  {
    var dump := new Header(header);
    var reqHeader := new Header(map[]);
    ghost var order1 := CopyHeaders(dump, reqHeader);
    sent := Outbound(Method, host, "", reqHeader.fields, body);
    dumpHeader := dump.fields;
    var reply := Do(sent, upstream, later, locationParses);
    if reply.TransportError? {
      return sent, dumpHeader, false;
    }
    var resp := reply.resp;
    ghost var order2 := CopyHeaders(resp.header, w.header);
    w.WriteHeader(resp.statusCode);
    w.Write(resp.body);
    resp.CloseBody();
    return sent, dumpHeader, true;
  }

  /** What GetReqById hands back for `id`: the row carrying it, else the zero Request. */
  function FetchedRecord(rows: seq<Db.Request>, id: int, lookupFails: bool): Db.Request {
    if lookupFails then Db.ZeroRequest else Db.FindIn(rows, id).GetOr(Db.ZeroRequest)
  }
}
