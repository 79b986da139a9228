# homework_security proxy core, modelled in Dafny

The system is a small intercepting HTTP/HTTPS proxy, and it has a replay
endpoint. This project models its core:

- **Header multimap merge** (`headers.dfy`). `utils.CopyHeaders` appends, in
  place, every value of one `http.Header` to another through `Header.Add`.
  `Add` canonicalises the key: it upper-cases the first letter and every
  letter after `-`, lower-cases the rest, and leaves a key with a non-token
  byte alone. Go's map iteration order is unspecified, so the loop picks
  keys nondeterministically and hands back the order it used as a ghost
  value. The lemmas prove the following:
  - the result is the reference merge `Merge`;
  - the result is independent of the visit order;
  - the value count adds up;
  - canonical form is kept.
- **net/http stand-ins** (`nethttp.dfy`). These are only the behaviour the
  handlers depend on:
  - a response writer whose first status wins (a `Write` implies status 200)
    and which snapshots the header map it sends;
  - a client `Do` that refuses a request still carrying a `RequestURI`. Its
    redirect loop is modelled over the chain of answers the successive
    requests would receive. A 301, 302 or 303, or a 307 or 308 to a
    request without a body, with a non-empty `Location` asks for a redirect.
    The client parses that `Location` first, and a `Location` that does not
    parse makes `Do` fail. Only then does the `CheckRedirect` hook both
    handlers install (`ErrUseLastResponse`) stop the loop at the first answer;
  - raw connections that count their `Close` calls; a closed connection
    neither yields nor accepts bytes.
- **The proxy** (`proxy.dfy`, main.go).
  - `ServeHTTP` sends CONNECT to the tunnel path and everything else to the
    forwarding path.
  - The tunnel path writes 503 when the dial fails and 200 when it succeeds.
    It then hijacks the connection and starts one relay per direction only
    when both steps succeed. On a failing hijack `http.Error` asks for 500,
    which is ignored because 200 was already written. `log.Fatal` is a
    `HttpsFatal` / `HttpFatal` outcome.
  - The writer's `status` and `body` are what a handler asked to send.
    After `log.Fatal` the process exits before the buffered response is
    flushed, so the client need not receive them.
  - The forwarding path clears `RequestURI`, copies the upstream headers
    before writing the status, and passes status and body through.
- **The request table** (`database.dfy`, db/database.go).
  - It is an append-only store: rows in insertion order plus the
    `AUTOINCREMENT` counter of the `requests` schema.
  - Insert failures are swallowed.
  - A lookup miss yields the zero `Request`.
  - Listing is a `rows.Next()` loop. Whether the engine fails, and where,
    is a `Cursor` input.
- **The replayer** (`repeater.dfy`, repeater/repeater.go). It chooses the
  `id` query value, looks up the stored record, rebuilds the request and
  sends it, then writes the answer back.
  - `strconv.Atoi`, `http.ReadRequest` and the URL check of
    `http.NewRequest` are uninterpreted function parameters.
  - An error the code only logs is followed through to what the code does
    next. After a failed parse, request build or round trip, that is a
    nil-pointer dereference, modelled as `Panicked`. One fact about
    `http.ReadRequest` is built in: an empty dump gives `EOF` and no request.

Behaviour of the code worth knowing (the model follows the code):

- **`transfer` closes connections twice.** It closes both of its ends once.
  Two `transfer` calls are started over the same two connections, so each
  connection is closed twice in total, and whichever call ends first cuts
  the other direction off.
- **The replayed request carries no headers.** At repeater/repeater.go:59
  the header copy runs from the new request's (empty) header into the
  parsed dump.
- **The caller gets none of the upstream headers.** Line 66 copies the
  caller's headers into the upstream response. It does not copy the other
  way.
- **The upstream status is lost when several `id` values are given.** The
  warning is written first, which commits status 200.
- **A failing hijack still answers 200 on the tunnel path.** The handshake
  has already written 200, so the later 500s are ignored.
- **A missing record does not produce an error response.** A missing or
  unparsable record makes `ExecRepReq` dereference nil (the `Panicked`
  outcome), not write an error.

## Model

| member | source | states |
|---|---|---|
| Headers.CanonIdempotent | utils/utils.go:8 | canonicalising a field name twice gives the same name as once, so keys `Add` stores stay put under later `Add`s |
| Headers.Header.Add | utils/utils.go:8 | `Add(key, v)` appends `v` after the existing values of the canonical form of `key`; every other key is untouched |
| Headers.CopyHeaders | utils/utils.go:5-11 | `from` is unchanged; the loop visits every key of `from` exactly once, in some order, adding each value in order. With canonical keys the result is the reference merge. An empty `from` leaves `to` unchanged. The total value count of `to` grows by exactly that of `from`. Canonical keys stay canonical |
| Headers.CopyPerKey | utils/utils.go:6-10 | per key: `to[k]` becomes its old values followed by `from[k]`, no value deduplicated; old values stay a prefix; keys absent from `from` are unchanged; no other key appears |
| Headers.OrderIndependent | utils/utils.go:6 | any two visit orders of canonical keys produce the same map |
| Headers.FullVisit | utils/utils.go:6-10 | one complete visit in any order yields the merge (canonical keys), leaves `to` alone for an empty `from`, adds up the value counts and keeps canonical keys |
| Headers.TotalAddAll | utils/utils.go:6-10 | adding the values of the visited keys grows the total value count by exactly their number |
| Headers.AddAllIsMerge | utils/utils.go:6-10 | after visiting part of the keys, `to` is the merge of `from` restricted to the keys visited so far |
| Proxy.CopyHeaders | main.go:19-25 | `copyHeaders` has exactly the contract of `utils.CopyHeaders`: same append-merge, `from` untouched |
| NetHttp.ResponseWriter.WriteHeader | main.go:34 | only the first status written takes effect, and it fixes the header map sent |
| NetHttp.ResponseWriter.Write | main.go:112 | writing a body appends to it and, if no status was written yet, commits 200 |
| NetHttp.Do | main.go:93-100 | a request still carrying a server `RequestURI` is refused with a url.Error naming the method and URL. Otherwise the answer to the request itself is returned, whatever redirects follow it in the chain, exactly when it is not a redirect whose `Location` fails to parse; such a redirect gives a transport error naming that `Location` |
| NetHttp.FollowStopsAtFirstFinal | main.go:93-97 | when the hook lets redirects be followed, the loop stops at the first answer that does not ask for a redirect or whose `Location` fails to parse, or at the last one. It returns that answer, or the parse error in the second case |
| NetHttp.RedirectPassedThrough | main.go:93-97 | for a redirect with a parsable `Location` followed by a final answer, following gives the final answer, but `Do` returns the redirect itself |
| NetHttp.UnparsableLocationFails | main.go:93-100 | a redirect whose `Location` does not parse makes `Do` fail with the parse error before the hook is consulted, and following the chain fails the same way |
| NetHttp.BodyKeepsTemporaryRedirect | main.go:93-100 | a 307 or 308 answer to a request with a body is returned as it is, by `Do` and when following, whatever its `Location` |
| Proxy.ConnectHandshake | main.go:27-36 | the dial goes to the requested host; a failed dial writes 503 and the error text, and returns no connection with the error; a successful dial writes 200 and returns the connection |
| Proxy.ConnectHijacker | main.go:38-52 | a writer that is not a Hijacker gets 500 with "Hijacking not supported" and the error "hijacking not supported"; a failing Hijack gets 500 with its error; otherwise the hijacked connection is returned and nothing is written |
| Proxy.Transfer | main.go:54-59 | when both connections are open, everything the source yields reaches the destination in order; when either is already closed, nothing moves. Then both connections are closed exactly once each |
| Proxy.RunRelays | main.go:83-84 | run one after the other, the first relay carries the client's bytes to the target (if both were open) and closes both ends, so the second carries nothing; each connection is closed twice in all, once by each `transfer` |
| Proxy.HandleHTTPS | main.go:61-87 | the two relays (target to client and client to target) start exactly when the dial to the requested host and the hijack both succeed. A dial failure is fatal with status 503. Once the dial succeeds the status is 200 whatever the hijack does, and a hijack failure is fatal with its message in the body |
| Proxy.HandleHTTP | main.go:89-115 | `RequestURI` is cleared before sending. A transport error, including a redirect whose `Location` does not parse, writes 500 and is fatal. Otherwise the upstream headers are merged into the writer's map before the status is sent, the status written is exactly the upstream's, the body is passed through, and the upstream body is closed once |
| Proxy.ServeHTTP | main.go:117-123 | the tunnel path is taken exactly when the method is CONNECT, the forwarding path for every other method |
| Repeater.ChooseId | repeater/repeater.go:24-35 | no `id` value means no choice; otherwise the first value is used, with a warning exactly when there is more than one |
| Repeater.ExecRepReq | repeater/repeater.go:15-71 | with no `id`, the usage text is written and nothing is looked up or sent. With several, the warning is written first and the status stays 200. The lookup id is the `Atoi` value even when parsing failed. A lookup miss or a failing query ends in the nil dereference after `ReadRequest`, with nothing sent. On a panicking path nothing beyond the warning (with several `id`s) is written. A replay happens exactly when the stored dump parses, its host is accepted as a URL and the round trip succeeds (an upstream answer that is not a redirect with an unparsable `Location`). The replayed request has the dump's method and body, the stored host as its whole URL, and no header. The caller's header map gains nothing, and its headers are merged into the upstream response. With one `id` the upstream status is written. The upstream body is appended and closed once |
| Repeater.Forward | repeater/repeater.go:59-69 | the outbound request carries no header while the parsed dump's header is unchanged; a failed round trip, including a redirect whose `Location` does not parse, changes nothing written; otherwise the first status wins, the writer's map is sent as it was and merged into the response, and the body is passed through |
| Db.FindIn | db/database.go:94-96 | the row found carries the id asked for and is in the table; nothing is found exactly when no row carries the id |
| Db.FindInUnique | db/database.go:16-23 | with ascending ids, looking up a row's id returns that very row |
| Db.FindInAppend | db/database.go:53-58 | appending a row leaves every earlier lookup result unchanged and makes the new row findable under its id if no earlier row had it |
| Db.InsertThenFind | db/database.go:53-58 | a row stored under an id larger than all existing ids is what a lookup of that id returns |
| Db.Database.InsertRequest | db/database.go:53-64 | `Host` and `Request` are stored under a fresh id, larger than every earlier id, and the counter advances; a failing statement stores nothing and is not reported to the caller |
| Db.Database.GetReqById | db/database.go:92-103 | for a stored id, the row with that id, `Host` and `Request`; for a missing id or a failing query, the zero `Request` |
| Db.Database.GetRequestList | db/database.go:66-90 | a failing query, scan or close gives nil and that error (which row's scan failed), never a partial list. Otherwise one entry per row delivered, in table order: the whole table (an empty one gives an empty list) when the engine delivers every row |

## Left out

- Network I/O: `net.DialTimeout`, `Hijack`, the bytes `io.Copy` moves and `http.Client.Do` are opaque results passed in (`DialResult`, `HijackResult`, `Conn.pending`, `Reply`).
- The two relay goroutines run concurrently; their interleaving is not modelled. Only their start and `Transfer`'s per-call close contract are.
- `http.ReadRequest`, the URL parsing of `http.NewRequest` and `strconv.Atoi` are uninterpreted functions; the grammar of the stored dump (section 3 of RFC 7230) is not modelled.
- The SQLite engine: `sql.Open`, the `os.Stat` check, schema creation, `Database.Close` (db/database.go:31-51, 105-110) and the per-request open and deferred close in repeater/repeater.go:16-22 are not modelled. Whether a statement fails is an input.
- `main()` flag parsing and TLS server start-up (main.go:125-157) are not part of this model.
- Logging and printing (`fmt.Println`, `logrus`, `uuid`) have no effect on the model.
- `log.Fatal` ends the process. It is an outcome of the handler, and nothing after it is modelled.
- A panic in `ExecRepReq` is the `Panicked` outcome. What `net/http` does when it recovers from the panic is not modelled.
- `http.Error` also sets `Content-Type` and `X-Content-Type-Options` headers. Only its status and body are modelled.
- The response writer's 1xx informational statuses and its panic on out-of-range codes are not modelled.
- Record capture: nothing in the modelled files calls `InsertRequest` or builds a raw dump.
- Bodies and connection payloads are strings, not byte slices.
- NetHttp.Copy: a failing write is not modelled, so everything the source yields always reaches the destination; `io.Copy` would stop at the first failed write.
- NetHttp.Do: the `%q` escaping of the URL inside the url.Error text is written as plain double quotes.
- NetHttp.Do: the parse error for a bad `Location` omits the url.Error prefix and the URL parser's own detail.
- NetHttp.Do: when a `Location` does not parse, the client also closes the redirect's body; that close is not counted.
- Whether a `Location` parses is an uninterpreted input (`locationParses`); URL syntax and resolution against the request URL are not modelled.
- A request "has a body" when its body is non-empty; neither handler's request can be rewound (no `GetBody`), so a 307 or 308 to it is never followed.
- The default redirect limit (10 hops) of a client without a `CheckRedirect` hook is not modelled; neither handler uses that client.
- Proxy.RunRelays: the two relays run one after the other, one of their interleavings. In a concurrent run both directions can carry bytes until the first `transfer` ends and closes both connections; how much each carries then depends on timing and is not modelled.
- Headers.CopyHeaders: with non-canonical keys in `from`, two keys may fold onto one. The result is then stated as the fold `AddAll` in the visit order taken; no order-independent form is given.
- Db.Database.GetRequestList: `rows.Err` is never consulted, so a cursor that stops early gives a shorter list with no error. The model states this as written and does not promise the whole table in that case.
