/**
 * The request table of db/database.go, seen as an abstract append-only
 * store: the rows in insertion order and the AUTOINCREMENT counter of the
 * `requests` schema. The SQLite engine is opaque: whether a statement
 * fails is an input, and every failure the code swallows is modelled as
 * "logged, nothing else".
 */
module Db {
  import opened Wrappers

  /** The largest value of a 64-bit INTEGER primary key. */
  const MaxInt64 := 0x7fff_ffff_ffff_ffff

  /** One row of `requests`, with the fields of db.Request. */
  datatype Request = Request(Host: string, Request: string, Id: int)

  /** The zero db.Request returned when a lookup finds nothing. */
  const ZeroRequest := Request("", "", 0)

  /** Ids strictly increase along the rows, so they also identify the rows. */
  predicate Ascending(rows: seq<Request>) {
    forall i, j :: 0 <= i < j < |rows| ==> rows[i].Id < rows[j].Id
  }

  /** The first row whose id is `id`, if there is one. */
  function FindIn(rows: seq<Request>, id: int): (r: Option<Request>)
    ensures r.Some? ==> r.value in rows && r.value.Id == id
    ensures r.None? <==> forall i :: 0 <= i < |rows| ==> rows[i].Id != id
  {
    if rows == [] then None
    else if rows[0].Id == id then Some(rows[0])
    else FindIn(rows[1..], id)
  }

  /** In an ascending table the row found for an id is the one row carrying it. */
  lemma {:induction false} FindInUnique(rows: seq<Request>, i: int)
    requires Ascending(rows) && 0 <= i < |rows|
    ensures FindIn(rows, rows[i].Id) == Some(rows[i])
  {
    if i > 0 {
      assert rows[0].Id < rows[i].Id;
      assert rows[1..][i - 1] == rows[i];
      FindInUnique(rows[1..], i - 1);
    }
  }

  /** Appending a row leaves every earlier lookup alone and makes the new row findable. */
  lemma {:induction false} FindInAppend(rows: seq<Request>, row: Request, id: int)
    ensures FindIn(rows + [row], id) ==
      if FindIn(rows, id).Some? then FindIn(rows, id)
      else if row.Id == id then Some(row)
      else None
  {
    if rows != [] {
      assert (rows + [row])[1..] == rows[1..] + [row];
      FindInAppend(rows[1..], row, id);
    }
  }

  /**
   * Insert-then-lookup round trip: a row stored under an id larger than
   * every id in the table is what a lookup of that id returns.
   */
  lemma InsertThenFind(rows: seq<Request>, nextId: int, host: string, request: string)
    requires forall i :: 0 <= i < |rows| ==> rows[i].Id < nextId
    ensures FindIn(rows + [Request(host, request, nextId)], nextId) == Some(Request(host, request, nextId))
  {
    FindInAppend(rows, Request(host, request, nextId), nextId);
  }

  /** The outcome of the SELECT behind GetRequestList, as the engine delivers it. */
  datatype Cursor = Cursor(
    /** `Query` itself fails. */
    queryFails: bool,
    /** How many rows `rows.Next` yields before it stops (a stop before the end is an engine error). */
    delivered: nat,
    /** The index of the row whose `Scan` fails (no failure when at least `delivered`). */
    scanFailsAt: nat,
    /** `rows.Close` reports an error. */
    closeFails: bool)

  /** The error GetRequestList passes back: from `Query`, from the `Scan` of a row, or from `rows.Close`. */
  datatype ListFailure = QueryFailed | ScanFailed(row: nat) | CloseFailed

  /** GetRequestList's result: the list, or nil with the error. */
  datatype ListResult = Listed(requests: seq<Request>) | ListError(failure: ListFailure)

  class Database {
    /** The rows in insertion order. */
    var rows: seq<Request>
    /** The id the next successful insert receives: one more than any id ever handed out. */
    var nextId: int

    ghost predicate Valid()
      reads this
    {
      && 1 <= nextId
      && Ascending(rows)
      && forall i :: 0 <= i < |rows| ==> 1 <= rows[i].Id < nextId
    }

    /** A freshly created schema: no rows, the first id will be 1. */
    constructor ()
      ensures Valid() && rows == [] && nextId == 1
    {
      rows, nextId := [], 1;
    }

    /**
     * InsertRequest: stores `Host` and `Request` under a fresh id chosen by
     * the schema (the caller's `Id` is ignored). A failing statement, or an
     * exhausted AUTOINCREMENT counter, is only logged: nothing is stored and
     * the caller is not told.
     */
    method InsertRequest(dbReq: Request, engineFails: bool)
      requires Valid()
      modifies this
      ensures Valid()
      ensures engineFails || old(nextId) > MaxInt64 ==> rows == old(rows) && nextId == old(nextId)
      ensures !engineFails && old(nextId) <= MaxInt64 ==>
        && rows == old(rows) + [Request(dbReq.Host, dbReq.Request, old(nextId))]
        && nextId == old(nextId) + 1
        && (forall i :: 0 <= i < |old(rows)| ==> old(rows)[i].Id < old(nextId))
        && FindIn(rows, old(nextId)) == Some(Request(dbReq.Host, dbReq.Request, old(nextId)))
        && (forall id :: id != old(nextId) ==> FindIn(rows, id) == FindIn(old(rows), id))
    {
      if engineFails || nextId > MaxInt64 {
        // the failure is only logged
        return;
      }
      var row := Request(dbReq.Host, dbReq.Request, nextId);
      InsertThenFind(rows, nextId, dbReq.Host, dbReq.Request);
      forall id ensures FindIn(rows + [row], id) == if FindIn(rows, id).Some? then FindIn(rows, id)
                                                     else if row.Id == id then Some(row) else None {
        FindInAppend(rows, row, id);
      }
      rows := rows + [row];
      nextId := nextId + 1;
    }

    /**
     * GetReqById: the stored row with that id; on a miss (or a failing
     * query) the zero Request, after a log line.
     */
    method GetReqById(id: int, engineFails: bool) returns (r: Request)
      ensures engineFails ==> r == ZeroRequest
      ensures !engineFails ==> r == FindIn(rows, id).GetOr(ZeroRequest)
      ensures (forall i :: 0 <= i < |rows| ==> rows[i].Id != id) ==> r == ZeroRequest
      ensures !engineFails && (exists i :: 0 <= i < |rows| && rows[i].Id == id) ==>
        r in rows && r.Id == id
      ensures !engineFails && Ascending(rows) ==>
        forall i :: 0 <= i < |rows| && rows[i].Id == id ==> r == rows[i]
    {
      var found := FindIn(rows, id);
      if engineFails || found.None? {
        // the failure is only logged
        return ZeroRequest;
      }
      r := found.value;
      if Ascending(rows) {
        forall i | 0 <= i < |rows| && rows[i].Id == id ensures r == rows[i] {
          FindInUnique(rows, i);
        }
      }
    }

    /**
     * GetRequestList: one entry per row `rows.Next` yields, in table order;
     * a failing query, scan or close gives nil and the error, never part of
     * a list. `rows.Err` is not consulted, so a cursor that stops early
     * yields a shorter list without an error.
     */
    method GetRequestList(c: Cursor) returns (r: ListResult)
      ensures r.Listed? <==>
        !c.queryFails && !c.closeFails && c.scanFailsAt >= Min(c.delivered, |rows|)
      ensures r.Listed? ==> r.requests == rows[..Min(c.delivered, |rows|)]
      ensures c.queryFails ==> r == ListError(QueryFailed)
      ensures !c.queryFails && c.scanFailsAt < Min(c.delivered, |rows|) ==> r == ListError(ScanFailed(c.scanFailsAt))
      ensures !c.queryFails && c.scanFailsAt >= Min(c.delivered, |rows|) && c.closeFails ==> r == ListError(CloseFailed)
      ensures !c.queryFails && !c.closeFails && c.delivered >= |rows| && c.scanFailsAt >= |rows| ==>
        r == Listed(rows)
      ensures r.Listed? && Ascending(rows) ==> Ascending(r.requests)
    {
      if c.queryFails {
        return ListError(QueryFailed);
      }
      var n := Min(c.delivered, |rows|);
      var requests: seq<Request> := [];
      var i := 0;
      while i < n
        invariant 0 <= i <= n
        invariant i <= c.scanFailsAt
        invariant requests == rows[..i]
      {
        if i == c.scanFailsAt {
          return ListError(ScanFailed(i));
        }
        requests := requests + [rows[i]];
        i := i + 1;
      }
      if c.closeFails {
        return ListError(CloseFailed);
      }
      assert rows[..|rows|] == rows;
      return Listed(requests);
    }
  }

  function Min(a: int, b: int): int {
    if a < b then a else b
  }
}
