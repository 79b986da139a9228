/**
 * Header multimaps (Go's http.Header) and the in-place merge `CopyHeaders`
 * of utils/utils.go, together with the field-name canonicalisation that
 * `Header.Add` applies to every key.
 */
module Headers {

  /** Field name to the values received under it, in arrival order. */
  type HeaderMap = map<string, seq<string>>

  // ---------------------------------------------------------------------
  // Field-name canonicalisation (net/textproto CanonicalMIMEHeaderKey)
  // ---------------------------------------------------------------------

  /** The bytes allowed in a header field name (RFC 7230 `tchar`). */
  predicate IsTokenChar(c: char) {
    ('a' <= c <= 'z') || ('A' <= c <= 'Z') || ('0' <= c <= '9') || c in "!#$%&'*+-.^_`|~"
  }

  function ToUpper(c: char): char {
    if 'a' <= c <= 'z' then (c as int - 32) as char else c
  }

  function ToLower(c: char): char {
    if 'A' <= c <= 'Z' then (c as int + 32) as char else c
  }

  /** Upper-cases the first letter and every letter after a hyphen, lower-cases the rest. */
  function CanonFrom(s: string, upper: bool): (r: string)
    ensures |r| == |s|
  {
    if s == [] then []
    else
      var c := if upper then ToUpper(s[0]) else ToLower(s[0]);
      [c] + CanonFrom(s[1..], c == '-')
  }

  predicate AllTokenChars(s: string) {
    forall i :: 0 <= i < |s| ==> IsTokenChar(s[i])
  }

  /** A name holding any byte outside the token set is left alone; any other is canonicalised. */
  function Canon(key: string): string {
    if AllTokenChars(key) then CanonFrom(key, true) else key
  }

  lemma {:induction false} CanonFromKeepsTokens(s: string, upper: bool)
    requires AllTokenChars(s)
    ensures AllTokenChars(CanonFrom(s, upper))
  {
    if s != [] {
      var c := if upper then ToUpper(s[0]) else ToLower(s[0]);
      CanonFromKeepsTokens(s[1..], c == '-');
      var r := CanonFrom(s, upper);
      forall i | 0 <= i < |r| ensures IsTokenChar(r[i]) {
        if i > 0 {
          assert r[i] == CanonFrom(s[1..], c == '-')[i - 1];
        }
      }
    }
  }

  lemma {:induction false} CanonFromIdempotent(s: string, upper: bool)
    ensures CanonFrom(CanonFrom(s, upper), upper) == CanonFrom(s, upper)
  {
    if s != [] {
      var c := if upper then ToUpper(s[0]) else ToLower(s[0]);
      var tail := CanonFrom(s[1..], c == '-');
      var r := CanonFrom(s, upper);
      assert r == [c] + tail;
      assert r[0] == c && r[1..] == tail;
      assert (if upper then ToUpper(c) else ToLower(c)) == c;
      CanonFromIdempotent(s[1..], c == '-');
    }
  }

  /** Canonicalising twice changes nothing: every key `Add` writes is itself canonical. */
  lemma CanonIdempotent(key: string)
    ensures Canon(Canon(key)) == Canon(key)
  {
    if AllTokenChars(key) {
      CanonFromKeepsTokens(key, true);
      CanonFromIdempotent(key, true);
    }
  }

  /** Every key of `m` is in canonical form, as in any header map filled by net/http. */
  predicate Canonical(m: HeaderMap) {
    forall k :: k in m ==> Canon(k) == k
  }

  // ---------------------------------------------------------------------
  // The specification of the merge
  // ---------------------------------------------------------------------

  function ValuesOf(m: HeaderMap, key: string): seq<string> {
    if key in m then m[key] else []
  }

  /** `m` after `Add(key, v)` for each `v` of `vs` in turn (no call at all when `vs` is empty). */
  function AddValues(m: HeaderMap, key: string, vs: seq<string>): HeaderMap {
    if vs == [] then m
    else
      var c := Canon(key);
      m[c := ValuesOf(m, c) + vs]
  }

  /** `m` after every value of every key of `from` was added, keys visited in `order`. */
  function AddAll(m: HeaderMap, from: HeaderMap, order: seq<string>): HeaderMap
    requires forall i :: 0 <= i < |order| ==> order[i] in from
  {
    if order == [] then m
    else
      var last := order[|order| - 1];
      AddValues(AddAll(m, from, order[..|order| - 1]), last, from[last])
  }

  /**
   * The reference meaning of "append every value of `from` to `to`":
   * each key keeps its old values, followed by those of `from`, nothing
   * deduplicated; a key of `from` without values adds no key.
   */
  function Merge(to: HeaderMap, from: HeaderMap): HeaderMap {
    map k | k in to.Keys + Populated(from) :: ValuesOf(to, k) + ValuesOf(from, k)
  }

  /** The keys of `m` that hold at least one value. */
  function Populated(m: HeaderMap): set<string> {
    set k | k in m && m[k] != []
  }

  function Elems(order: seq<string>): set<string> {
    set i | 0 <= i < |order| :: order[i]
  }

  function Restrict(from: HeaderMap, keys: set<string>): HeaderMap {
    map k | k in from.Keys && k in keys :: from[k]
  }

  predicate Distinct(order: seq<string>) {
    forall i, j :: 0 <= i < j < |order| ==> order[i] != order[j]
  }

  /** `order` visits every key of `keys` exactly once: one run of Go's `range` over a map. */
  predicate IsVisitOrder(order: seq<string>, keys: set<string>) {
    && Distinct(order)
    && (forall i :: 0 <= i < |order| ==> order[i] in keys)
    && keys <= Elems(order)
  }

  /** The number of values held under all keys together. */
  ghost function TotalValues(m: HeaderMap): nat
    decreases |m|
  {
    if m == map[] then 0
    else
      var k :| k in m;
      assert |m - {k}| < |m| by { assert (m - {k}).Keys == m.Keys - {k}; }
      |m[k]| + TotalValues(m - {k})
  }

  // ---------------------------------------------------------------------
  // Lemmas
  // ---------------------------------------------------------------------

  lemma ElemsSnoc(pre: seq<string>, last: string)
    ensures Elems(pre + [last]) == Elems(pre) + {last}
  {
    var order := pre + [last];
    forall k | k in Elems(order) ensures k in Elems(pre) + {last} {
      var i :| 0 <= i < |order| && order[i] == k;
      if i < |pre| { assert pre[i] == k; }
    }
    assert order[|pre|] == last;
    forall k | k in Elems(pre) ensures k in Elems(order) {
      var i :| 0 <= i < |pre| && pre[i] == k;
      assert order[i] == k;
    }
  }

  /** Visiting one more, not yet visited, key extends the order and the fold by that key. */
  lemma VisitOneMore(m: HeaderMap, from: HeaderMap, order: seq<string>, h: string)
    requires Distinct(order) && h in from && h !in Elems(order)
    requires forall i :: 0 <= i < |order| ==> order[i] in from
    ensures Distinct(order + [h])
    ensures forall i :: 0 <= i < |order + [h]| ==> (order + [h])[i] in from
    ensures Elems(order + [h]) == Elems(order) + {h}
    ensures AddAll(m, from, order + [h]) == AddValues(AddAll(m, from, order), h, from[h])
  {
    var o := order + [h];
    assert o[..|order|] == order;
    forall i | 0 <= i < |order| ensures order[i] != h {
      assert order[i] in Elems(order);
    }
    ElemsSnoc(order, h);
  }

  /** The last key of a duplicate-free order is not among the ones before it. */
  lemma LastIsNew(order: seq<string>)
    requires Distinct(order) && order != []
    ensures order[|order| - 1] !in Elems(order[..|order| - 1])
    ensures Distinct(order[..|order| - 1])
    ensures Elems(order) == Elems(order[..|order| - 1]) + {order[|order| - 1]}
  {
    var n := |order| - 1;
    forall k | k in Elems(order[..n]) ensures k != order[n] {
      var i :| 0 <= i < n && order[..n][i] == k;
      assert order[i] == k;
    }
    assert order == order[..n] + [order[n]];
    ElemsSnoc(order[..n], order[n]);
  }

  /** Merging one more canonical key, absent so far, appends its values after the old ones of `to`. */
  lemma MergeOneMore(to: HeaderMap, part: HeaderMap, key: string, vs: seq<string>)
    requires key !in part && Canon(key) == key
    ensures Merge(to, part[key := vs]) == AddValues(Merge(to, part), key, vs)
  {
    if vs == [] {
      assert Merge(to, part[key := vs]) == Merge(to, part);
    } else {
      assert Merge(to, part[key := vs]) == Merge(to, part)[key := ValuesOf(to, key) + vs];
      assert ValuesOf(Merge(to, part), key) == ValuesOf(to, key);
    }
  }

  /** Adding the values of one more, not yet visited, canonical key extends the merge by that key. */
  lemma MergeStep(to: HeaderMap, from: HeaderMap, seen: set<string>, last: string)
    requires last in from && Canon(last) == last && last !in seen
    ensures AddValues(Merge(to, Restrict(from, seen)), last, from[last])
         == Merge(to, Restrict(from, seen + {last}))
  {
    assert Restrict(from, seen + {last}) == Restrict(from, seen)[last := from[last]];
    MergeOneMore(to, Restrict(from, seen), last, from[last]);
  }

  /**
   * With canonical keys in `from`, visiting keys in any duplicate-free order
   * appends to each visited key exactly that key's values.
   */
  lemma {:induction false} AddAllIsMerge(to: HeaderMap, from: HeaderMap, order: seq<string>)
    requires Canonical(from) && Distinct(order)
    requires forall i :: 0 <= i < |order| ==> order[i] in from
    ensures AddAll(to, from, order) == Merge(to, Restrict(from, Elems(order)))
  {
    if order == [] {
      assert Restrict(from, Elems(order)) == map[];
      forall k | k in to ensures Merge(to, map[])[k] == to[k] {
        assert ValuesOf(to, k) + [] == to[k];
      }
      assert Merge(to, map[]) == to;
    } else {
      var n := |order| - 1;
      LastIsNew(order);
      AddAllIsMerge(to, from, order[..n]);
      MergeStep(to, from, Elems(order[..n]), order[n]);
    }
  }

  /** A full visit of canonical keys yields `Merge`, whatever order Go's map iteration picked. */
  lemma VisitIsMerge(to: HeaderMap, from: HeaderMap, order: seq<string>)
    requires Canonical(from) && IsVisitOrder(order, from.Keys)
    ensures AddAll(to, from, order) == Merge(to, from)
  {
    AddAllIsMerge(to, from, order);
    assert Restrict(from, Elems(order)) == from;
  }

  /** What one complete run of the key loop does to `to`, for any order the runtime picks. */
  lemma FullVisit(to: HeaderMap, from: HeaderMap, order: seq<string>)
    requires IsVisitOrder(order, from.Keys)
    ensures Canonical(from) ==> AddAll(to, from, order) == Merge(to, from)
    ensures from == map[] ==> AddAll(to, from, order) == to
    ensures TotalValues(AddAll(to, from, order)) == TotalValues(to) + TotalValues(from)
    ensures Canonical(to) ==> Canonical(AddAll(to, from, order))
  {
    if Canonical(from) {
      VisitIsMerge(to, from, order);
    }
    if from == map[] {
      VisitIsMerge(to, from, order);
      forall k | k in to ensures Merge(to, from)[k] == to[k] {
        assert ValuesOf(to, k) + [] == to[k];
      }
      assert Merge(to, from) == to;
    }
    TotalAddAll(to, from, order);
    assert Restrict(from, Elems(order)) == from;
    if Canonical(to) {
      AddAllKeepsCanonical(to, from, order);
    }
  }

  /** The merge does not depend on the order in which canonical keys are visited. */
  lemma OrderIndependent(to: HeaderMap, from: HeaderMap, order1: seq<string>, order2: seq<string>)
    requires Canonical(from)
    requires IsVisitOrder(order1, from.Keys) && IsVisitOrder(order2, from.Keys)
    ensures AddAll(to, from, order1) == AddAll(to, from, order2)
  {
    VisitIsMerge(to, from, order1);
    VisitIsMerge(to, from, order2);
  }

  /**
   * Key by key, a full copy of canonical keys appends `from[k]` to the old
   * values of `k` (duplicates kept), keeps the old values of every key as a
   * prefix, leaves keys missing from `from` alone and adds no other key.
   */
  lemma CopyPerKey(to: HeaderMap, from: HeaderMap, order: seq<string>)
    requires Canonical(from) && IsVisitOrder(order, from.Keys)
    ensures forall k :: k in from && from[k] != [] ==>
      k in AddAll(to, from, order) && AddAll(to, from, order)[k] == ValuesOf(to, k) + from[k]
    ensures forall k :: k in to ==> k in AddAll(to, from, order) && to[k] <= AddAll(to, from, order)[k]
    ensures forall k :: k in to && k !in from ==> AddAll(to, from, order)[k] == to[k]
    ensures forall k :: k in AddAll(to, from, order) ==> k in to || k in from
  {
    VisitIsMerge(to, from, order);
    forall k | k in to && k !in from ensures Merge(to, from)[k] == to[k] {
      assert ValuesOf(from, k) == [];
    }
  }

  /** Removing any one key takes away exactly its values from the total. */
  lemma {:induction false} TotalRemove(m: HeaderMap, k: string)
    requires k in m
    ensures TotalValues(m) == |m[k]| + TotalValues(m - {k})
    decreases |m|
  {
    var j :| j in m && TotalValues(m) == |m[j]| + TotalValues(m - {j});
    if j != k {
      assert (m - {j}).Keys == m.Keys - {j};
      assert (m - {k}).Keys == m.Keys - {k};
      TotalRemove(m - {j}, k);
      TotalRemove(m - {k}, j);
      assert m - {j} - {k} == m - {k} - {j};
    }
  }

  lemma TotalAddValues(m: HeaderMap, key: string, vs: seq<string>)
    ensures TotalValues(AddValues(m, key, vs)) == TotalValues(m) + |vs|
  {
    if vs != [] {
      var c := Canon(key);
      var r := AddValues(m, key, vs);
      TotalRemove(r, c);
      assert r[c] == ValuesOf(m, c) + vs;
      if c in m {
        TotalRemove(m, c);
        assert r - {c} == m - {c};
      } else {
        assert r - {c} == m;
      }
    }
  }

  /** Adding values one at a time is adding them all in order. */
  lemma AddValuesSnoc(m: HeaderMap, key: string, vs: seq<string>, v: string)
    ensures AddValues(AddValues(m, key, vs), key, [v]) == AddValues(m, key, vs + [v])
  {
    var c := Canon(key);
    if vs != [] {
      assert ValuesOf(AddValues(m, key, vs), c) == ValuesOf(m, c) + vs;
      assert ValuesOf(m, c) + vs + [v] == ValuesOf(m, c) + (vs + [v]);
    } else {
      assert vs + [v] == [v];
    }
  }

  /** Each visited key adds exactly its own number of values to the total. */
  lemma {:induction false} TotalAddAll(to: HeaderMap, from: HeaderMap, order: seq<string>)
    requires Distinct(order)
    requires forall i :: 0 <= i < |order| ==> order[i] in from
    ensures TotalValues(AddAll(to, from, order)) == TotalValues(to) + TotalValues(Restrict(from, Elems(order)))
  {
    if order == [] {
      assert Restrict(from, Elems(order)) == map[];
    } else {
      var n := |order| - 1;
      var pre, last := order[..n], order[n];
      LastIsNew(order);
      TotalAddAll(to, from, pre);
      TotalAddValues(AddAll(to, from, pre), last, from[last]);
      var r := Restrict(from, Elems(order));
      TotalRemove(r, last);
      assert r - {last} == Restrict(from, Elems(pre));
    }
  }

  /** Adding under canonical names keeps a canonical map canonical. */
  lemma {:induction false} AddAllKeepsCanonical(m: HeaderMap, from: HeaderMap, order: seq<string>)
    requires Canonical(m)
    requires forall i :: 0 <= i < |order| ==> order[i] in from
    ensures Canonical(AddAll(m, from, order))
  {
    if order != [] {
      var n := |order| - 1;
      AddAllKeepsCanonical(m, from, order[..n]);
      CanonIdempotent(order[n]);
    }
  }

  // ---------------------------------------------------------------------
  // The mutable header map and the merge itself
  // ---------------------------------------------------------------------

  /** An http.Header: a map the code updates in place through `Add`. */
  class Header {
    var fields: HeaderMap

    constructor (fields: HeaderMap)
      ensures this.fields == fields
    {
      this.fields := fields;
    }

    /** Appends `value` to the values of the canonical form of `key`. */
    method Add(key: string, value: string)
      modifies this
      ensures fields == AddValues(old(fields), key, [value])
    {
      var c := Canon(key);
      fields := fields[c := ValuesOf(fields, c) + [value]];
    }
  }

  /**
   * utils.CopyHeaders: for every key of `from` (in the order Go's map
   * iteration happens to pick, returned as `order`), `Add` every one of
   * its values to `to`, in order.
   */
  method CopyHeaders(to: Header, from: Header) returns (ghost order: seq<string>)
    requires to != from
    modifies to
    ensures from.fields == old(from.fields)
    ensures IsVisitOrder(order, from.fields.Keys)
    ensures to.fields == AddAll(old(to.fields), from.fields, order)
    ensures Canonical(from.fields) ==> to.fields == Merge(old(to.fields), from.fields)
    ensures from.fields == map[] ==> to.fields == old(to.fields)
    ensures TotalValues(to.fields) == TotalValues(old(to.fields)) + TotalValues(from.fields)
    ensures Canonical(old(to.fields)) ==> Canonical(to.fields)
  {
    ghost var start := to.fields;
    var src := from.fields;
    var remaining := src.Keys;
    order := [];
    while remaining != {}
      invariant Distinct(order)
      invariant forall i :: 0 <= i < |order| ==> order[i] in src
      invariant remaining == src.Keys - Elems(order)
      invariant to.fields == AddAll(start, src, order)
      decreases remaining
    {
      var h :| h in remaining;
      var vv := src[h];
      ghost var before := to.fields;
      for i := 0 to |vv|
        invariant to.fields == AddValues(before, h, vv[..i])
      {
        to.Add(h, vv[i]);
        AddValuesSnoc(before, h, vv[..i], vv[i]);
        assert vv[..i + 1] == vv[..i] + [vv[i]];
      }
      assert vv[..|vv|] == vv;
      VisitOneMore(start, src, order, h);
      order := order + [h];
      remaining := remaining - {h};
    }
    assert src.Keys <= Elems(order) by {
      forall k | k in src.Keys ensures k in Elems(order) {
        assert k !in remaining;
      }
    }
    FullVisit(start, src, order);
  }
}
