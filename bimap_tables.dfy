/**
 * The two lookup tables of a bimap, as a value, and the effect of each
 * operation on them. Category A is the bimap's first name, B its second.
 * `tableA` maps A-values to B-values (`this[map1]` in the source) and
 * `tableB` maps B-values to A-values (`this[map2]`).
 */
module BimapTables {
  import opened Wrappers

  datatype Tables<V> = Tables(tableA: map<V, V>, tableB: map<V, V>)

  /** One of the two categories. */
  datatype Side = A | B

  /** Both tables start empty. */
  function Empty<V>(): (t: Tables<V>)
    ensures |t.tableA| == 0 && |t.tableB| == 0
  {
    Tables(map[], map[])
  }

  /** The two tables are exact inverses of each other. */
  ghost predicate Inverse<V>(t: Tables<V>) {
    && (forall x :: x in t.tableA ==> t.tableA[x] in t.tableB && t.tableB[t.tableA[x]] == x)
    && (forall y :: y in t.tableB ==> t.tableB[y] in t.tableA && t.tableA[t.tableB[y]] == y)
  }

  /** No two keys of `m` share a value. */
  ghost predicate Injective<V>(m: map<V, V>) {
    forall x, x' :: x in m && x' in m && m[x] == m[x'] ==> x == x'
  }

  /**
   * The accessor `<name>From(key)` of category `side`: it reads the OTHER
   * category's table, so `LookupFrom(t, A, key)` takes a B-value and gives
   * its A-partner.
   */
  function LookupFrom<V>(t: Tables<V>, side: Side, key: V): (r: Option<V>)
    ensures side == A ==> r == Get(t.tableB, key)
    ensures side == B ==> r == Get(t.tableA, key)
  {
    match side
    case A => Get(t.tableB, key)
    case B => Get(t.tableA, key)
  }

  /**
   * The two writes of `add`: `a` now maps to `b` and `b` to `a`. Whatever
   * `a` or `b` was paired with before keeps its own entry.
   */
  function AddPair<V>(t: Tables<V>, a: V, b: V): (r: Tables<V>)
    ensures a in r.tableA && r.tableA[a] == b
    ensures b in r.tableB && r.tableB[b] == a
    ensures r.tableA.Keys == t.tableA.Keys + {a} && r.tableB.Keys == t.tableB.Keys + {b}
    ensures r.tableA - {a} == t.tableA - {a}
    ensures r.tableB - {b} == t.tableB - {b}
  {
    Tables(t.tableA[a := b], t.tableB[b := a])
  }

  /**
   * `remove(side, value)`: the partner `p` of `value` is looked up, `p` is
   * deleted from the other table whatever it maps to there, and `value` is
   * deleted from its own table; `p` is returned. When `value` is absent the
   * tables are unchanged and the result is `None`.
   */
  function RemoveAt<V>(t: Tables<V>, side: Side, value: V): (r: (Tables<V>, Option<V>))
    ensures side == A ==> r.1 == Get(t.tableA, value)
    ensures side == B ==> r.1 == Get(t.tableB, value)
    ensures r.1.None? ==> r.0 == t
    ensures side == A && r.1.Some? ==>
              r.0 == Tables(t.tableA - {value}, t.tableB - {r.1.value})
    ensures side == B && r.1.Some? ==>
              r.0 == Tables(t.tableA - {r.1.value}, t.tableB - {value})
  {
    match side
    case A =>
      var partner := Get(t.tableA, value);
      if partner.None? then (t, None)
      else (Tables(t.tableA - {value}, t.tableB - {partner.value}), partner)
    case B =>
      var partner := Get(t.tableB, value);
      if partner.None? then (t, None)
      else (Tables(t.tableA - {partner.value}, t.tableB - {value}), partner)
  }

  /** After `add(a, b)` each value is found from the other side. */
  lemma AddRoundTrip<V>(t: Tables<V>, a: V, b: V)
    ensures LookupFrom(AddPair(t, a, b), B, a) == Some(b)
    ensures LookupFrom(AddPair(t, a, b), A, b) == Some(a)
  {
  }

  /** Adding the same pair twice is the same as adding it once. */
  lemma AddIdempotent<V>(t: Tables<V>, a: V, b: V)
    ensures AddPair(AddPair(t, a, b), a, b) == AddPair(t, a, b)
  {
  }

  /** `add` keeps the tables inverse when neither value is paired yet. */
  lemma AddFreshPreservesInverse<V>(t: Tables<V>, a: V, b: V)
    requires Inverse(t)
    requires a !in t.tableA && b !in t.tableB
    ensures Inverse(AddPair(t, a, b))
  {
  }

  /**
   * Exactly when `add` keeps inverse tables inverse: both values are new,
   * or the pair is already there. Otherwise the old partner of `a` or of
   * `b` keeps a stale entry pointing at it.
   */
  lemma AddPreservesInverseExactly<V>(t: Tables<V>, a: V, b: V)
    requires Inverse(t)
    ensures Inverse(AddPair(t, a, b)) <==>
              (a !in t.tableA && b !in t.tableB) || (a in t.tableA && t.tableA[a] == b)
  {
  }

  /**
   * Overwriting breaks the inverse: when `a` was paired with `b` and is
   * re-added with `b2`, the reverse entry `b -> a` survives while `a` now
   * maps to `b2`.
   */
  lemma OverwriteLeavesResidue<V>(t: Tables<V>, a: V, b: V, b2: V)
    requires a in t.tableA && t.tableA[a] == b && b in t.tableB && t.tableB[b] == a
    requires b2 != b
    ensures var r := AddPair(t, a, b2);
      b in r.tableB && r.tableB[b] == a && r.tableA[a] == b2 && !Inverse(r)
  {
  }

  /** `remove` keeps the tables inverse when they were inverse before. */
  lemma RemovePreservesInverse<V>(t: Tables<V>, side: Side, value: V)
    requires Inverse(t)
    ensures Inverse(RemoveAt(t, side, value).0)
  {
  }

  /** `add(a, b)` then `remove(A, a)` returns `b` and leaves both lookups absent. */
  lemma AddThenRemove<V>(t: Tables<V>, a: V, b: V)
    ensures var r := RemoveAt(AddPair(t, a, b), A, a);
      r.1 == Some(b) && LookupFrom(r.0, B, a) == None && LookupFrom(r.0, A, b) == None
  {
  }

  /** Inverse tables pair each value with exactly one value of the other side. */
  lemma InverseIsInjective<V>(t: Tables<V>)
    requires Inverse(t)
    ensures Injective(t.tableA) && Injective(t.tableB)
  {
  }

  /** A call of `add` or `remove`, in terms of sides. */
  datatype Op<V> = AddOp(a: V, b: V) | RemoveOp(side: Side, value: V)

  /** The tables after each operation of `ops` in turn. */
  function Replay<V>(t: Tables<V>, ops: seq<Op<V>>): Tables<V>
    decreases |ops|
  {
    if ops == [] then t
    else
      var next := match ops[0]
        case AddOp(a, b) => AddPair(t, a, b)
        case RemoveOp(side, value) => RemoveAt(t, side, value).0;
      Replay(next, ops[1..])
  }

  /** Every `add` of `ops` brings two values that are not yet paired when it runs. */
  ghost predicate FreshAdds<V>(t: Tables<V>, ops: seq<Op<V>>)
    decreases |ops|
  {
    if ops == [] then true
    else match ops[0]
      case AddOp(a, b) => a !in t.tableA && b !in t.tableB && FreshAdds(AddPair(t, a, b), ops[1..])
      case RemoveOp(side, value) => FreshAdds(RemoveAt(t, side, value).0, ops[1..])
  }

  /** Any run of removes and fresh adds keeps the tables inverse. */
  lemma {:induction false} ReplayPreservesInverse<V>(t: Tables<V>, ops: seq<Op<V>>)
    requires Inverse(t)
    requires FreshAdds(t, ops)
    ensures Inverse(Replay(t, ops))
    decreases |ops|
  {
    if ops != [] {
      match ops[0]
      case AddOp(a, b) =>
        AddFreshPreservesInverse(t, a, b);
        ReplayPreservesInverse(AddPair(t, a, b), ops[1..]);
      case RemoveOp(side, value) =>
        RemovePreservesInverse(t, side, value);
        ReplayPreservesInverse(RemoveAt(t, side, value).0, ops[1..]);
    }
  }
}
