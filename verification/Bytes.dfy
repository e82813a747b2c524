/** Byte counts by key, and their totals. */
module Bytes {
  /** Bytes received and sent. */
  datatype Delta = Delta(rx: nat, tx: nat)

  const ZERO := Delta(0, 0)

  function Plus(a: Delta, b: Delta): Delta { Delta(a.rx + b.rx, a.tx + b.tx) }

  /** A direction, and the bytes that go that way. */
  datatype Side = Rx | Tx
  function Of(d: Delta, side: Side): nat { if side == Rx then d.rx else d.tx }

  function At<K>(m: map<K, Delta>, k: K): Delta { if k in m then m[k] else ZERO }

  /** `d` more at `k`. */
  function More<K>(m: map<K, Delta>, k: K, d: Delta): map<K, Delta> { m[k := Plus(At(m, k), d)] }

  /** Adding everything of `n` to `m`. */
  function Joined<K>(m: map<K, Delta>, n: map<K, Delta>): map<K, Delta> {
    map k | k in m.Keys + n.Keys :: Plus(At(m, k), At(n, k))
  }

  function If(c: bool, n: nat): nat { if c then n else 0 }

  ghost function Pick<K>(m: map<K, Delta>): (k: K)
    requires m != map[]
    ensures k in m
  {
    assert m.Keys != {};
    var k :| k in m.Keys; k
  }

  function Without<K>(m: map<K, Delta>, k: K): map<K, Delta> { m - {k} }

  lemma Smaller<K>(m: map<K, Delta>, k: K)
    requires k in m
    ensures |Without(m, k)| < |m|
  {
    assert Without(m, k).Keys == m.Keys - {k};
    assert |m.Keys - {k}| < |m.Keys|;
  }

  lemma WithoutBoth<K>(m: map<K, Delta>, j: K, k: K)
    ensures Without(Without(m, j), k) == Without(Without(m, k), j)
  {
  }

  lemma WithoutMore<K>(m: map<K, Delta>, k: K, d: Delta)
    ensures Without(More(m, k, d), k) == Without(m, k)
    ensures k !in m ==> Without(m, k) == m
  {
  }

  lemma JoinedMore<K>(m: map<K, Delta>, n: map<K, Delta>, k: K)
    requires k in n
    ensures Joined(m, n) == More(Joined(m, Without(n, k)), k, n[k])
  {
  }

  /** The bytes, one way, over the keys that satisfy `among`. */
  ghost function Total<K>(m: map<K, Delta>, among: K -> bool, side: Side): nat
    decreases |m|
  {
    if m == map[] then 0
    else
      var k := Pick(m);
      Smaller(m, k);
      If(among(k), Of(m[k], side)) + Total(Without(m, k), among, side)
  }

  /** The sum does not depend on the order of the keys. */
  lemma {:induction false} TotalWithout<K>(m: map<K, Delta>, among: K -> bool, side: Side, k: K)
    requires k in m
    ensures Total(m, among, side) == If(among(k), Of(m[k], side)) + Total(Without(m, k), among, side)
    decreases |m|
  {
    var first := Pick(m);
    if first != k {
      Smaller(m, first);
      Smaller(m, k);
      TotalWithout(Without(m, first), among, side, k);
      TotalWithout(Without(m, k), among, side, first);
      WithoutBoth(m, first, k);
    }
  }

  lemma {:induction false} TotalMore<K>(m: map<K, Delta>, among: K -> bool, side: Side, k: K, d: Delta)
    ensures Total(More(m, k, d), among, side) == Total(m, among, side) + If(among(k), Of(d, side))
  {
    TotalWithout(More(m, k, d), among, side, k);
    WithoutMore(m, k, d);
    if k in m { TotalWithout(m, among, side, k); }
  }

  lemma JoinedNothing<K>(m: map<K, Delta>, n: map<K, Delta>, among: K -> bool, side: Side)
    requires n == map[]
    ensures Total(Joined(m, n), among, side) == Total(m, among, side)
  {
    forall k | k in m ensures Joined(m, n)[k] == m[k] { match m[k] { case Delta(_, _) => } }
    assert Joined(m, n) == m;
  }

  lemma TotalJoinedMore<K>(m: map<K, Delta>, n: map<K, Delta>, among: K -> bool, side: Side, k: K)
    requires k in n
    ensures Total(Joined(m, n), among, side) == Total(Joined(m, Without(n, k)), among, side)
        + If(among(k), Of(n[k], side))
  {
    JoinedMore(m, n, k);
    TotalMore(Joined(m, Without(n, k)), among, side, k, n[k]);
  }

  lemma {:induction false} TotalJoined<K>(m: map<K, Delta>, n: map<K, Delta>, among: K -> bool, side: Side)
    ensures Total(Joined(m, n), among, side) == Total(m, among, side) + Total(n, among, side)
    decreases |n|
  {
    if n == map[] {
      JoinedNothing(m, n, among, side);
    } else {
      var k := Pick(n);
      Smaller(n, k);
      TotalJoined(m, Without(n, k), among, side);
      TotalJoinedMore(m, n, among, side, k);
    }
  }

  lemma {:induction false} TotalOfOthers<K>(m: map<K, Delta>, among: K -> bool, side: Side)
    requires forall k | k in m :: !among(k)
    ensures Total(m, among, side) == 0
    decreases |m|
  {
    if m != map[] {
      Smaller(m, Pick(m));
      TotalOfOthers(Without(m, Pick(m)), among, side);
    }
  }
}
