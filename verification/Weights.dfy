/** The weighted multipath default route of `internal/balancer/service.go`: which links, and how much each carries. */
module Weights {

  const MAX_KERNEL_WEIGHT := 256
  const DEMOTED_WEIGHT := 1

  datatype Status = Online | Degraded | Other

  datatype Link = Link(
    id: string, gateway: string, interface_: string, weight: int, status: Status, loss: real, latency: real,
      enabled: bool)

  datatype Nexthop = Nexthop(id: string, gateway: string, interface_: string, raw: int, weight: int)

  function ToNexthop(l: Link): Nexthop { Nexthop(l.id, l.gateway, l.interface_, l.weight, 0) }

  // ----- one weight

  /** Go's division, which truncates toward zero. */
  function Quo(a: int, b: int): int
    requires b > 0
  {
    if a >= 0 then a / b else -(-a / b)
  }

  function Rounded(raw: int, maxRaw: int): int
    requires maxRaw > 0
  {
    Quo(raw * MAX_KERNEL_WEIGHT + maxRaw / 2, maxRaw)
  }

  function Scaled(raw: int, maxRaw: int): int {
    if maxRaw <= 0 then 1
    else
      var w := Rounded(raw, maxRaw);
      if w < 1 then 1 else if w > MAX_KERNEL_WEIGHT then MAX_KERNEL_WEIGHT else w
  }

  /** The largest raw weight, or 0. */
  function MaxRaw(ns: seq<Nexthop>): int
    decreases |ns|
  {
    if ns == [] then 0
    else
      var m := MaxRaw(ns[..|ns| - 1]);
      if ns[|ns| - 1].raw > m then ns[|ns| - 1].raw else m
  }

  lemma {:induction false} MaxRawIsLargest(ns: seq<Nexthop>)
    ensures MaxRaw(ns) >= 0 && forall n | n in ns :: n.raw <= MaxRaw(ns)
    ensures MaxRaw(ns) > 0 ==> exists n :: n in ns && n.raw == MaxRaw(ns)
    decreases |ns|
  {
    if ns != [] {
      MaxRawIsLargest(ns[..|ns| - 1]);
      assert ns == ns[..|ns| - 1] + [ns[|ns| - 1]];
    }
  }

  lemma WeightIsInRange(raw: int, maxRaw: int)
    ensures 1 <= Scaled(raw, maxRaw) <= MAX_KERNEL_WEIGHT
  {
  }

  lemma QuotientBounds(a: nat, b: int)
    requires b > 0
    ensures b * (a / b) <= a < b * (a / b) + b && a / b >= 0
  {
  }

  lemma {:induction false} ProductOrder(x: int, y: int, b: int)
    requires x < y && b > 0
    ensures b * x + b <= b * y
    decreases y - x
  {
    assert b * y == b * (y - 1) + b;
    if x < y - 1 { ProductOrder(x, y - 1, b); }
  }

  lemma QuotientOrder(q: int, q': int, b: int, a: int, a': int)
    requires b > 0 && a <= a' && b * q <= a && a' < b * q' + b
    ensures q <= q'
  {
    if q > q' { ProductOrder(q', q, b); }
  }

  lemma DivisionIsMonotone(a: nat, a': nat, b: int)
    requires a <= a' && b > 0
    ensures a / b <= a' / b
  {
    QuotientBounds(a, b);
    QuotientBounds(a', b);
    QuotientOrder(a / b, a' / b, b, a, a');
  }

  lemma QuoIsMonotone(a: int, a': int, b: int)
    requires a <= a' && b > 0
    ensures Quo(a, b) <= Quo(a', b)
  {
    if a >= 0 { DivisionIsMonotone(a, a', b); }
    if a' < 0 { DivisionIsMonotone(-a', -a, b); }
    QuoSign(a, b);
    QuoSign(a', b);
  }

  lemma QuoSign(a: int, b: int)
    requires b > 0
    ensures if a >= 0 then Quo(a, b) >= 0 && Quo(a, b) == a / b else Quo(a, b) <= 0 && Quo(a, b) == -(-a / b)
  {
    if a >= 0 { QuotientBounds(a, b); } else { QuotientBounds(-a, b); }
  }

  /** A larger raw weight never gets a smaller share. */
  lemma WeightIsMonotone(raw: int, raw': int, maxRaw: int)
    requires raw <= raw'
    ensures Scaled(raw, maxRaw) <= Scaled(raw', maxRaw)
  {
    if maxRaw > 0 {
      QuoIsMonotone(raw * MAX_KERNEL_WEIGHT + maxRaw / 2, raw' * MAX_KERNEL_WEIGHT + maxRaw / 2, maxRaw);
    }
  }

  lemma RoundedBounds(raw: nat, maxRaw: int)
    requires maxRaw > 0
    ensures var n := raw * MAX_KERNEL_WEIGHT + maxRaw / 2;
      maxRaw * Rounded(raw, maxRaw) <= n < maxRaw * Rounded(raw, maxRaw) + maxRaw && Rounded(raw, maxRaw) >= 0
  {
    QuotientBounds(raw * MAX_KERNEL_WEIGHT + maxRaw / 2, maxRaw);
  }

  /** The largest gets the whole range. */
  lemma LargestGetsTheWholeRange(maxRaw: int)
    requires maxRaw > 0
    ensures Rounded(maxRaw, maxRaw) == MAX_KERNEL_WEIGHT && Scaled(maxRaw, maxRaw) == MAX_KERNEL_WEIGHT
  {
    RoundedBounds(maxRaw, maxRaw);
    var q := Rounded(maxRaw, maxRaw);
    var n := maxRaw * MAX_KERNEL_WEIGHT + maxRaw / 2;
    QuotientOrder(MAX_KERNEL_WEIGHT, q, maxRaw, maxRaw * MAX_KERNEL_WEIGHT, n);
    QuotientOrder(q, MAX_KERNEL_WEIGHT, maxRaw, n, n);
  }

  function Abs(x: int): nat { if x < 0 then -x else x }

  /** Rounding is to the nearest: within half of the largest raw weight, before the floor at 1. */
  lemma RoundingIsNearest(raw: nat, maxRaw: int)
    requires maxRaw > 0 && raw <= maxRaw
    ensures 2 * Abs(maxRaw * Rounded(raw, maxRaw) - MAX_KERNEL_WEIGHT * raw) <= maxRaw
    ensures Scaled(raw, maxRaw) == if Rounded(raw, maxRaw) == 0 then 1 else Rounded(raw, maxRaw)
  {
    RoundedBounds(raw, maxRaw);
    Nearest(raw, maxRaw, maxRaw * Rounded(raw, maxRaw));
    LargestGetsTheWholeRange(maxRaw);
    QuoIsMonotone(raw * MAX_KERNEL_WEIGHT + maxRaw / 2, maxRaw * MAX_KERNEL_WEIGHT + maxRaw / 2, maxRaw);
  }

  lemma Nearest(raw: nat, maxRaw: int, p: int)
    requires p <= raw * MAX_KERNEL_WEIGHT + maxRaw / 2 < p + maxRaw
    ensures 2 * Abs(p - MAX_KERNEL_WEIGHT * raw) <= maxRaw
  {
  }

  /** The floor at 1 only lifts a link whose share would be less than half a step. */
  lemma FloorLiftsOnlyTheSmallest(raw: nat, maxRaw: int)
    requires maxRaw > 0 && raw <= maxRaw
    ensures Rounded(raw, maxRaw) == 0 <==> raw * MAX_KERNEL_WEIGHT + maxRaw / 2 < maxRaw
  {
    RoundedBounds(raw, maxRaw);
    var q := Rounded(raw, maxRaw);
    if q > 0 { ProductOrder(0, q, maxRaw); }
  }

  // ----- all of them

  function Normalized(ns: seq<Nexthop>): (r: seq<Nexthop>)
    ensures |r| == |ns|
  {
    seq(|ns|, i requires 0 <= i < |ns| => ns[i].(weight := Scaled(ns[i].raw, MaxRaw(ns))))
  }

  method NormalizeWeights(nhs: array<Nexthop>)
    modifies nhs
    ensures nhs[..] == Normalized(old(nhs[..]))
  {
    ghost var was := nhs[..];
    var maxRaw := 0;
    for i := 0 to nhs.Length
      invariant nhs[..] == was && maxRaw == MaxRaw(was[..i])
    {
      assert was[..i + 1][..i] == was[..i];
      if nhs[i].raw > maxRaw { maxRaw := nhs[i].raw; }
    }
    assert was[..nhs.Length] == was;
    for i := 0 to nhs.Length
      invariant forall j | 0 <= j < i :: nhs[j] == was[j].(weight := Scaled(was[j].raw, maxRaw))
      invariant forall j | i <= j < nhs.Length :: nhs[j] == was[j]
    {
      var w := Scale(nhs[i].raw, maxRaw);
      nhs[i] := nhs[i].(weight := w);
    }
  }

  method Scale(raw: int, maxRaw: int) returns (w: int)
    ensures w == Scaled(raw, maxRaw)
  {
    if maxRaw <= 0 { return 1; }
    var n := raw * MAX_KERNEL_WEIGHT + maxRaw / 2;
    w := if n >= 0 then n / maxRaw else -(-n / maxRaw);
    if w < 1 { w := 1; }
    if w > MAX_KERNEL_WEIGHT { w := MAX_KERNEL_WEIGHT; }
  }
}
