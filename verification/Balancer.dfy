/** Which links the default route of `internal/balancer/service.go` uses, and what each carries. */
module Balancer {
  import opened Options
  import opened Weights

  ghost predicate UniqueIds(ls: seq<Link>) { forall i, j | 0 <= i < j < |ls| :: ls[i].id != ls[j].id }

  predicate Configured(l: Link) { l.enabled && l.gateway != "" && l.interface_ != "" }

  /** Whether an interface is up; when that is not known, nothing is filtered. */
  predicate IsUp(up: Option<set<string>>, interface_: string) { up == None || interface_ in up.value }

  predicate Usable(up: Option<set<string>>, l: Link) { Configured(l) && IsUp(up, l.interface_) }

  /** Shown as excluded: not usable, unless there is nothing in it to show. */
  predicate Shown(up: Option<set<string>>, l: Link) { !Usable(up, l) && (l.gateway != "" || l.interface_ != "") }

  /** The links of `ls` that satisfy `p`, in order. */
  function Filter(ls: seq<Link>, p: Link -> bool): seq<Link>
    decreases |ls|
  {
    if ls == [] then []
    else Filter(ls[..|ls| - 1], p) + if p(ls[|ls| - 1]) then [ls[|ls| - 1]] else []
  }

  function Nexthops(ls: seq<Link>): (r: seq<Nexthop>)
    ensures |r| == |ls|
  {
    seq(|ls|, i requires 0 <= i < |ls| => ToNexthop(ls[i]))
  }

  function UsableOnes(all: seq<Link>, up: Option<set<string>>): seq<Link> { Filter(all, (l: Link) => Usable(up, l)) }

  predicate LessDegraded(a: Link, b: Link) { a.loss < b.loss || (a.loss == b.loss && a.latency < b.latency) }

  ghost predicate AnyWith(ups: seq<Link>, s: Status) { exists l :: l in ups && l.status == s }

  /** `best` is a least degraded link; which one, among equals, is not promised. */
  ghost predicate LeastDegraded(ups: seq<Link>, best: Link) {
    best in ups && best.status == Degraded && forall l | l in ups && l.status == Degraded :: !LessDegraded(l, best)
  }

  /** The ids of the links that carry the traffic. */
  ghost predicate PrimaryOnes(ups: seq<Link>, primary: set<string>) {
    if AnyWith(ups, Online) then primary == set l | l in ups && l.status == Online :: l.id
    else if AnyWith(ups, Degraded) then exists best :: LeastDegraded(ups, best) && primary == {best.id}
    else primary == set l | l in ups :: l.id
  }

  function Carriers(ups: seq<Link>, primary: set<string>): seq<Nexthop> {
    Nexthops(Filter(ups, (l: Link) => l.id in primary))
  }

  function WeightOf(ups: seq<Link>, primary: set<string>, l: Link): int {
    if l.id in primary then Scaled(l.weight, MaxRaw(Carriers(ups, primary))) else DEMOTED_WEIGHT
  }

  /** Every usable link, in order, carries its share. */
  ghost predicate Chosen(chosen: seq<Nexthop>, ups: seq<Link>, primary: set<string>) {
    && |chosen| == |ups|
    && forall i | 0 <= i < |ups| :: chosen[i] == Carrying(ups, primary, ups[i])
  }

  function Carrying(ups: seq<Link>, primary: set<string>, l: Link): Nexthop {
    ToNexthop(l).(weight := WeightOf(ups, primary, l))
  }

  // ----- filters

  lemma FilterStep(ls: seq<Link>, p: Link -> bool, l: Link)
    ensures Filter(ls + [l], p) == Filter(ls, p) + if p(l) then [l] else []
  {
    assert (ls + [l])[..|ls|] == ls;
  }

  /** The filter keeps exactly the links that satisfy `p`. */
  lemma {:induction false} FilterKeeps(ls: seq<Link>, p: Link -> bool)
    ensures forall l :: l in Filter(ls, p) <==> l in ls && p(l)
    decreases |ls|
  {
    if ls != [] {
      var n := |ls| - 1;
      FilterKeeps(ls[..n], p);
      assert ls == ls[..n] + [ls[n]];
    }
  }

  /** The filter keeps the order. */
  lemma {:induction false} FilterOrder(ls: seq<Link>, p: Link -> bool) returns (at: seq<nat>)
    ensures |at| == |Filter(ls, p)|
    ensures forall i | 0 <= i < |at| :: at[i] < |ls| && ls[at[i]] == Filter(ls, p)[i]
    ensures forall i, j | 0 <= i < j < |at| :: at[i] < at[j]
    decreases |ls|
  {
    at := [];
    if ls != [] {
      var n := |ls| - 1;
      at := FilterOrder(ls[..n], p);
      if p(ls[n]) { at := OneMorePosition(ls[..n], Filter(ls[..n], p), at, ls[n], n); }
      assert ls == ls[..n] + [ls[n]];
    }
  }

  /** `at` says where the links of `q` are in `ls`, in order. */
  ghost predicate Positions(ls: seq<Link>, q: seq<Link>, at: seq<nat>) {
    && |at| == |q| && (forall i | 0 <= i < |at| :: at[i] < |ls| && ls[at[i]] == q[i])
    && forall i, j | 0 <= i < j < |at| :: at[i] < at[j]
  }

  lemma OneMorePosition(ls: seq<Link>, q: seq<Link>, at: seq<nat>, l: Link, n: nat) returns (more: seq<nat>)
    requires Positions(ls, q, at) && n == |ls|
    ensures Positions(ls + [l], q + [l], more)
  {
    more := at + [n];
  }

  lemma UniqueFilter(ls: seq<Link>, p: Link -> bool)
    requires UniqueIds(ls)
    ensures UniqueIds(Filter(ls, p))
  {
    var at := FilterOrder(ls, p);
  }

  /** Enabled, with a gateway and an interface, and the interface is up, or it is not known which are. */
  predicate CanCarry(up: Option<set<string>>, l: Link) {
    l.enabled && l.gateway != "" && l.interface_ != "" && (up.Some? ==> l.interface_ in up.value)
  }

  /** A link is in the route exactly when it is enabled, configured and up. */
  lemma InRouteIffUsable(all: seq<Link>, up: Option<set<string>>, l: Link)
    ensures l in UsableOnes(all, up) <==> l in all && CanCarry(up, l)
  {
    FilterKeeps(all, (x: Link) => Usable(up, x));
  }

  /** And it is shown as excluded exactly when it cannot carry and has a gateway or an interface to show. */
  lemma ExcludedIffItCannotCarry(all: seq<Link>, up: Option<set<string>>, l: Link)
    ensures l in Filter(all, (x: Link) => Shown(up, x))
       <==> l in all && !CanCarry(up, l) && (l.gateway != "" || l.interface_ != "")
  {
    FilterKeeps(all, (x: Link) => Shown(up, x));
  }

  /** With no link online the carrier is a degraded one: none loses less, and none that loses as little is faster. */
  lemma DegradedCarrierIsTheBest(ups: seq<Link>, primary: set<string>) returns (best: Link)
    requires PrimaryOnes(ups, primary) && (forall l | l in ups :: l.status != Online)
    requires exists l :: l in ups && l.status == Degraded
    ensures best in ups && best.status == Degraded && primary == {best.id}
    ensures forall l | l in ups && l.status == Degraded ::
              best.loss <= l.loss && (best.loss == l.loss ==> best.latency <= l.latency)
  {
    best :| LeastDegraded(ups, best) && primary == {best.id};
    forall l | l in ups && l.status == Degraded
      ensures best.loss <= l.loss && (best.loss == l.loss ==> best.latency <= l.latency)
    {
      assert !LessDegraded(l, best);
    }
  }

  /** While a link is online, exactly the online ones carry; when none is online or degraded, they all do. */
  lemma WhoCarries(ups: seq<Link>, primary: set<string>, l: Link)
    requires UniqueIds(ups) && PrimaryOnes(ups, primary) && l in ups
    ensures (exists x :: x in ups && x.status == Online) ==> (l.id in primary <==> l.status == Online)
    ensures (forall x | x in ups :: x.status == Other) ==> l.id in primary
  {
    if x :| x in ups && x.status == Online && l.id in primary {
      assert AnyWith(ups, Online);
      var y :| y in ups && y.status == Online && y.id == l.id;
      SameId(ups, y, l);
    }
  }

  /** The leg of a link has its gateway and its interface. */
  lemma LegOfItsLink(chosen: seq<Nexthop>, ups: seq<Link>, primary: set<string>, i: nat)
    requires Chosen(chosen, ups, primary) && i < |ups|
    ensures |chosen| == |ups| && chosen[i].id == ups[i].id
    ensures chosen[i].gateway == ups[i].gateway && chosen[i].interface_ == ups[i].interface_
    ensures ups[i].id !in primary ==> chosen[i].weight == 1
  {
  }

  // ----- what the weights promise

  lemma SomeoneCarries(ups: seq<Link>, primary: set<string>)
    requires ups != [] && PrimaryOnes(ups, primary)
    ensures exists l :: l in ups && l.id in primary
  {
    if AnyWith(ups, Online) {
      var l :| l in ups && l.status == Online;
      assert l.id in primary;
    } else if AnyWith(ups, Degraded) {
      var best :| LeastDegraded(ups, best) && primary == {best.id};
      assert best in ups && best.id in primary;
    } else {
      assert ups[0] in ups && ups[0].id in primary;
    }
  }

  lemma CarrierOf(ups: seq<Link>, primary: set<string>, l: Link)
    requires l in ups && l.id in primary
    ensures ToNexthop(l) in Carriers(ups, primary) && l.weight <= MaxRaw(Carriers(ups, primary))
  {
    var p := (x: Link) => x.id in primary;
    FilterKeeps(ups, p);
    var i :| 0 <= i < |Filter(ups, p)| && Filter(ups, p)[i] == l;
    assert Carriers(ups, primary)[i] == ToNexthop(l);
    MaxRawIsLargest(Carriers(ups, primary));
  }

  /** Every nexthop of the route has a weight that the kernel takes, and no link carries nothing. */
  lemma EveryWeightIsValid(chosen: seq<Nexthop>, ups: seq<Link>, primary: set<string>, i: nat)
    requires Chosen(chosen, ups, primary) && i < |chosen|
    ensures 1 <= chosen[i].weight <= MAX_KERNEL_WEIGHT
  {
    WeightIsInRange(ups[i].weight, MaxRaw(Carriers(ups, primary)));
  }

  /** Among carriers, a larger raw weight never carries less. */
  lemma CarriersKeepTheirOrder(chosen: seq<Nexthop>, ups: seq<Link>, primary: set<string>, i: nat, j: nat)
    requires Chosen(chosen, ups, primary) && i < |chosen| && j < |chosen|
    requires ups[i].id in primary && ups[j].id in primary && ups[i].weight <= ups[j].weight
    ensures chosen[i].weight <= chosen[j].weight
  {
    WeightIsMonotone(ups[i].weight, ups[j].weight, MaxRaw(Carriers(ups, primary)));
  }

  /** A carrier's weight is its raw weight scaled to 256, to the nearest, unless the floor lifted it to 1. */
  lemma CarriersKeepTheirRatios(chosen: seq<Nexthop>, ups: seq<Link>, primary: set<string>, i: nat)
    requires Chosen(chosen, ups, primary) && i < |chosen| && ups[i].id in primary && ups[i].weight >= 0
    ensures var m := MaxRaw(Carriers(ups, primary)); var raw := ups[i].weight;
      m > 0 ==>
        if raw * MAX_KERNEL_WEIGHT + m / 2 < m then chosen[i].weight == 1
        else 2 * Abs(m * chosen[i].weight - MAX_KERNEL_WEIGHT * raw) <= m
  {
    assert ups[i] in ups;
    CarrierOf(ups, primary, ups[i]);
    var m := MaxRaw(Carriers(ups, primary));
    if m > 0 {
      RoundingIsNearest(ups[i].weight, m);
      FloorLiftsOnlyTheSmallest(ups[i].weight, m);
    }
  }

  function TotalWeight(ns: seq<Nexthop>): int
    decreases |ns|
  {
    if ns == [] then 0 else TotalWeight(ns[..|ns| - 1]) + ns[|ns| - 1].weight
  }

  function Demoted(ups: seq<Link>, primary: set<string>): nat
    decreases |ups|
  {
    if ups == [] then 0
    else Demoted(ups[..|ups| - 1], primary) + if ups[|ups| - 1].id in primary then 0 else 1
  }

  /** `ups` spread over `chosen`, with the weights of `whole`. */
  lemma {:induction false} TotalAtLeast(chosen: seq<Nexthop>, ups: seq<Link>, primary: set<string>, heavy: bool)
    requires |chosen| == |ups|
    requires forall i | 0 <= i < |ups| :: chosen[i].weight >= 1 && (ups[i].id !in primary ==> chosen[i].weight == 1)
    requires heavy ==> exists i :: 0 <= i < |ups| && ups[i].id in primary && chosen[i].weight == MAX_KERNEL_WEIGHT
    ensures TotalWeight(chosen) >= Demoted(ups, primary) + if heavy then MAX_KERNEL_WEIGHT else 0
    decreases |ups|
  {
    if ups != [] {
      var n := |ups| - 1;
      var last := ups[n].id in primary && chosen[n].weight == MAX_KERNEL_WEIGHT;
      TotalAtLeast(chosen[..n], ups[..n], primary, heavy && !last);
    }
  }

  /** With a carrier of positive raw weight, `k` demoted links carry at most k/(256+k) of the traffic. */
  lemma DemotedCarryLittle(chosen: seq<Nexthop>, ups: seq<Link>, primary: set<string>)
    requires Chosen(chosen, ups, primary) && MaxRaw(Carriers(ups, primary)) > 0
    ensures TotalWeight(chosen) >= MAX_KERNEL_WEIGHT + Demoted(ups, primary)
    ensures var k := Demoted(ups, primary);
      (k * DEMOTED_WEIGHT) as real / TotalWeight(chosen) as real <= k as real / (MAX_KERNEL_WEIGHT + k) as real
  {
    var m := MaxRaw(Carriers(ups, primary));
    var p := (x: Link) => x.id in primary;
    MaxRawIsLargest(Carriers(ups, primary));
    var n :| n in Carriers(ups, primary) && n.raw == m;
    var c :| 0 <= c < |Carriers(ups, primary)| && Carriers(ups, primary)[c] == n;
    var l := Filter(ups, p)[c];
    FilterKeeps(ups, p);
    assert l in ups && l.id in primary && l.weight == m;
    var i :| 0 <= i < |ups| && ups[i] == l;
    LargestGetsTheWholeRange(m);
    assert chosen[i].weight == MAX_KERNEL_WEIGHT;
    forall j: nat | j < |chosen| ensures chosen[j].weight >= 1 { EveryWeightIsValid(chosen, ups, primary, j); }
    TotalAtLeast(chosen, ups, primary, true);
    Fraction(Demoted(ups, primary), TotalWeight(chosen), MAX_KERNEL_WEIGHT + Demoted(ups, primary));
  }

  lemma Fraction(k: nat, t: int, u: int)
    requires t >= u > 0
    ensures k as real / t as real <= k as real / u as real
  {
    var a, b, c := k as real, t as real, u as real;
    var x := a / b;
    assert x * b == a && x >= 0.0;
    assert x * c <= a;
    assert (x * c) / c == x;
  }

  // ----- the selection

  /** Splits the links into those the route uses and those shown as excluded. */
  method Split(all: seq<Link>, up: Option<set<string>>) returns (ups: seq<Link>, excluded: seq<Nexthop>)
    ensures ups == UsableOnes(all, up)
    ensures excluded == Nexthops(Filter(all, (l: Link) => Shown(up, l)))
  {
    ups, excluded := [], [];
    ghost var usable, shown := (l: Link) => Usable(up, l), (l: Link) => Shown(up, l);
    for i := 0 to |all|
      invariant ups == Filter(all[..i], usable)
      invariant excluded == Nexthops(Filter(all[..i], shown))
    {
      var l := all[i];
      assert all[..i + 1] == all[..i] + [l];
      FilterStep(all[..i], usable, l);
      CarriersStep(all[..i], shown, l);
      if !l.enabled || l.gateway == "" || l.interface_ == "" {
        if l.gateway != "" || l.interface_ != "" { excluded := excluded + [ToNexthop(l)]; }
      } else if !IsUp(up, l.interface_) {
        excluded := excluded + [ToNexthop(l)];
      } else {
        ups := ups + [l];
      }
    }
    assert all[..|all|] == all;
  }

  /** All healthy links; else one least degraded link; else every link that is up. */
  method Elect(ups: seq<Link>) returns (primary: set<string>)
    ensures PrimaryOnes(ups, primary)
  {
    var healthy: set<string>, best, others: set<string> := {}, None, {};
    for i := 0 to |ups|
      invariant healthy == set l | l in ups[..i] && l.status == Online :: l.id
      invariant others == set l | l in ups[..i] && l.status == Other :: l.id
      invariant if best.Some? then LeastDegraded(ups[..i], best.value) else !AnyWith(ups[..i], Degraded)
    {
      var l := ups[i];
      assert ups[..i + 1] == ups[..i] + [l];
      match l.status
      case Online => healthy := healthy + {l.id};
      case Degraded => if best == None || LessDegraded(l, best.value) { best := Some(l); }
      case Other => others := others + {l.id};
    }
    assert ups[..|ups|] == ups;
    if healthy != {} {
      primary := healthy;
    } else if best.Some? {
      primary := {best.value.id};
      NoneOnline(ups, healthy);
    } else {
      primary := others;
      NoneOnline(ups, healthy);
    }
  }

  lemma NoneOnline(ups: seq<Link>, healthy: set<string>)
    requires healthy == set l | l in ups && l.status == Online :: l.id
    requires healthy == {}
    ensures !AnyWith(ups, Online)
  {
    forall l | l in ups && l.status == Online ensures l.id in healthy {}
  }

  lemma {:induction false} CarriersStep(ls: seq<Link>, p: Link -> bool, l: Link)
    ensures Nexthops(Filter(ls + [l], p)) == Nexthops(Filter(ls, p)) + if p(l) then [ToNexthop(l)] else []
  {
    FilterStep(ls, p, l);
  }

  /** The weights of the carriers, by link. */
  method CarrierWeights(ups: seq<Link>, primary: set<string>) returns (weightById: map<string, int>)
    requires UniqueIds(ups)
    ensures forall l | l in ups :: l.id in weightById <==> l.id in primary
    ensures forall l | l in ups && l.id in primary :: weightById[l.id] == WeightOf(ups, primary, l)
  {
    var carriers: seq<Nexthop> := [];
    ghost var p := (l: Link) => l.id in primary;
    for i := 0 to |ups|
      invariant carriers == Nexthops(Filter(ups[..i], p))
    {
      assert ups[..i + 1] == ups[..i] + [ups[i]];
      CarriersStep(ups[..i], p, ups[i]);
      if ups[i].id in primary { carriers := carriers + [ToNexthop(ups[i])]; }
    }
    assert ups[..|ups|] == ups;
    var nhs := new Nexthop[|carriers|](i requires 0 <= i < |carriers| => carriers[i]);
    assert nhs[..] == carriers;
    NormalizeWeights(nhs);
    var ns := nhs[..];
    weightById := map[];
    for i := 0 to |ns|
      invariant forall id :: id in weightById <==> exists j :: 0 <= j < i && ns[j].id == id
      invariant forall id | id in weightById ::
                  exists j :: 0 <= j < i && ns[j].id == id && weightById[id] == ns[j].weight
    {
      weightById := weightById[ns[i].id := ns[i].weight];
    }
    WeightsById(ups, primary, ns, weightById);
  }

  lemma WeightsById(ups: seq<Link>, primary: set<string>, ns: seq<Nexthop>, weightById: map<string, int>)
    requires UniqueIds(ups) && ns == Normalized(Carriers(ups, primary))
    requires forall id :: id in weightById <==> exists j :: 0 <= j < |ns| && ns[j].id == id
    requires forall id | id in weightById ::
               exists j :: 0 <= j < |ns| && ns[j].id == id && weightById[id] == ns[j].weight
    ensures forall l | l in ups :: l.id in weightById <==> l.id in primary
    ensures forall l | l in ups && l.id in primary :: weightById[l.id] == WeightOf(ups, primary, l)
  {
    var p := (l: Link) => l.id in primary;
    var q := Filter(ups, p);
    FilterKeeps(ups, p);
    forall l | l in ups ensures l.id in weightById <==> l.id in primary {
      if l.id in primary {
        var j :| 0 <= j < |q| && q[j] == l;
        assert ns[j].id == l.id;
      }
      if l.id in weightById {
        var j :| 0 <= j < |ns| && ns[j].id == l.id;
        assert q[j] in q;
      }
    }
    forall l | l in ups && l.id in primary ensures weightById[l.id] == WeightOf(ups, primary, l) {
      var j :| 0 <= j < |ns| && ns[j].id == l.id && weightById[l.id] == ns[j].weight;
      assert q[j] in q;
      SameId(ups, q[j], l);
    }
  }

  lemma SameId(ls: seq<Link>, a: Link, b: Link)
    requires UniqueIds(ls) && a in ls && b in ls && a.id == b.id
    ensures a == b
  {
    var i :| 0 <= i < |ls| && ls[i] == a;
    var j :| 0 <= j < |ls| && ls[j] == b;
    assert i == j;
  }

  method SelectNexthops(all: seq<Link>, up: Option<set<string>>)
    returns (chosen: seq<Nexthop>, excluded: seq<Nexthop>, ghost primary: set<string>)
    requires UniqueIds(all)
    ensures excluded == Nexthops(Filter(all, (l: Link) => Shown(up, l)))
    ensures PrimaryOnes(UsableOnes(all, up), primary)
    ensures Chosen(chosen, UsableOnes(all, up), primary)
  {
    var ups;
    ups, excluded := Split(all, up);
    UniqueFilter(all, (l: Link) => Usable(up, l));
    var elected := Elect(ups);
    primary := elected;
    var weightById := CarrierWeights(ups, elected);
    chosen := WithWeights(ups, elected, weightById);
  }

  method WithWeights(ups: seq<Link>, ghost primary: set<string>, weightById: map<string, int>)
    returns (chosen: seq<Nexthop>)
    requires forall l | l in ups :: l.id in weightById <==> l.id in primary
    requires forall l | l in ups && l.id in primary :: weightById[l.id] == WeightOf(ups, primary, l)
    ensures Chosen(chosen, ups, primary)
  {
    chosen := [];
    for i := 0 to |ups|
      invariant |chosen| == i
      invariant forall j | 0 <= j < i :: chosen[j] == Carrying(ups, primary, ups[j])
    {
      var l := ups[i];
      assert l in ups;
      var w := if l.id in weightById then weightById[l.id] else DEMOTED_WEIGHT;
      assert w == WeightOf(ups, primary, l);
      chosen := chosen + [ToNexthop(l).(weight := w)];
    }
  }
}
