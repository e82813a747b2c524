/** Publishing rates: one series per device, at most fifty, and the rest together. */
module Rates {
  import opened Order
  import opened Bytes
  import opened HostTraffic

  const MAX_HOSTS := 50

  function Vel(t: Taxa, side: Side): real { if side == Rx then t.rx else t.tx }

  function Soma(ts: seq<Taxa>, side: Side): real
    decreases |ts|
  {
    if ts == [] then 0.0 else Soma(ts[..|ts| - 1], side) + Vel(ts[|ts| - 1], side)
  }

  /** The rate of one device: it may have several addresses. */
  function SomaDe(ts: seq<Taxa>, mac: string, side: Side): real
    decreases |ts|
  {
    if ts == [] then 0.0
    else
      var t := ts[|ts| - 1];
      SomaDe(ts[..|ts| - 1], mac, side) + if t.mac == mac then Vel(t, side) else 0.0
  }

  function Junta(ts: seq<Taxa>, mac: string): Taxa { Taxa(mac, SomaDe(ts, mac, Rx), SomaDe(ts, mac, Tx)) }

  ghost function Macs(ts: seq<Taxa>): set<string> { set t | t in ts :: t.mac }

  ghost predicate NaoNegativas(ts: seq<Taxa>) { forall t | t in ts :: t.rx >= 0.0 && t.tx >= 0.0 }

  ghost predicate Distintos(ts: seq<Taxa>) { forall i, j | 0 <= i < j < |ts| :: ts[i].mac != ts[j].mac }

  lemma {:induction false} SomaDeAbsent(ts: seq<Taxa>, mac: string, side: Side)
    requires mac !in Macs(ts)
    ensures SomaDe(ts, mac, side) == 0.0
    decreases |ts|
  {
    if ts != [] {
      assert ts[|ts| - 1] in ts;
      SomaDeAbsent(ts[..|ts| - 1], mac, side);
    }
  }

  /** The entries of `lista` are the rates of `ts`, added up by device. */
  ghost predicate Agrupa(lista: seq<Taxa>, ts: seq<Taxa>) {
    && Distintos(lista)
    && Macs(lista) == Macs(ts)
    && forall t | t in lista :: t == Junta(ts, t.mac)
  }

  /** The rates that `ms`, without repetition, take from `ts`. */
  ghost function SomaDosMacs(ms: seq<Taxa>, ts: seq<Taxa>, side: Side): real
    decreases |ms|
  {
    if ms == [] then 0.0
    else SomaDosMacs(ms[..|ms| - 1], ts, side) + SomaDe(ts, ms[|ms| - 1].mac, side)
  }

  lemma {:induction false} OneMoreRate(ms: seq<Taxa>, ts: seq<Taxa>, side: Side)
    requires Distintos(ms) && ts != []
    ensures var n := |ts| - 1;
      SomaDosMacs(ms, ts, side)
        == SomaDosMacs(ms, ts[..n], side) + if ts[n].mac in Macs(ms) then Vel(ts[n], side) else 0.0
    decreases |ms|
  {
    if ms != [] {
      var m := |ms| - 1;
      OneMoreRate(ms[..m], ts, side);
      assert ms == ms[..m] + [ms[m]];
      assert Macs(ms) == Macs(ms[..m]) + {ms[m].mac};
    }
  }

  /** Adding up by device loses nothing, whatever the order of the devices. */
  lemma {:induction false} GroupingKeepsTheSum(ms: seq<Taxa>, ts: seq<Taxa>, side: Side)
    requires Distintos(ms) && Macs(ts) <= Macs(ms)
    ensures SomaDosMacs(ms, ts, side) == Soma(ts, side)
    decreases |ts|
  {
    if ts == [] {
      NothingToTake(ms, ts, side);
    } else {
      var n := |ts| - 1;
      assert ts[n] in ts && Macs(ts[..n]) <= Macs(ts);
      GroupingKeepsTheSum(ms, ts[..n], side);
      OneMoreRate(ms, ts, side);
    }
  }

  lemma {:induction false} NothingToTake(ms: seq<Taxa>, ts: seq<Taxa>, side: Side)
    requires ts == []
    ensures SomaDosMacs(ms, ts, side) == 0.0
    decreases |ms|
  {
    if ms != [] { NothingToTake(ms[..|ms| - 1], ts, side); }
  }

  lemma {:induction false} GroupedSum(lista: seq<Taxa>, ts: seq<Taxa>, side: Side)
    requires forall t | t in lista :: t == Junta(ts, t.mac)
    ensures Soma(lista, side) == SomaDosMacs(lista, ts, side)
    decreases |lista|
  {
    if lista != [] {
      assert lista[|lista| - 1] in lista;
      GroupedSum(lista[..|lista| - 1], ts, side);
    }
  }

  // ----- the ranking

  function TotalOf(t: Taxa): real { t.rx + t.tx }

  /** Largest first; equal ones by label. */
  predicate Antes(a: Taxa, b: Taxa) { TotalOf(a) > TotalOf(b) || (TotalOf(a) == TotalOf(b) && StrLess(a.mac, b.mac)) }

  lemma RankingIsTotal(s: set<Taxa>)
    requires forall x, y | x in s && y in s && x != y :: x.mac != y.mac
    ensures TotalOn(s, Antes)
  {
    forall x, y | x in s && y in s && x != y ensures Antes(x, y) || Antes(y, x) { StrTotal(x.mac, y.mac); }
    forall x ensures !Antes(x, x) { StrTotal(x.mac, x.mac); }
    forall x, y, z | Antes(x, y) && Antes(y, z) ensures Antes(x, z) {
      if StrLess(x.mac, y.mac) && StrLess(y.mac, z.mac) { StrTransitive(x.mac, y.mac, z.mac); }
    }
  }

  // ----- the loops

  /** One more rate: its device's entry grows, or begins with it; the others stay. */
  lemma JuntaSnoc(ts: seq<Taxa>, i: nat)
    requires i < |ts|
    ensures Macs(ts[..i + 1]) == Macs(ts[..i]) + {ts[i].mac}
    ensures forall mac | mac != ts[i].mac :: Junta(ts[..i + 1], mac) == Junta(ts[..i], mac)
    ensures var j := Junta(ts[..i], ts[i].mac);
      Junta(ts[..i + 1], ts[i].mac) == Taxa(ts[i].mac, j.rx + ts[i].rx, j.tx + ts[i].tx)
    ensures ts[i].mac !in Macs(ts[..i]) ==> Junta(ts[..i + 1], ts[i].mac) == ts[i]
  {
    var before, t := ts[..i], ts[i];
    assert ts[..i + 1] == before + [t] && ts[..i + 1][..i] == before;
    if t.mac !in Macs(before) {
      SomaDeAbsent(before, t.mac, Rx);
      SomaDeAbsent(before, t.mac, Tx);
    }
  }

  /** The sums of the rates seen so far, by device. */
  ghost predicate Juntados(juntos: map<string, Taxa>, ts: seq<Taxa>) {
    juntos.Keys == Macs(ts) && forall mac | mac in juntos :: juntos[mac] == Junta(ts, mac)
  }

  lemma JuntadosSnoc(juntos: map<string, Taxa>, ts: seq<Taxa>, i: nat)
    requires i < |ts| && Juntados(juntos, ts[..i])
    ensures var t := ts[i];
      Juntados(
        juntos[t.mac := if t.mac in juntos then Taxa(t.mac, juntos[t.mac].rx + t.rx, juntos[t.mac].tx + t.tx) else t],
        ts[..i + 1])
  {
    JuntaSnoc(ts, i);
  }

  method Juntar(ts: seq<Taxa>) returns (juntos: map<string, Taxa>)
    ensures juntos.Keys == Macs(ts)
    ensures forall mac | mac in juntos :: juntos[mac] == Junta(ts, mac)
  {
    juntos := map[];
    for i := 0 to |ts|
      invariant Juntados(juntos, ts[..i])
    {
      var t := ts[i];
      JuntadosSnoc(juntos, ts, i);
      if t.mac !in juntos {
        juntos := juntos[t.mac := t];
      } else {
        var j := juntos[t.mac];
        juntos := juntos[t.mac := Taxa(t.mac, j.rx + t.rx, j.tx + t.tx)];
      }
    }
    assert ts[..|ts|] == ts;
  }

  /** One list entry a device, largest first. */
  method Ordenar(ts: seq<Taxa>) returns (lista: seq<Taxa>)
    ensures Agrupa(lista, ts)
    ensures forall i, j | 0 <= i < j < |lista| :: Antes(lista[i], lista[j])
  {
    var juntos := Juntar(ts);
    RankingIsTotal(juntos.Values);
    lista := Sort(juntos.Values, Antes);
    forall i, j | 0 <= i < j < |lista| ensures lista[i].mac != lista[j].mac {
      assert lista[i] in juntos.Values && lista[j] in juntos.Values;
      StrTotal(lista[i].mac, lista[i].mac);
    }
    forall mac ensures mac in Macs(lista) <==> mac in Macs(ts) {
      if mac in juntos { assert juntos[mac] in juntos.Values; }
      if mac in Macs(lista) {
        var t :| t in lista && t.mac == mac;
        assert t in juntos.Values;
      }
    }
  }

  /** What was published for the list `lista`: named series, then what is left. */
  ghost predicate Publicada(nomeadas: seq<Taxa>, sobra: Taxa, lista: seq<Taxa>) {
    && (forall t | t in nomeadas :: t in lista && t.mac != OUTROS)
    && (forall i | 0 <= i < |lista| :: lista[i] in nomeadas <==> lista[i].mac != OUTROS && i < MAX_HOSTS)
    && Distintos(nomeadas)
    && |nomeadas| <= MAX_HOSTS
    && sobra.mac == OUTROS
    && forall side :: Soma(nomeadas, side) + Vel(sobra, side) == Soma(lista, side)
  }

  lemma SumStep(a: seq<Taxa>, t: Taxa, side: Side)
    ensures Soma(a + [t], side) == Soma(a, side) + Vel(t, side)
  {
    assert (a + [t])[..|a|] == a;
  }

  lemma OneMoreNamed(nomeadas: seq<Taxa>, sobra: Taxa, pre: seq<Taxa>, t: Taxa)
    requires Publicada(nomeadas, sobra, pre) && t.mac !in Macs(pre)
    requires |nomeadas| <= |pre| < MAX_HOSTS && t.mac != OUTROS
    ensures Publicada(nomeadas + [t], sobra, pre + [t])
  {
    forall side ensures Soma(nomeadas + [t], side) + Vel(sobra, side) == Soma(pre + [t], side) {
      SumStep(pre, t, side);
      SumStep(nomeadas, t, side);
    }
    forall i | 0 <= i < |pre| ensures pre[i].mac != t.mac { assert pre[i] in pre; }
  }

  lemma OneMoreLeft(nomeadas: seq<Taxa>, sobra: Taxa, pre: seq<Taxa>, t: Taxa)
    requires Publicada(nomeadas, sobra, pre) && t.mac !in Macs(pre)
    requires |pre| >= MAX_HOSTS || t.mac == OUTROS
    ensures Publicada(nomeadas, Taxa(OUTROS, sobra.rx + t.rx, sobra.tx + t.tx), pre + [t])
  {
    forall side
      ensures Soma(nomeadas, side) + Vel(Taxa(OUTROS, sobra.rx + t.rx, sobra.tx + t.tx), side) == Soma(pre + [t], side)
    {
      SumStep(pre, t, side);
    }
  }

  /** The next entry of the list is named, or added to what is left. */
  lemma NextEntry(nomeadas: seq<Taxa>, sobra: Taxa, lista: seq<Taxa>, i: nat)
    requires Distintos(lista) && i < |lista| && |nomeadas| <= i && Publicada(nomeadas, sobra, lista[..i])
    ensures var t := lista[i];
      if i >= MAX_HOSTS || t.mac == OUTROS
      then Publicada(nomeadas, Taxa(OUTROS, sobra.rx + t.rx, sobra.tx + t.tx), lista[..i + 1])
      else Publicada(nomeadas + [t], sobra, lista[..i + 1])
  {
    var t := lista[i];
    assert lista[..i + 1] == lista[..i] + [t] && t.mac !in Macs(lista[..i]);
    if i >= MAX_HOSTS || t.mac == OUTROS {
      OneMoreLeft(nomeadas, sobra, lista[..i], t);
    } else {
      OneMoreNamed(nomeadas, sobra, lista[..i], t);
    }
  }

  method Repartir(lista: seq<Taxa>) returns (nomeadas: seq<Taxa>, sobra: Taxa)
    requires Distintos(lista)
    ensures Publicada(nomeadas, sobra, lista)
  {
    nomeadas, sobra := [], Taxa(OUTROS, 0.0, 0.0);
    for i := 0 to |lista|
      invariant |nomeadas| <= i
      invariant Publicada(nomeadas, sobra, lista[..i])
    {
      var t := lista[i];
      NextEntry(nomeadas, sobra, lista, i);
      if i >= MAX_HOSTS || t.mac == OUTROS {
        sobra := Taxa(OUTROS, sobra.rx + t.rx, sobra.tx + t.tx);
      } else {
        nomeadas := nomeadas + [t];
      }
    }
    assert lista[..|lista|] == lista;
  }

  /** The series of one sample: the rest is published when there is one. */
  function Series(nomeadas: seq<Taxa>, sobra: Taxa): seq<Taxa> {
    if sobra.rx > 0.0 || sobra.tx > 0.0 then nomeadas + [sobra] else nomeadas
  }

  /**
   * The published rates add up to the measured ones. Each named series is the rate of one device,
   * there are at most fifty, and no device left out has a higher rate than a named one.
   */
  method Publicar(ts: seq<Taxa>) returns (nomeadas: seq<Taxa>, sobra: Taxa)
    requires NaoNegativas(ts)
    ensures forall side :: Soma(Series(nomeadas, sobra), side) == Soma(ts, side)
    ensures |nomeadas| <= 50 && Distintos(nomeadas) && sobra.mac == OUTROS
    ensures forall t | t in nomeadas :: t.mac != OUTROS && t.mac in Macs(ts) && t == Junta(ts, t.mac)
    ensures forall t, mac | t in nomeadas && mac in Macs(ts) && mac != OUTROS && mac !in Macs(nomeadas) ::
              t.rx + t.tx >= SomaDe(ts, mac, Rx) + SomaDe(ts, mac, Tx)
    ensures |Macs(ts)| <= 50 ==> Macs(nomeadas) == Macs(ts) - {OUTROS}
  {
    var lista := Ordenar(ts);
    nomeadas, sobra := Repartir(lista);
    forall side ensures Soma(Series(nomeadas, sobra), side) == Soma(ts, side) {
      GroupedSum(lista, ts, side);
      GroupingKeepsTheSum(lista, ts, side);
      SumStep(nomeadas, sobra, side);
      LeftOverIsNonNegative(nomeadas, sobra, lista, ts, side);
    }
    Ranked(nomeadas, sobra, lista, ts);
    AllNamed(nomeadas, sobra, lista, ts);
  }

  lemma {:induction false} LeftOverIsNonNegative(nomeadas: seq<Taxa>, sobra: Taxa, lista: seq<Taxa>, ts: seq<Taxa>,
    side: Side)
    requires NaoNegativas(ts) && Agrupa(lista, ts) && Publicada(nomeadas, sobra, lista)
    ensures Vel(sobra, side) >= 0.0
  {
    GroupingKeepsTheSum(lista, ts, side);
    GroupedSum(lista, ts, side);
    GroupedSum(nomeadas, ts, side);
    TakenAtMost(nomeadas, ts, side);
  }

  lemma {:induction false} TakenAtMost(ms: seq<Taxa>, ts: seq<Taxa>, side: Side)
    requires Distintos(ms) && NaoNegativas(ts)
    ensures SomaDosMacs(ms, ts, side) <= Soma(ts, side)
    decreases |ts|
  {
    if ts == [] {
      NothingToTake(ms, ts, side);
    } else {
      assert ts[|ts| - 1] in ts;
      TakenAtMost(ms, ts[..|ts| - 1], side);
      OneMoreRate(ms, ts, side);
    }
  }

  lemma Ranked(nomeadas: seq<Taxa>, sobra: Taxa, lista: seq<Taxa>, ts: seq<Taxa>)
    requires Agrupa(lista, ts) && Publicada(nomeadas, sobra, lista)
    requires forall i, j | 0 <= i < j < |lista| :: Antes(lista[i], lista[j])
    ensures forall t, mac | t in nomeadas && mac in Macs(ts) && mac != OUTROS && mac !in Macs(nomeadas) ::
              TotalOf(t) >= TotalOf(Junta(ts, mac))
  {
    forall t, mac | t in nomeadas && mac in Macs(ts) && mac != OUTROS && mac !in Macs(nomeadas)
      ensures TotalOf(t) >= TotalOf(Junta(ts, mac))
    {
      assert mac in Macs(lista);
      var j :| 0 <= j < |lista| && lista[j].mac == mac;
      var i :| 0 <= i < |lista| && lista[i] == t;
      assert lista[j] !in nomeadas && lista[j] in lista;
      assert i < MAX_HOSTS <= j;
    }
  }

  lemma AllNamed(nomeadas: seq<Taxa>, sobra: Taxa, lista: seq<Taxa>, ts: seq<Taxa>)
    requires Agrupa(lista, ts) && Publicada(nomeadas, sobra, lista)
    ensures |Macs(ts)| <= MAX_HOSTS ==> Macs(nomeadas) == Macs(ts) - {OUTROS}
  {
    AsManyAsMacs(lista);
    if |Macs(ts)| <= MAX_HOSTS {
      forall mac | mac in Macs(ts) - {OUTROS} ensures mac in Macs(nomeadas) {
        assert mac in Macs(lista);
        var j :| 0 <= j < |lista| && lista[j].mac == mac;
        assert lista[j] in nomeadas;
      }
    }
  }

  lemma {:induction false} AsManyAsMacs(ts: seq<Taxa>)
    requires Distintos(ts)
    ensures |Macs(ts)| == |ts|
    decreases |ts|
  {
    if ts != [] {
      var n := |ts| - 1;
      AsManyAsMacs(ts[..n]);
      assert ts == ts[..n] + [ts[n]];
      assert Macs(ts) == Macs(ts[..n]) + {ts[n].mac};
    }
  }
}
