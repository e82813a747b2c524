/** Whole runs of the sampler: what reaches a device's quota is what its addresses were credited. */
module SamplerRuns {
  import opened Options
  import opened Bytes
  import opened HostQuota
  import opened HostTraffic
  import opened Sampling

  /** What the round after `h` credits for an address. */
  function CreditoApos(h: seq<Rodada>, r: Rodada, ip: string): Option<Credito> {
    CreditoDe(Lembrado(Visoes(h, ip)), Visao(r, ip))
  }

  /** The credits of the round after `h`, in some order of its addresses. */
  function CreditosApos(ordem: seq<string>, h: seq<Rodada>, r: Rodada): seq<Credito>
    decreases |ordem|
  {
    if ordem == [] then []
    else
      var c := CreditoApos(h, r, ordem[|ordem| - 1]);
      CreditosApos(ordem[..|ordem| - 1], h, r) + if c.Some? then [c.value] else []
  }

  /** A sampler that remembers what the history leaves credits just that. */
  lemma {:induction false} SamplerCredits(ordem: seq<string>, ant: Anterior, h: seq<Rodada>, r: Rodada)
    requires forall ip :: Get(ant, ip) == Lembrado(Visoes(h, ip))
    ensures Creditos(ordem, ant, r) == CreditosApos(ordem, h, r)
    decreases |ordem|
  {
    if ordem != [] { SamplerCredits(ordem[..|ordem| - 1], ant, h, r); }
  }

  /** The quota's queue after the rounds `rs`, each with its addresses in the order `ordens` has. */
  function FilaApos(f: Fila, rs: seq<Rodada>, ordens: seq<seq<string>>): Fila
    requires |ordens| == |rs|
    decreases |rs|
  {
    if rs == [] then f
    else
      var n := |rs| - 1;
      Creditada(FilaApos(f, rs[..n], ordens[..n]), CreditosApos(ordens[n], rs[..n], rs[n]))
  }

  function Ganho(h: seq<Rodada>, r: Rodada, mac: string, side: Side, ip: string): nat {
    var c := CreditoApos(h, r, ip);
    if c.Some? && c.value.mac == mac then Of(c.value.d, side) else 0
  }

  function Soma(ips: seq<string>, ganho: string -> nat): nat
    decreases |ips|
  {
    if ips == [] then 0 else Soma(ips[..|ips| - 1], ganho) + ganho(ips[|ips| - 1])
  }

  /** What the addresses `ips` were credited to `mac`, together. */
  function PorEndereco(ips: seq<string>, rs: seq<Rodada>, mac: string, side: Side): nat
    decreases |ips|
  {
    if ips == [] then 0
    else
      var n := |ips| - 1;
      PorEndereco(ips[..n], rs, mac, side) + CreditadoA(Visoes(rs, ips[n]), mac, side)
  }

  ghost predicate SemRepetir(ips: seq<string>) { forall i, j | 0 <= i < j < |ips| :: ips[i] != ips[j] }

  // ----- sums over addresses

  function Dentro(ips: seq<string>, outros: seq<string>, ganho: string -> nat): nat
    decreases |ips|
  {
    if ips == [] then 0
    else
      var ip := ips[|ips| - 1];
      Dentro(ips[..|ips| - 1], outros, ganho) + if ip in outros then ganho(ip) else 0
  }

  lemma {:induction false} OneMoreInside(ips: seq<string>, outros: seq<string>, x: string, ganho: string -> nat)
    requires SemRepetir(ips) && x !in outros
    ensures Dentro(ips, outros + [x], ganho) == Dentro(ips, outros, ganho) + if x in ips then ganho(x) else 0
    decreases |ips|
  {
    if ips != [] {
      var n := |ips| - 1;
      assert ips == ips[..n] + [ips[n]];
      OneMoreInside(ips[..n], outros, x, ganho);
    }
  }

  lemma {:induction false} NoneInside(ips: seq<string>, ganho: string -> nat)
    ensures Dentro(ips, [], ganho) == 0
    decreases |ips|
  {
    if ips != [] { NoneInside(ips[..|ips| - 1], ganho); }
  }

  /** A sum over some of the addresses, taken in any order. */
  lemma {:induction false} SumInAnyOrder(ips: seq<string>, ordem: seq<string>, ganho: string -> nat)
    requires SemRepetir(ips) && SemRepetir(ordem) && forall ip | ip in ordem :: ip in ips
    ensures Soma(ordem, ganho) == Dentro(ips, ordem, ganho)
    decreases |ordem|
  {
    if ordem == [] {
      NoneInside(ips, ganho);
    } else {
      var n := |ordem| - 1;
      assert ordem == ordem[..n] + [ordem[n]];
      SumInAnyOrder(ips, ordem[..n], ganho);
      OneMoreInside(ips, ordem[..n], ordem[n], ganho);
    }
  }

  lemma {:induction false} OthersGainNothing(ips: seq<string>, ordem: seq<string>, ganho: string -> nat)
    requires forall ip | ip !in ordem :: ganho(ip) == 0
    ensures Dentro(ips, ordem, ganho) == Soma(ips, ganho)
    decreases |ips|
  {
    if ips != [] { OthersGainNothing(ips[..|ips| - 1], ordem, ganho); }
  }

  // ----- one round

  lemma {:induction false} CreditsAreGains(ordem: seq<string>, h: seq<Rodada>, r: Rodada, mac: string, side: Side)
    ensures SomaCreditos(CreditosApos(ordem, h, r), mac, side) == Soma(ordem, ip => Ganho(h, r, mac, side, ip))
    decreases |ordem|
  {
    if ordem != [] {
      var n := |ordem| - 1;
      CreditsAreGains(ordem[..n], h, r, mac, side);
      OneMoreCredit(CreditosApos(ordem[..n], h, r), CreditoApos(h, r, ordem[n]), mac, side);
    }
  }

  lemma OneMoreCredit(cs: seq<Credito>, c: Option<Credito>, mac: string, side: Side)
    ensures SomaCreditos(cs + if c.Some? then [c.value] else [], mac, side)
         == SomaCreditos(cs, mac, side) + if c.Some? && c.value.mac == mac then Of(c.value.d, side) else 0
  {
    if c.Some? { assert (cs + [c.value])[..|cs|] == cs; } else { assert cs + [] == cs; }
  }

  lemma {:induction false} EachAddressGains(ips: seq<string>, rs: seq<Rodada>, mac: string, side: Side)
    requires rs != []
    ensures var n := |rs| - 1;
      PorEndereco(ips, rs, mac, side)
        == PorEndereco(ips, rs[..n], mac, side) + Soma(ips, ip => Ganho(rs[..n], rs[n], mac, side, ip))
    decreases |ips|
  {
    if ips != [] {
      var m, n := |ips| - 1, |rs| - 1;
      EachAddressGains(ips[..m], rs, mac, side);
      assert Visoes(rs, ips[m])[..n] == Visoes(rs[..n], ips[m]);
    }
  }

  lemma RoundGains(ips: seq<string>, ordem: seq<string>, h: seq<Rodada>, r: Rodada, mac: string, side: Side)
    requires SemRepetir(ips) && Enumera(ordem, Enderecos(r)) && forall ip | ip in Enderecos(r) :: ip in ips
    ensures SomaCreditos(CreditosApos(ordem, h, r), mac, side) == Soma(ips, ip => Ganho(h, r, mac, side, ip))
  {
    var ganho := ip => Ganho(h, r, mac, side, ip);
    CreditsAreGains(ordem, h, r, mac, side);
    SumInAnyOrder(ips, ordem, ganho);
    OthersGainNothing(ips, ordem, ganho);
  }

  lemma {:induction false} NothingYet(ips: seq<string>, mac: string, side: Side)
    ensures PorEndereco(ips, [], mac, side) == 0
    decreases |ips|
  {
    if ips != [] {
      NothingYet(ips[..|ips| - 1], mac, side);
      assert Visoes([], ips[|ips| - 1]) == [];
    }
  }

  /**
   Over a whole run, whatever readings fail and in whatever order addresses are visited: what
   the quota of a device received is the sum of what each address was credited to it.
   */
  lemma {:induction false} QuotaReceivesWhatAddressesCredit(
    f: Fila, rs: seq<Rodada>, ordens: seq<seq<string>>, ips: seq<string>, mac: string, side: Side)
    requires mac != "" && |ordens| == |rs| && SemRepetir(ips)
    requires forall i: nat | i < |rs| :: Enumera(ordens[i], Enderecos(rs[i]))
    requires forall i: nat, ip | i < |rs| && ip in Enderecos(rs[i]) :: ip in ips
    ensures var dele := (i: Instante) => i.mac == mac;
      Total(FilaApos(f, rs, ordens), dele, side) == Total(f, dele, side) + PorEndereco(ips, rs, mac, side)
    decreases |rs|
  {
    if rs == [] {
      NothingYet(ips, mac, side);
    } else {
      var n := |rs| - 1;
      QuotaReceivesWhatAddressesCredit(f, rs[..n], ordens[..n], ips, mac, side);
      CreditsReachTheQuota(FilaApos(f, rs[..n], ordens[..n]), CreditosApos(ordens[n], rs[..n], rs[n]), mac, side);
      RoundGains(ips, ordens[n], rs[..n], rs[n], mac, side);
      EachAddressGains(ips, rs, mac, side);
    }
  }

  // ----- from what is read to what is credited

  /** The device that the neighbour table of a round, if it was read, gives for an address. */
  predicate Tabela(r: Rodada, ip: string, mac: string) {
    r.macs.Some? && ip in r.macs.value && r.macs.value[ip] == mac
  }

  /** In every round whose counters were read the address has one, and no table gives it to another device. */
  ghost predicate SoDele(rs: seq<Rodada>, ip: string, mac: string) {
    forall i | 0 <= i < |rs| && rs[i].contadores.Some? ::
      && ip in rs[i].contadores.value
      && (rs[i].macs.Some? && ip in rs[i].macs.value ==> rs[i].macs.value[ip] == mac || rs[i].macs.value[ip] == "")
  }

  /** The values of one counter of an address, in the rounds whose counters were read. */
  function Lidos(rs: seq<Rodada>, ip: string, side: Side): seq<nat>
    decreases |rs|
  {
    if rs == [] then []
    else
      var r := rs[|rs| - 1];
      Lidos(rs[..|rs| - 1], ip, side)
        + (if r.contadores.Some? && ip in r.contadores.value then [Of(r.contadores.value[ip], side)] else [])
  }

  lemma {:induction false} ReadIsSeen(rs: seq<Rodada>, ip: string, side: Side)
    ensures Valores(Visoes(rs, ip), side) == Lidos(rs, ip, side)
    decreases |rs|
  {
    if rs != [] {
      var n := |rs| - 1;
      ReadIsSeen(rs[..n], ip, side);
      assert Visoes(rs, ip)[..n] == Visoes(rs[..n], ip);
    }
  }

  /**
   Over any rounds, failed ones included, an address that the first neighbour table gives to a device, and none to
   another, credits that device with exactly what its counters rose from one reading to the next.
   */
  lemma DeviceIsCreditedWhatIsRead(rs: seq<Rodada>, ip: string, mac: string, side: Side)
    requires mac != "" && rs != [] && rs[0].contadores.Some? && Tabela(rs[0], ip, mac) && SoDele(rs, ip, mac)
    ensures CreditadoA(Visoes(rs, ip), mac, side) == Crescimento(Lidos(rs, ip, side))
  {
    OwnedAddressIsCreditedItsGrowth(Visoes(rs, ip), mac, side);
    ReadIsSeen(rs, ip, side);
  }

  /** An address that was gone for a round starts anew: what it counted meanwhile is credited to nobody. */
  lemma GoneStartsAnew(h: seq<Rodada>, gone: Rodada, r: Rodada, ip: string)
    requires gone.contadores.Some? && ip !in gone.contadores.value
    ensures CreditoApos(h + [gone], r, ip) == None
  {
    assert Visoes(h + [gone], ip)[..|h|] == Visoes(h, ip);
  }
}
