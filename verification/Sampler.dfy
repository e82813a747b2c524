/** The sampler of `internal/hosttraffic/sampler.go`: one reading of every counter feeds the quota and the series. */
module Sampling {
  import opened Options
  import opened Bytes
  import opened HostQuota
  import opened QuotaService
  import opened HostTraffic
  import opened Rates

  type Contadores = map<string, Delta>

  /** What one round reads: the counters and the neighbour table, either of which may fail. */
  datatype Rodada = Rodada(contadores: Option<Contadores>, macs: Option<map<string, string>>, now: int)

  function LidoDe(r: Rodada, ip: string): string {
    if r.macs.Some? && ip in r.macs.value then r.macs.value[ip] else ""
  }

  /** What a round says of one address. */
  function Visao(r: Rodada, ip: string): Visto {
    if r.contadores == None then Falhou
    else if ip in r.contadores.value then Presente(r.contadores.value[ip], LidoDe(r, ip), r.now)
    else Ausente
  }

  function Visoes(rs: seq<Rodada>, ip: string): (vs: seq<Visto>)
    ensures |vs| == |rs|
  {
    seq(|rs|, i requires 0 <= i < |rs| => Visao(rs[i], ip))
  }

  type Anterior = map<string, Leitura>

  function Get(m: Anterior, ip: string): Option<Leitura> { if ip in m then Some(m[ip]) else None }

  function Enderecos(r: Rodada): set<string> { if r.contadores.Some? then r.contadores.value.Keys else {} }

  ghost predicate Enumera(ordem: seq<string>, s: set<string>) {
    && (forall ip :: ip in ordem <==> ip in s)
    && (forall i, j | 0 <= i < j < |ordem| :: ordem[i] != ordem[j])
  }

  /** The credits and the rates of a round, address by address. */
  function Creditos(ordem: seq<string>, ant: Anterior, r: Rodada): seq<Credito>
    decreases |ordem|
  {
    if ordem == [] then []
    else
      var ip := ordem[|ordem| - 1];
      var c := CreditoDe(Get(ant, ip), Visao(r, ip));
      Creditos(ordem[..|ordem| - 1], ant, r) + if c.Some? then [c.value] else []
  }

  function Taxas(ordem: seq<string>, ant: Anterior, r: Rodada): seq<Taxa>
    decreases |ordem|
  {
    if ordem == [] then []
    else
      var ip := ordem[|ordem| - 1];
      var t := TaxaDe(Get(ant, ip), Visao(r, ip));
      Taxas(ordem[..|ordem| - 1], ant, r) + if t.Some? then [t.value] else []
  }

  lemma {:induction false} RatesAreNonNegative(ordem: seq<string>, ant: Anterior, r: Rodada)
    ensures NaoNegativas(Taxas(ordem, ant, r))
    decreases |ordem|
  {
    if ordem != [] {
      RatesAreNonNegative(ordem[..|ordem| - 1], ant, r);
      var t := TaxaDe(Get(ant, ordem[|ordem| - 1]), Visao(r, ordem[|ordem| - 1]));
    }
  }

  /** The quota's queue after a series of credits. */
  function Creditada(f: Fila, cs: seq<Credito>): Fila
    decreases |cs|
  {
    if cs == [] then f
    else
      var c := cs[|cs| - 1];
      Somado(Creditada(f, cs[..|cs| - 1]), Instante(c.mac, c.ts), c.d)
  }

  function SomaCreditos(cs: seq<Credito>, mac: string, side: Side): nat
    decreases |cs|
  {
    if cs == [] then 0
    else SomaCreditos(cs[..|cs| - 1], mac, side) + If(cs[|cs| - 1].mac == mac, Of(cs[|cs| - 1].d, side))
  }

  /** The quota of a device receives every byte that the sampler credits it. */
  lemma {:induction false} CreditsReachTheQuota(f: Fila, cs: seq<Credito>, mac: string, side: Side)
    requires mac != ""
    ensures var dele := (i: Instante) => i.mac == mac;
      Total(Creditada(f, cs), dele, side) == Total(f, dele, side) + SomaCreditos(cs, mac, side)
    decreases |cs|
  {
    if cs != [] {
      var c := cs[|cs| - 1];
      CreditsReachTheQuota(f, cs[..|cs| - 1], mac, side);
      TotalMore(Creditada(f, cs[..|cs| - 1]), (i: Instante) => i.mac == mac, side, Instante(c.mac, c.ts), c.d);
    }
  }

  class Sampler {
    var anterior: Anterior
    const usage: Service?
    /** The rounds so far. */
    ghost var historia: seq<Rodada>

    /** What is remembered of every address is what its readings leave. */
    ghost predicate Valid()
      reads this
    {
      forall ip :: Get(anterior, ip) == Lembrado(Visoes(historia, ip))
    }

    function Sink(): set<Service> { if usage != null then {usage} else {} }

    constructor (usage: Service?)
      ensures Valid() && historia == [] && this.usage == usage
    {
      this.usage := usage;
      anterior, historia := map[], [];
      new;
      forall ip ensures Get(anterior, ip) == Lembrado(Visoes(historia, ip)) { assert Visoes(historia, ip) == []; }
    }

    /** The step of one address: what is remembered, credited and measured. */
    method UmEndereco(ip: string, r: Rodada) returns (taxa: Option<Taxa>, ghost credito: Option<Credito>)
      requires r.contadores.Some? && ip in r.contadores.value
      modifies this`anterior, Sink()
      ensures anterior == old(anterior)[ip := Depois(Get(old(anterior), ip), Visao(r, ip)).value]
      ensures taxa == TaxaDe(Get(old(anterior), ip), Visao(r, ip))
      ensures credito == CreditoDe(Get(old(anterior), ip), Visao(r, ip))
      ensures usage != null && credito == None ==> usage.pending == old(usage.pending)
      ensures usage != null && credito.Some? ==>
                usage.pending == Somado(old(usage.pending), Instante(credito.value.mac, credito.value.ts),
                  credito.value.d)
    {
      taxa, credito := None, None;
      var c := r.contadores.value[ip];
      var tinha := ip in anterior;
      var ant := if tinha then anterior[ip] else Leitura(ZERO, 0, "");
      var macLido := LidoDe(r, ip);
      var mac := if macLido == "" then ant.mac else macLido;
      anterior := anterior[ip := Leitura(c, r.now, mac)];
      if !tinha || (macLido != "" && ant.mac != "" && macLido != ant.mac) { return; }
      var brx, btx := 0, 0;
      if c.rx >= ant.c.rx { brx := c.rx - ant.c.rx; }
      if c.tx >= ant.c.tx { btx := c.tx - ant.c.tx; }
      if brx == 0 && btx == 0 { return; }
      if mac != "" {
        credito := Some(Credito(mac, r.now, Delta(brx, btx)));
        if usage != null { usage.AddHostBytes(mac, r.now, brx, btx); }
      }
      if r.now <= ant.ts { return; }
      var dt := (r.now - ant.ts) as real;
      taxa := Some(Taxa(if mac == "" then OUTROS else mac, brx as real / dt, btx as real / dt));
    }

    /** Forgets the addresses that are gone from the counters. */
    method PodarAusentes(contadores: Contadores)
      modifies this`anterior
      ensures anterior == map ip | ip in old(anterior) && ip in contadores :: old(anterior)[ip]
    {
      anterior := map ip | ip in anterior && ip in contadores :: anterior[ip];
    }

    /** The addresses in an order of the runtime's choice, and the rates in that order. */
    method Medir(r: Rodada, ghost antes: Anterior, ghost fila: Fila) returns (taxas: seq<Taxa>,
      ghost ordem: seq<string>)
      requires r.contadores.Some? && antes == anterior && (usage != null ==> fila == usage.pending)
      modifies this`anterior, Sink()
      ensures Enumera(ordem, Enderecos(r))
      ensures Lembra(anterior, antes, ordem, r)
      ensures taxas == Taxas(ordem, antes, r)
      ensures usage != null ==> usage.pending == Creditada(fila, Creditos(ordem, antes, r))
    {
      taxas, ordem := [], [];
      var left := r.contadores.value.Keys;
      while left != {}
        invariant left <= Enderecos(r) && Enumera(ordem, Enderecos(r) - left)
        invariant Lembra(anterior, antes, ordem, r)
        invariant taxas == Taxas(ordem, antes, r)
        invariant usage != null ==> usage.pending == Creditada(fila, Creditos(ordem, antes, r))
        decreases |left|
      {
        var ip :| ip in left;
        assert Get(anterior, ip) == Get(antes, ip);
        ghost var here := anterior;
        var taxa, credito := UmEndereco(ip, r);
        Extends(ordem, ip, antes, r, fila);
        RemembersOneMore(here, anterior, antes, ordem, ip, r);
        left := left - {ip};
        ordem := ordem + [ip];
        if taxa.Some? { taxas := taxas + [taxa.value]; }
      }
    }

    /**
     * One round. A failed reading of the counters changes nothing; otherwise the credits go to the
     * quota, and the published rates are those of the round.
     */
    method SampleOnce(r: Rodada) returns (publicou: bool, nomeadas: seq<Taxa>, sobra: Taxa, ghost ordem: seq<string>)
      requires Valid()
      modifies this, Sink()
      ensures Valid() && historia == old(historia) + [r]
      ensures publicou <==> r.contadores.Some?
      ensures Enumera(ordem, Enderecos(r))
      ensures usage != null ==> usage.pending == Creditada(old(usage.pending), Creditos(ordem, old(anterior), r))
      ensures publicou ==> forall side ::
          Soma(Series(nomeadas, sobra), side) == Soma(Taxas(ordem, old(anterior), r), side)
      ensures |nomeadas| <= MAX_HOSTS && Distintos(nomeadas)
      ensures forall t | t in nomeadas :: t.mac != OUTROS && t == Junta(Taxas(ordem, old(anterior), r), t.mac)
    {
      publicou, nomeadas, sobra, ordem := false, [], Taxa(OUTROS, 0.0, 0.0), [];
      ghost var antes := anterior;
      if r.contadores == None {
        historia := historia + [r];
        Follows(anterior, antes, old(historia), r);
        return;
      }
      var taxas;
      taxas, ordem := Medir(r, antes, if usage != null then usage.pending else map[]);
      PodarAusentes(r.contadores.value);
      RatesAreNonNegative(ordem, antes, r);
      nomeadas, sobra := Publicar(taxas);
      publicou := true;
      historia := historia + [r];
      Follows(anterior, antes, old(historia), r);
    }
  }

  /** The addresses in `ordem` are remembered as this round leaves them, the others as before. */
  ghost predicate Lembra(agora: Anterior, antes: Anterior, ordem: seq<string>, r: Rodada) {
    forall ip ::
      Get(agora, ip) == if ip in ordem then Depois(Get(antes, ip), Visao(r, ip)) else Get(antes, ip)
  }

  lemma RemembersOneMore(here: Anterior, agora: Anterior, antes: Anterior, ordem: seq<string>, ip: string, r: Rodada)
    requires Lembra(here, antes, ordem, r) && ip !in ordem && ip in Enderecos(r)
    requires agora == here[ip := Depois(Get(here, ip), Visao(r, ip)).value]
    ensures Lembra(agora, antes, ordem + [ip], r)
  {
  }

  lemma Follows(agora: Anterior, antes: Anterior, h: seq<Rodada>, r: Rodada)
    requires forall ip :: Get(antes, ip) == Lembrado(Visoes(h, ip))
    requires forall ip :: Get(agora, ip) == Depois(Get(antes, ip), Visao(r, ip))
    ensures forall ip :: Get(agora, ip) == Lembrado(Visoes(h + [r], ip))
  {
    forall ip ensures Get(agora, ip) == Lembrado(Visoes(h + [r], ip)) {
      assert Visoes(h + [r], ip)[..|h|] == Visoes(h, ip);
    }
  }

  lemma Extends(ordem: seq<string>, ip: string, ant: Anterior, r: Rodada, f: Fila)
    ensures var t := TaxaDe(Get(ant, ip), Visao(r, ip));
      Taxas(ordem + [ip], ant, r) == Taxas(ordem, ant, r) + if t.Some? then [t.value] else []
    ensures var c := CreditoDe(Get(ant, ip), Visao(r, ip));
      var before := Creditada(f, Creditos(ordem, ant, r));
      Creditada(f, Creditos(ordem + [ip], ant, r))
        == if c.Some? then Somado(before, Instante(c.value.mac, c.value.ts), c.value.d) else before
  {
    assert (ordem + [ip])[..|ordem|] == ordem;
    var c := CreditoDe(Get(ant, ip), Visao(r, ip));
    var cs := Creditos(ordem, ant, r);
    if c.Some? {
      assert (cs + [c.value])[..|cs|] == cs;
    } else {
      assert cs + [] == cs;
    }
  }
}
