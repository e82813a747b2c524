/** Counters into bytes and rates: one address at a time, as in `internal/hosttraffic/sampler.go`. */
module HostTraffic {
  import opened Options
  import opened Bytes

  const OUTROS := "outros"

  /** The last sample of an address, and who owned it. */
  datatype Leitura = Leitura(c: Delta, ts: int, mac: string)

  /**
   What one sample says of an address: nothing at all, that it is gone, or its counters and its owner ("" if not
   known).
   */
  datatype Visto = Falhou | Ausente | Presente(c: Delta, lido: string, now: int)

  datatype Credito = Credito(mac: string, ts: int, d: Delta)
  datatype Taxa = Taxa(mac: string, rx: real, tx: real)

  function Dono(ant: Option<Leitura>, lido: string): string {
    if lido == "" && ant.Some? then ant.value.mac else lido
  }

  function Depois(ant: Option<Leitura>, v: Visto): Option<Leitura> {
    match v
    case Falhou => ant
    case Ausente => None
    case Presente(c, lido, now) => Some(Leitura(c, now, Dono(ant, lido)))
  }

  predicate TrocouDeDono(a: Leitura, lido: string) { lido != "" && a.mac != "" && lido != a.mac }

  function Subtrai(a: nat, b: nat): nat { if a >= b then a - b else 0 }

  /** The growth of each counter; nothing from one that went back. */
  function Medida(ant: Option<Leitura>, v: Visto): Delta {
    if !v.Presente? || ant == None || TrocouDeDono(ant.value, v.lido) then ZERO
    else Delta(Subtrai(v.c.rx, ant.value.c.rx), Subtrai(v.c.tx, ant.value.c.tx))
  }

  /** Bytes without an owner are credited to nobody. */
  function CreditoDe(ant: Option<Leitura>, v: Visto): Option<Credito> {
    var d := Medida(ant, v);
    if v.Presente? && d != ZERO && Dono(ant, v.lido) != "" then Some(Credito(Dono(ant, v.lido), v.now, d)) else None
  }

  function TaxaDe(ant: Option<Leitura>, v: Visto): Option<Taxa> {
    var d := Medida(ant, v);
    if v.Presente? && ant.Some? && d != ZERO && v.now > ant.value.ts then
      var dt := (v.now - ant.value.ts) as real;
      var mac := Dono(ant, v.lido);
      Some(Taxa(if mac == "" then OUTROS else mac, d.rx as real / dt, d.tx as real / dt))
    else None
  }

  /** How much a counter rose from one value to the next; nothing when it went back. */
  function Subida(de: nat, ate: nat): nat { if ate > de then ate - de else 0 }

  /** One side of what is credited and measured: how much its counter rose, whatever the other one did. */
  lemma MeasuredIsTheRise(ant: Leitura, v: Visto, side: Side)
    requires v.Presente?
    ensures var d := Of(Medida(Some(ant), v), side);
      d == if TrocouDeDono(ant, v.lido) then 0 else Subida(Of(ant.c, side), Of(v.c, side))
  {
  }

  /** A counter that went back, or did not move, credits nothing on its side and shows no rate there. */
  lemma ResetCreditsNothing(ant: Leitura, v: Visto, side: Side)
    requires v.Presente? && Of(v.c, side) <= Of(ant.c, side)
    ensures BytesDe(CreditoDe(Some(ant), v), side) == 0
    ensures var t := TaxaDe(Some(ant), v); t.Some? ==> (if side == Rx then t.value.rx else t.value.tx) == 0.0
  {
    MeasuredIsTheRise(ant, v, side);
  }

  /** Some counter rose since the last sample, and the address has not changed hands. */
  predicate Subiu(ant: Leitura, v: Visto) {
    v.Presente? && (v.c.rx > ant.c.rx || v.c.tx > ant.c.tx) && (v.lido == "" || ant.mac == "" || v.lido == ant.mac)
  }

  /** A sample is credited exactly when some counter rose under a known owner, and rated exactly when time passed. */
  lemma CreditedAndRatedIff(ant: Leitura, v: Visto)
    ensures CreditoDe(Some(ant), v).Some? <==> Subiu(ant, v) && !(v.lido == "" && ant.mac == "")
    ensures TaxaDe(Some(ant), v).Some? <==> Subiu(ant, v) && v.now > ant.ts
    ensures CreditoDe(None, v) == None && TaxaDe(None, v) == None
  {
  }

  /** A rate is exactly the growth over the time since the last sample, under its owner or under "outros". */
  lemma RateTimesTimeIsGrowth(ant: Option<Leitura>, v: Visto)
    requires TaxaDe(ant, v).Some?
    ensures v.Presente? && ant.Some? && v.now > ant.value.ts
    ensures var t := TaxaDe(ant, v).value; var dt := (v.now - ant.value.ts) as real;
      && t.rx * dt == Medida(ant, v).rx as real && t.tx * dt == Medida(ant, v).tx as real
      && t.rx >= 0.0 && t.tx >= 0.0
      && (CreditoDe(ant, v).Some? ==> t.mac == CreditoDe(ant, v).value.mac)
      && (CreditoDe(ant, v).None? ==> t.mac == OUTROS)
  {
    var dt := (v.now - ant.value.ts) as real;
    Quotient(Medida(ant, v).rx as real, dt);
    Quotient(Medida(ant, v).tx as real, dt);
  }

  lemma Quotient(a: real, b: real)
    requires a >= 0.0 && b > 0.0
    ensures (a / b) * b == a && a / b >= 0.0
  {
  }

  // ----- one address over a run

  /** What is remembered of an address after the samples `vs`. */
  function Lembrado(vs: seq<Visto>): Option<Leitura>
    decreases |vs|
  {
    if vs == [] then None else Depois(Lembrado(vs[..|vs| - 1]), vs[|vs| - 1])
  }

  function BytesDe(c: Option<Credito>, side: Side): nat { if c.Some? then Of(c.value.d, side) else 0 }

  /** The bytes credited to anyone for this address. */
  function Creditado(vs: seq<Visto>, side: Side): nat
    decreases |vs|
  {
    if vs == [] then 0
    else
      var n := |vs| - 1;
      Creditado(vs[..n], side) + BytesDe(CreditoDe(Lembrado(vs[..n]), vs[n]), side)
  }

  /** The bytes credited to `mac` for this address. */
  function CreditadoA(vs: seq<Visto>, mac: string, side: Side): nat
    decreases |vs|
  {
    if vs == [] then 0
    else
      var n := |vs| - 1;
      var c := CreditoDe(Lembrado(vs[..n]), vs[n]);
      CreditadoA(vs[..n], mac, side) + (if c.Some? && c.value.mac == mac then Of(c.value.d, side) else 0)
  }

  /** The values that a counter showed, in order. */
  function Valores(vs: seq<Visto>, side: Side): seq<nat>
    decreases |vs|
  {
    if vs == [] then []
    else
      var n := |vs| - 1;
      Valores(vs[..n], side) + (if vs[n].Presente? then [Of(vs[n].c, side)] else [])
  }

  /** How much a sequence of values rises, falls not counted. */
  function Crescimento(s: seq<nat>): nat
    decreases |s|
  {
    if |s| < 2 then 0 else Crescimento(s[..|s| - 1]) + Subida(s[|s| - 2], s[|s| - 1])
  }

  /** What is remembered is the last value seen. */
  lemma {:induction false} RemembersTheLast(vs: seq<Visto>, side: Side)
    ensures Lembrado(vs).Some? ==>
      Valores(vs, side) != [] && Valores(vs, side)[|Valores(vs, side)| - 1] == Of(Lembrado(vs).value.c, side)
    decreases |vs|
  {
    if vs != [] { RemembersTheLast(vs[..|vs| - 1], side); }
  }

  lemma GrowthStep(s: seq<nat>, x: nat)
    ensures Crescimento(s + [x]) == Crescimento(s) + if s == [] then 0 else Subida(s[|s| - 1], x)
  {
    assert (s + [x])[..|s|] == s;
  }

  /** Through resets, handovers and failures, no byte is credited that a counter did not show as growth. */
  lemma {:induction false} NeverMoreThanTheGrowth(vs: seq<Visto>, side: Side)
    ensures Creditado(vs, side) <= Crescimento(Valores(vs, side))
    decreases |vs|
  {
    if vs != [] {
      var n := |vs| - 1;
      NeverMoreThanTheGrowth(vs[..n], side);
      RemembersTheLast(vs[..n], side);
      if vs[n].Presente? {
        GrowthStep(Valores(vs[..n], side), Of(vs[n].c, side));
      } else {
        assert Valores(vs, side) == Valores(vs[..n], side);
      }
    }
  }

  lemma {:induction false} CreditedOnce(vs: seq<Visto>, mac: string, side: Side)
    ensures CreditadoA(vs, mac, side) <= Creditado(vs, side)
    decreases |vs|
  {
    if vs != [] { CreditedOnce(vs[..|vs| - 1], mac, side); }
  }

  /** The owner last read since the address was last gone; "" if none was. */
  function UltimoDono(vs: seq<Visto>): string
    decreases |vs|
  {
    if vs == [] then ""
    else
      match vs[|vs| - 1]
      case Ausente => ""
      case Presente(_, lido, _) => if lido != "" then lido else UltimoDono(vs[..|vs| - 1])
      case Falhou => UltimoDono(vs[..|vs| - 1])
  }

  lemma {:induction false} RemembersTheOwner(vs: seq<Visto>)
    ensures UltimoDono(vs) == if Lembrado(vs).Some? then Lembrado(vs).value.mac else ""
    decreases |vs|
  {
    if vs != [] { RemembersTheOwner(vs[..|vs| - 1]); }
  }

  /** A credit goes to the owner last read, and never across a change of owner. */
  lemma CreditGoesToTheOwner(vs: seq<Visto>, v: Visto)
    requires CreditoDe(Lembrado(vs), v).Some?
    ensures var mac := CreditoDe(Lembrado(vs), v).value.mac;
      mac != "" && mac == UltimoDono(vs + [v]) && (UltimoDono(vs) == "" || UltimoDono(vs) == mac)
    ensures v.Presente? && CreditoDe(Lembrado(vs), v).value.ts == v.now
  {
    RemembersTheOwner(vs);
    assert (vs + [v])[..|vs|] == vs;
  }

  /** Every sample that answers shows the address, under `mac` or under no owner. */
  ghost predicate DeUm(vs: seq<Visto>, mac: string) {
    forall i | 0 <= i < |vs| :: vs[i].Falhou? || (vs[i].Presente? && (vs[i].lido == mac || vs[i].lido == ""))
  }

  lemma {:induction false} OwnedReading(vs: seq<Visto>, mac: string)
    requires mac != "" && vs != [] && vs[0].Presente? && vs[0].lido == mac && DeUm(vs, mac)
    ensures Lembrado(vs).Some? && Lembrado(vs).value.mac == mac
    decreases |vs|
  {
    if |vs| == 1 {
      assert vs[..0] == [] && Lembrado(vs[..0]) == None;
    } else {
      OwnedReading(vs[..|vs| - 1], mac);
    }
  }

  /**
   * An address seen throughout with one known owner is credited exactly the growth of its counters: failed
   * readings and missing neighbour tables lose nothing, and a reset loses only what was counted before it and not
   * yet seen.
   */
  lemma {:induction false} OwnedAddressIsCreditedItsGrowth(vs: seq<Visto>, mac: string, side: Side)
    requires mac != "" && vs != [] && vs[0].Presente? && vs[0].lido == mac && DeUm(vs, mac)
    ensures CreditadoA(vs, mac, side) == Crescimento(Valores(vs, side)) == Creditado(vs, side)
    decreases |vs|
  {
    var n := |vs| - 1;
    if n == 0 {
      assert vs[..0] == [];
    } else {
      OwnedAddressIsCreditedItsGrowth(vs[..n], mac, side);
      OwnedReading(vs[..n], mac);
      OwnedCredit(Lembrado(vs[..n]).value, vs[n], mac, side);
      GrowthOfOneMore(vs, side);
    }
  }

  lemma OwnedCredit(ant: Leitura, v: Visto, mac: string, side: Side)
    requires mac != "" && ant.mac == mac && (v.Falhou? || (v.Presente? && (v.lido == mac || v.lido == "")))
    ensures var c := CreditoDe(Some(ant), v);
      && BytesDe(c, side) == (if v.Presente? then Subida(Of(ant.c, side), Of(v.c, side)) else 0)
      && (c.Some? ==> c.value.mac == mac)
  {
  }

  lemma GrowthOfOneMore(vs: seq<Visto>, side: Side)
    requires vs != [] && Lembrado(vs[..|vs| - 1]).Some?
    ensures var n := |vs| - 1;
      Crescimento(Valores(vs, side)) == Crescimento(Valores(vs[..n], side))
        + if vs[n].Presente? then Subida(Of(Lembrado(vs[..n]).value.c, side), Of(vs[n].c, side)) else 0
  {
    var n := |vs| - 1;
    RemembersTheLast(vs[..n], side);
    if vs[n].Presente? {
      GrowthStep(Valores(vs[..n], side), Of(vs[n].c, side));
    } else {
      assert Valores(vs, side) == Valores(vs[..n], side);
    }
  }

  /** The same, with counters that never go back. */
  ghost predicate Estavel(vs: seq<Visto>, mac: string) {
    && (forall i | 0 <= i < |vs| :: vs[i].Falhou? || (vs[i].Presente? && (vs[i].lido == mac || vs[i].lido == "")))
    && (forall i, j | 0 <= i < j < |vs| && vs[i].Presente? && vs[j].Presente? ::
         vs[i].c.rx <= vs[j].c.rx && vs[i].c.tx <= vs[j].c.tx)
  }

  lemma {:induction false} StableReading(vs: seq<Visto>, mac: string)
    requires mac != "" && vs != [] && vs[0].Presente? && vs[0].lido == mac && Estavel(vs, mac)
    ensures Lembrado(vs).Some? && Lembrado(vs).value.mac == mac
    ensures exists i :: 0 <= i < |vs| && vs[i].Presente? && Lembrado(vs).value.c == vs[i].c
    decreases |vs|
  {
    var n := |vs| - 1;
    if n > 0 {
      StableReading(vs[..n], mac);
      var i :| 0 <= i < n && vs[i].Presente? && Lembrado(vs[..n]).value.c == vs[i].c;
      assert vs[n].Presente? || vs[i].Presente?;
    } else {
      assert Lembrado(vs[..0]) == None;
    }
  }

  /**
   * An address seen throughout with one known owner is credited exactly last minus first: failed
   * readings and missing neighbour tables lose nothing.
   */
  lemma {:induction false} StableAddressIsCreditedInFull(vs: seq<Visto>, mac: string, side: Side)
    requires mac != "" && vs != [] && vs[0].Presente? && vs[0].lido == mac && Estavel(vs, mac)
    ensures Lembrado(vs).Some?
    ensures Of(vs[0].c, side) + CreditadoA(vs, mac, side) == Of(Lembrado(vs).value.c, side)
    decreases |vs|
  {
    var n := |vs| - 1;
    if n == 0 {
      assert vs[..0] == [];
    } else {
      StableAddressIsCreditedInFull(vs[..n], mac, side);
      StableStep(vs, mac, side);
    }
  }

  lemma StableStep(vs: seq<Visto>, mac: string, side: Side)
    requires mac != "" && |vs| > 1 && vs[0].Presente? && vs[0].lido == mac && Estavel(vs, mac)
    ensures var n := |vs| - 1; var ant := Lembrado(vs[..n]);
      && ant.Some? && Depois(ant, vs[n]).Some? && Of(ant.value.c, side) <= Of(Depois(ant, vs[n]).value.c, side)
      && CreditadoA(vs, mac, side) == CreditadoA(vs[..n], mac, side)
                                      + Of(Depois(ant, vs[n]).value.c, side) - Of(ant.value.c, side)
  {
    var n := |vs| - 1;
    StableReading(vs[..n], mac);
    var i :| 0 <= i < n && vs[i].Presente? && Lembrado(vs[..n]).value.c == vs[i].c;
  }
}
