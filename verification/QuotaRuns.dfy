/** Samples, flushes, failures and quota changes in any interleaving: no byte is lost or counted twice. */
module QuotaRuns {
  import opened Bytes
  import opened HostQuota

  /** Where the flush is: between flushes, the queue drained, or writing under the quotas it read. */
  datatype Fase = Ocioso | Drenado | Gravando(lidas: Cotas)

  /** `emVoo` was drained and not yet attempted; `falhou` was attempted in vain. */
  datatype Estado = Estado(fila: Fila, emVoo: Fila, falhou: Fila, fase: Fase, uso: Tabela, cotas: Cotas)

  /** Each step is atomic: taken under the lock, or one transaction of the database. */
  datatype Passo =
    | Amostra(i: Instante, d: Delta)
    | Drenar
    | LerCotas(ok: bool)
    | Escrever(i: Instante, ok: bool)
    | Devolver
    | Mover(mac: string, de: Ciclo, para: Ciclo)
    | GravarCota(mac: string, cota: Cota)
    | Remover(mac: string)

  ghost predicate Pode(e: Estado, p: Passo) {
    match p
    case Drenar => e.fase.Ocioso?
    case LerCotas(_) => e.fase.Drenado?
    case Escrever(i, _) => e.fase.Gravando? && i in e.emVoo
    case Devolver => e.fase.Gravando? && e.emVoo == map[]
    case _ => true
  }

  ghost function Depois(cal: Calendario, e: Estado, p: Passo): Estado
    requires Pode(e, p)
  {
    match p
    case Amostra(i, d) => e.(fila := Somado(e.fila, i, d))
    case Drenar => e.(fila := map[], emVoo := e.fila, falhou := map[], fase := Drenado)
    case LerCotas(ok) =>
      if ok then e.(fase := Gravando(e.cotas))
      else e.(fila := Joined(e.fila, e.emVoo), emVoo := map[], fase := Ocioso)
    case Escrever(i, ok) =>
      var d := e.emVoo[i];
      if ok
      then e.(emVoo := Without(e.emVoo, i), uso := More(e.uso, ChaveDe(cal, e.fase.lidas, i), d))
      else e.(emVoo := Without(e.emVoo, i), falhou := e.falhou[i := d])
    case Devolver => e.(fila := Joined(e.fila, e.falhou), falhou := map[], fase := Ocioso)
    case Mover(mac, de, para) => e.(uso := Movido(e.uso, Chave(mac, de), Chave(mac, para)))
    case GravarCota(mac, cota) => e.(cotas := e.cotas[mac := cota])
    case Remover(mac) => if mac in e.cotas then e.(cotas := e.cotas[mac := Removida(e.cotas[mac])]) else e
  }

  ghost predicate Inicial(e: Estado) {
    e.fila == map[] && e.emVoo == map[] && e.falhou == map[] && e.fase == Ocioso
  }

  /** `es` lists the states of the run that takes the steps `ps`. */
  ghost predicate Corrida(cal: Calendario, es: seq<Estado>, ps: seq<Passo>) {
    && |es| == |ps| + 1
    && Inicial(es[0])
    && forall i: nat | i < |ps| :: Um(cal, es[i], ps[i], es[i + 1])
  }

  ghost predicate Um(cal: Calendario, e: Estado, p: Passo, e': Estado) {
    Pode(e, p) && e' == Depois(cal, e, p)
  }

  // ----- what was measured, and where it is

  /** The bytes that step `p` measures of the samples in `quais`, one way. */
  function MedidoEm(p: Passo, quais: Instante -> bool, side: Side): nat {
    if p.Amostra? then If(quais(p.i), Of(p.d, side)) else 0
  }

  function Medido(ps: seq<Passo>, quais: Instante -> bool, side: Side): nat
    decreases |ps|
  {
    if ps == [] then 0
    else Medido(ps[..|ps| - 1], quais, side) + MedidoEm(ps[|ps| - 1], quais, side)
  }

  /** The bytes that step `p` writes of the samples in `quais`. */
  function EscritoEm(e: Estado, p: Passo, quais: Instante -> bool, side: Side): nat {
    if p.Escrever? && p.ok then If(quais(p.i), Of(At(e.emVoo, p.i), side)) else 0
  }

  /** Measured and not stored: queued, drained, or failed and not yet returned. */
  ghost function EmMemoria(e: Estado, quais: Instante -> bool, side: Side): nat {
    Total(e.fila, quais, side) + Total(e.emVoo, quais, side) + Total(e.falhou, quais, side)
  }

  /** Only identified devices are accounted. */
  ghost predicate Identificados(quais: Instante -> bool) { forall i | quais(i) :: i.mac != "" }

  /** Between flushes nothing is drained and nothing failed; a sample is attempted once in a flush. */
  ghost predicate Arrumado(e: Estado) {
    && (forall i | i in e.emVoo :: i !in e.falhou)
    && (e.fase.Ocioso? ==> e.emVoo == map[] && e.falhou == map[])
    && (e.fase.Drenado? ==> e.falhou == map[])
  }

  lemma Arruma(cal: Calendario, e: Estado, p: Passo, e': Estado)
    requires Um(cal, e, p, e') && Arrumado(e)
    ensures Arrumado(e')
  {
  }

  /** A step moves bytes from the queue to the table; only a sample brings new ones. */
  lemma MemoryBalance(cal: Calendario, e: Estado, p: Passo, e': Estado, quais: Instante -> bool, side: Side)
    requires Um(cal, e, p, e') && Arrumado(e) && Identificados(quais)
    ensures EmMemoria(e', quais, side) + EscritoEm(e, p, quais, side)
         == EmMemoria(e, quais, side) + MedidoEm(p, quais, side)
  {
    if p.Amostra? {
      TotalMore(e.fila, quais, side, p.i, p.d);
    } else if p.Escrever? {
      WriteBalance(cal, e, p, e', quais, side);
    } else {
      FlushBalance(cal, e, p, e', quais, side);
    }
  }

  lemma WriteBalance(cal: Calendario, e: Estado, p: Passo, e': Estado, quais: Instante -> bool, side: Side)
    requires Um(cal, e, p, e') && Arrumado(e) && p.Escrever?
    ensures EmMemoria(e', quais, side) + EscritoEm(e, p, quais, side) == EmMemoria(e, quais, side)
  {
    TotalWithout(e.emVoo, quais, side, p.i);
    TotalMore(e.falhou, quais, side, p.i, e.emVoo[p.i]);
    Unattempted(e.falhou, p.i, e.emVoo[p.i]);
  }

  lemma FlushBalance(cal: Calendario, e: Estado, p: Passo, e': Estado, quais: Instante -> bool, side: Side)
    requires Um(cal, e, p, e') && Arrumado(e) && !p.Amostra? && !p.Escrever?
    ensures EmMemoria(e', quais, side) == EmMemoria(e, quais, side)
  {
    TotalJoined(e.fila, e.emVoo, quais, side);
    TotalJoined(e.fila, e.falhou, quais, side);
  }

  lemma Unattempted(f: Fila, i: Instante, d: Delta)
    ensures i !in f ==> More(f, i, d) == f[i := d]
  {
  }

  /** The table gains, as `tab` counts it, what the step writes. */
  ghost predicate Registra(
    tab: Tabela -> nat, e: Estado, p: Passo, e': Estado, quais: Instante -> bool, side: Side)
  {
    tab(e'.uso) == tab(e.uso) + EscritoEm(e, p, quais, side)
  }

  lemma {:induction false} Conservation(
    cal: Calendario, es: seq<Estado>, ps: seq<Passo>, quais: Instante -> bool, tab: Tabela -> nat, side: Side)
    requires Corrida(cal, es, ps) && Identificados(quais)
    requires forall i: nat | i < |ps| :: Registra(tab, es[i], ps[i], es[i + 1], quais, side)
    ensures Arrumado(es[|ps|])
    ensures tab(es[0].uso) + Medido(ps, quais, side) == EmMemoria(es[|ps|], quais, side) + tab(es[|ps|].uso)
    decreases |ps|
  {
    var n := |ps| - 1;
    if n >= 0 {
      Shorter(cal, es, ps);
      forall i: nat | i < n ensures Registra(tab, es[..|ps|][i], ps[..n][i], es[..|ps|][i + 1], quais, side) {
        assert Registra(tab, es[i], ps[i], es[i + 1], quais, side);
      }
      Conservation(cal, es[..|ps|], ps[..n], quais, tab, side);
      assert Um(cal, es[n], ps[n], es[n + 1]);
      assert Registra(tab, es[n], ps[n], es[n + 1], quais, side);
      Arruma(cal, es[n], ps[n], es[n + 1]);
      MemoryBalance(cal, es[n], ps[n], es[n + 1], quais, side);
    }
  }

  lemma Shorter(cal: Calendario, es: seq<Estado>, ps: seq<Passo>)
    requires Corrida(cal, es, ps) && ps != []
    ensures Corrida(cal, es[..|ps|], ps[..|ps| - 1])
  {
    forall i: nat | i < |ps| - 1 ensures Um(cal, es[..|ps|][i], ps[..|ps| - 1][i], es[..|ps|][i + 1]) {
      assert Um(cal, es[i], ps[i], es[i + 1]);
    }
  }

  // ----- every byte of a device

  /** The samples of a device. */
  function Dele(mac: string): Instante -> bool { (i: Instante) => i.mac == mac }

  lemma TableBalance(cal: Calendario, e: Estado, p: Passo, e': Estado, mac: string, side: Side)
    requires Um(cal, e, p, e')
    ensures TotalDe(e'.uso, mac, side) == TotalDe(e.uso, mac, side) + EscritoEm(e, p, Dele(mac), side)
  {
    if p.Escrever? && p.ok {
      TotalMore(e.uso, (k: Chave) => DoAparelho(mac, k), side, ChaveDe(cal, e.fase.lidas, p.i), e.emVoo[p.i]);
    } else if p.Mover? {
      MoveConserves(e.uso, Chave(p.mac, p.de), Chave(p.mac, p.para), mac, side);
    }
  }

  /**
   * Whatever fails and whatever quota is changed or removed in between: the bytes accepted of a
   * device are the bytes still in memory and the bytes that its rows gained.
   */
  lemma EveryByteIsAccountedFor(cal: Calendario, es: seq<Estado>, ps: seq<Passo>, mac: string, side: Side)
    requires Corrida(cal, es, ps) && mac != ""
    ensures TotalDe(es[0].uso, mac, side) + Medido(ps, Dele(mac), side)
         == EmMemoria(es[|ps|], Dele(mac), side) + TotalDe(es[|ps|].uso, mac, side)
  {
    var tab := (t: Tabela) => TotalDe(t, mac, side);
    forall i: nat | i < |ps| ensures Registra(tab, es[i], ps[i], es[i + 1], Dele(mac), side) {
      assert Um(cal, es[i], ps[i], es[i + 1]);
      TableBalance(cal, es[i], ps[i], es[i + 1], mac, side);
    }
    Conservation(cal, es, ps, Dele(mac), tab, side);
  }

  // ----- a fixed quota: each cycle gets what was measured in it

  /** The samples that belong to the row `k` under quota `q`. */
  function NaLinha(cal: Calendario, q: Cota, k: Chave): Instante -> bool {
    (i: Instante) => i.mac == k.mac && CicloDe(cal, q, i.ts) == k.ciclo
  }

  predicate Redefine(p: Passo, mac: string) { (p.GravarCota? || p.Mover?) && p.mac == mac }

  /** No step of the run redeclares the quota of `mac`; removing it is allowed, and keeps the cycle. */
  ghost predicate CotaFixa(ps: seq<Passo>, mac: string) { forall i: nat | i < |ps| :: !Redefine(ps[i], mac) }

  ghost predicate MesmoCiclo(q: Cota, r: Cota) { PeriodoDe(q) == PeriodoDe(r) && DiaDe(q) == DiaDe(r) }

  ghost predicate CotaVigente(e: Estado, mac: string, q: Cota) {
    && MesmoCiclo(CotaDe(e.cotas, mac), q)
    && (e.fase.Gravando? ==> MesmoCiclo(CotaDe(e.fase.lidas, mac), q))
  }

  lemma QuotaStays(cal: Calendario, e: Estado, p: Passo, e': Estado, mac: string, q: Cota)
    requires Um(cal, e, p, e') && CotaVigente(e, mac, q) && !Redefine(p, mac)
    ensures CotaVigente(e', mac, q)
  {
  }

  lemma {:induction false} QuotaHolds(cal: Calendario, es: seq<Estado>, ps: seq<Passo>, mac: string, q: Cota, i: nat)
    requires Corrida(cal, es, ps) && CotaFixa(ps, mac) && q == CotaDe(es[0].cotas, mac) && i <= |ps|
    ensures CotaVigente(es[i], mac, q)
  {
    if i > 0 {
      var j: nat := i - 1;
      QuotaHolds(cal, es, ps, mac, q, j);
      assert Um(cal, es[j], ps[j], es[j + 1]) && !Redefine(ps[j], mac);
      QuotaStays(cal, es[j], ps[j], es[j + 1], mac, q);
    }
  }

  lemma RowBalance(cal: Calendario, e: Estado, p: Passo, e': Estado, q: Cota, k: Chave, side: Side)
    requires Um(cal, e, p, e') && CotaVigente(e, k.mac, q) && !Redefine(p, k.mac)
    ensures Of(At(e'.uso, k), side) == Of(At(e.uso, k), side) + EscritoEm(e, p, NaLinha(cal, q, k), side)
  {
    if p.Escrever? && p.ok {
      assert k == ChaveDe(cal, e.fase.lidas, p.i) <==> NaLinha(cal, q, k)(p.i);
    } else if p.Mover? && p.de != p.para {
      RowMoved(e.uso, Chave(p.mac, p.de), Chave(p.mac, p.para), k, side);
    }
  }

  /**
   * With a fixed quota, the row of each cycle gains the bytes measured in that cycle, except
   * those still in memory, however samples, flushes and failures interleave.
   */
  lemma EachCycleGetsItsBytes(cal: Calendario, es: seq<Estado>, ps: seq<Passo>, q: Cota, k: Chave, side: Side)
    requires Corrida(cal, es, ps) && k.mac != "" && CotaFixa(ps, k.mac) && q == CotaDe(es[0].cotas, k.mac)
    ensures Arrumado(es[|ps|])
    ensures Of(At(es[0].uso, k), side) + Medido(ps, NaLinha(cal, q, k), side)
         == EmMemoria(es[|ps|], NaLinha(cal, q, k), side) + Of(At(es[|ps|].uso, k), side)
  {
    var quais := NaLinha(cal, q, k);
    var tab := (t: Tabela) => Of(At(t, k), side);
    forall i: nat | i < |ps| ensures Registra(tab, es[i], ps[i], es[i + 1], quais, side) {
      assert Um(cal, es[i], ps[i], es[i + 1]) && !Redefine(ps[i], k.mac);
      QuotaHolds(cal, es, ps, k.mac, q, i);
      RowBalance(cal, es[i], ps[i], es[i + 1], q, k, side);
    }
    Conservation(cal, es, ps, quais, tab, side);
  }

  /** Between flushes, with nothing of the device in the queue. */
  ghost predicate Descarregado(e: Estado, mac: string) { e.fase == Ocioso && forall i | i in e.fila :: i.mac != mac }

  /** After a flush that wrote everything, each row gained exactly what was measured in its cycle. */
  lemma RowAfterFlush(cal: Calendario, es: seq<Estado>, ps: seq<Passo>, q: Cota, k: Chave, side: Side)
    requires Corrida(cal, es, ps) && k.mac != "" && CotaFixa(ps, k.mac) && q == CotaDe(es[0].cotas, k.mac)
    requires Descarregado(es[|ps|], k.mac)
    ensures Of(At(es[|ps|].uso, k), side) == Of(At(es[0].uso, k), side) + Medido(ps, NaLinha(cal, q, k), side)
  {
    EachCycleGetsItsBytes(cal, es, ps, q, k, side);
    TotalOfOthers(es[|ps|].fila, NaLinha(cal, q, k), side);
  }

  /** So the rows do not show when the flushes ran, nor which of them failed. */
  lemma ScheduleIndependence(
    cal: Calendario, es: seq<Estado>, ps: seq<Passo>, es': seq<Estado>, ps': seq<Passo>, q: Cota, k: Chave)
    requires Corrida(cal, es, ps) && CotaFixa(ps, k.mac) && q == CotaDe(es[0].cotas, k.mac)
    requires Corrida(cal, es', ps') && CotaFixa(ps', k.mac) && q == CotaDe(es'[0].cotas, k.mac)
    requires k.mac != "" && es[0].uso == es'[0].uso && Amostras(ps, k.mac) == Amostras(ps', k.mac)
    requires Descarregado(es[|ps|], k.mac) && Descarregado(es'[|ps'|], k.mac)
    ensures At(es[|ps|].uso, k) == At(es'[|ps'|].uso, k)
  {
    SameRow(cal, es, ps, es', ps', q, k, Rx);
    SameRow(cal, es, ps, es', ps', q, k, Tx);
  }

  lemma SameRow(
    cal: Calendario, es: seq<Estado>, ps: seq<Passo>, es': seq<Estado>, ps': seq<Passo>, q: Cota, k: Chave, side: Side)
    requires Corrida(cal, es, ps) && CotaFixa(ps, k.mac) && q == CotaDe(es[0].cotas, k.mac)
    requires Corrida(cal, es', ps') && CotaFixa(ps', k.mac) && q == CotaDe(es'[0].cotas, k.mac)
    requires k.mac != "" && es[0].uso == es'[0].uso && Amostras(ps, k.mac) == Amostras(ps', k.mac)
    requires Descarregado(es[|ps|], k.mac) && Descarregado(es'[|ps'|], k.mac)
    ensures Of(At(es[|ps|].uso, k), side) == Of(At(es'[|ps'|].uso, k), side)
  {
    RowAfterFlush(cal, es, ps, q, k, side);
    RowAfterFlush(cal, es', ps', q, k, side);
    OnlySamplesMatter(ps, k.mac, NaLinha(cal, q, k), side);
    OnlySamplesMatter(ps', k.mac, NaLinha(cal, q, k), side);
  }

  /** The samples of one device in a run. */
  ghost function Amostras(ps: seq<Passo>, mac: string): seq<Passo>
    decreases |ps|
  {
    if ps == [] then []
    else
      var p := ps[|ps| - 1];
      Amostras(ps[..|ps| - 1], mac) + (if p.Amostra? && p.i.mac == mac then [p] else [])
  }

  lemma {:induction false} OnlySamplesMatter(ps: seq<Passo>, mac: string, quais: Instante -> bool, side: Side)
    requires forall i | quais(i) :: i.mac == mac
    ensures Medido(ps, quais, side) == Medido(Amostras(ps, mac), quais, side)
    decreases |ps|
  {
    if ps != [] {
      var n := |ps| - 1;
      OnlySamplesMatter(ps[..n], mac, quais, side);
      AmostrasStep(ps, mac);
    }
  }

  lemma AmostrasStep(ps: seq<Passo>, mac: string)
    requires ps != []
    ensures var before, after, p := Amostras(ps[..|ps| - 1], mac), Amostras(ps, mac), ps[|ps| - 1];
      if p.Amostra? && p.i.mac == mac
      then after != [] && after[|after| - 1] == p && after[..|after| - 1] == before
      else after == before
  {
  }
}
