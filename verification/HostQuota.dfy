/** Byte accounting by device and cycle: `internal/hostquota/hostquota.go` and `internal/storage/repo_hostquota.go`. */
module HostQuota {
  import opened Options
  import opened Bytes

  const MENSAL := "monthly"
  const DIARIO := "daily"
  const MAX_CYCLE_DAY := 28

  /** The start of the cycle that an instant belongs to, by period and closing day. */
  type Calendario = (int, string, int) -> int

  datatype Cota = Cota(limite: real, periodo: string, dia: int, alertaPct: int, alerta: bool)
  datatype Ciclo = Ciclo(periodo: string, inicio: int)
  datatype Chave = Chave(mac: string, ciclo: Ciclo)

  /** A device and the instant of a sample. */
  datatype Instante = Instante(mac: string, ts: int)

  type Cotas = map<string, Cota>
  /** The table of stored usage. */
  type Tabela = map<Chave, Delta>
  /** What was measured and not stored. */
  type Fila = map<Instante, Delta>

  const NENHUMA := Cota(0.0, "", 0, 0, false)

  function CotaDe(qs: Cotas, mac: string): Cota { if mac in qs then qs[mac] else NENHUMA }
  function PeriodoDe(q: Cota): string { if q.periodo == "" then MENSAL else q.periodo }
  function DiaDe(q: Cota): int { if q.dia < 1 then 1 else q.dia }
  function CicloDe(cal: Calendario, q: Cota, t: int): Ciclo { Ciclo(PeriodoDe(q), cal(t, PeriodoDe(q), DiaDe(q))) }

  /** The row that a sample goes to. */
  function ChaveDe(cal: Calendario, qs: Cotas, i: Instante): Chave {
    Chave(i.mac, CicloDe(cal, CotaDe(qs, i.mac), i.ts))
  }

  /** A device that is not identified, and a silent one, are not queued. */
  function Somado(f: Fila, i: Instante, d: Delta): Fila {
    if i.mac == "" || d == ZERO then f else More(f, i, d)
  }

  /** Moving the usage of one cycle to another key, in one transaction. */
  function Movido(t: Tabela, de: Chave, para: Chave): Tabela {
    if de == para || de !in t then t else Without(More(t, para, t[de]), de)
  }

  predicate DoAparelho(mac: string, k: Chave) { k.mac == mac }

  /** What the rows of a device hold together. */
  ghost function TotalDe(t: Tabela, mac: string, side: Side): nat { Total(t, (k: Chave) => DoAparelho(mac, k), side) }

  lemma RowMoved(t: Tabela, de: Chave, para: Chave, k: Chave, side: Side)
    requires de != para
    ensures Of(At(Movido(t, de, para), k), side) ==
            if k == de then 0
            else if k == para then Of(At(t, para), side) + Of(At(t, de), side)
            else Of(At(t, k), side)
  {
  }

  /** Moving a cycle neither loses a byte of the device nor counts one twice. */
  lemma {:induction false} MoveConserves(t: Tabela, de: Chave, para: Chave, quem: string, side: Side)
    requires de.mac == para.mac
    ensures TotalDe(Movido(t, de, para), quem, side) == TotalDe(t, quem, side)
  {
    var among := (k: Chave) => DoAparelho(quem, k);
    if de != para && de in t {
      TotalMore(t, among, side, para, t[de]);
      TotalWithout(More(t, para, t[de]), among, side, de);
    }
  }

  // ----- declaring and removing a quota

  /** What Save stores; nothing when it refuses. */
  function Normalizada(q: Cota): Option<Cota> {
    var periodo := if q.periodo == "" then MENSAL else q.periodo;
    var dia := if periodo == DIARIO then 1 else q.dia;
    if q.limite < 0.0 || (periodo != MENSAL && periodo != DIARIO) || dia < 1 || dia > MAX_CYCLE_DAY
       || q.alertaPct < 1 || q.alertaPct > 100
    then None
    else Some(q.(periodo := periodo, dia := dia, alerta := q.limite > 0.0))
  }

  predicate Mensal(periodo: string) { periodo == "" || periodo == "monthly" }

  /** A quota is accepted exactly when it is in range; a daily one has no closing day to check. */
  lemma AcceptedIff(q: Cota)
    ensures Normalizada(q).Some? <==>
            && q.limite >= 0.0 && 1 <= q.alertaPct <= 100
            && ((Mensal(q.periodo) && 1 <= q.dia <= 28) || q.periodo == "daily")
    ensures Normalizada(q).Some? ==> var r := Normalizada(q).value;
      r == Cota(q.limite, if q.periodo == "daily" then "daily" else "monthly",
                if q.periodo == "daily" then 1 else q.dia, q.alertaPct, q.limite > 0.0)
  {
  }

  /**
   The row a sample goes to: the cycle of the period and the closing day declared for its device, and the calendar
   month of a device with none declared.
   */
  lemma RowOfASample(cal: Calendario, qs: Cotas, declarada: Option<Cota>, i: Instante)
    requires declarada.Some? ==> Normalizada(declarada.value).Some?
    requires if declarada.Some? then i.mac in qs && qs[i.mac] == Normalizada(declarada.value).value else i.mac !in qs
    ensures ChaveDe(cal, qs, i) ==
            if declarada.None? then Chave(i.mac, Ciclo("monthly", cal(i.ts, "monthly", 1)))
            else if Mensal(declarada.value.periodo)
            then Chave(i.mac, Ciclo("monthly", cal(i.ts, "monthly", declarada.value.dia)))
            else Chave(i.mac, Ciclo("daily", cal(i.ts, "daily", 1)))
  {
    if declarada.Some? { AcceptedIff(declarada.value); }
  }

  /** Removing keeps the row, so that it keeps the key of the cycle. */
  function Removida(q: Cota): Cota { q.(limite := 0.0, alerta := false) }
}
