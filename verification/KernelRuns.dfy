/** Whole runs of index and kernel: the mirror in every reachable state, and how rarely it renews. */
module KernelRuns {
  import opened Options
  import opened DomTargets
  import opened IndexInvariant
  import opened Adjustments
  import opened IndexRuns
  import opened Kernel
  import opened KernelMirror

  datatype Mundo = Mundo(st: Estado, k: Nft, t: int)

  /** A decision with its batch, applied at `tk` and answered at `tc`; or an index operation without one. */
  datatype PassoK =
    | Aceito(p: Passo, st: Estado, aj: Ajuste, l: Lote, tk: int, tc: int)
    | Recusado(p: Passo, st: Estado, aj: Ajuste, l: Lote, tc: int)
    | Outro(q: Passo, t: int)

  function Instante(p: Passo): int
    requires p.Lista? || p.Resposta?
  {
    p.agora
  }

  ghost predicate Decide(m: Mundo, p: Passo, st: Estado, aj: Ajuste, l: Lote) {
    && (p.Lista? || p.Resposta?) && m.t <= Instante(p)
    && Transicao(m.st, p, st, aj) && EhLote(l, aj.escritas, aj.remocoes)
  }

  ghost predicate AndaAceito(m: Mundo, x: PassoK, n: Mundo)
    requires x.Aceito?
  {
    && Decide(m, x.p, x.st, x.aj, x.l) && Instante(x.p) <= x.tk <= x.tc && Aceita(m.k, x.l, x.tk)
    && n == Mundo(x.st.(ends := ConfirmarEnds(x.st.ends, AdicoesDoLote(x.l), x.tc)), Aplicado(m.k, x.l, x.tk), x.tc)
  }

  /** A refused batch that carried no removal leaves nothing to try again (KernelQueue has the others). */
  ghost predicate AndaRecusado(m: Mundo, x: PassoK, n: Mundo)
    requires x.Recusado?
  {
    && Decide(m, x.p, x.st, x.aj, x.l) && Instante(x.p) <= x.tc
    && x.aj.remocoes == []
    && n == Mundo(x.st.(ends := NaoConfirmadoEnds(x.st.ends, AdicoesDoLote(x.l))), m.k, x.tc)
  }

  ghost predicate AndaOutro(m: Mundo, x: PassoK, n: Mundo)
    requires x.Outro?
  {
    && m.t <= x.t
    && match x.q
       case Poda(agora) => agora == x.t && n == Mundo(Podar(m.st, x.t), m.k, x.t)
       case Protege(faixas) => n == Mundo(m.st.(protegidos := faixas), m.k, x.t)
       case _ => false
  }

  ghost predicate Anda(m: Mundo, x: PassoK, n: Mundo) {
    match x
    case Aceito(_, _, _, _, _, _) => AndaAceito(m, x, n)
    case Recusado(_, _, _, _, _) => AndaRecusado(m, x, n)
    case Outro(_, _) => AndaOutro(m, x, n)
  }

  datatype Corrida = Boot(t: int) | Mais(antes: Corrida, passo: PassoK, m: Mundo)

  /** At boot the index is new and the three structures have just been flushed. */
  ghost function Agora(c: Corrida): Mundo {
    if c.Boot? then Mundo(INICIAL, map[], c.t) else c.m
  }

  ghost predicate Valida(c: Corrida) {
    c.Mais? ==> Valida(c.antes) && Anda(Agora(c.antes), c.passo, c.m)
  }

  ghost predicate Espelhado(m: Mundo) {
    Valido(m.st) && SemPendentes(m.st.ends) && Espelho(m.st.ends, m.k, m.t)
  }

  lemma DecisaoCoerente(m: Mundo, p: Passo, st: Estado, aj: Ajuste, l: Lote)
    requires Espelhado(m) && Decide(m, p, st, aj, l)
    ensures Valido(st) && Decisao(m.st.ends, Obra(st.ends, aj), m.k, l, Instante(p))
  {
    if p.Lista? {
      DefinirCoerente(m.st, p.lista, p.agora, st, aj);
      DefinirKeeps(m.st, p.lista, p.agora, st, aj);
    } else {
      AprenderCoerente(m.st, p.nome, p.addrs, p.ttl, p.agora);
      AprenderKeeps(m.st, p.nome, p.addrs, p.ttl, p.agora);
    }
    TimePasses(m.st.ends, m.k, m.t, p.agora);
  }

  lemma AcceptedStepKeepsMirror(m: Mundo, x: PassoK, n: Mundo)
    requires Espelhado(m) && x.Aceito? && AndaAceito(m, x, n)
    ensures Espelhado(n)
  {
    DecisaoCoerente(m, x.p, x.st, x.aj, x.l);
    var o := Obra(x.st.ends, x.aj);
    ConfirmedBatchKeepsMirror(m.st.ends, o, m.k, x.l, Instante(x.p), x.tk, x.tc);
    AnsweredLeavesNonePending(m.st.ends, o, x.l, o.aj.remocoes, Instante(x.p), x.tc);
    ConfirmarKeeps(x.st.alvos, x.st.ends, AdicoesDoLote(x.l), x.tc);
  }

  lemma RefusedStepKeepsMirror(m: Mundo, x: PassoK, n: Mundo)
    requires Espelhado(m) && x.Recusado? && AndaRecusado(m, x, n)
    ensures Espelhado(n)
  {
    DecisaoCoerente(m, x.p, x.st, x.aj, x.l);
    var o := Obra(x.st.ends, x.aj);
    RefusedBatchKeepsMirrorIff(m.st.ends, o, m.k, x.l, Instante(x.p), x.tc);
    AnsweredLeavesNonePending(m.st.ends, o, x.l, o.aj.remocoes, Instante(x.p), x.tc);
    NaoConfirmadoKeeps(x.st.alvos, x.st.ends, AdicoesDoLote(x.l));
  }

  lemma PruneStepKeepsMirror(m: Mundo, t: int)
    requires Espelhado(m) && m.t <= t
    ensures Espelhado(Mundo(Podar(m.st, t), m.k, t))
  {
    TimePasses(m.st.ends, m.k, m.t, t);
    PruneKeepsMirror(m.st.ends, m.k, t);
    PodarKeeps(m.st, t);
  }

  lemma OtherStepKeepsMirror(m: Mundo, x: PassoK, n: Mundo)
    requires Espelhado(m) && x.Outro? && AndaOutro(m, x, n)
    ensures Espelhado(n)
  {
    match x.q {
      case Poda(_) => PruneStepKeepsMirror(m, x.t);
      case Protege(_) => TimePasses(m.st.ends, m.k, m.t, x.t);
    }
  }

  /** In every reachable state the index mirrors the kernel. */
  lemma {:induction false} EveryRunMirrorsTheKernel(c: Corrida)
    requires Valida(c)
    ensures Espelhado(Agora(c))
  {
    if c.Boot? {
      assert forall d :: Reivindicados(INICIAL.ends, d) == {};
    } else {
      EveryRunMirrorsTheKernel(c.antes);
      match c.passo {
        case Aceito(_, _, _, _, _, _) => AcceptedStepKeepsMirror(Agora(c.antes), c.passo, c.m);
        case Recusado(_, _, _, _, _) => RefusedStepKeepsMirror(Agora(c.antes), c.passo, c.m);
        case Outro(_, _) => OtherStepKeepsMirror(Agora(c.antes), c.passo, c.m);
      }
    }
  }

  /** Any next decision of any run yields a batch the kernel takes, unless what it deletes expired first. */
  lemma EveryBatchIsAccepted(c: Corrida, p: Passo, st: Estado, aj: Ajuste, l: Lote, tk: int)
    requires Valida(c) && Decide(Agora(c), p, st, aj, l)
    ensures Aceita(Agora(c).k, l, tk) <==> forall x | Tirado(l, x) && x in Agora(c).k :: Agora(c).k[x].vence > tk
    ensures forall x | Tirado(l, x) :: x in Agora(c).k
  {
    EveryRunMirrorsTheKernel(c);
    DecisaoCoerente(Agora(c), p, st, aj, l);
    BatchAccepted(Agora(c).st.ends, Obra(st.ends, aj), Agora(c).k, l, Instante(p), tk);
  }

  /** In every reachable state, an address Podar forgets is in no kernel structure any more. */
  lemma PruneNeverForgetsAHeldAddress(c: Corrida, t: int, x: Casa)
    requires Valida(c) && Agora(c).t <= t
    requires x.a in Agora(c).st.ends && x.a !in Podar(Agora(c).st, t).ends
    ensures !Tem(Agora(c).k, x, t)
  {
    EveryRunMirrorsTheKernel(c);
    TimePasses(Agora(c).st.ends, Agora(c).k, Agora(c).t, t);
    PruneForgetsOnlyExpired(Agora(c).st.ends, Agora(c).k, t, x);
  }

  // ----- write economy

  ghost predicate TudoConfirmado(c: Corrida) {
    c.Mais? ==> !c.passo.Recusado? && TudoConfirmado(c.antes)
  }

  /** When the last write of `a` was decided, and the time it granted. */
  datatype Concessao = Concessao(t: int, prazo: int)

  ghost predicate EhEscritaDe(aj: Ajuste, a: Addr, e: Escrita) { e in aj.escritas && e.addr == a }

  ghost function UltimaEscrita(c: Corrida, a: Addr): Option<Concessao>
    requires Valida(c)
  {
    if c.Boot? then None
    else if c.passo.Aceito? && exists e :: EhEscritaDe(c.passo.aj, a, e) then
      var e :| EhEscritaDe(c.passo.aj, a, e);
      Some(Concessao(Instante(c.passo.p), e.prazo))
    else UltimaEscrita(c.antes, a)
  }

  ghost predicate Concedida(r: Registro, u: Option<Concessao>) {
    r.escrito.Some? ==> u.Some? && r.expira >= u.value.t + u.value.prazo && r.concedido == u.value.prazo && !r.duvidoso
  }

  /** An accepted batch that writes `a` grants what it wrote; one that does not leaves the grant alone. */
  lemma GrantAfterBatch(m: Mundo, x: PassoK, n: Mundo, a: Addr, u: Option<Concessao>, depois: Option<Concessao>)
    requires Espelhado(m) && x.Aceito? && AndaAceito(m, x, n) && a in n.st.ends
    requires a in m.st.ends ==> Concedida(m.st.ends[a], u)
    requires if Escreve(x.aj, a)
             then exists e :: (EhEscritaDe(x.aj, a, e) && depois == Some(Concessao(Instante(x.p), e.prazo)))
             else depois == u
    ensures Concedida(n.st.ends[a], depois)
  {
    DecisaoCoerente(m, x.p, x.st, x.aj, x.l);
    var o, t := Obra(x.st.ends, x.aj), Instante(x.p);
    assert EntradaCoerente(m.st.ends, o, a);
    if Escreve(x.aj, a) {
      var e :| EhEscritaDe(x.aj, a, e) && depois == Some(Concessao(t, e.prazo));
      assert EscritaCoerente(m.st.ends, t, o, e);
      PendingAreAdded(m.st.ends, o, x.l, o.aj.remocoes, t, a);
    }
  }

  lemma LastWriteUnfolds(c: Corrida, a: Addr)
    requires Valida(c) && c.Mais? && c.passo.Aceito?
    ensures if Escreve(c.passo.aj, a)
            then exists e ::
              EhEscritaDe(c.passo.aj, a, e) && UltimaEscrita(c, a) == Some(Concessao(Instante(c.passo.p), e.prazo))
            else UltimaEscrita(c, a) == UltimaEscrita(c.antes, a)
  {
    if e :| e in c.passo.aj.escritas && e.addr == a { assert EhEscritaDe(c.passo.aj, a, e); }
  }

  lemma {:induction false} GrantIsTheLastWrite(c: Corrida, a: Addr)
    requires Valida(c) && TudoConfirmado(c)
    ensures a in Agora(c).st.ends ==> Concedida(Agora(c).st.ends[a], UltimaEscrita(c, a))
  {
    if c.Mais? && a in c.m.st.ends {
      GrantIsTheLastWrite(c.antes, a);
      if c.passo.Aceito? {
        EveryRunMirrorsTheKernel(c.antes);
        LastWriteUnfolds(c, a);
        GrantAfterBatch(Agora(c.antes), c.passo, c.m, a, UltimaEscrita(c.antes, a), UltimaEscrita(c, a));
      }
    }
  }

  /** The newest step renewed `a`: its batch deletes and re-adds the element in place. */
  ghost predicate Renova(c: Corrida, a: Addr) {
    c.Mais? && c.passo.Aceito? && exists e :: EhEscritaDe(c.passo.aj, a, e) && e.substituir
  }

  /**
   A renewal comes only when more than two thirds of what the last write of that address
   granted have passed since that write was decided.
   */
  lemma RenewalsAreSpaced(c: Corrida, a: Addr)
    requires Valida(c) && TudoConfirmado(c) && Renova(c, a)
    ensures UltimaEscrita(c.antes, a).Some?
    ensures var u := UltimaEscrita(c.antes, a).value;
            Instante(c.passo.p) - u.t > u.prazo - u.prazo / FRACAO_DE_RENOVACAO >= PISO - PISO / FRACAO_DE_RENOVACAO
  {
    EveryRunMirrorsTheKernel(c.antes);
    GrantIsTheLastWrite(c.antes, a);
    var x, m := c.passo, Agora(c.antes);
    DecisaoCoerente(m, x.p, x.st, x.aj, x.l);
    var e :| EhEscritaDe(x.aj, a, e) && e.substituir;
    assert EscritaCoerente(m.st.ends, Instante(x.p), Obra(x.st.ends, x.aj), e);
    assert RegistroValido(m.st.alvos, a, m.st.ends[a]);
  }

  ghost function Renovacoes(c: Corrida, a: Addr): nat
    requires Valida(c)
  {
    if c.Boot? then 0 else Renovacoes(c.antes, a) + if Renova(c, a) then 1 else 0
  }

  /** The instant of the first renewal of `a` in the run. */
  ghost function PrimeiraRenovacao(c: Corrida, a: Addr): int
    requires Valida(c) && Renovacoes(c, a) > 0
  {
    if Renovacoes(c.antes, a) > 0 then PrimeiraRenovacao(c.antes, a) else Instante(c.passo.p)
  }

  const INTERVALO := PISO - PISO / FRACAO_DE_RENOVACAO

  lemma MulMonotone(x: int, y: int, g: nat)
    requires x <= y
    ensures x * g <= y * g
  {
  }

  lemma IntervalsFit(n: nat, g: int, ate: int, total: int)
    requires g > 0 && n * g <= ate <= total
    ensures n <= total / g
  {
    if n > total / g { MulMonotone(total / g + 1, n, g); }
  }

  lemma {:induction false} RenewalsSoFar(c: Corrida, a: Addr)
    requires Valida(c) && TudoConfirmado(c) && Renovacoes(c, a) > 0
    ensures UltimaEscrita(c, a).Some?
    ensures Espacadas(Renovacoes(c, a), PrimeiraRenovacao(c, a), UltimaEscrita(c, a).value.t)
  {
    if Renovacoes(c.antes, a) > 0 { RenewalsSoFar(c.antes, a); }
    if Renova(c, a) {
      RenewalSoFar(c, a);
    } else {
      WriteSoFar(c, a);
    }
  }

  /** `n` renewals up to `last`, the first one at `first`, each at least an interval after the one before. */
  predicate Espacadas(n: nat, first: int, last: int) { n > 0 ==> Intervalos(n - 1) <= last - first }

  function Intervalos(n: nat): int { if n == 0 then 0 else Intervalos(n - 1) + INTERVALO }

  lemma {:induction false} IntervalsAdd(n: nat)
    ensures Intervalos(n) == n * INTERVALO
  {
    if n > 0 {
      IntervalsAdd(n - 1);
      OneMoreProduct(n - 1, INTERVALO);
    }
  }

  lemma OneMoreProduct(n: nat, g: int)
    ensures (n + 1) * g == n * g + g
  {
  }

  lemma OneMoreRenewal(n: nat, first: int, last: int, now: int)
    requires n > 0 && Espacadas(n, first, last) && now - last >= INTERVALO
    ensures Espacadas(n + 1, first, now)
  {
  }

  lemma RenewalIsTheLastWrite(c: Corrida, a: Addr)
    requires Valida(c) && TudoConfirmado(c) && Renova(c, a)
    ensures UltimaEscrita(c, a).Some? && UltimaEscrita(c, a).value.t == Instante(c.passo.p)
    ensures UltimaEscrita(c.antes, a).Some? && Instante(c.passo.p) - UltimaEscrita(c.antes, a).value.t >= INTERVALO
  {
    RenewalsAreSpaced(c, a);
    LastWriteUnfolds(c, a);
    var e :| EhEscritaDe(c.passo.aj, a, e);
    assert Escreve(c.passo.aj, a);
  }

  lemma RenewalSoFar(c: Corrida, a: Addr)
    requires Valida(c) && TudoConfirmado(c) && Renova(c, a)
    requires Renovacoes(c.antes, a) > 0 ==> UltimaEscrita(c.antes, a).Some?
    requires Renovacoes(c.antes, a) > 0 ==>
      Espacadas(Renovacoes(c.antes, a), PrimeiraRenovacao(c.antes, a), UltimaEscrita(c.antes, a).value.t)
    ensures UltimaEscrita(c, a).Some?
    ensures Espacadas(Renovacoes(c, a), PrimeiraRenovacao(c, a), UltimaEscrita(c, a).value.t)
  {
    RenewalIsTheLastWrite(c, a);
    OneMoreCounted(c, a);
    var n, now := Renovacoes(c.antes, a), Instante(c.passo.p);
    if n > 0 {
      OneMoreRenewal(n, PrimeiraRenovacao(c.antes, a), UltimaEscrita(c.antes, a).value.t, now);
    } else {
      FirstRenewal(now);
    }
  }

  lemma FirstRenewal(now: int)
    ensures Espacadas(1, now, now)
  {
  }

  lemma OneMoreCounted(c: Corrida, a: Addr)
    requires Valida(c) && Renova(c, a)
    ensures Renovacoes(c, a) == Renovacoes(c.antes, a) + 1
    ensures PrimeiraRenovacao(c, a) ==
      if Renovacoes(c.antes, a) > 0 then PrimeiraRenovacao(c.antes, a) else Instante(c.passo.p)
  {
  }

  lemma WriteSoFar(c: Corrida, a: Addr)
    requires Valida(c) && c.Mais? && !Renova(c, a) && Renovacoes(c, a) > 0 && UltimaEscrita(c.antes, a).Some?
    requires Espacadas(Renovacoes(c, a), PrimeiraRenovacao(c.antes, a), UltimaEscrita(c.antes, a).value.t)
    ensures UltimaEscrita(c, a).Some?
    ensures Espacadas(Renovacoes(c, a), PrimeiraRenovacao(c, a), UltimaEscrita(c, a).value.t)
  {
    LastWriteIsPast(c.antes, a);
  }

  lemma {:induction false} LastWriteIsPast(c: Corrida, a: Addr)
    requires Valida(c)
    ensures UltimaEscrita(c, a).Some? ==> UltimaEscrita(c, a).value.t <= Agora(c).t
  {
    if c.Mais? { LastWriteIsPast(c.antes, a); }
  }

  /** In a stretch of time T an address is renewed at most 1 + T / (floor - floor/3) times. */
  lemma RenewalsAreFew(c: Corrida, a: Addr)
    requires Valida(c) && TudoConfirmado(c) && Renovacoes(c, a) > 0
    ensures Renovacoes(c, a) <= 1 + (Agora(c).t - PrimeiraRenovacao(c, a)) / INTERVALO
  {
    RenewalsSoFar(c, a);
    LastWriteIsPast(c, a);
    RenewalsFit(Renovacoes(c, a), PrimeiraRenovacao(c, a), UltimaEscrita(c, a).value.t, Agora(c).t);
  }

  lemma RenewalsFit(n: nat, first: int, last: int, now: int)
    requires n > 0 && Espacadas(n, first, last) && last <= now
    ensures n <= 1 + (now - first) / INTERVALO
  {
    IntervalsAdd(n - 1);
    IntervalsFit(n - 1, INTERVALO, last - first, now - first);
  }
}
