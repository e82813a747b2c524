/**
 Index, feeder and kernel when batches fail: what a refused or retried batch leaves undone
 comes back to the feeder's queue, and is tried again with the next one.
 */
module KernelQueue {
  import opened Options
  import opened Order
  import opened DomTargets
  import opened IndexInvariant
  import opened Adjustments
  import opened IndexRuns
  import opened Kernel
  import opened KernelMirror
  import opened KernelRuns
  import opened Feeder

  /** `fila` is the queue of removals between batches; `desistidas` are the elements given up. */
  datatype Quadro = Quadro(st: Estado, k: Nft, t: int, fila: PendRemocoes, desistidas: set<Casa>)

  /** A removal of this element is pending. */
  ghost predicate Aguarda(pr: PendRemocoes, c: Casa) {
    exists k :: k in pr && k.addr == c.a && EstruturaDe(k.addr, k.capa) == Some(c.s)
  }

  /** Whatever the kernel holds is registered in the index, or its removal is pending, or was given up. */
  ghost predicate Coberto(ends: Ends, k: Nft, t: int, pr: PendRemocoes, desistidas: set<Casa>) {
    forall c | Tem(k, c, t) :: Registrado(ends, c, k[c]) || Aguarda(pr, c) || c in desistidas
  }

  ghost predicate Chaveada(pr: PendRemocoes) {
    forall k | k in pr :: k == ChaveDaRemocao(pr[k].rem) && pr[k].tentativas < MAX_TENTATIVAS
  }

  ghost predicate EmOrdem(q: Quadro) {
    Valido(q.st) && SemPendentes(q.st.ends) && Chaveada(q.fila) && Coberto(q.st.ends, q.k, q.t, q.fila, q.desistidas)
  }

  // ----- one step

  /** A decision, its batch with everything queued, what nft did with it, and what came back. */
  datatype Vez = Vez(
    p: Passo, st: Estado, aj: Ajuste, l: Lote, porAddr: map<Addr, RemocaoPend>,
    falha1: bool, falha2: bool, tk: int, tc: int, voltam: seq<RemocaoPend>, coube: bool)

  ghost function Pendente(q: Quadro, x: Vez): PendRemocoes { AcumularRemocoes(q.fila, x.aj.remocoes) }

  ghost function KernelApos(q: Quadro, x: Vez): Nft { AplicarLote(q.k, x.l, x.tk, x.falha1, x.falha2).0 }
  ghost function RespostaDoNft(q: Quadro, x: Vez): Resultado { AplicarLote(q.k, x.l, x.tk, x.falha1, x.falha2).1 }

  /** The elements whose removal is given up in this round. */
  ghost function Abandonadas(voltam: seq<RemocaoPend>, coube: bool): set<Casa> {
    set p | p in voltam && (!coube || Desiste(p)) && EstruturaDe(p.rem.addr, p.rem.cap).Some? ::
      Casa(EstruturaDe(p.rem.addr, p.rem.cap).value, p.rem.addr)
  }

  ghost predicate Rodou(q: Quadro, x: Vez, n: Quadro) {
    && (x.p.Lista? || x.p.Resposta?) && q.t <= Instante(x.p) <= x.tk <= x.tc
    && Transicao(q.st, x.p, x.st, x.aj)
    && LoteDe(x.l, AcumularEscritas(map[], x.aj.escritas), Pendente(q, x))
    && PorAddr(x.porAddr, Pendente(q, x))
    && (forall p :: p in x.voltam <==> Volta(x.porAddr, RespostaDoNft(q, x), p))
    && n == Quadro(
              x.st.(ends := Respondido(x.st.ends, AdicoesDoLote(x.l), RespostaDoNft(q, x), x.tc)),
              KernelApos(q, x), x.tc,
              if x.coube then Recolocadas(map[], x.voltam) else map[],
              q.desistidas + Abandonadas(x.voltam, x.coube))
  }

  // ----- the queue

  lemma {:induction false} RequeuedAre(pr: PendRemocoes, ps: seq<RemocaoPend>)
    requires Chaveada(pr) && forall p | p in ps :: p in pr.Values
    ensures forall k :: k in Recolocadas(map[], ps) <==> k in pr && pr[k] in ps && pr[k].tentativas == 0
    ensures forall k | k in Recolocadas(map[], ps) :: Recolocadas(map[], ps)[k] == RemocaoPend(pr[k].rem, 1)
    ensures Chaveada(Recolocadas(map[], ps))
    decreases |ps|
  {
    if ps != [] {
      var n := |ps| - 1;
      assert ps == ps[..n] + [ps[n]];
      RequeuedAre(pr, ps[..n]);
      assert ps[n] in ps && ps[n] in pr.Values;
      var u :| u in pr && pr[u] == ps[n];
      assert u == ChaveDaRemocao(ps[n].rem);
    }
  }

  /** A structure and an address leave one capability: one key. */
  lemma OneKey(j: Chave, k: Chave, c: Casa)
    requires j.addr == c.a == k.addr
    requires EstruturaDe(j.addr, j.capa) == Some(c.s) && EstruturaDe(k.addr, k.capa) == Some(c.s)
    ensures j == k
  {
  }

  ghost predicate EhDe(k: Chave, c: Casa) { k.addr == c.a && EstruturaDe(k.addr, k.capa) == Some(c.s) }

  /** nft refuses the batch as it is. */
  ghost predicate Recusada(q: Quadro, x: Vez) { x.l != LOTE_VAZIO && (!Aceita(q.k, x.l, x.tk) || x.falha1) }

  /** Of a refused batch, the writes that delete nothing go in by themselves. */
  ghost predicate Reenviada(x: Vez) { SoAdicoes(x.l) != LOTE_VAZIO && !x.falha2 }

  /** Another removal is carried for the address of this one. */
  ghost predicate Encoberta(q: Quadro, x: Vez, k: Chave)
    requires k in Pendente(q, x)
  {
    k.addr in x.porAddr ==> x.porAddr[k.addr] != Pendente(q, x)[k]
  }

  /**
   A pending removal that a refused batch loses: another of the same address is carried in its place,
   or the retry takes it for half of a renewal.
   */
  ghost predicate Solta(q: Quadro, x: Vez, k: Chave) {
    && k in Pendente(q, x) && Recusada(q, x)
    && (Encoberta(q, x, k) || (Reenviada(x) && k.addr !in RemocoesDoLote(x.l)))
  }

  /** The batch writes this address in a structure it does not delete it from. */
  ghost predicate Mudada(ends: Ends, l: Lote, a: Addr) {
    a in ends && ends[a].pendente.Some? && a !in RenovacoesDoLote(l)
  }

  /** Losing this removal does no harm: what it was to delete expires, was given up, or is still wanted where it is. */
  ghost predicate Inofensiva(q: Quadro, x: Vez, k: Chave) {
    forall s | EstruturaDe(k.addr, k.capa) == Some(s) ::
      var c := Casa(s, k.addr);
      Tem(q.k, c, x.tc) ==> c in q.desistidas || SegueRegistrado(x, c, q.k[c])
  }

  /** The index knows of this element, and the retry does not move its address elsewhere. */
  ghost predicate SegueRegistrado(x: Vez, c: Casa, e: Elemento) {
    Registrado(x.st.ends, c, e) && (Reenviada(x) ==> !Mudada(x.st.ends, x.l, c.a))
  }

  /** The elements whose removal this round loses, to some harm. */
  ghost function SoltasDe(q: Quadro, x: Vez): set<Casa> {
    set k | k in Pendente(q, x) && Solta(q, x, k) && !Inofensiva(q, x, k) && EstruturaDe(k.addr, k.capa).Some? ::
      Casa(EstruturaDe(k.addr, k.capa).value, k.addr)
  }

  // ----- the batch of a round

  lemma BatchOfRound(q: Quadro, x: Vez, n: Quadro) returns (rs: seq<Remocao>)
    requires EmOrdem(q) && Rodou(q, x, n)
    ensures Valido(x.st) && Chaveada(Pendente(q, x))
    ensures Feita(q.st.ends, Obra(x.st.ends, x.aj), x.l, rs, Instante(x.p))
    ensures forall m :: m in rs <==> m in Remocoes(Pendente(q, x))
    ensures forall k | k in q.fila :: k in Pendente(q, x)
  {
    AccumulatedRemovals(q.fila, x.aj.remocoes);
    QueueStays(q.fila, x.aj.remocoes);
    DecisionIsCoherent(q.st, x.p, x.st, x.aj);
    rs := OneOrderOf(Pendente(q, x));
    BatchOfAll(x.l, x.aj.escritas, Pendente(q, x), rs);
  }

  lemma DecisionIsCoherent(st: Estado, p: Passo, st': Estado, aj: Ajuste)
    requires Valido(st) && (p.Lista? || p.Resposta?) && Transicao(st, p, st', aj)
    ensures Valido(st') && Coerente(st.ends, Instante(p), Obra(st'.ends, aj))
  {
    if p.Lista? {
      DefinirCoerente(st, p.lista, p.agora, st', aj);
      DefinirKeeps(st, p.lista, p.agora, st', aj);
    } else {
      AprenderCoerente(st, p.nome, p.addrs, p.ttl, p.agora);
      AprenderKeeps(st, p.nome, p.addrs, p.ttl, p.agora);
    }
  }

  lemma OneOrderOf(pr: PendRemocoes) returns (rs: seq<Remocao>)
    requires Chaveada(pr)
    ensures forall m :: m in rs <==> m in Remocoes(pr)
  {
    PendingAreOrdered(map[], pr);
    SortedExists(Remocoes(pr), RemocaoLess);
    rs := Sorted(Remocoes(pr), RemocaoLess);
  }

  lemma BatchOfAll(l: Lote, es: seq<Escrita>, pr: PendRemocoes, rs: seq<Remocao>)
    requires LoteDe(l, AcumularEscritas(map[], es), pr) && (forall m :: m in rs <==> m in Remocoes(pr))
    requires forall i, j | 0 <= i < j < |es| :: es[i].addr != es[j].addr
    ensures EhLote(l, es, rs)
  {
    AccumulatedWrites(es);
  }

  lemma {:induction false} QueueStays(pr: PendRemocoes, rs: seq<Remocao>)
    ensures forall k | k in pr :: k in AcumularRemocoes(pr, rs)
    decreases |rs|
  {
    if rs != [] { QueueStays(pr, rs[..|rs| - 1]); }
  }

  lemma PendingIsTaken(l: Lote, es: seq<Escrita>, rs: seq<Remocao>, pr: PendRemocoes, c: Casa)
    requires EhLote(l, es, rs) && Chaveada(pr) && (forall m :: m in rs <==> m in Remocoes(pr)) && Aguarda(pr, c)
    ensures Tirado(l, c)
  {
    var k :| k in pr && k.addr == c.a && EstruturaDe(k.addr, k.capa) == Some(c.s);
    assert pr[k].rem in rs;
    assert ARemover(c.s, es, rs, c.a);
  }

  lemma TakenIsPendingOrRenewed(l: Lote, es: seq<Escrita>, rs: seq<Remocao>, pr: PendRemocoes, c: Casa)
    requires EhLote(l, es, rs) && Chaveada(pr) && (forall m :: m in rs <==> m in Remocoes(pr)) && Tirado(l, c)
    ensures Aguarda(pr, c)
         || exists e :: e in es && e.substituir && e.addr == c.a && EstruturaDe(c.a, e.lugar.cap) == Some(c.s)
  {
    assert ARemover(c.s, es, rs, c.a);
    if m :| m in rs && m.addr == c.a && EstruturaDe(c.a, m.cap) == Some(c.s) {
      assert m in Remocoes(pr);
      var k :| k in pr && pr[k].rem == m;
      assert k == ChaveDaRemocao(m);
    }
  }

  // ----- what an element is after the round

  /** An element the batch wrote is registered: the index confirms exactly those. */
  lemma NewIsRegistered(antes: Ends, o: Obra, l: Lote, rs: seq<Remocao>, t: int, res: Resultado, tk: int, tc: int,
                        c: Casa, x: Entrada)
    requires Feita(antes, o, l, rs, t) && tk <= tc && EhNova(l, c, x) && res.Feito?
    requires Completo(res) || (c.a !in Remover(l, c.s) && res.naoConfirmados == RenovacoesDoLote(l))
    ensures Registrado(Respondido(o.ends, AdicoesDoLote(l), res, tc), c, Elemento(x.marca, tk + x.prazo))
  {
    AdditionsArePending(antes, o, l, rs, t, c.s, x);
    PendingAreAdded(antes, o, l, rs, t, c.a);
    if Completo(res) {
      ConfirmedEntry(o.ends, AdicoesDoLote(l), tk, tc, c, x);
    } else {
      NotRenewed(antes, o, l, rs, t, c);
      var nc := Index.Conjunto(res.naoConfirmados);
      RetriedEntry(o.ends, AdicoesDoLote(l), nc, tc, c, Elemento(x.marca, tk + x.prazo));
    }
  }

  lemma ConfirmedEntry(ends: Ends, ad: set<Addr>, tk: int, tc: int, c: Casa, x: Entrada)
    requires c.a in ends && ends[c.a].pendente.Some? && c.a in ad && tk <= tc
    requires var p := ends[c.a].pendente.value;
      x == Entrada(c.a, p.prazo, p.lugar.marca) && EstruturaDe(c.a, p.lugar.cap) == Some(c.s)
    ensures Registrado(ConfirmarEnds(ends, ad, tc), c, Elemento(x.marca, tk + x.prazo))
  {
  }

  lemma NotRenewed(antes: Ends, o: Obra, l: Lote, rs: seq<Remocao>, t: int, c: Casa)
    requires Feita(antes, o, l, rs, t) && c.a !in Remover(l, c.s) && Escrito(Adicionar(l, c.s), c.a)
    ensures c.a !in RenovacoesDoLote(l)
  {
    RetryIs(l);
    var x :| x in Adicionar(l, c.s) && x.addr == c.a;
    AdditionsArePending(antes, o, l, rs, t, c.s, x);
    forall s | Escrito(Adicionar(l, s), c.a) ensures s == c.s {
      var y :| y in Adicionar(l, s) && y.addr == c.a;
      AdditionsArePending(antes, o, l, rs, t, s, y);
    }
  }

  /** An element that was there before and is there still: registered, pending, or given up. */
  lemma OldIsCovered(antes: Ends, o: Obra, l: Lote, rs: seq<Remocao>, t: int, pr: PendRemocoes, res: Resultado, tc: int,
                     c: Casa, x: Elemento)
    requires Feita(antes, o, l, rs, t) && Chaveada(pr) && forall m :: m in rs <==> m in Remocoes(pr)
    requires Registrado(antes, c, x)
    requires res.Erro? || !Tirado(l, c) || (!Completo(res) && res.naoConfirmados == RenovacoesDoLote(l))
    ensures Registrado(Respondido(o.ends, AdicoesDoLote(l), res, tc), c, x) || Aguarda(pr, c)
  {
    if !Tirado(l, c) {
      KeptElement(antes, o, l, rs, t, c, x);
    } else if !Aguarda(pr, c) {
      TakenIsPendingOrRenewed(l, o.aj.escritas, rs, pr, c);
      RenewedStaysRegistered(antes, o, l, rs, t, res, tc, c, x);
    }
  }

  lemma RenewedStaysRegistered(antes: Ends, o: Obra, l: Lote, rs: seq<Remocao>, t: int, res: Resultado, tc: int,
                               c: Casa, x: Elemento)
    requires Feita(antes, o, l, rs, t) && Registrado(antes, c, x) && Tirado(l, c)
    requires exists e ::
               e in o.aj.escritas && e.substituir && e.addr == c.a && EstruturaDe(c.a, e.lugar.cap) == Some(c.s)
    requires res.Erro? || (!Completo(res) && res.naoConfirmados == RenovacoesDoLote(l))
    ensures Registrado(Respondido(o.ends, AdicoesDoLote(l), res, tc), c, x)
  {
    var e :| e in o.aj.escritas && e.substituir && e.addr == c.a && EstruturaDe(c.a, e.lugar.cap) == Some(c.s);
    assert EscritaCoerente(antes, t, o, e);
    assert EntradaCoerente(antes, o, c.a);
    PendingAreAdded(antes, o, l, rs, t, c.a);
    assert Escrito(Adicionar(l, c.s), c.a);
    RetryIs(l);
  }

  // ----- the step

  /** An element held after a transaction is one of its writes, or was there and was not deleted. */
  lemma HeldIsNewOrOld(k: Nft, m: Lote, t: int, c: Casa)
    requires c in Aplicado(k, m, t)
    ensures (exists e :: EhNova(m, c, e) && Aplicado(k, m, t)[c] == Elemento(e.marca, t + e.prazo))
         || (c in k && Aplicado(k, m, t)[c] == k[c] && !Tirado(m, c))
  {
    AplicadoIs(k, m, t, c);
    if (Tirado(m, c) || !Tem(k, c, t)) && exists e :: EhNova(m, c, e) {
      var e :| EhNova(m, c, e) && Aplicado(k, m, t)[c] == Elemento(e.marca, t + e.prazo);
    }
  }

  /** Held after AplicarLote: written by it, and confirmed; or there before, and deleted only if it said otherwise. */
  lemma HeldAfterAnswer(k: Nft, l: Lote, t: int, falha1: bool, falha2: bool, c: Casa)
    requires c in AplicarLote(k, l, t, falha1, falha2).0
    ensures var (k', res) := AplicarLote(k, l, t, falha1, falha2); VelhoOuNovo(k, l, t, res, c, k'[c])
  {
    var (k', res) := AplicarLote(k, l, t, falha1, falha2);
    RetryIs(l);
    if l != LOTE_VAZIO && Aceita(k, l, t) && !falha1 {
      HeldIsNewOrOld(k, l, t, c);
    } else if l != LOTE_VAZIO && SoAdicoes(l) != LOTE_VAZIO && !falha2 {
      HeldIsNewOrOld(k, SoAdicoes(l), t, c);
      if e :| EhNova(SoAdicoes(l), c, e) && k'[c] == Elemento(e.marca, t + e.prazo) { assert EhNova(l, c, e); }
    }
  }

  /** What was held before, by what the index, the queue and the batch say of it. */
  lemma OldAfter(antes: Ends, k: Nft, t: int, fila: PendRemocoes, desistidas: set<Casa>, o: Obra, l: Lote,
                 rs: seq<Remocao>, ti: int, pr: PendRemocoes, res: Resultado, tc: int, c: Casa)
    requires Coberto(antes, k, t, fila, desistidas) && Tem(k, c, t) && Feita(antes, o, l, rs, ti)
    requires Chaveada(pr) && (forall m :: m in rs <==> m in Remocoes(pr)) && forall j | j in fila :: j in pr
    requires Completo(res) ==> !Tirado(l, c)
    requires res.Erro? || Completo(res) || res.naoConfirmados == RenovacoesDoLote(l)
    ensures Registrado(Respondido(o.ends, AdicoesDoLote(l), res, tc), c, k[c]) || c in desistidas
         || (Aguarda(pr, c) && !Completo(res))
  {
    if Aguarda(pr, c) {
      PendingIsTaken(l, o.aj.escritas, rs, pr, c);
    } else if Registrado(antes, c, k[c]) {
      OldIsCovered(antes, o, l, rs, ti, pr, res, tc, c, k[c]);
    } else if Aguarda(fila, c) {
      StaysPending(fila, pr, c);
    }
  }

  lemma StaysPending(fila: PendRemocoes, pr: PendRemocoes, c: Casa)
    requires Aguarda(fila, c) && forall j | j in fila :: j in pr
    ensures Aguarda(pr, c)
  {
    var j :| j in fila && j.addr == c.a && EstruturaDe(j.addr, j.capa) == Some(c.s);
    assert j in pr;
  }

  /** Everything known of a round but what is held after it. */
  ghost predicate Pronto(q: Quadro, o: Obra, l: Lote, rs: seq<Remocao>, ti: int, pr: PendRemocoes, res: Resultado) {
    && Coberto(q.st.ends, q.k, q.t, q.fila, q.desistidas) && Feita(q.st.ends, o, l, rs, ti) && Chaveada(pr)
    && (forall m :: m in rs <==> m in Remocoes(pr)) && (forall j | j in q.fila :: j in pr)
    && (res.Erro? || Completo(res) || res.naoConfirmados == RenovacoesDoLote(l))
  }

  /** There before and not deleted, or written by the batch. */
  ghost predicate VelhoOuNovo(k: Nft, l: Lote, tk: int, res: Resultado, c: Casa, x: Elemento) {
    || (c in k && x == k[c] && (Completo(res) ==> !Tirado(l, c)))
    || (exists e :: EhNova(l, c, e) && x == Elemento(e.marca, tk + e.prazo) && res.Feito?
                    && (Completo(res) || c.a !in Remover(l, c.s)))
  }

  lemma RoundIsReady(q: Quadro, x: Vez, n: Quadro) returns (rs: seq<Remocao>)
    requires EmOrdem(q) && Rodou(q, x, n)
    ensures Pronto(q, Obra(x.st.ends, x.aj), x.l, rs, Instante(x.p), Pendente(q, x), RespostaDoNft(q, x))
  {
    rs := BatchOfRound(q, x, n);
    AnswerNames(q.k, x.l, x.tk, x.falha1, x.falha2);
  }

  lemma AnswerNames(k: Nft, l: Lote, t: int, falha1: bool, falha2: bool)
    ensures var res := AplicarLote(k, l, t, falha1, falha2).1;
      res.Erro? || Completo(res) || res.naoConfirmados == RenovacoesDoLote(l)
  {
  }

  /** What a round leaves held is covered, counting as pending everything that went with its batch. */
  lemma HeldAfterRound(q: Quadro, x: Vez, n: Quadro, c: Casa)
    requires EmOrdem(q) && Rodou(q, x, n) && Tem(n.k, c, n.t)
    ensures Registrado(n.st.ends, c, n.k[c]) || c in q.desistidas
         || (Aguarda(Pendente(q, x), c) && !Completo(RespostaDoNft(q, x)))
  {
    var rs := RoundIsReady(q, x, n);
    HeldAfterAnswer(q.k, x.l, x.tk, x.falha1, x.falha2, c);
    HeldAfter(q, Obra(x.st.ends, x.aj), x.l, rs, Instante(x.p), Pendente(q, x), RespostaDoNft(q, x), x.tk, x.tc, c,
      n.k[c]);
  }

  lemma HeldAfter(q: Quadro, o: Obra, l: Lote, rs: seq<Remocao>, ti: int, pr: PendRemocoes, res: Resultado,
                  tk: int, tc: int, c: Casa, x: Elemento)
    requires Pronto(q, o, l, rs, ti, pr, res) && q.t <= tk <= tc && x.vence > tc && VelhoOuNovo(q.k, l, tk, res, c, x)
    ensures Registrado(Respondido(o.ends, AdicoesDoLote(l), res, tc), c, x) || c in q.desistidas
         || (Aguarda(pr, c) && !Completo(res))
  {
    if c in q.k && x == q.k[c] && (Completo(res) ==> !Tirado(l, c)) {
      OldAfter(q.st.ends, q.k, q.t, q.fila, q.desistidas, o, l, rs, ti, pr, res, tc, c);
    } else {
      var e :| EhNova(l, c, e) && x == Elemento(e.marca, tk + e.prazo);
      NewIsRegistered(q.st.ends, o, l, rs, ti, res, tk, tc, c, e);
    }
  }

  // ----- what comes back

  /** Exactly the removals let go neither happened nor came back. */
  lemma LetGoOrAnswered(q: Quadro, x: Vez, n: Quadro, k: Chave)
    requires Rodou(q, x, n) && Chaveada(Pendente(q, x)) && k in Pendente(q, x)
    ensures Solta(q, x, k) <==> !Completo(RespostaDoNft(q, x)) && Pendente(q, x)[k] !in x.voltam
  {
    RefusedAnswer(q, x);
    RoundEnds(q, x, n);
    CarriedIs(x.porAddr, Pendente(q, x), k);
    assert Pendente(q, x)[k] in x.voltam <==> Volta(x.porAddr, RespostaDoNft(q, x), Pendente(q, x)[k]);
  }

  /** A removal is carried at its own address or nowhere. */
  lemma CarriedIs(m: map<Addr, RemocaoPend>, pr: PendRemocoes, k: Chave)
    requires PorAddr(m, pr) && Chaveada(pr) && k in pr
    ensures k.addr in m && forall a | a in m && m[a] == pr[k] :: a == k.addr
  {
    assert pr[k].rem.addr == k.addr;
  }

  /** A pending removal that came back is in the queue again, or given up. */
  lemma ReturnedIsQueuedOrGivenUp(q: Quadro, x: Vez, n: Quadro, k: Chave, c: Casa)
    requires Rodou(q, x, n) && Chaveada(Pendente(q, x)) && k in Pendente(q, x) && EhDe(k, c)
    requires Pendente(q, x)[k] in x.voltam
    ensures Aguarda(n.fila, c) || c in n.desistidas
  {
    var p := Pendente(q, x)[k];
    if x.coube && !Desiste(p) {
      ReturnedAreFrom(q, x, n);
      RequeuedAre(Pendente(q, x), x.voltam);
      assert k in n.fila;
    } else {
      assert c in Abandonadas(x.voltam, x.coube);
    }
  }

  lemma ReturnedAreFrom(q: Quadro, x: Vez, n: Quadro)
    requires Rodou(q, x, n)
    ensures forall p | p in x.voltam :: p in Pendente(q, x).Values
  {
    forall p | p in x.voltam ensures p in Pendente(q, x).Values {
      assert Volta(x.porAddr, RespostaDoNft(q, x), p);
      var a :| a in x.porAddr && x.porAddr[a] == p;
    }
  }

  /** A removal let go is not in the queue afterwards, and was not given up in this round. */
  lemma LetGoIsForgotten(q: Quadro, x: Vez, n: Quadro, k: Chave, c: Casa)
    requires Rodou(q, x, n) && Chaveada(Pendente(q, x)) && Solta(q, x, k) && EhDe(k, c)
    ensures !Aguarda(n.fila, c) && (c in n.desistidas <==> c in q.desistidas)
  {
    ReturnedAreFrom(q, x, n);
    RequeuedAre(Pendente(q, x), x.voltam);
    LetGoOrAnswered(q, x, n, k);
    if Aguarda(n.fila, c) {
      var j :| j in n.fila && j.addr == c.a && EstruturaDe(j.addr, j.capa) == Some(c.s);
      OneKey(j, k, c);
    }
    if c in Abandonadas(x.voltam, x.coube) {
      var p :| p in x.voltam && p.rem.addr == c.a && EstruturaDe(p.rem.addr, p.rem.cap) == Some(c.s);
      var j :| j in Pendente(q, x) && Pendente(q, x)[j] == p;
      OneKey(j, k, c);
    }
  }

  /** A refused batch leaves an element it was to delete as it was, even when the rest of it goes in. */
  lemma RefusedLeaves(k: Nft, l: Lote, t: int, falha1: bool, falha2: bool, c: Casa)
    requires l != LOTE_VAZIO && (!Aceita(k, l, t) || falha1) && Tirado(l, c)
    ensures var n := AplicarLote(k, l, t, falha1, falha2).0; (c in n <==> c in k) && (c in k ==> n[c] == k[c])
  {
    RetryIs(l);
    AplicadoIs(k, SoAdicoes(l), t, c);
  }

  lemma RetriedEntry(ends: Ends, ad: set<Addr>, nc: set<Addr>, tc: int, c: Casa, e: Elemento)
    requires c.a in ends && ends[c.a].pendente.Some? ==> c.a in ad
    ensures var depois := ConfirmarEnds(NaoConfirmadoEnds(ends, nc), ad - nc, tc);
      if c.a in ends && ends[c.a].pendente.Some? && c.a !in nc
      then c.a in depois && depois[c.a] == Confirmado(ends[c.a], tc)
      else Registrado(depois, c, e) <==> Registrado(ends, c, e)
  {
  }

  lemma UndoneEntry(ends: Ends, ad: set<Addr>, c: Casa, e: Elemento)
    ensures Registrado(NaoConfirmadoEnds(ends, ad), c, e) <==> Registrado(ends, c, e)
  {
  }

  lemma MovedIsElsewhere(antes: Ends, o: Obra, l: Lote, rs: seq<Remocao>, t: int, c: Casa)
    requires Feita(antes, o, l, rs, t) && Tirado(l, c) && Mudada(o.ends, l, c.a)
    ensures EstruturaDe(c.a, o.ends[c.a].pendente.value.lugar.cap) != Some(c.s)
  {
    PendingAreAdded(antes, o, l, rs, t, c.a);
    var s := EstruturaDe(c.a, o.ends[c.a].pendente.value.lugar.cap).value;
    RenewalsOfTheThree(l);
    assert Escrito(Adicionar(l, s), c.a);
  }

  lemma NoneWaitsOutside(antes: Ends, o: Obra, l: Lote, rs: seq<Remocao>, t: int, a: Addr)
    requires Feita(antes, o, l, rs, t)
    ensures a in o.ends && o.ends[a].pendente.Some? ==> a in AdicoesDoLote(l)
  {
    if a in o.ends && o.ends[a].pendente.Some? { PendingAreAdded(antes, o, l, rs, t, a); }
  }

  /** What the index says of an element the retry did not delete: as before, unless it wrote the address elsewhere. */
  lemma AnsweredIs(antes: Ends, o: Obra, l: Lote, rs: seq<Remocao>, t: int, tc: int, c: Casa, e: Elemento)
    requires Feita(antes, o, l, rs, t) && Tirado(l, c)
    ensures var depois := Respondido(o.ends, AdicoesDoLote(l), Feito(true, RenovacoesDoLote(l), RemocoesDoLote(l)), tc);
      Registrado(depois, c, e) <==> Registrado(o.ends, c, e) && !Mudada(o.ends, l, c.a)
  {
    NoneWaitsOutside(antes, o, l, rs, t, c.a);
    RetriedEntry(o.ends, AdicoesDoLote(l), Index.Conjunto(RenovacoesDoLote(l)), tc, c, e);
    if Mudada(o.ends, l, c.a) { MovedIsElsewhere(antes, o, l, rs, t, c); }
  }

  /** After the round, an element whose removal was let go is covered exactly when that was harmless. */
  lemma HarmlessIs(q: Quadro, x: Vez, n: Quadro, k: Chave, c: Casa)
    requires EmOrdem(q) && Rodou(q, x, n) && Solta(q, x, k) && EhDe(k, c)
    ensures Inofensiva(q, x, k) <==> (Tem(n.k, c, n.t) ==> Registrado(n.st.ends, c, n.k[c]) || c in n.desistidas)
  {
    var rs := BatchOfRound(q, x, n);
    LetGoIsForgotten(q, x, n, k, c);
    PendingIsTaken(x.l, x.aj.escritas, rs, Pendente(q, x), c);
    RefusedLeaves(q.k, x.l, x.tk, x.falha1, x.falha2, c);
    if Tem(q.k, c, x.tc) { RegisteredIs(q, x, n, rs, c, q.k[c]); }
    assert Inofensiva(q, x, k) <==>
      (Tem(q.k, c, x.tc) ==> c in q.desistidas || SegueRegistrado(x, c, q.k[c]));
  }

  lemma RegisteredIs(q: Quadro, x: Vez, n: Quadro, rs: seq<Remocao>, c: Casa, e: Elemento)
    requires Rodou(q, x, n) && Recusada(q, x) && Tirado(x.l, c)
    requires Feita(q.st.ends, Obra(x.st.ends, x.aj), x.l, rs, Instante(x.p))
    ensures Registrado(n.st.ends, c, e) <==> SegueRegistrado(x, c, e)
  {
    RefusedAnswer(q, x);
    RoundEnds(q, x, n);
    if Reenviada(x) {
      AnsweredIs(q.st.ends, Obra(x.st.ends, x.aj), x.l, rs, Instante(x.p), x.tc, c, e);
    } else {
      UndoneEntry(x.st.ends, AdicoesDoLote(x.l), c, e);
    }
  }

  lemma RefusedAnswer(q: Quadro, x: Vez)
    ensures Recusada(q, x) <==> !Completo(RespostaDoNft(q, x))
    ensures Recusada(q, x) ==>
      RespostaDoNft(q, x) == if Reenviada(x) then Feito(true, RenovacoesDoLote(x.l), RemocoesDoLote(x.l)) else Erro
  {
  }

  lemma RoundEnds(q: Quadro, x: Vez, n: Quadro)
    requires Rodou(q, x, n)
    ensures n.st.ends == Respondido(x.st.ends, AdicoesDoLote(x.l), RespostaDoNft(q, x), x.tc)
    ensures forall p :: p in x.voltam <==> Volta(x.porAddr, RespostaDoNft(q, x), p)
  {
  }

  /** What a round leaves held: registered, queued, given up, or let go in it to some harm. */
  lemma HeldIsAccountedFor(q: Quadro, x: Vez, n: Quadro, c: Casa)
    requires EmOrdem(q) && Rodou(q, x, n) && Tem(n.k, c, n.t)
    ensures Registrado(n.st.ends, c, n.k[c]) || Aguarda(n.fila, c) || c in n.desistidas || c in SoltasDe(q, x)
  {
    HeldAfterRound(q, x, n, c);
    if Aguarda(Pendente(q, x), c) && !Completo(RespostaDoNft(q, x)) {
      var rs := BatchOfRound(q, x, n);
      var k :| k in Pendente(q, x) && k.addr == c.a && EstruturaDe(k.addr, k.capa) == Some(c.s);
      LetGoOrAnswered(q, x, n, k);
      if Solta(q, x, k) {
        HarmlessIs(q, x, n, k, c);
      } else {
        ReturnedIsQueuedOrGivenUp(q, x, n, k, c);
      }
    }
  }

  /**
   Whatever nft did with the batch, everything held stays covered if and only if each removal
   the batch lets go is one that it does no harm to lose.
   */
  lemma RoundKeepsCoverIff(q: Quadro, x: Vez, n: Quadro)
    requires EmOrdem(q) && Rodou(q, x, n)
    ensures Coberto(n.st.ends, n.k, n.t, n.fila, n.desistidas) <==> forall k | Solta(q, x, k) :: Inofensiva(q, x, k)
  {
    if forall k | Solta(q, x, k) :: Inofensiva(q, x, k) {
      assert SoltasDe(q, x) == {};
      forall c | Tem(n.k, c, n.t) ensures Registrado(n.st.ends, c, n.k[c]) || Aguarda(n.fila, c) || c in n.desistidas {
        HeldIsAccountedFor(q, x, n, c);
      }
    }
    if Coberto(n.st.ends, n.k, n.t, n.fila, n.desistidas) {
      forall k | Solta(q, x, k) ensures Inofensiva(q, x, k) { HarmlessIfCovered(q, x, n, k); }
    }
  }

  lemma HarmlessIfCovered(q: Quadro, x: Vez, n: Quadro, k: Chave)
    requires EmOrdem(q) && Rodou(q, x, n) && Solta(q, x, k)
    requires Coberto(n.st.ends, n.k, n.t, n.fila, n.desistidas)
    ensures Inofensiva(q, x, k)
  {
    if EstruturaDe(k.addr, k.capa).Some? {
      var c := Casa(EstruturaDe(k.addr, k.capa).value, k.addr);
      var rs := BatchOfRound(q, x, n);
      LetGoIsForgotten(q, x, n, k, c);
      HarmlessIs(q, x, n, k, c);
    }
  }

  /**
   When nothing is let go: no two removals of one address, and, if the batch is retried, none of an element it writes
   too.
   */
  lemma NothingIsLetGo(q: Quadro, x: Vez, n: Quadro)
    requires EmOrdem(q) && Rodou(q, x, n)
    requires forall j, k | j in Pendente(q, x) && k in Pendente(q, x) && j.addr == k.addr :: j == k
    requires forall k | k in Pendente(q, x) :: EstruturaDe(k.addr, k.capa).Some?
    requires forall k | k in Pendente(q, x) && Recusada(q, x) && Reenviada(x) ::
      !Escrito(Adicionar(x.l, EstruturaDe(k.addr, k.capa).value), k.addr)
    ensures forall k :: !Solta(q, x, k)
  {
    var rs := BatchOfRound(q, x, n);
    forall k | k in Pendente(q, x) && Recusada(q, x) ensures !Solta(q, x, k) {
      CarriedForItsAddress(x.porAddr, Pendente(q, x), k);
      if Reenviada(x) { LeftUndone(x.l, x.aj.escritas, rs, Pendente(q, x), k); }
    }
  }

  lemma CarriedForItsAddress(m: map<Addr, RemocaoPend>, pr: PendRemocoes, k: Chave)
    requires PorAddr(m, pr) && Chaveada(pr) && k in pr && forall j | j in pr && j.addr == k.addr :: j == k
    ensures k.addr in m && m[k.addr] == pr[k]
  {
    assert pr[k].rem.addr == k.addr;
    var j :| j in pr && pr[j] == m[k.addr] && m[k.addr].rem.addr == k.addr;
  }

  lemma LeftUndone(l: Lote, es: seq<Escrita>, rs: seq<Remocao>, pr: PendRemocoes, k: Chave)
    requires Chaveada(pr) && (forall m :: m in rs <==> m in Remocoes(pr)) && EhLote(l, es, rs) && k in pr
    requires EstruturaDe(k.addr, k.capa).Some? && !Escrito(Adicionar(l, EstruturaDe(k.addr, k.capa).value), k.addr)
    ensures k.addr in RemocoesDoLote(l)
  {
    var s := EstruturaDe(k.addr, k.capa).value;
    PendingIsTaken(l, es, rs, pr, Casa(s, k.addr));
    RemovalsOfTheThree(l);
    assert k.addr in Remover(l, s);
  }

  // ----- the rest of the invariant

  lemma RoundAnswersAll(q: Quadro, x: Vez, n: Quadro)
    requires EmOrdem(q) && Rodou(q, x, n)
    ensures Valido(n.st) && SemPendentes(n.st.ends) && Chaveada(n.fila)
  {
    var rs := BatchOfRound(q, x, n);
    AnsweredIsValid(x.st, AdicoesDoLote(x.l), RespostaDoNft(q, x), x.tc);
    NoneIsLeftPending(q.st.ends, Obra(x.st.ends, x.aj), x.l, rs, Instante(x.p), RespostaDoNft(q, x), x.tc);
    ReturnedAreFrom(q, x, n);
    RequeuedAre(Pendente(q, x), x.voltam);
  }

  lemma NoneIsLeftPending(antes: Ends, o: Obra, l: Lote, rs: seq<Remocao>, t: int, res: Resultado, tc: int)
    requires Feita(antes, o, l, rs, t)
    ensures SemPendentes(Respondido(o.ends, AdicoesDoLote(l), res, tc))
  {
    forall a | a in o.ends && o.ends[a].pendente.Some? ensures a in AdicoesDoLote(l) {
      PendingAreAdded(antes, o, l, rs, t, a);
    }
  }

  lemma AnsweredIsValid(st: Estado, ad: set<Addr>, res: Resultado, tc: int)
    requires Valido(st)
    ensures Valido(st.(ends := Respondido(st.ends, ad, res, tc)))
  {
    if res.Erro? {
      NaoConfirmadoKeeps(st.alvos, st.ends, ad);
    } else if Completo(res) {
      ConfirmarKeeps(st.alvos, st.ends, ad, tc);
    } else {
      var nc := Index.Conjunto(res.naoConfirmados);
      NaoConfirmadoKeeps(st.alvos, st.ends, nc);
      ConfirmarKeeps(st.alvos, NaoConfirmadoEnds(st.ends, nc), ad - nc, tc);
    }
  }

  // ----- whole runs

  /** A round, a pruning, or a change of what is protected; the queue outlives the last two. */
  datatype Lance = Da(x: Vez) | Outro(q: Passo, t: int)

  ghost predicate Andou(q: Quadro, y: Lance, n: Quadro) {
    match y
    case Da(x) => Rodou(q, x, n)
    case Outro(p, t) =>
      q.t <= t && match p
        case Poda(agora) => agora == t && n == q.(st := Podar(q.st, t), t := t)
        case Protege(faixas) => n == q.(st := q.st.(protegidos := faixas), t := t)
        case _ => false
  }

  datatype Jogo = Vazio(t: int) | Seguido(antes: Jogo, y: Lance, q: Quadro)

  ghost function Fim(j: Jogo): Quadro {
    if j.Vazio? then Quadro(INICIAL, map[], j.t, map[], {}) else j.q
  }

  ghost predicate Jogado(j: Jogo) { j.Seguido? ==> Jogado(j.antes) && Andou(Fim(j.antes), j.y, j.q) }

  /** Every removal that a round of the run let go was harmless. */
  ghost predicate NadaSeSolta(j: Jogo) {
    j.Seguido? ==>
      && NadaSeSolta(j.antes)
      && (j.y.Da? ==> forall k | Solta(Fim(j.antes), j.y.x, k) :: Inofensiva(Fim(j.antes), j.y.x, k))
  }

  /** Of these elements, those still held, and not written since. */
  ghost function Restam(soltas: set<Casa>, k: Nft, k': Nft, t: int): set<Casa> {
    set c | c in soltas && Tem(k', c, t) && c in k && k'[c] == k[c]
  }

  /** The elements whose removal some round of the run let go to some harm, until they expire or are written again. */
  ghost function Soltas(j: Jogo): set<Casa> {
    if j.Vazio? then {}
    else
      var q := Fim(j.antes);
      Restam(Soltas(j.antes) + (if j.y.Da? then SoltasDe(q, j.y.x) else {}), q.k, j.q.k, j.q.t)
  }

  lemma OtherKeepsOrder(q: Quadro, y: Lance, n: Quadro)
    requires EmOrdem(q) && y.Outro? && Andou(q, y, n)
    ensures EmOrdem(n)
  {
    if y.q.Poda? {
      PodarKeeps(q.st, y.t);
      PruneKeepsCover(q.st.ends, q.k, q.t, y.t, q.fila, q.desistidas);
    } else {
      TimeKeepsCover(q.st.ends, q.k, q.t, y.t, q.fila, q.desistidas);
    }
  }

  lemma TimeKeepsCover(ends: Ends, k: Nft, t: int, u: int, pr: PendRemocoes, desistidas: set<Casa>)
    requires Coberto(ends, k, t, pr, desistidas) && t <= u
    ensures Coberto(ends, k, u, pr, desistidas)
  {
    forall c | Tem(k, c, u)
      ensures Registrado(ends, c, k[c]) || Aguarda(pr, c) || c in desistidas
    {
      assert Tem(k, c, t);
    }
  }

  lemma PruneKeepsCover(ends: Ends, k: Nft, t: int, u: int, pr: PendRemocoes, desistidas: set<Casa>)
    requires Coberto(ends, k, t, pr, desistidas) && t <= u
    ensures Coberto(PodarEnds(ends, u - FOLGA_DE_PODA), k, u, pr, desistidas)
  {
    var depois := PodarEnds(ends, u - FOLGA_DE_PODA);
    forall c | Tem(k, c, u) ensures Registrado(depois, c, k[c]) || Aguarda(pr, c) || c in desistidas {
      assert Tem(k, c, t);
      if Registrado(ends, c, k[c]) { assert c.a in depois; }
    }
  }

  ghost predicate EmOrdemSempre(j: Jogo) { EmOrdem(Fim(j)) && (j.Seguido? ==> EmOrdemSempre(j.antes)) }

  /**
   In every run, batches refused, retried or accepted, whatever the kernel holds is registered,
   queued for removal, or given up, as long as nothing harmful is let go; and only then.
   */
  lemma {:induction false} EveryRunCoversTheKernelIff(j: Jogo)
    requires Jogado(j)
    ensures EmOrdemSempre(j) <==> NadaSeSolta(j)
  {
    if j.Vazio? {
      assert forall d :: Reivindicados(INICIAL.ends, d) == {};
    } else {
      EveryRunCoversTheKernelIff(j.antes);
      if EmOrdemSempre(j.antes) {
        match j.y {
          case Da(x) =>
            RoundAnswersAll(Fim(j.antes), x, j.q);
            RoundKeepsCoverIff(Fim(j.antes), x, j.q);
          case Outro(_, _) => OtherKeepsOrder(Fim(j.antes), j.y, j.q);
        }
      }
    }
  }

  // ----- whole runs, whatever they let go

  /** The same state with these elements excused as well. */
  ghost function Com(q: Quadro, soltas: set<Casa>): Quadro { q.(desistidas := q.desistidas + soltas) }

  lemma ExcusedRound(q: Quadro, x: Vez, n: Quadro, soltas: set<Casa>)
    requires Rodou(q, x, n)
    ensures Rodou(Com(q, soltas), x, Com(n, soltas))
  {
    assert Com(n, soltas).desistidas == Com(q, soltas).desistidas + Abandonadas(x.voltam, x.coube);
  }

  lemma ExcusedLetGo(q: Quadro, x: Vez, soltas: set<Casa>)
    ensures SoltasDe(Com(q, soltas), x) <= SoltasDe(q, x)
  {
    assert Pendente(Com(q, soltas), x) == Pendente(q, x);
    forall k | Solta(Com(q, soltas), x, k) ensures Solta(q, x, k) {}
    forall k | Inofensiva(q, x, k) ensures Inofensiva(Com(q, soltas), x, k) {}
  }

  lemma RewrittenIsRegistered(q: Quadro, x: Vez, n: Quadro, c: Casa)
    requires EmOrdem(q) && Rodou(q, x, n) && Tem(n.k, c, n.t) && (c in q.k ==> n.k[c] != q.k[c])
    ensures Registrado(n.st.ends, c, n.k[c])
  {
    var rs := RoundIsReady(q, x, n);
    HeldAfterAnswer(q.k, x.l, x.tk, x.falha1, x.falha2, c);
    NewAfter(q, Obra(x.st.ends, x.aj), x.l, rs, Instante(x.p), Pendente(q, x), RespostaDoNft(q, x), x.tk, x.tc, c,
      n.k[c]);
  }

  lemma NewAfter(q: Quadro, o: Obra, l: Lote, rs: seq<Remocao>, ti: int, pr: PendRemocoes, res: Resultado,
                 tk: int, tc: int, c: Casa, x: Elemento)
    requires Pronto(q, o, l, rs, ti, pr, res) && tk <= tc && VelhoOuNovo(q.k, l, tk, res, c, x)
    requires c in q.k ==> x != q.k[c]
    ensures Registrado(Respondido(o.ends, AdicoesDoLote(l), res, tc), c, x)
  {
    var e :| EhNova(l, c, e) && x == Elemento(e.marca, tk + e.prazo);
    NewIsRegistered(q.st.ends, o, l, rs, ti, res, tk, tc, c, e);
  }

  lemma OtherKeepsExcused(q: Quadro, y: Lance, n: Quadro, soltas: set<Casa>)
    requires EmOrdem(Com(q, soltas)) && y.Outro? && Andou(q, y, n)
    ensures EmOrdem(Com(n, Restam(soltas, q.k, n.k, n.t)))
  {
    OtherKeepsOrder(Com(q, soltas), y, Com(n, soltas));
  }

  lemma ExcusedCover(q: Quadro, x: Vez, n: Quadro, soltas: set<Casa>)
    requires EmOrdem(Com(q, soltas)) && Rodou(q, x, n)
    ensures EmOrdem(Com(n, Restam(soltas + SoltasDe(q, x), q.k, n.k, n.t)))
  {
    ExcusedRound(q, x, n, soltas);
    ExcusedLetGo(q, x, soltas);
    RoundAnswersAll(Com(q, soltas), x, Com(n, soltas));
    var todas := n.desistidas + Restam(soltas + SoltasDe(q, x), q.k, n.k, n.t);
    forall c | Tem(n.k, c, n.t) ensures Registrado(n.st.ends, c, n.k[c]) || Aguarda(n.fila, c) || c in todas {
      if c in q.k && n.k[c] == q.k[c] {
        HeldIsAccountedFor(Com(q, soltas), x, Com(n, soltas), c);
      } else {
        RewrittenIsRegistered(Com(q, soltas), x, Com(n, soltas), c);
      }
    }
  }

  /**
   In every run, whatever becomes of each batch: what the kernel holds is registered, queued for
   removal, given up, or still as it was when a refused batch let its removal go.
   */
  lemma {:induction false} EveryRunAccountsForTheKernel(j: Jogo)
    requires Jogado(j)
    ensures Valido(Fim(j).st) && SemPendentes(Fim(j).st.ends) && Chaveada(Fim(j).fila)
    ensures Coberto(Fim(j).st.ends, Fim(j).k, Fim(j).t, Fim(j).fila, Fim(j).desistidas + Soltas(j))
    ensures NadaSeSolta(j) ==> Soltas(j) == {}
  {
    if j.Vazio? {
      assert forall d :: Reivindicados(INICIAL.ends, d) == {};
    } else {
      EveryRunAccountsForTheKernel(j.antes);
      match j.y {
        case Da(x) =>
          ExcusedCover(Fim(j.antes), x, j.q, Soltas(j.antes));
        case Outro(_, _) => OtherKeepsExcused(Fim(j.antes), j.y, j.q, Soltas(j.antes));
      }
    }
  }
}
