/** A concrete run in which a removal is let go: a retry takes it for half of a renewal. */
module QueueExamples {
  import opened Options
  import opened DomTargets
  import opened IndexRuns
  import opened ListChanges
  import opened IndexExamples
  import opened Kernel
  import opened KernelRuns
  import opened Feeder
  import opened KernelQueue
  import opened KernelExamples

  const B_AND_C := [Linha('b', Barrar, Ativo, 0), Linha('c', Barrar, Ativo, 0)]
  const ONLY_C := [Linha('c', Barrar, Ativo, 0)]

  const M := Remocao(A, Barrar)
  const KEY := Chave(A, Barrar)
  const A2 := Addr(true, 2, true)
  const WRITE_A2 := Escrita(A2, TETO, Lugar(Barrar, 0), false)
  const BOTH := Lote([A], [], [], [Entrada(A, TETO, 0), Entrada(A2, TETO, 0)], [], [])

  lemma TheLists()
    ensures Listar(B_AND_C) == map["b" := B, "c" := B] && Listar(ONLY_C) == map["c" := B]
  {
    ListOfTwo('b', B, 'c', B);
    OneMoreLine([], 'c', B);
    assert [] + ONLY_C == ONLY_C;
  }

  ghost predicate Limpo(st: Estado) { st.protegidos == {} && forall d :: PocoDe(st.ensaiados, d) == map[] }

  // ----- listed

  lemma First() returns (j: Jogo)
    ensures Jogado(j) && Fim(j) == Quadro(Fim(j).st, map[], 0, map[], {}) && Limpo(Fim(j).st)
    ensures Fim(j).st.ends == map[] && Fim(j).st.alvos == map["b" := B, "c" := B]
  {
    TheLists();
    EmptyBatch();
    var st, aj := ADefinitionIsPossible(INICIAL, B_AND_C, 0);
    FirstList(INICIAL, B_AND_C, 0, st, aj);
    var x := Vez(Lista(B_AND_C, 0), st, VAZIO, LOTE_VAZIO, map[], false, false, 0, 0, [], true);
    EmptyRound(Fim(Vazio(0)), x);
    assert Jogado(Vazio(0));
    j := Seguido(Vazio(0), Da(x), Quadro(st, map[], 0, map[], {}));
  }

  lemma EmptyRound(q: Quadro, x: Vez)
    requires q == Quadro(INICIAL, map[], 0, map[], {}) && Transicao(q.st, x.p, x.st, VAZIO) && x.p.Lista?
        && x.p.agora == 0
    requires x == Vez(x.p, x.st, VAZIO, LOTE_VAZIO, map[], false, false, 0, 0, [], true) && x.st.ends == map[]
    ensures Rodou(q, x, Quadro(x.st, map[], 0, map[], {}))
  {
    EmptyBatch();
    OneBatchOfAll(LOTE_VAZIO, map[], map[], [], []);
    assert ConfirmarEnds(map[], {}, 0) == map[];
  }

  // ----- learned and written

  lemma Second() returns (j: Jogo)
    ensures Jogado(j) && Fim(j) == Quadro(Fim(j).st, Fim(j).k, 0, map[], {}) && Limpo(Fim(j).st)
    ensures Fim(j).st.ends == map[A := BLOCKED_A] && Fim(j).st.alvos == map["b" := B, "c" := B]
    ensures HOME in Fim(j).k && Fim(j).k[HOME] == Elemento(0, TETO)
  {
    var i := First();
    var st := Fim(i).st;
    LearnsB(st);
    AddBatch();
    var x := Vez(Resposta("b", [A], TETO, 0), st.(ends := map[A := PENDING_A]), Ajuste([WRITE_A], []), ADD_A, map[],
                 false, false, 0, 0, [], true);
    AddRound(Fim(i), x);
    j := Seguido(i, Da(x), Quadro(st.(ends := map[A := BLOCKED_A]), Aplicado(map[], ADD_A, 0), 0, map[], {}));
  }

  lemma LearnsB(st: Estado)
    requires st.ends == map[] && st.alvos == map["b" := B, "c" := B] && st.protegidos == {}
    ensures Transicao(st, Resposta("b", [A], TETO, 0), st.(ends := map[A := PENDING_A]), Ajuste([WRITE_A], []))
  {
    LearnedFirst(st, 'b', A, TETO, 0);
  }

  lemma AddIsTheBatch()
    ensures LoteDe(ADD_A, AcumularEscritas(map[], [WRITE_A]), map[])
  {
    AddBatch();
    AccumulatedWrites([WRITE_A]);
    OneBatchOfAll(ADD_A, AcumularEscritas(map[], [WRITE_A]), map[], [WRITE_A], []);
  }

  lemma AddIsAnswered()
    ensures AplicarLote(map[], ADD_A, 0, false, false) == (Aplicado(map[], ADD_A, 0), Feito(false, [], []))
    ensures Respondido(map[A := PENDING_A], AdicoesDoLote(ADD_A), Feito(false, [], []), 0) == map[A := BLOCKED_A]
  {
    AddBatch();
    ConfirmedA();
  }

  lemma AddRound(q: Quadro, x: Vez)
    requires q == Quadro(q.st, map[], 0, map[], {}) && x.p == Resposta("b", [A], TETO, 0)
    requires x == Vez(x.p, q.st.(ends := map[A := PENDING_A]), Ajuste([WRITE_A], []), ADD_A, map[], false, false, 0,
        0, [], true)
    requires Transicao(q.st, x.p, x.st, x.aj)
    ensures Rodou(q, x, Quadro(q.st.(ends := map[A := BLOCKED_A]), Aplicado(map[], ADD_A, 0), 0, map[], {}))
  {
    AddIsTheBatch();
    AddIsAnswered();
    assert forall p :: !Volta(map[], Feito(false, [], []), p);
    IsRound(q, x, map[], Feito(false, [], []));
  }

  // ----- removed, and refused

  /** Taking the only claimant off the list removes the address. */
  lemma OneRemoval(st: Estado) returns (st': Estado, aj: Ajuste)
    requires st.ends == map[A := BLOCKED_A] && st.alvos == map["b" := B, "c" := B] && Limpo(st)
    ensures Definir(st, ONLY_C, 0, st', aj) && st'.ends == map[] && aj.escritas == []
    ensures forall m :: m in aj.remocoes <==> m == M
    ensures st'.alvos == map["c" := B] && Limpo(st')
  {
    TheLists();
    st', aj := ADefinitionIsPossible(st, ONLY_C, 0);
    var novos := Listar(ONLY_C);
    assert Promovidos(st.alvos, novos) == {};
    NobodyPromotedNothingReplayed(st, ONLY_C, 0, st', aj);
    OnlyRemoved(novos, st.ends);
    HasOne(aj.escritas);
    PoolsStayEmpty(st, novos, st'.ensaiados);
  }

  /** What the walk leaves, removes and writes when nobody claims the address any more. */
  lemma OnlyRemoved(novos: Alvos, ends: Ends)
    requires novos == map["c" := B] && ends == map[A := BLOCKED_A]
    ensures EndsReconciliados(novos, ends) == map[]
    ensures forall m :: RemocaoDevida(novos, ends, m) <==> m == M
    ensures forall e :: !EscritaDevida(novos, ends, e)
  {
    assert Ativos(novos, {"b"}) == {};
  }

  lemma PoolsStayEmpty(st: Estado, novos: Alvos, pocos: Pocos)
    requires (forall d :: PocoDe(st.ensaiados, d) == map[]) && forall d :: PocoDepois(st, novos, pocos, d)
    requires novos == map["c" := B] && st.ends == map[A := BLOCKED_A]
    ensures forall d :: PocoDe(pocos, d) == map[]
  {
    forall d ensures PocoDe(pocos, d) == map[] { assert PocoDepois(st, novos, pocos, d); }
  }

  lemma Third() returns (j: Jogo)
    ensures Jogado(j) && Fim(j) == Quadro(Fim(j).st, Fim(j).k, 0, map[KEY := RemocaoPend(M, 1)], {}) && Limpo(Fim(j).st)
    ensures Fim(j).st.ends == map[] && Fim(j).st.alvos == map["c" := B]
    ensures HOME in Fim(j).k && Fim(j).k[HOME] == Elemento(0, TETO)
  {
    var i := Second();
    var st, aj := OneRemoval(Fim(i).st);
    var p := RemocaoPend(M, 0);
    var x := Vez(Lista(ONLY_C, 0), st, aj, DELETE_A, map[A := p], true, false, 0, 0, [p], true);
    RefusedRound(Fim(i), x);
    j := Seguido(i, Da(x), Quadro(st, Fim(i).k, 0, map[KEY := RemocaoPend(M, 1)], {}));
  }

  lemma RefusedRound(q: Quadro, x: Vez)
    requires q == Quadro(q.st, q.k, 0, map[], {}) && x.p == Lista(ONLY_C, 0) && Transicao(q.st, x.p, x.st, x.aj)
    requires x.aj.escritas == [] && (forall m :: m in x.aj.remocoes <==> m == M)
    requires var p := RemocaoPend(M, 0); x == Vez(x.p, x.st, x.aj, DELETE_A, map[A := p], true, false, 0, 0, [p], true)
    requires x.st.ends == map[]
    ensures Rodou(q, x, Quadro(x.st, q.k, 0, map[KEY := RemocaoPend(M, 1)], {}))
  {
    var p := RemocaoPend(M, 0);
    DeleteBatch([M]);
    PendingIsOne(x.aj.remocoes);
    var pr := map[KEY := p];
    assert pr[KEY] == p && Remocoes(pr) == {M};
    OneBatchOfAll(DELETE_A, map[], pr, [], [M]);
    assert SoAdicoes(DELETE_A) == LOTE_VAZIO;
    var carried := map[A := p];
    assert carried[A] == p && carried.Values == {p};
    assert [p][..0] == [];
    assert Recolocadas(map[], [p]) == map[KEY := RemocaoPend(M, 1)];
    assert NaoConfirmadoEnds(map[], {}) == map[];
  }

  lemma {:induction false} PendingIsOne(rs: seq<Remocao>)
    requires forall m :: m in rs <==> m == M
    ensures AcumularRemocoes(map[], rs) == map[KEY := RemocaoPend(M, 0)]
    decreases |rs|
  {
    assert M in rs;
    var n := |rs| - 1;
    assert rs == rs[..n] + [rs[n]] && rs[n] in rs;
    forall m | m in rs[..n] ensures m == M { assert m in rs; }
    if M in rs[..n] {
      PendingIsOne(rs[..n]);
    } else {
      NoneBefore(rs[..n]);
    }
  }

  lemma NoneBefore(rs: seq<Remocao>)
    requires M !in rs && forall m | m in rs :: m == M
    ensures AcumularRemocoes(map[], rs) == map[]
  {
    HasOne(rs);
  }

  // ----- written again with another, and retried

  const PENDING_C := Registro({"c"}, TETO, TETO, None, false, Some(Pedido(TETO, Lugar(Barrar, 0))))

  /** The other domain learns the same address and a second one. */
  lemma LearnsTwo(st: Estado)
    requires st.ends == map[] && st.alvos == map["c" := B] && st.protegidos == {}
    ensures Transicao(st, Resposta("c", [A, A2], TETO, 0), st.(ends := map[A := PENDING_C, A2 := PENDING_C]),
                      Ajuste([WRITE_A, WRITE_A2], []))
  {
    MatchesItself(st.alvos, 'c');
    var o, o1 := Obra(st.ends, VAZIO), Obra(map[A := PENDING_C], Ajuste([WRITE_A], []));
    assert Itens([A, A2], TETO) == [Item(A, TETO), Item(A2, TETO)];
    TwoItems(st.alvos, o, Item(A, TETO), Item(A2, TETO));
    assert Reivindicados(o.ends, "c") == {};
    assert Absorver(st.alvos, o, "c", A, TETO, 0) == o1;
    assert Reivindicados(o1.ends, "c") == {A};
    assert o1.ends[A2 := PENDING_C] == map[A := PENDING_C, A2 := PENDING_C];
    assert [WRITE_A] + [WRITE_A2] == [WRITE_A, WRITE_A2];
  }

  lemma TwoItems(alvos: Alvos, o: Obra, i: Item, j: Item)
    requires alvos == map["c" := B] && Utilizavel(i.addr) && Utilizavel(j.addr)
    ensures AbsorverLista(alvos, {}, o, "c", [i, j], 0)
         == Absorver(alvos, Absorver(alvos, o, "c", i.addr, i.prazo, 0), "c", j.addr, j.prazo, 0)
  {
    assert [i, j][..1] == [i] && [i][..0] == [];
    assert AbsorverLista(alvos, {}, o, "c", [i][..0], 0) == o;
    assert AbsorverLista(alvos, {}, o, "c", [i], 0) == Absorver(alvos, o, "c", i.addr, i.prazo, 0);
  }

  lemma BothBatch()
    ensures EhLote(BOTH, [WRITE_A, WRITE_A2], [M]) && AdicoesDoLote(BOTH) == {A, A2}
  {
    var es := [WRITE_A, WRITE_A2];
    assert WRITE_A in es && WRITE_A2 in es && M in [M];
    forall s, y ensures y in Adicionar(BOTH, s) <==> EhEntrada(s, es, y) {}
    forall s, a ensures a in Remover(BOTH, s) <==> ARemover(s, es, [M], a) {}
  }

  lemma BothIsTheBatch(pr: PendRemocoes)
    requires pr == map[KEY := RemocaoPend(M, 1)]
    ensures LoteDe(BOTH, AcumularEscritas(map[], [WRITE_A, WRITE_A2]), pr)
  {
    BothBatch();
    AccumulatedWrites([WRITE_A, WRITE_A2]);
    assert pr[KEY].rem == M;
    assert Remocoes(pr) == {M};
    OneBatchOfAll(BOTH, AcumularEscritas(map[], [WRITE_A, WRITE_A2]), pr, [WRITE_A, WRITE_A2], [M]);
  }

  /** The retry writes the second address, leaves the first unrenewed, and reports no removal undone. */
  lemma BothIsRetried(k: Nft)
    ensures SoAdicoes(BOTH) == Lote([], [], [], [Entrada(A2, TETO, 0)], [], [])
    ensures AplicarLote(k, BOTH, 0, true, false) == (Aplicado(k, SoAdicoes(BOTH), 0), Feito(true, [A], []))
    ensures HOME in k ==> HOME in Aplicado(k, SoAdicoes(BOTH), 0) && Aplicado(k, SoAdicoes(BOTH), 0)[HOME] == k[HOME]
  {
    var x, y := Entrada(A, TETO, 0), Entrada(A2, TETO, 0);
    var es := BOTH.adicionarBloq;
    assert es == [x, y] && [x, y][..1] == [x] && [x][..0] == [];
    assert SemDelete([x], [A]) == SemDelete([], [A]) + [];
    assert SemDelete([x, y], [A]) == SemDelete([x], [A]) + [y];
    assert Renovados([x], [A]) == Renovados([], [A]) + [A];
    assert Renovados([x, y], [A]) == Renovados([x], [A]) + [];
    assert Escrito(es, A) by { assert es[0] in es; }
    assert [A][..0] == [];
    assert SoRetirados([A], es) == SoRetirados([], es) + [];
    assert RenovacoesDoLote(BOTH) == [A] && RemocoesDoLote(BOTH) == [];
    assert SoAdicoes(BOTH) == Lote([], [], [], [y], [], []);
    AplicadoIs(k, SoAdicoes(BOTH), 0, HOME);
  }

  lemma AfterTheRetry()
    ensures Respondido(map[A := PENDING_C, A2 := PENDING_C], {A, A2}, Feito(true, [A], []), 0).Keys == {A2}
  {
    assert Index.Conjunto([A]) == {A};
  }

  lemma RetriedRound(q: Quadro, x: Vez)
    requires q == Quadro(q.st, q.k, 0, map[KEY := RemocaoPend(M, 1)], {}) && x.p == Resposta("c", [A, A2], TETO, 0)
    requires x == Vez(x.p, q.st.(ends := map[A := PENDING_C, A2 := PENDING_C]), Ajuste([WRITE_A, WRITE_A2], []), BOTH,
                      map[A := RemocaoPend(M, 1)], true, false, 0, 0, [], true)
    requires Transicao(q.st, x.p, x.st, x.aj)
    ensures var ends := Respondido(x.st.ends, AdicoesDoLote(BOTH), Feito(true, [A], []), 0);
      Rodou(q, x, Quadro(x.st.(ends := ends), Aplicado(q.k, SoAdicoes(BOTH), 0), 0, map[], {})) && A !in ends
  {
    BothIsTheBatch(q.fila);
    BothIsRetried(q.k);
    BothBatch();
    AfterTheRetry();
    NothingComesBack(q.fila);
    IsRound(q, x, q.fila, Feito(true, [A], []));
  }

  /** A round that requeues nothing and gives nothing up. */
  lemma IsRound(q: Quadro, x: Vez, pr: PendRemocoes, res: Resultado)
    requires x.p.Resposta? && q.t <= Instante(x.p) <= x.tk <= x.tc && Transicao(q.st, x.p, x.st, x.aj)
    requires pr == AcumularRemocoes(q.fila, x.aj.remocoes) && LoteDe(x.l, AcumularEscritas(map[], x.aj.escritas), pr)
    requires PorAddr(x.porAddr, pr) && res == AplicarLote(q.k, x.l, x.tk, x.falha1, x.falha2).1
    requires (forall p :: !Volta(x.porAddr, res, p)) && x.voltam == [] && x.coube
    ensures Rodou(q, x, Quadro(x.st.(ends := Respondido(x.st.ends, AdicoesDoLote(x.l), res, x.tc)),
                               AplicarLote(q.k, x.l, x.tk, x.falha1, x.falha2).0, x.tc, map[], q.desistidas))
  {
    assert Recolocadas(map[], x.voltam) == map[];
    assert q.desistidas + Abandonadas(x.voltam, x.coube) == q.desistidas;
  }

  lemma NothingComesBack(pr: PendRemocoes)
    requires pr == map[KEY := RemocaoPend(M, 1)]
    ensures PorAddr(map[A := RemocaoPend(M, 1)], pr)
    ensures forall p :: !Volta(map[A := RemocaoPend(M, 1)], Feito(true, [A], []), p)
  {
    assert pr[KEY] == RemocaoPend(M, 1);
  }

  /**
   A removal refused once is in the queue; another domain learns the same address; the batch
   that deletes and writes it is retried without either. The kernel still holds the address,
   the index has dropped it, and the removal is in no queue and was not given up.
   */
  lemma ARemovalIsLetGo() returns (j: Jogo)
    ensures Jogado(j) && !NadaSeSolta(j) && HOME in Soltas(j)
    ensures Tem(Fim(j).k, HOME, Fim(j).t) && A !in Fim(j).st.ends && Fim(j).fila == map[] && Fim(j).desistidas == {}
  {
    var i := Third();
    var st := Fim(i).st;
    LearnsTwo(st);
    var x := Vez(Resposta("c", [A, A2], TETO, 0), st.(ends := map[A := PENDING_C, A2 := PENDING_C]),
                 Ajuste([WRITE_A, WRITE_A2], []), BOTH, map[A := RemocaoPend(M, 1)], true, false, 0, 0, [], true);
    RetriedRound(Fim(i), x);
    BothIsRetried(Fim(i).k);
    var ends := Respondido(x.st.ends, AdicoesDoLote(BOTH), Feito(true, [A], []), 0);
    j := Seguido(i, Da(x), Quadro(x.st.(ends := ends), Aplicado(Fim(i).k, SoAdicoes(BOTH), 0), 0, map[], {}));
    OnlyLetGo(j, HOME);
  }

  /** What is held, not registered, not queued and not given up was let go. */
  lemma OnlyLetGo(j: Jogo, c: Casa)
    requires Jogado(j) && Tem(Fim(j).k, c, Fim(j).t)
    requires c.a !in Fim(j).st.ends && Fim(j).fila == map[] && Fim(j).desistidas == {}
    ensures c in Soltas(j) && !NadaSeSolta(j)
  {
    EveryRunAccountsForTheKernel(j);
  }
}
