/** Concrete runs of index, feeder and kernel: what refused and retried batches can leave behind. */
module KernelExamples {
  import opened Options
  import opened DomTargets
  import opened IndexRuns
  import opened ListChanges
  import opened IndexExamples
  import opened Kernel
  import opened KernelMirror
  import opened KernelRuns

  const A := Addr(true, 1, true)
  const HOME := Casa(Bloq, A)

  /** What a blocked address is once its write was confirmed. */
  const BLOCKED_A := Registro({"b"}, TETO, TETO, Some(Lugar(Barrar, 0)), false, None)
  const PENDING_A := Registro({"b"}, TETO, TETO, None, false, Some(Pedido(TETO, Lugar(Barrar, 0))))

  const ONLY_B := [Linha('b', Barrar, Ativo, 0)]
  const WRITE_A := Escrita(A, TETO, Lugar(Barrar, 0), false)
  const ADD_A := Lote([], [], [], [Entrada(A, TETO, 0)], [], [])
  const DELETE_A := Lote([A], [], [], [], [], [])

  lemma EmptyBatch()
    ensures EhLote(LOTE_VAZIO, [], []) && AdicoesDoLote(LOTE_VAZIO) == {} && Aceita(map[], LOTE_VAZIO, 0)
    ensures Aplicado(map[], LOTE_VAZIO, 0) == map[]
  {
  }

  lemma AddBatch()
    ensures EhLote(ADD_A, [WRITE_A], []) && AdicoesDoLote(ADD_A) == {A} && Aceita(map[], ADD_A, 0)
    ensures HOME in Aplicado(map[], ADD_A, 0) && Aplicado(map[], ADD_A, 0)[HOME] == Elemento(0, TETO)
  {
    AddIsABatch();
    BatchIsWellFormed(ADD_A, [WRITE_A], []);
    AddIsHeld();
  }

  lemma AddIsABatch()
    ensures EhLote(ADD_A, [WRITE_A], []) && AdicoesDoLote(ADD_A) == {A}
  {
    forall s, y ensures y in Adicionar(ADD_A, s) <==> EhEntrada(s, [WRITE_A], y) {
      assert WRITE_A in [WRITE_A];
    }
  }

  lemma AddIsHeld()
    ensures HOME in Aplicado(map[], ADD_A, 0) && Aplicado(map[], ADD_A, 0)[HOME] == Elemento(0, TETO)
  {
    var x := Entrada(A, TETO, 0);
    assert x in ADD_A.adicionarBloq && EhNova(ADD_A, HOME, x);
    var y := NewElement(map[], ADD_A, 0, HOME, x);
  }

  lemma DeleteBatch(rs: seq<Remocao>)
    requires forall m :: m in rs <==> m == Remocao(A, Barrar)
    ensures EhLote(DELETE_A, [], rs) && AdicoesDoLote(DELETE_A) == {}
  {
    assert Remocao(A, Barrar) in rs;
    forall s, x ensures x in Remover(DELETE_A, s) <==> ARemover(s, [], rs, x) {}
  }

  lemma ListOfOne()
    ensures Listar(ONLY_B) == map["b" := B]
  {
    OneMoreLine([], 'b', B);
    assert [] + ONLY_B == ONLY_B;
  }

  /** Listed, learned, written and confirmed. */
  lemma BlockedInTheKernel() returns (c: Corrida)
    ensures Valida(c) && Agora(c).st.ends == map[A := BLOCKED_A] && Agora(c).st.alvos == map["b" := B]
        && Agora(c).t == 0
    ensures HOME in Agora(c).k && Agora(c).k[HOME] == Elemento(0, TETO)
  {
    var c1 := ListedInTheIndex();
    c := LearnedAndWritten(c1);
  }

  lemma LearnedAndWritten(c1: Corrida) returns (c: Corrida)
    requires Valida(c1) && Agora(c1).st.ends == map[] && Agora(c1).st.alvos == map["b" := B]
    requires Agora(c1).st.protegidos == {} && Agora(c1).k == map[] && Agora(c1).t == 0
    ensures Valida(c) && Agora(c).st.ends == map[A := BLOCKED_A] && Agora(c).st.alvos == map["b" := B]
        && Agora(c).t == 0
    ensures HOME in Agora(c).k && Agora(c).k[HOME] == Elemento(0, TETO)
  {
    var st1 := Agora(c1).st;
    var st2 := st1.(ends := map[A := PENDING_A]);
    var step := Aceito(Resposta("b", [A], TETO, 0), st2, Ajuste([WRITE_A], []), ADD_A, 0, 0);
    LearnsA(st1);
    AddBatch();
    WrittenStep(Agora(c1), step);
    c := Mais(c1, step, Mundo(st1.(ends := map[A := BLOCKED_A]), Aplicado(map[], ADD_A, 0), 0));
  }

  lemma LearnsA(st: Estado)
    requires st.ends == map[] && st.alvos == map["b" := B] && st.protegidos == {}
    ensures Transicao(st, Resposta("b", [A], TETO, 0), st.(ends := map[A := PENDING_A]), Ajuste([WRITE_A], []))
  {
    LearnedFirst(st, 'b', A, TETO, 0);
  }

  lemma WrittenStep(m: Mundo, x: PassoK)
    requires m.k == map[] && m.t == 0 && x.Aceito? && x.p == Resposta("b", [A], TETO, 0)
    requires x == Aceito(x.p, m.st.(ends := map[A := PENDING_A]), Ajuste([WRITE_A], []), ADD_A, 0, 0)
    requires Transicao(m.st, x.p, x.st, x.aj)
    ensures Anda(m, x, Mundo(m.st.(ends := map[A := BLOCKED_A]), Aplicado(map[], ADD_A, 0), 0))
  {
    AddBatch();
    ConfirmedA();
  }

  lemma ConfirmedA()
    ensures ConfirmarEnds(map[A := PENDING_A], {A}, 0) == map[A := BLOCKED_A]
  {
  }

  lemma ListedInTheIndex() returns (c: Corrida)
    ensures Valida(c) && Agora(c).st.ends == map[] && Agora(c).st.alvos == map["b" := B] && Agora(c).st.protegidos == {}
    ensures Agora(c).k == map[] && Agora(c).t == 0
  {
    ListOfOne();
    EmptyBatch();
    var st1, aj1 := ADefinitionIsPossible(INICIAL, ONLY_B, 0);
    FirstList(INICIAL, ONLY_B, 0, st1, aj1);
    var step := Aceito(Lista(ONLY_B, 0), st1, aj1, LOTE_VAZIO, 0, 0);
    assert ConfirmarEnds(map[], {}, 0) == map[];
    assert Valida(Boot(0));
    c := Mais(Boot(0), step, Mundo(st1, map[], 0));
  }

  /** Taking the only domain off the list removes the address. */
  lemma TheRemoval(st: Estado) returns (st': Estado, aj: Ajuste)
    requires st.ends == map[A := BLOCKED_A]
    ensures Definir(st, [], 0, st', aj) && st'.ends == map[] && aj.escritas == []
    ensures forall m :: m in aj.remocoes <==> m == Remocao(A, Barrar)
  {
    st', aj := ADefinitionIsPossible(st, [], 0);
    assert Listar([]) == map[];
    NobodyPromotedNothingReplayed(st, [], 0, st', aj);
    assert Ativos(map[], {"b"}) == {};
    forall m ensures m in aj.remocoes <==> m == Remocao(A, Barrar) {
      assert RemocaoDevida(map[], st.ends, m) <==> m == Remocao(A, Barrar);
    }
    HasOne(aj.escritas);
  }

  /** Refused, that removal leaves the kernel with an address that the index has forgotten. */
  lemma LostRemovalBreaksTheMirror() returns (c: Corrida, st: Estado, aj: Ajuste)
    ensures Valida(c) && Decide(Agora(c), Lista([], 0), st, aj, DELETE_A)
    ensures !Espelho(NaoConfirmadoEnds(st.ends, AdicoesDoLote(DELETE_A)), Agora(c).k, 0)
  {
    c := BlockedInTheKernel();
    st, aj := TheRemoval(Agora(c).st);
    DeleteBatch(aj.remocoes);
    assert Tem(Agora(c).k, HOME, 0);
  }
}
