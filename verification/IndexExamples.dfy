/** Concrete histories of the index: an IPv6 address that a demotion and a promotion do not give back. */
module IndexExamples {
  import opened Options
  import opened DomTargets
  import opened IndexRuns
  import opened ListChanges
  import opened RoundTrip

  /** One row of a list; the names have one letter. */
  function Linha(c: char, cap: Capacidade, e: Estagio, marca: nat): Listado {
    Listado(Some([c]), Some(cap), Some(e), marca)
  }

  lemma OneMoreLine(l: seq<Listado>, c: char, p: Alvo)
    ensures Listar(l + [Linha(c, p.capacidade, p.estagio, p.marca)]) == Listar(l)[[c] := p]
  {
    var x := Linha(c, p.capacidade, p.estagio, p.marca);
    assert (l + [x])[..|l|] == l;
    assert p.capacidade == Direcionar || p.capacidade == Barrar;
    assert p.estagio == Ativo || p.estagio == Ensaio;
    assert Listar(l + [x]) == Listar(l)[[c] := Alvo(p.capacidade, p.estagio, p.marca)];
  }

  lemma ListOfTwo(x: char, p: Alvo, y: char, q: Alvo)
    ensures Listar([Linha(x, p.capacidade, p.estagio, p.marca), Linha(y, q.capacidade, q.estagio, q.marca)])
         == map[[x] := p][[y] := q]
  {
    var u, v := Linha(x, p.capacidade, p.estagio, p.marca), Linha(y, q.capacidade, q.estagio, q.marca);
    OneMoreLine([], x, p);
    OneMoreLine([u], y, q);
    assert [] + [u] == [u] && [u] + [v] == [u, v];
  }

  lemma OneLetter(c: char)
    requires 'a' <= c <= 'z'
    ensures Normalizado([c]) == [c]
  {
    assert SemInicio([c], Text.Blank) == [c] && SemFim([c], Text.Blank) == [c];
    assert SemInicio([c], Ponto) == [c] && SemFim([c], Ponto) == [c];
  }

  lemma MatchesItself(alvos: Alvos, c: char)
    requires 'a' <= c <= 'z' && [c] in alvos
    ensures CasarEm(alvos, [c]) == Some([c])
  {
    OneLetter(c);
  }

  /** An address new to an empty index, under an active domain. */
  lemma LearnedFirst(st: Estado, c: char, a: Addr, ttl: int, t: int)
    requires 'a' <= c <= 'z' && EhAtivo(st.alvos, [c]) && st.ends == map[] && st.protegidos == {}
    requires Utilizavel(a) && PodeEntrar(a, st.alvos[[c]].capacidade) && PISO <= ttl <= TETO
    ensures var l := Lugar(st.alvos[[c]].capacidade, st.alvos[[c]].marca);
        var (st', aj) := Aprender(st, [c], [a], ttl, t);
      && st' == st.(ends := map[a := Registro({[c]}, t + ttl, ttl, None, false, Some(Pedido(ttl, l)))])
      && aj == Ajuste([Escrita(a, ttl, l, false)], [])
  {
    MatchesItself(st.alvos, c);
    var itens := Itens([a], ttl);
    assert itens[..0] == [] && itens == [Item(a, ttl)];
    assert Reivindicados(map[], [c]) == {};
    var o := Obra(st.ends, VAZIO);
    assert AbsorverLista(st.alvos, st.protegidos, o, [c], itens[..0], t) == o;
  }

  /** A second domain learns an address whose write is on its way: it is only credited. */
  lemma LearnedAgain(st: Estado, c: char, a: Addr, ttl: int, t: int)
    requires 'a' <= c <= 'z' && EhAtivo(st.alvos, [c]) && st.protegidos == {} && PISO <= ttl <= TETO
    requires Utilizavel(a) && PodeEntrar(a, st.alvos[[c]].capacidade)
    requires a in st.ends && st.ends == map[a := st.ends[a]] && st.ends[a].pendente.Some? && [c] !in st.ends[a].dominios
    ensures var (st', aj) := Aprender(st, [c], [a], ttl, t);
      st' == st.(ends := map[a := st.ends[a].(dominios := st.ends[a].dominios + {[c]})]) && aj == VAZIO
  {
    MatchesItself(st.alvos, c);
    var itens := Itens([a], ttl);
    assert itens[..0] == [] && itens == [Item(a, ttl)];
    assert Reivindicados(st.ends, [c]) == {};
    var o := Obra(st.ends, VAZIO);
    assert AbsorverLista(st.alvos, st.protegidos, o, [c], itens[..0], t) == o;
  }

  // ----- two blocked domains, one of which becomes a routed one

  const B := Alvo(Barrar, Ativo, 0)
  const R := Alvo(Direcionar, Ativo, 7)
  const R_DOWN := Alvo(Direcionar, Ensaio, 7)

  const BLOCKED := [Linha('b', Barrar, Ativo, 0), Linha('r', Barrar, Ativo, 0)]
  const ROUTED := [Linha('b', Barrar, Ativo, 0), Linha('r', Direcionar, Ativo, 7)]
  const DEMOTED := [Linha('b', Barrar, Ativo, 0), Linha('r', Direcionar, Ensaio, 7)]

  lemma TheLists()
    ensures Listar(BLOCKED) == map["b" := B, "r" := B] && Listar(ROUTED) == map["b" := B, "r" := R]
    ensures Listar(DEMOTED) == map["b" := B, "r" := R_DOWN] == Rebaixada(Listar(ROUTED), "r")
  {
    ListOfTwo('b', B, 'r', B);
    ListOfTwo('b', B, 'r', R);
    ListOfTwo('b', B, 'r', R_DOWN);
  }

  const V6 := Addr(false, 1, true)

  /** The address, claimed by both, blocked and confirmed. */
  const SHARED := Registro({"b", "r"}, TETO, TETO, Some(Lugar(Barrar, 0)), false, None)

  const PENDING := Registro({"b"}, TETO, TETO, None, false, Some(Pedido(TETO, Lugar(Barrar, 0))))

  lemma ListedFirst() returns (h: Historia)
    ensures Execucao(h) && Atual(h).alvos == Listar(BLOCKED) && Atual(h).ends == map[]
    ensures Atual(h).protegidos == {} && forall d :: PocoDe(Atual(h).ensaiados, d) == map[]
  {
    var st1, aj1 := ADefinitionIsPossible(INICIAL, BLOCKED, 0);
    FirstList(INICIAL, BLOCKED, 0, st1, aj1);
    h := Depois(Inicio, Lista(BLOCKED, 0), aj1, st1);
    assert Execucao(Inicio);
  }

  lemma LearnedUnderTheFirst() returns (h: Historia)
    ensures Execucao(h) && Atual(h).alvos == Listar(BLOCKED) && Atual(h).ends == map[V6 := PENDING]
    ensures Atual(h).protegidos == {} && forall d :: PocoDe(Atual(h).ensaiados, d) == map[]
  {
    TheLists();
    var h1 := ListedFirst();
    LearnedFirst(Atual(h1), 'b', V6, TETO, 0);
    var r2 := Aprender(Atual(h1), "b", [V6], TETO, 0);
    h := Depois(h1, Resposta("b", [V6], TETO, 0), r2.1, r2.0);
  }

  lemma LearnedUnderBoth() returns (h: Historia)
    ensures Execucao(h) && Atual(h).alvos == Listar(BLOCKED)
    ensures Atual(h).ends == map[V6 := PENDING.(dominios := {"b", "r"})]
    ensures Atual(h).protegidos == {} && forall d :: PocoDe(Atual(h).ensaiados, d) == map[]
  {
    TheLists();
    var h2 := LearnedUnderTheFirst();
    LearnedAgain(Atual(h2), 'r', V6, TETO, 0);
    var r3 := Aprender(Atual(h2), "r", [V6], TETO, 0);
    h := Depois(h2, Resposta("r", [V6], TETO, 0), r3.1, r3.0);
    assert {"b"} + {"r"} == {"b", "r"};
  }

  /** Learned under both, confirmed, and then the second is listed as routed. */
  lemma HistoryOfTheShared() returns (h: Historia)
    ensures Execucao(h) && Atual(h).alvos == Listar(ROUTED) && Atual(h).ends == map[V6 := SHARED]
    ensures Atual(h).protegidos == {} && PocoDe(Atual(h).ensaiados, "r") == map[]
  {
    var h3 := LearnedUnderBoth();
    var st4 := Atual(h3).(ends := ConfirmarEnds(Atual(h3).ends, {V6}, 0));
    assert st4.ends == map[V6 := SHARED];
    var h4 := Depois(h3, Confirma({V6}, 0), VAZIO, st4);
    h := BecomesRouted(h4);
  }

  lemma BecomesRouted(h4: Historia) returns (h: Historia)
    requires Execucao(h4) && Atual(h4).alvos == Listar(BLOCKED) && Atual(h4).ends == map[V6 := SHARED]
    requires Atual(h4).protegidos == {} && forall d :: PocoDe(Atual(h4).ensaiados, d) == map[]
    ensures Execucao(h) && Atual(h).alvos == Listar(ROUTED) && Atual(h).ends == map[V6 := SHARED]
    ensures Atual(h).protegidos == {} && PocoDe(Atual(h).ensaiados, "r") == map[]
  {
    TheLists();
    var st5, aj5 := ADefinitionIsPossible(Atual(h4), ROUTED, 0);
    NobodyPromotedNothingReplayed(Atual(h4), ROUTED, 0, st5, aj5);
    h := Depois(h4, Lista(ROUTED, 0), aj5, st5);
    BlockedStaysBlocked(Listar(ROUTED));
    assert PocoDepois(Atual(h4), Listar(ROUTED), st5.ensaiados, "r");
  }

  lemma BlockedStaysBlocked(novos: Alvos)
    requires novos == map["b" := B, "r" := R]
    ensures EndsReconciliados(novos, map[V6 := SHARED]) == map[V6 := SHARED]
  {
    assert "b" in Ativos(novos, {"b", "r"});
    assert Ativos(novos, {"b", "r"}) == {"b", "r"};
  }

  /**
   At the end of that history the routed domain is demoted and promoted again. Nothing expired,
   nothing is protected, and the address is not claimed again.
   */
  lemma RoutedIPv6IsNotReclaimed() returns (h: Historia, st1: Estado, aj1: Ajuste, st2: Estado, aj2: Ajuste)
    ensures Execucao(h) && IdaEVolta(Atual(h), "r", DEMOTED, 0, st1, aj1, ROUTED, 0, st2, aj2)
    ensures Atual(h).protegidos == {} && forall a | a in Reivindicados(Atual(h).ends, "r") ::
        Atual(h).ends[a].expira > 0
    ensures V6 in Reivindicados(Atual(h).ends, "r") && V6 !in Reivindicados(st2.ends, "r")
  {
    TheLists();
    h := HistoryOfTheShared();
    EveryRunKeepsTheIndex(h);
    EmptyPoolFits(Atual(h), "r");
    st1, aj1 := ADefinitionIsPossible(Atual(h), DEMOTED, 0);
    st2, aj2 := ADefinitionIsPossible(st1, ROUTED, 0);
    DemoteThenPromote(Atual(h), "r", DEMOTED, 0, st1, aj1, ROUTED, 0, st2, aj2);
  }
}
