/** A concrete history: an address that is routed although one of its claimants bars it. */
module PlaceExamples {
  import opened Options
  import opened DomTargets
  import opened IndexRuns
  import opened EffectivePlace
  import opened ListChanges
  import opened IndexExamples

  const V4 := Addr(true, 1, true)
  const BOTH := {"b", "r"}
  const UNDER_WAY := Registro({"r"}, TETO, TETO, None, false, Some(Pedido(TETO, Lugar(Direcionar, 7))))
  const ROUTED_ENTRY := Registro(BOTH, TETO, TETO, Some(Lugar(Direcionar, 7)), false, None)

  lemma Listed() returns (h: Historia)
    ensures Execucao(h) && Atual(h).alvos == map["b" := B, "r" := R] && Atual(h).ends == map[]
        && Atual(h).protegidos == {}
  {
    TheLists();
    var st, aj := ADefinitionIsPossible(INICIAL, ROUTED, 0);
    FirstList(INICIAL, ROUTED, 0, st, aj);
    h := Depois(Inicio, Lista(ROUTED, 0), aj, st);
    assert Execucao(Inicio);
  }

  lemma LearnedUnderTheRouted() returns (h: Historia)
    ensures Execucao(h) && Atual(h).alvos == map["b" := B, "r" := R] && Atual(h).ends == map[V4 := UNDER_WAY]
        && Atual(h).protegidos == {}
  {
    var h1 := Listed();
    LearnedFirst(Atual(h1), 'r', V4, TETO, 0);
    var r := Aprender(Atual(h1), "r", [V4], TETO, 0);
    h := Depois(h1, Resposta("r", [V4], TETO, 0), r.1, r.0);
  }

  lemma ClaimedByBoth() returns (h: Historia)
    ensures Execucao(h) && Atual(h).alvos == map["b" := B, "r" := R]
        && Atual(h).ends == map[V4 := UNDER_WAY.(dominios := BOTH)]
  {
    var h2 := LearnedUnderTheRouted();
    LearnedAgain(Atual(h2), 'b', V4, TETO, 0);
    var r := Aprender(Atual(h2), "b", [V4], TETO, 0);
    h := Depois(h2, Resposta("b", [V4], TETO, 0), r.1, r.0);
    assert {"r"} + {"b"} == BOTH;
  }

  /**
   Learned under a routed name, and under a barred one while its write is under way: confirmed, it is routed, and a
   claimant bars it. The next answer with it moves it.
   */
  lemma RoutedThoughBarred() returns (h: Historia)
    ensures Execucao(h) && Atual(h).ends == map[V4 := ROUTED_ENTRY]
    ensures Barrado(Atual(h).alvos, ROUTED_ENTRY.dominios) && !EmDia(Atual(h).alvos, V4, ROUTED_ENTRY)
    ensures forall d, prazo, t | d in BOTH :: EmDia(Atual(h).alvos, V4,
        AbsorverConhecido(Atual(h).alvos, Obra(Atual(h).ends, VAZIO), d, V4, prazo, t).ends[V4])
  {
    var h3 := ClaimedByBoth();
    var st := Atual(h3).(ends := ConfirmarEnds(Atual(h3).ends, {V4}, 0));
    assert st.ends == map[V4 := ROUTED_ENTRY];
    h := Depois(h3, Confirma({V4}, 0), VAZIO, st);
    assert "b" in BOTH && Barrado(st.alvos, BOTH);
    forall d, prazo, t | d in BOTH
      ensures EmDia(st.alvos, V4, AbsorverConhecido(st.alvos, Obra(st.ends, VAZIO), d, V4, prazo, t).ends[V4])
    {
      Moved(st, d, prazo, t);
    }
  }

  lemma Moved(st: Estado, d: Dominio, prazo: int, t: int)
    requires st.alvos == map["b" := B, "r" := R] && st.ends == map[V4 := ROUTED_ENTRY] && d in BOTH
    ensures EmDia(st.alvos, V4, AbsorverConhecido(st.alvos, Obra(st.ends, VAZIO), d, V4, prazo, t).ends[V4])
  {
    var p := AbsorverConhecido(st.alvos, Obra(st.ends, VAZIO), d, V4, prazo, t);
    assert "b" in BOTH && Barrado(st.alvos, BOTH);
    assert Devido(st.alvos, V4, BOTH, Lugar(Barrar, 0));
    PlaceIsOwed(st.alvos, V4, BOTH, Lugar(Barrar, 0));
  }
}
