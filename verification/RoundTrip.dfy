/** Demoting a domain to rehearsal and promoting it back, with nothing learned in between. */
module RoundTrip {
  import opened Order
  import opened DomTargets
  import opened IndexInvariant
  import opened Adjustments

  function Rebaixada(alvos: Alvos, d: Dominio): Alvos
    requires d in alvos
  {
    alvos[d := alvos[d].(estagio := Ensaio)]
  }

  ghost function Enderecos(itens: seq<Item>): set<Addr> { set i | i in itens :: i.addr }

  ghost predicate Entra(alvos: Alvos, protegidos: set<Addr>, d: Dominio, a: Addr)
    requires d in alvos
  {
    Aceitavel(protegidos, a) && PodeEntrar(a, alvos[d].capacidade)
  }

  ghost function Entrando(alvos: Alvos, protegidos: set<Addr>, d: Dominio, s: set<Addr>): set<Addr>
    requires d in alvos
  {
    set a | a in s && Entra(alvos, protegidos, d, a)
  }

  lemma EnderecosSnoc(itens: seq<Item>, i: Item)
    ensures Enderecos(itens + [i]) == Enderecos(itens) + {i.addr}
  {
  }

  lemma EntrandoSnoc(alvos: Alvos, protegidos: set<Addr>, d: Dominio, s: set<Addr>, a: Addr)
    requires d in alvos
    ensures Entrando(alvos, protegidos, d, s + {a}) ==
            Entrando(alvos, protegidos, d, s) + if Entra(alvos, protegidos, d, a) then {a} else {}
  {
  }

  /** With room for all of them, a domain ends up claiming exactly what it claimed and what may enter. */
  lemma {:induction false} ReplayClaims(alvos: Alvos, protegidos: set<Addr>, o: Obra, d: Dominio, itens: seq<Item>,
    agora: int, todos: set<Addr>)
    requires d in alvos && |Reivindicados(o.ends, d) + Enderecos(itens)| <= MAX_POR_DOMINIO
    requires o.ends.Keys <= todos && Enderecos(itens) <= todos && |todos| <= MAX_ENDERECOS
    ensures var fim := AbsorverLista(alvos, protegidos, o, d, itens, agora).ends;
            Reivindicados(fim, d) == Reivindicados(o.ends, d) + Entrando(alvos, protegidos, d, Enderecos(itens))
            && fim.Keys <= todos
    decreases |itens|
  {
    if itens != [] {
      var antes, i := itens[..|itens| - 1], itens[|itens| - 1];
      assert itens == antes + [i];
      EnderecosSnoc(antes, i);
      var cabem := Reivindicados(o.ends, d) + Enderecos(itens);
      SubsetSize(Reivindicados(o.ends, d) + Enderecos(antes), cabem);
      ReplayClaims(alvos, protegidos, o, d, antes, agora, todos);
      var p := AbsorverLista(alvos, protegidos, o, d, antes, agora);
      if i.addr !in Reivindicados(p.ends, d) { SubsetSize(Reivindicados(p.ends, d), cabem - {i.addr}); }
      OneMoreItem(alvos, protegidos, p, d, Reivindicados(o.ends, d), Enderecos(antes), i, agora, todos);
    }
  }

  lemma OneMoreItem(alvos: Alvos, protegidos: set<Addr>, p: Obra, d: Dominio, eram: set<Addr>, s: set<Addr>, i: Item,
                    agora: int, todos: set<Addr>)
    requires d in alvos && i.addr in todos && p.ends.Keys <= todos && |todos| <= MAX_ENDERECOS
    requires Reivindicados(p.ends, d) == eram + Entrando(alvos, protegidos, d, s)
    requires i.addr in Reivindicados(p.ends, d) || |Reivindicados(p.ends, d)| < MAX_POR_DOMINIO
    ensures var fim := if Entra(alvos, protegidos, d, i.addr) then Absorver(alvos, p, d, i.addr, i.prazo, agora) else p;
      Reivindicados(fim.ends, d) == eram + Entrando(alvos, protegidos, d, s + {i.addr}) && fim.ends.Keys <= todos
  {
    if Entra(alvos, protegidos, d, i.addr) { AbsorverClaims(alvos, p, d, i.addr, i.prazo, agora, todos); }
    EntrandoSnoc(alvos, protegidos, d, s, i.addr);
  }

  lemma AbsorverClaims(alvos: Alvos, o: Obra, d: Dominio, a: Addr, prazo: int, agora: int, todos: set<Addr>)
    requires d in alvos && a in todos && o.ends.Keys <= todos && |todos| <= MAX_ENDERECOS
    requires a in Reivindicados(o.ends, d) || |Reivindicados(o.ends, d)| < MAX_POR_DOMINIO
    ensures var fim := Absorver(alvos, o, d, a, prazo, agora).ends;
            Reivindicados(fim, d) == Reivindicados(o.ends, d) + {a} && fim.Keys <= todos
  {
    var p := Absorver(alvos, o, d, a, prazo, agora);
    if a !in o.ends {
      SubsetSize(o.ends.Keys, todos - {a});
      MapSize(o.ends);
    }
    OnlyThisOne(alvos, o, d, a, prazo, agora);
    ClaimsPlusOne(o.ends, p.ends, d, a);
  }

  lemma ClaimsPlusOne(antes: Ends, depois: Ends, d: Dominio, a: Addr)
    requires a in depois && d in depois[a].dominios
    requires forall b | b != a :: (b in depois <==> b in antes) && (b in antes ==> depois[b] == antes[b])
    ensures Reivindicados(depois, d) == Reivindicados(antes, d) + {a} && depois.Keys == antes.Keys + {a}
  {
  }

  /** Where there is room, absorbing an address makes the domain claim it, and touches no other entry. */
  lemma OnlyThisOne(alvos: Alvos, o: Obra, d: Dominio, a: Addr, prazo: int, agora: int)
    requires d in alvos && (a !in o.ends ==> |o.ends| < MAX_ENDERECOS)
    requires a in Reivindicados(o.ends, d) || |Reivindicados(o.ends, d)| < MAX_POR_DOMINIO
    ensures var p := Absorver(alvos, o, d, a, prazo, agora);
      && a in p.ends && d in p.ends[a].dominios
      && forall b | b != a :: (b in p.ends <==> b in o.ends) && (b in o.ends ==> p.ends[b] == o.ends[b])
  {
  }

  /** What the pool of d holds once d is demoted: what it held, and what d claimed. */
  ghost function Guardados(st: Estado, d: Dominio): Poco { PocoDe(st.ensaiados, d) + Prazos(st.ends, d) }

  ghost function Prazos(ends: Ends, d: Dominio): Poco { map a | a in ends && d in ends[a].dominios :: ends[a].expira }

  /** There is room for it in the pool and, should it all come back, in the index. */
  ghost predicate Cabem(st: Estado, d: Dominio) {
    && |PocoDe(st.ensaiados, d).Keys + Reivindicados(st.ends, d)| <= MAX_POR_DOMINIO
    && |PocoDe(st.ensaiados, d).Keys + st.ends.Keys| <= MAX_ENDERECOS
  }

  /** An empty pool always leaves room. */
  lemma EmptyPoolFits(st: Estado, d: Dominio)
    requires Valido(st) && PocoDe(st.ensaiados, d) == map[]
    ensures Cabem(st, d)
  {
    MapSize(st.ends);
    assert PocoDe(st.ensaiados, d).Keys + Reivindicados(st.ends, d) == Reivindicados(st.ends, d);
    assert PocoDe(st.ensaiados, d).Keys + st.ends.Keys == st.ends.Keys;
  }

  ghost predicate Rebaixou(st: Estado, d: Dominio, baixa: seq<Listado>, t: int, st1: Estado, aj: Ajuste) {
    Valido(st) && EhAtivo(st.alvos, d) && Listar(baixa) == Rebaixada(st.alvos, d) && Definir(st, baixa, t, st1, aj)
  }

  ghost predicate Baixa(st: Estado, d: Dominio, baixa: seq<Listado>, t: int, st1: Estado, aj: Ajuste) {
    Rebaixou(st, d, baixa, t, st1, aj) && Cabem(st, d)
  }

  lemma NobodyPromoted(alvos: Alvos, d: Dominio)
    requires EhAtivo(alvos, d)
    ensures PromovidosEmOrdem(alvos, Rebaixada(alvos, d)) == []
  {
    var s := Promovidos(alvos, Rebaixada(alvos, d));
    assert s == {};
    StrTotalOn(s);
    SortedExists(s, StrLess);
    EmptyTogether(Sorted(s, StrLess), s, StrLess);
  }

  lemma EverythingFits(antes: Poco, novos: Poco, depois: Poco)
    requires PocoPossivel(antes, novos, depois) && |antes.Keys + novos.Keys| <= MAX_POR_DOMINIO
    ensures depois == antes + novos
  {
    MapSize(antes + novos);
    assert (antes + novos).Keys == antes.Keys + novos.Keys;
  }

  lemma WalkOnlyShrinks(novos: Alvos, ends: Ends, d: Dominio)
    ensures EndsReconciliados(novos, ends).Keys <= ends.Keys
    ensures Reivindicados(EndsReconciliados(novos, ends), d) <= Reivindicados(ends, d)
  {
  }

  lemma DemotedClaimNothing(alvos: Alvos, ends: Ends, d: Dominio)
    requires !EhAtivo(alvos, d)
    ensures Reivindicados(EndsReconciliados(alvos, ends), d) == {}
  {
  }

  lemma PoolAfterDemotion(st: Estado, d: Dominio, novos: Alvos, o: Obra, pocos: Pocos)
    requires Cabem(st, d) && d in novos && !EhAtivo(novos, d) && Rodada(st, novos, o, pocos)
    ensures PocoDe(pocos, d) == Guardados(st, d)
  {
    PoolOfWalk(st, novos, o, pocos, d);
    PrazosOf(st.ends, novos, d);
    EverythingFits(PocoDe(st.ensaiados, d), Prazos(st.ends, d), PocoDe(pocos, d));
  }

  lemma PoolOfWalk(st: Estado, novos: Alvos, o: Obra, pocos: Pocos, d: Dominio)
    requires Rodada(st, novos, o, pocos)
    ensures PocoDepois(st, novos, pocos, d)
  {
  }

  lemma PrazosOf(ends: Ends, novos: Alvos, d: Dominio)
    ensures Prazos(ends, d).Keys == Reivindicados(ends, d)
    ensures d in novos && !EhAtivo(novos, d) ==> Rebaixados(novos, ends, d) == Prazos(ends, d)
  {
  }

  lemma PoolSize(st: Estado, d: Dominio)
    requires Cabem(st, d)
    ensures |Guardados(st, d)| <= MAX_POR_DOMINIO
  {
    MapSize(Guardados(st, d));
    PrazosOf(st.ends, st.alvos, d);
    assert Guardados(st, d).Keys == PocoDe(st.ensaiados, d).Keys + Reivindicados(st.ends, d);
  }

  ghost predicate Parte(p: Poco, todo: Poco) { forall a | a in p :: a in todo && p[a] == todo[a] }

  lemma PoolIsPart(st: Estado, d: Dominio, novos: Alvos, pocos: Pocos)
    requires d in novos && PocoDepois(st, novos, pocos, d)
    ensures EhAtivo(novos, d) ==> Parte(PocoDe(pocos, d), PocoDe(st.ensaiados, d))
    ensures !EhAtivo(novos, d) ==> Parte(PocoDe(pocos, d), Guardados(st, d))
  {
    PrazosOf(st.ends, novos, d);
  }

  /** Room or not, the demoted domain claims nothing, and its pool holds nothing else. */
  lemma AfterAnyDemotion(st: Estado, d: Dominio, baixa: seq<Listado>, t: int, st1: Estado, aj: Ajuste)
    requires Rebaixou(st, d, baixa, t, st1, aj)
    ensures st1.alvos == Rebaixada(st.alvos, d) && st1.protegidos == st.protegidos
    ensures Reivindicados(st1.ends, d) == {} && Parte(PocoDe(st1.ensaiados, d), Guardados(st, d))
  {
    var novos := Listar(baixa);
    var o, pocos :| Rodada(st, novos, o, pocos) && (st1, aj) == DefinirDepois(st, novos, t, o, pocos);
    NobodyPromoted(st.alvos, d);
    PoolOfWalk(st, novos, o, pocos, d);
    PoolIsPart(st, d, novos, pocos);
    DemotedClaimNothing(novos, st.ends, d);
  }

  lemma AfterDemotion(st: Estado, d: Dominio, baixa: seq<Listado>, t: int, st1: Estado, aj: Ajuste)
    requires Baixa(st, d, baixa, t, st1, aj)
    ensures Valido(st1) && st1.alvos == Rebaixada(st.alvos, d) && st1.protegidos == st.protegidos
    ensures st1.ends == EndsReconciliados(st1.alvos, st.ends) && Reivindicados(st1.ends, d) == {}
    ensures PocoDe(st1.ensaiados, d) == Guardados(st, d)
  {
    DefinirKeeps(st, baixa, t, st1, aj);
    var novos := Listar(baixa);
    var o, pocos :| Rodada(st, novos, o, pocos) && (st1, aj) == DefinirDepois(st, novos, t, o, pocos);
    NobodyPromoted(st.alvos, d);
    PoolAfterDemotion(st, d, novos, o, pocos);
    DemotedClaimNothing(novos, st.ends, d);
  }

  /** Of what the pool holds after the demotion, what comes back at instant t: unexpired and enterable. */
  ghost function Voltam(st: Estado, d: Dominio, t: int): set<Addr>
    requires d in st.alvos
  {
    set a | a in Guardados(st, d) && Guardados(st, d)[a] > t && Entra(st.alvos, st.protegidos, d, a)
  }

  ghost predicate IdaEVolta(st: Estado, d: Dominio, baixa: seq<Listado>, t1: int, st1: Estado, aj1: Ajuste,
                            volta: seq<Listado>, t2: int, st2: Estado, aj2: Ajuste) {
    Baixa(st, d, baixa, t1, st1, aj1) && Listar(volta) == st.alvos && Definir(st1, volta, t2, st2, aj2)
  }

  /** A walk under a list where d is active adds nothing to its pool. */
  lemma PoolUntouched(st: Estado, d: Dominio, novos: Alvos, o: Obra, pocos: Pocos)
    requires EhAtivo(novos, d) && |PocoDe(st.ensaiados, d)| <= MAX_POR_DOMINIO && Rodada(st, novos, o, pocos)
    ensures PocoDe(pocos, d) == PocoDe(st.ensaiados, d)
  {
    PoolOfWalk(st, novos, o, pocos, d);
    var antes, nada := PocoDe(st.ensaiados, d), Rebaixados(novos, st.ends, d);
    MapSize(antes);
    assert antes.Keys + nada.Keys == antes.Keys && antes + nada == antes;
    EverythingFits(antes, nada, PocoDe(pocos, d));
  }

  /** The walk of the second change takes in nothing, and leaves the pool as it was. */
  lemma SecondWalk(st: Estado, d: Dominio, baixa: seq<Listado>, t1: int, st1: Estado, aj1: Ajuste, o: Obra,
    pocos: Pocos)
    requires Baixa(st, d, baixa, t1, st1, aj1) && Rodada(st1, st.alvos, o, pocos)
    ensures o.ends.Keys <= st.ends.Keys && Reivindicados(o.ends, d) == {}
    ensures PocoDe(pocos, d) == Guardados(st, d) && |PocoDe(pocos, d)| <= MAX_POR_DOMINIO
  {
    AfterDemotion(st, d, baixa, t1, st1, aj1);
    PoolSize(st, d);
    PoolUntouched(st1, d, st.alvos, o, pocos);
    WalkOnlyShrinks(st1.alvos, st.ends, d);
    WalkOnlyShrinks(st.alvos, st1.ends, d);
  }

  lemma PromotedIsOnly(st: Estado, d: Dominio)
    requires EhAtivo(st.alvos, d)
    ensures PromovidosEmOrdem(Rebaixada(st.alvos, d), st.alvos) == [d]
  {
    var s := Promovidos(Rebaixada(st.alvos, d), st.alvos);
    assert s == {d};
    StrTotalOn(s);
    var q := PromovidosEmOrdem(Rebaixada(st.alvos, d), st.alvos);
    SortedExists(s, StrLess);
    assert q == Sorted(s, StrLess);
    assert SortedOf([d], s, StrLess);
    SortedUnique(q, [d], s, StrLess);
  }

  /** Promoting only d replays its pool over what the walk left. */
  lemma ReplayOnlyOf(st: Estado, novos: Alvos, d: Dominio, t: int, o: Obra, pocos: Pocos)
    requires d in novos && PromovidosEmOrdem(st.alvos, novos) == [d]
    ensures var p := ReplayEnsaio(novos, st.protegidos, Passagem(o, pocos), d, t);
            DefinirDepois(st, novos, t, o, pocos) == (Estado(novos, p.o.ends, p.pocos, st.protegidos), p.o.aj)
  {
    assert [d][..0] == [];
    assert ReplayTodos(novos, st.protegidos, Passagem(o, pocos), [], t) == Passagem(o, pocos);
  }

  /** After demoting and promoting back, the domain claims what it claimed or had in its pool and may still enter. */
  lemma DemoteThenPromote(st: Estado, d: Dominio, baixa: seq<Listado>, t1: int, st1: Estado, aj1: Ajuste,
                          volta: seq<Listado>, t2: int, st2: Estado, aj2: Ajuste)
    requires IdaEVolta(st, d, baixa, t1, st1, aj1, volta, t2, st2, aj2)
    ensures Reivindicados(st1.ends, d) == {}
    ensures Reivindicados(st2.ends, d) == Voltam(st, d, t2)
  {
    AfterDemotion(st, d, baixa, t1, st1, aj1);
    var o, pocos :| Rodada(st1, st.alvos, o, pocos) && (st2, aj2) == DefinirDepois(st1, st.alvos, t2, o, pocos);
    SecondWalk(st, d, baixa, t1, st1, aj1, o, pocos);
    PromotedIsOnly(st, d);
    ReplayOnlyOf(st1, st.alvos, d, t2, o, pocos);
    ReplayOfStored(st, d, Passagem(o, pocos), t2);
  }

  lemma ReplayOfStored(st: Estado, d: Dominio, p: Passagem, t: int)
    requires d in st.alvos && Cabem(st, d) && PocoDe(p.pocos, d) == Guardados(st, d)
    requires p.o.ends.Keys <= st.ends.Keys && Reivindicados(p.o.ends, d) == {}
    ensures Reivindicados(ReplayEnsaio(st.alvos, st.protegidos, p, d, t).o.ends, d) == Voltam(st, d, t)
  {
    PoolSize(st, d);
    PrazosOf(st.ends, st.alvos, d);
    ReplayStep(st.alvos, st.protegidos, p, d, t, PocoDe(st.ensaiados, d).Keys + st.ends.Keys);
    VoltamAre(st, d, t);
  }

  lemma VoltamAre(st: Estado, d: Dominio, t: int)
    requires d in st.alvos
    ensures Entrando(st.alvos, st.protegidos, d, LimparVencido(Guardados(st, d), t).Keys) == Voltam(st, d, t)
  {
  }

  /**
   With no room for everything, what is kept depends on the order of Go's map; still, nothing is claimed
   after demoting and promoting back that was not claimed or in the pool before, or that may not enter.
   */
  lemma NothingElseComesBack(st: Estado, d: Dominio, baixa: seq<Listado>, t1: int, st1: Estado, aj1: Ajuste,
                             volta: seq<Listado>, t2: int, st2: Estado, aj2: Ajuste)
    requires Rebaixou(st, d, baixa, t1, st1, aj1) && Listar(volta) == st.alvos && Definir(st1, volta, t2, st2, aj2)
    ensures Reivindicados(st2.ends, d) <= Voltam(st, d, t2)
  {
    AfterAnyDemotion(st, d, baixa, t1, st1, aj1);
    var o, pocos :| Rodada(st1, st.alvos, o, pocos) && (st2, aj2) == DefinirDepois(st1, st.alvos, t2, o, pocos);
    PoolOfWalk(st1, st.alvos, o, pocos, d);
    PoolIsPart(st1, d, st.alvos, pocos);
    WalkOnlyShrinks(st.alvos, st1.ends, d);
    PromotedIsOnly(st, d);
    ReplayOnlyOf(st1, st.alvos, d, t2, o, pocos);
    ReplayAtMost(st.alvos, st.protegidos, Passagem(o, pocos), d, t2);
    PartReturns(st, d, PocoDe(pocos, d), t2);
  }

  lemma PartReturns(st: Estado, d: Dominio, poco: Poco, t: int)
    requires d in st.alvos && Parte(poco, Guardados(st, d))
    ensures Entrando(st.alvos, st.protegidos, d, LimparVencido(poco, t).Keys) <= Voltam(st, d, t)
  {
  }

  lemma ReplayAtMost(alvos: Alvos, protegidos: set<Addr>, p: Passagem, d: Dominio, agora: int)
    requires d in alvos && Reivindicados(p.o.ends, d) == {}
    ensures Reivindicados(ReplayEnsaio(alvos, protegidos, p, d, agora).o.ends, d)
            <= Entrando(alvos, protegidos, d, LimparVencido(PocoDe(p.pocos, d), agora).Keys)
  {
    var vivo := LimparVencido(PocoDe(p.pocos, d), agora);
    var itens := ItensDoPoco(vivo, EmOrdem(vivo), agora);
    assert Enderecos(itens) <= vivo.Keys;
    ClaimsAtMost(alvos, protegidos, p.o, d, itens, agora);
  }

  lemma {:induction false} ClaimsAtMost(alvos: Alvos, protegidos: set<Addr>, o: Obra, d: Dominio, itens: seq<Item>,
    agora: int)
    requires d in alvos
    ensures Reivindicados(AbsorverLista(alvos, protegidos, o, d, itens, agora).ends, d)
            <= Reivindicados(o.ends, d) + Entrando(alvos, protegidos, d, Enderecos(itens))
    decreases |itens|
  {
    if itens != [] {
      var antes, i := itens[..|itens| - 1], itens[|itens| - 1];
      assert itens == antes + [i];
      EnderecosSnoc(antes, i);
      ClaimsAtMost(alvos, protegidos, o, d, antes, agora);
      AtMostThisOne(alvos, AbsorverLista(alvos, protegidos, o, d, antes, agora), d, i.addr, i.prazo, agora);
    }
  }

  lemma AtMostThisOne(alvos: Alvos, o: Obra, d: Dominio, a: Addr, prazo: int, agora: int)
    requires d in alvos
    ensures Reivindicados(Absorver(alvos, o, d, a, prazo, agora).ends, d) <= Reivindicados(o.ends, d) + {a}
  {
  }

  lemma ReplayStep(alvos: Alvos, protegidos: set<Addr>, p: Passagem, d: Dominio, agora: int, todos: set<Addr>)
    requires d in alvos && Reivindicados(p.o.ends, d) == {} && p.o.ends.Keys <= todos
        && PocoDe(p.pocos, d).Keys <= todos
    requires |todos| <= MAX_ENDERECOS && |PocoDe(p.pocos, d)| <= MAX_POR_DOMINIO
    ensures Reivindicados(ReplayEnsaio(alvos, protegidos, p, d, agora).o.ends, d)
            == Entrando(alvos, protegidos, d, LimparVencido(PocoDe(p.pocos, d), agora).Keys)
  {
    var poco := PocoDe(p.pocos, d);
    if poco == map[] {
      assert LimparVencido(poco, agora) == map[];
    } else {
      ReplayOfPool(alvos, protegidos, p.o, d, poco, agora, todos);
    }
  }

  lemma ReplayOfPool(alvos: Alvos, protegidos: set<Addr>, o: Obra, d: Dominio, poco: Poco, agora: int, todos: set<Addr>)
    requires d in alvos && Reivindicados(o.ends, d) == {} && o.ends.Keys <= todos && poco.Keys <= todos
    requires |todos| <= MAX_ENDERECOS && |poco| <= MAX_POR_DOMINIO
    ensures var vivo := LimparVencido(poco, agora);
            Reivindicados(AbsorverLista(alvos, protegidos, o, d, ItensDoPoco(vivo, EmOrdem(vivo), agora), agora).ends,
              d)
            == Entrando(alvos, protegidos, d, vivo.Keys)
  {
    var vivo := LimparVencido(poco, agora);
    var itens := ItensDoPoco(vivo, EmOrdem(vivo), agora);
    LimparSize(poco, agora);
    MapSize(vivo);
    ItemsOfPool(vivo, agora);
    assert Reivindicados(o.ends, d) + Enderecos(itens) == vivo.Keys;
    ReplayClaims(alvos, protegidos, o, d, itens, agora, todos);
  }

  lemma ItemsOfPool(poco: Poco, agora: int)
    ensures Enderecos(ItensDoPoco(poco, EmOrdem(poco), agora)) == poco.Keys
  {
    var ordem, itens := EmOrdem(poco), ItensDoPoco(poco, EmOrdem(poco), agora);
    forall a | a in poco.Keys ensures a in Enderecos(itens) {
      var i :| 0 <= i < |ordem| && ordem[i] == a;
      assert itens[i] in itens;
    }
  }

  /**
   It is a round trip exactly when none of its addresses has expired, is now protected, or is an
   IPv6 one of a routed domain, and its pool had no other address that may enter.
   */
  lemma RoundTripIff(st: Estado, d: Dominio, baixa: seq<Listado>, t1: int, st1: Estado, aj1: Ajuste,
                     volta: seq<Listado>, t2: int, st2: Estado, aj2: Ajuste)
    requires IdaEVolta(st, d, baixa, t1, st1, aj1, volta, t2, st2, aj2)
    ensures Reivindicados(st2.ends, d) == Reivindicados(st.ends, d) <==>
            (ClaimedMayReturn(st, d, t2) && NothingElseReturns(st, d, t2))
  {
    DemoteThenPromote(st, d, baixa, t1, st1, aj1, volta, t2, st2, aj2);
    ReturningAre(st, d, t2);
  }

  ghost predicate ClaimedMayReturn(st: Estado, d: Dominio, t: int)
    requires d in st.alvos
  {
    forall a | a in Reivindicados(st.ends, d) ::
      st.ends[a].expira > t && a !in st.protegidos && PodeEntrar(a, st.alvos[d].capacidade)
  }

  ghost predicate NothingElseReturns(st: Estado, d: Dominio, t: int)
    requires d in st.alvos
  {
    var pool := PocoDe(st.ensaiados, d);
    forall a | a in pool && a !in Reivindicados(st.ends, d) :: pool[a] <= t || !Entra(st.alvos, st.protegidos, d, a)
  }

  lemma ReturningAre(st: Estado, d: Dominio, t: int)
    requires Valido(st) && d in st.alvos
    ensures Voltam(st, d, t) == Reivindicados(st.ends, d) <==>
            (ClaimedMayReturn(st, d, t) && NothingElseReturns(st, d, t))
  {
    forall a | a in Reivindicados(st.ends, d) ensures Utilizavel(a) { assert RegistroValido(st.alvos, a, st.ends[a]); }
    if Voltam(st, d, t) == Reivindicados(st.ends, d) {
      forall a | a in Reivindicados(st.ends, d)
        ensures st.ends[a].expira > t && a !in st.protegidos && PodeEntrar(a, st.alvos[d].capacidade)
      {
        assert a in Voltam(st, d, t);
      }
      var pool := PocoDe(st.ensaiados, d);
      forall a | a in pool && a !in Reivindicados(st.ends, d)
        ensures pool[a] <= t || !Entra(st.alvos, st.protegidos, d, a)
      {
        assert a !in Voltam(st, d, t);
      }
    }
  }

  /** On the way down, an address the domain alone claimed leaves, with a removal exactly when it was confirmed. */
  lemma CommandsDown(st: Estado, d: Dominio, baixa: seq<Listado>, t: int, st1: Estado, aj: Ajuste, a: Addr)
    requires Baixa(st, d, baixa, t, st1, aj) && a in st.ends && st.ends[a].dominios == {d}
    ensures SemRepeticao(aj) && a !in st1.ends && !Escreve(aj, a) && (st.ends[a].escrito.Some? <==> Remove(aj, a))
  {
    SoleClaimedLeaves(st, d, baixa, t, st1, aj, a);
    DefinirCoerente(st, baixa, t, st1, aj);
    CommandsOnLeaving(st.ends, t, Obra(st1.ends, aj), a);
  }

  lemma SoleClaimedLeaves(st: Estado, d: Dominio, baixa: seq<Listado>, t: int, st1: Estado, aj: Ajuste, a: Addr)
    requires Baixa(st, d, baixa, t, st1, aj) && a in st.ends && st.ends[a].dominios == {d}
    ensures a !in st1.ends
  {
    AfterDemotion(st, d, baixa, t, st1, aj);
    InactiveLeaves(st1.alvos, st.ends, d, a);
  }

  lemma InactiveLeaves(alvos: Alvos, ends: Ends, d: Dominio, a: Addr)
    requires !EhAtivo(alvos, d) && a in ends && ends[a].dominios == {d}
    ensures a !in EndsReconciliados(alvos, ends)
  {
    assert Ativos(alvos, {d}) == {};
  }

  lemma CommandsOnLeaving(antes: Ends, t: int, o: Obra, a: Addr)
    requires Coerente(antes, t, o) && a in antes && a !in o.ends
    ensures SemRepeticao(o.aj) && !Escreve(o.aj, a) && (antes[a].escrito.Some? <==> Remove(o.aj, a))
  {
    forall e | e in o.aj.escritas ensures e.addr != a { assert EscritaCoerente(antes, t, o, e); }
    forall m | m in o.aj.remocoes
      ensures m.addr == a ==> antes[a].escrito.Some?
    {
      assert RemocaoCoerente(antes, o, m);
    }
  }

  /** On the way up, an address that was out of the index gets one write exactly when it comes back. */
  lemma CommandsUp(st: Estado, d: Dominio, volta: seq<Listado>, t: int, st': Estado, aj: Ajuste, a: Addr)
    requires Definir(st, volta, t, st', aj) && a !in st.ends
    requires PromovidosEmOrdem(st.alvos, Listar(volta)) == [d] && d in Listar(volta)
    ensures SemRepeticao(aj) && !Remove(aj, a) && (a in Reivindicados(st'.ends, d) <==> Escreve(aj, a))
  {
    DefinirCoerente(st, volta, t, st', aj);
    var o := Obra(st'.ends, aj);
    forall m | m in aj.remocoes ensures m.addr != a { assert RemocaoCoerente(st.ends, o, m); }
    if a in st'.ends { assert EntradaCoerente(st.ends, o, a); }
    OnlyPromotedEnter(st, volta, t, st', aj, d, a);
    forall e | e in aj.escritas ensures e.addr == a ==> a in st'.ends { assert EscritaCoerente(st.ends, t, o, e); }
  }

  /** What the kernel is asked: one removal down and one write up for what the domain alone claimed. */
  lemma RoundTripCommands(st: Estado, d: Dominio, baixa: seq<Listado>, t1: int, st1: Estado, aj1: Ajuste,
                          volta: seq<Listado>, t2: int, st2: Estado, aj2: Ajuste, a: Addr)
    requires IdaEVolta(st, d, baixa, t1, st1, aj1, volta, t2, st2, aj2)
    requires a in st.ends && st.ends[a].dominios == {d}
    ensures SemRepeticao(aj1) && !Escreve(aj1, a) && (st.ends[a].escrito.Some? <==> Remove(aj1, a))
    ensures SemRepeticao(aj2) && !Remove(aj2, a) && (a in Voltam(st, d, t2) <==> Escreve(aj2, a))
  {
    CommandsDown(st, d, baixa, t1, st1, aj1, a);
    AfterDemotion(st, d, baixa, t1, st1, aj1);
    PromotedIsOnly(st, d);
    CommandsUp(st1, d, volta, t2, st2, aj2, a);
    DemoteThenPromote(st, d, baixa, t1, st1, aj1, volta, t2, st2, aj2);
  }

  /** An address new to the index after a list change was brought in by a promoted domain, which claims it. */
  lemma OnlyPromotedEnter(st: Estado, lista: seq<Listado>, t: int, st': Estado, aj: Ajuste, d: Dominio, a: Addr)
    requires Definir(st, lista, t, st', aj) && PromovidosEmOrdem(st.alvos, Listar(lista)) == [d] && d in Listar(lista)
    requires a !in st.ends
    ensures a in st'.ends ==> d in st'.ends[a].dominios
  {
    var novos := Listar(lista);
    var o, pocos :| Rodada(st, novos, o, pocos) && (st', aj) == DefinirDepois(st, novos, t, o, pocos);
    ReplayOnlyOf(st, novos, d, t, o, pocos);
    WalkOnlyShrinks(novos, st.ends, d);
    var vivo := LimparVencido(PocoDe(pocos, d), t);
    NewEntriesAreClaimed(novos, st.protegidos, o, d, ItensDoPoco(vivo, EmOrdem(vivo), t), t);
  }

  lemma {:induction false} NewEntriesAreClaimed(alvos: Alvos, protegidos: set<Addr>, o: Obra, d: Dominio,
    itens: seq<Item>, agora: int)
    requires d in alvos
    ensures var fim := AbsorverLista(alvos, protegidos, o, d, itens, agora).ends;
            forall a | a in fim && a !in o.ends :: d in fim[a].dominios
    decreases |itens|
  {
    if itens != [] { NewEntriesAreClaimed(alvos, protegidos, o, d, itens[..|itens| - 1], agora); }
  }
}
