/**
 The invariant of the index under every interleaving of learning, retargeting, confirming,
 failing and pruning, and the self-consistency of every adjustment it emits.
 */
module IndexInvariant {
  import opened Options
  import opened DomTargets

  ghost predicate RegistroValido(alvos: Alvos, a: Addr, r: Registro) {
    && Utilizavel(a)
    && r.dominios != {}
    && (forall d | d in r.dominios :: EhAtivo(alvos, d))
    && Destino(alvos, a, r.dominios).Some?
    && (r.escrito.Some? || r.pendente.Some?)
    && PISO <= r.concedido <= TETO
    && (r.pendente.Some? ==> PISO <= r.pendente.value.prazo <= TETO)
  }

  ghost predicate EndsValidos(alvos: Alvos, ends: Ends) {
    && |ends| <= MAX_ENDERECOS
    && (forall d :: |Reivindicados(ends, d)| <= MAX_POR_DOMINIO)
    && (forall a | a in ends :: RegistroValido(alvos, a, ends[a]))
  }

  ghost predicate PocosValidos(alvos: Alvos, pocos: Pocos) {
    forall d | d in pocos :: d in alvos && |pocos[d]| <= MAX_POR_DOMINIO
  }

  ghost predicate Valido(st: Estado) {
    EndsValidos(st.alvos, st.ends) && PocosValidos(st.alvos, st.ensaiados)
  }

  // ----- sizes

  lemma {:induction false} SubsetSize<T>(s: set<T>, t: set<T>)
    requires s <= t
    ensures |s| <= |t|
    decreases |t|
  {
    if s != {} {
      var x :| x in s;
      SubsetSize(s - {x}, t - {x});
    }
  }

  lemma MapSize<K, V>(m: map<K, V>)
    ensures |m| == |m.Keys|
  {
  }

  /** Changing one entry changes each domain's claims by at most that address. */
  lemma ClaimsAfter(ends: Ends, a: Addr, r: Registro, e: Dominio)
    ensures Reivindicados(ends[a := r], e) ==
            if e in r.dominios then Reivindicados(ends, e) + {a} else Reivindicados(ends, e) - {a}
  {
  }

  lemma ClaimsBounded(ends: Ends, a: Addr, r: Registro, e: Dominio)
    requires |Reivindicados(ends, e)| <= MAX_POR_DOMINIO
    requires e in r.dominios && !(a in ends && e in ends[a].dominios) ==> |Reivindicados(ends, e)| < MAX_POR_DOMINIO
    ensures |Reivindicados(ends[a := r], e)| <= MAX_POR_DOMINIO
  {
    ClaimsAfter(ends, a, r, e);
    var before, after := Reivindicados(ends, e), Reivindicados(ends[a := r], e);
    if e in r.dominios {
      if a in before { assert after == before; }
    } else {
      SubsetSize(after, before);
    }
  }

  lemma EntryReplaced(alvos: Alvos, ends: Ends, a: Addr, r: Registro)
    requires EndsValidos(alvos, ends) && RegistroValido(alvos, a, r)
    requires a !in ends ==> |ends| < MAX_ENDERECOS
    requires forall e | e in r.dominios && !(a in ends && e in ends[a].dominios) ::
        |Reivindicados(ends, e)| < MAX_POR_DOMINIO
    ensures EndsValidos(alvos, ends[a := r])
  {
    var depois := ends[a := r];
    forall e ensures |Reivindicados(depois, e)| <= MAX_POR_DOMINIO { ClaimsBounded(ends, a, r, e); }
    assert depois.Keys == ends.Keys + {a};
    MapSize(ends); MapSize(depois);
  }

  lemma EntriesShrunk(alvos: Alvos, ends: Ends, menos: Ends)
    requires |ends| <= MAX_ENDERECOS && forall d :: |Reivindicados(ends, d)| <= MAX_POR_DOMINIO
    requires menos.Keys <= ends.Keys
    requires forall a | a in menos :: menos[a].dominios <= ends[a].dominios && RegistroValido(alvos, a, menos[a])
    ensures EndsValidos(alvos, menos)
  {
    SubsetSize(menos.Keys, ends.Keys);
    MapSize(ends); MapSize(menos);
    forall d ensures |Reivindicados(menos, d)| <= MAX_POR_DOMINIO {
      SubsetSize(Reivindicados(menos, d), Reivindicados(ends, d));
    }
  }

  // ----- the effective capacity keeps a structure

  lemma DestinoWithOneMore(alvos: Alvos, a: Addr, dominios: set<Dominio>, d: Dominio)
    requires EhAtivo(alvos, d) && PodeEntrar(a, alvos[d].capacidade)
    requires dominios == {} || Destino(alvos, a, dominios).Some?
    ensures Destino(alvos, a, dominios + {d}).Some?
  {
    var mais := Ativos(alvos, dominios + {d});
    assert d in mais;
    if !a.v4 && dominios != {} {
      var b :| b in Ativos(alvos, dominios) && alvos[b].capacidade == Barrar;
      assert b in mais;
    }
  }

  lemma DestinoOfOne(alvos: Alvos, a: Addr, d: Dominio)
    requires EhAtivo(alvos, d) && PodeEntrar(a, alvos[d].capacidade)
    ensures Destino(alvos, a, {d}).Some?
    ensures Destino(alvos, a, {d}).value.cap == alvos[d].capacidade
    ensures alvos[d].capacidade == Direcionar ==> Destino(alvos, a, {d}).value.marca == alvos[d].marca
  {
    var ativos := Ativos(alvos, {d});
    assert d in ativos && forall x | x in ativos :: x == d;
    assert EhMenor(d, ativos);
    assert Menor(ativos) == d;
  }

  lemma DestinoIgnoresInactive(alvos: Alvos, a: Addr, dominios: set<Dominio>)
    ensures Destino(alvos, a, Ativos(alvos, dominios)) == Destino(alvos, a, dominios)
    ensures Destino(alvos, a, dominios).Some? ==> Ativos(alvos, dominios) != {}
  {
    assert Ativos(alvos, Ativos(alvos, dominios)) == Ativos(alvos, dominios);
  }

  // ----- each operation keeps it

  lemma GrampearInRange(d: int)
    ensures PISO <= Grampear(d) <= TETO
  {
  }

  /** The granted time is the one between ten minutes and an hour that is nearest to the answer's. */
  lemma GrampearIsNearest(d: int, x: int)
    requires 600 * SEGUNDO <= x <= 3600 * SEGUNDO
    ensures 600 * SEGUNDO <= Grampear(d) <= 3600 * SEGUNDO
    ensures (if d <= Grampear(d) then Grampear(d) - d else d - Grampear(d)) <= if d <= x then x - d else d - x
  {
  }

  lemma AbsorverKeeps(alvos: Alvos, o: Obra, d: Dominio, a: Addr, prazo: int, agora: int)
    requires EndsValidos(alvos, o.ends) && EhAtivo(alvos, d) && Utilizavel(a) && PodeEntrar(a, alvos[d].capacidade)
    requires PISO <= prazo <= TETO
    ensures EndsValidos(alvos, Absorver(alvos, o, d, a, prazo, agora).ends)
  {
    if a !in o.ends {
      DestinoOfOne(alvos, a, d);
      if |o.ends| < MAX_ENDERECOS && |Reivindicados(o.ends, d)| < MAX_POR_DOMINIO {
        var l := Lugar(alvos[d].capacidade, alvos[d].marca);
        EntryReplaced(alvos, o.ends, a, Registro({d}, agora + prazo, prazo, None, false, Some(Pedido(prazo, l))));
      }
    } else {
      KnownKeeps(alvos, o, d, a, prazo, agora);
    }
  }

  lemma KnownKeeps(alvos: Alvos, o: Obra, d: Dominio, a: Addr, prazo: int, agora: int)
    requires EndsValidos(alvos, o.ends) && EhAtivo(alvos, d) && PodeEntrar(a, alvos[d].capacidade)
    requires a in o.ends && PISO <= prazo <= TETO
    ensures EndsValidos(alvos, AbsorverConhecido(alvos, o, d, a, prazo, agora).ends)
  {
    var r := Creditado(o.ends, d, a);
    DestinoWithOneMore(alvos, a, o.ends[a].dominios, d);
    assert RegistroValido(alvos, a, r);
    EntryReplaced(alvos, o.ends, a, r);
    var c := Destino(alvos, a, r.dominios);
    EntryReplaced(alvos, o.ends, a, r.(pendente := Some(Pedido(prazo, c.value))));
  }

  lemma {:induction false} AbsorverListaKeeps(alvos: Alvos, protegidos: set<Addr>, o: Obra, d: Dominio,
    itens: seq<Item>, agora: int)
    requires EndsValidos(alvos, o.ends) && EhAtivo(alvos, d)
    requires forall i | 0 <= i < |itens| :: PISO <= itens[i].prazo <= TETO
    ensures EndsValidos(alvos, AbsorverLista(alvos, protegidos, o, d, itens, agora).ends)
    decreases |itens|
  {
    if itens != [] {
      var n := |itens| - 1;
      AbsorverListaKeeps(alvos, protegidos, o, d, itens[..n], agora);
      var p := AbsorverLista(alvos, protegidos, o, d, itens[..n], agora);
      if Aceitavel(protegidos, itens[n].addr) && PodeEntrar(itens[n].addr, alvos[d].capacidade) {
        AbsorverKeeps(alvos, p, d, itens[n].addr, itens[n].prazo, agora);
      }
    }
  }

  lemma LimparSize(poco: Poco, agora: int)
    ensures |LimparVencido(poco, agora)| <= |poco|
  {
    SubsetSize(LimparVencido(poco, agora).Keys, poco.Keys);
    MapSize(poco); MapSize(LimparVencido(poco, agora));
  }

  lemma InsertSize(poco: Poco, a: Addr, v: int)
    ensures |poco[a := v]| == |poco| + if a in poco then 0 else 1
  {
    assert poco[a := v].Keys == poco.Keys + {a};
    MapSize(poco); MapSize(poco[a := v]);
    if a in poco { assert poco[a := v].Keys == poco.Keys; }
  }

  lemma GuardarUmKeeps(poco: Poco, a: Addr, vence: int, agora: int)
    requires |poco| <= MAX_POR_DOMINIO
    ensures |GuardarUm(poco, a, vence, agora)| <= MAX_POR_DOMINIO
  {
    InsertSize(poco, a, vence);
    LimparSize(poco, agora);
    InsertSize(LimparVencido(poco, agora), a, vence);
  }

  lemma {:induction false} GuardarEnsaioKeeps(poco: Poco, addrs: seq<Addr>, vence: int, agora: int)
    requires |poco| <= MAX_POR_DOMINIO
    ensures |GuardarEnsaio(poco, addrs, vence, agora)| <= MAX_POR_DOMINIO
    decreases |addrs|
  {
    if addrs != [] {
      GuardarEnsaioKeeps(poco, addrs[..|addrs| - 1], vence, agora);
      GuardarUmKeeps(GuardarEnsaio(poco, addrs[..|addrs| - 1], vence, agora), addrs[|addrs| - 1], vence, agora);
    }
  }

  lemma CasarIsListed(alvos: Alvos, nome: string)
    ensures CasarEm(alvos, nome).Some? ==> CasarEm(alvos, nome).value in alvos
  {
    LabelsAreListed(alvos, Normalizado(nome));
  }

  lemma LabelsAreListed(alvos: Alvos, nome: string)
    ensures CasarRotulos(alvos, nome).Some? ==> CasarRotulos(alvos, nome).value in alvos
    decreases |nome|
  {
  }

  lemma AprenderKeeps(st: Estado, nome: string, addrs: seq<Addr>, ttl: int, agora: int)
    requires Valido(st)
    ensures Valido(Aprender(st, nome, addrs, ttl, agora).0)
  {
    CasarIsListed(st.alvos, nome);
    var c := CasarEm(st.alvos, nome);
    if c.Some? {
      if EhAtivo(st.alvos, c.value) {
        AnswerKeeps(st, nome, addrs, ttl, agora, c.value);
      } else {
        RehearsalKeeps(st, nome, addrs, ttl, agora, c.value, agora + Grampear(ttl));
      }
    }
  }

  lemma AnswerKeeps(st: Estado, nome: string, addrs: seq<Addr>, ttl: int, agora: int, d: Dominio)
    requires Valido(st) && CasarEm(st.alvos, nome) == Some(d) && EhAtivo(st.alvos, d)
    ensures Valido(Aprender(st, nome, addrs, ttl, agora).0)
  {
    GrampearInRange(ttl);
    AbsorverListaKeeps(st.alvos, st.protegidos, Obra(st.ends, VAZIO), d, Itens(addrs, Grampear(ttl)), agora);
  }

  /** The name belongs to a domain in rehearsal. */
  ghost predicate Ensaia(st: Estado, nome: string, d: Dominio) {
    CasarEm(st.alvos, nome) == Some(d) && !EhAtivo(st.alvos, d)
  }

  /** Only the pool of `d` changes, and nothing is asked. */
  ghost predicate SoPoco(st: Estado, r: (Estado, Ajuste), d: Dominio, poco: Poco) {
    r == (st.(ensaiados := st.ensaiados[d := poco]), VAZIO)
  }

  lemma LearnedInRehearsal(st: Estado, nome: string, addrs: seq<Addr>, ttl: int, agora: int, d: Dominio, vence: int)
    requires Ensaia(st, nome, d) && vence == agora + Grampear(ttl)
    ensures SoPoco(st, Aprender(st, nome, addrs, ttl, agora), d,
                   GuardarEnsaio(PocoDe(st.ensaiados, d), addrs, vence, agora))
  {
  }

  lemma RehearsalKeeps(st: Estado, nome: string, addrs: seq<Addr>, ttl: int, agora: int, d: Dominio, vence: int)
    requires Valido(st) && Ensaia(st, nome, d) && d in st.alvos && vence == agora + Grampear(ttl)
    ensures Valido(Aprender(st, nome, addrs, ttl, agora).0)
  {
    GuardarEnsaioKeeps(PocoDe(st.ensaiados, d), addrs, vence, agora);
    LearnedInRehearsal(st, nome, addrs, ttl, agora, d, vence);
    PoolKeeps(st, Aprender(st, nome, addrs, ttl, agora), d,
      GuardarEnsaio(PocoDe(st.ensaiados, d), addrs, vence, agora));
  }

  lemma PoolKeeps(st: Estado, r: (Estado, Ajuste), d: Dominio, poco: Poco)
    requires Valido(st) && d in st.alvos && |poco| <= MAX_POR_DOMINIO && SoPoco(st, r, d, poco)
    ensures Valido(r.0)
  {
  }

  lemma ReconciliarKeeps(st: Estado, novos: Alvos)
    requires Valido(st)
    ensures EndsValidos(novos, EndsReconciliados(novos, st.ends))
  {
    var depois := EndsReconciliados(novos, st.ends);
    forall a | a in depois ensures depois[a].dominios <= st.ends[a].dominios && RegistroValido(novos, a, depois[a]) {
      DestinoIgnoresInactive(novos, a, st.ends[a].dominios);
    }
    EntriesShrunk(novos, st.ends, depois);
  }

  ghost predicate PassagemValida(novos: Alvos, p: Passagem) {
    EndsValidos(novos, p.o.ends) && PocosValidos(novos, p.pocos)
  }

  lemma ItensInRange(poco: Poco, ordem: seq<Addr>, agora: int)
    requires forall a | a in ordem :: a in poco
    ensures forall i | 0 <= i < |ordem| :: PISO <= ItensDoPoco(poco, ordem, agora)[i].prazo <= TETO
  {
  }

  lemma ReplayKeeps(novos: Alvos, protegidos: set<Addr>, p: Passagem, d: Dominio, agora: int)
    requires PassagemValida(novos, p) && EhAtivo(novos, d)
    ensures PassagemValida(novos, ReplayEnsaio(novos, protegidos, p, d, agora))
  {
    var poco := PocoDe(p.pocos, d);
    if poco != map[] {
      var vivo := LimparVencido(poco, agora);
      ItensInRange(vivo, EmOrdem(vivo), agora);
      AbsorverListaKeeps(novos, protegidos, p.o, d, ItensDoPoco(vivo, EmOrdem(vivo), agora), agora);
      var resto := PocoAceitavel(vivo, protegidos);
      SubsetSize(resto.Keys, poco.Keys);
      MapSize(resto); MapSize(poco);
    }
  }

  lemma {:induction false} ReplayTodosKeeps(novos: Alvos, protegidos: set<Addr>, p: Passagem,
    promovidos: seq<Dominio>, agora: int)
    requires PassagemValida(novos, p) && forall d | d in promovidos :: d in novos && EhAtivo(novos, d)
    ensures PassagemValida(novos, ReplayTodos(novos, protegidos, p, promovidos, agora))
    decreases |promovidos|
  {
    if promovidos != [] {
      var n := |promovidos| - 1;
      ReplayTodosKeeps(novos, protegidos, p, promovidos[..n], agora);
      assert promovidos[n] in promovidos;
      ReplayKeeps(novos, protegidos, ReplayTodos(novos, protegidos, p, promovidos[..n], agora), promovidos[n], agora);
    }
  }

  lemma RodadaKeeps(st: Estado, novos: Alvos, o: Obra, pocos: Pocos)
    requires Valido(st) && Rodada(st, novos, o, pocos)
    ensures PassagemValida(novos, Passagem(o, pocos))
  {
    ReconciliarKeeps(st, novos);
    forall d | d in pocos ensures d in novos && |pocos[d]| <= MAX_POR_DOMINIO {
      assert PocoDepois(st, novos, pocos, d);
    }
  }

  lemma DefinirKeeps(st: Estado, lista: seq<Listado>, agora: int, st': Estado, aj: Ajuste)
    requires Valido(st) && Definir(st, lista, agora, st', aj)
    ensures Valido(st')
  {
    var novos := Listar(lista);
    var o, pocos :| Rodada(st, novos, o, pocos) && (st', aj) == DefinirDepois(st, novos, agora, o, pocos);
    RodadaKeeps(st, novos, o, pocos);
    ReplayTodosKeeps(novos, st.protegidos, Passagem(o, pocos), PromovidosEmOrdem(st.alvos, novos), agora);
  }

  lemma ConfirmarKeeps(alvos: Alvos, ends: Ends, addrs: set<Addr>, agora: int)
    requires EndsValidos(alvos, ends)
    ensures EndsValidos(alvos, ConfirmarEnds(ends, addrs, agora))
  {
    EntriesShrunk(alvos, ends, ConfirmarEnds(ends, addrs, agora));
  }

  lemma NaoConfirmadoKeeps(alvos: Alvos, ends: Ends, addrs: set<Addr>)
    requires EndsValidos(alvos, ends)
    ensures EndsValidos(alvos, NaoConfirmadoEnds(ends, addrs))
  {
    EntriesShrunk(alvos, ends, NaoConfirmadoEnds(ends, addrs));
  }

  lemma PodarKeeps(st: Estado, agora: int)
    requires Valido(st)
    ensures Valido(Podar(st, agora))
  {
    var corte := agora - FOLGA_DE_PODA;
    EntriesShrunk(st.alvos, st.ends, PodarEnds(st.ends, corte));
    forall d | d in PodarPocos(st.ensaiados, corte) ensures |PodarPocos(st.ensaiados, corte)[d]| <= MAX_POR_DOMINIO {
      LimparSize(st.ensaiados[d], corte);
    }
  }
}
