/** Where the kernel holds an address, in runs of index and kernel: where some claimant, or all of them, want it. */
module KernelPlaces {
  import opened Options
  import opened DomTargets
  import opened IndexInvariant
  import opened Adjustments
  import opened IndexRuns
  import opened EffectivePlace
  import opened RoundTrip
  import opened Learning
  import opened Kernel
  import opened KernelMirror
  import opened KernelRuns

  // ----- what is held, is held for a claimant that wants it there

  /** The list has `d` as active, and it sends its addresses to this place. */
  predicate Manda(alvos: Alvos, d: Dominio, l: Lugar) {
    && d in alvos && alvos[d].estagio == Ativo && alvos[d].capacidade == l.cap
    && (l.cap == Direcionar ==> alvos[d].marca == l.marca)
  }

  ghost predicate DeAlguem(alvos: Alvos, ds: set<Dominio>, l: Lugar) { exists d :: d in ds && Manda(alvos, d, l) }

  lemma OwedIsWanted(alvos: Alvos, a: Addr, ds: set<Dominio>, l: Lugar)
    requires Devido(alvos, a, ds, l)
    ensures DeAlguem(alvos, ds, l)
  {
    if Barrado(alvos, ds) {
      var d :| d in ds && d in alvos && alvos[d].estagio == Ativo && alvos[d].capacidade == Barrar;
      assert Manda(alvos, d, l);
    } else {
      var m :| Primeiro(alvos, ds, m) && l == Lugar(Direcionar, alvos[m].marca);
      NotBarredRoutes(alvos, ds, m);
      assert Manda(alvos, m, l);
    }
  }

  lemma NotBarredRoutes(alvos: Alvos, ds: set<Dominio>, m: Dominio)
    requires !Barrado(alvos, ds) && Primeiro(alvos, ds, m)
    ensures alvos[m].capacidade == Direcionar
  {
    match alvos[m].capacidade { case Barrar => case Direcionar => }
  }

  lemma JustIsWanted(alvos: Alvos, base: Ends, fim: Ends, e: Escrita)
    requires Justa(alvos, base, fim, e)
    ensures e.addr in fim && DeAlguem(alvos, fim[e.addr].dominios, e.lugar)
  {
    var ds :| Donos(base, e.addr) <= ds <= fim[e.addr].dominios && Posto(alvos, base, e.addr, ds, e.lugar);
    if Devido(alvos, e.addr, ds, e.lugar) {
      OwedIsWanted(alvos, e.addr, ds, e.lugar);
      var d :| d in ds && Manda(alvos, d, e.lugar);
      assert d in fim[e.addr].dominios;
    } else {
      var d :| ds == {d} && Proprio(alvos, d, e.lugar);
      assert d in ds && Manda(alvos, d, e.lugar);
    }
  }

  /** Between batches: every entry is written where one of its claimants wants it. */
  ghost predicate Atendido(st: Estado) {
    forall a | a in st.ends && st.ends[a].escrito.Some? ::
      DeAlguem(st.alvos, st.ends[a].dominios, st.ends[a].escrito.value)
  }

  /** An entry that a decision leaves alone is still written where a claimant wants it. */
  lemma UntouchedIsWanted(m: Mundo, p: Passo, st: Estado, aj: Ajuste, l: Lote, a: Addr)
    requires Espelhado(m) && Decide(m, p, st, aj, l) && Atendido(m.st)
    requires a in st.ends && st.ends[a].pendente.None? && st.ends[a].escrito.Some?
    ensures DeAlguem(st.alvos, st.ends[a].dominios, st.ends[a].escrito.value)
  {
    StepIsJust(m.st, p, st, aj);
    if p.Lista? {
      UntouchedByAList(m.st, p, st, aj, a);
    } else {
      AprenderMantemEscritos(m.st, p.nome, p.addrs, p.ttl, p.agora);
    }
  }

  lemma UntouchedByAList(st: Estado, p: Passo, st': Estado, aj: Ajuste, a: Addr)
    requires p.Lista? && Transicao(st, p, st', aj)
    requires a in st'.ends && st'.ends[a].pendente.None? && st'.ends[a].escrito.Some?
    ensures DeAlguem(st'.alvos, st'.ends[a].dominios, st'.ends[a].escrito.value)
  {
    StepIsJust(st, p, st', aj);
    DefinirMantemEscritos(st, p.lista, p.agora, st', aj);
    StillPending(st, p, st', aj, a);
    UnmovedIsWanted(st'.alvos, a, st.ends[a]);
    MoreClaimants(st'.alvos, Ativos(st'.alvos, st.ends[a].dominios), st'.ends[a].dominios, st'.ends[a].escrito.value);
  }

  lemma MoreClaimants(alvos: Alvos, ds: set<Dominio>, mais: set<Dominio>, l: Lugar)
    requires DeAlguem(alvos, ds, l) && ds <= mais
    ensures DeAlguem(alvos, mais, l)
  {
    var d :| d in ds && Manda(alvos, d, l);
    assert d in mais;
  }

  /** An entry that the walk keeps and does not move is written where an active claimant wants it. */
  lemma UnmovedIsWanted(novos: Alvos, a: Addr, r: Registro)
    requires Destino(novos, a, r.dominios).Some? && !MudaDeLugar(novos, a, r)
    ensures r.escrito.Some? && DeAlguem(novos, Ativos(novos, r.dominios), r.escrito.value)
  {
    DestinoIgnoresInactive(novos, a, r.dominios);
    PlaceIsOwed(novos, a, Ativos(novos, r.dominios), r.escrito.value);
    OwedIsWanted(novos, a, Ativos(novos, r.dominios), r.escrito.value);
  }

  /** What the walk asked for is still pending after the replay. */
  lemma StillPending(st: Estado, p: Passo, st': Estado, aj: Ajuste, a: Addr)
    requires p.Lista? && Transicao(st, p, st', aj) && a in EndsReconciliados(Listar(p.lista), st.ends)
    ensures a in st'.ends && (MudaDeLugar(Listar(p.lista), a, st.ends[a]) ==> st'.ends[a].pendente.Some?)
  {
    var novos := Listar(p.lista);
    var o, pocos :| Rodada(st, novos, o, pocos) && (st', aj) == DefinirDepois(st, novos, p.agora, o, pocos);
    ReplayKeepsPending(novos, st.protegidos, Passagem(o, pocos), PromovidosEmOrdem(st.alvos, novos), p.agora, a);
  }

  lemma {:induction false} ListKeepsPending(alvos: Alvos, protegidos: set<Addr>, o: Obra, d: Dominio, itens: seq<Item>,
    agora: int, a: Addr)
    requires d in alvos && a in o.ends
    ensures var p := AbsorverLista(alvos, protegidos, o, d, itens, agora);
      a in p.ends && (o.ends[a].pendente.Some? ==> p.ends[a].pendente == o.ends[a].pendente)
    decreases |itens|
  {
    if itens != [] { ListKeepsPending(alvos, protegidos, o, d, itens[..|itens| - 1], agora, a); }
  }

  lemma {:induction false} ReplayKeepsPending(novos: Alvos, protegidos: set<Addr>, p: Passagem,
    promovidos: seq<Dominio>, agora: int, a: Addr)
    requires (forall d | d in promovidos :: d in novos) && a in p.o.ends
    ensures var q := ReplayTodos(novos, protegidos, p, promovidos, agora);
      a in q.o.ends && (p.o.ends[a].pendente.Some? ==> q.o.ends[a].pendente == p.o.ends[a].pendente)
    decreases |promovidos|
  {
    if promovidos != [] {
      var n := |promovidos| - 1;
      ReplayKeepsPending(novos, protegidos, p, promovidos[..n], agora, a);
      var q := ReplayTodos(novos, protegidos, p, promovidos[..n], agora);
      var d := promovidos[n];
      assert d in promovidos;
      var vivo := LimparVencido(PocoDe(q.pocos, d), agora);
      ListKeepsPending(novos, protegidos, q.o, d, ItensDoPoco(vivo, EmOrdem(vivo), agora), agora, a);
    }
  }

  /** What a decision has under way is a write of it, where a claimant wants it. */
  lemma PendingIsWanted(m: Mundo, p: Passo, st: Estado, aj: Ajuste, l: Lote, a: Addr)
    requires Espelhado(m) && Decide(m, p, st, aj, l) && a in st.ends && st.ends[a].pendente.Some?
    ensures DeAlguem(st.alvos, st.ends[a].dominios, st.ends[a].pendente.value.lugar)
  {
    DecisaoCoerente(m, p, st, aj, l);
    StepIsJust(m.st, p, st, aj);
    var o := Obra(st.ends, aj);
    assert EntradaCoerente(m.st.ends, o, a);
    var e :| e in aj.escritas && e.addr == a;
    assert EscritaCoerente(m.st.ends, Instante(p), o, e);
    assert Justa(st.alvos, Base(m.st, p), st.ends, e);
    JustIsWanted(st.alvos, Base(m.st, p), st.ends, e);
  }

  lemma AcceptedStepAttends(m: Mundo, x: PassoK, n: Mundo)
    requires Espelhado(m) && x.Aceito? && AndaAceito(m, x, n) && Atendido(m.st)
    ensures Atendido(n.st)
  {
    forall a | a in n.st.ends && n.st.ends[a].escrito.Some?
      ensures DeAlguem(n.st.alvos, n.st.ends[a].dominios, n.st.ends[a].escrito.value)
    {
      if x.st.ends[a].pendente.Some? {
        DecisaoCoerente(m, x.p, x.st, x.aj, x.l);
        PendingAreAdded(m.st.ends, Obra(x.st.ends, x.aj), x.l, x.aj.remocoes, Instante(x.p), a);
        PendingIsWanted(m, x.p, x.st, x.aj, x.l, a);
      } else {
        UntouchedIsWanted(m, x.p, x.st, x.aj, x.l, a);
      }
    }
  }

  /** A refused batch without removals moved nothing: what was being written in place is where it was. */
  lemma RefusedStepAttends(m: Mundo, x: PassoK, n: Mundo)
    requires Espelhado(m) && x.Recusado? && AndaRecusado(m, x, n) && Atendido(m.st)
    ensures Atendido(n.st)
  {
    forall a | a in n.st.ends && n.st.ends[a].escrito.Some?
      ensures DeAlguem(n.st.alvos, n.st.ends[a].dominios, n.st.ends[a].escrito.value)
    {
      if x.st.ends[a].pendente.Some? {
        RefusedWasThere(m, x.p, x.st, x.aj, x.l, a);
        PendingIsWanted(m, x.p, x.st, x.aj, x.l, a);
      } else {
        UntouchedIsWanted(m, x.p, x.st, x.aj, x.l, a);
      }
    }
  }

  lemma RefusedWasThere(m: Mundo, p: Passo, st: Estado, aj: Ajuste, l: Lote, a: Addr)
    requires Espelhado(m) && Decide(m, p, st, aj, l) && aj.remocoes == []
    requires a in st.ends && st.ends[a].pendente.Some? && st.ends[a].escrito.Some?
    ensures st.ends[a].escrito == Some(st.ends[a].pendente.value.lugar)
  {
    DecisaoCoerente(m, p, st, aj, l);
    RenewedInPlace(m.st.ends, Instante(p), Obra(st.ends, aj), a);
  }

  lemma RenewedInPlace(antes: Ends, t: int, o: Obra, a: Addr)
    requires Coerente(antes, t, o) && SemPendentes(antes) && o.aj.remocoes == []
    requires a in o.ends && o.ends[a].pendente.Some? && o.ends[a].escrito.Some?
    ensures o.ends[a].escrito == Some(o.ends[a].pendente.value.lugar)
  {
    assert EntradaCoerente(antes, o, a);
    var e :| e in o.aj.escritas && e.addr == a;
    assert EscritaCoerente(antes, t, o, e);
  }

  /** In every run, every entry between batches is written where one of its claimants wants it. */
  lemma {:induction false} EveryEntryIsWanted(c: Corrida)
    requires Valida(c)
    ensures Atendido(Agora(c).st)
  {
    if c.Mais? {
      EveryEntryIsWanted(c.antes);
      EveryRunMirrorsTheKernel(c.antes);
      match c.passo {
        case Aceito(_, _, _, _, _, _) => AcceptedStepAttends(Agora(c.antes), c.passo, c.m);
        case Recusado(_, _, _, _, _) => RefusedStepAttends(Agora(c.antes), c.passo, c.m);
        case Outro(_, _) =>
      }
    }
  }

  /**
   So in every reachable state whatever the kernel bars is claimed by an active domain that bars, and whatever it
   routes by an active domain that routes, by that domain's own mark.
   */
  lemma HeldForOneThatWantsIt(c: Corrida, x: Casa) returns (d: Dominio)
    requires Valida(c) && Tem(Agora(c).k, x, Agora(c).t)
    ensures var st := Agora(c).st;
      && x.a in st.ends && d in st.ends[x.a].dominios && EhAtivo(st.alvos, d)
      && (st.alvos[d].capacidade == Direcionar <==> x.s == Wan)
      && (x.s == Wan ==> Agora(c).k[x].marca == st.alvos[d].marca)
  {
    EveryRunMirrorsTheKernel(c);
    EveryEntryIsWanted(c);
    var st := Agora(c).st;
    assert Registrado(st.ends, x, Agora(c).k[x]);
    var l := st.ends[x.a].escrito.value;
    d :| d in st.ends[x.a].dominios && Manda(st.alvos, d, l);
    StructureOf(x.a, l.cap, x.s);
  }

  lemma StructureOf(a: Addr, c: Capacidade, s: Estrutura)
    requires EstruturaDe(a, c) == Some(s)
    ensures c == Direcionar <==> s == Wan
  {
  }
}
