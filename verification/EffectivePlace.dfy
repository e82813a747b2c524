/** Who wins when several domains claim one address: barring does, else the routing domain whose name comes first. */
module EffectivePlace {
  import opened Options
  import opened Order
  import opened DomTargets
  import opened IndexInvariant
  import opened Adjustments
  import opened IndexRuns

  // ----- the place that claimants are owed

  /** Some claimant that the list has as active bars. */
  predicate Barrado(alvos: Alvos, ds: set<Dominio>) {
    exists d :: d in ds && d in alvos && alvos[d].estagio == Ativo && alvos[d].capacidade == Barrar
  }

  /** Of the claimants that the list has as active, `m` has the name that comes first. */
  ghost predicate Primeiro(alvos: Alvos, ds: set<Dominio>, m: Dominio) {
    && m in ds && m in alvos && alvos[m].estagio == Ativo
    && forall d | d in ds && d in alvos && alvos[d].estagio == Ativo && d != m :: StrLess(m, d)
  }

  ghost predicate Devido(alvos: Alvos, a: Addr, ds: set<Dominio>, l: Lugar) {
    if Barrado(alvos, ds) then l == Lugar(Barrar, 0)
    else a.v4 && exists m :: Primeiro(alvos, ds, m) && l == Lugar(Direcionar, alvos[m].marca)
  }

  lemma LeastIsFirst(alvos: Alvos, ds: set<Dominio>)
    requires Ativos(alvos, ds) != {}
    ensures Primeiro(alvos, ds, Menor(Ativos(alvos, ds)))
    ensures forall m | Primeiro(alvos, ds, m) :: m == Menor(Ativos(alvos, ds))
  {
    var s := Ativos(alvos, ds);
    StrTotalOn(s);
    var x := LeastExists(s, StrLess);
    assert EhMenor(x, s);
    forall m | Primeiro(alvos, ds, m) ensures m == Menor(s) { StrTotal(m, Menor(s)); }
  }

  /** The effective place is exactly what the claimants are owed, told by the list alone. */
  lemma PlaceIsOwed(alvos: Alvos, a: Addr, ds: set<Dominio>, l: Lugar)
    ensures Destino(alvos, a, ds) == Some(l) <==> Devido(alvos, a, ds, l)
  {
    var s := Ativos(alvos, ds);
    assert Barrado(alvos, ds) <==> exists d :: d in s && alvos[d].capacidade == Barrar;
    if s != {} {
      LeastIsFirst(alvos, ds);
    } else {
      forall m ensures !Primeiro(alvos, ds, m) { assert m !in s; }
    }
  }

  /** There is such a place exactly when an active claimant bars, or routes and the address is an IPv4 one. */
  lemma OwedAPlaceIff(alvos: Alvos, a: Addr, ds: set<Dominio>)
    ensures Destino(alvos, a, ds).Some? <==>
            Barrado(alvos, ds) || (a.v4 && exists d :: d in ds && EhAtivo(alvos, d))
  {
    var s := Ativos(alvos, ds);
    assert Barrado(alvos, ds) <==> exists d :: d in s && alvos[d].capacidade == Barrar;
    if s != {} {
      var d :| d in s;
      assert d in ds && EhAtivo(alvos, d);
    }
    if d :| d in ds && EhAtivo(alvos, d) { assert d in s; }
  }

  // ----- every write

  ghost function Donos(ends: Ends, a: Addr): set<Dominio> { if a in ends then ends[a].dominios else {} }

  /** What a write of `a` may say when `ds` claim it: what they are owed, or the place of the one that brings it in. */
  ghost predicate Posto(alvos: Alvos, base: Ends, a: Addr, ds: set<Dominio>, l: Lugar) {
    Devido(alvos, a, ds, l) || (a !in base && exists d :: ds == {d} && Proprio(alvos, d, l))
  }

  predicate Proprio(alvos: Alvos, d: Dominio, l: Lugar) {
    d in alvos && alvos[d].estagio == Ativo && l == Lugar(alvos[d].capacidade, alvos[d].marca)
  }

  /** A write is owed to the claimants the address had by then: those it kept, and of those it has in the end. */
  ghost predicate Justa(alvos: Alvos, base: Ends, fim: Ends, e: Escrita) {
    && e.addr in fim
    && exists ds :: Donos(base, e.addr) <= ds <= fim[e.addr].dominios && Posto(alvos, base, e.addr, ds, e.lugar)
  }

  /** A removal of an address that stays comes with its write elsewhere. */
  ghost predicate Trocada(fim: Ends, aj: Ajuste, m: Remocao) {
    m.addr in fim ==> exists e :: e in aj.escritas && e.addr == m.addr && Some(e.lugar) != fim[m.addr].escrito
  }

  ghost predicate TudoJusto(alvos: Alvos, base: Ends, o: Obra) {
    && (forall e | e in o.aj.escritas :: Justa(alvos, base, o.ends, e))
    && (forall m | m in o.aj.remocoes :: Trocada(o.ends, o.aj, m))
    && (forall a | a in base :: a in o.ends && base[a].dominios <= o.ends[a].dominios)
  }

  /** Nothing new is asked: entries keep where they were written, and claims only grow. */
  lemma JustaGrows(alvos: Alvos, base: Ends, o: Obra, p: Obra)
    requires TudoJusto(alvos, base, o) && p.aj == o.aj
    requires forall a | a in o.ends :: a in p.ends && o.ends[a].dominios <= p.ends[a].dominios
    requires forall a | a in p.ends :: p.ends[a].escrito == EscritoEm(o.ends, a)
    requires forall m | m in o.aj.remocoes && m.addr in p.ends :: m.addr in o.ends
    ensures TudoJusto(alvos, base, p)
  {
    forall e | e in p.aj.escritas ensures Justa(alvos, base, p.ends, e) { assert Justa(alvos, base, o.ends, e); }
    forall m | m in p.aj.remocoes ensures Trocada(p.ends, p.aj, m) { assert Trocada(o.ends, o.aj, m); }
  }

  /** One more write, owed to the claimants that the address has now; with a removal, when it is in another place. */
  lemma JustaWith(alvos: Alvos, base: Ends, o: Obra, p: Obra, e: Escrita)
    requires TudoJusto(alvos, base, o) && e.addr in p.ends
    requires p.ends == o.ends[e.addr := p.ends[e.addr]] && p.aj.escritas == o.aj.escritas + [e]
    requires Donos(o.ends, e.addr) <= p.ends[e.addr].dominios && p.ends[e.addr].escrito == EscritoEm(o.ends, e.addr)
    requires Donos(base, e.addr) <= p.ends[e.addr].dominios
        && Posto(alvos, base, e.addr, p.ends[e.addr].dominios, e.lugar)
    requires p.aj.remocoes == o.aj.remocoes || Some(e.lugar) != p.ends[e.addr].escrito
    requires forall m | m in p.aj.remocoes :: m in o.aj.remocoes || m.addr == e.addr
    ensures TudoJusto(alvos, base, p)
  {
    assert e in p.aj.escritas;
    forall x | x in p.aj.escritas ensures Justa(alvos, base, p.ends, x) {
      if x != e { assert Justa(alvos, base, o.ends, x); }
    }
    forall m | m in p.aj.remocoes ensures Trocada(p.ends, p.aj, m) {
      if m in o.aj.remocoes && m.addr in o.ends {
        var x :| x in o.aj.escritas && x.addr == m.addr && Some(x.lugar) != o.ends[m.addr].escrito;
        assert x in p.aj.escritas;
      }
    }
  }

  lemma AbsorverIsJust(alvos: Alvos, base: Ends, o: Obra, d: Dominio, a: Addr, prazo: int, agora: int)
    requires TudoJusto(alvos, base, o) && EhAtivo(alvos, d)
    ensures TudoJusto(alvos, base, Absorver(alvos, o, d, a, prazo, agora))
  {
    var p := Absorver(alvos, o, d, a, prazo, agora);
    if a in o.ends {
      KnownIsJust(alvos, base, o, d, a, prazo, agora);
    } else if p != o {
      var l := Lugar(alvos[d].capacidade, alvos[d].marca);
      assert Proprio(alvos, d, l) && p.ends[a].dominios == {d};
      JustaWith(alvos, base, o, p, Escrita(a, prazo, l, false));
    }
  }

  lemma KnownIsJust(alvos: Alvos, base: Ends, o: Obra, d: Dominio, a: Addr, prazo: int, agora: int)
    requires TudoJusto(alvos, base, o) && EhAtivo(alvos, d) && a in o.ends
    ensures TudoJusto(alvos, base, AbsorverConhecido(alvos, o, d, a, prazo, agora))
  {
    var p := AbsorverConhecido(alvos, o, d, a, prazo, agora);
    if p.aj == o.aj {
      JustaGrows(alvos, base, o, p);
    } else {
      var c := Destino(alvos, a, p.ends[a].dominios).value;
      PlaceIsOwed(alvos, a, p.ends[a].dominios, c);
      JustaWith(alvos, base, o, p, Escrita(a, prazo, c, p.ends[a].escrito == Some(c)));
    }
  }

  lemma {:induction false} ListaIsJust(alvos: Alvos, protegidos: set<Addr>, base: Ends, o: Obra, d: Dominio,
    itens: seq<Item>, agora: int)
    requires TudoJusto(alvos, base, o) && EhAtivo(alvos, d)
    ensures TudoJusto(alvos, base, AbsorverLista(alvos, protegidos, o, d, itens, agora))
    decreases |itens|
  {
    if itens != [] {
      var n := |itens| - 1;
      ListaIsJust(alvos, protegidos, base, o, d, itens[..n], agora);
      var p := AbsorverLista(alvos, protegidos, o, d, itens[..n], agora);
      AbsorverIsJust(alvos, base, p, d, itens[n].addr, itens[n].prazo, agora);
    }
  }

  lemma {:induction false} ReplayIsJust(novos: Alvos, protegidos: set<Addr>, base: Ends, p: Passagem,
    promovidos: seq<Dominio>, agora: int)
    requires TudoJusto(novos, base, p.o) && forall d | d in promovidos :: d in novos && EhAtivo(novos, d)
    ensures TudoJusto(novos, base, ReplayTodos(novos, protegidos, p, promovidos, agora).o)
    decreases |promovidos|
  {
    if promovidos != [] {
      var n := |promovidos| - 1;
      ReplayIsJust(novos, protegidos, base, p, promovidos[..n], agora);
      var q := ReplayTodos(novos, protegidos, p, promovidos[..n], agora);
      assert promovidos[n] in promovidos;
      var vivo := LimparVencido(PocoDe(q.pocos, promovidos[n]), agora);
      ListaIsJust(novos, protegidos, base, q.o, promovidos[n], ItensDoPoco(vivo, EmOrdem(vivo), agora), agora);
    }
  }

  lemma WalkIsJust(st: Estado, novos: Alvos, o: Obra, pocos: Pocos)
    requires Rodada(st, novos, o, pocos)
    ensures TudoJusto(novos, o.ends, o)
  {
    forall e | e in o.aj.escritas ensures Justa(novos, o.ends, o.ends, e) {
      assert EscritaDevida(novos, st.ends, e);
      WalkWriteIsOwed(st.ends, novos, e);
      var ds := o.ends[e.addr].dominios;
      assert Donos(o.ends, e.addr) <= ds <= o.ends[e.addr].dominios && Posto(novos, o.ends, e.addr, ds, e.lugar);
    }
    forall m | m in o.aj.remocoes ensures Trocada(o.ends, o.aj, m) {
      assert RemocaoDevida(novos, st.ends, m);
      if m.addr in o.ends {
        var r := st.ends[m.addr];
        var e := Escrita(m.addr, r.concedido, Destino(novos, m.addr, r.dominios).value, false);
        assert EscritaDevida(novos, st.ends, e);
      }
    }
  }

  lemma WalkWriteIsOwed(ends: Ends, novos: Alvos, e: Escrita)
    requires EscritaDevida(novos, ends, e)
    ensures e.addr in EndsReconciliados(novos, ends)
        && Devido(novos, e.addr, EndsReconciliados(novos, ends)[e.addr].dominios, e.lugar)
  {
    DestinoIgnoresInactive(novos, e.addr, ends[e.addr].dominios);
    PlaceIsOwed(novos, e.addr, Ativos(novos, ends[e.addr].dominios), e.lugar);
  }

  /** The entries a step starts its writes from: what the walk leaves of them, or all of them. */
  ghost function Base(st: Estado, p: Passo): Ends {
    if p.Lista? then EndsReconciliados(Listar(p.lista), st.ends) else st.ends
  }

  lemma StepIsJust(st: Estado, p: Passo, st': Estado, aj: Ajuste)
    requires Transicao(st, p, st', aj) && (p.Lista? || p.Resposta?)
    ensures TudoJusto(st'.alvos, Base(st, p), Obra(st'.ends, aj))
  {
    if p.Lista? {
      var novos := Listar(p.lista);
      var o, pocos :| Rodada(st, novos, o, pocos) && (st', aj) == DefinirDepois(st, novos, p.agora, o, pocos);
      WalkIsJust(st, novos, o, pocos);
      ReplayIsJust(novos, st.protegidos, o.ends, Passagem(o, pocos), PromovidosEmOrdem(st.alvos, novos), p.agora);
    } else {
      var c := CasarEm(st.alvos, p.nome);
      if c.Some? && EhAtivo(st.alvos, c.value) {
        ListaIsJust(st.alvos, st.protegidos, st.ends, Obra(st.ends, VAZIO), c.value,
          Itens(p.addrs, Grampear(p.ttl)), p.agora);
      }
    }
  }

  ghost predicate Barra(alvos: Alvos, d: Dominio) {
    d in alvos && alvos[d].estagio == Ativo && alvos[d].capacidade == Barrar
  }

  /** A claimant that the new list has as active and barring stays, and so does the address. */
  lemma BarringStays(st: Estado, p: Passo, st': Estado, aj: Ajuste, a: Addr, d: Dominio)
    requires Transicao(st, p, st', aj) && (p.Lista? || p.Resposta?)
    requires d in Donos(st.ends, a) && Barra(st'.alvos, d)
    ensures d in Donos(Base(st, p), a) && d in Donos(st'.ends, a)
  {
    StepIsJust(st, p, st', aj);
    OwedAPlaceIff(st'.alvos, a, st.ends[a].dominios);
  }

  /**
   In every run, when a domain that bars, and still does after the step, claimed an address before it, every
   write of that address puts it where addresses are barred.
   */
  lemma BarringWins(h: Historia, e: Escrita, d: Dominio)
    requires Execucao(h) && h.Depois? && e in h.aj.escritas
    requires d in Donos(Atual(h.antes).ends, e.addr) && Barra(h.st.alvos, d)
    ensures e.lugar == Lugar(Barrar, 0)
  {
    StepIsJust(Atual(h.antes), h.passo, h.st, h.aj);
    BarringStays(Atual(h.antes), h.passo, h.st, h.aj, e.addr, d);
    assert Justa(h.st.alvos, Base(Atual(h.antes), h.passo), h.st.ends, e);
  }

  /** And nothing takes it out of there. */
  lemma NothingMovesOutOfBarring(h: Historia, a: Addr, d: Dominio)
    requires Execucao(h) && h.Depois? && (h.passo.Lista? || h.passo.Resposta?)
    requires d in Donos(Atual(h.antes).ends, a) && Barra(h.st.alvos, d)
    requires EscritoEm(Atual(h.antes).ends, a) == Some(Lugar(Barrar, 0))
    ensures EscritoEm(h.st.ends, a) == Some(Lugar(Barrar, 0)) && d in h.st.ends[a].dominios && !Remove(h.aj, a)
  {
    var st := Atual(h.antes);
    StepIsJust(st, h.passo, h.st, h.aj);
    BarringStays(st, h.passo, h.st, h.aj, a, d);
    if h.passo.Lista? {
      DefinirMantemEscritos(st, h.passo.lista, h.passo.agora, h.st, h.aj);
    } else {
      AprenderMantemEscritos(st, h.passo.nome, h.passo.addrs, h.passo.ttl, h.passo.agora);
    }
    if m :| m in h.aj.remocoes && m.addr == a {
      assert Trocada(h.st.ends, h.aj, m);
      var e :| e in h.aj.escritas && e.addr == a && Some(e.lugar) != h.st.ends[a].escrito;
      BarringWins(h, e, d);
    }
  }

  // ----- learning: owed to the claimants in the end

  /** Every write so far is owed to the claimants its address has now, and they will not change for domain `d`. */
  ghost predicate Aprendida(alvos: Alvos, base: Ends, d: Dominio, o: Obra) {
    forall e | e in o.aj.escritas ::
      && e.addr in o.ends && o.ends[e.addr].pendente.Some?
      && Posto(alvos, base, e.addr, o.ends[e.addr].dominios, e.lugar)
      && (d in o.ends[e.addr].dominios || |Reivindicados(o.ends, d)| >= MAX_POR_DOMINIO)
  }

  lemma ClaimsOnlyGrow(antes: Ends, depois: Ends, d: Dominio)
    requires forall a | a in antes :: a in depois && antes[a].dominios <= depois[a].dominios
    ensures |Reivindicados(antes, d)| <= |Reivindicados(depois, d)|
  {
    SubsetSize(Reivindicados(antes, d), Reivindicados(depois, d));
  }

  lemma AprendidaKnown(alvos: Alvos, base: Ends, o: Obra, d: Dominio, a: Addr, prazo: int, agora: int)
    requires Aprendida(alvos, base, d, o) && a in o.ends && base.Keys <= o.ends.Keys
    requires a in base || Escreve(o.aj, a)
    ensures Aprendida(alvos, base, d, AbsorverConhecido(alvos, o, d, a, prazo, agora))
  {
    var p := AbsorverConhecido(alvos, o, d, a, prazo, agora);
    ClaimsOnlyGrow(o.ends, p.ends, d);
    if p.aj != o.aj {
      var c := Destino(alvos, a, p.ends[a].dominios).value;
      PlaceIsOwed(alvos, a, p.ends[a].dominios, c);
    }
  }

  lemma AprendidaNew(alvos: Alvos, base: Ends, o: Obra, d: Dominio, a: Addr, prazo: int, agora: int)
    requires Aprendida(alvos, base, d, o) && a !in o.ends && base.Keys <= o.ends.Keys && EhAtivo(alvos, d)
    ensures Aprendida(alvos, base, d, Absorver(alvos, o, d, a, prazo, agora))
  {
    var p := Absorver(alvos, o, d, a, prazo, agora);
    ClaimsOnlyGrow(o.ends, p.ends, d);
    if p != o { assert Proprio(alvos, d, Lugar(alvos[d].capacidade, alvos[d].marca)) && p.ends[a].dominios == {d}; }
  }

  /** What of a learning is known so far: its writes, and that no entry of before has left. */
  ghost predicate Ensinada(alvos: Alvos, base: Ends, d: Dominio, o: Obra) {
    && Aprendida(alvos, base, d, o) && base.Keys <= o.ends.Keys
    && forall a | a in o.ends :: a in base || Escreve(o.aj, a)
  }

  lemma EnsinadaStep(alvos: Alvos, base: Ends, o: Obra, d: Dominio, a: Addr, prazo: int, agora: int)
    requires Ensinada(alvos, base, d, o) && EhAtivo(alvos, d)
    ensures Ensinada(alvos, base, d, Absorver(alvos, o, d, a, prazo, agora))
  {
    var p := Absorver(alvos, o, d, a, prazo, agora);
    if a in o.ends {
      AprendidaKnown(alvos, base, o, d, a, prazo, agora);
    } else {
      AprendidaNew(alvos, base, o, d, a, prazo, agora);
    }
    WritesAreKept(alvos, o, d, a, prazo, agora);
    forall b | b in p.ends ensures b in base || Escreve(p.aj, b) {
      if b in o.ends && Escreve(o.aj, b) { var e :| e in o.aj.escritas && e.addr == b; assert e in p.aj.escritas; }
    }
  }

  lemma WritesAreKept(alvos: Alvos, o: Obra, d: Dominio, a: Addr, prazo: int, agora: int)
    requires EhAtivo(alvos, d)
    ensures var p := Absorver(alvos, o, d, a, prazo, agora);
      && (forall e | e in o.aj.escritas :: e in p.aj.escritas) && o.ends.Keys <= p.ends.Keys <= o.ends.Keys + {a}
      && (a !in o.ends && a in p.ends ==> Escreve(p.aj, a))
  {
    var p := Absorver(alvos, o, d, a, prazo, agora);
    if a !in o.ends && a in p.ends { assert p.aj.escritas[|p.aj.escritas| - 1].addr == a; }
  }

  lemma {:induction false} EnsinadaList(alvos: Alvos, protegidos: set<Addr>, ends: Ends, d: Dominio, itens: seq<Item>,
    agora: int)
    requires EhAtivo(alvos, d)
    ensures Ensinada(alvos, ends, d, AbsorverLista(alvos, protegidos, Obra(ends, VAZIO), d, itens, agora))
    decreases |itens|
  {
    if itens != [] {
      var n := |itens| - 1;
      EnsinadaList(alvos, protegidos, ends, d, itens[..n], agora);
      var p := AbsorverLista(alvos, protegidos, Obra(ends, VAZIO), d, itens[..n], agora);
      EnsinadaStep(alvos, ends, p, d, itens[n].addr, itens[n].prazo, agora);
    }
  }

  /**
   What a DNS answer writes is owed to all who claim the address afterwards: barred when one of them bars, else by
   the mark of the first by name; a new address has one claimant, and goes where that one sends it.
   */
  lemma AnswerWritesAreOwed(h: Historia, e: Escrita)
    requires Execucao(h) && h.Depois? && h.passo.Resposta? && e in h.aj.escritas
    ensures e.addr in h.st.ends
    ensures Posto(h.st.alvos, Atual(h.antes).ends, e.addr, h.st.ends[e.addr].dominios, e.lugar)
    ensures Barrado(h.st.alvos, h.st.ends[e.addr].dominios) <==> e.lugar.cap == Barrar
  {
    var st := Atual(h.antes);
    var c := CasarEm(st.alvos, h.passo.nome);
    if c.Some? && EhAtivo(st.alvos, c.value) {
      EnsinadaList(st.alvos, st.protegidos, st.ends, c.value, Itens(h.passo.addrs, Grampear(h.passo.ttl)),
        h.passo.agora);
      BarredIff(h.st.alvos, st.ends, e.addr, h.st.ends[e.addr].dominios, e.lugar);
    }
  }

  lemma BarredIff(alvos: Alvos, base: Ends, a: Addr, ds: set<Dominio>, l: Lugar)
    requires Posto(alvos, base, a, ds, l)
    ensures Barrado(alvos, ds) <==> l.cap == Barrar
  {
    if d :| ds == {d} && Proprio(alvos, d, l) { assert d in ds; }
  }

  // ----- when an entry is where it is owed

  /** Where an entry is, or is on its way to. */
  function Onde(r: Registro): Option<Lugar> { if r.pendente.Some? then Some(r.pendente.value.lugar) else r.escrito }

  /** The same to the kernel: the mark only counts in the routing map. */
  predicate Mesmo(l: Lugar, m: Lugar) { l.cap == m.cap && (l.cap == Direcionar ==> l.marca == m.marca) }

  ghost predicate Serve(alvos: Alvos, a: Addr, ds: set<Dominio>, l: Lugar) {
    exists m :: Devido(alvos, a, ds, m) && Mesmo(l, m)
  }

  ghost predicate EmDia(alvos: Alvos, a: Addr, r: Registro) {
    Onde(r).Some? && Serve(alvos, a, r.dominios, Onde(r).value)
  }

  /** A new claimant wants the address elsewhere: it bars and nobody did, or its name comes first, with another mark. */
  ghost predicate Supera(alvos: Alvos, ds: set<Dominio>, d: Dominio, l: Lugar)
    requires d in alvos
  {
    !Barrado(alvos, ds)
      && (alvos[d].capacidade == Barrar || (Primeiro(alvos, ds + {d}, d) && alvos[d].marca != l.marca))
  }

  lemma OneMoreClaimant(alvos: Alvos, a: Addr, ds: set<Dominio>, d: Dominio, l: Lugar)
    requires EhAtivo(alvos, d) && d !in ds && Serve(alvos, a, ds, l) && PodeEntrar(a, alvos[d].capacidade)
    ensures Serve(alvos, a, ds + {d}, l) <==> !Supera(alvos, ds, d, l)
  {
    var mais := ds + {d};
    var m :| Devido(alvos, a, ds, m) && Mesmo(l, m);
    if Barrado(alvos, ds) {
      var b :| b in ds && b in alvos && alvos[b].estagio == Ativo && alvos[b].capacidade == Barrar;
      assert b in mais;
      assert Devido(alvos, a, mais, m);
    } else if alvos[d].capacidade == Barrar {
      assert d in mais && Barrado(alvos, mais);
    } else {
      RoutedOneMore(alvos, a, ds, d, l);
    }
  }

  lemma RoutedOneMore(alvos: Alvos, a: Addr, ds: set<Dominio>, d: Dominio, l: Lugar)
    requires EhAtivo(alvos, d) && d !in ds && Serve(alvos, a, ds, l)
    requires !Barrado(alvos, ds) && alvos[d].capacidade == Direcionar
    ensures Serve(alvos, a, ds + {d}, l) <==> !(Primeiro(alvos, ds + {d}, d) && alvos[d].marca != l.marca)
  {
    var mais := ds + {d};
    assert !Barrado(alvos, mais);
    var m :| Devido(alvos, a, ds, m) && Mesmo(l, m);
    var p :| Primeiro(alvos, ds, p) && m == Lugar(Direcionar, alvos[p].marca);
    FirstOfMore(alvos, ds, d, p);
    var q := if StrLess(p, d) then p else d;
    assert Devido(alvos, a, mais, Lugar(Direcionar, alvos[q].marca));
    ServesIff(alvos, a, mais, Lugar(Direcionar, alvos[q].marca), Some(l));
  }

  /** With one more claimant, the first is the one of before or the new one. */
  lemma FirstOfMore(alvos: Alvos, ds: set<Dominio>, d: Dominio, p: Dominio)
    requires EhAtivo(alvos, d) && d !in ds && Primeiro(alvos, ds, p)
    ensures Primeiro(alvos, ds + {d}, if StrLess(p, d) then p else d)
    ensures Primeiro(alvos, ds + {d}, d) <==> !StrLess(p, d)
  {
    StrTotal(p, d);
    forall x | x in ds && StrLess(d, p) && StrLess(p, x) ensures StrLess(d, x) { StrTransitive(d, p, x); }
  }

  lemma OnlyOneIsOwed(alvos: Alvos, a: Addr, ds: set<Dominio>, l: Lugar, m: Lugar)
    requires Devido(alvos, a, ds, l) && Devido(alvos, a, ds, m)
    ensures l == m
  {
    PlaceIsOwed(alvos, a, ds, l);
    PlaceIsOwed(alvos, a, ds, m);
  }

  /** A claim that is taken on, because there is room for it. */
  ghost predicate Entra(ends: Ends, d: Dominio, a: Addr) {
    a in ends && d !in ends[a].dominios && |Reivindicados(ends, d)| < MAX_POR_DOMINIO
  }

  /**
   Learning of an address in its place leaves it, or puts it, where it is owed, unless a write of it is under way
   and the domain that now claims it too wants it elsewhere; and then it does not.
   */
  lemma LearningKeepsInPlaceIff(alvos: Alvos, o: Obra, d: Dominio, a: Addr, prazo: int, agora: int)
    requires EhAtivo(alvos, d) && PodeEntrar(a, alvos[d].capacidade)
    requires a in o.ends ==> EmDia(alvos, a, o.ends[a])
    ensures var p := Absorver(alvos, o, d, a, prazo, agora);
      a in p.ends ==> (EmDia(alvos, a, p.ends[a]) <==>
        !(Entra(o.ends, d, a) && o.ends[a].pendente.Some?
          && Supera(alvos, o.ends[a].dominios, d, o.ends[a].pendente.value.lugar)))
  {
    var p := Absorver(alvos, o, d, a, prazo, agora);
    if a in o.ends {
      KnownKeepsInPlaceIff(alvos, o, d, a, prazo, agora);
    } else if a in p.ends {
      NewIsInPlace(alvos, a, d);
    }
  }

  lemma NewIsInPlace(alvos: Alvos, a: Addr, d: Dominio)
    requires EhAtivo(alvos, d) && PodeEntrar(a, alvos[d].capacidade)
    ensures Serve(alvos, a, {d}, Lugar(alvos[d].capacidade, alvos[d].marca))
  {
    if alvos[d].capacidade == Barrar {
      assert d in {d};
      assert Devido(alvos, a, {d}, Lugar(Barrar, 0));
    } else {
      assert Primeiro(alvos, {d}, d) && Devido(alvos, a, {d}, Lugar(Direcionar, alvos[d].marca));
    }
  }

  lemma KnownKeepsInPlaceIff(alvos: Alvos, o: Obra, d: Dominio, a: Addr, prazo: int, agora: int)
    requires EhAtivo(alvos, d) && PodeEntrar(a, alvos[d].capacidade) && a in o.ends && EmDia(alvos, a, o.ends[a])
    ensures var p := AbsorverConhecido(alvos, o, d, a, prazo, agora);
      a in p.ends && (EmDia(alvos, a, p.ends[a]) <==>
        !(Entra(o.ends, d, a) && o.ends[a].pendente.Some?
          && Supera(alvos, o.ends[a].dominios, d, o.ends[a].pendente.value.lugar)))
  {
    var r, p := Creditado(o.ends, d, a), AbsorverConhecido(alvos, o, d, a, prazo, agora);
    OwedWithOneMore(alvos, a, o.ends[a].dominios, d);
    if r.pendente.Some? {
      if Entra(o.ends, d, a) { OneMoreClaimant(alvos, a, o.ends[a].dominios, d, r.pendente.value.lugar); }
    } else {
      var c := Destino(alvos, a, r.dominios).value;
      PlaceIsOwed(alvos, a, r.dominios, c);
      assert Onde(p.ends[a]) == Some(c);
    }
  }

  lemma OwedWithOneMore(alvos: Alvos, a: Addr, ds: set<Dominio>, d: Dominio)
    requires EhAtivo(alvos, d) && PodeEntrar(a, alvos[d].capacidade) && exists l :: Serve(alvos, a, ds, l)
    ensures Destino(alvos, a, ds).Some? && Destino(alvos, a, ds + {d}).Some?
  {
    var l :| Serve(alvos, a, ds, l);
    var m :| Devido(alvos, a, ds, m) && Mesmo(l, m);
    PlaceIsOwed(alvos, a, ds, m);
    DestinoWithOneMore(alvos, a, ds, d);
  }

  /** A move is under way from where the address is owed. */
  ghost predicate MoveFromOwed(alvos: Alvos, a: Addr, r: Registro) {
    && r.pendente.Some? && r.escrito.Some? && Devido(alvos, a, r.dominios, r.escrito.value)
    && !Mesmo(r.pendente.value.lugar, r.escrito.value)
  }

  /**
   The walk of a list change puts every entry it keeps where the new list owes it, whatever it was before, unless
   the entry is written there already and a move from there is under way: that move is not taken back.
   */
  lemma WalkPutsInPlaceIff(novos: Alvos, ends: Ends, a: Addr)
    requires a in EndsReconciliados(novos, ends)
    ensures EmDia(novos, a, EndsReconciliados(novos, ends)[a]) <==> !MoveFromOwed(novos, a, ends[a])
  {
    var r, q := ends[a], EndsReconciliados(novos, ends)[a];
    var c := Destino(novos, a, r.dominios).value;
    DestinoIgnoresInactive(novos, a, r.dominios);
    PlaceIsOwed(novos, a, r.dominios, c);
    PlaceIsOwed(novos, a, q.dominios, c);
    if r.escrito.Some? { PlaceIsOwed(novos, a, r.dominios, r.escrito.value); }
    ServesIff(novos, a, q.dominios, c, Onde(q));
  }

  lemma ServesIff(alvos: Alvos, a: Addr, ds: set<Dominio>, c: Lugar, l: Option<Lugar>)
    requires Devido(alvos, a, ds, c)
    ensures l.Some? ==> (Serve(alvos, a, ds, l.value) <==> Mesmo(l.value, c))
  {
    if l.Some? && Serve(alvos, a, ds, l.value) {
      var m :| Devido(alvos, a, ds, m) && Mesmo(l.value, m);
      OnlyOneIsOwed(alvos, a, ds, c, m);
    }
  }

  // ----- what the walk of a list change does to each entry

  /** The claimants that the new list has as active. */
  ghost function AindaAtivos(novos: Alvos, r: Registro): set<Dominio> {
    set d | d in r.dominios && d in novos && novos[d].estagio == Ativo
  }

  /**
   The walk keeps an entry exactly when some place is owed to it; then its claimants are those still active, and it
   is written again, for the time granted before, exactly when it is owed another place than where it is written.
   */
  lemma WalkKeepsExactly(st: Estado, novos: Alvos, o: Obra, pocos: Pocos, a: Addr)
    requires Rodada(st, novos, o, pocos) && a in st.ends
    ensures a in o.ends <==> exists l :: Devido(novos, a, st.ends[a].dominios, l)
    ensures forall l | Devido(novos, a, st.ends[a].dominios, l) ::
      a in o.ends && o.ends[a] == st.ends[a].(
        dominios := AindaAtivos(novos, st.ends[a]),
        pendente := if st.ends[a].escrito == Some(l) then st.ends[a].pendente
                    else Some(Pedido(st.ends[a].concedido, l)))
  {
    var r := st.ends[a];
    forall l ensures Destino(novos, a, r.dominios) == Some(l) <==> Devido(novos, a, r.dominios, l) {
      PlaceIsOwed(novos, a, r.dominios, l);
    }
    assert Ativos(novos, r.dominios) == AindaAtivos(novos, r);
    if Destino(novos, a, r.dominios).Some? {
      assert Devido(novos, a, r.dominios, Destino(novos, a, r.dominios).value);
    }
  }

  /** And what it asks for: those writes, and a removal of each entry written where it is no longer owed. */
  lemma WalkAsksExactly(st: Estado, novos: Alvos, o: Obra, pocos: Pocos)
    requires Rodada(st, novos, o, pocos)
    ensures forall e :: e in o.aj.escritas <==>
              e.addr in st.ends && Devido(novos, e.addr, st.ends[e.addr].dominios, e.lugar)
              && st.ends[e.addr].escrito != Some(e.lugar) && e.prazo == st.ends[e.addr].concedido && !e.substituir
    ensures forall m :: m in o.aj.remocoes <==>
              m.addr in st.ends && st.ends[m.addr].escrito.Some? && m.cap == st.ends[m.addr].escrito.value.cap
              && !Devido(novos, m.addr, st.ends[m.addr].dominios, st.ends[m.addr].escrito.value)
  {
    forall e ensures EscritaDevida(novos, st.ends, e) <==>
      e.addr in st.ends && Devido(novos, e.addr, st.ends[e.addr].dominios, e.lugar)
      && st.ends[e.addr].escrito != Some(e.lugar) && e.prazo == st.ends[e.addr].concedido && !e.substituir
    {
      if e.addr in st.ends { PlaceIsOwed(novos, e.addr, st.ends[e.addr].dominios, e.lugar); }
    }
    forall m ensures RemocaoDevida(novos, st.ends, m) <==>
      m.addr in st.ends && st.ends[m.addr].escrito.Some? && m.cap == st.ends[m.addr].escrito.value.cap
      && !Devido(novos, m.addr, st.ends[m.addr].dominios, st.ends[m.addr].escrito.value)
    {
      if m.addr in st.ends && st.ends[m.addr].escrito.Some? {
        PlaceIsOwed(novos, m.addr, st.ends[m.addr].dominios, st.ends[m.addr].escrito.value);
      }
    }
  }

  // ----- when a known address is written

  /** It is written where it is owed already, with a third of its time left, and that is known. */
  ghost predicate Assentado(r: Registro, l: Lugar, agora: int) {
    r.escrito == Some(l) && !r.duvidoso && 3 * (r.expira - agora + 1) > r.concedido
  }

  /**
   Learning of a known address writes it exactly when no write of it is under way and it is not in order: then
   where its claimants are owed, for the time just learned.
   */
  lemma WrittenAgainIff(alvos: Alvos, o: Obra, d: Dominio, a: Addr, prazo: int, agora: int, l: Lugar)
    requires EhAtivo(alvos, d) && a in o.ends && o.ends[a].concedido >= 0
    requires Devido(alvos, a, Creditado(o.ends, d, a).dominios, l)
    ensures var p := Absorver(alvos, o, d, a, prazo, agora); var r := o.ends[a];
      if r.pendente.Some? || Assentado(r, l, agora) then p.aj == o.aj
      else p.aj.escritas == o.aj.escritas + [Escrita(a, prazo, l, r.escrito == Some(l))]
  {
    PlaceIsOwed(alvos, a, Creditado(o.ends, d, a).dominios, l);
  }

  /**
   A write that the kernel did not take: an address that was never there leaves the index, and gives its place back;
   one that is there keeps where it was written and until when, and the next answer with it writes it again at once.
   */
  lemma UndoneIsWrittenAgain(alvos: Alvos, ends: Ends, quais: set<Addr>, d: Dominio, a: Addr, prazo: int, agora: int,
    l: Lugar)
    requires a in ends && a in quais && ends[a].pendente.Some? && EhAtivo(alvos, d)
    ensures ends[a].escrito.None? ==> a !in NaoConfirmadoEnds(ends, quais)
    ensures ends[a].escrito.Some? ==>
              var depois := NaoConfirmadoEnds(ends, quais);
              a in depois && depois[a] == ends[a].(pendente := None, duvidoso := true)
    ensures ends[a].escrito.Some? ==>
              var depois := NaoConfirmadoEnds(ends, quais);
              Devido(alvos, a, Creditado(depois, d, a).dominios, l) ==>
                Absorver(alvos, Obra(depois, VAZIO), d, a, prazo, agora).aj.escritas
                == [Escrita(a, prazo, l, ends[a].escrito == Some(l))]
  {
    var depois := NaoConfirmadoEnds(ends, quais);
    if ends[a].escrito.Some? { PlaceIsOwed(alvos, a, Creditado(depois, d, a).dominios, l); }
  }

  /** Nothing else changes, and an address that is not waiting is not undone. */
  lemma UndoneLeaves(ends: Ends, quais: set<Addr>, a: Addr)
    requires a in ends && (a !in quais || ends[a].pendente.None?)
    ensures a in NaoConfirmadoEnds(ends, quais) && NaoConfirmadoEnds(ends, quais)[a] == ends[a]
  {
  }
}
