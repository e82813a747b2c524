/** Runs of index and kernel in which every address is where its claimants are owed: barred exactly when one bars. */
module BarringRuns {
  import opened Options
  import opened Order
  import opened DomTargets
  import opened IndexInvariant
  import opened IndexRuns
  import opened EffectivePlace
  import opened RoundTrip
  import opened Learning
  import opened Kernel
  import opened KernelMirror
  import opened KernelRuns
  import opened KernelPlaces

  ghost predicate TudoEmDia(alvos: Alvos, ends: Ends) { forall a | a in ends :: EmDia(alvos, a, ends[a]) }

  /** Of the addresses in `s`, none with a write under way can get `d` as one more claimant. */
  ghost predicate Firme(ends: Ends, d: Dominio, s: set<Addr>) {
    forall a | a in s && a in ends ::
      ends[a].pendente.None? || d in ends[a].dominios || |Reivindicados(ends, d)| >= MAX_POR_DOMINIO
  }

  lemma AbsorverInPlace(alvos: Alvos, o: Obra, d: Dominio, a: Addr, prazo: int, agora: int, s: set<Addr>)
    requires EhAtivo(alvos, d) && PodeEntrar(a, alvos[d].capacidade) && a in s
    requires TudoEmDia(alvos, o.ends) && Firme(o.ends, d, s)
    ensures TudoEmDia(alvos, Absorver(alvos, o, d, a, prazo, agora).ends)
  {
    var p := Absorver(alvos, o, d, a, prazo, agora);
    LearningKeepsInPlaceIff(alvos, o, d, a, prazo, agora);
    AbsorverTouches(alvos, o, d, a, prazo, agora);
    forall b | b in p.ends ensures EmDia(alvos, b, p.ends[b]) {
      if b != a { assert EmDia(alvos, b, o.ends[b]); }
    }
  }

  lemma AbsorverFirme(alvos: Alvos, o: Obra, d: Dominio, a: Addr, prazo: int, agora: int, s: set<Addr>)
    requires EhAtivo(alvos, d) && Firme(o.ends, d, s)
    ensures Firme(Absorver(alvos, o, d, a, prazo, agora).ends, d, s)
  {
    var p := Absorver(alvos, o, d, a, prazo, agora);
    AbsorverTouches(alvos, o, d, a, prazo, agora);
    SubsetSize(Reivindicados(o.ends, d), Reivindicados(p.ends, d));
    if a in p.ends { CreditedOrFull(alvos, o, d, a, prazo, agora); }
  }

  lemma CreditedOrFull(alvos: Alvos, o: Obra, d: Dominio, a: Addr, prazo: int, agora: int)
    requires EhAtivo(alvos, d) && a in Absorver(alvos, o, d, a, prazo, agora).ends
    ensures d in Absorver(alvos, o, d, a, prazo, agora).ends[a].dominios
         || |Reivindicados(o.ends, d)| >= MAX_POR_DOMINIO
  {
  }

  lemma {:induction false} ListInPlace(alvos: Alvos, protegidos: set<Addr>, o: Obra, d: Dominio, itens: seq<Item>,
    agora: int, s: set<Addr>)
    requires EhAtivo(alvos, d) && TudoEmDia(alvos, o.ends) && Firme(o.ends, d, s) && Enderecos(itens) <= s
    ensures var p := AbsorverLista(alvos, protegidos, o, d, itens, agora);
      TudoEmDia(alvos, p.ends) && Firme(p.ends, d, s)
    decreases |itens|
  {
    if itens != [] {
      var n := |itens| - 1;
      assert itens == itens[..n] + [itens[n]];
      EnderecosSnoc(itens[..n], itens[n]);
      ListInPlace(alvos, protegidos, o, d, itens[..n], agora, s);
      var p := AbsorverLista(alvos, protegidos, o, d, itens[..n], agora);
      if Aceitavel(protegidos, itens[n].addr) && PodeEntrar(itens[n].addr, alvos[d].capacidade) {
        AbsorverInPlace(alvos, p, d, itens[n].addr, itens[n].prazo, agora, s);
        AbsorverFirme(alvos, p, d, itens[n].addr, itens[n].prazo, agora, s);
      }
    }
  }

  lemma AnswerInPlace(st: Estado, nome: string, addrs: seq<Addr>, ttl: int, agora: int)
    requires SemPendentes(st.ends) && TudoEmDia(st.alvos, st.ends)
    ensures TudoEmDia(st.alvos, Aprender(st, nome, addrs, ttl, agora).0.ends)
  {
    var c := CasarEm(st.alvos, nome);
    if c.Some? && EhAtivo(st.alvos, c.value) {
      var itens := Itens(addrs, Grampear(ttl));
      ListInPlace(st.alvos, st.protegidos, Obra(st.ends, VAZIO), c.value, itens, agora, Enderecos(itens));
    }
  }

  // ----- promotions

  ghost predicate Distintos(ds: seq<Dominio>) { forall i, j | 0 <= i < j < |ds| :: ds[i] != ds[j] }

  /** No two of the pools share an address, and none holds one that has a write under way. */
  ghost predicate Separados(ends: Ends, pocos: Pocos, ds: seq<Dominio>) {
    && (forall i, j | 0 <= i < j < |ds| :: PocoDe(pocos, ds[i]).Keys !! PocoDe(pocos, ds[j]).Keys)
    && (forall i, a | 0 <= i < |ds| && a in PocoDe(pocos, ds[i]) && a in ends :: ends[a].pendente.None?)
  }

  ghost predicate EmNenhum(pocos: Pocos, ds: seq<Dominio>, a: Addr) {
    forall i | 0 <= i < |ds| :: a !in PocoDe(pocos, ds[i])
  }

  /** Only addresses of these pools, and only these pools, change. */
  ghost predicate SoNestes(p: Passagem, q: Passagem, ds: seq<Dominio>) {
    && (forall a | EmNenhum(p.pocos, ds, a) ::
         (a in q.o.ends <==> a in p.o.ends) && (a in p.o.ends ==> q.o.ends[a] == p.o.ends[a]))
    && (forall d | d !in ds :: PocoDe(q.pocos, d) == PocoDe(p.pocos, d))
  }

  lemma ReplayTouches(novos: Alvos, protegidos: set<Addr>, p: Passagem, d: Dominio, agora: int)
    requires d in novos
    ensures SoNestes(p, ReplayEnsaio(novos, protegidos, p, d, agora), [d])
  {
    var vivo := LimparVencido(PocoDe(p.pocos, d), agora);
    var itens := ItensDoPoco(vivo, EmOrdem(vivo), agora);
    ListTouches(novos, protegidos, p.o, d, itens, agora);
    ItemsOfPool(vivo, agora);
    forall a | EmNenhum(p.pocos, [d], a) ensures a !in Enderecos(itens) { assert a !in PocoDe(p.pocos, [d][0]); }
  }

  lemma OneMoreReplayed(p: Passagem, q: Passagem, r: Passagem, ds: seq<Dominio>, d: Dominio)
    requires SoNestes(p, q, ds) && SoNestes(q, r, [d]) && d !in ds
    ensures SoNestes(p, r, ds + [d])
  {
    forall a | EmNenhum(p.pocos, ds + [d], a) ensures EmNenhum(p.pocos, ds, a) && EmNenhum(q.pocos, [d], a) {
      assert (ds + [d])[|ds|] == d;
      forall i | 0 <= i < |ds| ensures a !in PocoDe(p.pocos, ds[i]) { assert (ds + [d])[i] == ds[i]; }
    }
    forall e | e !in ds + [d] ensures PocoDe(r.pocos, e) == PocoDe(p.pocos, e) { assert e !in [d]; }
  }

  lemma ReplayOneInPlace(novos: Alvos, protegidos: set<Addr>, p: Passagem, d: Dominio, agora: int)
    requires EhAtivo(novos, d) && TudoEmDia(novos, p.o.ends)
    requires forall a | a in PocoDe(p.pocos, d) && a in p.o.ends :: p.o.ends[a].pendente.None?
    ensures TudoEmDia(novos, ReplayEnsaio(novos, protegidos, p, d, agora).o.ends)
  {
    var vivo := LimparVencido(PocoDe(p.pocos, d), agora);
    ItemsOfPool(vivo, agora);
    ListInPlace(novos, protegidos, p.o, d, ItensDoPoco(vivo, EmOrdem(vivo), agora), agora, vivo.Keys);
  }

  lemma {:induction false} ReplayInPlace(novos: Alvos, protegidos: set<Addr>, p: Passagem, ds: seq<Dominio>, agora: int)
    requires (forall d | d in ds :: d in novos && EhAtivo(novos, d)) && Distintos(ds)
    requires TudoEmDia(novos, p.o.ends) && Separados(p.o.ends, p.pocos, ds)
    ensures var q := ReplayTodos(novos, protegidos, p, ds, agora); TudoEmDia(novos, q.o.ends) && SoNestes(p, q, ds)
    decreases |ds|
  {
    if ds != [] {
      var n := |ds| - 1;
      ReplayInPlace(novos, protegidos, p, ds[..n], agora);
      var q, d := ReplayTodos(novos, protegidos, p, ds[..n], agora), ds[n];
      assert d in ds && d !in ds[..n] && ds == ds[..n] + [d];
      forall a | a in PocoDe(q.pocos, d) && a in q.o.ends ensures q.o.ends[a].pendente.None? {
        assert EmNenhum(p.pocos, ds[..n], a);
      }
      ReplayOneInPlace(novos, protegidos, q, d, agora);
      ReplayTouches(novos, protegidos, q, d, agora);
      OneMoreReplayed(p, q, ReplayEnsaio(novos, protegidos, q, d, agora), ds[..n], d);
    }
  }

  lemma PromotedAreDistinct(antes: Alvos, novos: Alvos)
    ensures Distintos(PromovidosEmOrdem(antes, novos))
  {
    var s := Promovidos(antes, novos);
    StrTotalOn(s);
    SortedExists(s, StrLess);
  }

  // ----- list changes

  /**
   What the promoted domains learned in rehearsal does not meet: no two of their pools share an address, and none
   holds an address that the new list moves.
   */
  ghost predicate Sossegada(st: Estado, novos: Alvos) {
    && (forall d, e | d in Promovidos(st.alvos, novos) && e in Promovidos(st.alvos, novos) && d != e ::
         PocoDe(st.ensaiados, d).Keys !! PocoDe(st.ensaiados, e).Keys)
    && (forall d, a | d in Promovidos(st.alvos, novos) && a in PocoDe(st.ensaiados, d) && a in st.ends ::
         !MudaDeLugar(novos, a, st.ends[a]))
  }

  lemma WalkInPlace(st: Estado, novos: Alvos)
    requires SemPendentes(st.ends)
    ensures TudoEmDia(novos, EndsReconciliados(novos, st.ends))
  {
    forall a | a in EndsReconciliados(novos, st.ends) ensures EmDia(novos, a, EndsReconciliados(novos, st.ends)[a]) {
      WalkPutsInPlaceIff(novos, st.ends, a);
    }
  }

  lemma PromotedPoolsStay(st: Estado, novos: Alvos, o: Obra, pocos: Pocos)
    requires Valido(st) && Rodada(st, novos, o, pocos)
    ensures forall d | d in Promovidos(st.alvos, novos) :: PocoDe(pocos, d) == PocoDe(st.ensaiados, d)
  {
    forall d | d in Promovidos(st.alvos, novos) ensures PocoDe(pocos, d) == PocoDe(st.ensaiados, d) {
      PoolUntouched(st, d, novos, o, pocos);
    }
  }

  lemma QuietIsApart(st: Estado, novos: Alvos, o: Obra, pocos: Pocos)
    requires Valido(st) && SemPendentes(st.ends) && Rodada(st, novos, o, pocos) && Sossegada(st, novos)
    ensures Separados(o.ends, pocos, PromovidosEmOrdem(st.alvos, novos))
  {
    var ds := PromovidosEmOrdem(st.alvos, novos);
    PromotedAreDistinct(st.alvos, novos);
    PromotedPoolsStay(st, novos, o, pocos);
    forall i, j | 0 <= i < j < |ds| ensures PocoDe(pocos, ds[i]).Keys !! PocoDe(pocos, ds[j]).Keys {
      assert ds[i] in ds && ds[j] in ds;
    }
    forall i, a | 0 <= i < |ds| && a in PocoDe(pocos, ds[i]) && a in o.ends ensures o.ends[a].pendente.None? {
      assert ds[i] in ds;
    }
  }

  /** A list change of this kind leaves every entry where the new list owes it, whatever was the case before. */
  lemma ListInPlaceAfter(st: Estado, lista: seq<Listado>, agora: int, st': Estado, aj: Ajuste)
    requires Valido(st) && SemPendentes(st.ends) && Sossegada(st, Listar(lista)) && Definir(st, lista, agora, st', aj)
    ensures TudoEmDia(st'.alvos, st'.ends)
  {
    var novos := Listar(lista);
    var o, pocos :| Rodada(st, novos, o, pocos) && (st', aj) == DefinirDepois(st, novos, agora, o, pocos);
    WalkInPlace(st, novos);
    QuietIsApart(st, novos, o, pocos);
    PromotedAreDistinct(st.alvos, novos);
    ReplayInPlace(novos, st.protegidos, Passagem(o, pocos), PromovidosEmOrdem(st.alvos, novos), agora);
  }

  // ----- runs

  ghost predicate Quieta(m: Mundo, p: Passo) { p.Lista? ==> Sossegada(m.st, Listar(p.lista)) }

  /** Every list change of the run is of this kind. */
  ghost predicate TudoQuieto(c: Corrida) {
    c.Mais? ==>
      && TudoQuieto(c.antes)
      && (c.passo.Aceito? || c.passo.Recusado? ==> Quieta(Agora(c.antes), c.passo.p))
  }

  lemma DecisionInPlace(m: Mundo, p: Passo, st: Estado, aj: Ajuste, l: Lote)
    requires Espelhado(m) && Decide(m, p, st, aj, l) && Quieta(m, p) && TudoEmDia(m.st.alvos, m.st.ends)
    ensures TudoEmDia(st.alvos, st.ends)
  {
    if p.Lista? {
      ListInPlaceAfter(m.st, p.lista, p.agora, st, aj);
    } else {
      AnswerInPlace(m.st, p.nome, p.addrs, p.ttl, p.agora);
    }
  }

  lemma AcceptedInPlace(m: Mundo, x: PassoK, n: Mundo)
    requires Espelhado(m) && x.Aceito? && AndaAceito(m, x, n) && Quieta(m, x.p) && TudoEmDia(m.st.alvos, m.st.ends)
    ensures TudoEmDia(n.st.alvos, n.st.ends)
  {
    DecisionInPlace(m, x.p, x.st, x.aj, x.l);
    forall a | a in n.st.ends ensures EmDia(n.st.alvos, a, n.st.ends[a]) { assert EmDia(x.st.alvos, a, x.st.ends[a]); }
  }

  lemma RefusedInPlace(m: Mundo, x: PassoK, n: Mundo)
    requires Espelhado(m) && x.Recusado? && AndaRecusado(m, x, n) && Quieta(m, x.p) && TudoEmDia(m.st.alvos, m.st.ends)
    ensures TudoEmDia(n.st.alvos, n.st.ends)
  {
    DecisionInPlace(m, x.p, x.st, x.aj, x.l);
    forall a | a in n.st.ends ensures EmDia(n.st.alvos, a, n.st.ends[a]) {
      assert EmDia(x.st.alvos, a, x.st.ends[a]);
      if x.st.ends[a].pendente.Some? && x.st.ends[a].escrito.Some? {
        RefusedWasThere(m, x.p, x.st, x.aj, x.l, a);
      }
    }
  }

  lemma {:induction false} EveryRunIsInPlace(c: Corrida)
    requires Valida(c) && TudoQuieto(c)
    ensures TudoEmDia(Agora(c).st.alvos, Agora(c).st.ends)
  {
    if c.Mais? {
      EveryRunIsInPlace(c.antes);
      EveryRunMirrorsTheKernel(c.antes);
      match c.passo {
        case Aceito(_, _, _, _, _, _) => AcceptedInPlace(Agora(c.antes), c.passo, c.m);
        case Recusado(_, _, _, _, _) => RefusedInPlace(Agora(c.antes), c.passo, c.m);
        case Outro(_, _) =>
      }
    }
  }

  /**
   In every reachable state of such a run: the kernel bars what it holds of an address if and only if an active
   claimant bars, and routes the rest by the mark of the active claimant whose name comes first.
   */
  lemma BarredIffAClaimantBars(c: Corrida, x: Casa)
    requires Valida(c) && TudoQuieto(c) && Tem(Agora(c).k, x, Agora(c).t)
    ensures var st := Agora(c).st;
      && x.a in st.ends && (x.s != Wan <==> Barrado(st.alvos, st.ends[x.a].dominios))
      && (x.s == Wan ==>
            exists m :: Primeiro(st.alvos, st.ends[x.a].dominios, m) && Agora(c).k[x].marca == st.alvos[m].marca)
  {
    EveryRunMirrorsTheKernel(c);
    EveryRunIsInPlace(c);
    var st := Agora(c).st;
    assert Registrado(st.ends, x, Agora(c).k[x]);
    var r := st.ends[x.a];
    var l := r.escrito.value;
    assert EmDia(st.alvos, x.a, r);
    var m :| Devido(st.alvos, x.a, r.dominios, m) && Mesmo(l, m);
    StructureOf(x.a, l.cap, x.s);
  }
}
