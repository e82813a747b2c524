/** A list change has an outcome from every state: what `Definir` relates is never nothing. */
module ListChanges {
  import opened Options
  import opened Order
  import opened DomTargets

  // ----- the list, row by row

  /** The last row of the list with this name. */
  ghost predicate LastRow(lista: seq<Listado>, d: Dominio, i: nat) {
    && i < |lista| && lista[i].dominio == Some(d)
    && forall j | i < j < |lista| :: lista[j].dominio != Some(d)
  }

  /**
   A name is listed when some row has it, and the last such row decides: it routes only if the row says so, and is
   active only if the row says so; anything that cannot be read bars, and is a rehearsal.
   */
  lemma {:induction false} LastRowDecides(lista: seq<Listado>, d: Dominio)
    ensures d in Listar(lista) <==> exists i: nat :: LastRow(lista, d, i)
    ensures forall i: nat | LastRow(lista, d, i) ::
              && d in Listar(lista) && Listar(lista)[d].marca == lista[i].marca
              && (Listar(lista)[d].capacidade == Direcionar <==> lista[i].capacidade == Some(Direcionar))
              && (Listar(lista)[d].estagio == Ativo <==> lista[i].estagio == Some(Ativo))
    decreases |lista|
  {
    if lista != [] {
      var n := |lista| - 1;
      LastRowDecides(lista[..n], d);
      if lista[n].dominio == Some(d) {
        assert LastRow(lista, d, n);
        assert forall i: nat | LastRow(lista, d, i) :: i == n;
      } else {
        forall i: nat ensures LastRow(lista, d, i) <==> LastRow(lista[..n], d, i) { SameLastRow(lista, d, i); }
      }
    }
  }

  lemma SameLastRow(lista: seq<Listado>, d: Dominio, i: nat)
    requires lista != [] && lista[|lista| - 1].dominio != Some(d)
    ensures LastRow(lista, d, i) <==> LastRow(lista[..|lista| - 1], d, i)
  {
    var n := |lista| - 1;
    if LastRow(lista[..n], d, i) {
      forall j | i < j < |lista| ensures lista[j].dominio != Some(d) { if j < n { assert lista[..n][j] == lista[j]; } }
    }
  }

  // ----- an outcome of the walk

  ghost function Mudam(novos: Alvos, ends: Ends): set<Addr> {
    set a | a in ends && MudaDeLugar(novos, a, ends[a])
  }

  ghost function Saem(novos: Alvos, ends: Ends): set<Addr> {
    set a | a in ends && ends[a].escrito.Some? && Destino(novos, a, ends[a].dominios) != ends[a].escrito
  }

  /** The commands of the walk, in address order. */
  lemma WritesOfTheWalk(novos: Alvos, ends: Ends) returns (es: seq<Escrita>)
    ensures forall e :: e in es <==> EscritaDevida(novos, ends, e)
    ensures forall i, j | 0 <= i < j < |es| :: es[i].addr != es[j].addr
  {
    AddrTotalOn(Mudam(novos, ends));
    SortedExists(Mudam(novos, ends), AddrLess);
    var q := Sorted(Mudam(novos, ends), AddrLess);
    es := seq(|q|, i requires 0 <= i < |q| =>
      assert q[i] in q;
      Escrita(q[i], ends[q[i]].concedido, Destino(novos, q[i], ends[q[i]].dominios).value, false));
    forall e ensures e in es <==> EscritaDevida(novos, ends, e) {
      if EscritaDevida(novos, ends, e) {
        assert e.addr in q;
        var i :| 0 <= i < |q| && q[i] == e.addr;
        assert es[i] == e;
      }
      if e in es {
        var i :| 0 <= i < |es| && es[i] == e;
        assert q[i] in q;
      }
    }
  }

  lemma RemovalsOfTheWalk(novos: Alvos, ends: Ends) returns (rs: seq<Remocao>)
    ensures forall m :: m in rs <==> RemocaoDevida(novos, ends, m)
    ensures forall i, j | 0 <= i < j < |rs| :: rs[i].addr != rs[j].addr
  {
    AddrTotalOn(Saem(novos, ends));
    SortedExists(Saem(novos, ends), AddrLess);
    var q := Sorted(Saem(novos, ends), AddrLess);
    rs := seq(|q|, i requires 0 <= i < |q| =>
      assert q[i] in q;
      Remocao(q[i], ends[q[i]].escrito.value.cap));
    forall m ensures m in rs <==> RemocaoDevida(novos, ends, m) {
      if RemocaoDevida(novos, ends, m) {
        assert m.addr in q;
        var i :| 0 <= i < |q| && q[i] == m.addr;
        assert rs[i] == m;
      }
      if m in rs {
        var i :| 0 <= i < |rs| && rs[i] == m;
        assert q[i] in q;
      }
    }
  }

  function Guardado(antes: Poco, novos: Poco): Poco {
    if |antes + novos| <= MAX_POR_DOMINIO then antes + novos else map[]
  }

  lemma APoolIsPossible(antes: Poco, novos: Poco)
    ensures PocoPossivel(antes, novos, Guardado(antes, novos))
  {
  }

  lemma AWalkIsPossible(st: Estado, novos: Alvos) returns (o: Obra, pocos: Pocos)
    ensures Rodada(st, novos, o, pocos)
  {
    var es := WritesOfTheWalk(novos, st.ends);
    var rs := RemovalsOfTheWalk(novos, st.ends);
    o := Obra(EndsReconciliados(novos, st.ends), Ajuste(es, rs));
    pocos := map d | d in novos :: Guardado(PocoListado(novos, st.ensaiados, d), Rebaixados(novos, st.ends, d));
    forall d ensures PocoDepois(st, novos, pocos, d) {
      APoolIsPossible(PocoListado(novos, st.ensaiados, d), Rebaixados(novos, st.ends, d));
    }
  }

  /** From any state, any list. */
  lemma ADefinitionIsPossible(st: Estado, lista: seq<Listado>, agora: int) returns (st': Estado, aj: Ajuste)
    ensures Definir(st, lista, agora, st', aj)
  {
    var o, pocos := AWalkIsPossible(st, Listar(lista));
    var r := DefinirDepois(st, Listar(lista), agora, o, pocos);
    st', aj := r.0, r.1;
  }

  lemma HasOne<T>(q: seq<T>)
    ensures q != [] ==> exists x :: x in q
  {
    if q != [] { assert q[0] in q; }
  }

  // ----- list changes that promote nobody

  /** The entries are then just reconciled, and the commands are those of the walk. */
  lemma NobodyPromotedNothingReplayed(st: Estado, lista: seq<Listado>, t: int, st': Estado, aj: Ajuste)
    requires Definir(st, lista, t, st', aj) && Promovidos(st.alvos, Listar(lista)) == {}
    ensures st'.alvos == Listar(lista) && st'.ends == EndsReconciliados(Listar(lista), st.ends)
    ensures st'.protegidos == st.protegidos
    ensures forall d :: PocoDepois(st, Listar(lista), st'.ensaiados, d)
    ensures forall m :: m in aj.remocoes <==> RemocaoDevida(Listar(lista), st.ends, m)
    ensures forall e :: e in aj.escritas <==> EscritaDevida(Listar(lista), st.ends, e)
  {
    var q := PromovidosEmOrdem(st.alvos, Listar(lista));
    HasOne(q);
  }

  /** With every pool empty there is nothing to replay either. */
  lemma {:induction false} NothingToReplay(novos: Alvos, protegidos: set<Addr>, p: Passagem, ds: seq<Dominio>, t: int)
    requires (forall d | d in ds :: d in novos) && forall d :: PocoDe(p.pocos, d) == map[]
    ensures ReplayTodos(novos, protegidos, p, ds, t) == p
    decreases |ds|
  {
    if ds != [] { NothingToReplay(novos, protegidos, p, ds[..|ds| - 1], t); }
  }

  /** A first list: no entry, no pool, no command. */
  lemma FirstList(st: Estado, lista: seq<Listado>, t: int, st': Estado, aj: Ajuste)
    requires Definir(st, lista, t, st', aj) && st.ends == map[] && forall d :: PocoDe(st.ensaiados, d) == map[]
    ensures st'.alvos == Listar(lista) && st'.ends == map[] && st'.protegidos == st.protegidos
    ensures forall d :: PocoDe(st'.ensaiados, d) == map[]
    ensures aj == VAZIO
  {
    var novos := Listar(lista);
    var o, pocos :| Rodada(st, novos, o, pocos) && (st', aj) == DefinirDepois(st, novos, t, o, pocos);
    assert forall e :: e !in o.aj.escritas;
    assert forall m :: m !in o.aj.remocoes;
    HasOne(o.aj.escritas);
    HasOne(o.aj.remocoes);
    forall d ensures PocoDe(pocos, d) == map[] { assert PocoDepois(st, novos, pocos, d); }
    NothingToReplay(novos, st.protegidos, Passagem(o, pocos), PromovidosEmOrdem(st.alvos, novos), t);
  }
}
