/** Every adjustment the index emits is consistent with what the kernel last confirmed. */
module Adjustments {
  import opened Options
  import opened DomTargets

  ghost predicate Escreve(aj: Ajuste, a: Addr) { exists e :: e in aj.escritas && e.addr == a }
  ghost predicate Remove(aj: Ajuste, a: Addr) { exists m :: m in aj.remocoes && m.addr == a }

  ghost function EscritoEm(ends: Ends, a: Addr): Option<Lugar> {
    if a in ends then ends[a].escrito else None
  }

  ghost predicate EscritaCoerente(antes: Ends, agora: int, o: Obra, e: Escrita) {
    && e.addr in o.ends && o.ends[e.addr].pendente == Some(Pedido(e.prazo, e.lugar))
    && PodeEntrar(e.addr, e.lugar.cap)
    && (if e.substituir then EscritoEm(antes, e.addr) == Some(e.lugar) == o.ends[e.addr].escrito
      && !Remove(o.aj, e.addr)
                             && Vencendo(antes[e.addr], agora)
        else EscritoEm(antes, e.addr).Some? ==> Remove(o.aj, e.addr))
  }

  ghost predicate RemocaoCoerente(antes: Ends, o: Obra, m: Remocao) {
    && EscritoEm(antes, m.addr).Some? && EscritoEm(antes, m.addr).value.cap == m.cap
    && (m.addr in o.ends ==> o.ends[m.addr].pendente.Some?)
  }

  predicate MesmaConcessao(x: Registro, y: Registro) {
    x.escrito == y.escrito && x.expira == y.expira && x.concedido == y.concedido && x.duvidoso == y.duvidoso
  }

  ghost predicate EntradaCoerente(antes: Ends, o: Obra, a: Addr)
    requires a in o.ends
  {
    var r := o.ends[a];
    && (r.pendente.Some? ==> Escreve(o.aj, a) || (a in antes && antes[a].pendente.Some?))
    && (r.escrito.Some? ==> a in antes && MesmaConcessao(antes[a], r))
    && (r.pendente.None? ==> a in antes && antes[a].escrito == r.escrito)
  }

  /**
   The adjustment of `o`, decided from the entries `antes`: one write and one removal per
   address at most; a removal or a replacement only of what was confirmed, from where it was
   confirmed; nothing confirmed leaves or moves without its removal.
   */
  ghost predicate Coerente(antes: Ends, agora: int, o: Obra) {
    && SemRepeticao(o.aj)
    && (forall e | e in o.aj.escritas :: EscritaCoerente(antes, agora, o, e))
    && (forall m | m in o.aj.remocoes :: RemocaoCoerente(antes, o, m))
    && (forall a | a in o.ends :: EntradaCoerente(antes, o, a))
    && (forall a | EscritoEm(antes, a).Some? && a !in o.ends :: Remove(o.aj, a))
  }

  lemma CoerenteAtStart(ends: Ends, agora: int)
    ensures Coerente(ends, agora, Obra(ends, VAZIO))
  {
  }

  /** Only the claims of an entry change: the adjustment is untouched. */
  lemma CreditoCoerente(antes: Ends, agora: int, o: Obra, a: Addr, doms: set<Dominio>)
    requires Coerente(antes, agora, o) && a in o.ends
    ensures Coerente(antes, agora, o.(ends := o.ends[a := o.ends[a].(dominios := doms)]))
  {
    var p := o.(ends := o.ends[a := o.ends[a].(dominios := doms)]);
    forall e | e in p.aj.escritas
      ensures EscritaCoerente(antes, agora, p, e)
    {
      assert EscritaCoerente(antes, agora, o, e);
    }
    forall m | m in p.aj.remocoes ensures RemocaoCoerente(antes, p, m) { assert RemocaoCoerente(antes, o, m); }
    forall b | b in p.ends ensures EntradaCoerente(antes, p, b) { assert EntradaCoerente(antes, o, b); }
  }

  /** A new write for an address that had none, with a removal in front of it when it moves. */
  lemma PedidoCoerente(antes: Ends, agora: int, o: Obra, p: Obra, e: Escrita, rs: seq<Remocao>)
    requires Coerente(antes, agora, o)
    requires p.aj == Ajuste(o.aj.escritas + [e], o.aj.remocoes + rs)
    requires e.addr in p.ends && p.ends[e.addr].pendente == Some(Pedido(e.prazo, e.lugar))
    requires PodeEntrar(e.addr, e.lugar.cap)
    requires forall b | b != e.addr :: (b in p.ends <==> b in o.ends) && (b in o.ends ==> p.ends[b] == o.ends[b])
    requires if e.addr in o.ends
             then o.ends[e.addr].pendente.None?
               && p.ends[e.addr] == o.ends[e.addr].(pendente := p.ends[e.addr].pendente)
             else p.ends[e.addr].escrito.None? && rs == []
    requires e.substituir ==> EscritoEm(o.ends, e.addr) == Some(e.lugar) && rs == [] && Vencendo(o.ends[e.addr], agora)
    requires rs == [] ==> e.addr in o.ends ==> e.substituir || o.ends[e.addr].escrito.None?
    requires rs != [] ==> EscritoEm(o.ends, e.addr).Some?
    requires rs != [] ==> rs == [Remocao(e.addr, EscritoEm(o.ends, e.addr).value.cap)]
    ensures Coerente(antes, agora, p)
  {
    var a := e.addr;
    forall x | x in o.aj.escritas ensures x.addr != a { assert EscritaCoerente(antes, agora, o, x); }
    if a in o.ends {
      assert EntradaCoerente(antes, o, a);
      forall m | m in o.aj.remocoes ensures m.addr != a { assert RemocaoCoerente(antes, o, m); }
    }
    assert e in p.aj.escritas;
    forall b ensures Remove(p.aj, b) <==> Remove(o.aj, b) || (b == a && rs != []) {
      if Remove(o.aj, b) { var m :| m in o.aj.remocoes && m.addr == b; assert m in p.aj.remocoes; }
      if rs != [] { assert rs[0] in p.aj.remocoes; }
    }
    forall x | x in p.aj.escritas ensures EscritaCoerente(antes, agora, p, x) {
      if x != e { assert x in o.aj.escritas; assert EscritaCoerente(antes, agora, o, x); }
    }
    forall m | m in p.aj.remocoes ensures RemocaoCoerente(antes, p, m) {
      if m in o.aj.remocoes { assert RemocaoCoerente(antes, o, m); }
    }
    forall b | b in p.ends ensures EntradaCoerente(antes, p, b) {
      if b != a {
        assert EntradaCoerente(antes, o, b);
        if Escreve(o.aj, b) { var x :| x in o.aj.escritas && x.addr == b; assert x in p.aj.escritas; }
      }
    }
    assert SemRepeticao(p.aj) by {
      forall i, j | 0 <= i < j < |p.aj.escritas| ensures p.aj.escritas[i].addr != p.aj.escritas[j].addr {
        assert p.aj.escritas[i] in o.aj.escritas;
      }
      forall i, j | 0 <= i < j < |p.aj.remocoes| ensures p.aj.remocoes[i].addr != p.aj.remocoes[j].addr {
        assert p.aj.remocoes[i] in o.aj.remocoes;
      }
    }
  }

  lemma AbsorverCoerente(antes: Ends, alvos: Alvos, o: Obra, d: Dominio, a: Addr, prazo: int, agora: int)
    requires Coerente(antes, agora, o) && d in alvos && PodeEntrar(a, alvos[d].capacidade)
    ensures Coerente(antes, agora, Absorver(alvos, o, d, a, prazo, agora))
  {
    var p := Absorver(alvos, o, d, a, prazo, agora);
    if a !in o.ends {
      if p != o {
        var e := Escrita(a, prazo, Lugar(alvos[d].capacidade, alvos[d].marca), false);
        assert o.aj.remocoes + [] == o.aj.remocoes;
        PedidoCoerente(antes, agora, o, p, e, []);
      }
    } else {
      var r := Creditado(o.ends, d, a);
      var q := o.(ends := o.ends[a := r]);
      CreditoCoerente(antes, agora, o, a, r.dominios);
      assert r == o.ends[a].(dominios := r.dominios);
      if p != q {
        var c := Destino(alvos, a, r.dominios).value;
        var trocou := r.escrito != Some(c);
        var rs := if trocou && r.escrito.Some? then [Remocao(a, r.escrito.value.cap)] else [];
        assert q.aj.remocoes + rs == p.aj.remocoes;
        PedidoCoerente(antes, agora, q, p, Escrita(a, prazo, c, !trocou), rs);
      }
    }
  }

  lemma {:induction false} AbsorverListaCoerente(antes: Ends, alvos: Alvos, protegidos: set<Addr>, o: Obra,
    d: Dominio, itens: seq<Item>, agora: int)
    requires Coerente(antes, agora, o) && d in alvos
    ensures Coerente(antes, agora, AbsorverLista(alvos, protegidos, o, d, itens, agora))
    decreases |itens|
  {
    if itens != [] {
      var n := |itens| - 1;
      AbsorverListaCoerente(antes, alvos, protegidos, o, d, itens[..n], agora);
      if PodeEntrar(itens[n].addr, alvos[d].capacidade) {
        AbsorverCoerente(antes, alvos, AbsorverLista(alvos, protegidos, o, d, itens[..n], agora), d, itens[n].addr,
          itens[n].prazo, agora);
      }
    }
  }

  lemma RodadaCoerente(st: Estado, novos: Alvos, agora: int, o: Obra, pocos: Pocos)
    requires Rodada(st, novos, o, pocos)
    ensures Coerente(st.ends, agora, o)
  {
    var ends := st.ends;
    forall a | a in ends
      && RemocaoDevida(novos, ends, Remocao(a, if ends[a].escrito.Some? then ends[a].escrito.value.cap else Barrar))
      ensures Remove(o.aj, a)
    {
      assert Remocao(a, ends[a].escrito.value.cap) in o.aj.remocoes;
    }
    forall e | e in o.aj.escritas ensures EscritaCoerente(ends, agora, o, e) {
      assert EscritaDevida(novos, ends, e);
      if ends[e.addr].escrito.Some? {
        assert RemocaoDevida(novos, ends, Remocao(e.addr, ends[e.addr].escrito.value.cap));
      }
    }
    forall m | m in o.aj.remocoes ensures RemocaoCoerente(ends, o, m) {
      assert RemocaoDevida(novos, ends, m);
    }
    forall a | a in o.ends ensures EntradaCoerente(ends, o, a) {
      if MudaDeLugar(novos, a, ends[a]) {
        var e := Escrita(a, ends[a].concedido, Destino(novos, a, ends[a].dominios).value, false);
        assert EscritaDevida(novos, ends, e);
        assert e in o.aj.escritas;
      }
    }
    forall a | EscritoEm(ends, a).Some? && a !in o.ends ensures Remove(o.aj, a) {
      assert RemocaoDevida(novos, ends, Remocao(a, ends[a].escrito.value.cap));
    }
  }

  lemma {:induction false} ReplayTodosCoerente(antes: Ends, novos: Alvos, protegidos: set<Addr>, p: Passagem,
    promovidos: seq<Dominio>, agora: int)
    requires Coerente(antes, agora, p.o) && forall d | d in promovidos :: d in novos
    ensures Coerente(antes, agora, ReplayTodos(novos, protegidos, p, promovidos, agora).o)
    decreases |promovidos|
  {
    if promovidos != [] {
      var n := |promovidos| - 1;
      ReplayTodosCoerente(antes, novos, protegidos, p, promovidos[..n], agora);
      var q := ReplayTodos(novos, protegidos, p, promovidos[..n], agora);
      var d := promovidos[n];
      assert d in promovidos;
      var vivo := LimparVencido(PocoDe(q.pocos, d), agora);
      AbsorverListaCoerente(antes, novos, protegidos, q.o, d, ItensDoPoco(vivo, EmOrdem(vivo), agora), agora);
    }
  }

  lemma DefinirCoerente(st: Estado, lista: seq<Listado>, agora: int, st': Estado, aj: Ajuste)
    requires Definir(st, lista, agora, st', aj)
    ensures Coerente(st.ends, agora, Obra(st'.ends, aj))
  {
    var novos := Listar(lista);
    var o, pocos :| Rodada(st, novos, o, pocos) && (st', aj) == DefinirDepois(st, novos, agora, o, pocos);
    RodadaCoerente(st, novos, agora, o, pocos);
    ReplayTodosCoerente(st.ends, novos, st.protegidos, Passagem(o, pocos), PromovidosEmOrdem(st.alvos, novos), agora);
  }

  lemma AprenderCoerente(st: Estado, nome: string, addrs: seq<Addr>, ttl: int, agora: int)
    ensures var (st', aj) := Aprender(st, nome, addrs, ttl, agora); Coerente(st.ends, agora, Obra(st'.ends, aj))
  {
    CoerenteAtStart(st.ends, agora);
    var c := CasarEm(st.alvos, nome);
    if c.Some? && EhAtivo(st.alvos, c.value) {
      AbsorverListaCoerente(st.ends, st.alvos, st.protegidos, Obra(st.ends, VAZIO), c.value,
        Itens(addrs, Grampear(ttl)), agora);
    }
  }
}
