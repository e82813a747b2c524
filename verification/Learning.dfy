/** What one DNS answer may change: the usable, unprotected addresses of the answer, and the domain it matched. */
module Learning {
  import opened Options
  import opened DomTargets
  import opened IndexInvariant
  import opened Adjustments
  import opened IndexRuns
  import opened RoundTrip

  /** Everywhere but in `s` the entries and the commands are as they were. */
  ghost predicate SoEm(s: set<Addr>, o: Obra, p: Obra) {
    && (forall a | a !in s :: (a in p.ends <==> a in o.ends) && (a in o.ends ==> p.ends[a] == o.ends[a]))
    && (forall e | e in p.aj.escritas :: e in o.aj.escritas || e.addr in s)
    && (forall m | m in p.aj.remocoes :: m in o.aj.remocoes || m.addr in s)
  }

  /** No other domain gains or loses a claim, and none is lost. */
  ghost predicate SoGanha(d: Dominio, o: Obra, p: Obra) {
    && (forall e | e != d :: Reivindicados(p.ends, e) == Reivindicados(o.ends, e))
    && Reivindicados(o.ends, d) <= Reivindicados(p.ends, d)
  }

  lemma AbsorverTouches(alvos: Alvos, o: Obra, d: Dominio, a: Addr, prazo: int, agora: int)
    requires d in alvos
    ensures SoEm({a}, o, Absorver(alvos, o, d, a, prazo, agora))
    ensures SoGanha(d, o, Absorver(alvos, o, d, a, prazo, agora))
  {
    var p := Absorver(alvos, o, d, a, prazo, agora);
    forall e | e != d ensures Reivindicados(p.ends, e) == Reivindicados(o.ends, e) {
      if a in p.ends { OthersKeepTheirClaims(o.ends, p.ends, a, d, e); }
    }
  }

  lemma OthersKeepTheirClaims(antes: Ends, depois: Ends, a: Addr, d: Dominio, e: Dominio)
    requires e != d && a in depois && depois == antes[a := depois[a]]
    requires depois[a].dominios - {d} == if a in antes then antes[a].dominios - {d} else {}
    ensures Reivindicados(depois, e) == Reivindicados(antes, e)
  {
    if a in antes { assert e in depois[a].dominios - {d} <==> e in antes[a].dominios - {d}; }
    assert e in depois[a].dominios <==> e in depois[a].dominios - {d};
  }

  lemma TouchesMore(s: set<Addr>, t: set<Addr>, d: Dominio, o: Obra, p: Obra, q: Obra)
    requires SoEm(s, o, p) && SoGanha(d, o, p) && SoEm(t, p, q) && SoGanha(d, p, q)
    ensures SoEm(s + t, o, q) && SoGanha(d, o, q)
  {
  }

  lemma {:induction false} ListTouches(alvos: Alvos, protegidos: set<Addr>, o: Obra, d: Dominio, itens: seq<Item>,
    agora: int)
    requires d in alvos
    ensures var p := AbsorverLista(alvos, protegidos, o, d, itens, agora);
      SoEm(Entrando(alvos, protegidos, d, Enderecos(itens)), o, p) && SoGanha(d, o, p)
    decreases |itens|
  {
    if itens != [] {
      var antes, i := itens[..|itens| - 1], itens[|itens| - 1];
      assert itens == antes + [i];
      ListTouches(alvos, protegidos, o, d, antes, agora);
      EnderecosSnoc(antes, i);
      EntrandoSnoc(alvos, protegidos, d, Enderecos(antes), i.addr);
      if Entra(alvos, protegidos, d, i.addr) {
        var p := AbsorverLista(alvos, protegidos, o, d, antes, agora);
        AbsorverTouches(alvos, p, d, i.addr, i.prazo, agora);
        var s := Entrando(alvos, protegidos, d, Enderecos(antes));
        TouchesMore(s, {i.addr}, d, o, p, Absorver(alvos, p, d, i.addr, i.prazo, agora));
      }
    }
  }

  /** The addresses of an answer that may enter: usable, not of the box itself, and with a structure to go to. */
  ghost function Aceitos(st: Estado, d: Dominio, addrs: seq<Addr>): set<Addr>
    requires d in st.alvos
  {
    set a | a in addrs && Utilizavel(a) && a !in st.protegidos && (st.alvos[d].capacidade == Direcionar ==> a.v4)
  }

  lemma AceitosAre(st: Estado, d: Dominio, addrs: seq<Addr>, prazo: int)
    requires d in st.alvos
    ensures Entrando(st.alvos, st.protegidos, d, Enderecos(Itens(addrs, prazo))) == Aceitos(st, d, addrs)
    ensures Enderecos(Itens(addrs, prazo)) == set a | a in addrs
  {
    var itens := Itens(addrs, prazo);
    forall a | a in addrs ensures a in Enderecos(itens) {
      var i :| 0 <= i < |addrs| && addrs[i] == a;
      assert itens[i] in itens;
    }
  }

  /**
   An answer for a name that no active domain of the list covers changes no entry and asks for nothing. Any other
   touches only the acceptable addresses of the answer, and adds only claims of the domain it matched.
   */
  lemma AnswerTouchesOnlyTheAcceptable(st: Estado, nome: string, addrs: seq<Addr>, ttl: int, agora: int)
    ensures var (st', aj) := Aprender(st, nome, addrs, ttl, agora); var c := CasarEm(st.alvos, nome);
      if c.Some? && EhAtivo(st.alvos, c.value)
      then SoEm(Aceitos(st, c.value, addrs), Obra(st.ends, VAZIO), Obra(st'.ends, aj))
        && SoGanha(c.value, Obra(st.ends, VAZIO), Obra(st'.ends, aj)) && st'.ensaiados == st.ensaiados
      else st'.ends == st.ends && aj == VAZIO
  {
    var c := CasarEm(st.alvos, nome);
    if c.Some? && EhAtivo(st.alvos, c.value) {
      AceitosAre(st, c.value, addrs, Grampear(ttl));
      ListTouches(st.alvos, st.protegidos, Obra(st.ends, VAZIO), c.value, Itens(addrs, Grampear(ttl)), agora);
    }
  }

  /** Room for every address of the answer, claimed by `d` and in the index. */
  ghost predicate Cabe(st: Estado, d: Dominio, addrs: seq<Addr>) {
    && |Reivindicados(st.ends, d) + set a | a in addrs| <= MAX_POR_DOMINIO
    && |st.ends.Keys + set a | a in addrs| <= MAX_ENDERECOS
  }

  /** With room, the matched active domain ends up claiming every acceptable address of the answer, and no other. */
  lemma AnswerIsClaimed(st: Estado, nome: string, addrs: seq<Addr>, ttl: int, agora: int, d: Dominio)
    requires CasarEm(st.alvos, nome) == Some(d) && EhAtivo(st.alvos, d) && Cabe(st, d, addrs)
    ensures Reivindicados(Aprender(st, nome, addrs, ttl, agora).0.ends, d)
         == Reivindicados(st.ends, d) + Aceitos(st, d, addrs)
  {
    var itens := Itens(addrs, Grampear(ttl));
    AceitosAre(st, d, addrs, Grampear(ttl));
    ReplayClaims(st.alvos, st.protegidos, Obra(st.ends, VAZIO), d, itens, agora, st.ends.Keys + Enderecos(itens));
  }

  // ----- how a new address enters

  /** What an item of the answer, or of the pool, becomes when it is new to the index. */
  ghost predicate ComoItem(alvos: Alvos, d: Dominio, i: Item, agora: int, o: Obra)
    requires d in alvos
  {
    var l := Lugar(alvos[d].capacidade, alvos[d].marca);
    && i.addr in o.ends
    && o.ends[i.addr] == Registro({d}, agora + i.prazo, i.prazo, None, false, Some(Pedido(i.prazo, l)))
    && Escrita(i.addr, i.prazo, l, false) in o.aj.escritas
  }

  /** Every address that is in `o` and not in `base` came in like this. */
  ghost predicate Entrou(alvos: Alvos, base: Ends, d: Dominio, itens: set<Item>, agora: int, o: Obra)
    requires d in alvos
  {
    && base.Keys <= o.ends.Keys
    && forall a | a in o.ends && a !in base :: exists i :: i in itens && i.addr == a && ComoItem(alvos, d, i, agora, o)
  }

  lemma AbsorverEnters(alvos: Alvos, base: Ends, o: Obra, d: Dominio, itens: set<Item>, i: Item, agora: int)
    requires d in alvos && Entrou(alvos, base, d, itens, agora, o) && i in itens
    ensures Entrou(alvos, base, d, itens, agora, Absorver(alvos, o, d, i.addr, i.prazo, agora))
  {
    var p := Absorver(alvos, o, d, i.addr, i.prazo, agora);
    forall a | a in p.ends && a !in base
      ensures exists j :: j in itens && j.addr == a && ComoItem(alvos, d, j, agora, p)
    {
      if a in o.ends {
        var j :| j in itens && j.addr == a && ComoItem(alvos, d, j, agora, o);
        StaysAsItem(alvos, o, d, j, i, agora);
      } else {
        assert ComoItem(alvos, d, i, agora, p);
      }
    }
  }

  lemma StaysAsItem(alvos: Alvos, o: Obra, d: Dominio, j: Item, i: Item, agora: int)
    requires d in alvos && ComoItem(alvos, d, j, agora, o)
    ensures ComoItem(alvos, d, j, agora, Absorver(alvos, o, d, i.addr, i.prazo, agora))
  {
    var p := Absorver(alvos, o, d, i.addr, i.prazo, agora);
    assert forall e | e in o.aj.escritas :: e in p.aj.escritas;
  }

  lemma {:induction false} ListEnters(alvos: Alvos, protegidos: set<Addr>, o: Obra, d: Dominio, itens: seq<Item>,
    todos: set<Item>, agora: int)
    requires d in alvos && forall i | i in itens :: i in todos
    ensures Entrou(alvos, o.ends, d, todos, agora, AbsorverLista(alvos, protegidos, o, d, itens, agora))
    decreases |itens|
  {
    if itens != [] {
      var n := |itens| - 1;
      ListEnters(alvos, protegidos, o, d, itens[..n], todos, agora);
      assert itens[n] in itens;
      AbsorverEnters(alvos, o.ends, AbsorverLista(alvos, protegidos, o, d, itens[..n], agora), d, todos, itens[n],
        agora);
    }
  }

  /**
   An address that an answer brings in is claimed by the matched domain alone, and is being written where that domain
   sends it, for the answer's time within the limits; until it is confirmed it is written nowhere.
   */
  lemma AnswerEntersAs(st: Estado, nome: string, addrs: seq<Addr>, ttl: int, agora: int, a: Addr)
    requires a !in st.ends && a in Aprender(st, nome, addrs, ttl, agora).0.ends
    ensures CasarEm(st.alvos, nome).Some? && CasarEm(st.alvos, nome).value in st.alvos
    ensures var d, prazo := CasarEm(st.alvos, nome).value, Grampear(ttl);
      var (st', aj) := Aprender(st, nome, addrs, ttl, agora);
      var l := Lugar(st.alvos[d].capacidade, st.alvos[d].marca);
      && st'.ends[a] == Registro({d}, agora + prazo, prazo, None, false, Some(Pedido(prazo, l)))
      && Escrita(a, prazo, l, false) in aj.escritas
  {
    CasarIsListed(st.alvos, nome);
    var d := CasarEm(st.alvos, nome).value;
    var itens := Itens(addrs, Grampear(ttl));
    ListEnters(st.alvos, st.protegidos, Obra(st.ends, VAZIO), d, itens, (set i | i in itens), agora);
  }

  // ----- what is protected, over runs

  /** A protected address that is not in the index does not enter it, whatever the step, and nothing is asked of it. */
  lemma ProtectedStaysOut(st: Estado, p: Passo, st': Estado, aj: Ajuste, a: Addr)
    requires Transicao(st, p, st', aj) && a in st.protegidos && a !in st.ends
    ensures a !in st'.ends && !Escreve(aj, a) && !Remove(aj, a)
  {
    match p {
      case Lista(lista, agora) => ListSparesTheProtected(st, lista, agora, st', aj, a);
      case Resposta(nome, addrs, ttl, agora) => AnswerTouchesOnlyTheAcceptable(st, nome, addrs, ttl, agora);
      case _ =>
    }
  }

  lemma ListSparesTheProtected(st: Estado, lista: seq<Listado>, agora: int, st': Estado, aj: Ajuste, a: Addr)
    requires Definir(st, lista, agora, st', aj) && a in st.protegidos && a !in st.ends
    ensures a !in st'.ends && !Escreve(aj, a) && !Remove(aj, a)
  {
    var novos := Listar(lista);
    var o, pocos :| Rodada(st, novos, o, pocos) && (st', aj) == DefinirDepois(st, novos, agora, o, pocos);
    forall e | e in o.aj.escritas ensures e.addr != a { assert EscritaDevida(novos, st.ends, e); }
    forall m | m in o.aj.remocoes ensures m.addr != a { assert RemocaoDevida(novos, st.ends, m); }
    ReplaySpares(novos, st.protegidos, Passagem(o, pocos), PromovidosEmOrdem(st.alvos, novos), agora, a);
  }

  lemma {:induction false} ReplaySpares(novos: Alvos, protegidos: set<Addr>, p: Passagem, promovidos: seq<Dominio>,
    agora: int, a: Addr)
    requires (forall d | d in promovidos :: d in novos) && a in protegidos
    ensures var q := ReplayTodos(novos, protegidos, p, promovidos, agora);
      && (a in q.o.ends <==> a in p.o.ends) && (a in p.o.ends ==> q.o.ends[a] == p.o.ends[a])
      && (Escreve(q.o.aj, a) ==> Escreve(p.o.aj, a)) && (Remove(q.o.aj, a) ==> Remove(p.o.aj, a))
    decreases |promovidos|
  {
    if promovidos != [] {
      var n := |promovidos| - 1;
      ReplaySpares(novos, protegidos, p, promovidos[..n], agora, a);
      var q := ReplayTodos(novos, protegidos, p, promovidos[..n], agora);
      var d := promovidos[n];
      assert d in promovidos;
      var vivo := LimparVencido(PocoDe(q.pocos, d), agora);
      ListTouches(novos, protegidos, q.o, d, ItensDoPoco(vivo, EmOrdem(vivo), agora), agora);
    }
  }

  /** In every state since `start` the address was protected. */
  ghost predicate ProtegidoDesde(h: Historia, start: Historia, a: Addr) {
    a in Atual(h).protegidos && (h == start || (h.Depois? && ProtegidoDesde(h.antes, start, a)))
  }

  ghost predicate NadaPedido(h: Historia, start: Historia, a: Addr) {
    h == start || (h.Depois? && !Escreve(h.aj, a) && !Remove(h.aj, a) && NadaPedido(h.antes, start, a))
  }

  /** As long as an address is protected the index never takes it in, and the kernel is asked nothing about it. */
  lemma {:induction false} ProtectedNeverEnters(h: Historia, start: Historia, a: Addr)
    requires Execucao(h) && ProtegidoDesde(h, start, a) && a !in Atual(start).ends
    ensures a !in Atual(h).ends && NadaPedido(h, start, a)
  {
    if h != start {
      ProtectedNeverEnters(h.antes, start, a);
      ProtectedStaysOut(Atual(h.antes), h.passo, h.st, h.aj, a);
    }
  }

  // ----- learned in rehearsal, applied on promotion

  /** What the usable addresses of an answer leave in a pool: their new deadline. */
  function Lembrados(addrs: seq<Addr>, vence: int): Poco { map a | a in addrs && Utilizavel(a) :: vence }

  ghost predicate CabeNoPoco(poco: Poco, addrs: seq<Addr>) {
    |poco.Keys + set a | a in addrs && Utilizavel(a)| <= MAX_POR_DOMINIO
  }

  lemma {:induction false} PoolRemembers(poco: Poco, addrs: seq<Addr>, vence: int, agora: int)
    requires CabeNoPoco(poco, addrs)
    ensures GuardarEnsaio(poco, addrs, vence, agora) == poco + Lembrados(addrs, vence)
    decreases |addrs|
  {
    if addrs == [] {
      assert poco + Lembrados(addrs, vence) == poco;
    } else {
      var n := |addrs| - 1;
      assert addrs == addrs[..n] + [addrs[n]];
      SubsetSize(poco.Keys + (set a | a in addrs[..n] && Utilizavel(a)),
        poco.Keys + (set a | a in addrs && Utilizavel(a)));
      PoolRemembers(poco, addrs[..n], vence, agora);
      OneMoreRemembered(poco, addrs[..n], addrs[n], vence, agora);
    }
  }

  lemma OneMoreRemembered(poco: Poco, addrs: seq<Addr>, a: Addr, vence: int, agora: int)
    requires CabeNoPoco(poco, addrs + [a])
    ensures GuardarUm(poco + Lembrados(addrs, vence), a, vence, agora) == poco + Lembrados(addrs + [a], vence)
  {
    RememberedSnoc(poco, addrs, a, vence);
    var p, q := poco + Lembrados(addrs, vence), poco + Lembrados(addrs + [a], vence);
    assert q.Keys == poco.Keys + set b | b in addrs + [a] && Utilizavel(b);
    if Utilizavel(a) && a !in p {
      SubsetSize(p.Keys, q.Keys - {a});
      MapSize(p);
    }
  }

  lemma RememberedSnoc(poco: Poco, addrs: seq<Addr>, a: Addr, vence: int)
    ensures var p := poco + Lembrados(addrs, vence);
      poco + Lembrados(addrs + [a], vence) == if Utilizavel(a) then p[a := vence] else p
  {
    assert Lembrados(addrs + [a], vence)
        == if Utilizavel(a) then Lembrados(addrs, vence)[a := vence] else Lembrados(addrs, vence);
  }

  /**
   A full pool makes room for a new address by dropping what has expired, and takes it in exactly when that makes
   room; nothing that has not expired is dropped for it.
   */
  lemma FullPoolMakesRoom(poco: Poco, a: Addr, vence: int, agora: int, b: Addr)
    requires |poco| >= MAX_POR_DOMINIO && Utilizavel(a) && a !in poco && b != a
    ensures var depois := GuardarUm(poco, a, vence, agora);
      && (b in depois <==> b in poco && poco[b] > agora) && (b in depois ==> depois[b] == poco[b])
      && (a in depois <==> |set x | x in poco && poco[x] > agora| < MAX_POR_DOMINIO)
      && (a in depois ==> depois[a] == vence)
  {
    var vivo := LimparVencido(poco, agora);
    assert vivo.Keys == set x | x in poco && poco[x] > agora;
    MapSize(vivo);
  }

  /** An answer for a domain in rehearsal asks for nothing, and its usable addresses are remembered, when they fit. */
  lemma RehearsalRemembers(st: Estado, nome: string, addrs: seq<Addr>, ttl: int, agora: int, d: Dominio, vence: int)
    requires Ensaia(st, nome, d)
    requires CabeNoPoco(PocoDe(st.ensaiados, d), addrs) && vence == agora + Grampear(ttl)
    ensures SoPoco(st, Aprender(st, nome, addrs, ttl, agora), d, PocoDe(st.ensaiados, d) + Lembrados(addrs, vence))
  {
    PoolRemembers(PocoDe(st.ensaiados, d), addrs, vence, agora);
    LearnedInRehearsal(st, nome, addrs, ttl, agora, d, vence);
  }

  /** The addresses of a pool that may enter at instant t. */
  ghost function Aplicaveis(st: Estado, alvo: Alvo, d: Dominio, t: int): set<Addr> {
    set a | a in PocoDe(st.ensaiados, d) && PocoDe(st.ensaiados, d)[a] > t && Utilizavel(a) && a !in st.protegidos
      && (alvo.capacidade == Direcionar ==> a.v4)
  }

  /** A domain promoted by itself claims at once exactly what its pool holds that has not expired and may enter. */
  lemma PromotionClaimsThePool(st: Estado, d: Dominio, lista: seq<Listado>, t: int, st': Estado, aj: Ajuste)
    requires Valido(st) && PromovidosEmOrdem(st.alvos, Listar(lista)) == [d] && Definir(st, lista, t, st', aj)
    requires |PocoDe(st.ensaiados, d).Keys + st.ends.Keys| <= MAX_ENDERECOS
    ensures d in Listar(lista) && Reivindicados(st'.ends, d) == Aplicaveis(st, Listar(lista)[d], d, t)
  {
    var novos := Listar(lista);
    assert d in [d] && d in Promovidos(st.alvos, novos);
    var o, pocos :| Rodada(st, novos, o, pocos) && (st', aj) == DefinirDepois(st, novos, t, o, pocos);
    PoolUntouched(st, d, novos, o, pocos);
    WalkOnlyShrinks(novos, st.ends, d);
    InactiveClaimsNothing(st, d);
    ReplayOnlyOf(st, novos, d, t, o, pocos);
    ReplayStep(novos, st.protegidos, Passagem(o, pocos), d, t, PocoDe(st.ensaiados, d).Keys + st.ends.Keys);
    AplicaveisAre(st, novos, d, t);
  }

  lemma InactiveClaimsNothing(st: Estado, d: Dominio)
    requires Valido(st) && !EhAtivo(st.alvos, d)
    ensures Reivindicados(st.ends, d) == {}
  {
    forall a | a in st.ends ensures d !in st.ends[a].dominios { assert RegistroValido(st.alvos, a, st.ends[a]); }
  }

  lemma AplicaveisAre(st: Estado, novos: Alvos, d: Dominio, t: int)
    requires d in novos
    ensures Entrando(novos, st.protegidos, d, LimparVencido(PocoDe(st.ensaiados, d), t).Keys)
         == Aplicaveis(st, novos[d], d, t)
  {
  }

  /** Its pool keeps what has not expired and is acceptable, with its deadlines: a later demotion finds it there. */
  lemma PromotionKeepsThePool(st: Estado, d: Dominio, lista: seq<Listado>, t: int, st': Estado, aj: Ajuste, a: Addr)
    requires Valido(st) && PromovidosEmOrdem(st.alvos, Listar(lista)) == [d] && Definir(st, lista, t, st', aj)
    ensures var antes, depois := PocoDe(st.ensaiados, d), PocoDe(st'.ensaiados, d);
      && (a in depois <==> a in antes && antes[a] > t && Utilizavel(a) && a !in st.protegidos)
      && (a in depois ==> depois[a] == antes[a])
  {
    var novos := Listar(lista);
    assert d in [d] && d in Promovidos(st.alvos, novos);
    var o, pocos :| Rodada(st, novos, o, pocos) && (st', aj) == DefinirDepois(st, novos, t, o, pocos);
    PoolUntouched(st, d, novos, o, pocos);
    ReplayOnlyOf(st, novos, d, t, o, pocos);
  }

  lemma ItemOfPool(vivo: Poco, t: int, i: Item)
    requires i in ItensDoPoco(vivo, EmOrdem(vivo), t)
    ensures i.addr in vivo && i.prazo == Grampear(vivo[i.addr] - t)
  {
  }

  lemma ItensEnter(novos: Alvos, protegidos: set<Addr>, o: Obra, d: Dominio, vivo: Poco, itens: seq<Item>, t: int,
                   a: Addr)
    requires d in novos && a !in o.ends && itens == ItensDoPoco(vivo, EmOrdem(vivo), t)
    requires a in AbsorverLista(novos, protegidos, o, d, itens, t).ends
    ensures a in vivo
    ensures ComoItem(novos, d, Item(a, Grampear(vivo[a] - t)), t, AbsorverLista(novos, protegidos, o, d, itens, t))
  {
    ListEnters(novos, protegidos, o, d, itens, (set i | i in itens), t);
    var i :| i in itens && i.addr == a
      && ComoItem(novos, d, i, t, AbsorverLista(novos, protegidos, o, d, itens, t));
    ItemOfPool(vivo, t, i);
    assert i == Item(a, Grampear(vivo[a] - t));
  }

  lemma PoolEnters(novos: Alvos, protegidos: set<Addr>, o: Obra, d: Dominio, poco: Poco, t: int, a: Addr)
    requires d in novos && a !in o.ends
    requires var vivo := LimparVencido(poco, t);
      a in AbsorverLista(novos, protegidos, o, d, ItensDoPoco(vivo, EmOrdem(vivo), t), t).ends
    ensures a in poco
    ensures var vivo := LimparVencido(poco, t);
      ComoItem(novos, d, Item(a, Grampear(poco[a] - t)), t,
               AbsorverLista(novos, protegidos, o, d, ItensDoPoco(vivo, EmOrdem(vivo), t), t))
  {
    var vivo := LimparVencido(poco, t);
    ItensEnter(novos, protegidos, o, d, vivo, ItensDoPoco(vivo, EmOrdem(vivo), t), t, a);
  }

  /**
   And what it brings into the index that no live domain claimed is written for the time that was left of what
   the pool had learned, within the limits.
   */
  lemma PromotionGrantsWhatIsLeft(st: Estado, d: Dominio, lista: seq<Listado>, t: int, st': Estado, aj: Ajuste, a: Addr)
    requires Valido(st) && PromovidosEmOrdem(st.alvos, Listar(lista)) == [d] && Definir(st, lista, t, st', aj)
    requires a in st'.ends && a !in EndsReconciliados(Listar(lista), st.ends)
    ensures d in Listar(lista) && a in PocoDe(st.ensaiados, d)
    ensures ComoItem(Listar(lista), d, Item(a, Grampear(PocoDe(st.ensaiados, d)[a] - t)), t, Obra(st'.ends, aj))
  {
    var novos := Listar(lista);
    assert d in [d] && d in Promovidos(st.alvos, novos);
    var o, pocos :| Rodada(st, novos, o, pocos) && (st', aj) == DefinirDepois(st, novos, t, o, pocos);
    PoolUntouched(st, d, novos, o, pocos);
    ReplayOnlyOf(st, novos, d, t, o, pocos);
    PoolEnters(novos, st.protegidos, o, d, PocoDe(st.ensaiados, d), t, a);
  }

  // ----- when not everything fits: lowest addresses first

  /** IPv4 before IPv6, and then by number. */
  predicate Abaixo(b: Addr, a: Addr) { (b.v4 && !a.v4) || (b.v4 == a.v4 && b.valor < a.valor) }

  ghost predicate TemVaga(ends: Ends, d: Dominio) {
    |ends| < MAX_ENDERECOS && |Reivindicados(ends, d)| < MAX_POR_DOMINIO
  }

  lemma RoomOnlyShrinks(alvos: Alvos, o: Obra, d: Dominio, a: Addr, prazo: int, agora: int)
    requires d in alvos && TemVaga(Absorver(alvos, o, d, a, prazo, agora).ends, d)
    ensures TemVaga(o.ends, d)
  {
    var p := Absorver(alvos, o, d, a, prazo, agora);
    AbsorverTouches(alvos, o, d, a, prazo, agora);
    SubsetSize(Reivindicados(o.ends, d), Reivindicados(p.ends, d));
    SubsetSize(o.ends.Keys, p.ends.Keys);
    MapSize(o.ends);
    MapSize(p.ends);
  }

  /** While there is still room after them, every acceptable item so far is claimed. */
  lemma {:induction false} ClaimedWhileThereIsRoom(alvos: Alvos, protegidos: set<Addr>, o: Obra, d: Dominio,
    itens: seq<Item>, agora: int)
    requires d in alvos && TemVaga(AbsorverLista(alvos, protegidos, o, d, itens, agora).ends, d)
    ensures Entrando(alvos, protegidos, d, Enderecos(itens))
         <= Reivindicados(AbsorverLista(alvos, protegidos, o, d, itens, agora).ends, d)
    decreases |itens|
  {
    if itens != [] {
      var antes, i := itens[..|itens| - 1], itens[|itens| - 1];
      assert itens == antes + [i];
      EnderecosSnoc(antes, i);
      EntrandoSnoc(alvos, protegidos, d, Enderecos(antes), i.addr);
      if Entra(alvos, protegidos, d, i.addr) {
        var p := AbsorverLista(alvos, protegidos, o, d, antes, agora);
        RoomOnlyShrinks(alvos, p, d, i.addr, i.prazo, agora);
        ClaimedWhileThereIsRoom(alvos, protegidos, o, d, antes, agora);
        OnlyThisOne(alvos, p, d, i.addr, i.prazo, agora);
        AbsorverTouches(alvos, p, d, i.addr, i.prazo, agora);
      } else {
        ClaimedWhileThereIsRoom(alvos, protegidos, o, d, antes, agora);
      }
    }
  }

  ghost predicate CadaUm(itens: seq<Item>) { forall i, k | 0 <= i < k < |itens| :: itens[i].addr != itens[k].addr }

  /** What comes after the item `j` does not bring its address in, and takes no claim away. */
  lemma {:induction false} LaterDoesNotMatter(alvos: Alvos, protegidos: set<Addr>, o: Obra, d: Dominio,
    itens: seq<Item>, agora: int, j: nat)
    requires d in alvos && j < |itens| && CadaUm(itens)
    ensures var p, q := AbsorverLista(alvos, protegidos, o, d, itens[..j + 1], agora),
                        AbsorverLista(alvos, protegidos, o, d, itens, agora);
      (itens[j].addr in q.ends ==> itens[j].addr in p.ends) && Reivindicados(p.ends, d) <= Reivindicados(q.ends, d)
    decreases |itens|
  {
    var n := |itens| - 1;
    if j < n {
      assert itens[..n][..j + 1] == itens[..j + 1];
      LaterDoesNotMatter(alvos, protegidos, o, d, itens[..n], agora, j);
      OneMoreAfter(alvos, protegidos, AbsorverLista(alvos, protegidos, o, d, itens[..n], agora), d, itens[n],
        itens[j].addr, agora);
    } else {
      assert itens[..j + 1] == itens;
    }
  }

  lemma OneMoreAfter(alvos: Alvos, protegidos: set<Addr>, p: Obra, d: Dominio, i: Item, a: Addr, agora: int)
    requires d in alvos && i.addr != a
    ensures var q := if Entra(alvos, protegidos, d, i.addr) then Absorver(alvos, p, d, i.addr, i.prazo, agora) else p;
      (a in q.ends <==> a in p.ends) && Reivindicados(p.ends, d) <= Reivindicados(q.ends, d)
  {
    AbsorverTouches(alvos, p, d, i.addr, i.prazo, agora);
  }

  /** A new address that got in found room, so every acceptable item before it is claimed. */
  lemma EarlierAreClaimed(alvos: Alvos, protegidos: set<Addr>, o: Obra, d: Dominio, itens: seq<Item>, agora: int,
                          j: nat)
    requires d in alvos && j < |itens| && CadaUm(itens) && itens[j].addr !in o.ends
    requires itens[j].addr in AbsorverLista(alvos, protegidos, o, d, itens, agora).ends
    ensures Entrando(alvos, protegidos, d, Enderecos(itens[..j]))
         <= Reivindicados(AbsorverLista(alvos, protegidos, o, d, itens, agora).ends, d)
  {
    LaterDoesNotMatter(alvos, protegidos, o, d, itens, agora, j);
    LastFoundRoom(alvos, protegidos, o, d, itens[..j], itens[j], agora, itens[..j + 1]);
  }

  lemma LastFoundRoom(alvos: Alvos, protegidos: set<Addr>, o: Obra, d: Dominio, antes: seq<Item>, i: Item, agora: int,
                      itens: seq<Item>)
    requires d in alvos && itens == antes + [i] && CadaUm(itens) && i.addr !in o.ends
    requires i.addr in AbsorverLista(alvos, protegidos, o, d, itens, agora).ends
    ensures Entrando(alvos, protegidos, d, Enderecos(antes))
         <= Reivindicados(AbsorverLista(alvos, protegidos, o, d, itens, agora).ends, d)
  {
    var p := AbsorverLista(alvos, protegidos, o, d, antes, agora);
    assert itens[..|itens| - 1] == antes && itens[|itens| - 1] == i;
    ListTouches(alvos, protegidos, o, d, antes, agora);
    NotAmong(itens, |antes|);
    assert i.addr !in p.ends;
    ClaimedWhileThereIsRoom(alvos, protegidos, o, d, antes, agora);
    AbsorverTouches(alvos, p, d, i.addr, i.prazo, agora);
  }

  lemma NotAmong(itens: seq<Item>, n: nat)
    requires n < |itens| && CadaUm(itens)
    ensures itens[n].addr !in Enderecos(itens[..n])
  {
  }

  /**
   When the pool of a promoted domain does not fit, it is the lowest addresses that enter: one that is new to the
   index gets in only if every acceptable one below it is claimed.
   */
  lemma LowestEnterFirst(st: Estado, d: Dominio, lista: seq<Listado>, t: int, st': Estado, aj: Ajuste, a: Addr, b: Addr)
    requires Valido(st) && PromovidosEmOrdem(st.alvos, Listar(lista)) == [d] && Definir(st, lista, t, st', aj)
    requires a in st'.ends && a !in EndsReconciliados(Listar(lista), st.ends)
    requires d in Listar(lista) && b in Aplicaveis(st, Listar(lista)[d], d, t) && Abaixo(b, a)
    ensures b in Reivindicados(st'.ends, d)
  {
    var novos := Listar(lista);
    assert d in [d] && d in Promovidos(st.alvos, novos);
    var o, pocos :| Rodada(st, novos, o, pocos) && (st', aj) == DefinirDepois(st, novos, t, o, pocos);
    PoolUntouched(st, d, novos, o, pocos);
    ReplayOnlyOf(st, novos, d, t, o, pocos);
    LowestOfPool(novos, st.protegidos, o, d, LimparVencido(PocoDe(st.ensaiados, d), t), t, a, b);
  }

  lemma LowestOfPool(novos: Alvos, protegidos: set<Addr>, o: Obra, d: Dominio, vivo: Poco, t: int, a: Addr, b: Addr)
    requires d in novos && a !in o.ends && b in vivo && Entra(novos, protegidos, d, b) && Abaixo(b, a)
    requires a in AbsorverLista(novos, protegidos, o, d, ItensDoPoco(vivo, EmOrdem(vivo), t), t).ends
    ensures b in Reivindicados(AbsorverLista(novos, protegidos, o, d, ItensDoPoco(vivo, EmOrdem(vivo), t), t).ends, d)
  {
    var itens := ItensDoPoco(vivo, EmOrdem(vivo), t);
    ListTouches(novos, protegidos, o, d, itens, t);
    ItemsOfPool(vivo, t);
    var i, j := PlacesInOrder(vivo, t, a, b);
    EarlierAreClaimed(novos, protegidos, o, d, itens, t, j);
  }

  lemma PlacesInOrder(vivo: Poco, t: int, a: Addr, b: Addr) returns (i: nat, j: nat)
    requires a in vivo && b in vivo && Abaixo(b, a)
    ensures var itens := ItensDoPoco(vivo, EmOrdem(vivo), t);
      CadaUm(itens) && i < j < |itens| && itens[j].addr == a && b in Enderecos(itens[..j])
  {
    var ordem, itens := EmOrdem(vivo), ItensDoPoco(vivo, EmOrdem(vivo), t);
    assert a in ordem && b in ordem;
    j :| 0 <= j < |ordem| && ordem[j] == a;
    i :| 0 <= i < |ordem| && ordem[i] == b;
    assert forall k, l | 0 <= k < l < |ordem| :: AddrLess(ordem[k], ordem[l]);
    assert itens[..j][i] == itens[i] && itens[i] in itens[..j];
  }
}
