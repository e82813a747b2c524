/** Runs of the index: any interleaving of its operations, with a ledger of confirmations. */
module IndexRuns {
  import opened Options
  import opened DomTargets
  import opened IndexInvariant
  import opened Adjustments

  datatype Passo =
    | Lista(lista: seq<Listado>, agora: int)
    | Resposta(nome: string, addrs: seq<Addr>, ttl: int, agora: int)
    | Confirma(quais: set<Addr>, agora: int)
    | Falha(quais: set<Addr>)
    | Poda(agora: int)
    | Protege(faixas: set<Addr>)

  const INICIAL := Estado(map[], map[], map[], {})

  ghost predicate Transicao(st: Estado, p: Passo, st': Estado, aj: Ajuste) {
    match p
    case Lista(lista, agora) => Definir(st, lista, agora, st', aj)
    case Resposta(nome, addrs, ttl, agora) => (st', aj) == Aprender(st, nome, addrs, ttl, agora)
    case Confirma(addrs, agora) => st' == st.(ends := ConfirmarEnds(st.ends, addrs, agora)) && aj == VAZIO
    case Falha(addrs) => st' == st.(ends := NaoConfirmadoEnds(st.ends, addrs)) && aj == VAZIO
    case Poda(agora) => st' == Podar(st, agora) && aj == VAZIO
    case Protege(faixas) => st' == st.(protegidos := faixas) && aj == VAZIO
  }

  /** A run, newest step last. */
  datatype Historia = Inicio | Depois(antes: Historia, passo: Passo, aj: Ajuste, st: Estado)

  ghost function Atual(h: Historia): Estado {
    if h.Inicio? then INICIAL else h.st
  }

  ghost predicate Execucao(h: Historia) {
    h.Depois? ==> Execucao(h.antes) && Transicao(Atual(h.antes), h.passo, h.st, h.aj)
  }

  /**
   For each address: where the last confirmation since it entered the index put it. A step
   forgets an address that leaves; the walk of DefinirAlvos may let one leave that its own
   replay takes in again, and that one has left too.
   */
  ghost function Livro(h: Historia): map<Addr, Lugar> {
    if h.Inicio? then map[]
    else
      var livro, ends := Livro(h.antes), Atual(h.antes).ends;
      match h.passo
      case Lista(lista, _) => map a | a in livro && a in EndsReconciliados(Listar(lista), ends) :: livro[a]
      case Confirma(addrs, _) => livro + map a | a in ends && a in addrs && ends[a].pendente.Some? ::
        ends[a].pendente.value.lugar
      case _ => map a | a in livro && a in h.st.ends :: livro[a]
  }

  ghost predicate LivroFiel(livro: map<Addr, Lugar>, ends: Ends) {
    forall a :: EscritoEm(ends, a) == if a in livro then Some(livro[a]) else None
  }

  /** Absorbing keeps every entry and where it was written; a new entry is written nowhere. */
  ghost predicate EscritosMantidos(antes: Ends, depois: Ends) {
    && antes.Keys <= depois.Keys
    && (forall a | a in depois :: depois[a].escrito == EscritoEm(antes, a))
  }

  lemma {:induction false} ListaMantemEscritos(alvos: Alvos, protegidos: set<Addr>, o: Obra, d: Dominio,
    itens: seq<Item>, agora: int)
    requires d in alvos
    ensures EscritosMantidos(o.ends, AbsorverLista(alvos, protegidos, o, d, itens, agora).ends)
    decreases |itens|
  {
    if itens != [] { ListaMantemEscritos(alvos, protegidos, o, d, itens[..|itens| - 1], agora); }
  }

  lemma {:induction false} ReplayMantemEscritos(novos: Alvos, protegidos: set<Addr>, p: Passagem,
    promovidos: seq<Dominio>, agora: int)
    requires forall d | d in promovidos :: d in novos
    ensures EscritosMantidos(p.o.ends, ReplayTodos(novos, protegidos, p, promovidos, agora).o.ends)
    decreases |promovidos|
  {
    if promovidos != [] {
      var n := |promovidos| - 1;
      ReplayMantemEscritos(novos, protegidos, p, promovidos[..n], agora);
      var q := ReplayTodos(novos, protegidos, p, promovidos[..n], agora);
      var d := promovidos[n];
      assert d in promovidos;
      var vivo := LimparVencido(PocoDe(q.pocos, d), agora);
      ListaMantemEscritos(novos, protegidos, q.o, d, ItensDoPoco(vivo, EmOrdem(vivo), agora), agora);
    }
  }

  lemma DefinirMantemEscritos(st: Estado, lista: seq<Listado>, agora: int, st': Estado, aj: Ajuste)
    requires Definir(st, lista, agora, st', aj)
    ensures EscritosMantidos(EndsReconciliados(Listar(lista), st.ends), st'.ends)
  {
    var novos := Listar(lista);
    var o, pocos :| Rodada(st, novos, o, pocos) && (st', aj) == DefinirDepois(st, novos, agora, o, pocos);
    ReplayMantemEscritos(novos, st.protegidos, Passagem(o, pocos), PromovidosEmOrdem(st.alvos, novos), agora);
  }

  lemma AprenderMantemEscritos(st: Estado, nome: string, addrs: seq<Addr>, ttl: int, agora: int)
    ensures EscritosMantidos(st.ends, Aprender(st, nome, addrs, ttl, agora).0.ends)
  {
    var c := CasarEm(st.alvos, nome);
    if c.Some? && EhAtivo(st.alvos, c.value) {
      ListaMantemEscritos(st.alvos, st.protegidos, Obra(st.ends, VAZIO), c.value, Itens(addrs, Grampear(ttl)), agora);
    }
  }

  lemma StepKeepsTheIndex(st: Estado, p: Passo, st': Estado, aj: Ajuste)
    requires Valido(st) && Transicao(st, p, st', aj)
    ensures Valido(st')
  {
    match p {
      case Lista(lista, agora) => DefinirKeeps(st, lista, agora, st', aj);
      case Resposta(nome, addrs, ttl, agora) => AprenderKeeps(st, nome, addrs, ttl, agora);
      case Confirma(addrs, agora) => ConfirmarKeeps(st.alvos, st.ends, addrs, agora);
      case Falha(addrs) => NaoConfirmadoKeeps(st.alvos, st.ends, addrs);
      case Poda(agora) => PodarKeeps(st, agora);
      case Protege(_) =>
    }
  }

  lemma StepKeepsTheLedger(h: Historia)
    requires h.Depois? && Transicao(Atual(h.antes), h.passo, h.st, h.aj)
    requires LivroFiel(Livro(h.antes), Atual(h.antes).ends)
    ensures LivroFiel(Livro(h), h.st.ends)
  {
    var st, livro := Atual(h.antes), Livro(h.antes);
    match h.passo {
      case Lista(lista, agora) => LedgerAfterList(st, livro, lista, agora, h.st, h.aj);
      case Resposta(nome, addrs, ttl, agora) =>
        AprenderMantemEscritos(st, nome, addrs, ttl, agora);
        LedgerAfterLearning(st.ends, livro, h.st.ends);
      case _ =>
    }
  }

  lemma LedgerAfterLearning(ends: Ends, livro: map<Addr, Lugar>, depois: Ends)
    requires LivroFiel(livro, ends) && EscritosMantidos(ends, depois)
    ensures LivroFiel(map a | a in livro && a in depois :: livro[a], depois)
  {
    forall a ensures EscritoEm(depois, a) == if a in livro && a in depois then Some(livro[a]) else None {
      assert EscritoEm(ends, a) == if a in livro then Some(livro[a]) else None;
    }
  }

  lemma LedgerAfterList(st: Estado, livro: map<Addr, Lugar>, lista: seq<Listado>, agora: int, st': Estado, aj: Ajuste)
    requires LivroFiel(livro, st.ends) && Definir(st, lista, agora, st', aj)
    ensures LivroFiel(map a | a in livro && a in EndsReconciliados(Listar(lista), st.ends) :: livro[a], st'.ends)
  {
    DefinirMantemEscritos(st, lista, agora, st', aj);
    var meio := EndsReconciliados(Listar(lista), st.ends);
    forall a ensures EscritoEm(st'.ends, a) == if a in livro && a in meio then Some(livro[a]) else None {
      assert EscritoEm(st.ends, a) == if a in livro then Some(livro[a]) else None;
    }
  }

  /** The invariant holds in every reachable state, and the ledger and the index agree. */
  lemma {:induction false} EveryRunKeepsTheIndex(h: Historia)
    requires Execucao(h)
    ensures Valido(Atual(h)) && LivroFiel(Livro(h), Atual(h).ends)
  {
    if h.Inicio? {
      assert forall d :: Reivindicados(INICIAL.ends, d) == {};
    } else {
      EveryRunKeepsTheIndex(h.antes);
      StepKeepsTheIndex(Atual(h.antes), h.passo, h.st, h.aj);
      StepKeepsTheLedger(h);
    }
  }

  /** What a consistent adjustment may ask for, told by the ledger alone. */
  ghost predicate AjusteFiel(livro: map<Addr, Lugar>, aj: Ajuste) {
    && SemRepeticao(aj)
    && (forall m | m in aj.remocoes :: m.addr in livro && livro[m.addr].cap == m.cap)
    && (forall e | e in aj.escritas && e.substituir ::
         e.addr in livro && livro[e.addr] == e.lugar && !Remove(aj, e.addr))
    && (forall e | e in aj.escritas && !e.substituir && e.addr in livro :: Remove(aj, e.addr))
  }

  /**
   From any reachable state: at most one write and one removal per address, and every removal
   or replacement targets an address confirmed since it entered the index, in the structure
   it was last confirmed in.
   */
  lemma EveryAdjustmentIsFaithful(h: Historia)
    requires Execucao(h) && h.Depois?
    ensures AjusteFiel(Livro(h.antes), h.aj)
  {
    EveryRunKeepsTheIndex(h.antes);
    var st := Atual(h.antes);
    var o := Obra(h.st.ends, h.aj);
    if h.aj != VAZIO {
      if h.passo.Lista? {
        DefinirCoerente(st, h.passo.lista, h.passo.agora, h.st, h.aj);
      } else {
        AprenderCoerente(st, h.passo.nome, h.passo.addrs, h.passo.ttl, h.passo.agora);
      }
      assert Coerente(st.ends, h.passo.agora, o);
      forall e | e in h.aj.escritas ensures EscritaCoerente(st.ends, h.passo.agora, o, e) {}
      forall m | m in h.aj.remocoes ensures RemocaoCoerente(st.ends, o, m) {}
    }
  }
}
