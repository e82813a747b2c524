/** The feeder of `internal/domtargets/servico.go`: it coalesces adjustments, builds batches and reports back. */
module Feeder {
  import opened Options
  import opened Order
  import opened DomTargets
  import opened Index
  import opened Kernel

  datatype Chave = Chave(addr: Addr, capa: Capacidade)
  datatype RemocaoPend = RemocaoPend(rem: Remocao, tentativas: nat)
  type PendEscritas = map<Chave, Escrita>
  type PendRemocoes = map<Chave, RemocaoPend>

  const MAX_TENTATIVAS := 2

  datatype LoteEmVoo = LoteEmVoo(lote: Lote, adicoes: seq<Addr>, remocoes: map<Addr, RemocaoPend>)

  function ChaveDe(e: Escrita): Chave { Chave(e.addr, e.lugar.cap) }
  function ChaveDaRemocao(m: Remocao): Chave { Chave(m.addr, m.cap) }

  ghost predicate Chaveadas(pe: PendEscritas, pr: PendRemocoes) {
    && (forall k | k in pe :: k == ChaveDe(pe[k]))
    && (forall k | k in pr :: k == ChaveDaRemocao(pr[k].rem) && pr[k].tentativas < MAX_TENTATIVAS)
  }

  function AcumularEscritas(pe: PendEscritas, es: seq<Escrita>): PendEscritas
    decreases |es|
  {
    if es == [] then pe
    else AcumularEscritas(pe, es[..|es| - 1])[ChaveDe(es[|es| - 1]) := es[|es| - 1]]
  }

  function ComRemocao(pr: PendRemocoes, m: Remocao): PendRemocoes {
    var k := ChaveDaRemocao(m);
    pr[k := RemocaoPend(m, if k in pr then pr[k].tentativas else 0)]
  }

  function AcumularRemocoes(pr: PendRemocoes, rs: seq<Remocao>): PendRemocoes
    decreases |rs|
  {
    if rs == [] then pr else ComRemocao(AcumularRemocoes(pr, rs[..|rs| - 1]), rs[|rs| - 1])
  }

  /** By address, then by the name of the capability ("barrar" < "direcionar"). */
  predicate ChaveLess(x: Chave, y: Chave) {
    AddrLess(x.addr, y.addr) || (x.addr == y.addr && x.capa == Barrar && y.capa == Direcionar)
  }

  predicate EscritaLess(x: Escrita, y: Escrita) { ChaveLess(ChaveDe(x), ChaveDe(y)) }
  predicate RemocaoLess(x: Remocao, y: Remocao) { ChaveLess(ChaveDaRemocao(x), ChaveDaRemocao(y)) }

  /** The batch entries of the writes that go to one structure, in order. */
  function Entradas(s: Estrutura, es: seq<Escrita>): seq<Entrada>
    decreases |es|
  {
    if es == [] then []
    else
      var e := es[|es| - 1];
      Entradas(s, es[..|es| - 1]) +
      (if EstruturaDe(e.addr, e.lugar.cap) == Some(s) then [Entrada(e.addr, e.prazo, e.lugar.marca)] else [])
  }

  lemma {:induction false} EntradasAre(s: Estrutura, es: seq<Escrita>)
    ensures forall x :: x in Entradas(s, es) <==> EhEntrada(s, es, x)
    decreases |es|
  {
    if es != [] {
      var n := |es| - 1;
      EntradasAre(s, es[..n]);
      assert es == es[..n] + [es[n]];
      forall x ensures x in Entradas(s, es) <==> EhEntrada(s, es, x) {
        assert x in Entradas(s, es[..n]) <==> EhEntrada(s, es[..n], x);
      }
    }
  }

  ghost predicate SemChaveRepetida(es: seq<Escrita>) {
    forall i, j | 0 <= i < j < |es| :: ChaveDe(es[i]) != ChaveDe(es[j])
  }

  lemma {:induction false} EntradasDistinct(s: Estrutura, es: seq<Escrita>)
    requires SemChaveRepetida(es)
    ensures forall i, j | 0 <= i < j < |Entradas(s, es)| :: Entradas(s, es)[i].addr != Entradas(s, es)[j].addr
    decreases |es|
  {
    if es != [] {
      var n := |es| - 1;
      EntradasDistinct(s, es[..n]);
      EntradasAre(s, es[..n]);
      var antes := Entradas(s, es[..n]);
      forall i | 0 <= i < |antes| && EstruturaDe(es[n].addr, es[n].lugar.cap) == Some(s)
        ensures antes[i].addr != es[n].addr
      {
        assert EhEntrada(s, es[..n], antes[i]);
      }
    }
  }

  ghost predicate Montado(l: Lote, es: seq<Escrita>, rs: seq<Remocao>) {
    forall s ::
      && Adicionar(l, s) == Entradas(s, es)
      && (forall a :: a in Remover(l, s) <==> ARemover(s, es, rs, a))
      && (forall i, j | 0 <= i < j < |Remover(l, s)| :: AddrLess(Remover(l, s)[i], Remover(l, s)[j]))
  }

  lemma BuiltBatch(l: Lote, es: seq<Escrita>, rs: seq<Remocao>)
    requires Montado(l, es, rs) && SemChaveRepetida(es)
    ensures EhLote(l, es, rs)
  {
    forall s
      ensures forall x :: x in Adicionar(l, s) <==> EhEntrada(s, es, x)
      ensures forall a :: a in Remover(l, s) <==> ARemover(s, es, rs, a)
      ensures SemDuplicata(l, s)
    {
      assert Adicionar(l, s) == Entradas(s, es);
      EntradasAre(s, es);
      EntradasDistinct(s, es);
    }
  }

  /** Separates IPv4 from IPv6 and blocking from routing; a delete is asked for once. */
  method MarcarRemocoes(remocoes: seq<Remocao>) returns (bloq: set<Addr>, bloq6: set<Addr>, wan: set<Addr>)
    ensures forall s, a :: a in De(s, bloq, bloq6, wan) <==> ARemover(s, [], remocoes, a)
  {
    bloq, bloq6, wan := {}, {}, {};
    for i := 0 to |remocoes|
      invariant forall s, a :: a in De(s, bloq, bloq6, wan) <==> ARemover(s, [], remocoes[..i], a)
    {
      var m := remocoes[i];
      assert remocoes[..i + 1] == remocoes[..i] + [m];
      bloq, bloq6, wan := Marcar(m.addr, m.cap, bloq, bloq6, wan);
    }
    assert remocoes[..|remocoes|] == remocoes;
  }

  method MontarLote(escritas: seq<Escrita>, remocoes: seq<Remocao>) returns (l: Lote)
    ensures Montado(l, escritas, remocoes)
  {
    var bloq, bloq6, wan := MarcarRemocoes(remocoes);
    var addBloq, addBloq6, addWan := [], [], [];
    for i := 0 to |escritas|
      invariant forall s, a :: a in De(s, bloq, bloq6, wan) <==> ARemover(s, escritas[..i], remocoes, a)
      invariant addBloq == Entradas(Bloq, escritas[..i]) && addBloq6 == Entradas(Bloq6, escritas[..i])
      invariant addWan == Entradas(Wan, escritas[..i])
    {
      var e := escritas[i];
      assert escritas[..i + 1] == escritas[..i] + [e];
      if e.substituir {
        bloq, bloq6, wan := Marcar(e.addr, e.lugar.cap, bloq, bloq6, wan);
      }
      var x := Entrada(e.addr, e.prazo, e.lugar.marca);
      match EstruturaDe(e.addr, e.lugar.cap) {
        case Some(Wan) => addWan := addWan + [x];
        case None =>
        case Some(Bloq) => addBloq := addBloq + [x];
        case Some(Bloq6) => addBloq6 := addBloq6 + [x];
      }
    }
    assert escritas[..|escritas|] == escritas;
    var r4, r6, rw := Ordenadas(bloq, bloq6, wan);
    l := Lote(r4, r6, rw, addBloq, addBloq6, addWan);
    Assembled(l, escritas, remocoes, bloq, bloq6, wan);
  }

  method Ordenadas(bloq: set<Addr>, bloq6: set<Addr>, wan: set<Addr>)
    returns (r4: seq<Addr>, r6: seq<Addr>, rw: seq<Addr>)
    ensures SortedOf(r4, bloq, AddrLess) && SortedOf(r6, bloq6, AddrLess) && SortedOf(rw, wan, AddrLess)
  {
    AddrTotalOn(bloq);
    AddrTotalOn(bloq6);
    AddrTotalOn(wan);
    r4 := Sort(bloq, AddrLess);
    r6 := Sort(bloq6, AddrLess);
    rw := Sort(wan, AddrLess);
  }

  lemma Assembled(l: Lote, es: seq<Escrita>, rs: seq<Remocao>, bloq: set<Addr>, bloq6: set<Addr>, wan: set<Addr>)
    requires forall s, a :: a in De(s, bloq, bloq6, wan) <==> ARemover(s, es, rs, a)
    requires forall s :: SortedOf(Remover(l, s), De(s, bloq, bloq6, wan), AddrLess)
    requires forall s :: Adicionar(l, s) == Entradas(s, es)
    ensures Montado(l, es, rs)
  {
  }

  function De(s: Estrutura, bloq: set<Addr>, bloq6: set<Addr>, wan: set<Addr>): set<Addr> {
    match s case Bloq => bloq case Bloq6 => bloq6 case Wan => wan
  }

  method Marcar(a: Addr, c: Capacidade, bloq: set<Addr>, bloq6: set<Addr>, wan: set<Addr>)
    returns (b: set<Addr>, b6: set<Addr>, w: set<Addr>)
    ensures forall s :: De(s, b, b6, w) == De(s, bloq, bloq6, wan) + if EstruturaDe(a, c) == Some(s) then {a} else {}
  {
    b, b6, w := bloq, bloq6, wan;
    match EstruturaDe(a, c) {
      case Some(Wan) => w := wan + {a};
      case None =>
      case Some(Bloq) => b := bloq + {a};
      case Some(Bloq6) => b6 := bloq6 + {a};
    }
  }

  // ----- coalescing

  lemma {:induction false} WritesStayKeyed(pe: PendEscritas, es: seq<Escrita>)
    requires forall k | k in pe :: k == ChaveDe(pe[k])
    ensures forall k | k in AcumularEscritas(pe, es) :: k == ChaveDe(AcumularEscritas(pe, es)[k])
    decreases |es|
  {
    if es != [] { WritesStayKeyed(pe, es[..|es| - 1]); }
  }

  lemma {:induction false} AccumulatedWrites(es: seq<Escrita>)
    requires SemChaveRepetida(es)
    ensures forall e :: e in AcumularEscritas(map[], es).Values <==> e in es
    decreases |es|
  {
    if es != [] {
      var antes, u := es[..|es| - 1], es[|es| - 1];
      assert es == antes + [u];
      AccumulatedWrites(antes);
      WritesStayKeyed(map[], antes);
      var q := AcumularEscritas(map[], antes);
      forall e | e in antes ensures ChaveDe(e) != ChaveDe(u) {
        var i :| 0 <= i < |antes| && antes[i] == e;
        assert ChaveDe(es[i]) != ChaveDe(es[|antes|]);
      }
      NewKey(q, u);
    }
  }

  lemma NewKey(q: PendEscritas, u: Escrita)
    requires (forall k | k in q :: k == ChaveDe(q[k])) && forall e | e in q.Values :: ChaveDe(e) != ChaveDe(u)
    ensures q[ChaveDe(u) := u].Values == q.Values + {u}
  {
    var p := q[ChaveDe(u) := u];
    forall e ensures e in p.Values <==> e in q.Values || e == u {
      if e in q.Values {
        var k :| k in q && q[k] == e;
        assert p[k] == e;
      }
      assert p[ChaveDe(u)] == u;
    }
  }

  ghost function Remocoes(pr: PendRemocoes): set<Remocao> { set k | k in pr :: pr[k].rem }

  lemma {:induction false} AccumulatedRemovals(pr: PendRemocoes, rs: seq<Remocao>)
    requires forall k | k in pr :: k == ChaveDaRemocao(pr[k].rem) && pr[k].tentativas < MAX_TENTATIVAS
    ensures var p := AcumularRemocoes(pr, rs);
            forall k | k in p :: k == ChaveDaRemocao(p[k].rem) && p[k].tentativas < MAX_TENTATIVAS
    ensures Remocoes(AcumularRemocoes(pr, rs)) == Remocoes(pr) + set m | m in rs
    decreases |rs|
  {
    if rs != [] {
      var n := |rs| - 1;
      AccumulatedRemovals(pr, rs[..n]);
      var q := AcumularRemocoes(pr, rs[..n]);
      var p := ComRemocao(q, rs[n]);
      assert rs == rs[..n] + [rs[n]];
      assert p[ChaveDaRemocao(rs[n])].rem == rs[n];
      forall m ensures m in Remocoes(p) <==> m in Remocoes(q) || m == rs[n] {
        if m in Remocoes(q) {
          var k :| k in q && q[k].rem == m;
          assert k in p && p[k].rem == m;
        }
      }
    }
  }

  lemma PendingAreOrdered(pe: PendEscritas, pr: PendRemocoes)
    requires Chaveadas(pe, pr)
    ensures TotalOn(pe.Values, EscritaLess) && TotalOn(Remocoes(pr), RemocaoLess)
  {
  }

  lemma SortedHasNoRepeatedKey(q: seq<Escrita>, s: set<Escrita>)
    requires SortedOf(q, s, EscritaLess)
    ensures SemChaveRepetida(q)
  {
    forall i, j | 0 <= i < j < |q| ensures ChaveDe(q[i]) != ChaveDe(q[j]) { assert EscritaLess(q[i], q[j]); }
  }

  ghost function Respondido(ends: Ends, adicoes: set<Addr>, res: Resultado, agora: int): Ends {
    if res.Erro? then NaoConfirmadoEnds(ends, adicoes)
    else if Completo(res) then ConfirmarEnds(ends, adicoes, agora)
    else ConfirmarEnds(NaoConfirmadoEnds(ends, Conjunto(res.naoConfirmados)), adicoes - Conjunto(res.naoConfirmados),
      agora)
  }

  /** Whatever the kernel answered, no address of the batch is left waiting for an answer. */
  lemma EveryAdditionIsAnswered(ends: Ends, adicoes: set<Addr>, res: Resultado, agora: int)
    ensures var depois := Respondido(ends, adicoes, res, agora);
            forall a | a in adicoes && a in depois :: depois[a].pendente.None?
  {
  }

  /** `l` is the batch of everything pending. */
  ghost predicate LoteDe(l: Lote, pe: PendEscritas, pr: PendRemocoes) {
    forall es: seq<Escrita>, rs: seq<Remocao> ::
      (forall e :: e in es <==> e in pe.Values) && (forall m :: m in rs <==> m in Remocoes(pr)) ==> EhLote(l, es, rs)
  }

  lemma OneBatchOfAll(l: Lote, pe: PendEscritas, pr: PendRemocoes, es: seq<Escrita>, rs: seq<Remocao>)
    requires (forall e :: e in es <==> e in pe.Values) && (forall m :: m in rs <==> m in Remocoes(pr))
        && EhLote(l, es, rs)
    ensures LoteDe(l, pe, pr)
  {
    forall fs: seq<Escrita>, ts: seq<Remocao> |
      (forall e :: e in fs <==> e in pe.Values) && (forall m :: m in ts <==> m in Remocoes(pr))
      ensures EhLote(l, fs, ts)
    {
      BatchOfSameSets(l, es, rs, fs, ts);
    }
  }

  /** The removals by address: one of those pending for it. */
  ghost predicate PorAddr(m: map<Addr, RemocaoPend>, pr: PendRemocoes) {
    && (forall a :: a in m <==> exists k :: k in pr && pr[k].rem.addr == a)
    && (forall a | a in m :: exists k :: k in pr && pr[k] == m[a] && m[a].rem.addr == a)
  }

  /** Nothing of this has a structure to go to or to leave. */
  ghost predicate SemEstrutura(pe: PendEscritas, pr: PendRemocoes) {
    && (forall k | k in pe :: EstruturaDe(k.addr, k.capa).None?)
    && (forall k | k in pr :: EstruturaDe(k.addr, k.capa).None?)
  }


  class Alimentador {
    const idx: Indice
    var pendEscritas: PendEscritas
    var pendRemocoes: PendRemocoes
    var desistidas: nat

    ghost predicate Valid()
      reads this
    {
      Chaveadas(pendEscritas, pendRemocoes)
    }

    constructor (idx: Indice)
      ensures Valid() && this.idx == idx && pendEscritas == map[] && pendRemocoes == map[] && desistidas == 0
    {
      this.idx := idx;
      pendEscritas, pendRemocoes, desistidas := map[], map[], 0;
    }

    method Acumular(es: seq<Escrita>, rs: seq<Remocao>)
      requires Valid()
      modifies this`pendEscritas, this`pendRemocoes
      ensures Valid()
      ensures pendEscritas == AcumularEscritas(old(pendEscritas), es)
      ensures pendRemocoes == AcumularRemocoes(old(pendRemocoes), rs)
    {
      WritesStayKeyed(pendEscritas, es);
      AccumulatedRemovals(pendRemocoes, rs);
      for i := 0 to |rs|
        invariant pendRemocoes == AcumularRemocoes(old(pendRemocoes), rs[..i]) && pendEscritas == old(pendEscritas)
      {
        assert rs[..i + 1][..i] == rs[..i];
        var k := ChaveDaRemocao(rs[i]);
        var p := if k in pendRemocoes then pendRemocoes[k] else RemocaoPend(rs[i], 0);
        pendRemocoes := pendRemocoes[k := p.(rem := rs[i])];
      }
      assert rs[..|rs|] == rs;
      for i := 0 to |es|
        invariant pendEscritas == AcumularEscritas(old(pendEscritas), es[..i])
        invariant pendRemocoes == AcumularRemocoes(old(pendRemocoes), rs)
      {
        assert es[..i + 1][..i] == es[..i];
        pendEscritas := pendEscritas[ChaveDe(es[i]) := es[i]];
      }
      assert es[..|es|] == es;
    }

    /** The batch of everything pending, written in a stable order. */
    method Montar() returns (l: Lote, ghost es: seq<Escrita>, ghost rs: seq<Remocao>)
      requires Valid()
      ensures (forall e :: e in es <==> e in pendEscritas.Values)
          && (forall m :: m in rs <==> m in Remocoes(pendRemocoes))
      ensures Montado(l, es, rs) && EhLote(l, es, rs)
      ensures LoteDe(l, pendEscritas, pendRemocoes)
    {
      PendingAreOrdered(pendEscritas, pendRemocoes);
      var escritas := Sort(pendEscritas.Values, EscritaLess);
      var remocoes := Sort(set k | k in pendRemocoes :: pendRemocoes[k].rem, RemocaoLess);
      l := MontarLote(escritas, remocoes);
      SortedHasNoRepeatedKey(escritas, pendEscritas.Values);
      BuiltBatch(l, escritas, remocoes);
      es, rs := escritas, remocoes;
      OneBatchOfAll(l, pendEscritas, pendRemocoes, es, rs);
    }

    /**
     Hands the batch to the writer. While the writer is busy everything stays pending; a
     batch with nothing in it is dropped.
     */
    method Descarregar(ocupada: bool) returns (v: Option<LoteEmVoo>)
      requires Valid()
      modifies this`pendEscritas, this`pendRemocoes
      ensures Valid()
      ensures v.Some? ==> !ocupada && pendEscritas == map[] && pendRemocoes == map[]
      ensures v.Some? ==> LoteDe(v.value.lote, old(pendEscritas), old(pendRemocoes))
      ensures v.Some? ==> Conjunto(v.value.adicoes) == AdicoesDoLote(v.value.lote)
      ensures v.Some? ==> PorAddr(v.value.remocoes, old(pendRemocoes))
      ensures v.None? ==>
                || (pendEscritas == old(pendEscritas) && pendRemocoes == old(pendRemocoes)
                    && (ocupada || (pendEscritas == map[] && pendRemocoes == map[])))
                || (pendEscritas == map[] && pendRemocoes == map[]
                  && SemEstrutura(old(pendEscritas), old(pendRemocoes)))
    {
      if |pendEscritas| == 0 && |pendRemocoes| == 0 { return None; }
      ghost var es, rs;
      var l;
      l, es, rs := Montar();
      if l == Lote([], [], [], [], [], []) {
        NothingToDelete(pendRemocoes, l, es, rs);
        NothingToAdd(pendEscritas, l, es, rs);
        pendEscritas, pendRemocoes := map[], map[];
        return None;
      }
      if ocupada { return None; }
      var adicoes := Enderecos(l.adicionarBloq) + Enderecos(l.adicionarBloq6) + Enderecos(l.adicionarWan);
      AddressesOfBatch(l);
      var porAddr := PorEndereco(pendRemocoes);
      v := Some(LoteEmVoo(l, adicoes, porAddr));
      pendEscritas, pendRemocoes := map[], map[];
    }

    /** Puts back what a retry left behind, and gives up at the second attempt. */
    method RecolocarRemocao(p: RemocaoPend)
      requires Valid()
      modifies this`pendRemocoes, this`desistidas
      ensures Valid()
      ensures pendRemocoes == Recolocada(old(pendRemocoes), p)
      ensures desistidas == old(desistidas) + if Desiste(p) then 1 else 0
    {
      var k := ChaveDaRemocao(p.rem);
      var q := p.(tentativas := p.tentativas + 1);
      if q.tentativas >= MAX_TENTATIVAS {
        desistidas := desistidas + 1;
        pendRemocoes := pendRemocoes - {k};
      } else {
        pendRemocoes := pendRemocoes[k := q];
      }
    }

    /** Removals on their way back: into the queue when there is room for them, or given up. */
    method Devolver(ps: seq<RemocaoPend>, coube: bool)
      requires Valid()
      modifies this`pendRemocoes, this`desistidas
      ensures Valid()
      ensures pendRemocoes == if coube then Recolocadas(old(pendRemocoes), ps) else old(pendRemocoes)
      ensures desistidas == old(desistidas) + if coube then |Desistem(ps)| else |ps|
    {
      if !coube {
        desistidas := desistidas + |ps|;
        return;
      }
      for i := 0 to |ps|
        invariant Valid()
        invariant pendRemocoes == Recolocadas(old(pendRemocoes), ps[..i])
        invariant desistidas == old(desistidas) + |Desistem(ps[..i])|
      {
        assert ps[..i + 1][..i] == ps[..i];
        RecolocarRemocao(ps[i]);
      }
      assert ps[..|ps|] == ps;
    }

    /** Tells the index what the kernel in fact received; what was not deleted is on its way back. */
    method Aplicar(v: LoteEmVoo, res: Resultado, agora: int) returns (voltam: seq<RemocaoPend>)
      requires idx.Valid()
      modifies idx
      ensures idx.Valid()
      ensures idx.Valor() == old(idx.Valor()).(ends := Respondido(old(idx.ends), Conjunto(v.adicoes), res, agora))
      ensures forall p :: p in voltam <==> Volta(v.remocoes, res, p)
    {
      voltam := [];
      if res.Erro? {
        var _ := idx.NaoConfirmado(v.adicoes);
        voltam := TodasRemocoes(v.remocoes);
        return;
      }
      if Completo(res) {
        idx.Confirmar(v.adicoes, agora);
        return;
      }
      var _ := idx.NaoConfirmado(res.naoConfirmados);
      var resto := Exceto(v.adicoes, res.naoConfirmados);
      idx.Confirmar(resto, agora);
      voltam := RemocoesDe(v.remocoes, res.perdidas);
    }
  }

  predicate Desiste(p: RemocaoPend) { p.tentativas + 1 >= MAX_TENTATIVAS }

  function Recolocada(pr: PendRemocoes, p: RemocaoPend): PendRemocoes {
    var k := ChaveDaRemocao(p.rem);
    if Desiste(p) then pr - {k} else pr[k := p.(tentativas := p.tentativas + 1)]
  }

  function Recolocadas(pr: PendRemocoes, ps: seq<RemocaoPend>): PendRemocoes
    decreases |ps|
  {
    if ps == [] then pr else Recolocada(Recolocadas(pr, ps[..|ps| - 1]), ps[|ps| - 1])
  }

  function Desistem(ps: seq<RemocaoPend>): seq<RemocaoPend>
    decreases |ps|
  {
    if ps == [] then []
    else Desistem(ps[..|ps| - 1]) + if Desiste(ps[|ps| - 1]) then [ps[|ps| - 1]] else []
  }

  /** What is given up is exactly what has failed before. */
  lemma {:induction false} GivenUpAtTheSecondFailure(ps: seq<RemocaoPend>)
    ensures forall p :: p in Desistem(ps) <==> p in ps && p.tentativas >= 1
    ensures (forall p | p in ps :: p.tentativas >= 1) ==> Desistem(ps) == ps
    decreases |ps|
  {
    if ps != [] {
      var n := |ps| - 1;
      GivenUpAtTheSecondFailure(ps[..n]);
      assert ps == ps[..n] + [ps[n]];
    }
  }

  /** Asking again for a removal that is queued keeps its failures; a new one has none. */
  lemma {:induction false} FailuresAreKept(pr: PendRemocoes, rs: seq<Remocao>, k: Chave)
    ensures k in AcumularRemocoes(pr, rs) <==> k in pr || exists m :: m in rs && ChaveDaRemocao(m) == k
    ensures k in AcumularRemocoes(pr, rs) ==>
              AcumularRemocoes(pr, rs)[k].tentativas == if k in pr then pr[k].tentativas else 0
    decreases |rs|
  {
    if rs != [] {
      var n := |rs| - 1;
      FailuresAreKept(pr, rs[..n], k);
      assert rs == rs[..n] + [rs[n]];
    }
  }

  /** Pending removals that the answer leaves undone and that the feeder still knows of. */
  predicate Volta(m: map<Addr, RemocaoPend>, res: Resultado, p: RemocaoPend) {
    p in m.Values && (res.Erro? || (!Completo(res) && exists a :: a in res.perdidas && a in m && m[a] == p))
  }

  method TodasRemocoes(m: map<Addr, RemocaoPend>) returns (ps: seq<RemocaoPend>)
    ensures forall p :: p in ps <==> p in m.Values
  {
    ps := [];
    var faltam := m.Keys;
    while faltam != {}
      invariant faltam <= m.Keys
      invariant forall p :: p in ps <==> exists a :: a in m && a !in faltam && m[a] == p
      decreases |faltam|
    {
      var a :| a in faltam;
      faltam := faltam - {a};
      ps := ps + [m[a]];
    }
  }

  method RemocoesDe(m: map<Addr, RemocaoPend>, addrs: seq<Addr>) returns (ps: seq<RemocaoPend>)
    ensures forall p :: p in ps <==> exists a :: a in addrs && a in m && m[a] == p
  {
    ps := [];
    for i := 0 to |addrs|
      invariant forall p :: p in ps <==> exists a :: a in addrs[..i] && a in m && m[a] == p
    {
      assert addrs[..i + 1] == addrs[..i] + [addrs[i]];
      if addrs[i] in m { ps := ps + [m[addrs[i]]]; }
    }
    assert addrs[..|addrs|] == addrs;
  }

  function Enderecos(es: seq<Entrada>): seq<Addr> { seq(|es|, i requires 0 <= i < |es| => es[i].addr) }

  lemma AddressesOf(es: seq<Entrada>)
    ensures Conjunto(Enderecos(es)) == set x | x in es :: x.addr
  {
    forall a | a in (set x | x in es :: x.addr) ensures a in Enderecos(es) {
      var i :| 0 <= i < |es| && es[i].addr == a;
      assert Enderecos(es)[i] == a;
    }
  }

  lemma AddressesOfBatch(l: Lote)
    ensures Conjunto(Enderecos(l.adicionarBloq) + Enderecos(l.adicionarBloq6)
        + Enderecos(l.adicionarWan)) == AdicoesDoLote(l)
  {
    AddressesOf(l.adicionarBloq); AddressesOf(l.adicionarBloq6); AddressesOf(l.adicionarWan);
    assert forall a ::
      a in Conjunto(Enderecos(l.adicionarBloq) + Enderecos(l.adicionarBloq6) + Enderecos(l.adicionarWan)) <==>
                       a in Conjunto(Enderecos(l.adicionarBloq)) || a in Conjunto(Enderecos(l.adicionarBloq6))
                         || a in Conjunto(Enderecos(l.adicionarWan));
  }

  lemma NothingToDelete(pr: PendRemocoes, l: Lote, es: seq<Escrita>, rs: seq<Remocao>)
    requires (forall k | k in pr :: k == ChaveDaRemocao(pr[k].rem)) && EhLote(l, es, rs)
        && l == Lote([], [], [], [], [], [])
    requires forall m :: m in rs <==> m in Remocoes(pr)
    ensures forall k | k in pr :: EstruturaDe(k.addr, k.capa).None?
  {
    forall k | k in pr ensures EstruturaDe(k.addr, k.capa).None? {
      assert pr[k].rem in rs;
      forall s ensures EstruturaDe(k.addr, k.capa) != Some(s) {
        assert k.addr in Remover(l, s) <==> ARemover(s, es, rs, k.addr);
        assert EstruturaDe(k.addr, k.capa) == Some(s) ==> ARemover(s, es, rs, k.addr);
      }
    }
  }

  lemma NothingToAdd(pe: PendEscritas, l: Lote, es: seq<Escrita>, rs: seq<Remocao>)
    requires (forall k | k in pe :: k == ChaveDe(pe[k])) && EhLote(l, es, rs) && l == Lote([], [], [], [], [], [])
    requires forall e :: e in es <==> e in pe.Values
    ensures forall k | k in pe :: EstruturaDe(k.addr, k.capa).None?
  {
    forall k | k in pe ensures EstruturaDe(k.addr, k.capa).None? {
      var e := pe[k];
      assert e in pe.Values && e in es;
      forall s ensures EstruturaDe(k.addr, k.capa) != Some(s) {
        var x := Entrada(e.addr, e.prazo, e.lugar.marca);
        assert x in Adicionar(l, s) <==> EhEntrada(s, es, x);
        assert EstruturaDe(k.addr, k.capa) == Some(s) ==> EhEntrada(s, es, x);
      }
    }
  }

  /** The removals of a batch by address alone, as the writer carries them. */
  method PorEndereco(pr: PendRemocoes) returns (m: map<Addr, RemocaoPend>)
    ensures PorAddr(m, pr)
  {
    m := map[];
    var faltam := pr.Keys;
    while faltam != {}
      invariant faltam <= pr.Keys
      invariant forall a :: a in m <==> exists k :: k in pr && k !in faltam && pr[k].rem.addr == a
      invariant forall a | a in m :: exists k :: k in pr && pr[k] == m[a] && m[a].rem.addr == a
      decreases |faltam|
    {
      var k :| k in faltam;
      faltam := faltam - {k};
      m := m[pr[k].rem.addr := pr[k]];
    }
  }

  method Exceto(todos: seq<Addr>, fora: seq<Addr>) returns (out: seq<Addr>)
    ensures Conjunto(out) == Conjunto(todos) - Conjunto(fora)
  {
    out := [];
    for i := 0 to |todos|
      invariant Conjunto(out) == Conjunto(todos[..i]) - Conjunto(fora)
    {
      ConjuntoSnoc(todos, i);
      if todos[i] !in fora {
        assert Conjunto(out + [todos[i]]) == Conjunto(out) + {todos[i]};
        out := out + [todos[i]];
      }
    }
    ConjuntoEnds(todos);
  }

  /** One adjustment, nothing else pending: the batch is the batch of that adjustment. */
  lemma OneAdjustmentOneBatch(aj: Ajuste, l: Lote)
    requires SemRepeticao(aj)
    requires LoteDe(l, AcumularEscritas(map[], aj.escritas), AcumularRemocoes(map[], aj.remocoes))
    ensures EhLote(l, aj.escritas, aj.remocoes)
  {
    AccumulatedWrites(aj.escritas);
    AccumulatedRemovals(map[], aj.remocoes);
  }
}
