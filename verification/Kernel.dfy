/** The batch built from an adjustment, the kernel's three structures, and one nft transaction. */
module Kernel {
  import opened Options
  import opened DomTargets

  datatype Estrutura = Bloq | Bloq6 | Wan
  datatype Entrada = Entrada(addr: Addr, prazo: int, marca: nat)
  datatype Lote = Lote(removerBloq: seq<Addr>, removerBloq6: seq<Addr>, removerWan: seq<Addr>,
                       adicionarBloq: seq<Entrada>, adicionarBloq6: seq<Entrada>, adicionarWan: seq<Entrada>)

  function Remover(l: Lote, s: Estrutura): seq<Addr> {
    match s case Bloq => l.removerBloq case Bloq6 => l.removerBloq6 case Wan => l.removerWan
  }

  function Adicionar(l: Lote, s: Estrutura): seq<Entrada> {
    match s case Bloq => l.adicionarBloq case Bloq6 => l.adicionarBloq6 case Wan => l.adicionarWan
  }

  /** Where an address of this family goes for this capability; a routed IPv6 address goes nowhere. */
  function EstruturaDe(a: Addr, c: Capacidade): Option<Estrutura> {
    if c == Direcionar then (if a.v4 then Some(Wan) else None)
    else if a.v4 then Some(Bloq) else Some(Bloq6)
  }

  predicate FamiliaCerta(s: Estrutura, a: Addr) { a.v4 <==> s != Bloq6 }

  ghost predicate ARemover(s: Estrutura, es: seq<Escrita>, rs: seq<Remocao>, a: Addr) {
    || (exists m :: m in rs && m.addr == a && EstruturaDe(a, m.cap) == Some(s))
    || (exists e :: e in es && e.substituir && e.addr == a && EstruturaDe(a, e.lugar.cap) == Some(s))
  }

  /** The batch entry of some write that goes to structure `s`. */
  ghost predicate EhEntrada(s: Estrutura, es: seq<Escrita>, x: Entrada) {
    exists e :: e in es && EstruturaDe(e.addr, e.lugar.cap) == Some(s) && x == Entrada(e.addr, e.prazo, e.lugar.marca)
  }

  /** `l` is a batch of these writes and removals, each list free of repetitions. */
  ghost predicate EhLote(l: Lote, es: seq<Escrita>, rs: seq<Remocao>) {
    forall s ::
      && (forall x :: x in Adicionar(l, s) <==> EhEntrada(s, es, x))
      && (forall a :: a in Remover(l, s) <==> ARemover(s, es, rs, a))
      && SemDuplicata(l, s)
  }

  ghost predicate SemDuplicata(l: Lote, s: Estrutura) {
    && (forall i, j | 0 <= i < j < |Remover(l, s)| :: Remover(l, s)[i] != Remover(l, s)[j])
    && (forall i, j | 0 <= i < j < |Adicionar(l, s)| :: Adicionar(l, s)[i].addr != Adicionar(l, s)[j].addr)
  }

  function AdicoesDoLote(l: Lote): set<Addr> {
    (set x | x in l.adicionarBloq :: x.addr) + (set x | x in l.adicionarBloq6 :: x.addr)
      + (set x | x in l.adicionarWan :: x.addr)
  }

  lemma AdditionsOfBatch(l: Lote, s: Estrutura, x: Entrada)
    requires x in Adicionar(l, s)
    ensures x.addr in AdicoesDoLote(l)
  {
  }

  /** The lists of a batch: family-correct, no address twice, so no element is deleted or added twice. */
  ghost predicate BemFormado(l: Lote) {
    forall s ::
      && (forall a | a in Remover(l, s) :: FamiliaCerta(s, a))
      && (forall x | x in Adicionar(l, s) :: FamiliaCerta(s, x.addr))
      && SemDuplicata(l, s)
  }

  lemma BatchIsWellFormed(l: Lote, es: seq<Escrita>, rs: seq<Remocao>)
    requires EhLote(l, es, rs)
    ensures BemFormado(l)
  {
    forall s
      ensures forall a | a in Remover(l, s) :: FamiliaCerta(s, a)
      ensures forall x | x in Adicionar(l, s) :: FamiliaCerta(s, x.addr)
      ensures SemDuplicata(l, s)
    {
      forall a | a in Remover(l, s) ensures FamiliaCerta(s, a) { assert ARemover(s, es, rs, a); }
      forall x | x in Adicionar(l, s) ensures FamiliaCerta(s, x.addr) { assert EhEntrada(s, es, x); }
    }
  }

  /** Only which writes and removals there are matters, not their order. */
  lemma BatchOfSameSets(l: Lote, es: seq<Escrita>, rs: seq<Remocao>, fs: seq<Escrita>, ts: seq<Remocao>)
    requires EhLote(l, es, rs)
    requires (forall e :: e in es <==> e in fs) && (forall m :: m in rs <==> m in ts)
    ensures EhLote(l, fs, ts)
  {
    forall s
      ensures forall x :: x in Adicionar(l, s) <==> EhEntrada(s, fs, x)
      ensures forall a :: a in Remover(l, s) <==> ARemover(s, fs, ts, a)
      ensures SemDuplicata(l, s)
    {
      forall x
        ensures x in Adicionar(l, s) <==> EhEntrada(s, fs, x)
      {
        assert x in Adicionar(l, s) <==> EhEntrada(s, es, x);
      }
      forall a
        ensures a in Remover(l, s) <==> ARemover(s, fs, ts, a)
      {
        assert a in Remover(l, s) <==> ARemover(s, es, rs, a);
      }
    }
  }

  // ----- the kernel

  datatype Casa = Casa(s: Estrutura, a: Addr)
  datatype Elemento = Elemento(marca: nat, vence: int)

  /** Elements by structure and address. One whose deadline has passed is no longer held. */
  type Nft = map<Casa, Elemento>

  ghost predicate Tem(k: Nft, c: Casa, t: int) { c in k && k[c].vence > t }

  /** One `nft -f`: a delete of an absent element, or an address of the wrong family, drops it whole. */
  ghost predicate Aceita(k: Nft, l: Lote, t: int) {
    BemFormado(l) && forall s, a | a in Remover(l, s) :: Tem(k, Casa(s, a), t)
  }

  ghost predicate Tirado(l: Lote, c: Casa) { c.a in Remover(l, c.s) }

  ghost predicate EhNova(l: Lote, c: Casa, x: Entrada) { x in Adicionar(l, c.s) && x.addr == c.a }

  /** Deletes come first; an add on an element that is still held changes nothing. */
  ghost function ElementoDepois(k: Nft, l: Lote, t: int, c: Casa): Option<Elemento> {
    if (Tirado(l, c) || !Tem(k, c, t)) && exists x :: EhNova(l, c, x) then
      var x :| EhNova(l, c, x);
      Some(Elemento(x.marca, t + x.prazo))
    else if Tirado(l, c) || c !in k then None
    else Some(k[c])
  }

  ghost function CasasNovas(l: Lote): set<Casa> {
    (set x | x in l.adicionarBloq :: Casa(Bloq, x.addr)) + (set x | x in l.adicionarBloq6 :: Casa(Bloq6, x.addr))
    + (set x | x in l.adicionarWan :: Casa(Wan, x.addr))
  }

  ghost function Aplicado(k: Nft, l: Lote, t: int): Nft {
    map c | c in k.Keys + CasasNovas(l) && ElementoDepois(k, l, t, c).Some? :: ElementoDepois(k, l, t, c).value
  }

  lemma AplicadoIs(k: Nft, l: Lote, t: int, c: Casa)
    ensures c in Aplicado(k, l, t) <==> ElementoDepois(k, l, t, c).Some?
    ensures c in Aplicado(k, l, t) ==> Aplicado(k, l, t)[c] == ElementoDepois(k, l, t, c).value
  {
    if x :| EhNova(l, c, x) { assert c in CasasNovas(l); }
  }

  /** An element that is held and not deleted stays as it is, whatever the batch writes over it. */
  lemma HeldIsNotOverwritten(k: Nft, l: Lote, t: int, c: Casa)
    requires Tem(k, c, t) && !Tirado(l, c)
    ensures c in Aplicado(k, l, t) && Aplicado(k, l, t)[c] == k[c]
  {
    AplicadoIs(k, l, t, c);
  }

  /** A write that nothing is in the way of becomes the element of one entry of the batch. */
  lemma NewElement(k: Nft, l: Lote, t: int, c: Casa, x: Entrada) returns (y: Entrada)
    requires EhNova(l, c, x) && (Tirado(l, c) || !Tem(k, c, t))
    ensures EhNova(l, c, y) && c in Aplicado(k, l, t) && Aplicado(k, l, t)[c] == Elemento(y.marca, t + y.prazo)
  {
    AplicadoIs(k, l, t, c);
    y :| EhNova(l, c, y) && Aplicado(k, l, t)[c] == Elemento(y.marca, t + y.prazo);
  }

  // ----- AplicarLote: one transaction, and one retry without the deletes

  /** What AplicarLote says happened: an error, or how much of the batch went in. */
  datatype Resultado = Erro | Feito(reenviado: bool, naoConfirmados: seq<Addr>, perdidas: seq<Addr>)

  predicate Completo(r: Resultado) { r.Feito? && !r.reenviado && r.naoConfirmados == [] && r.perdidas == [] }

  const LOTE_VAZIO := Lote([], [], [], [], [], [])

  /** The writes of `es` that no delete of the same structure goes with. */
  function SemDelete(es: seq<Entrada>, rs: seq<Addr>): seq<Entrada>
    decreases |es|
  {
    if es == [] then []
    else
      var x := es[|es| - 1];
      SemDelete(es[..|es| - 1], rs) + if x.addr in rs then [] else [x]
  }

  /** The addresses of `es` that `rs` deletes too: a renewal is a delete and an add of one element. */
  function Renovados(es: seq<Entrada>, rs: seq<Addr>): seq<Addr>
    decreases |es|
  {
    if es == [] then []
    else
      var x := es[|es| - 1];
      Renovados(es[..|es| - 1], rs) + if x.addr in rs then [x.addr] else []
  }

  predicate Escrito(es: seq<Entrada>, a: Addr) { exists x :: x in es && x.addr == a }

  /** The deletes of `rs` that are not half of a renewal. */
  function SoRetirados(rs: seq<Addr>, es: seq<Entrada>): seq<Addr>
    decreases |rs|
  {
    if rs == [] then []
    else
      var a := rs[|rs| - 1];
      SoRetirados(rs[..|rs| - 1], es) + if Escrito(es, a) then [] else [a]
  }

  lemma {:induction false} SemDeleteKeeps(es: seq<Entrada>, rs: seq<Addr>)
    ensures forall x :: x in SemDelete(es, rs) <==> x in es && x.addr !in rs
    ensures forall a :: a in Renovados(es, rs) <==> Escrito(es, a) && a in rs
    decreases |es|
  {
    if es != [] {
      var n := |es| - 1;
      SemDeleteKeeps(es[..n], rs);
      assert es == es[..n] + [es[n]];
      forall a ensures a in Renovados(es, rs) <==> Escrito(es, a) && a in rs {
        assert Escrito(es, a) <==> Escrito(es[..n], a) || es[n].addr == a;
      }
    }
  }

  lemma {:induction false} SoRetiradosKeeps(rs: seq<Addr>, es: seq<Entrada>)
    ensures forall a :: a in SoRetirados(rs, es) <==> a in rs && !Escrito(es, a)
    decreases |rs|
  {
    if rs != [] {
      var n := |rs| - 1;
      SoRetiradosKeeps(rs[..n], es);
      assert rs == rs[..n] + [rs[n]];
    }
  }

  function SoAdicoes(l: Lote): Lote {
    Lote([], [], [], SemDelete(l.adicionarBloq, l.removerBloq), SemDelete(l.adicionarBloq6, l.removerBloq6),
         SemDelete(l.adicionarWan, l.removerWan))
  }

  function RenovacoesDoLote(l: Lote): seq<Addr> {
    Renovados(l.adicionarBloq, l.removerBloq) + Renovados(l.adicionarBloq6, l.removerBloq6)
    + Renovados(l.adicionarWan, l.removerWan)
  }

  function RemocoesDoLote(l: Lote): seq<Addr> {
    SoRetirados(l.removerBloq, l.adicionarBloq) + SoRetirados(l.removerBloq6, l.adicionarBloq6)
    + SoRetirados(l.removerWan, l.adicionarWan)
  }

  /** What the retry writes, what it leaves unrenewed, and what it leaves undeleted. */
  lemma RetryIs(l: Lote)
    ensures forall s, x :: x in Adicionar(SoAdicoes(l), s) <==> x in Adicionar(l, s) && x.addr !in Remover(l, s)
    ensures forall s :: Remover(SoAdicoes(l), s) == []
    ensures forall a :: a in RenovacoesDoLote(l) <==> exists s :: Escrito(Adicionar(l, s), a) && a in Remover(l, s)
    ensures forall a :: a in RemocoesDoLote(l) <==> exists s :: !Escrito(Adicionar(l, s), a) && a in Remover(l, s)
  {
    forall s
      ensures forall x :: x in Adicionar(SoAdicoes(l), s) <==> x in Adicionar(l, s) && x.addr !in Remover(l, s)
    {
      SemDeleteKeeps(Adicionar(l, s), Remover(l, s));
    }
    RenewalsOfTheThree(l);
    RemovalsOfTheThree(l);
  }

  lemma RenewalsOfTheThree(l: Lote)
    ensures forall a :: a in RenovacoesDoLote(l) <==> exists s :: Escrito(Adicionar(l, s), a) && a in Remover(l, s)
  {
    SemDeleteKeeps(l.adicionarBloq, l.removerBloq);
    SemDeleteKeeps(l.adicionarBloq6, l.removerBloq6);
    SemDeleteKeeps(l.adicionarWan, l.removerWan);
    forall a ensures a in RenovacoesDoLote(l) <==> exists s :: Escrito(Adicionar(l, s), a) && a in Remover(l, s) {
      if a in Renovados(l.adicionarBloq, l.removerBloq) { assert Escrito(Adicionar(l, Bloq), a); }
      if a in Renovados(l.adicionarBloq6, l.removerBloq6) { assert Escrito(Adicionar(l, Bloq6), a); }
      if a in Renovados(l.adicionarWan, l.removerWan) { assert Escrito(Adicionar(l, Wan), a); }
    }
  }

  lemma RemovalsOfTheThree(l: Lote)
    ensures forall a :: a in RemocoesDoLote(l) <==> exists s :: !Escrito(Adicionar(l, s), a) && a in Remover(l, s)
  {
    SoRetiradosKeeps(l.removerBloq, l.adicionarBloq);
    SoRetiradosKeeps(l.removerBloq6, l.adicionarBloq6);
    SoRetiradosKeeps(l.removerWan, l.adicionarWan);
    forall a ensures a in RemocoesDoLote(l) <==> exists s :: !Escrito(Adicionar(l, s), a) && a in Remover(l, s) {
      if a in SoRetirados(l.removerBloq, l.adicionarBloq) { assert a in Remover(l, Bloq); }
      if a in SoRetirados(l.removerBloq6, l.adicionarBloq6) { assert a in Remover(l, Bloq6); }
      if a in SoRetirados(l.removerWan, l.adicionarWan) { assert a in Remover(l, Wan); }
    }
  }

  /** The kernel and the result; `falha1` and `falha2` are failures of nft for any other reason. */
  ghost function AplicarLote(k: Nft, l: Lote, t: int, falha1: bool, falha2: bool): (Nft, Resultado) {
    if l == LOTE_VAZIO then (k, Feito(false, [], []))
    else if Aceita(k, l, t) && !falha1 then (Aplicado(k, l, t), Feito(false, [], []))
    else if SoAdicoes(l) == LOTE_VAZIO || falha2 then (k, Erro)
    else (Aplicado(k, SoAdicoes(l), t), Feito(true, RenovacoesDoLote(l), RemocoesDoLote(l)))
  }
}
