/**
 The index mirrors the kernel: runs in which every adjustment becomes one batch and is
 answered before the next decision, with the kernel's own timeouts.
 */
module KernelMirror {
  import opened Options
  import opened DomTargets
  import opened Adjustments
  import opened Kernel

  ghost predicate SemPendentes(ends: Ends) { forall a | a in ends :: ends[a].pendente.None? }

  /** The index knows of this element: same structure, same mark, a deadline no earlier than the kernel's. */
  ghost predicate Registrado(ends: Ends, c: Casa, e: Elemento) {
    && EscritoEm(ends, c.a).Some?
    && EstruturaDe(c.a, EscritoEm(ends, c.a).value.cap) == Some(c.s)
    && (c.s == Wan ==> EscritoEm(ends, c.a).value.marca == e.marca)
    && e.vence <= ends[c.a].expira
  }

  /** The kernel was given what this entry says is written (its deadline may have passed since). */
  ghost predicate NoKernel(ends: Ends, k: Nft, a: Addr)
    requires a in ends
  {
    ends[a].escrito.Some? ==>
      var l := ends[a].escrito.value;
      var s := EstruturaDe(a, l.cap);
      s.Some? && Casa(s.value, a) in k && (s.value == Wan ==> k[Casa(s.value, a)].marca == l.marca)
  }

  ghost predicate Espelho(ends: Ends, k: Nft, t: int) {
    && (forall c | Tem(k, c, t) :: Registrado(ends, c, k[c]))
    && (forall a | a in ends :: NoKernel(ends, k, a))
  }

  /** While nothing has expired the two hold exactly the same addresses, each in its structure with its mark. */
  lemma MirrorIsExact(ends: Ends, k: Nft, t: int, c: Casa)
    requires Espelho(ends, k, t) && forall x | x in k :: k[x].vence > t
    ensures c in k <==> EscritoEm(ends, c.a).Some? && EstruturaDe(c.a, EscritoEm(ends, c.a).value.cap) == Some(c.s)
    ensures c in k && c.s == Wan ==> k[c].marca == EscritoEm(ends, c.a).value.marca
  {
    if c in k {
      assert Tem(k, c, t);
    } else if c.a in ends {
      assert NoKernel(ends, k, c.a);
    }
  }

  /** No address is ever held by two structures at once. */
  lemma NeverInTwoStructures(ends: Ends, k: Nft, t: int, c: Casa, d: Casa)
    requires Espelho(ends, k, t) && c.a == d.a && Tem(k, c, t) && Tem(k, d, t)
    ensures c == d
  {
    assert Registrado(ends, c, k[c]) && Registrado(ends, d, k[d]);
  }

  // ----- one decision and its batch

  /** A decision taken with nothing pending, and a batch of its writes and of the removals `rs`, its own among them. */
  ghost predicate Feita(antes: Ends, o: Obra, l: Lote, rs: seq<Remocao>, t: int) {
    && Coerente(antes, t, o) && SemPendentes(antes) && EhLote(l, o.aj.escritas, rs)
    && (forall m | m in o.aj.remocoes :: m in rs)
  }

  /** The same with no other removals, while the index mirrors the kernel. */
  ghost predicate Decisao(antes: Ends, o: Obra, k: Nft, l: Lote, t: int) {
    Feita(antes, o, l, o.aj.remocoes, t) && Espelho(antes, k, t)
  }

  /** Everything a batch deletes was given to the kernel, in that structure. */
  lemma DeletesArePresent(antes: Ends, o: Obra, k: Nft, l: Lote, t: int, c: Casa)
    requires Decisao(antes, o, k, l, t) && Tirado(l, c)
    ensures c in k
    ensures EscritoEm(antes, c.a).Some? && EstruturaDe(c.a, EscritoEm(antes, c.a).value.cap) == Some(c.s)
  {
    assert ARemover(c.s, o.aj.escritas, o.aj.remocoes, c.a);
    if m :| m in o.aj.remocoes && m.addr == c.a && EstruturaDe(c.a, m.cap) == Some(c.s) {
      assert RemocaoCoerente(antes, o, m);
    } else {
      var e :| e in o.aj.escritas && e.substituir && e.addr == c.a && EstruturaDe(c.a, e.lugar.cap) == Some(c.s);
      assert EscritaCoerente(antes, t, o, e);
    }
    assert NoKernel(antes, k, c.a);
  }

  /** The kernel accepts a batch exactly when nothing it deletes has expired meanwhile. */
  lemma BatchAccepted(antes: Ends, o: Obra, k: Nft, l: Lote, t: int, tk: int)
    requires Decisao(antes, o, k, l, t)
    ensures Aceita(k, l, tk) <==> forall c | Tirado(l, c) && c in k :: k[c].vence > tk
    ensures forall c | Tirado(l, c) :: c in k
  {
    BatchIsWellFormed(l, o.aj.escritas, o.aj.remocoes);
    forall c | Tirado(l, c) ensures c in k { DeletesArePresent(antes, o, k, l, t, c); }
    if forall c | Tirado(l, c) && c in k :: k[c].vence > tk {
      forall s, a | a in Remover(l, s) ensures Tem(k, Casa(s, a), tk) { assert Tirado(l, Casa(s, a)); }
    }
    if Aceita(k, l, tk) {
      forall c | Tirado(l, c) && c in k ensures k[c].vence > tk { assert c == Casa(c.s, c.a); assert Tem(k, c, tk); }
    }
  }

  /** An element that is registered and not deleted belongs to an entry this decision does not write. */
  lemma KeptElement(antes: Ends, o: Obra, l: Lote, rs: seq<Remocao>, t: int, c: Casa, x: Elemento)
    requires Feita(antes, o, l, rs, t) && Registrado(antes, c, x) && !Tirado(l, c)
    ensures !Escreve(o.aj, c.a) && !Remove(o.aj, c.a)
    ensures c.a in o.ends && o.ends[c.a].pendente.None? && Registrado(o.ends, c, x)
  {
    forall m | m in o.aj.remocoes ensures m.addr != c.a {
      assert RemocaoCoerente(antes, o, m);
      assert m.addr == c.a ==> ARemover(c.s, o.aj.escritas, rs, c.a);
    }
    forall e | e in o.aj.escritas ensures e.addr != c.a {
      assert EscritaCoerente(antes, t, o, e);
      assert e.addr == c.a && e.substituir ==> ARemover(c.s, o.aj.escritas, rs, c.a);
    }
    assert EntradaCoerente(antes, o, c.a);
  }

  /** A batch entry is the write of a pending index entry, and every pending entry is in the batch. */
  lemma AdditionsArePending(antes: Ends, o: Obra, l: Lote, rs: seq<Remocao>, t: int, s: Estrutura, x: Entrada)
    requires Feita(antes, o, l, rs, t) && x in Adicionar(l, s)
    ensures x.addr in o.ends && o.ends[x.addr].pendente.Some?
    ensures var p := o.ends[x.addr].pendente.value;
      x == Entrada(x.addr, p.prazo, p.lugar.marca) && EstruturaDe(x.addr, p.lugar.cap) == Some(s)
  {
    assert EhEntrada(s, o.aj.escritas, x);
    var e :| && e in o.aj.escritas && EstruturaDe(e.addr, e.lugar.cap) == Some(s)
             && x == Entrada(e.addr, e.prazo, e.lugar.marca);
    assert EscritaCoerente(antes, t, o, e);
  }

  lemma PendingAreAdded(antes: Ends, o: Obra, l: Lote, rs: seq<Remocao>, t: int, a: Addr)
    requires Feita(antes, o, l, rs, t) && a in o.ends && o.ends[a].pendente.Some?
    ensures var p := o.ends[a].pendente.value; var s := EstruturaDe(a, p.lugar.cap);
            s.Some? && Entrada(a, p.prazo, p.lugar.marca) in Adicionar(l, s.value)
    ensures a in AdicoesDoLote(l)
  {
    assert EntradaCoerente(antes, o, a);
    var e :| e in o.aj.escritas && e.addr == a;
    assert EscritaCoerente(antes, t, o, e);
    var s := EstruturaDe(a, e.lugar.cap).value;
    assert EhEntrada(s, o.aj.escritas, Entrada(a, e.prazo, e.lugar.marca));
    AdditionsOfBatch(l, s, Entrada(a, e.prazo, e.lugar.marca));
  }

  ghost function AposConfirmar(o: Obra, l: Lote, tc: int): Ends { ConfirmarEnds(o.ends, AdicoesDoLote(l), tc) }

  lemma AnsweredLeavesNonePending(antes: Ends, o: Obra, l: Lote, rs: seq<Remocao>, t: int, tc: int)
    requires Feita(antes, o, l, rs, t)
    ensures SemPendentes(AposConfirmar(o, l, tc))
    ensures SemPendentes(NaoConfirmadoEnds(o.ends, AdicoesDoLote(l)))
  {
    forall a | a in o.ends && o.ends[a].pendente.Some? ensures a in AdicoesDoLote(l) {
      PendingAreAdded(antes, o, l, rs, t, a);
    }
  }

  lemma ElementAfterIsRegistered(antes: Ends, o: Obra, k: Nft, l: Lote, t: int, tk: int, tc: int, c: Casa)
    requires Decisao(antes, o, k, l, t) && t <= tk <= tc
    requires Tem(Aplicado(k, l, tk), c, tc)
    ensures Registrado(AposConfirmar(o, l, tc), c, Aplicado(k, l, tk)[c])
  {
    AplicadoIs(k, l, tk, c);
    if (Tirado(l, c) || !Tem(k, c, tk)) && exists x :: EhNova(l, c, x) {
      var x :| EhNova(l, c, x) && Aplicado(k, l, tk)[c] == Elemento(x.marca, tk + x.prazo);
      AdditionsArePending(antes, o, l, o.aj.remocoes, t, c.s, x);
      PendingAreAdded(antes, o, l, o.aj.remocoes, t, c.a);
    } else {
      assert Tem(k, c, t);
      KeptElement(antes, o, l, o.aj.remocoes, t, c, k[c]);
    }
  }

  lemma EntryAfterIsInKernel(antes: Ends, o: Obra, k: Nft, l: Lote, t: int, tk: int, tc: int, a: Addr)
    requires Decisao(antes, o, k, l, t) && t <= tk <= tc
    requires a in AposConfirmar(o, l, tc)
    ensures NoKernel(AposConfirmar(o, l, tc), Aplicado(k, l, tk), a)
  {
    if o.ends[a].pendente.Some? {
      PendingAfterIsInKernel(antes, o, k, l, t, tk, tc, a);
    } else if o.ends[a].escrito.Some? {
      WrittenAfterIsInKernel(antes, o, k, l, t, tk, tc, a);
    }
  }

  /** Where a pending write goes, the batch first deletes what the kernel still holds. */
  lemma NothingInTheWay(antes: Ends, o: Obra, k: Nft, l: Lote, t: int, tk: int, c: Casa)
    requires Decisao(antes, o, k, l, t) && t <= tk && c.a in o.ends && o.ends[c.a].pendente.Some?
    ensures Tirado(l, c) || !Tem(k, c, tk)
  {
    if !Tirado(l, c) && Tem(k, c, tk) {
      assert Tem(k, c, t);
      KeptElement(antes, o, l, o.aj.remocoes, t, c, k[c]);
      assert false;
    }
  }

  /** A pending write is an element of the accepted batch, with its own mark and deadline. */
  lemma PendingElement(antes: Ends, o: Obra, k: Nft, l: Lote, t: int, tk: int, a: Addr)
    requires Decisao(antes, o, k, l, t) && t <= tk && a in o.ends && o.ends[a].pendente.Some?
    ensures var p := o.ends[a].pendente.value; var s := EstruturaDe(a, p.lugar.cap);
            s.Some? && var c := Casa(s.value, a);
            c in Aplicado(k, l, tk) && Aplicado(k, l, tk)[c] == Elemento(p.lugar.marca, tk + p.prazo)
    ensures a in AdicoesDoLote(l)
  {
    var p := o.ends[a].pendente.value;
    PendingAreAdded(antes, o, l, o.aj.remocoes, t, a);
    var c := Casa(EstruturaDe(a, p.lugar.cap).value, a);
    NothingInTheWay(antes, o, k, l, t, tk, c);
    var y := NewElement(k, l, tk, c, Entrada(a, p.prazo, p.lugar.marca));
    AdditionsArePending(antes, o, l, o.aj.remocoes, t, c.s, y);
  }

  lemma PendingAfterIsInKernel(antes: Ends, o: Obra, k: Nft, l: Lote, t: int, tk: int, tc: int, a: Addr)
    requires Decisao(antes, o, k, l, t) && t <= tk <= tc
    requires a in AposConfirmar(o, l, tc) && o.ends[a].pendente.Some?
    ensures NoKernel(AposConfirmar(o, l, tc), Aplicado(k, l, tk), a)
  {
    PendingElement(antes, o, k, l, t, tk, a);
  }

  lemma WrittenAfterIsInKernel(antes: Ends, o: Obra, k: Nft, l: Lote, t: int, tk: int, tc: int, a: Addr)
    requires Decisao(antes, o, k, l, t) && t <= tk <= tc
    requires a in AposConfirmar(o, l, tc) && o.ends[a].pendente.None? && o.ends[a].escrito.Some?
    ensures NoKernel(AposConfirmar(o, l, tc), Aplicado(k, l, tk), a)
  {
    var r := o.ends[a];
    assert EntradaCoerente(antes, o, a);
    assert NoKernel(antes, k, a);
    var c := Casa(EstruturaDe(a, r.escrito.value.cap).value, a);
    assert !Tirado(l, c) by {
      if Tirado(l, c) { TakenHasAnAnswer(antes, o, k, l, t, c); assert false; }
    }
    if x :| EhNova(l, c, x) { AdditionsArePending(antes, o, l, o.aj.remocoes, t, c.s, x); assert false; }
    AplicadoIs(k, l, tk, c);
  }

  /** What a batch deletes has left the index or has a write on its way. */
  lemma TakenHasAnAnswer(antes: Ends, o: Obra, k: Nft, l: Lote, t: int, c: Casa)
    requires Decisao(antes, o, k, l, t) && Tirado(l, c)
    ensures c.a in o.ends ==> o.ends[c.a].pendente.Some?
  {
    assert ARemover(c.s, o.aj.escritas, o.aj.remocoes, c.a);
    if m :| m in o.aj.remocoes && m.addr == c.a {
      assert RemocaoCoerente(antes, o, m);
    } else {
      var e :| e in o.aj.escritas && e.addr == c.a;
      assert EscritaCoerente(antes, t, o, e);
    }
  }

  /** A decision, its batch accepted whole and then confirmed: the mirror holds again. */
  lemma ConfirmedBatchKeepsMirror(antes: Ends, o: Obra, k: Nft, l: Lote, t: int, tk: int, tc: int)
    requires Decisao(antes, o, k, l, t) && t <= tk <= tc
    ensures Espelho(AposConfirmar(o, l, tc), Aplicado(k, l, tk), tc)
  {
    forall c | Tem(Aplicado(k, l, tk), c, tc) ensures Registrado(AposConfirmar(o, l, tc), c, Aplicado(k, l, tk)[c]) {
      ElementAfterIsRegistered(antes, o, k, l, t, tk, tc, c);
    }
    forall a | a in AposConfirmar(o, l, tc) ensures NoKernel(AposConfirmar(o, l, tc), Aplicado(k, l, tk), a) {
      EntryAfterIsInKernel(antes, o, k, l, t, tk, tc, a);
    }
  }

  /** The removal is harmless to lose: the index still says so, or the kernel let go by itself. */
  ghost predicate PerdaInofensiva(o: Obra, k: Nft, t: int, m: Remocao) {
    EscritoEm(o.ends, m.addr).Some? || forall s :: EstruturaDe(m.addr, m.cap) == Some(s) ==> !Tem(k, Casa(s, m.addr), t)
  }

  /**
   A batch the kernel refused whole leaves the mirror standing exactly when no removal it
   carried was of an address the index has already forgotten and the kernel still holds.
   */
  lemma RefusedBatchKeepsMirrorIff(antes: Ends, o: Obra, k: Nft, l: Lote, t: int, tc: int)
    requires Decisao(antes, o, k, l, t) && t <= tc
    ensures Espelho(NaoConfirmadoEnds(o.ends, AdicoesDoLote(l)), k, tc)
            <==> forall m | m in o.aj.remocoes :: PerdaInofensiva(o, k, tc, m)
  {
    var depois := NaoConfirmadoEnds(o.ends, AdicoesDoLote(l));
    forall a | a in o.ends ensures EscritoEm(depois, a) == o.ends[a].escrito
    {
      if o.ends[a].pendente.Some? { PendingAreAdded(antes, o, l, o.aj.remocoes, t, a); }
      assert EntradaCoerente(antes, o, a);
    }
    forall a | a in depois ensures NoKernel(depois, k, a) {
      assert EntradaCoerente(antes, o, a);
      if o.ends[a].escrito.Some? { assert NoKernel(antes, k, a); }
    }
    if forall m | m in o.aj.remocoes :: PerdaInofensiva(o, k, tc, m) {
      forall c | Tem(k, c, tc) ensures Registrado(depois, c, k[c]) {
        assert Tem(k, c, t) && Registrado(antes, c, k[c]);
        ForgottenIsRemoved(antes, t, o, c.a);
        if m :| m in o.aj.remocoes && m.addr == c.a {
          assert RemocaoCoerente(antes, o, m) && PerdaInofensiva(o, k, tc, m);
        }
        assert EntradaCoerente(antes, o, c.a);
      }
    }
    if Espelho(depois, k, tc) {
      forall m | m in o.aj.remocoes ensures PerdaInofensiva(o, k, tc, m) {
        if s :| EstruturaDe(m.addr, m.cap) == Some(s) && Tem(k, Casa(s, m.addr), tc) {
          assert Registrado(depois, Casa(s, m.addr), k[Casa(s, m.addr)]);
        }
      }
    }
  }

  /** A confirmed address that is no longer marked written has its removal in the adjustment. */
  lemma ForgottenIsRemoved(antes: Ends, t: int, o: Obra, a: Addr)
    requires Coerente(antes, t, o) && SemPendentes(antes) && EscritoEm(antes, a).Some?
    ensures EscritoEm(o.ends, a).None? ==> Remove(o.aj, a)
  {
    if a in o.ends && o.ends[a].escrito.None? {
      assert EntradaCoerente(antes, o, a);
      var e :| e in o.aj.escritas && e.addr == a;
      assert EscritaCoerente(antes, t, o, e);
    }
  }

  // ----- pruning

  lemma PruneKeepsMirror(ends: Ends, k: Nft, t: int)
    requires Espelho(ends, k, t)
    ensures Espelho(PodarEnds(ends, t - FOLGA_DE_PODA), k, t)
  {
    var depois := PodarEnds(ends, t - FOLGA_DE_PODA);
    forall c | Tem(k, c, t) ensures Registrado(depois, c, k[c]) { assert Registrado(ends, c, k[c]); }
    forall a | a in depois ensures NoKernel(depois, k, a) { assert NoKernel(ends, k, a); }
  }

  /** Pruning never forgets an address the kernel still holds. */
  lemma PruneForgetsOnlyExpired(ends: Ends, k: Nft, t: int, c: Casa)
    requires Espelho(ends, k, t) && c.a in ends && c.a !in PodarEnds(ends, t - FOLGA_DE_PODA)
    ensures !Tem(k, c, t)
  {
    if c in k { assert Tem(k, c, t) ==> Registrado(ends, c, k[c]); }
  }

  lemma TimePasses(ends: Ends, k: Nft, t: int, u: int)
    requires Espelho(ends, k, t) && t <= u
    ensures Espelho(ends, k, u)
  {
    forall c | Tem(k, c, u) ensures Registrado(ends, c, k[c]) { assert Tem(k, c, t); }
  }
}
