/** The accumulator of `internal/hostquota/hostquota.go`, with the two tables it writes. */
module QuotaService {
  import opened Options
  import opened Bytes
  import opened HostQuota

  /** The samples that go to row `k`. */
  function DaLinha(cal: Calendario, qs: Cotas, k: Chave): Instante -> bool {
    (i: Instante) => ChaveDe(cal, qs, i) == k
  }

  function Fora(f: Fila, falhas: set<Instante>): Fila { map i | i in f && i !in falhas :: f[i] }
  function Dentro(f: Fila, falhas: set<Instante>): Fila { map i | i in f && i in falhas :: f[i] }

  /** Every row holds what it held in `antes` and the bytes of `f` that go to it. */
  ghost predicate Gravada(cal: Calendario, qs: Cotas, antes: Tabela, f: Fila, depois: Tabela) {
    forall k, side :: Of(At(depois, k), side) == Of(At(antes, k), side) + Total(f, DaLinha(cal, qs, k), side)
  }

  lemma NothingWritten(cal: Calendario, qs: Cotas, t: Tabela, f: Fila)
    requires f == map[]
    ensures Gravada(cal, qs, t, f, t)
  {
  }

  lemma OneWritten(cal: Calendario, qs: Cotas, t: Tabela, f: Fila, i: Instante, depois: Tabela)
    requires i in f && Gravada(cal, qs, More(t, ChaveDe(cal, qs, i), f[i]), Without(f, i), depois)
    ensures Gravada(cal, qs, t, f, depois)
  {
    forall k, side ensures Of(At(depois, k), side) == Of(At(t, k), side) + Total(f, DaLinha(cal, qs, k), side) {
      TotalWithout(f, DaLinha(cal, qs, k), side, i);
      RowMore(t, ChaveDe(cal, qs, i), f[i], k, side);
    }
  }

  lemma RowMore(t: Tabela, k: Chave, d: Delta, j: Chave, side: Side)
    ensures Of(At(More(t, k, d), j), side) == Of(At(t, j), side) + If(k == j, Of(d, side))
  {
  }

  lemma NoneLeft(f: Fila)
    ensures Joined(f, map[]) == f && Joined(map[], f) == f
  {
    forall i | i in f ensures Joined(f, map[])[i] == f[i] && Joined(map[], f)[i] == f[i] {
      match f[i] { case Delta(_, _) => }
    }
  }

  lemma OneReturned(f: Fila, g: Fila, i: Instante)
    requires i in g
    ensures Joined(More(f, i, g[i]), Without(g, i)) == Joined(f, g)
  {
    var h := Joined(More(f, i, g[i]), Without(g, i));
    forall j | j in h ensures h[j] == Joined(f, g)[j] {
      if j == i { match Plus(At(f, i), g[i]) { case Delta(_, _) => } }
    }
  }

  lemma OutsideWithout(f: Fila, falhas: set<Instante>, i: Instante)
    ensures i !in falhas ==> Fora(Without(f, i), falhas) == Without(Fora(f, falhas), i)
    ensures i in falhas ==> Fora(Without(f, i), falhas) == Fora(f, falhas)
  {
  }

  class Service {
    var pending: Fila
    var uso: Tabela
    var cotas: Cotas
    const cal: Calendario

    constructor (cal: Calendario, uso: Tabela, cotas: Cotas)
      ensures pending == map[] && this.uso == uso && this.cotas == cotas && this.cal == cal
    {
      this.cal := cal;
      pending, this.uso, this.cotas := map[], uso, cotas;
    }

    method AddHostBytes(mac: string, ts: int, rx: nat, tx: nat)
      modifies this`pending
      ensures pending == Somado(old(pending), Instante(mac, ts), Delta(rx, tx))
    {
      if mac == "" || (rx == 0 && tx == 0) { return; }
      var i := Instante(mac, ts);
      var d := At(pending, i);
      pending := pending[i := Delta(d.rx + rx, d.tx + tx)];
    }

    /** Returning a queue adds it to what arrived since it was drained. */
    method Devolver(pendente: Fila)
      modifies this`pending
      ensures pending == Joined(old(pending), pendente)
    {
      var left := pendente;
      while left != map[]
        invariant Joined(pending, left) == Joined(old(pending), pendente)
        decreases |left|
      {
        assert left.Keys != {};
        var i :| i in left.Keys;
        OneReturned(pending, left, i);
        Smaller(left, i);
        pending := More(pending, i, left[i]);
        left := Without(left, i);
      }
      NoneLeft(pending);
    }

    /**
     * What could not be written stays queued, all of it when the quotas cannot be read; the rest
     * is in the row of the cycle it was measured in.
     */
    method Flush(lidas: bool, falhas: set<Instante>)
      modifies this`pending, this`uso
      ensures !lidas ==> pending == old(pending) && uso == old(uso)
      ensures lidas ==> pending == Dentro(old(pending), falhas)
      ensures lidas ==> Gravada(cal, cotas, old(uso), Fora(old(pending), falhas), uso)
    {
      var pendente := pending;
      pending := map[];
      if !lidas {
        Devolver(pendente);
        NoneLeft(pendente);
        return;
      }
      var naoGravado := Gravar(pendente, falhas);
      Devolver(naoGravado);
      NoneLeft(naoGravado);
    }

    method Gravar(pendente: Fila, falhas: set<Instante>) returns (naoGravado: Fila)
      modifies this`uso
      ensures naoGravado == Dentro(pendente, falhas)
      ensures Gravada(cal, cotas, old(uso), Fora(pendente, falhas), uso)
    {
      naoGravado := map[];
      var left := pendente;
      ghost var was := uso;
      while left != map[]
        invariant left.Keys <= pendente.Keys && forall i | i in left :: left[i] == pendente[i]
        invariant naoGravado == map i | i in pendente && i !in left && i in falhas :: pendente[i]
        invariant forall t | Gravada(cal, cotas, uso, Fora(left, falhas), t) ::
                    Gravada(cal, cotas, was, Fora(pendente, falhas), t)
        decreases |left|
      {
        assert left.Keys != {};
        var i :| i in left.Keys;
        Smaller(left, i);
        OutsideWithout(left, falhas, i);
        if i in falhas {
          naoGravado := naoGravado[i := left[i]];
        } else {
          forall t | Gravada(cal, cotas, More(uso, ChaveDe(cal, cotas, i), left[i]), Fora(Without(left, i), falhas), t)
            ensures Gravada(cal, cotas, uso, Fora(left, falhas), t)
          {
            OneWritten(cal, cotas, uso, Fora(left, falhas), i, t);
          }
          uso := More(uso, ChaveDe(cal, cotas, i), left[i]);
        }
        left := Without(left, i);
      }
      NothingWritten(cal, cotas, uso, Fora(left, falhas));
    }

    /** Changing the period or the closing day takes the usage of the current cycle along. */
    method Save(mac: Option<string>, cota: Cota, now: int, ler: bool, mover: bool, gravar: bool) returns (ok: bool)
      modifies this`uso, this`cotas
      ensures ok <==> mac.Some? && Normalizada(cota).Some? && ler && gravar && (Muda(old(cotas), mac, cota) ==> mover)
      ensures cotas == if ok then old(cotas)[mac.value := Normalizada(cota).value] else old(cotas)
      ensures uso == if mac.Some? && ler && mover && Muda(old(cotas), mac, cota)
                     then Movido(old(uso), Chave(mac.value, CicloDe(cal, CotaDe(old(cotas), mac.value), now)),
                                           Chave(mac.value, CicloDe(cal, Normalizada(cota).value, now)))
                     else old(uso)
      ensures forall quem, side :: TotalDe(uso, quem, side) == TotalDe(old(uso), quem, side)
    {
      ok := false;
      if mac == None { return; }
      var q := Normalizada(cota);
      if q == None || !ler { return; }
      var m := mac.value;
      if m in cotas {
        var antiga := cotas[m];
        if PeriodoDe(antiga) != q.value.periodo || DiaDe(antiga) != q.value.dia {
          if !mover { return; }
          var de, para := Chave(m, CicloDe(cal, antiga, now)), Chave(m, CicloDe(cal, q.value, now));
          forall quem, side ensures TotalDe(Movido(uso, de, para), quem, side) == TotalDe(uso, quem, side) {
            MoveConserves(uso, de, para, quem, side);
          }
          uso := Movido(uso, de, para);
        }
      }
      if !gravar { return; }
      cotas := cotas[m := q.value];
      ok := true;
    }

    /** Removing a quota keeps every sample, past and future, in the row it would have gone to. */
    method Delete(mac: Option<string>, ler: bool, gravar: bool) returns (ok: bool)
      modifies this`cotas
      ensures ok <==> mac.Some? && ler && (mac.value in old(cotas) ==> gravar)
      ensures ok && mac.value in old(cotas) ==> cotas == old(cotas)[mac.value := Removida(old(cotas)[mac.value])]
      ensures !ok || mac.value !in old(cotas) ==> cotas == old(cotas)
      ensures ok && mac.value in old(cotas) ==>
                var antes, depois := old(cotas)[mac.value], cotas[mac.value];
                depois == Cota(0.0, antes.periodo, antes.dia, antes.alertaPct, false)
      ensures forall i :: ChaveDe(cal, cotas, i) == ChaveDe(cal, old(cotas), i)
    {
      ok := false;
      if mac == None || !ler { return; }
      if mac.value in cotas {
        if !gravar { return; }
        cotas := cotas[mac.value := Removida(cotas[mac.value])];
      }
      ok := true;
    }
  }

  /** Saving `cota` for a device that has a quota under another period or closing day. */
  ghost predicate Muda(qs: Cotas, mac: Option<string>, cota: Cota) {
    && mac.Some? && Normalizada(cota).Some? && mac.value in qs
    && (PeriodoDe(qs[mac.value]) != Normalizada(cota).value.periodo
      || DiaDe(qs[mac.value]) != Normalizada(cota).value.dia)
  }
}
