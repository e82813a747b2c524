/** The index of `internal/domtargets/indice.go`: the class whose methods decide, in place. */
module Index {
  import opened Options
  import opened Order
  import opened DomTargets
  import opened IndexInvariant

  function Contagem(porDominio: map<Dominio, nat>, d: Dominio): nat {
    if d in porDominio then porDominio[d] else 0
  }

  /** The live count of each domain is the number of live addresses it claims. */
  ghost predicate Contagens(porDominio: map<Dominio, nat>, ends: Ends) {
    forall d :: Contagem(porDominio, d) == |Reivindicados(ends, d)|
  }

  lemma ClaimsSizes(ends: Ends, a: Addr, r: Registro, d: Dominio)
    ensures var antes := a in ends && d in ends[a].dominios;
            |Reivindicados(ends[a := r], d)| == |Reivindicados(ends, d)|
              + (if d in r.dominios && !antes then 1 else 0) - (if antes && d !in r.dominios then 1 else 0)
  {
    ClaimsAfter(ends, a, r, d);
    var s := Reivindicados(ends, d);
    if a in s { assert s + {a} == s; } else { assert s - {a} == s; }
  }

  lemma ClaimsWithout(ends: Ends, a: Addr, d: Dominio)
    requires a in ends
    ensures |Reivindicados(ends - {a}, d)| == |Reivindicados(ends, d)| - if d in ends[a].dominios then 1 else 0
  {
    assert Reivindicados(ends - {a}, d) == Reivindicados(ends, d) - {a};
  }

  lemma CountedAfterClaim(porDominio: map<Dominio, nat>, ends: Ends, a: Addr, r: Registro, d: Dominio)
    requires Contagens(porDominio, ends)
    requires if a in ends then d !in ends[a].dominios && r.dominios == ends[a].dominios + {d} else r.dominios == {d}
    ensures Contagens(porDominio[d := Contagem(porDominio, d) + 1], ends[a := r])
  {
    var depois := ends[a := r];
    forall e ensures Contagem(porDominio[d := Contagem(porDominio, d) + 1], e) == |Reivindicados(depois, e)| {
      ClaimsSizes(ends, a, r, e);
    }
  }

  lemma CountedAfterRelease(porDominio: map<Dominio, nat>, ends: Ends, a: Addr, d: Dominio)
    requires Contagens(porDominio, ends) && a in ends && d in ends[a].dominios
    ensures Contagem(porDominio, d) > 0
    ensures var q := ends[a].(dominios := ends[a].dominios - {d});
            forall e :: |Reivindicados(ends[a := q], e)| == Contagem(porDominio, e) - if e == d then 1 else 0
  {
    var q := ends[a].(dominios := ends[a].dominios - {d});
    var depois := ends[a := q];
    forall e ensures |Reivindicados(depois, e)| == Contagem(porDominio, e) - if e == d then 1 else 0 {
      ClaimsSizes(ends, a, q, e);
    }
    assert a in Reivindicados(ends, d);
  }

  lemma SavingOne(poco: Poco, a: Addr, vence: int, agora: int)
    ensures DomTargets.GuardarEnsaio(poco, [a], vence, agora) == GuardarUm(poco, a, vence, agora)
  {
    assert [a][..0] == [];
  }

  lemma SameClaims(porDominio: map<Dominio, nat>, ends: Ends, a: Addr, r: Registro)
    requires a in ends && r.dominios == ends[a].dominios && Contagens(porDominio, ends)
    ensures Contagens(porDominio, ends[a := r])
  {
    var depois := ends[a := r];
    forall e ensures Contagem(porDominio, e) == |Reivindicados(depois, e)| { ClaimsSizes(ends, a, r, e); }
  }

  lemma ConfirmarStep(ends: Ends, s: set<Addr>, a: Addr, agora: int)
    ensures var x := ConfirmarEnds(ends, s, agora);
            ConfirmarEnds(ends, s + {a}, agora) ==
            if a in x && x[a].pendente.Some? then x[a := Confirmado(x[a], agora)] else x
  {
  }

  lemma NaoConfirmadoStep(ends: Ends, s: set<Addr>, a: Addr)
    ensures var x := NaoConfirmadoEnds(ends, s);
            NaoConfirmadoEnds(ends, s + {a}) ==
            if a in x && x[a].pendente.Some?
            then if x[a].escrito.None? then x - {a} else x[a := x[a].(pendente := None, duvidoso := true)]
            else x
  {
  }

  /** The pending entries among `s`: the ones NaoConfirmado answers for. */
  ghost function Pendentes(ends: Ends, s: set<Addr>): set<Addr> {
    set a | a in s && a in ends && ends[a].pendente.Some?
  }

  lemma PendentesStep(ends: Ends, s: set<Addr>, a: Addr)
    ensures var x := NaoConfirmadoEnds(ends, s);
            |Pendentes(ends, s + {a})| == |Pendentes(ends, s)| + if a in x && x[a].pendente.Some? then 1 else 0
  {
    var x := NaoConfirmadoEnds(ends, s);
    if a in x && x[a].pendente.Some? {
      assert Pendentes(ends, s + {a}) == Pendentes(ends, s) + {a};
    } else {
      assert Pendentes(ends, s + {a}) == Pendentes(ends, s);
    }
  }

  /** PodarEnds with only the addresses outside `faltam` looked at yet. */
  function PodarAlguns(ends: Ends, faltam: set<Addr>, corte: int): Ends {
    map a | a in ends && (a in faltam || !Vencido(ends[a], corte)) :: ends[a]
  }

  lemma PodarStep(ends: Ends, faltam: set<Addr>, a: Addr, corte: int)
    requires a in faltam && a in ends
    ensures var x := PodarAlguns(ends, faltam, corte);
            PodarAlguns(ends, faltam - {a}, corte) == if Vencido(ends[a], corte) then x - {a} else x
    ensures |PodarAlguns(ends, faltam, corte) - {a}| == |PodarAlguns(ends, faltam, corte)| - 1
  {
    var x := PodarAlguns(ends, faltam, corte);
    MapSize(x);
    MapSize(x - {a});
    assert (x - {a}).Keys == x.Keys - {a};
  }

  // ----- the walk of DefinirAlvos, address by address

  /** The entries when only the addresses outside `faltam` have been looked at. */
  ghost function EndsParcial(novos: Alvos, ends: Ends, faltam: set<Addr>): Ends {
    map a | a in ends && (a in faltam || DomTargets.Destino(novos, a, ends[a].dominios).Some?) ::
      if a in faltam then ends[a] else Reconciliado(novos, a, ends[a])
  }

  ghost predicate AjusteParcial(novos: Alvos, ends: Ends, faltam: set<Addr>, aj: Ajuste) {
    && (forall e :: e in aj.escritas <==> EscritaDevida(novos, ends, e) && e.addr !in faltam)
    && (forall m :: m in aj.remocoes <==> RemocaoDevida(novos, ends, m) && m.addr !in faltam)
    && SemRepeticao(aj)
  }

  ghost function RebaixadosAlguns(novos: Alvos, ends: Ends, faltam: set<Addr>, d: Dominio): Poco {
    map a | a in Rebaixados(novos, ends, d) && a !in faltam :: Rebaixados(novos, ends, d)[a]
  }

  ghost predicate PocoParcial(novos: Alvos, antes: Pocos, ends: Ends, faltam: set<Addr>, pocos: Pocos, d: Dominio) {
    PocoPossivel(PocoDe(antes, d), RebaixadosAlguns(novos, ends, faltam, d), PocoDe(pocos, d))
  }

  /** What one entry adds to the adjustment under the list `novos`. */
  ghost function AjusteCom(novos: Alvos, aj: Ajuste, a: Addr, r: Registro): Ajuste {
    var c := DomTargets.Destino(novos, a, r.dominios);
    Ajuste(if MudaDeLugar(novos, a, r) then aj.escritas + [Escrita(a, r.concedido, c.value, false)] else aj.escritas,
           if r.escrito.Some? && c != r.escrito then aj.remocoes + [Remocao(a, r.escrito.value.cap)] else aj.remocoes)
  }

  ghost predicate Guarda(novos: Alvos, r: Registro, d: Dominio) { d in r.dominios && d in novos && !EhAtivo(novos, d) }

  /** One entry's addresses saved in the pools of the domains that just lost it. */
  ghost predicate PocoComEste(novos: Alvos, antes: Pocos, depois: Pocos, a: Addr, r: Registro, agora: int, d: Dominio) {
    PocoDe(depois, d) == if Guarda(novos, r, d) then GuardarUm(PocoDe(antes, d), a, r.expira, agora)
      else PocoDe(antes, d)
  }

  /** The same with only the domains outside `faltam` looked at. */
  ghost predicate PocoComAlguns(novos: Alvos, antes: Pocos, depois: Pocos, a: Addr, r: Registro, agora: int,
                                faltam: set<Dominio>, d: Dominio) {
    PocoDe(depois, d) == if Guarda(novos, r, d) && d !in faltam
      then GuardarUm(PocoDe(antes, d), a, r.expira, agora) else PocoDe(antes, d)
  }

  lemma OneDomainLooked(novos: Alvos, antes: Pocos, pocos: Pocos, depois: Pocos, a: Addr, r: Registro, agora: int,
                        faltam: set<Dominio>, d: Dominio)
    requires d in faltam && d in r.dominios
    requires forall e :: PocoComAlguns(novos, antes, pocos, a, r, agora, faltam, e)
    requires forall e | e != d :: PocoDe(depois, e) == PocoDe(pocos, e)
    requires PocoDe(depois, d) == if Guarda(novos, r, d) then GuardarUm(PocoDe(pocos, d), a, r.expira, agora)
        else PocoDe(pocos, d)
    ensures forall e :: PocoComAlguns(novos, antes, depois, a, r, agora, faltam - {d}, e)
  {
    forall e ensures PocoComAlguns(novos, antes, depois, a, r, agora, faltam - {d}, e) {
      assert PocoComAlguns(novos, antes, pocos, a, r, agora, faltam, e);
    }
  }

  /** The entry of `a` is `r` with the claimants `doms`; every other entry is as it was. */
  ghost predicate FicouCom(antes: Ends, depois: Ends, a: Addr, r: Registro, doms: set<Dominio>) {
    depois == antes[a := r.(dominios := doms)]
  }

  lemma OneLessClaimant(alvos: Alvos, antes: Ends, ends: Ends, depois: Ends, a: Addr, r: Registro,
                        faltam: set<Dominio>, d: Dominio)
    requires var ativos := Ativos(alvos, r.dominios);
      faltam <= r.dominios && d in faltam && FicouCom(antes, ends, a, r, faltam + ativos)
    requires var q := ends[a];
      depois == ends[a := q.(dominios := if EhAtivo(alvos, d) then q.dominios else q.dominios - {d})]
    ensures FicouCom(antes, depois, a, r, faltam - {d} + Ativos(alvos, r.dominios))
  {
    var ativos := Ativos(alvos, r.dominios);
    assert (if EhAtivo(alvos, d) then faltam + ativos else faltam + ativos - {d}) == faltam - {d} + ativos;
  }

  lemma AllClaimantsAtFirst(alvos: Alvos, antes: Ends, a: Addr)
    requires a in antes
    ensures FicouCom(antes, antes, a, antes[a], antes[a].dominios + Ativos(alvos, antes[a].dominios))
  {
    assert antes[a].dominios + Ativos(alvos, antes[a].dominios) == antes[a].dominios;
    assert antes[a].(dominios := antes[a].dominios) == antes[a];
  }

  lemma AllDomainsLooked(novos: Alvos, antes: Pocos, depois: Pocos, a: Addr, r: Registro, agora: int)
    requires forall e :: PocoComAlguns(novos, antes, depois, a, r, agora, {}, e)
    ensures forall e :: PocoComEste(novos, antes, depois, a, r, agora, e)
  {
    forall e ensures PocoComEste(novos, antes, depois, a, r, agora, e) {
      assert PocoComAlguns(novos, antes, depois, a, r, agora, {}, e);
    }
  }

  lemma EndsParcialStep(novos: Alvos, ends: Ends, faltam: set<Addr>, a: Addr)
    requires a in faltam && a in ends
    ensures var x := EndsParcial(novos, ends, faltam);
            a in x && x[a] == ends[a] &&
            EndsParcial(novos, ends, faltam - {a}) ==
            if DomTargets.Destino(novos, a, ends[a].dominios).Some?
              then x[a := Reconciliado(novos, a, ends[a])] else x - {a}
  {
  }

  lemma EndsParcialEnds(novos: Alvos, ends: Ends)
    ensures EndsParcial(novos, ends, ends.Keys) == ends
        && EndsParcial(novos, ends, {}) == EndsReconciliados(novos, ends)
  {
  }

  lemma AjusteParcialStep(novos: Alvos, ends: Ends, faltam: set<Addr>, aj: Ajuste, a: Addr)
    requires a in faltam && a in ends && AjusteParcial(novos, ends, faltam, aj)
    ensures AjusteParcial(novos, ends, faltam - {a}, AjusteCom(novos, aj, a, ends[a]))
  {
    var c := DomTargets.Destino(novos, a, ends[a].dominios);
    var p := AjusteCom(novos, aj, a, ends[a]);
    forall e ensures e in p.escritas <==> EscritaDevida(novos, ends, e) && e.addr !in faltam - {a} {
      assert e in aj.escritas <==> EscritaDevida(novos, ends, e) && e.addr !in faltam;
    }
    forall m ensures m in p.remocoes <==> RemocaoDevida(novos, ends, m) && m.addr !in faltam - {a} {
      assert m in aj.remocoes <==> RemocaoDevida(novos, ends, m) && m.addr !in faltam;
    }
    forall i, j | 0 <= i < j < |p.escritas|
      ensures p.escritas[i].addr != p.escritas[j].addr
    {
      assert p.escritas[i] in aj.escritas;
    }
    forall i, j | 0 <= i < j < |p.remocoes|
      ensures p.remocoes[i].addr != p.remocoes[j].addr
    {
      assert p.remocoes[i] in aj.remocoes;
    }
  }

  lemma SaveOver(antes: Poco, novos: Poco, a: Addr, v: int)
    ensures antes + novos[a := v] == (antes + novos)[a := v]
  {
  }

  lemma OneMoreToSave(antes: Poco, novos: Poco, a: Addr, v: int)
    ensures antes + novos[a := v] == (antes + novos)[a := v]
    ensures |antes + novos[a := v]| == |antes + novos| + if a in antes + novos then 0 else 1
  {
    SaveOver(antes, novos, a, v);
    InsertSize(antes + novos, a, v);
  }

  lemma SavedWhereThereIsRoom(antes: Poco, novos: Poco, depois: Poco, a: Addr, v: int)
    requires PocoPossivel(antes, novos, depois) && (a in depois || |depois| < MAX_POR_DOMINIO)
    ensures PocoPossivel(antes, novos[a := v], depois[a := v])
  {
    OneMoreToSave(antes, novos, a, v);
    InsertSize(depois, a, v);
  }

  lemma SavedWhereItIsFull(antes: Poco, novos: Poco, depois: Poco, limpo: Poco, a: Addr, v: int)
    requires PocoPossivel(antes, novos, depois) && a !in depois && |depois| >= MAX_POR_DOMINIO && a !in novos
    requires limpo.Keys <= depois.Keys + {a} && (forall x | x in limpo :: limpo[x] == if x == a then v else depois[x])
    requires |limpo| <= |depois|
    ensures PocoPossivel(antes, novos[a := v], limpo)
  {
    OneMoreToSave(antes, novos, a, v);
  }

  /** Saving one more address keeps the pool within what some order of saving allows. */
  lemma PocoPossivelStep(antes: Poco, novos: Poco, depois: Poco, a: Addr, v: int, agora: int)
    requires PocoPossivel(antes, novos, depois) && a !in novos && Utilizavel(a)
    ensures PocoPossivel(antes, novos[a := v], GuardarUm(depois, a, v, agora))
  {
    if a in depois || |depois| < MAX_POR_DOMINIO {
      SavedWhereThereIsRoom(antes, novos, depois, a, v);
    } else {
      var limpo := LimparVencido(depois, agora);
      LimparSize(depois, agora);
      InsertSize(limpo, a, v);
      SavedWhereItIsFull(antes, novos, depois, GuardarUm(depois, a, v, agora), a, v);
    }
  }

  lemma RebaixadosStep(novos: Alvos, ends: Ends, faltam: set<Addr>, a: Addr, d: Dominio)
    requires a in faltam && a in ends
    ensures a !in RebaixadosAlguns(novos, ends, faltam, d)
    ensures RebaixadosAlguns(novos, ends, faltam - {a}, d) ==
            if Guarda(novos, ends[a], d) then RebaixadosAlguns(novos, ends, faltam, d)[a := ends[a].expira]
            else RebaixadosAlguns(novos, ends, faltam, d)
  {
  }

  lemma PocoParcialStep(novos: Alvos, antes: Pocos, ends: Ends, faltam: set<Addr>, pocos: Pocos, depois: Pocos,
    a: Addr, agora: int, d: Dominio)
    requires a in faltam && a in ends && Utilizavel(a)
    requires PocoParcial(novos, antes, ends, faltam, pocos, d)
        && PocoComEste(novos, pocos, depois, a, ends[a], agora, d)
    ensures PocoParcial(novos, antes, ends, faltam - {a}, depois, d)
  {
    RebaixadosStep(novos, ends, faltam, a, d);
    if Guarda(novos, ends[a], d) {
      PocoPossivelStep(PocoDe(antes, d), RebaixadosAlguns(novos, ends, faltam, d), PocoDe(pocos, d), a,
        ends[a].expira, agora);
    }
  }

  /** A domain that leaves the list loses what it had taught. */
  function SoListados(novos: Alvos, pocos: Pocos): Pocos {
    map d | d in pocos && d in novos :: pocos[d]
  }

  lemma ListedPools(st: Estado, novos: Alvos)
    requires Valido(st)
    ensures forall d :: |PocoDe(SoListados(novos, st.ensaiados), d)| <= MAX_POR_DOMINIO
    ensures forall a | a in st.ends :: Utilizavel(a)
  {
    forall a | a in st.ends ensures Utilizavel(a) { assert RegistroValido(st.alvos, a, st.ends[a]); }
  }

  lemma WalkIsRodada(st: Estado, novos: Alvos, o: Obra, pocos: Pocos)
    requires Valido(st) && pocos.Keys <= novos.Keys && o.ends == EndsReconciliados(novos, st.ends)
    requires AjusteParcial(novos, st.ends, {}, o.aj)
    requires forall d :: PocoParcial(novos, SoListados(novos, st.ensaiados), st.ends, {}, pocos, d)
    ensures Rodada(st, novos, o, pocos)
  {
    ListedPools(st, novos);
    forall d ensures PocoDepois(st, novos, pocos, d) {
      assert PocoParcial(novos, SoListados(novos, st.ensaiados), st.ends, {}, pocos, d);
      PocoParcialEnds(novos, SoListados(novos, st.ensaiados), st.ends, d);
      assert PocoDe(SoListados(novos, st.ensaiados), d) == PocoListado(novos, st.ensaiados, d);
    }
  }

  lemma PocoParcialEnds(novos: Alvos, antes: Pocos, ends: Ends, d: Dominio)
    requires |PocoDe(antes, d)| <= MAX_POR_DOMINIO
    ensures PocoParcial(novos, antes, ends, ends.Keys, antes, d)
    ensures RebaixadosAlguns(novos, ends, {}, d) == Rebaixados(novos, ends, d)
  {
    assert RebaixadosAlguns(novos, ends, ends.Keys, d) == map[];
    assert PocoDe(antes, d) + map[] == PocoDe(antes, d);
  }

  function Conjunto(addrs: seq<Addr>): set<Addr> { set a | a in addrs }

  lemma ConjuntoEnds(addrs: seq<Addr>)
    ensures Conjunto(addrs[..0]) == {} && Conjunto(addrs[..|addrs|]) == Conjunto(addrs)
  {
    assert addrs[..|addrs|] == addrs;
  }

  lemma AnswersToNone(ends: Ends, agora: int)
    ensures ConfirmarEnds(ends, {}, agora) == ends && NaoConfirmadoEnds(ends, {}) == ends && Pendentes(ends, {}) == {}
  {
  }

  lemma ConjuntoSnoc(addrs: seq<Addr>, i: nat)
    requires i < |addrs|
    ensures Conjunto(addrs[..i + 1]) == Conjunto(addrs[..i]) + {addrs[i]}
  {
    assert addrs[..i + 1] == addrs[..i] + [addrs[i]];
  }

  ghost predicate Direcionados(alvos: Alvos, ns: seq<Dominio>) {
    forall d | d in ns && EhAtivo(alvos, d) :: alvos[d].capacidade == Direcionar
  }

  ghost predicate NenhumAtivo(alvos: Alvos, ns: seq<Dominio>) { forall d | d in ns :: !EhAtivo(alvos, d) }

  /** The first active name of a sorted list is the least. */
  lemma FirstIsLeast(alvos: Alvos, dominios: set<Dominio>, ns: seq<Dominio>, i: nat)
    requires SortedOf(ns, dominios, StrLess) && i < |ns| && NenhumAtivo(alvos, ns[..i]) && EhAtivo(alvos, ns[i])
    ensures EhMenor(ns[i], Ativos(alvos, dominios))
  {
    assert ns[i] in dominios;
    forall j | 0 <= j < i ensures ns[j] in ns[..i] { assert ns[..i][j] == ns[j]; }
    forall x | x in Ativos(alvos, dominios) && x != ns[i] ensures StrLess(ns[i], x) { assert x in ns; }
  }

  lemma MenorIs(m: Dominio, s: set<Dominio>)
    requires EhMenor(m, s)
    ensures EhMenor(Menor(s), s) && Menor(s) == m
  {
    StrTotal(m, Menor(s));
  }

  class Indice {
    var alvos: Alvos
    var ends: Ends
    var porDominio: map<Dominio, nat>
    var ensaiados: Pocos
    var protegidos: set<Addr>

    ghost function Valor(): Estado
      reads this
    {
      Estado(alvos, ends, ensaiados, protegidos)
    }

    ghost predicate Valid()
      reads this
    {
      Valido(Valor()) && Contagens(porDominio, ends)
    }

    constructor ()
      ensures Valid() && Valor() == Estado(map[], map[], map[], {})
    {
      alvos, ends, porDominio, ensaiados, protegidos := map[], map[], map[], map[], {};
      new;
      assert forall d :: Reivindicados(ends, d) == {};
    }

    method DefinirProtegidos(faixas: set<Addr>)
      requires Valid()
      modifies this
      ensures Valid() && Valor() == old(Valor()).(protegidos := faixas)
    {
      protegidos := faixas;
    }

    method BaixarContagem(d: Dominio)
      modifies this`porDominio
      ensures Contagem(porDominio, d) == if Contagem(old(porDominio), d) > 0
          then Contagem(old(porDominio), d) - 1 else 0
      ensures forall e | e != d :: Contagem(porDominio, e) == Contagem(old(porDominio), e)
    {
      var n: int := Contagem(porDominio, d) - 1;
      if n <= 0 {
        porDominio := porDominio - {d};
      } else {
        porDominio := porDominio[d := n];
      }
    }

    /** Takes an address out of the index and gives its claimants their places back. */
    method Soltar(addr: Addr)
      requires addr in ends && Contagens(porDominio, ends)
      modifies this`ends, this`porDominio
      ensures ends == old(ends) - {addr} && Contagens(porDominio, ends)
    {
      var faltam := ends[addr].dominios;
      while faltam != {}
        invariant ends == old(ends) && faltam <= ends[addr].dominios
        invariant forall d :: Contagem(porDominio, d) ==
                              |Reivindicados(ends, d)| - if d in ends[addr].dominios - faltam then 1 else 0
        decreases |faltam|
      {
        var d :| d in faltam;
        faltam := faltam - {d};
        assert addr in Reivindicados(ends, d);
        BaixarContagem(d);
      }
      forall d ensures Contagem(porDominio, d) == |Reivindicados(ends - {addr}, d)| { ClaimsWithout(ends, addr, d); }
      ends := ends - {addr};
    }

    method CapEfetiva(dominios: set<Dominio>) returns (c: Option<Lugar>)
      ensures c == DomTargets.CapEfetiva(alvos, dominios)
    {
      StrTotalOn(dominios);
      var nomes := Sort(dominios, StrLess);
      var marca, achou := 0, false;
      ghost var ativos := Ativos(alvos, dominios);
      for i := 0 to |nomes|
        invariant Direcionados(alvos, nomes[..i])
        invariant !achou ==> NenhumAtivo(alvos, nomes[..i])
        invariant achou ==> exists m :: EhMenor(m, ativos) && marca == alvos[m].marca
      {
        var d := nomes[i];
        assert d in dominios && nomes[..i + 1] == nomes[..i] + [d];
        if EhAtivo(alvos, d) {
          if alvos[d].capacidade == Barrar {
            assert d in ativos;
            return Some(Lugar(Barrar, 0));
          }
          if !achou {
            FirstIsLeast(alvos, dominios, nomes, i);
            achou, marca := true, alvos[d].marca;
          }
        }
      }
      assert nomes[..|nomes|] == nomes;
      assert forall d | d in ativos :: d in nomes;
      if achou {
        ghost var m :| EhMenor(m, ativos) && marca == alvos[m].marca;
        MenorIs(m, ativos);
        return Some(Lugar(Direcionar, marca));
      }
      return None;
    }

    method Destino(a: Addr, dominios: set<Dominio>) returns (c: Option<Lugar>)
      ensures c == DomTargets.Destino(alvos, a, dominios)
    {
      c := CapEfetiva(dominios);
      if c.Some? && !PodeEntrar(a, c.value.cap) {
        c := None;
      }
    }

    /** The decision about one address; the counts stay in step with the claims. */
    method AbsorverEndereco(aj: Ajuste, d: Dominio, a: Addr, prazo: int, agora: int) returns (aj': Ajuste)
      requires d in alvos && Contagens(porDominio, ends)
      modifies this`ends, this`porDominio
      ensures Contagens(porDominio, ends)
      ensures Obra(ends, aj') == Absorver(alvos, Obra(old(ends), aj), d, a, prazo, agora)
    {
      if a in ends {
        aj' := AbsorverConhecido(aj, d, a, prazo, agora);
        return;
      }
      if |ends| >= MAX_ENDERECOS || Contagem(porDominio, d) >= MAX_POR_DOMINIO {
        return aj;
      }
      var l := Lugar(alvos[d].capacidade, alvos[d].marca);
      var r := Registro({d}, agora + prazo, prazo, None, false, Some(Pedido(prazo, l)));
      CountedAfterClaim(porDominio, ends, a, r, d);
      porDominio := porDominio[d := Contagem(porDominio, d) + 1];
      ends := ends[a := r];
      aj' := aj.(escritas := aj.escritas + [Escrita(a, prazo, l, false)]);
    }

    method Creditar(d: Dominio, a: Addr)
      requires a in ends && Contagens(porDominio, ends)
      modifies this`ends, this`porDominio
      ensures Contagens(porDominio, ends)
      ensures ends == old(ends)[a := Creditado(old(ends), d, a)]
    {
      var r := ends[a];
      if d !in r.dominios && Contagem(porDominio, d) < MAX_POR_DOMINIO {
        var q := r.(dominios := r.dominios + {d});
        CountedAfterClaim(porDominio, ends, a, q, d);
        porDominio := porDominio[d := Contagem(porDominio, d) + 1];
        ends := ends[a := q];
      }
    }

    method AbsorverConhecido(aj: Ajuste, d: Dominio, a: Addr, prazo: int, agora: int) returns (aj': Ajuste)
      requires a in ends && d in alvos && Contagens(porDominio, ends)
      modifies this`ends, this`porDominio
      ensures Contagens(porDominio, ends)
      ensures Obra(ends, aj') == DomTargets.AbsorverConhecido(alvos, Obra(old(ends), aj), d, a, prazo, agora)
    {
      Creditar(d, a);
      var r := ends[a];
      var c := Destino(a, r.dominios);
      if c.None? || r.pendente.Some? {
        return aj;
      }
      var trocou := r.escrito != c;
      if !trocou && !Vencendo(r, agora) {
        return aj;
      }
      aj' := aj;
      if trocou && r.escrito.Some? {
        aj' := aj'.(remocoes := aj'.remocoes + [Remocao(a, r.escrito.value.cap)]);
      }
      var q := r.(pendente := Some(Pedido(prazo, c.value)));
      SameClaims(porDominio, ends, a, q);
      ends := ends[a := q];
      aj' := aj'.(escritas := aj'.escritas + [Escrita(a, prazo, c.value, !trocou)]);
    }

    method AbsorverLista(aj: Ajuste, d: Dominio, itens: seq<Item>, agora: int) returns (aj': Ajuste)
      requires d in alvos && Contagens(porDominio, ends)
      modifies this`ends, this`porDominio
      ensures Contagens(porDominio, ends)
      ensures Obra(ends, aj') == DomTargets.AbsorverLista(alvos, protegidos, Obra(old(ends), aj), d, itens, agora)
    {
      aj' := aj;
      for i := 0 to |itens|
        invariant Contagens(porDominio, ends)
        invariant Obra(ends, aj') == DomTargets.AbsorverLista(alvos, protegidos, Obra(old(ends), aj), d, itens[..i],
            agora)
      {
        assert itens[..i + 1][..i] == itens[..i];
        if Aceitavel(protegidos, itens[i].addr) && PodeEntrar(itens[i].addr, alvos[d].capacidade) {
          aj' := AbsorverEndereco(aj', d, itens[i].addr, itens[i].prazo, agora);
        }
      }
      assert itens[..|itens|] == itens;
    }

    method GuardarEnsaio(d: Dominio, addrs: seq<Addr>, prazo: int, agora: int)
      modifies this`ensaiados
      ensures ensaiados == old(ensaiados)[d := DomTargets.GuardarEnsaio(PocoDe(old(ensaiados), d), addrs,
          agora + prazo, agora)]
    {
      var poco := PocoDe(ensaiados, d);
      var vence := agora + prazo;
      for i := 0 to |addrs|
        invariant ensaiados == old(ensaiados)
        invariant poco == DomTargets.GuardarEnsaio(PocoDe(ensaiados, d), addrs[..i], vence, agora)
      {
        var a := addrs[i];
        assert addrs[..i + 1][..i] == addrs[..i];
        if !Utilizavel(a) { continue; }
        if a in poco {
          poco := poco[a := vence];
          continue;
        }
        if |poco| >= MAX_POR_DOMINIO {
          poco := LimparVencido(poco, agora);
          if |poco| >= MAX_POR_DOMINIO { continue; }
        }
        poco := poco[a := vence];
      }
      assert addrs[..|addrs|] == addrs;
      ensaiados := ensaiados[d := poco];
    }

    /** The most specific listed domain that covers the name, label by label. */
    method Casar(nome: string) returns (c: Option<Dominio>)
      ensures c == CasarEm(alvos, nome)
    {
      var n := Normalizado(nome);
      while n != []
        invariant CasarRotulos(alvos, n) == CasarEm(alvos, nome)
        decreases |n|
      {
        if n in alvos { return Some(n); }
        n := n[AposPonto(n)..];
      }
      return None;
    }

    method Aprender(nome: string, addrs: seq<Addr>, ttl: int, agora: int) returns (aj: Ajuste)
      requires Valid()
      modifies this
      ensures Valid() && (Valor(), aj) == DomTargets.Aprender(old(Valor()), nome, addrs, ttl, agora)
    {
      AprenderKeeps(Valor(), nome, addrs, ttl, agora);
      aj := AprenderUm(nome, addrs, ttl, agora);
    }

    method AprenderUm(nome: string, addrs: seq<Addr>, ttl: int, agora: int) returns (aj: Ajuste)
      requires Contagens(porDominio, ends)
      modifies this
      ensures Contagens(porDominio, ends)
      ensures (Valor(), aj) == DomTargets.Aprender(old(Valor()), nome, addrs, ttl, agora)
    {
      CasarIsListed(alvos, nome);
      var c := Casar(nome);
      if c.None? { return VAZIO; }
      if !EhAtivo(alvos, c.value) {
        GuardarEnsaio(c.value, addrs, Grampear(ttl), agora);
        return VAZIO;
      }
      aj := AbsorverLista(VAZIO, c.value, Itens(addrs, Grampear(ttl)), agora);
    }

    method Confirmar(addrs: seq<Addr>, agora: int)
      requires Valid()
      modifies this`ends
      ensures Valid() && Valor() == old(Valor()).(ends := ConfirmarEnds(old(ends), Conjunto(addrs), agora))
    {
      ConfirmarKeeps(alvos, ends, Conjunto(addrs), agora);
      ConfirmarTodos(addrs, agora);
    }

    method ConfirmarTodos(addrs: seq<Addr>, agora: int)
      requires Contagens(porDominio, ends)
      modifies this`ends
      ensures Contagens(porDominio, ends)
      ensures ends == ConfirmarEnds(old(ends), Conjunto(addrs), agora)
    {
      ghost var antes := ends;
      ConjuntoEnds(addrs);
      AnswersToNone(ends, agora);
      for i := 0 to |addrs|
        invariant Contagens(porDominio, ends)
        invariant ends == ConfirmarEnds(antes, Conjunto(addrs[..i]), agora)
      {
        ConfirmarStep(antes, Conjunto(addrs[..i]), addrs[i], agora);
        ConjuntoSnoc(addrs, i);
        ConfirmarUm(addrs[i], agora);
      }
    }

    method ConfirmarUm(a: Addr, agora: int)
      requires Contagens(porDominio, ends)
      modifies this`ends
      ensures Contagens(porDominio, ends)
      ensures ends == if a in old(ends) && old(ends)[a].pendente.Some?
          then old(ends)[a := Confirmado(old(ends)[a], agora)] else old(ends)
    {
      if a in ends && ends[a].pendente.Some? {
        SameClaims(porDominio, ends, a, Confirmado(ends[a], agora));
        ends := ends[a := Confirmado(ends[a], agora)];
      }
    }

    method NaoConfirmado(addrs: seq<Addr>) returns (n: nat)
      requires Valid()
      modifies this`ends, this`porDominio
      ensures Valid() && Valor() == old(Valor()).(ends := NaoConfirmadoEnds(old(ends), Conjunto(addrs)))
      ensures n == |Pendentes(old(ends), Conjunto(addrs))|
    {
      NaoConfirmadoKeeps(alvos, ends, Conjunto(addrs));
      n := NaoConfirmadoTodos(addrs);
    }

    method NaoConfirmadoTodos(addrs: seq<Addr>) returns (n: nat)
      requires Contagens(porDominio, ends)
      modifies this`ends, this`porDominio
      ensures Contagens(porDominio, ends)
      ensures ends == NaoConfirmadoEnds(old(ends), Conjunto(addrs))
      ensures n == |Pendentes(old(ends), Conjunto(addrs))|
    {
      ghost var antes := ends;
      ConjuntoEnds(addrs);
      AnswersToNone(ends, 0);
      n := 0;
      for i := 0 to |addrs|
        invariant Contagens(porDominio, ends)
        invariant ends == NaoConfirmadoEnds(antes, Conjunto(addrs[..i]))
        invariant n == |Pendentes(antes, Conjunto(addrs[..i]))|
      {
        NaoConfirmadoStep(antes, Conjunto(addrs[..i]), addrs[i]);
        PendentesStep(antes, Conjunto(addrs[..i]), addrs[i]);
        ConjuntoSnoc(addrs, i);
        var m := NaoConfirmadoUm(addrs[i]);
        n := n + m;
      }
    }

    method NaoConfirmadoUm(a: Addr) returns (n: nat)
      requires Contagens(porDominio, ends)
      modifies this`ends, this`porDominio
      ensures Contagens(porDominio, ends)
      ensures n == if a in old(ends) && old(ends)[a].pendente.Some? then 1 else 0
      ensures ends == if n == 0 then old(ends)
                      else if old(ends)[a].escrito.None? then old(ends) - {a}
                      else old(ends)[a := old(ends)[a].(pendente := None, duvidoso := true)]
    {
      if !(a in ends && ends[a].pendente.Some?) { return 0; }
      n := 1;
      if ends[a].escrito.None? {
        Soltar(a);
      } else {
        var r := ends[a].(pendente := None, duvidoso := true);
        SameClaims(porDominio, ends, a, r);
        ends := ends[a := r];
      }
    }

    method Podar(agora: int) returns (n: nat)
      requires Valid()
      modifies this`ends, this`porDominio, this`ensaiados
      ensures Valid() && Valor() == DomTargets.Podar(old(Valor()), agora)
      ensures n == |old(ends)| - |ends|
    {
      ghost var st := Valor();
      ghost var st' := DomTargets.Podar(st, agora);
      PodarKeeps(st, agora);
      n := PodarEntradas(agora - FOLGA_DE_PODA);
      PodarEnsaiados(agora - FOLGA_DE_PODA);
      assert Valor() == st';
    }

    method PodarEntradas(corte: int) returns (n: nat)
      requires Contagens(porDominio, ends)
      modifies this`ends, this`porDominio
      ensures Contagens(porDominio, ends) && ends == PodarEnds(old(ends), corte) && n == |old(ends)| - |ends|
    {
      n := 0;
      var faltam := ends.Keys;
      while faltam != {}
        invariant Contagens(porDominio, ends) && faltam <= ends.Keys
        invariant ends == PodarAlguns(old(ends), faltam, corte)
        invariant n == |old(ends)| - |ends|
        decreases |faltam|
      {
        var addr :| addr in faltam;
        PodarStep(old(ends), faltam, addr, corte);
        faltam := faltam - {addr};
        if Vencido(ends[addr], corte) {
          Soltar(addr);
          n := n + 1;
        }
      }
    }

    method PodarEnsaiados(corte: int)
      modifies this`ensaiados
      ensures ensaiados == PodarPocos(old(ensaiados), corte)
    {
      var faltam := ensaiados.Keys;
      while faltam != {}
        invariant faltam <= ensaiados.Keys <= old(ensaiados).Keys
        invariant forall d | d in old(ensaiados) :: d in faltam ==> ensaiados[d] == old(ensaiados)[d]
        invariant forall d | d in old(ensaiados) && d !in faltam ::
                    d in ensaiados <==> LimparVencido(old(ensaiados)[d], corte) != map[]
        invariant forall d | d in ensaiados && d !in faltam :: ensaiados[d] == LimparVencido(old(ensaiados)[d], corte)
        decreases |faltam|
      {
        var d :| d in faltam;
        faltam := faltam - {d};
        var poco := LimparVencido(ensaiados[d], corte);
        ensaiados := if poco == map[] then ensaiados - {d} else ensaiados[d := poco];
      }
    }

    /** `d` stops claiming `addr`. */
    method Largar(addr: Addr, d: Dominio)
      requires addr in ends && d in ends[addr].dominios && Contagens(porDominio, ends)
      modifies this`ends, this`porDominio
      ensures Contagens(porDominio, ends)
      ensures ends == old(ends)[addr := old(ends)[addr].(dominios := old(ends)[addr].dominios - {d})]
    {
      CountedAfterRelease(porDominio, ends, addr, d);
      BaixarContagem(d);
      ends := ends[addr := ends[addr].(dominios := ends[addr].dominios - {d})];
    }

    /** A demoted domain that is still listed keeps knowing the address. */
    method Lembrar(addr: Addr, d: Dominio, vence: int, agora: int)
      modifies this`ensaiados
      ensures PocoDe(ensaiados, d) ==
              if d in alvos then GuardarUm(PocoDe(old(ensaiados), d), addr, vence, agora) else PocoDe(old(ensaiados), d)
      ensures forall e | e != d :: PocoDe(ensaiados, e) == PocoDe(old(ensaiados), e)
      ensures ensaiados.Keys <= old(ensaiados).Keys + alvos.Keys
    {
      if d in alvos {
        SavingOne(PocoDe(ensaiados, d), addr, vence, agora);
        GuardarEnsaio(d, [addr], vence - agora, agora);
      }
    }

    /** One claimant looked at: it stays if it is still active. */
    method RetirarUm(addr: Addr, d: Dominio, agora: int)
      requires addr in ends && d in ends[addr].dominios && Contagens(porDominio, ends)
      modifies this`ends, this`porDominio, this`ensaiados
      ensures Contagens(porDominio, ends)
      ensures var r := old(ends)[addr];
              ends == old(ends)[addr := r.(dominios := if EhAtivo(alvos, d) then r.dominios else r.dominios - {d})]
      ensures forall e | e != d :: PocoDe(ensaiados, e) == PocoDe(old(ensaiados), e)
      ensures PocoDe(ensaiados, d) == if Guarda(alvos, old(ends)[addr], d)
                                      then GuardarUm(PocoDe(old(ensaiados), d), addr, old(ends)[addr].expira, agora)
                                      else PocoDe(old(ensaiados), d)
      ensures ensaiados.Keys <= old(ensaiados).Keys + alvos.Keys
    {
      if !EhAtivo(alvos, d) {
        Lembrar(addr, d, ends[addr].expira, agora);
        Largar(addr, d);
      } else {
        assert ends == ends[addr := ends[addr]];
      }
    }

    /** Inner loop of the walk: who is no longer active stops claiming `addr`, and remembers it if still listed. */
    method RetirarInativos(addr: Addr, agora: int)
      requires addr in ends && Contagens(porDominio, ends)
      modifies this`ends, this`porDominio, this`ensaiados
      ensures Contagens(porDominio, ends)
      ensures ends == old(ends)[addr := old(ends)[addr].(dominios := Ativos(alvos, old(ends)[addr].dominios))]
      ensures forall d :: PocoComEste(alvos, old(ensaiados), ensaiados, addr, old(ends)[addr], agora, d)
      ensures ensaiados.Keys <= old(ensaiados).Keys + alvos.Keys
    {
      ghost var antes, pocosAntes, r := ends, ensaiados, ends[addr];
      ghost var ativos := Ativos(alvos, r.dominios);
      var faltam := ends[addr].dominios;
      AllClaimantsAtFirst(alvos, ends, addr);
      while faltam != {}
        invariant faltam <= r.dominios && Contagens(porDominio, ends)
        invariant FicouCom(antes, ends, addr, r, faltam + ativos)
        invariant forall d :: PocoComAlguns(alvos, pocosAntes, ensaiados, addr, r, agora, faltam, d)
        invariant ensaiados.Keys <= pocosAntes.Keys + alvos.Keys
        decreases |faltam|
      {
        var d :| d in faltam;
        ghost var pocos, here := ensaiados, ends;
        RetirarUm(addr, d, agora);
        OneDomainLooked(alvos, pocosAntes, pocos, ensaiados, addr, r, agora, faltam, d);
        OneLessClaimant(alvos, antes, here, ends, addr, r, faltam, d);
        faltam := faltam - {d};
      }
      assert {} + ativos == ativos;
      AllDomainsLooked(alvos, pocosAntes, ensaiados, addr, r, agora);
    }

    /** The walk's decision about one live address. */
    method ReconciliarUm(aj: Ajuste, addr: Addr, agora: int) returns (aj': Ajuste)
      requires addr in ends && Contagens(porDominio, ends)
      modifies this`ends, this`porDominio, this`ensaiados
      ensures Contagens(porDominio, ends)
      ensures var r := old(ends)[addr];
              ends == if DomTargets.Destino(alvos, addr, r.dominios).Some?
                      then old(ends)[addr := Reconciliado(alvos, addr, r)] else old(ends) - {addr}
      ensures aj' == AjusteCom(alvos, aj, addr, old(ends)[addr])
      ensures forall d :: PocoComEste(alvos, old(ensaiados), ensaiados, addr, old(ends)[addr], agora, d)
      ensures ensaiados.Keys <= old(ensaiados).Keys + alvos.Keys
    {
      aj' := aj;
      DestinoIgnoresInactive(alvos, addr, ends[addr].dominios);
      RetirarInativos(addr, agora);
      var r := ends[addr];
      var c := Destino(addr, r.dominios);
      if c.None? {
        if r.escrito.Some? {
          aj' := aj'.(remocoes := aj'.remocoes + [Remocao(addr, r.escrito.value.cap)]);
        }
        Soltar(addr);
        return;
      }
      if c == r.escrito {
        return;
      }
      if r.escrito.Some? {
        aj' := aj'.(remocoes := aj'.remocoes + [Remocao(addr, r.escrito.value.cap)]);
      }
      aj' := aj'.(escritas := aj'.escritas + [Escrita(addr, r.concedido, c.value, false)]);
      var q := r.(pendente := Some(Pedido(r.concedido, c.value)));
      SameClaims(porDominio, ends, addr, q);
      ends := ends[addr := q];
    }

    /** Every live address against the current list, in whatever order Go visits the map. */
    method Reconciliar(agora: int) returns (aj: Ajuste)
      requires Contagens(porDominio, ends) && ensaiados.Keys <= alvos.Keys
      requires forall d :: |PocoDe(ensaiados, d)| <= MAX_POR_DOMINIO
      requires forall a | a in ends :: Utilizavel(a)
      modifies this`ends, this`porDominio, this`ensaiados
      ensures Contagens(porDominio, ends) && ensaiados.Keys <= alvos.Keys
      ensures ends == EndsReconciliados(alvos, old(ends))
      ensures AjusteParcial(alvos, old(ends), {}, aj)
      ensures forall d :: PocoParcial(alvos, old(ensaiados), old(ends), {}, ensaiados, d)
    {
      aj := VAZIO;
      var faltam := ends.Keys;
      EndsParcialEnds(alvos, ends);
      forall d
        ensures PocoParcial(alvos, ensaiados, ends, faltam, ensaiados, d)
      {
        PocoParcialEnds(alvos, ensaiados, ends, d);
      }
      while faltam != {}
        invariant faltam <= old(ends).Keys && Contagens(porDominio, ends) && ensaiados.Keys <= alvos.Keys
        invariant ends == EndsParcial(alvos, old(ends), faltam)
        invariant AjusteParcial(alvos, old(ends), faltam, aj)
        invariant forall d :: PocoParcial(alvos, old(ensaiados), old(ends), faltam, ensaiados, d)
        decreases |faltam|
      {
        var addr :| addr in faltam;
        EndsParcialStep(alvos, old(ends), faltam, addr);
        AjusteParcialStep(alvos, old(ends), faltam, aj, addr);
        ghost var pocos := ensaiados;
        aj := ReconciliarUm(aj, addr, agora);
        forall d ensures PocoParcial(alvos, old(ensaiados), old(ends), faltam - {addr}, ensaiados, d) {
          assert PocoComEste(alvos, pocos, ensaiados, addr, old(ends)[addr], agora, d);
          PocoParcialStep(alvos, old(ensaiados), old(ends), faltam, pocos, ensaiados, addr, agora, d);
        }
        faltam := faltam - {addr};
      }
    }

    /** On promotion, what the rehearsal had taught goes through the same door as a new answer. */
    method ReplayEnsaio(aj: Ajuste, d: Dominio, agora: int) returns (aj': Ajuste)
      requires d in alvos && Contagens(porDominio, ends)
      modifies this`ends, this`porDominio, this`ensaiados
      ensures Contagens(porDominio, ends)
      ensures Passagem(Obra(ends, aj'), ensaiados) ==
              DomTargets.ReplayEnsaio(alvos, protegidos, Passagem(Obra(old(ends), aj), old(ensaiados)), d, agora)
    {
      var poco := PocoDe(ensaiados, d);
      if poco == map[] { return aj; }
      var vivo := LimparVencido(poco, agora);
      AddrTotalOn(vivo.Keys);
      var ordem := Sort(vivo.Keys, AddrLess);
      assert ordem == EmOrdem(vivo);
      aj' := AbsorverLista(aj, d, ItensDoPoco(vivo, ordem, agora), agora);
      ensaiados := ensaiados[d := PocoAceitavel(vivo, protegidos)];
    }

    method ReplayTodos(aj: Ajuste, promovidos: seq<Dominio>, agora: int) returns (aj': Ajuste)
      requires Contagens(porDominio, ends) && forall d | d in promovidos :: d in alvos
      modifies this`ends, this`porDominio, this`ensaiados
      ensures Contagens(porDominio, ends)
      ensures Passagem(Obra(ends, aj'), ensaiados) ==
              DomTargets.ReplayTodos(alvos, protegidos, Passagem(Obra(old(ends), aj), old(ensaiados)), promovidos,
                agora)
    {
      aj' := aj;
      ghost var p := Passagem(Obra(ends, aj), ensaiados);
      for i := 0 to |promovidos|
        invariant Contagens(porDominio, ends)
        invariant Passagem(Obra(ends, aj'), ensaiados) == DomTargets.ReplayTodos(alvos, protegidos, p,
            promovidos[..i], agora)
      {
        assert promovidos[..i + 1][..i] == promovidos[..i];
        aj' := ReplayEnsaio(aj', promovidos[i], agora);
      }
      assert promovidos[..|promovidos|] == promovidos;
    }

    method Normalizar(lista: seq<Listado>) returns (novos: Alvos)
      ensures novos == Listar(lista)
    {
      novos := map[];
      for i := 0 to |lista|
        invariant novos == Listar(lista[..i])
      {
        assert lista[..i + 1][..i] == lista[..i];
        var x := lista[i];
        if x.dominio.None? { continue; }
        var estagio := if x.estagio != Some(Ativo) then Ensaio else Ativo;
        var capacidade := if x.capacidade != Some(Direcionar) then Barrar else Direcionar;
        novos := novos[x.dominio.value := Alvo(capacidade, estagio, x.marca)];
      }
      assert lista[..|lista|] == lista;
    }

    /** Swaps the whole list and says what the kernel needs because of it. */
    method DefinirAlvos(lista: seq<Listado>, agora: int) returns (aj: Ajuste)
      requires Valid()
      modifies this
      ensures Valid() && Definir(old(Valor()), lista, agora, Valor(), aj)
    {
      ghost var st := Valor();
      var novos := Normalizar(lista);
      StrTotalOn(Promovidos(alvos, novos));
      var promovidos := Sort(Promovidos(alvos, novos), StrLess);
      assert promovidos == PromovidosEmOrdem(st.alvos, novos);
      ListedPools(st, novos);
      alvos := novos;
      ensaiados := SoListados(novos, ensaiados);
      aj := Reconciliar(agora);
      ghost var o, pocos := Obra(ends, aj), ensaiados;
      WalkIsRodada(st, novos, o, pocos);
      aj := ReplayTodos(aj, promovidos, agora);
      assert (Valor(), aj) == DefinirDepois(st, novos, agora, o, pocos);
      DefinirKeeps(st, lista, agora, Valor(), aj);
    }
  }
}
