/** How long an entry lives: from its last confirmation, for the time that one granted, and thirty seconds more. */
module Deadlines {
  import opened Options
  import opened DomTargets
  import opened Adjustments
  import opened IndexRuns

  datatype Concessao = Concessao(t: int, prazo: int)

  /** When each address was last confirmed in the run, and for how long. */
  ghost function Concessoes(h: Historia): map<Addr, Concessao> {
    if h.Inicio? then map[]
    else
      var ends := Atual(h.antes).ends;
      if h.passo.Confirma? then
        Concessoes(h.antes) + map a | a in ends && a in h.passo.quais && ends[a].pendente.Some? ::
          Concessao(h.passo.agora, ends[a].pendente.value.prazo)
      else Concessoes(h.antes)
  }

  ghost predicate DentroDoPrazo(cs: map<Addr, Concessao>, ends: Ends) {
    forall a | a in ends && ends[a].escrito.Some? ::
      a in cs && ends[a].expira == cs[a].t + cs[a].prazo && ends[a].concedido == cs[a].prazo
  }

  lemma GrantsAreKept(st: Estado, p: Passo, st': Estado, aj: Ajuste, a: Addr)
    requires Transicao(st, p, st', aj) && !p.Confirma? && a in st'.ends && st'.ends[a].escrito.Some?
    ensures a in st.ends && st.ends[a].escrito.Some?
    ensures st'.ends[a].expira == st.ends[a].expira && st'.ends[a].concedido == st.ends[a].concedido
  {
    match p {
      case Lista(lista, agora) =>
        DefinirCoerente(st, lista, agora, st', aj);
        assert EntradaCoerente(st.ends, Obra(st'.ends, aj), a);
      case Resposta(nome, addrs, ttl, agora) =>
        AprenderCoerente(st, nome, addrs, ttl, agora);
        assert EntradaCoerente(st.ends, Obra(st'.ends, aj), a);
      case _ =>
    }
  }

  /** In every run a written entry expires the granted time after its last confirmation. */
  lemma {:induction false} EveryGrantIsTheLastConfirmation(h: Historia)
    requires Execucao(h)
    ensures DentroDoPrazo(Concessoes(h), Atual(h).ends)
  {
    if h.Depois? {
      EveryGrantIsTheLastConfirmation(h.antes);
      if !h.passo.Confirma? {
        forall a | a in h.st.ends && h.st.ends[a].escrito.Some?
          ensures a in Concessoes(h) && h.st.ends[a].expira == Concessoes(h)[a].t + Concessoes(h)[a].prazo
          ensures h.st.ends[a].concedido == Concessoes(h)[a].prazo
        {
          GrantsAreKept(Atual(h.antes), h.passo, h.st, h.aj, a);
        }
      }
    }
  }

  /**
   In every run, pruning at any instant drops a written address exactly when no write of it is under way and its
   last confirmation is as far back as the time granted then and thirty seconds.
   */
  lemma PrunedThirtySecondsLate(h: Historia, a: Addr, t: int)
    requires Execucao(h) && a in Atual(h).ends && Atual(h).ends[a].escrito.Some?
    ensures a in Concessoes(h)
    ensures a in Podar(Atual(h), t).ends <==>
            Atual(h).ends[a].pendente.Some? || t < Concessoes(h)[a].t + Concessoes(h)[a].prazo + 30 * SEGUNDO
  {
    EveryGrantIsTheLastConfirmation(h);
  }

  /** What pruning leaves is unchanged; a pool loses exactly what is thirty seconds past its deadline. */
  lemma PruningLeaves(st: Estado, t: int, d: Dominio)
    ensures forall a | a in Podar(st, t).ends :: a in st.ends && Podar(st, t).ends[a] == st.ends[a]
    ensures var antes, depois := PocoDe(st.ensaiados, d), PocoDe(Podar(st, t).ensaiados, d);
      && (forall a :: a in depois <==> a in antes && t < antes[a] + 30 * SEGUNDO)
      && forall a | a in depois :: depois[a] == antes[a]
  {
    var corte := t - FOLGA_DE_PODA;
    if d in st.ensaiados && d !in Podar(st, t).ensaiados {
      forall a | a in st.ensaiados[d] ensures st.ensaiados[d][a] <= corte {
        assert a !in LimparVencido(st.ensaiados[d], corte);
      }
    }
  }
}
