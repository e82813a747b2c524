/**
 The domain-routing coordinator: it turns stored intents into the list the index works from,
 and is the only place that suspends an intent that has stopped being safe.
 */
module Coordinator {
  import opened Options
  import opened Order
  import opened DomTargets
  import opened IndexInvariant
  import opened Adjustments
  import opened IndexRuns
  import Index

  datatype LinkStatus = Online | Degraded | Offline | OtherStatus

  datatype Link = Link(id: string, name: string, enabled: bool, hasInterface: bool, tableId: int, status: LinkStatus)

  /** A stored intent; fields that fail validation are None. */
  datatype Intent = Intent(id: string, domain: Option<Dominio>, capability: Option<Capacidade>,
    stage: Option<Estagio>, linkId: string)

  /** What one read-only transaction sees. */
  datatype Stored = Stored(targets: seq<Intent>, links: seq<Link>, blocklistPresent: bool, blocklistEnabled: bool)

  datatype Reason = BootPending | BlockingGroupMissing | BlockingGroupDisabled | LinkMissing | LinkDisabled
                  | LinkUnconfigured | LinkOffline | LinkNotReady | InvalidIntent

  datatype View = View(intent: Intent, effective: Option<Estagio>, suspended: Option<Reason>, mark: nat)

  function Links(ls: seq<Link>): map<string, Link>
    decreases |ls|
  {
    if ls == [] then map[] else Links(ls[..|ls| - 1])[ls[|ls| - 1].id := ls[|ls| - 1]]
  }

  /** Go's conversion of the table id to 32 bits. */
  function Mark(tableId: int): nat { tableId % 0x1_0000_0000 }

  function RoutingReason(ready: bool, link: Option<Link>): Option<Reason> {
    if !ready then Some(BootPending)
    else if link.None? then Some(LinkMissing)
    else
      var l := link.value;
      if !l.enabled then Some(LinkDisabled)
      else if !l.hasInterface || l.tableId <= 0 then Some(LinkUnconfigured)
      else if l.status == Offline then Some(LinkOffline)
      else if l.status != Online && l.status != Degraded then Some(LinkNotReady)
      else None
  }

  function BlockingReason(ready: bool, s: Stored): Option<Reason> {
    if !ready then Some(BootPending)
    else if !s.blocklistPresent then Some(BlockingGroupMissing)
    else if !s.blocklistEnabled then Some(BlockingGroupDisabled)
    else None
  }

  function LinkOf(t: Intent, s: Stored): Option<Link> {
    var m := Links(s.links);
    if t.linkId in m then Some(m[t.linkId]) else None
  }

  predicate Readable(t: Intent) { t.domain.Some? && t.capability.Some? && t.stage.Some? }

  function Resolve(ready: bool, t: Intent, s: Stored): View {
    if !Readable(t) then View(t, Some(Ensaio), Some(InvalidIntent), 0)
    else
      var routed := t.capability == Some(Direcionar);
      var link := LinkOf(t, s);
      var mark := if routed && link.Some? then Mark(link.value.tableId) else 0;
      var reason := if t.stage == Some(Ensaio) then None
                    else if routed then RoutingReason(ready, link) else BlockingReason(ready, s);
      View(t, if reason.Some? then Some(Ensaio) else t.stage, reason, mark)
  }

  /** The list published to the index: every readable intent, at its effective stage. */
  function Published(ready: bool, ts: seq<Intent>, s: Stored): seq<Listado>
    decreases |ts|
  {
    if ts == [] then []
    else
      var t := ts[|ts| - 1];
      var v := Resolve(ready, t, s);
      Published(ready, ts[..|ts| - 1], s)
        + (if Readable(t) then [Listado(t.domain, t.capability, v.effective, v.mark)] else [])
  }

  function Views(ready: bool, ts: seq<Intent>, s: Stored): seq<View> {
    seq(|ts|, i requires 0 <= i < |ts| => Resolve(ready, ts[i], s))
  }

  /** An active intent nothing suspends: the gate is open and what it depends on is in place. */
  ghost predicate Allowed(ready: bool, t: Intent, s: Stored) {
    && Readable(t) && t.stage == Some(Ativo) && ready
    && (t.capability == Some(Barrar) ==> s.blocklistPresent && s.blocklistEnabled)
    && (t.capability == Some(Direcionar) ==>
          var l := LinkOf(t, s);
          l.Some? && l.value.enabled && l.value.hasInterface && l.value.tableId > 0
            && (l.value.status == Online || l.value.status == Degraded))
  }

  lemma EffectiveIffAllowed(ready: bool, t: Intent, s: Stored)
    ensures Resolve(ready, t, s).effective == Some(Ativo) <==> Allowed(ready, t, s)
  {
    if Readable(t) {
      match t.stage.value { case Ensaio => case Ativo => }
      match t.capability.value { case Barrar => case Direcionar => }
    }
  }

  // ----- links and marks

  /** The link of this id that the snapshot lists last: ids are primary keys. */
  ghost predicate LinkIs(ls: seq<Link>, id: string, l: Link) {
    exists k :: 0 <= k < |ls| && ls[k] == l && l.id == id && forall j | k < j < |ls| :: ls[j].id != id
  }

  lemma {:induction false} LinksAre(ls: seq<Link>, id: string, l: Link)
    ensures (id in Links(ls) && Links(ls)[id] == l) <==> LinkIs(ls, id, l)
    decreases |ls|
  {
    if ls != [] {
      var n := |ls| - 1;
      LinksAre(ls[..n], id, l);
      if ls[n].id == id {
        assert LinkIs(ls, id, l) ==> l == ls[n];
        assert l == ls[n] ==> LinkIs(ls, id, l);
      } else {
        OneMoreLink(ls, id, l);
      }
    }
  }

  lemma OneMoreLink(ls: seq<Link>, id: string, l: Link)
    requires ls != [] && ls[|ls| - 1].id != id
    ensures LinkIs(ls, id, l) <==> LinkIs(ls[..|ls| - 1], id, l)
  {
    var n := |ls| - 1;
    if LinkIs(ls, id, l) {
      var k :| 0 <= k < |ls| && ls[k] == l && l.id == id && forall j | k < j < |ls| :: ls[j].id != id;
      assert ls[..n][k] == l;
    }
    if LinkIs(ls[..n], id, l) {
      var k :| 0 <= k < n && ls[..n][k] == l && l.id == id && forall j | k < j < n :: ls[..n][j].id != id;
      forall j | k < j < |ls| ensures ls[j].id != id { if j < n { assert ls[..n][j] == ls[j]; } }
      assert ls[k] == l;
    }
  }

  /** The mark an intent gives its domain: a routed one carries the 32-bit table of its link, and no other has one. */
  ghost predicate Marked(t: Intent, s: Stored, mark: nat) {
    && (forall l | t.capability == Some(Direcionar) && LinkIs(s.links, t.linkId, l) ::
      mark == l.tableId % 0x1_0000_0000)
    && (t.capability == Some(Direcionar) && (forall l :: !LinkIs(s.links, t.linkId, l)) ==> mark == 0)
    && (t.capability == Some(Barrar) ==> mark == 0)
  }

  lemma ResolvedIsMarked(ready: bool, t: Intent, s: Stored)
    ensures Readable(t) ==> Marked(t, s, Resolve(ready, t, s).mark)
  {
    forall l ensures LinkOf(t, s) == Some(l) <==> LinkIs(s.links, t.linkId, l) { LinksAre(s.links, t.linkId, l); }
    if LinkOf(t, s).Some? { assert LinkIs(s.links, t.linkId, LinkOf(t, s).value); }
  }

  /** An allowed routed intent has its link: enabled, configured, and online or degraded. */
  lemma AllowedHasItsLink(ready: bool, t: Intent, s: Stored) returns (l: Link)
    requires Allowed(ready, t, s) && t.capability == Some(Direcionar)
    ensures LinkIs(s.links, t.linkId, l) && l.enabled && l.hasInterface && l.tableId > 0
    ensures l.status == Online || l.status == Degraded
  {
    l := LinkOf(t, s).value;
    LinksAre(s.links, t.linkId, l);
  }

  /** The intent names a link, and that link is like this. */
  ghost predicate OnLink(t: Intent, s: Stored, p: Link -> bool) { exists l :: LinkIs(s.links, t.linkId, l) && p(l) }

  predicate Disabled(l: Link) { !l.enabled }
  predicate Unconfigured(l: Link) { l.enabled && !(l.hasInterface && l.tableId > 0) }
  predicate Down(l: Link) { l.enabled && l.hasInterface && l.tableId > 0 && l.status == Offline }
  predicate Unknown(l: Link) { l.enabled && l.hasInterface && l.tableId > 0 && l.status == OtherStatus }

  /** An intent stored active is suspended for the first reason that applies, in this order. */
  ghost predicate Because(ready: bool, t: Intent, s: Stored, r: Reason) {
    var active := Readable(t) && t.stage == Some(Ativo);
    var routed, barred := t.capability == Some(Direcionar), t.capability == Some(Barrar);
    match r
    case InvalidIntent => !Readable(t)
    case BootPending => active && !ready
    case LinkMissing => active && ready && routed && forall l :: !LinkIs(s.links, t.linkId, l)
    case LinkDisabled => active && ready && routed && OnLink(t, s, Disabled)
    case LinkUnconfigured => active && ready && routed && OnLink(t, s, Unconfigured)
    case LinkOffline => active && ready && routed && OnLink(t, s, Down)
    case LinkNotReady => active && ready && routed && OnLink(t, s, Unknown)
    case BlockingGroupMissing => active && ready && barred && !s.blocklistPresent
    case BlockingGroupDisabled => active && ready && barred && s.blocklistPresent && !s.blocklistEnabled
  }

  lemma TheLink(t: Intent, s: Stored, p: Link -> bool)
    ensures OnLink(t, s, p) <==> LinkOf(t, s).Some? && p(LinkOf(t, s).value)
    ensures (forall l :: !LinkIs(s.links, t.linkId, l)) <==> LinkOf(t, s).None?
  {
    forall l ensures LinkOf(t, s) == Some(l) <==> LinkIs(s.links, t.linkId, l) { LinksAre(s.links, t.linkId, l); }
    if LinkOf(t, s).Some? { assert LinkIs(s.links, t.linkId, LinkOf(t, s).value); }
  }

  /** The reason shown is the one that applies, and none is shown exactly when none applies. */
  lemma SuspendedBecause(ready: bool, t: Intent, s: Stored, r: Reason)
    ensures Resolve(ready, t, s).suspended == Some(r) <==> Because(ready, t, s, r)
  {
    if Readable(t) {
      match t.stage.value { case Ensaio => case Ativo => }
      match t.capability.value {
        case Barrar =>
        case Direcionar => if t.stage == Some(Ativo) { RoutedBecause(ready, t, s, r); }
      }
    }
  }

  lemma RoutedBecause(ready: bool, t: Intent, s: Stored, r: Reason)
    requires Readable(t) && t.capability == Some(Direcionar) && t.stage == Some(Ativo)
    ensures RoutingReason(ready, LinkOf(t, s)) == Some(r) <==> Because(ready, t, s, r)
  {
    TheLink(t, s, Disabled);
    TheLink(t, s, Unconfigured);
    TheLink(t, s, Down);
    TheLink(t, s, Unknown);
    if LinkOf(t, s).Some? {
      match LinkOf(t, s).value.status { case Online => case Degraded => case Offline => case OtherStatus => }
    }
  }

  // ----- the published list, intent by intent

  /** The last readable intent of this domain. */
  ghost predicate LastOf(ts: seq<Intent>, d: Dominio, i: nat) {
    && i < |ts| && Readable(ts[i]) && ts[i].domain == Some(d)
    && forall j | i < j < |ts| :: !(Readable(ts[j]) && ts[j].domain == Some(d))
  }

  /** What an intent makes of its domain in the list. */
  ghost predicate ListedAs(ready: bool, t: Intent, s: Stored, p: Alvo) {
    && t.capability == Some(p.capacidade) && (p.estagio == Ativo <==> Allowed(ready, t, s)) && Marked(t, s, p.marca)
  }

  /** The published list, entirely: its domains are those of readable intents, as the last one of each has it. */
  lemma {:induction false} PublishedIs(ready: bool, ts: seq<Intent>, s: Stored, d: Dominio)
    ensures d in Listar(Published(ready, ts, s)) <==> exists i: nat :: LastOf(ts, d, i)
    ensures forall i: nat | LastOf(ts, d, i) ::
              d in Listar(Published(ready, ts, s)) && ListedAs(ready, ts[i], s, Listar(Published(ready, ts, s))[d])
    decreases |ts|
  {
    if ts != [] {
      var n := |ts| - 1;
      PublishedIs(ready, ts[..n], s, d);
      OneMorePublished(ready, ts, s, d);
      if Readable(ts[n]) && ts[n].domain == Some(d) {
        assert LastOf(ts, d, n);
        assert forall i: nat | LastOf(ts, d, i) :: i == n;
        ResolvedIsListed(ready, ts[n], s);
      } else {
        forall i: nat ensures LastOf(ts, d, i) <==> LastOf(ts[..n], d, i) { SameLast(ts, d, i); }
      }
    }
  }

  lemma SameLast(ts: seq<Intent>, d: Dominio, i: nat)
    requires ts != [] && !(Readable(ts[|ts| - 1]) && ts[|ts| - 1].domain == Some(d))
    ensures LastOf(ts, d, i) <==> LastOf(ts[..|ts| - 1], d, i)
  {
    var n := |ts| - 1;
    if LastOf(ts[..n], d, i) {
      forall j | i < j < |ts| ensures !(Readable(ts[j]) && ts[j].domain == Some(d)) {
        if j < n { assert ts[..n][j] == ts[j]; }
      }
    }
  }

  function AsListed(ready: bool, t: Intent, s: Stored): Alvo {
    var v := Resolve(ready, t, s);
    Alvo(if t.capability == Some(Direcionar) then Direcionar else Barrar,
         if v.effective == Some(Ativo) then Ativo else Ensaio, v.mark)
  }

  lemma OneMorePublished(ready: bool, ts: seq<Intent>, s: Stored, d: Dominio)
    requires ts != []
    ensures var t, antes := ts[|ts| - 1], Listar(Published(ready, ts[..|ts| - 1], s));
      Listar(Published(ready, ts, s)) == if Readable(t) then antes[t.domain.value := AsListed(ready, t, s)] else antes
  {
    var t, antes := ts[|ts| - 1], Published(ready, ts[..|ts| - 1], s);
    var p := Published(ready, ts, s);
    if Readable(t) {
      assert p[..|p| - 1] == antes;
    } else {
      assert p == antes;
    }
  }

  lemma ResolvedIsListed(ready: bool, t: Intent, s: Stored)
    requires Readable(t)
    ensures ListedAs(ready, t, s, AsListed(ready, t, s))
  {
    EffectiveIffAllowed(ready, t, s);
    ResolvedIsMarked(ready, t, s);
    match t.capability.value { case Barrar => case Direcionar => }
  }

  /** A domain is active in the list exactly when its last readable intent is allowed. */
  lemma ActiveIffLastIsAllowed(ready: bool, ts: seq<Intent>, s: Stored, d: Dominio)
    ensures EhAtivo(Listar(Published(ready, ts, s)), d)
       <==> exists i: nat :: LastOf(ts, d, i) && Allowed(ready, ts[i], s)
  {
    PublishedIs(ready, ts, s, d);
  }

  /** An active domain of the published list comes from an allowed intent of its name, capability and mark. */
  lemma ActiveIsAllowed(ready: bool, ts: seq<Intent>, s: Stored, d: Dominio)
    requires EhAtivo(Listar(Published(ready, ts, s)), d)
    ensures exists t :: t in ts && IntentOf(ready, t, s, Listar(Published(ready, ts, s)), d)
  {
    PublishedIs(ready, ts, s, d);
    var alvos := Listar(Published(ready, ts, s));
    var i: nat :| LastOf(ts, d, i);
    OfListed(ready, ts[i], s, alvos, d);
    assert ts[i] in ts;
  }

  lemma OfListed(ready: bool, t: Intent, s: Stored, alvos: Alvos, d: Dominio)
    requires EhAtivo(alvos, d) && t.domain == Some(d) && ListedAs(ready, t, s, alvos[d])
    ensures IntentOf(ready, t, s, alvos, d)
  {
  }

  /** An allowed intent of this domain, with the capability and the mark that the domain is listed with. */
  ghost predicate IntentOf(ready: bool, t: Intent, s: Stored, alvos: Alvos, d: Dominio) {
    && Allowed(ready, t, s) && t.domain == Some(d)
    && d in alvos && t.capability == Some(alvos[d].capacidade) && Marked(t, s, alvos[d].marca)
  }

  ghost predicate AllowedAsListed(ready: bool, s: Stored, alvos: Alvos, d: Dominio) {
    exists t :: t in s.targets && IntentOf(ready, t, s, alvos, d)
  }

  lemma ClosedGatePublishesNoneActive(ts: seq<Intent>, s: Stored, d: Dominio)
    ensures !EhAtivo(Listar(Published(false, ts, s)), d)
  {
    if EhAtivo(Listar(Published(false, ts, s)), d) { ActiveIsAllowed(false, ts, s, d); }
  }

  // ----- composition with the index

  /** What follows a publication: anything but another one. */
  ghost predicate Since(h: Historia, start: Historia)
  {
    h == start || (h.Depois? && !h.passo.Lista? && Since(h.antes, start))
  }

  lemma {:induction false} ListStays(h: Historia, start: Historia)
    requires Since(h, start) && Execucao(h)
    ensures Atual(h).alvos == Atual(start).alvos
  {
    if h != start { ListStays(h.antes, start); }
  }

  /**
   After a publication and whatever the index learns, confirms, loses or prunes since, every
   claimant of every live address has a stored, active intent that nothing suspends, of the
   capability the index routes or bars it by.
   */
  lemma EveryClaimantIsAllowed(h: Historia, start: Historia, ready: bool, s: Stored, a: Addr, d: Dominio)
    requires Execucao(h) && Since(h, start)
    requires start.Depois? && start.passo.Lista? && start.passo.lista == Published(ready, s.targets, s)
    requires a in Atual(h).ends && d in Atual(h).ends[a].dominios
    ensures ready && AllowedAsListed(ready, s, Atual(h).alvos, d)
  {
    EveryRunKeepsTheIndex(h);
    ListStays(h, start);
    SinceIsRun(h, start);
    assert Atual(start).alvos == Listar(start.passo.lista);
    assert RegistroValido(Atual(h).alvos, a, Atual(h).ends[a]);
    ActiveIsAllowed(ready, s.targets, s, d);
  }

  lemma {:induction false} SinceIsRun(h: Historia, start: Historia)
    requires Since(h, start) && Execucao(h)
    ensures Execucao(start)
  {
    if h != start { SinceIsRun(h.antes, start); }
  }

  /** Publishing behind a closed gate empties the index, with one removal for each confirmed address and no write. */
  lemma ClosedGateEmptiesTheIndex(st: Estado, s: Stored, agora: int, st': Estado, aj: Ajuste)
    requires Definir(st, Published(false, s.targets, s), agora, st', aj)
    ensures st'.ends == map[] && aj.escritas == [] && SemRepeticao(aj)
    ensures forall a :: Remove(aj, a) <==> EscritoEm(st.ends, a).Some?
  {
    var lista := Published(false, s.targets, s);
    var novos := Listar(lista);
    forall d ensures !EhAtivo(novos, d) { ClosedGatePublishesNoneActive(s.targets, s, d); }
    var o, pocos :| Rodada(st, novos, o, pocos) && (st', aj) == DefinirDepois(st, novos, agora, o, pocos);
    NobodyActiveNobodyPromoted(st.alvos, novos);
    NobodyActiveNothingKept(novos, st.ends);
    DefinirCoerente(st, lista, agora, st', aj);
    var p := Obra(st'.ends, aj);
    assert forall e | e in aj.escritas :: EscritaCoerente(st.ends, agora, p, e);
    assert |aj.escritas| == 0 || EscritaCoerente(st.ends, agora, p, aj.escritas[0]);
    forall m | m in aj.remocoes ensures EscritoEm(st.ends, m.addr).Some? { assert RemocaoCoerente(st.ends, p, m); }
  }

  lemma NobodyActiveNobodyPromoted(antes: Alvos, novos: Alvos)
    requires forall d :: !EhAtivo(novos, d)
    ensures PromovidosEmOrdem(antes, novos) == []
  {
    var s := Promovidos(antes, novos);
    assert s == {};
    StrTotalOn(s);
    SortedExists(s, StrLess);
    EmptyTogether(Sorted(s, StrLess), s, StrLess);
  }

  lemma NobodyActiveNothingKept(novos: Alvos, ends: Ends)
    requires forall d :: !EhAtivo(novos, d)
    ensures EndsReconciliados(novos, ends) == map[]
  {
    forall a | a in ends ensures DomTargets.Destino(novos, a, ends[a].dominios).None? {
      assert Ativos(novos, ends[a].dominios) == {};
    }
  }

  class DomainCoordinator {
    const idx: Index.Indice
    var ready: bool
    var targets: seq<View>
    var generation: nat
    var failed: bool

    constructor (idx: Index.Indice)
      ensures this.idx == idx && !ready && targets == [] && generation == 0 && !failed
    {
      this.idx, ready, targets, generation, failed := idx, false, [], 0, false;
    }

    /** The list and the views of one snapshot, intent by intent. */
    method ResolveAll(s: Stored) returns (lista: seq<Listado>, views: seq<View>)
      ensures lista == Published(ready, s.targets, s) && views == Views(ready, s.targets, s)
    {
      lista, views := [], [];
      for i := 0 to |s.targets|
        invariant lista == Published(ready, s.targets[..i], s)
        invariant views == Views(ready, s.targets[..i], s)
      {
        assert s.targets[..i + 1][..i] == s.targets[..i];
        var t := s.targets[i];
        var v := Resolve(ready, t, s);
        views := views + [v];
        if Readable(t) {
          lista := lista + [Listado(t.domain, t.capability, v.effective, v.mark)];
        }
      }
      assert s.targets[..|s.targets|] == s.targets;
    }

    /** One transaction read, one list published; a read that fails publishes nothing. */
    method Reconcile(read: Option<Stored>, agora: int) returns (aj: Ajuste)
      requires idx.Valid()
      modifies this`targets, this`generation, this`failed, idx
      ensures idx.Valid() && failed == read.None?
      ensures read.None? ==> aj == VAZIO && idx.Valor() == old(idx.Valor())
      ensures read.None? ==> targets == old(targets) && generation == old(generation)
      ensures read.Some? ==> targets == Views(ready, read.value.targets, read.value)
      ensures read.Some? ==> generation == old(generation) + 1
      ensures read.Some? ==> Definir(old(idx.Valor()), Published(ready, read.value.targets, read.value), agora,
          idx.Valor(), aj)
    {
      if read.None? {
        failed := true;
        return VAZIO;
      }
      var lista, views := ResolveAll(read.value);
      aj := idx.DefinirAlvos(lista, agora);
      targets, generation, failed := views, generation + 1, false;
    }

    /** Opens the gate, and keeps it open only if a whole snapshot could be published. */
    method Prepare(read: Option<Stored>, agora: int) returns (aj: Ajuste)
      requires idx.Valid()
      modifies this, idx
      ensures idx.Valid() && ready == read.Some?
      ensures read.None? ==> aj == VAZIO && idx.Valor() == old(idx.Valor())
      ensures read.Some? ==> Definir(old(idx.Valor()), Published(true, read.value.targets, read.value), agora,
          idx.Valor(), aj)
    {
      ready := true;
      aj := Reconcile(read, agora);
      if failed { ready := false; }
    }

    /** Closes the gate: on a successful read nothing stays in the index, and each confirmed address is removed once. */
    method Hold(read: Option<Stored>, agora: int) returns (aj: Ajuste)
      requires idx.Valid()
      modifies this, idx
      ensures idx.Valid() && !ready
      ensures read.None? ==> aj == VAZIO && idx.Valor() == old(idx.Valor())
      ensures read.Some? ==> idx.ends == map[] && aj.escritas == [] && SemRepeticao(aj)
      ensures read.Some? ==> forall a :: Remove(aj, a) <==> EscritoEm(old(idx.ends), a).Some?
    {
      ghost var st := idx.Valor();
      ready := false;
      aj := Reconcile(read, agora);
      if read.Some? { ClosedGateEmptiesTheIndex(st, read.value, agora, idx.Valor(), aj); }
    }
  }
}
