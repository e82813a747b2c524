/** The coordinator, the index and the kernel together: the firewall acts only on behalf of intents the gate allows. */
module GateAndKernel {
  import opened Options
  import opened DomTargets
  import opened IndexInvariant
  import opened IndexRuns
  import opened Kernel
  import opened KernelMirror
  import opened KernelRuns
  import opened KernelPlaces
  import opened KernelQueue
  import opened Coordinator

  ghost predicate Lists(x: PassoK) { (x.Aceito? || x.Recusado?) && x.p.Lista? }

  /** The last list the index was given is the one a reconcile of `s` published. */
  ghost predicate LastPublished(c: Corrida, ready: bool, s: Stored) {
    c.Mais? && if Lists(c.passo) then c.passo.p.lista == Published(ready, s.targets, s)
      else LastPublished(c.antes, ready, s)
  }

  lemma {:induction false} ListIsThePublished(c: Corrida, ready: bool, s: Stored)
    requires Valida(c) && LastPublished(c, ready, s)
    ensures Agora(c).st.alvos == Listar(Published(ready, s.targets, s))
  {
    if !Lists(c.passo) {
      ListIsThePublished(c.antes, ready, s);
      if c.passo.Aceito? || c.passo.Recusado? {
        LearningKeepsTheList(Agora(c.antes).st, c.passo.p, c.passo.st, c.passo.aj);
      }
    }
  }

  lemma LearningKeepsTheList(st: Estado, p: Passo, st': Estado, aj: Ajuste)
    requires p.Resposta? && Transicao(st, p, st', aj)
    ensures st'.alvos == st.alvos
  {
  }

  /**
   Whatever the kernel holds, in any reachable state, is held for stored intents that are active and
   not suspended, of the capability they are listed with.
   */
  lemma HeldOnlyForAllowedIntents(c: Corrida, ready: bool, s: Stored, x: Casa)
    requires Valida(c) && LastPublished(c, ready, s) && Tem(Agora(c).k, x, Agora(c).t)
    ensures x.a in Agora(c).st.ends && Agora(c).st.ends[x.a].dominios != {}
    ensures forall d | d in Agora(c).st.ends[x.a].dominios :: AllowedAsListed(ready, s, Agora(c).st.alvos, d)
    ensures ready
  {
    var m := Agora(c);
    EveryRunMirrorsTheKernel(c);
    ListIsThePublished(c, ready, s);
    assert Registrado(m.st.ends, x, m.k[x]);
    assert RegistroValido(m.st.alvos, x.a, m.st.ends[x.a]);
    ClaimantsAreAllowed(ready, s, m.st, x.a);
    var d :| d in m.st.ends[x.a].dominios;
    assert AllowedAsListed(ready, s, m.st.alvos, d);
  }

  /** Every claimant of a live address under a published list has an allowed intent. */
  lemma ClaimantsAreAllowed(ready: bool, s: Stored, st: Estado, a: Addr)
    requires Valido(st) && st.alvos == Listar(Published(ready, s.targets, s)) && a in st.ends
    ensures forall d | d in st.ends[a].dominios :: AllowedAsListed(ready, s, st.alvos, d)
  {
    assert RegistroValido(st.alvos, a, st.ends[a]);
    forall d | d in st.ends[a].dominios ensures AllowedAsListed(ready, s, st.alvos, d) {
      ActiveIsAllowed(ready, s.targets, s, d);
    }
  }

  /** An allowed intent, and the link its traffic leaves by: enabled, configured, and online or degraded. */
  ghost predicate LeavesBy(ready: bool, s: Stored, t: Intent, l: Link) {
    && t in s.targets && Allowed(ready, t, s) && t.capability == Some(Direcionar)
    && LinkIs(s.links, t.linkId, l) && l.enabled && l.hasInterface && l.tableId > 0
    && (l.status == Online || l.status == Degraded)
  }

  /**
   Whatever the kernel routes, in any reachable state, leaves by the 32-bit table of a usable link, that of an allowed
   routed intent of one of its claimants.
   */
  lemma RoutedByTheLinkOfItsIntent(c: Corrida, ready: bool, s: Stored, x: Casa) returns (t: Intent, l: Link)
    requires Valida(c) && LastPublished(c, ready, s) && Tem(Agora(c).k, x, Agora(c).t) && x.s == Wan
    ensures LeavesBy(ready, s, t, l) && Agora(c).k[x].marca == l.tableId % 0x1_0000_0000
    ensures x.a in Agora(c).st.ends && exists d :: d in Agora(c).st.ends[x.a].dominios && t.domain == Some(d)
  {
    var d := HeldForOneThatWantsIt(c, x);
    t := IntentOfClaimant(c, ready, s, d);
    l := AllowedHasItsLink(ready, t, s);
  }

  /** And whatever it bars is claimed by a domain with an allowed intent to bar it. */
  lemma BarredByItsIntent(c: Corrida, ready: bool, s: Stored, x: Casa) returns (t: Intent)
    requires Valida(c) && LastPublished(c, ready, s) && Tem(Agora(c).k, x, Agora(c).t) && x.s != Wan
    ensures t in s.targets && Allowed(ready, t, s) && t.capability == Some(Barrar)
    ensures x.a in Agora(c).st.ends && exists d :: d in Agora(c).st.ends[x.a].dominios && t.domain == Some(d)
    ensures s.blocklistPresent && s.blocklistEnabled
  {
    var d := HeldForOneThatWantsIt(c, x);
    t := IntentOfClaimant(c, ready, s, d);
    match Agora(c).st.alvos[d].capacidade { case Barrar => case Direcionar => }
  }

  lemma IntentOfClaimant(c: Corrida, ready: bool, s: Stored, d: Dominio) returns (t: Intent)
    requires Valida(c) && LastPublished(c, ready, s) && EhAtivo(Agora(c).st.alvos, d)
    ensures t in s.targets && IntentOf(ready, t, s, Agora(c).st.alvos, d)
  {
    ListIsThePublished(c, ready, s);
    ActiveIsAllowed(ready, s.targets, s, d);
    t :| t in s.targets && IntentOf(ready, t, s, Agora(c).st.alvos, d);
  }

  /**
   Once a closed gate was published and its batch went in, the kernel holds nothing, for as long as it stays closed.
   */
  lemma ClosedGateEmptiesTheKernel(c: Corrida, s: Stored, x: Casa)
    requires Valida(c) && LastPublished(c, false, s)
    ensures !Tem(Agora(c).k, x, Agora(c).t)
  {
    if Tem(Agora(c).k, x, Agora(c).t) { HeldOnlyForAllowedIntents(c, false, s, x); }
  }

  // ----- when batches fail

  /** The same, in runs with a queue. */
  ghost predicate LastPublishedIn(j: Jogo, ready: bool, s: Stored) {
    j.Seguido? &&
    if j.y.Da? && j.y.x.p.Lista? then j.y.x.p.lista == Published(ready, s.targets, s)
      else LastPublishedIn(j.antes, ready, s)
  }

  lemma {:induction false} ListIsThePublishedIn(j: Jogo, ready: bool, s: Stored)
    requires Jogado(j) && LastPublishedIn(j, ready, s)
    ensures Fim(j).st.alvos == Listar(Published(ready, s.targets, s))
  {
    if !(j.y.Da? && j.y.x.p.Lista?) {
      ListIsThePublishedIn(j.antes, ready, s);
      if j.y.Da? { LearningKeepsTheList(Fim(j.antes).st, j.y.x.p, j.y.x.st, j.y.x.aj); }
    }
  }

  /**
   Through refused and retried batches too: whatever the kernel holds is registered in the index, or
   its removal is queued, was given up, or was let go; and whoever claims its address has a
   stored intent that is active and not suspended, with the capability it is listed with.
   */
  lemma HeldForAllowedOrOnItsWayOut(j: Jogo, ready: bool, s: Stored, x: Casa)
    requires Jogado(j) && LastPublishedIn(j, ready, s) && Tem(Fim(j).k, x, Fim(j).t)
    ensures Registrado(Fim(j).st.ends, x, Fim(j).k[x])
         || Aguarda(Fim(j).fila, x) || x in Fim(j).desistidas || x in Soltas(j)
    ensures x.a in Fim(j).st.ends ==> forall d | d in Fim(j).st.ends[x.a].dominios ::
              AllowedAsListed(ready, s, Fim(j).st.alvos, d)
  {
    EveryRunAccountsForTheKernel(j);
    ListIsThePublishedIn(j, ready, s);
    if x.a in Fim(j).st.ends { ClaimantsAreAllowed(ready, s, Fim(j).st, x.a); }
  }

  /** Behind a closed gate, what the kernel still holds is on its way out, was given up, or was let go. */
  lemma ClosedGateLeavesOnlyTheDeparting(j: Jogo, s: Stored, x: Casa)
    requires Jogado(j) && LastPublishedIn(j, false, s) && Tem(Fim(j).k, x, Fim(j).t)
    ensures Aguarda(Fim(j).fila, x) || x in Fim(j).desistidas || x in Soltas(j)
  {
    EveryRunAccountsForTheKernel(j);
    ListIsThePublishedIn(j, false, s);
    ClosedIndexIsEmpty(s, Fim(j).st);
  }

  lemma ClosedIndexIsEmpty(s: Stored, st: Estado)
    requires Valido(st) && st.alvos == Listar(Published(false, s.targets, s))
    ensures st.ends == map[]
  {
    forall a | a in st.ends ensures false {
      assert RegistroValido(st.alvos, a, st.ends[a]);
      var d :| d in st.ends[a].dominios;
      ClosedGatePublishesNoneActive(s.targets, s, d);
    }
  }
}
