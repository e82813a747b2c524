/** What is really in force: when the running firewall's input part is the confirmed one. */
module LiveFirewall {
  import opened RevertMerge
  import opened InputChain
  import opened ConfirmWindow
  import opened ConfirmSafety

  /** With no window, or one still waiting for its write, the running firewall has the confirmed input part. */
  ghost predicate Lively(s: System) {
    s.w.pending.None? || (Open(s.w) && Unwritten(s, s.w.pending.value.id)) ==> PartOf(s.w.live) == s.confirmed
  }

  /**
   The two steps that may end a window without rebuilding the running firewall: a confirmation,
   and an arm that clears a settled revert. Each is harmless when the firewall already agrees.
   */
  ghost predicate EndsInForce(s: System, x: Step) {
    match x
    case OperatorConfirms(id, clearOk) =>
      IsPending(s.w, id) && !s.w.pending.value.reverting && clearOk ==> PartOf(s.w.live) == PartOf(s.w.db)
    case Arm(_, _, readOk, clearOk, _) =>
      readOk && Restorable(s.w.db.groups) && s.w.pending.Some? && Settled(s.w.pending.value, s.w.db) && clearOk
      ==> PartOf(s.w.live) == s.confirmed
    case _ => true
  }

  /** A revert that ends rebuilds the running firewall; one that has not begun leaves it alone. */
  lemma RevertRebuilds(w: World, f: Faults)
    requires w.pending.Some?
    ensures var v := Revert(w, f).0;
      && (v.pending.None? ==> v.live == v.db)
      && (Open(v) ==> Open(w) && v.live == w.live && v.pending.value.id == w.pending.value.id)
  {
  }

  lemma RevertKeepsLively(ids: set<Id>, s: System, f: Faults)
    requires Sound(ids, s) && Lively(s) && s.w.pending.Some?
    ensures Lively(s.(w := Revert(s.w, f).0))
  {
    RevertRebuilds(s.w, f);
    RevertKeepsSound(ids, s, f);
  }

  lemma LandingKeepsLively(ids: set<Id>, s: System, x: Step, n: System)
    requires Sound(ids, s) && Lively(s) && x.MutationDone? && Next(ids, s, x, n)
    ensures Lively(n)
  {
    var l := s.(flights := s.flights - {x.id});
    LandingKeepsSound(ids, s, x.id);
    if !x.reconcileOk && IsPending(s.w, x.id) { RevertKeepsLively(ids, l, x.f); }
  }

  lemma RevertStepKeepsLively(ids: set<Id>, s: System, x: Step, n: System)
    requires Sound(ids, s) && Lively(s) && (x.OperatorReverts? || x.Tick? || x.Boot?) && Next(ids, s, x, n)
    ensures Lively(n)
  {
    if s.w.pending.Some? { RevertKeepsLively(ids, s, x.f); }
  }

  lemma QuietStepKeepsLively(ids: set<Id>, s: System, x: Step, n: System)
    requires Sound(ids, s) && Covered(s, x) && Lively(s) && Next(ids, s, x, n)
    requires x.Write? || x.WriteFails? || x.Mark? || x.ForwardWrite? || x.ForwardDone? || x.Crash?
    ensures Lively(n)
  {
  }

  lemma EndingStepKeepsLivelyIff(ids: set<Id>, s: System, x: Step, n: System)
    requires Sound(ids, s) && Lively(s) && (x.OperatorConfirms? || x.Arm?) && Next(ids, s, x, n)
    ensures Lively(n) <==> EndsInForce(s, x)
  {
  }

  lemma StepKeepsLivelyIff(ids: set<Id>, s: System, x: Step, n: System)
    requires Sound(ids, s) && Covered(s, x) && Lively(s) && Next(ids, s, x, n)
    ensures Lively(n) <==> EndsInForce(s, x)
  {
    match x
    case Arm(_, _, _, _, _) => EndingStepKeepsLivelyIff(ids, s, x, n);
    case OperatorConfirms(_, _) => EndingStepKeepsLivelyIff(ids, s, x, n);
    case MutationDone(_, _, _) => LandingKeepsLively(ids, s, x, n);
    case OperatorReverts(_, _) => RevertStepKeepsLively(ids, s, x, n);
    case Tick(_, _, _, _) => RevertStepKeepsLively(ids, s, x, n);
    case Boot(_, _) => RevertStepKeepsLively(ids, s, x, n);
    case _ => QuietStepKeepsLively(ids, s, x, n);
  }

  ghost predicate LivelyThroughout(r: Run) { Lively(End(r)) && (r.Then? ==> LivelyThroughout(r.before)) }

  ghost predicate AllEndInForce(r: Run) { r.Then? ==> AllEndInForce(r.before) && EndsInForce(End(r.before), r.step) }

  ghost predicate StartsInForce(r: Run) {
    match r
    case Start(s) => PartOf(s.w.live) == s.confirmed
    case Then(before, _, _) => StartsInForce(before)
  }

  /** In every run whose writes are covered, the running firewall keeps up exactly when every window ends in force. */
  lemma {:induction false} LivelyIffEveryEndIsInForce(ids: set<Id>, r: Run)
    requires IsRun(ids, r) && AllCovered(r) && StartsInForce(r)
    ensures LivelyThroughout(r) <==> AllEndInForce(r)
  {
    if r.Then? {
      LivelyIffEveryEndIsInForce(ids, r.before);
      EveryRunIsSafe(ids, r.before);
      if LivelyThroughout(r.before) { StepKeepsLivelyIff(ids, End(r.before), r.step, r.s); }
    }
  }
}
