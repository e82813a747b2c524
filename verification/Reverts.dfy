/** What a revert does: when it finishes, what it puts back, and that it always can. */
module Reverts {
  import opened Options
  import opened RevertMerge
  import opened MergeProperties
  import opened InputChain
  import opened ConfirmWindow
  import opened ConfirmSafety

  // ----- when it finishes

  /** A merged target is stored before it is applied. */
  ghost predicate Stores(w: World)
    requires w.pending.Some?
  {
    ThreeOf(w).Merged() && Restorable(ThreeOf(w).Target().groups)
  }

  /** The steps that must succeed for a revert to finish, from where it stands. */
  ghost predicate CanFinish(w: World, f: Faults)
    requires w.pending.Some?
  {
    && f.reconcile && f.clear
    && (!w.pending.value.reverting ==>
          && Restorable(w.pending.value.snapshot.groups)
          && f.read && f.replace && f.mark && (Stores(w) ==> f.saveSnapshot))
  }

  /** A revert is done exactly when those succeed: then its window is gone, and the firewall runs the database. */
  lemma RevertDoneIff(w: World, f: Faults)
    requires w.pending.Some?
    ensures Revert(w, f).1 == Done <==> CanFinish(w, f)
    ensures var v := Revert(w, f).0;
      if CanFinish(w, f) then v.pending.None? && v.live == v.db else IsPending(v, w.pending.value.id)
  {
  }

  // ----- what it puts back

  /** Nobody wrote a row since the window's mutation. */
  ghost predicate Undisturbed(w: World)
    requires w.pending.Some?
  {
    var applied := AppliedOrSnapshot(w.pending.value);
    IndexGroups(applied.groups) == IndexGroups(w.db.groups) && IndexRules(applied.rules) == IndexRules(w.db.rules)
  }

  predicate AllPresent(x: Settings) { x.inputPolicy.Some? && x.forwardPolicy.Some? && x.wanMgmtClosed.Some? }

  /** Each setting is the one saved, where one was saved and its write succeeds, and otherwise stays. */
  predicate SettingsBack(before: Settings, now: Settings, ok: SettingWrites, after: Settings) {
    && after.inputPolicy == (if ok.inputPolicy && before.inputPolicy.Some? then before else now).inputPolicy
    && after.forwardPolicy == (if ok.forwardPolicy && before.forwardPolicy.Some? then before else now).forwardPolicy
    && after.wanMgmtClosed == (if ok.wanMgmtClosed && before.wanMgmtClosed.Some? then before else now).wanMgmtClosed
  }

  /**
   With nothing else written, a finished revert leaves the rows of the snapshot, literally, and its settings; when
   it had every setting and they could be written, the database is the snapshot.
   */
  lemma UndisturbedRevertRestores(w: World, f: Faults)
    requires w.pending.Some? && !w.pending.value.reverting && Undisturbed(w) && Revert(w, f).1 == Done
    ensures var v, x := Revert(w, f).0, w.pending.value.snapshot;
      && v.db.groups == x.groups && v.db.rules == x.rules
      && SettingsBack(x.settings, w.db.settings, f.settings, v.db.settings)
      && (AllPresent(x.settings) && f.settings == ALL_SET ==> v.db == x)
  {
    UndisturbedIsLiteral(ThreeOf(w));
  }

  /** A merged revert touches no setting, and one that had begun touches nothing in the database. */
  lemma MergedRevertKeepsSettings(w: World, f: Faults)
    requires w.pending.Some?
    ensures !w.pending.value.reverting && Stores(w) ==> Revert(w, f).0.db.settings == w.db.settings
    ensures w.pending.value.reverting ==> Revert(w, f).0.db == w.db
  {
  }

  // ----- that it always can

  /** The machine can be rebuilt from what the window saved. */
  ghost predicate Curable(w: World) { w.pending.Some? ==> Restorable(w.pending.value.snapshot.groups) }

  lemma RevertKeepsCurable(w: World, f: Faults)
    requires Curable(w) && w.pending.Some?
    ensures Curable(Revert(w, f).0)
  {
  }

  lemma StepKeepsCurable(ids: set<Id>, s: System, x: Step, n: System)
    requires Curable(s.w) && Next(ids, s, x, n)
    ensures Curable(n.w)
  {
    match x
    case MutationDone(id, reconcileOk, f) => if !reconcileOk && IsPending(s.w, id) { RevertKeepsCurable(s.w, f); }
    case OperatorReverts(id, f) => if IsPending(s.w, id) { RevertKeepsCurable(s.w, f); }
    case Tick(_, f, _, _) => if s.w.pending.Some? { RevertKeepsCurable(s.w, f); }
    case Boot(_, f) => if s.w.pending.Some? { RevertKeepsCurable(s.w, f); }
    case _ =>
  }

  lemma {:induction false} EveryWindowIsCurable(ids: set<Id>, r: Run)
    requires IsRun(ids, r)
    ensures Curable(End(r).w)
  {
    if r.Then? {
      EveryWindowIsCurable(ids, r.before);
      StepKeepsCurable(ids, End(r.before), r.step, r.s);
    }
  }

  predicate AllWell(f: Faults) { f.read && f.saveSnapshot && f.replace && f.mark && f.reconcile && f.clear }

  /**
   In every run with covered writes, whatever failed before: a revert of which no step fails ends the window, puts the
   last confirmed input part back, and the firewall runs it.
   */
  lemma EveryRevertCanSucceed(ids: set<Id>, r: Run, f: Faults)
    requires IsRun(ids, r) && AllCovered(r) && End(r).w.pending.Some? && AllWell(f)
    ensures var (v, reply) := Revert(End(r).w, f);
      reply == Done && v.pending.None? && v.live == v.db && PartOf(v.db) == End(r).confirmed
  {
    EveryWindowIsCurable(ids, r);
    RevertDoneIff(End(r).w, f);
    EveryRunIsSafe(ids, r);
    RevertKeepsSound(ids, End(r), f);
  }

  /** So at boot whatever window is found is reverted, expired or not, and none is left. */
  lemma EveryBootRestores(ids: set<Id>, r: Run, f: Faults)
    requires IsRun(ids, r) && AllCovered(r) && AllWell(f)
    ensures var (v, reply) := RevertOnBoot(End(r).w, true, f);
      && reply == Done && v.pending.None? && PartOf(v.db) == End(r).confirmed
      && (if End(r).w.pending.Some? then v.live == v.db else v == End(r).w)
  {
    if End(r).w.pending.Some? { EveryRevertCanSucceed(ids, r, f); } else { EveryRunIsSafe(ids, r); }
  }

  /** And the watchdog does the same from the deadline on, or as soon as a revert has begun; before, it does nothing. */
  lemma EveryExpiredWindowIsReverted(ids: set<Id>, r: Run, f: Faults, now: int, mono: int)
    requires IsRun(ids, r) && AllCovered(r) && AllWell(f) && End(r).w.pending.Some?
    ensures var w := End(r).w; var p := w.pending.value; var (v, reply) := CheckExpired(w, true, f, now, mono);
      var own := w.deadline.Some? && w.deadline.value.id == p.id;
      if p.reverting || (if own then mono >= w.deadline.value.at else now >= p.expiresAt)
      then reply == Done && v.pending.None? && v.live == v.db && PartOf(v.db) == End(r).confirmed
      else v == w
  {
    EveryRevertCanSucceed(ids, r, f);
  }

  // ----- whose state is recorded

  /** The state that the mutation of window `id` recorded while that window was pending. */
  ghost function Recorded(r: Run, id: WindowId): Option<Snapshot> {
    match r
    case Start(_) => None
    case Then(before, step, _) =>
      if step == Mark(id, true) && IsPending(End(before).w, id) then Some(End(before).w.db) else Recorded(before, id)
  }

  /** Only windows that were opened have an id below the next one, and only they record anything. */
  ghost predicate OnlyOpened(r: Run) {
    && (End(r).w.pending.Some? ==> End(r).w.pending.value.id < End(r).w.nextId)
    && forall id | id >= End(r).w.nextId :: Recorded(r, id) == None
  }

  predicate NewWindow(w: World, v: World) {
    && v.pending.Some? && v.pending.value.id == w.nextId && v.nextId == w.nextId + 1
    && v.pending.value.applied == None
  }

  /** What a step leaves pending: a window that was pending, as applied as before, or a new one with nothing applied. */
  lemma SameWindowOrNew(ids: set<Id>, s: System, x: Step, n: System)
    requires Next(ids, s, x, n) && n.w.pending.Some?
    ensures s.w.nextId <= n.w.nextId
    ensures NewWindow(s.w, n.w) || (IsPending(s.w, n.w.pending.value.id) && n.w.nextId == s.w.nextId
        && n.w.pending.value.applied ==
           (if x == Mark(n.w.pending.value.id, true) then Some(s.w.db) else s.w.pending.value.applied))
    ensures NewWindow(s.w, n.w) ==> x.Arm?
  {
    match x
    case MutationDone(id, reconcileOk, f) => if IsPending(s.w, id) { RevertKeepsApplied(s.w, f); }
    case OperatorReverts(id, f) => if IsPending(s.w, id) { RevertKeepsApplied(s.w, f); }
    case Tick(_, f, _, _) => if s.w.pending.Some? { RevertKeepsApplied(s.w, f); }
    case Boot(_, f) => if s.w.pending.Some? { RevertKeepsApplied(s.w, f); }
    case _ =>
  }

  lemma RevertKeepsApplied(w: World, f: Faults)
    requires w.pending.Some?
    ensures var v := Revert(w, f).0;
      && v.nextId == w.nextId
      && (v.pending.Some? ==> v.pending.value.id == w.pending.value.id
                              && v.pending.value.applied == w.pending.value.applied)
  {
  }

  /**
   In every run, what a pending window has recorded as applied is the state that its own mutation recorded: the late
   mark of a mutation whose window is gone touches no other window.
   */
  lemma {:induction false} RecordedByItsOwnMutation(ids: set<Id>, r: Run)
    requires IsRun(ids, r)
    ensures OnlyOpened(r)
    ensures End(r).w.pending.Some? ==> End(r).w.pending.value.applied == Recorded(r, End(r).w.pending.value.id)
  {
    if r.Then? {
      RecordedByItsOwnMutation(ids, r.before);
      NextIdGrows(ids, End(r.before), r.step, r.s);
      if r.s.w.pending.Some? { SameWindowOrNew(ids, End(r.before), r.step, r.s); }
    }
  }

  lemma NextIdGrows(ids: set<Id>, s: System, x: Step, n: System)
    requires Next(ids, s, x, n)
    ensures s.w.nextId <= n.w.nextId
  {
  }

  // ----- a revert that stopped half-way

  /** Past the choice of what to put back, the revert goes on with it. */
  ghost predicate Chosen(w: World, f: Faults)
    requires w.pending.Some?
  {
    && !w.pending.value.reverting && Restorable(w.pending.value.snapshot.groups) && f.read
    && (Stores(w) ==> f.saveSnapshot)
  }

  /** A revert that stops after that has stored what it puts back, and has put it back when the rows were replaced. */
  lemma InterruptedRevertRemembers(w: World, f: Faults)
    requires w.pending.Some? && Chosen(w, f) && !CanFinish(w, f)
    ensures var v := Revert(w, f).0;
      && v.pending.Some? && v.pending.value.snapshot == RevertTarget(w)
      && (if f.replace then SameTables(v.db, RevertTarget(w)) else v.db == w.db)
      && (v.pending.value.reverting ==> f.replace && f.mark)
  {
  }

  /**
   When it stopped before replacing the rows, the next one puts back the same rows: what was stored may take the place
   of the state before.
   */
  lemma RetryPutsBackTheSame(w: World, f: Faults)
    requires w.pending.Some? && Chosen(w, f) && !f.replace && w.pending.value.applied.Some?
    ensures var v := Revert(w, f).0;
      && v.pending.Some? && !v.pending.value.reverting
      && SameGroups(IndexGroups(RevertTarget(w).groups), IndexGroups(RevertTarget(v).groups))
      && SameRules(IndexRules(RevertTarget(w).rules), IndexRules(RevertTarget(v).rules))
  {
    var v := Revert(w, f).0;
    if Stores(w) {
      MergeIsIdempotent(ThreeOf(w));
      assert ThreeOf(v) == Again(ThreeOf(w), ThreeOf(w).Target());
    } else {
      assert ThreeOf(v) == ThreeOf(w);
    }
  }
}
