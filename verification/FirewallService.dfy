/** The service that owns the pending window: each method is one critical section of the source. */
module FirewallService {
  import opened Options
  import opened RevertMerge
  import opened MergeProperties
  import opened InputChain
  import opened ConfirmWindow
  import opened Reverts
  import Merging

  /** Where a mutation stopped. `Ok` is the success of the source. */
  datatype Stage = Ok | Validate | Locked | Preflight | Window | WriteStage | ReconcileStage | Stuck

  /** What a mutation decides by itself; `state` is what its write leaves, when the write succeeds. */
  datatype Mutation = Mutation(valid: bool, preflightOk: bool, needsWindow: bool, state: Option<Snapshot>)

  /** The fallible steps of one ApplyGuarded. */
  datatype Trip = Trip(guardRead: bool, openRead: bool, openClear: bool, save: bool, discard: bool, mark: bool,
                       reconcile: bool, revert: Faults, finish: bool)

  /** The first half of a mutation: everything up to and including its write. */
  function UpToWrite(w: World, m: Mutation, t: Trip, now: int, mono: int): (World, Stage) {
    if !m.valid then (w, Validate)
    else if !t.guardRead || !GuardOpen(w) then (w, Locked)
    else if !m.preflightOk then (w, Preflight)
    else
      var (v, reply) := if m.needsWindow then OpenWindow(w, t.openRead, t.openClear, t.save, now, mono) else (w, Done);
      if reply == Conflict then (v, Locked)
      else if reply != Done then (v, Window)
      else if m.state.Some? then (v.(db := m.state.value), Ok)
      else ((if m.needsWindow then Discard(v, w.nextId, t.discard).0 else v), WriteStage)
  }

  /** The obligatory order of a mutation, with nobody in between (ConfirmSafety interleaves the steps). */
  ghost function Guarded(w: World, m: Mutation, t: Trip, now: int, mono: int): (World, Stage) {
    var (v, stage) := UpToWrite(w, m, t, now, mono);
    if stage != Ok then (v, stage)
    else if !m.needsWindow then
      if t.reconcile then (FinishSettled(v.(live := v.db), t.finish).0, Ok) else (v, ReconcileStage)
    else
      var u := MarkApplied(v, w.nextId, t.mark);
      if t.reconcile then (u.(live := u.db), Ok)
      else
        var (x, reply) := RevertById(u, w.nextId, t.revert);
        (x, if reply == Done then ReconcileStage else Stuck)
  }

  /** Up to the write no table changes, and a refusal before the window changes nothing at all. */
  lemma RefusedMutationChangesNoTable(w: World, m: Mutation, t: Trip, now: int, mono: int)
    ensures var (v, stage) := Guarded(w, m, t, now, mono);
            && (stage == Validate || stage == Locked || stage == Preflight ==> v == w)
            && (stage == Window || stage == WriteStage ==> v.db == w.db && v.live == w.live)
            && (stage == WriteStage && m.needsWindow && t.discard ==> v.pending == None)
  {
  }

  /** No window is pending, or the one that is has its state back in the database. */
  predicate Unlocked(w: World) {
    w.pending.None? || (w.pending.value.reverting && SameTables(w.pending.value.snapshot, w.db))
  }

  /** What a mutation that needs a window needs to open it. */
  predicate CanOpen(w: World, t: Trip) {
    t.openRead && Restorable(w.db.groups) && (w.pending.Some? ==> t.openClear) && t.save
  }

  /** A mutation succeeds exactly when it is valid, nothing locks it, and each of its steps succeeds. */
  lemma MutationSucceedsIff(w: World, m: Mutation, t: Trip, now: int, mono: int)
    ensures Guarded(w, m, t, now, mono).1 == Ok <==>
            && m.valid && t.guardRead && Unlocked(w) && m.preflightOk && (m.needsWindow ==> CanOpen(w, t))
            && m.state.Some? && t.reconcile
  {
  }

  /** A mutation that succeeds leaves its state in both layers, with a window whose snapshot is the state before. */
  lemma AppliedMutation(w: World, m: Mutation, t: Trip, now: int, mono: int)
    requires Guarded(w, m, t, now, mono).1 == Ok
    ensures m.valid && m.preflightOk && Unlocked(w)
    ensures var v := Guarded(w, m, t, now, mono).0;
            && Some(v.db) == m.state && v.live == v.db
            && (m.needsWindow ==>
                  var applied := if t.mark then m.state else None;
                  v.pending == Some(Pending(w.nextId, w.db, applied, now + CONFIRM_WINDOW, false)))
            && (!m.needsWindow && t.finish ==> v.pending == None)
  {
  }

  /**
   A mutation the running firewall refused: what reaches the input chain is back, and every
   row and setting is back when the post-mutation state had been recorded; or else its window
   is still there for the watchdog.
   */
  lemma AbortedMutation(w: World, m: Mutation, t: Trip, now: int, mono: int, ids: set<Id>)
    requires m.needsWindow && m.state.Some?
    requires Listed(w.db) && ScopedBy(ids, w.db) && Listed(m.state.value) && ScopedBy(ids, m.state.value)
    ensures var (v, stage) := Guarded(w, m, t, now, mono);
            && (stage == ReconcileStage ==> v.pending == None && v.live == v.db && PartOf(v.db) == PartOf(w.db))
            && (stage == ReconcileStage && t.mark ==> SameTables(v.db, w.db))
            && (stage == ReconcileStage && t.mark ==>
                  SettingsBack(w.db.settings, m.state.value.settings, t.revert.settings, v.db.settings))
            && (stage == ReconcileStage && t.mark && AllPresent(w.db.settings) && t.revert.settings == ALL_SET ==>
                  v.db == w.db)
            && (stage == Stuck ==> IsPending(v, w.nextId))
  {
    var (v, stage) := UpToWrite(w, m, t, now, mono);
    if stage == Ok && !t.reconcile { AbortRestores(MarkApplied(v, w.nextId, t.mark), t.revert, ids); }
  }

  /** What reverting a window that has just been written leaves, when it concludes. */
  lemma AbortRestores(w: World, f: Faults, ids: set<Id>)
    requires w.pending.Some? && !w.pending.value.reverting
    requires Listed(w.pending.value.snapshot) && ScopedBy(ids, w.pending.value.snapshot) && Listed(w.db)
        && ScopedBy(ids, w.db)
    ensures var (v, reply) := Revert(w, f);
            && (reply == Done ==> v.pending == None && v.live == v.db)
            && (reply == Done ==> PartOf(v.db) == PartOf(w.pending.value.snapshot))
            && (reply == Done && w.pending.value.applied == Some(w.db) ==>
                  && SameTables(v.db, w.pending.value.snapshot)
                  && SettingsBack(w.pending.value.snapshot.settings, w.db.settings, f.settings, v.db.settings))
            && (reply != Done ==> IsPending(v, w.pending.value.id))
  {
    if w.pending.value.applied == Some(w.db) && Revert(w, f).1 == Done { UndisturbedRevertRestores(w, f); }
    MergeRestoresInputChain(ThreeOf(w), ids);
    assert InputIds(RevertTarget(w)) == InputIds(Replaced(w.db, RevertTarget(w), f.settings));
  }

  class Service {
    var db: Snapshot
    var pending: Option<Pending>
    var live: Snapshot
    var deadline: Option<Deadline>
    var nextId: WindowId

    ghost function W(): World
      reads this
    {
      World(db, pending, live, deadline, nextId)
    }

    constructor (db: Snapshot, pending: Option<Pending>, live: Snapshot, nextId: WindowId)
      ensures W() == World(db, pending, live, None, nextId)
    {
      this.db, this.pending, this.live, this.deadline, this.nextId := db, pending, live, None, nextId;
    }

    method Close()
      requires pending.Some?
      modifies this`pending, this`deadline
      ensures W() == Resolved(old(W()))
    {
      deadline := Forget(deadline, pending.value.id);
      pending := None;
    }

    method OpenConfirmWindow(readOk: bool, clearOk: bool, saveOk: bool, now: int, mono: int) returns (reply: Reply)
      modifies this
      ensures (W(), reply) == OpenWindow(old(W()), readOk, clearOk, saveOk, now, mono)
    {
      if !readOk || !Restorable(db.groups) { return Broken; }
      if pending.Some? {
        if !Settled(pending.value, db) { return Conflict; }
        if !clearOk { return Broken; }
        Close();
      }
      if !saveOk { return Broken; }
      pending := Some(Pending(nextId, db, None, now + CONFIRM_WINDOW, false));
      deadline := Some(Deadline(nextId, mono + CONFIRM_WINDOW));
      nextId := nextId + 1;
      return Done;
    }

    method ConfirmPending(id: WindowId, clearOk: bool) returns (reply: Reply)
      modifies this
      ensures (W(), reply) == Confirm(old(W()), id, clearOk)
      ensures reply == Done ==> db == old(db) && live == old(live) && pending == None
    {
      if pending.None? || pending.value.id != id || pending.value.reverting { return Conflict; }
      if !clearOk { return Broken; }
      Close();
      return Done;
    }

    method DiscardWindow(id: WindowId, clearOk: bool) returns (reply: Reply)
      modifies this
      ensures (W(), reply) == Discard(old(W()), id, clearOk)
    {
      if pending.None? { return Done; }
      if pending.value.id != id || pending.value.reverting { return Conflict; }
      if !clearOk { return Broken; }
      Close();
      return Done;
    }

    method FinishSettledRevert(clearOk: bool) returns (closed: bool)
      modifies this
      ensures (W(), closed) == FinishSettled(old(W()), clearOk)
    {
      if pending.None? || !pending.value.reverting || !clearOk { return false; }
      Close();
      return true;
    }

    method MarkWindowApplied(id: WindowId, ok: bool)
      modifies this`pending
      ensures W() == MarkApplied(old(W()), id, ok)
    {
      if ok && pending.Some? && pending.value.id == id {
        pending := Some(pending.value.(applied := Some(db)));
      }
    }

    /** Compares before, after and now, and stores a merged target before it is applied. */
    method ChooseTarget(f: Faults) returns (target: Option<Snapshot>)
      requires pending.Some?
      modifies this`pending
      ensures var w := old(W());
              var stores := ThreeOf(w).Merged() && Restorable(ThreeOf(w).Target().groups);
              if !f.read || (stores && !f.saveSnapshot) then target == None && pending == old(pending)
              else target == Some(RevertTarget(w)) && pending == Some(old(pending).value.(snapshot := RevertTarget(w)))
    {
      if !f.read { return None; }
      var p := pending.value;
      var m := Merging.MergeRevertTarget(p.snapshot, AppliedOrSnapshot(p), db);
      if m.preserved == [] && m.dropped == [] {
        assert pending == Some(p.(snapshot := p.snapshot));
        return Some(p.snapshot);
      }
      if !Restorable(m.target.groups) {
        assert pending == Some(p.(snapshot := p.snapshot));
        return Some(p.snapshot);
      }
      if !f.saveSnapshot { return None; }
      pending := Some(p.(snapshot := m.target));
      return Some(m.target);
    }

    method Finish(f: Faults) returns (reply: Reply)
      requires pending.Some?
      modifies this
      ensures (W(), reply) == FinishRevert(old(W()), f)
    {
      if !f.reconcile { return RevertFailed; }
      live := db;
      if !f.clear { return RevertFailed; }
      Close();
      return Done;
    }

    /** One setting after the other. */
    method RestoreSettings(target: Settings, ok: SettingWrites)
      modifies this`db
      ensures db == Replaced(old(db), Snapshot(old(db).groups, old(db).rules, target), ok)
    {
      if target.inputPolicy.Some? && ok.inputPolicy {
        db := db.(settings := db.settings.(inputPolicy := target.inputPolicy));
      }
      if target.forwardPolicy.Some? && ok.forwardPolicy {
        db := db.(settings := db.settings.(forwardPolicy := target.forwardPolicy));
      }
      if target.wanMgmtClosed.Some? && ok.wanMgmtClosed {
        db := db.(settings := db.settings.(wanMgmtClosed := target.wanMgmtClosed));
      }
    }

    /**
     The one path of every revert: the pending row goes only after the running firewall is
     back, and a revert that had begun only reconciles.
     */
    method DoRevert(f: Faults) returns (reply: Reply)
      requires pending.Some?
      modifies this
      ensures (W(), reply) == Revert(old(W()), f)
      ensures reply == Done ==> pending == None && live == db
      ensures reply != Done ==> pending.Some? && pending.value.id == old(pending).value.id
    {
      if pending.value.reverting {
        reply := Finish(f);
        return;
      }
      if !Restorable(pending.value.snapshot.groups) { return RevertFailed; }
      var target := ChooseTarget(f);
      if target.None? { return RevertFailed; }
      if !f.replace { return RevertFailed; }
      db := Snapshot(target.value.groups, target.value.rules, db.settings);
      RestoreSettings(target.value.settings, f.settings);
      if !f.mark { return RevertFailed; }
      pending := Some(pending.value.(reverting := true));
      reply := Finish(f);
    }

    method RevertPending(id: WindowId, f: Faults) returns (reply: Reply)
      modifies this
      ensures (W(), reply) == RevertById(old(W()), id, f)
    {
      if pending.None? || pending.value.id != id { return Conflict; }
      reply := DoRevert(f);
    }

    method CheckPendingExpired(readOk: bool, f: Faults, now: int, mono: int) returns (reply: Reply)
      modifies this
      ensures (W(), reply) == CheckExpired(old(W()), readOk, f, now, mono)
    {
      if !readOk { return Broken; }
      if pending.None? { return Done; }
      var expired := if deadline.Some? && deadline.value.id == pending.value.id then mono >= deadline.value.at
                     else now >= pending.value.expiresAt;
      if !pending.value.reverting && !expired { return Done; }
      reply := DoRevert(f);
    }

    method RevertPendingOnBoot(readOk: bool, f: Faults) returns (reply: Reply)
      modifies this
      ensures (W(), reply) == RevertOnBoot(old(W()), readOk, f)
    {
      if !readOk { return Broken; }
      if pending.None? { return Done; }
      reply := DoRevert(f);
    }

    /** Validate, lock, preflight, arm, write, record, reconcile; and the right undoing at each failure. */
    method ApplyGuarded(m: Mutation, t: Trip, now: int, mono: int) returns (stage: Stage)
      modifies this
      ensures (W(), stage) == Guarded(old(W()), m, t, now, mono)
    {
      if !m.valid { return Validate; }
      if !t.guardRead { return Locked; }
      if pending.Some? && !Settled(pending.value, db) { return Locked; }
      if !m.preflightOk { return Preflight; }
      var id := None;
      if m.needsWindow {
        var reply := OpenConfirmWindow(t.openRead, t.openClear, t.save, now, mono);
        if reply == Conflict { return Locked; }
        if reply != Done { return Window; }
        id := Some(pending.value.id);
      }
      if m.state.None? {
        if id.Some? { var _ := DiscardWindow(id.value, t.discard); }
        return WriteStage;
      }
      db := m.state.value;
      if id.Some? { MarkWindowApplied(id.value, t.mark); }
      if !t.reconcile {
        if id.None? { return ReconcileStage; }
        var reply := RevertPending(id.value, t.revert);
        return if reply == Done then ReconcileStage else Stuck;
      }
      live := db;
      if id.None? { var _ := FinishSettledRevert(t.finish); }
      return Ok;
    }
  }
}
