/**
 Confirm-or-revert as values: what each locked operation of `internal/firewallrules/confirm.go`
 does to the database, the pending row and the memory of the process.
 */
module ConfirmWindow {
  import opened Options
  import opened RevertMerge

  type WindowId = nat

  const SECOND := 1_000_000_000
  const CONFIRM_WINDOW := 90 * SECOND

  /** The one pending row. `applied` is what the window's own mutation left, once recorded. */
  datatype Pending = Pending(id: WindowId, snapshot: Snapshot, applied: Option<Snapshot>, expiresAt: int,
    reverting: bool)

  /** The deadline on the monotonic clock, known only to the process that opened the window. */
  datatype Deadline = Deadline(id: WindowId, at: int)

  /** `live` is the state the running firewall was last rebuilt from. */
  datatype World = World(db: Snapshot, pending: Option<Pending>, live: Snapshot, deadline: Option<Deadline>,
    nextId: WindowId)

  /** Which of the fallible steps of an operation succeed; a crash stops at the first that does not. */
  datatype Faults = Faults(read: bool, saveSnapshot: bool, replace: bool, mark: bool, reconcile: bool, clear: bool,
                           settings: SettingWrites)

  /** Each setting is written by itself; one that fails stays as it is, and the revert goes on. */
  datatype SettingWrites = SettingWrites(inputPolicy: bool, forwardPolicy: bool, wanMgmtClosed: bool)

  const ALL_SET := SettingWrites(true, true, true)

  datatype Reply = Done | Conflict | Broken | RevertFailed

  /** A snapshot serves only if the machine can be reconciled from it: both system groups are there. */
  predicate Restorable(gs: seq<Group>) {
    && (exists i :: 0 <= i < |gs| && gs[i].kind == BlockedHosts)
    && (exists i :: 0 <= i < |gs| && gs[i].kind == Blocklist)
  }

  predicate SameTables(x: Snapshot, y: Snapshot) { x.groups == y.groups && x.rules == y.rules }

  /** The revert is over in the database; only the running firewall is missing. */
  predicate Settled(p: Pending, db: Snapshot) { p.reverting && SameTables(p.snapshot, db) }

  function Forget(d: Option<Deadline>, id: WindowId): Option<Deadline> {
    if d.Some? && d.value.id == id then None else d
  }

  function Opened(w: World, now: int, mono: int): World {
    w.(pending := Some(Pending(w.nextId, w.db, None, now + CONFIRM_WINDOW, false)),
       deadline := Some(Deadline(w.nextId, mono + CONFIRM_WINDOW)), nextId := w.nextId + 1)
  }

  function Resolved(w: World): World
    requires w.pending.Some?
  {
    w.(pending := None, deadline := Forget(w.deadline, w.pending.value.id))
  }

  /** Arming: before anything is applied, and never on top of a window that still has work to do. */
  function OpenWindow(w: World, readOk: bool, clearOk: bool, saveOk: bool, now: int, mono: int): (World, Reply) {
    if !readOk || !Restorable(w.db.groups) then (w, Broken)
    else if w.pending.Some? && !Settled(w.pending.value, w.db) then (w, Conflict)
    else if w.pending.Some? && !clearOk then (w, Broken)
    else
      var v := if w.pending.Some? then Resolved(w) else w;
      if saveOk then (Opened(v, now, mono), Done) else (v, Broken)
  }

  predicate IsPending(w: World, id: WindowId) { w.pending.Some? && w.pending.value.id == id }

  /** The post-mutation state of a window that is no longer this one is not recorded. */
  function MarkApplied(w: World, id: WindowId, ok: bool): World {
    if ok && IsPending(w, id) then w.(pending := Some(w.pending.value.(applied := Some(w.db)))) else w
  }

  function Confirm(w: World, id: WindowId, clearOk: bool): (World, Reply) {
    if !IsPending(w, id) || w.pending.value.reverting then (w, Conflict)
    else if clearOk then (Resolved(w), Done) else (w, Broken)
  }

  function Discard(w: World, id: WindowId, clearOk: bool): (World, Reply) {
    if w.pending.None? then (w, Done)
    else if w.pending.value.id != id || w.pending.value.reverting then (w, Conflict)
    else if clearOk then (Resolved(w), Done) else (w, Broken)
  }

  /** After another mutation reconciled: the only thing a settled revert still owed has been paid. */
  function FinishSettled(w: World, clearOk: bool): (World, bool) {
    if w.pending.Some? && w.pending.value.reverting && clearOk then (Resolved(w), true) else (w, false)
  }

  function AppliedOrSnapshot(p: Pending): Snapshot {
    if p.applied.Some? then p.applied.value else p.snapshot
  }

  function ThreeOf(w: World): Three
    requires w.pending.Some?
  {
    Three(w.pending.value.snapshot, AppliedOrSnapshot(w.pending.value), w.db)
  }

  /** The state a revert applies: the merge, unless what it gives could not be restored. */
  ghost function RevertTarget(w: World): Snapshot
    requires w.pending.Some?
  {
    var target := ThreeOf(w).Target();
    if ThreeOf(w).Merged() && Restorable(target.groups) then target else w.pending.value.snapshot
  }

  function Setting<T>(now: Option<T>, target: Option<T>, ok: bool): Option<T> {
    if target.Some? && ok then target else now
  }

  /** Replaces both tables; each setting follows when the target has it and its write succeeds. */
  function Replaced(db: Snapshot, target: Snapshot, ok: SettingWrites): Snapshot {
    Snapshot(target.groups, target.rules,
      Settings(Setting(db.settings.inputPolicy, target.settings.inputPolicy, ok.inputPolicy),
               Setting(db.settings.forwardPolicy, target.settings.forwardPolicy, ok.forwardPolicy),
               Setting(db.settings.wanMgmtClosed, target.settings.wanMgmtClosed, ok.wanMgmtClosed)))
  }

  function FinishRevert(w: World, f: Faults): (World, Reply)
    requires w.pending.Some?
  {
    if !f.reconcile then (w, RevertFailed)
    else
      var v := w.(live := w.db);
      if f.clear then (Resolved(v), Done) else (v, RevertFailed)
  }

  /** The first half: store the target, replace the tables, and only then mark the revert as begun. */
  ghost function RestoreTables(w: World, f: Faults): (World, bool)
    requires w.pending.Some?
  {
    var p := w.pending.value;
    var stores := ThreeOf(w).Merged() && Restorable(ThreeOf(w).Target().groups);
    if !Restorable(p.snapshot.groups) || !f.read || (stores && !f.saveSnapshot) then (w, false)
    else
      var target := RevertTarget(w);
      var q := p.(snapshot := target);
      if !f.replace then (w.(pending := Some(q)), false)
      else
        var v := w.(db := Replaced(w.db, target, f.settings), pending := Some(q));
        if f.mark then (v.(pending := Some(q.(reverting := true))), true) else (v, false)
  }

  ghost function Revert(w: World, f: Faults): (World, Reply)
    requires w.pending.Some?
  {
    if w.pending.value.reverting then FinishRevert(w, f)
    else
      var (v, ok) := RestoreTables(w, f);
      if ok then FinishRevert(v, f) else (v, RevertFailed)
  }

  ghost function RevertById(w: World, id: WindowId, f: Faults): (World, Reply) {
    if !IsPending(w, id) then (w, Conflict) else Revert(w, f)
  }

  /** A window opened in this process is timed by elapsed time alone; an older one by the wall clock. */
  predicate Expired(w: World, now: int, mono: int)
    requires w.pending.Some?
  {
    if w.deadline.Some? && w.deadline.value.id == w.pending.value.id then mono >= w.deadline.value.at
    else now >= w.pending.value.expiresAt
  }

  ghost function CheckExpired(w: World, readOk: bool, f: Faults, now: int, mono: int): (World, Reply) {
    if !readOk then (w, Broken)
    else if w.pending.None? then (w, Done)
    else if w.pending.value.reverting || Expired(w, now, mono) then Revert(w, f)
    else (w, Done)
  }

  /** At boot the pending window is reverted whether or not it has expired. */
  ghost function RevertOnBoot(w: World, readOk: bool, f: Faults): (World, Reply) {
    if !readOk then (w, Broken) else if w.pending.None? then (w, Done) else Revert(w, f)
  }

  /** The lock every mutation passes: closed by an open window, open again once a revert has settled. */
  predicate GuardOpen(w: World) { w.pending.None? || Settled(w.pending.value, w.db) }
}
