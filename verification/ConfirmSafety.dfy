/**
 Safety over whole runs: mutations in flight, crashes, a failing nft, confirmations, reverts,
 timeouts and late writes by other admins, in any interleaving.
 */
module ConfirmSafety {
  import opened Options
  import opened RevertMerge
  import opened InputChain
  import opened ConfirmWindow

  /** The mutations between their arm and their reconcile, by window; true once the write has happened. */
  type Flights = map<WindowId, bool>

  /** `confirmed` is the input part as of the last confirmation. */
  datatype System = System(w: World, confirmed: InputPart, flights: Flights)

  datatype Step =
    | Arm(now: int, mono: int, readOk: bool, clearOk: bool, saveOk: bool)
    | Write(id: WindowId, state: Snapshot)
    | WriteFails(id: WindowId, clearOk: bool)
    | Mark(id: WindowId, ok: bool)
    | MutationDone(id: WindowId, reconcileOk: bool, f: Faults)
    | ForwardWrite(state: Snapshot)
    | ForwardDone(reconcileOk: bool, clearOk: bool)
    | OperatorConfirms(id: WindowId, clearOk: bool)
    | OperatorReverts(id: WindowId, f: Faults)
    | Tick(readOk: bool, f: Faults, now: int, mono: int)
    | Crash
    | Boot(readOk: bool, f: Faults)

  predicate Unwritten(s: System, id: WindowId) { id in s.flights && !s.flights[id] }
  predicate Written(s: System, id: WindowId) { id in s.flights && s.flights[id] }

  /** A state the database can hold while exactly the groups of `ids` reach the input chain. */
  ghost predicate Held(ids: set<Id>, x: Snapshot) { Listed(x) && ScopedBy(ids, x) }

  /** One step of anyone, at any moment. No group changes scope: exactly the groups of `ids` reach the input chain. */
  ghost predicate Next(ids: set<Id>, s: System, x: Step, n: System) {
    match x
    case Arm(now, mono, readOk, clearOk, saveOk) =>
      var (v, reply) := OpenWindow(s.w, readOk, clearOk, saveOk, now, mono);
      n == s.(w := v, flights := if reply == Done then s.flights[s.w.nextId := false] else s.flights)
    case Write(id, state) =>
      Unwritten(s, id) && Held(ids, state) && n == s.(w := s.w.(db := state), flights := s.flights[id := true])
    case WriteFails(id, clearOk) =>
      Unwritten(s, id) && n == s.(w := Discard(s.w, id, clearOk).0, flights := s.flights - {id})
    case Mark(id, ok) => Written(s, id) && n == s.(w := MarkApplied(s.w, id, ok))
    case MutationDone(id, reconcileOk, f) =>
      && Written(s, id)
      && n == s.(w := if reconcileOk then s.w.(live := s.w.db) else RevertById(s.w, id, f).0,
                 flights := s.flights - {id})
    case ForwardWrite(state) =>
      Held(ids, state) && PartOf(state) == PartOf(s.w.db) && n == s.(w := s.w.(db := state))
    case ForwardDone(reconcileOk, clearOk) =>
      n == s.(w := if reconcileOk then FinishSettled(s.w.(live := s.w.db), clearOk).0 else s.w)
    case OperatorConfirms(id, clearOk) =>
      var (v, reply) := Confirm(s.w, id, clearOk);
      n == s.(w := v, confirmed := if reply == Done then PartOf(s.w.db) else s.confirmed)
    case OperatorReverts(id, f) => n == s.(w := RevertById(s.w, id, f).0)
    case Tick(readOk, f, now, mono) => n == s.(w := CheckExpired(s.w, readOk, f, now, mono).0)
    case Crash => n == s.(w := s.w.(deadline := None), flights := map[])
    case Boot(readOk, f) => n == s.(w := RevertOnBoot(s.w, readOk, f).0)
  }

  predicate Open(w: World) { w.pending.Some? && !w.pending.value.reverting }

  /**
   The promise: nothing pending, or a revert under way, means the last confirmed input part
   is in the database; otherwise it is in the snapshot.
   */
  ghost predicate Safe(s: System) {
    if Open(s.w) then PartOf(s.w.pending.value.snapshot) == s.confirmed else PartOf(s.w.db) == s.confirmed
  }

  /** The promise, and what keeps it: a window still waiting for its mutation's write has nothing to undo. */
  ghost predicate Sound(ids: set<Id>, s: System) {
    && Safe(s) && Held(ids, s.w.db)
    && (s.w.pending.Some? ==> Held(ids, s.w.pending.value.snapshot))
    && (Open(s.w) && Unwritten(s, s.w.pending.value.id) ==> PartOf(s.w.db) == s.confirmed)
    && Fresh(s)
  }

  /** Window ids are never used twice. */
  ghost predicate Fresh(s: System) {
    && (forall id | id in s.flights :: id < s.w.nextId)
    && (s.w.pending.Some? ==> s.w.pending.value.id < s.w.nextId)
  }

  /** A window that undoes what mutation `id` writes: its own, or one whose own write has already happened. */
  predicate Guarded(s: System, id: WindowId) {
    Open(s.w) && (s.w.pending.value.id == id || !Unwritten(s, s.w.pending.value.id))
  }

  /** Every step but a write is harmless; a write is when a window covers it, or when it brings nothing unconfirmed. */
  ghost predicate Covered(s: System, x: Step) {
    x.Write? ==> Guarded(s, x.id) || PartOf(x.state) == s.confirmed
  }

  lemma SettingsAreNotInput(x: Snapshot, y: Snapshot, ids: set<Id>)
    requires SameTables(x, y)
    ensures PartOf(x) == PartOf(y) && (Held(ids, x) <==> Held(ids, y))
  {
    assert InputIds(x) == InputIds(y);
  }

  /** Whatever a revert decides to apply, its input part is the snapshot's. */
  lemma TargetHasSnapshotInput(ids: set<Id>, w: World)
    requires w.pending.Some? && Held(ids, w.pending.value.snapshot) && Held(ids, w.db)
    ensures PartOf(RevertTarget(w)) == PartOf(w.pending.value.snapshot) && Held(ids, RevertTarget(w))
    ensures forall ok :: PartOf(Replaced(w.db, RevertTarget(w), ok)) == PartOf(w.pending.value.snapshot)
    ensures forall ok :: Held(ids, Replaced(w.db, RevertTarget(w), ok))
  {
    var t := ThreeOf(w);
    MergeRestoresInputChain(t, ids);
    TargetIsListed(t);
    TargetIsScoped(t, ids);
    forall ok
      ensures PartOf(Replaced(w.db, RevertTarget(w), ok)) == PartOf(RevertTarget(w))
      ensures Held(ids, Replaced(w.db, RevertTarget(w), ok))
    {
      SettingsAreNotInput(RevertTarget(w), Replaced(w.db, RevertTarget(w), ok), ids);
    }
  }

  /** A revert keeps the promise at every point where it may stop. */
  lemma RevertKeepsSound(ids: set<Id>, s: System, f: Faults)
    requires Sound(ids, s) && s.w.pending.Some?
    ensures Sound(ids, s.(w := Revert(s.w, f).0))
  {
    if !s.w.pending.value.reverting { TargetHasSnapshotInput(ids, s.w); }
  }

  lemma LandingKeepsSound(ids: set<Id>, s: System, id: WindowId)
    requires Sound(ids, s) && Written(s, id)
    ensures Sound(ids, s.(flights := s.flights - {id}))
  {
  }

  lemma ArmKeepsSound(ids: set<Id>, s: System, x: Step, n: System)
    requires Sound(ids, s) && x.Arm? && Next(ids, s, x, n)
    ensures Sound(ids, n)
  {
    if s.w.pending.Some? && Settled(s.w.pending.value, s.w.db) {
      SettingsAreNotInput(s.w.pending.value.snapshot, s.w.db, ids);
    }
  }

  /** Anything but a write, whenever it happens and whatever it resolves, keeps the promise. */
  lemma OtherStepKeepsSound(ids: set<Id>, s: System, x: Step, n: System)
    requires Sound(ids, s) && Next(ids, s, x, n) && !x.Write?
    ensures Sound(ids, n)
  {
    match x {
      case Arm(_, _, _, _, _) => ArmKeepsSound(ids, s, x, n);
      case MutationDone(id, reconcileOk, f) =>
        LandingKeepsSound(ids, s, id);
        if !reconcileOk && IsPending(s.w, id) { RevertKeepsSound(ids, s.(flights := s.flights - {id}), f); }
      case OperatorReverts(id, f) => if IsPending(s.w, id) { RevertKeepsSound(ids, s, f); }
      case Tick(_, f, _, _) => if s.w.pending.Some? { RevertKeepsSound(ids, s, f); }
      case Boot(_, f) => if s.w.pending.Some? { RevertKeepsSound(ids, s, f); }
      case _ =>
    }
  }

  /** A write keeps it exactly when a window covers it or its input part is the confirmed one. */
  lemma WriteKeepsSoundIff(ids: set<Id>, s: System, id: WindowId, state: Snapshot, n: System)
    requires Sound(ids, s) && Next(ids, s, Write(id, state), n)
    ensures Sound(ids, n) <==> Guarded(s, id) || PartOf(state) == s.confirmed
  {
  }

  /** An uncovered write is unsafe at once, or as soon as the write of the mutation whose window is open fails. */
  lemma UncoveredWriteIsUnsafe(ids: set<Id>, s: System, x: Step, n: System) returns (m: System)
    requires Sound(ids, s) && Next(ids, s, x, n) && !Covered(s, x)
    ensures !Safe(m)
    ensures m == n || (Open(n.w) && Next(ids, n, WriteFails(n.w.pending.value.id, true), m))
  {
    m := n;
    if Open(n.w) {
      var id := n.w.pending.value.id;
      m := n.(w := Discard(n.w, id, true).0, flights := n.flights - {id});
    }
  }

  lemma StepKeepsSound(ids: set<Id>, s: System, x: Step, n: System)
    requires Sound(ids, s) && Next(ids, s, x, n)
    ensures Sound(ids, n) <==> Covered(s, x)
  {
    if x.Write? { WriteKeepsSoundIff(ids, s, x.id, x.state, n); } else { OtherStepKeepsSound(ids, s, x, n); }
  }

  datatype Run = Start(s: System) | Then(before: Run, step: Step, s: System)

  function End(r: Run): System { r.s }

  /** A run starts from a machine with no window, whose input part counts as confirmed. */
  ghost predicate IsRun(ids: set<Id>, r: Run) {
    match r
    case Start(s) => Held(ids, s.w.db) && s.w.pending.None? && s.flights == map[] && s.confirmed == PartOf(s.w.db)
    case Then(before, step, s) => IsRun(ids, before) && Next(ids, End(before), step, s)
  }

  ghost predicate AllCovered(r: Run) {
    r.Then? ==> AllCovered(r.before) && Covered(End(r.before), r.step)
  }

  /** The invariant holds in every state of the run so far. */
  ghost predicate SoundThroughout(ids: set<Id>, r: Run) {
    Sound(ids, End(r)) && (r.Then? ==> SoundThroughout(ids, r.before))
  }

  /**
   In every run, with windows confirmed, reverted and timed out at any moment, the promise
   holds throughout as long as every write is covered.
   */
  lemma {:induction false} EveryRunIsSafe(ids: set<Id>, r: Run)
    requires IsRun(ids, r) && AllCovered(r)
    ensures Sound(ids, End(r)) && Safe(End(r))
  {
    if r.Then? {
      EveryRunIsSafe(ids, r.before);
      StepKeepsSound(ids, End(r.before), r.step, r.s);
    }
  }

  /** And only then. */
  lemma {:induction false} SafeIffEveryWriteIsCovered(ids: set<Id>, r: Run)
    requires IsRun(ids, r)
    ensures SoundThroughout(ids, r) <==> AllCovered(r)
  {
    if r.Then? {
      SafeIffEveryWriteIsCovered(ids, r.before);
      if SoundThroughout(ids, r.before) { StepKeepsSound(ids, End(r.before), r.step, r.s); }
    }
  }

  /** No window is resolved between its own arm and its own write. */
  ghost predicate NoneResolvedUnwritten(r: Run) {
    match r
    case Start(_) => true
    case Then(before, step, _) =>
      NoneResolvedUnwritten(before) && (step.Write? ==> Open(End(before).w) && IsPending(End(before).w, step.id))
  }

  lemma {:induction false} UnresolvedIsCovered(r: Run)
    requires NoneResolvedUnwritten(r)
    ensures AllCovered(r)
  {
    if r.Then? { UnresolvedIsCovered(r.before); }
  }
}
