/** Concrete runs: what the conditions of the safety theorems are for. */
module ConfirmExamples {
  import opened Options
  import opened RevertMerge
  import opened MergeProperties
  import opened InputChain
  import opened ConfirmWindow
  import opened ConfirmSafety
  import opened LiveFirewall

  const ALL_WELL := Faults(true, true, true, true, true, true, ALL_SET)
  const NO_READ := Faults(false, true, true, true, true, true, ALL_SET)

  const SYSTEM := [Group("a", 0, 0, BlockedHosts, Forward, ""), Group("b", 1, 0, Blocklist, Forward, "")]
  const INPUT_GROUP := Group("c", 2, 0, Admin, Input, "")

  /** Two system groups, an input group, and a rule in it or not. */
  function Example(withRule: bool): Snapshot {
    Snapshot(SYSTEM + [INPUT_GROUP], if withRule then [Rule("r", 0, 0, "c", "")] else [], NO_SETTINGS)
  }

  lemma ExamplesAreHeld()
    ensures Held({"c"}, Example(true)) && Held({"c"}, Example(false)) && Restorable(Example(true).groups)
  {
    var x := Example(true).groups;
    assert x[0].kind == BlockedHosts && x[1].kind == Blocklist;
  }

  lemma ExamplesDiffer()
    ensures PartOf(Example(true)) != PartOf(Example(false))
  {
    var x, r := Example(true), Rule("r", 0, 0, "c", "");
    assert x.groups[2] in x.groups && Touches(x.groups[2]);
    assert "c" in InputIds(x) && OfGroups(InputIds(x))(r);
    assert x.rules[..0] == [];
    assert Filter(x.rules, OfGroups(InputIds(x))) == [r];
    assert |PartOf(x).rules| == 1;
  }

  function Begin(db: Snapshot): System { System(World(db, None, db, None, 0), PartOf(db), map[]) }

  /** A window that times out before its mutation has written anything goes away and changes nothing. */
  lemma TimeoutInFlight(db: Snapshot, w: World)
    requires Restorable(db.groups) && w == Opened(World(db, None, db, None, 0), 0, 0)
    ensures var v := CheckExpired(w, true, ALL_WELL, CONFIRM_WINDOW, CONFIRM_WINDOW).0; v.pending.None? && v.db == db
  {
    UndisturbedIsLiteral(ThreeOf(w));
  }

  function Armed(db: Snapshot): System { Begin(db).(w := Opened(Begin(db).w, 0, 0), flights := map[0 := false]) }

  function ArmedRun(db: Snapshot): Run { Then(Start(Begin(db)), Arm(0, 0, true, true, true), Armed(db)) }

  lemma ArmedIsRun(ids: set<Id>, db: Snapshot)
    requires Held(ids, db) && Restorable(db.groups)
    ensures IsRun(ids, ArmedRun(db)) && AllCovered(ArmedRun(db)) && StartsInForce(ArmedRun(db))
  {
    assert Next(ids, Begin(db), Arm(0, 0, true, true, true), Armed(db));
    assert IsRun(ids, Start(Begin(db))) && AllCovered(Start(Begin(db))) && StartsInForce(Start(Begin(db)));
  }

  /** The write of a mutation whose window timed out between the arm and the write: no window covers it. */
  lemma LateWriteBreaksThePromise() returns (r: Run)
    ensures IsRun({"c"}, r) && r.Then? && Sound({"c"}, End(r.before)) && !Covered(End(r.before), r.step)
    ensures !Safe(End(r))
  {
    ExamplesAreHeld();
    ExamplesDiffer();
    var db, state := Example(true), Example(false);
    var armed := Armed(db);
    ArmedIsRun({"c"}, db);
    TimeoutInFlight(db, armed.w);
    var tick := Tick(true, ALL_WELL, CONFIRM_WINDOW, CONFIRM_WINDOW);
    var late := armed.(w := CheckExpired(armed.w, true, ALL_WELL, CONFIRM_WINDOW, CONFIRM_WINDOW).0);
    var r2 := Then(ArmedRun(db), tick, late);
    assert IsRun({"c"}, r2) && AllCovered(r2);
    EveryRunIsSafe({"c"}, r2);
    r := Then(r2, Write(0, state), late.(w := late.w.(db := state), flights := map[0 := true]));
    AfterLateWrite(late, state, r.s, r2);
  }

  lemma AfterLateWrite(late: System, state: Snapshot, n: System, r2: Run)
    requires IsRun({"c"}, r2) && End(r2) == late && late.w.pending.None? && late.flights == map[0 := false]
    requires Held({"c"}, state) && PartOf(state) != late.confirmed && Sound({"c"}, late)
    requires n == late.(w := late.w.(db := state), flights := map[0 := true])
    ensures IsRun({"c"}, Then(r2, Write(0, state), n)) && !Covered(late, Write(0, state)) && !Safe(n)
  {
    assert map[0 := false][0 := true] == map[0 := true];
    assert Next({"c"}, late, Write(0, state), n);
  }

  /** The run whose mutation has written `state` over `db`. */
  function WrittenSystem(db: Snapshot, state: Snapshot): System {
    Armed(db).(w := Armed(db).w.(db := state), flights := map[0 := true])
  }

  function WrittenRun(db: Snapshot, state: Snapshot): Run {
    Then(ArmedRun(db), Write(0, state), WrittenSystem(db, state))
  }

  lemma WrittenIsRun(ids: set<Id>, db: Snapshot, state: Snapshot)
    requires Held(ids, db) && Restorable(db.groups) && Held(ids, state)
    ensures var r := WrittenRun(db, state); IsRun(ids, r) && AllCovered(r) && StartsInForce(r)
  {
    ArmedIsRun(ids, db);
    assert map[0 := false][0 := true] == map[0 := true];
    assert Next(ids, Armed(db), Write(0, state), WrittenSystem(db, state));
  }

  /**
   Confirmed after a failed reconcile and a failed revert: the database keeps the promise, the firewall lags behind.
   */
  lemma ConfirmedOutOfForce() returns (r: Run)
    ensures IsRun({"c"}, r) && AllCovered(r) && StartsInForce(r) && Safe(End(r))
    ensures End(r).w.pending.None? && PartOf(End(r).w.live) != End(r).confirmed
  {
    ExamplesDiffer();
    var r3 := LandedWithoutRevert();
    var s := End(r3);
    r := Then(r3, OperatorConfirms(0, true), s.(w := Resolved(s.w), confirmed := PartOf(s.w.db)));
    EveryRunIsSafe({"c"}, r);
  }

  /** The reconcile failed, and so did the revert: the window is open, the firewall as it was. */
  lemma LandedWithoutRevert() returns (r: Run)
    ensures IsRun({"c"}, r) && AllCovered(r) && StartsInForce(r)
    ensures var w := End(r).w;
      Open(w) && w.pending.value.id == 0 && w.db == Example(false) && w.live == Example(true)
  {
    ExamplesAreHeld();
    var db, state := Example(true), Example(false);
    WrittenIsRun({"c"}, db, state);
    var s2 := WrittenSystem(db, state);
    FailedLanding({"c"}, s2);
    r := Then(WrittenRun(db, state), MutationDone(0, false, NO_READ), s2.(flights := map[]));
  }

  lemma FailedLanding(ids: set<Id>, s: System)
    requires s.flights == map[0 := true] && Open(s.w) && s.w.pending.value.id == 0
    ensures Next(ids, s, MutationDone(0, false, NO_READ), s.(flights := map[]))
  {
    assert s.flights - {0} == map[];
  }

  // ----- a rule without its group

  const FORWARD_GROUP := Group("g", 3, 0, Admin, Forward, "")

  /** A rule of a forward group. */
  const BEFORE := Snapshot(SYSTEM + [INPUT_GROUP, FORWARD_GROUP], [Rule("r", 0, 0, "g", "")], NO_SETTINGS)
  /** The window's mutation moves the rule to the input group. */
  const MOVED := Snapshot(SYSTEM + [INPUT_GROUP, FORWARD_GROUP], [Rule("r", 0, 0, "c", "")], NO_SETTINGS)
  /** Meanwhile someone else removes the forward group, which is empty now. */
  const REMOVED := Snapshot(SYSTEM + [INPUT_GROUP], [Rule("r", 0, 0, "c", "")], NO_SETTINGS)

  const INDEX: Groups := map["a" := SYSTEM[0], "b" := SYSTEM[1], "c" := INPUT_GROUP]

  lemma IndexesOfTheThree()
    ensures IndexGroups(REMOVED.groups) == INDEX
    ensures IndexGroups(BEFORE.groups) == INDEX["g" := FORWARD_GROUP] == IndexGroups(MOVED.groups)
  {
    assert [SYSTEM[0]][..0] == [] && SYSTEM[..1] == [SYSTEM[0]];
    assert IndexGroups([SYSTEM[0]]) == map["a" := SYSTEM[0]];
    assert IndexGroups(SYSTEM) == map["a" := SYSTEM[0], "b" := SYSTEM[1]];
    assert REMOVED.groups[..2] == SYSTEM && BEFORE.groups[..3] == REMOVED.groups;
  }

  lemma RulesOfTheThree()
    ensures IndexRules(BEFORE.rules) == map["r" := BEFORE.rules[0]]
    ensures IndexRules(MOVED.rules) == map["r" := MOVED.rules[0]]
        && IndexRules(REMOVED.rules) == map["r" := MOVED.rules[0]]
  {
    assert BEFORE.rules[..0] == [] && MOVED.rules[..0] == [];
  }

  lemma TheThreeAreHeld()
    ensures Held({"c"}, BEFORE) && Held({"c"}, MOVED) && Held({"c"}, REMOVED)
    ensures Restorable(BEFORE.groups) && Restorable(REMOVED.groups)
  {
    var x := BEFORE.groups;
    assert x[0].kind == BlockedHosts && x[1].kind == Blocklist;
    IndexesOfTheThree();
  }

  lemma TheyHaveTheSameInput()
    ensures PartOf(MOVED) == PartOf(REMOVED)
  {
    var m, n := MOVED.groups, REMOVED.groups;
    assert m == n + [FORWARD_GROUP] && m[..3] == n;
    assert Filter(m, Touches) == Filter(n, Touches);
    assert InputIds(MOVED) == InputIds(REMOVED);
  }

  ghost predicate OrphanIn(s: Snapshot, id: Id) {
    MergeProperties.OrphanIn(IndexGroups(s.groups), IndexRules(s.rules), id)
  }

  lemma TheRemovalStands()
    ensures var t := Three(BEFORE, MOVED, REMOVED);
      "g" in t.GroupIds() && t.GroupDecision("g") == RemovalStands && t.Merged()
  {
    IndexesOfTheThree();
    var t := Three(BEFORE, MOVED, REMOVED);
    assert "g" in t.GroupIds() && Diverged(t.GroupDecision("g"));
  }

  lemma TargetGroupsAre()
    ensures var gs := IndexGroups(Three(BEFORE, MOVED, REMOVED).Target().groups);
      && "g" !in gs && "a" in gs && "b" in gs
      && StripGroup(gs["a"]) == StripGroup(SYSTEM[0]) && StripGroup(gs["b"]) == StripGroup(SYSTEM[1])
  {
    IndexesOfTheThree();
    var t := Three(BEFORE, MOVED, REMOVED);
    GroupContract(t, "a");
    GroupContract(t, "b");
    GroupContract(t, "g");
  }

  lemma TargetIsRestorable()
    ensures Restorable(Three(BEFORE, MOVED, REMOVED).Target().groups)
  {
    TargetGroupsAre();
    var gs := Three(BEFORE, MOVED, REMOVED).Target().groups;
    IndexedGroups(gs);
    var i :| 0 <= i < |gs| && gs[i] == IndexGroups(gs)["a"];
    var j :| 0 <= j < |gs| && gs[j] == IndexGroups(gs)["b"];
    assert gs[i].kind == BlockedHosts && gs[j].kind == Blocklist;
  }

  /** What the revert of the window applies: the rule is back in a group that is gone. */
  lemma TargetHasAnOrphan()
    ensures OrphanIn(Three(BEFORE, MOVED, REMOVED).Target(), "r")
  {
    IndexesOfTheThree();
    RulesOfTheThree();
    TargetGroupsAre();
    var t := Three(BEFORE, MOVED, REMOVED);
    RuleContract(t, "r");
  }

  lemma NoneHasAnOrphan()
    ensures Closed(BEFORE) && Closed(MOVED) && Closed(REMOVED)
  {
    IndexesOfTheThree();
    RulesOfTheThree();
  }

  /** The window of the move, written, reconciled, and then the other removal: a run of the service. */
  lemma RunOfTheThree() returns (r: Run)
    ensures IsRun({"c"}, r) && AllCovered(r)
    ensures var w := End(r).w;
      && Open(w) && w.pending.value.id == 0 && w.pending.value.snapshot == BEFORE
      && w.pending.value.applied == Some(MOVED) && w.db == REMOVED
  {
    TheThreeAreHeld();
    TheyHaveTheSameInput();
    var r4 := RunOfTheMove();
    r := Then(r4, ForwardWrite(REMOVED), End(r4).(w := End(r4).w.(db := REMOVED)));
  }

  lemma RunOfTheMove() returns (r: Run)
    ensures IsRun({"c"}, r) && AllCovered(r)
    ensures var w := End(r).w;
      && Open(w) && w.pending.value.id == 0 && w.pending.value.snapshot == BEFORE
      && w.pending.value.applied == Some(MOVED) && w.db == MOVED
  {
    TheThreeAreHeld();
    WrittenIsRun({"c"}, BEFORE, MOVED);
    var s2 := WrittenSystem(BEFORE, MOVED);
    var s3 := s2.(w := MarkApplied(s2.w, 0, true));
    MarkedIsNext({"c"}, s2, s3);
    var r3 := Then(WrittenRun(BEFORE, MOVED), Mark(0, true), s3);
    LandedIsNext({"c"}, s3);
    r := Then(r3, MutationDone(0, true, ALL_WELL), s3.(w := s3.w.(live := s3.w.db), flights := map[]));
  }

  lemma MarkedIsNext(ids: set<Id>, s: System, n: System)
    requires s.flights == map[0 := true] && n == s.(w := MarkApplied(s.w, 0, true))
    ensures Next(ids, s, Mark(0, true), n)
  {
  }

  lemma LandedIsNext(ids: set<Id>, s: System)
    requires s.flights == map[0 := true]
    ensures Next(ids, s, MutationDone(0, true, ALL_WELL), s.(w := s.w.(live := s.w.db), flights := map[]))
  {
    assert s.flights - {0} == map[];
  }

  /** Reverting that window leaves a rule in the database without its group. */
  lemma RestoredRuleWithoutItsGroup() returns (r: Run)
    ensures IsRun({"c"}, r) && AllCovered(r) && End(r).w.pending.None? && OrphanIn(End(r).w.db, "r")
    ensures Closed(BEFORE) && Closed(MOVED) && Closed(REMOVED)
  {
    NoneHasAnOrphan();
    var r5 := RunOfTheThree();
    var s := End(r5);
    TheThreeAreHeld();
    TheRemovalStands();
    TargetIsRestorable();
    TargetHasAnOrphan();
    RevertApplies(s.w);
    r := Then(r5, OperatorReverts(0, ALL_WELL), s.(w := Revert(s.w, ALL_WELL).0));
  }

  lemma RevertApplies(w: World)
    requires w.pending.Some? && w.pending.value.snapshot == BEFORE && w.pending.value.applied == Some(MOVED)
    requires w.db == REMOVED && !w.pending.value.reverting
    requires Restorable(BEFORE.groups)
    requires var t := Three(BEFORE, MOVED, REMOVED); t.Merged() && Restorable(t.Target().groups)
    ensures var v := Revert(w, ALL_WELL).0;
      v.pending.None? && SameTables(v.db, Three(BEFORE, MOVED, REMOVED).Target())
  {
  }
}
