/** What the three-way merge promises. */
module MergeProperties {
  import opened Options
  import opened Order
  import opened RevertMerge

  function StripGroup(g: Group): Group { g.(position := 0) }
  function StripRule(r: Rule): Rule { r.(position := 0) }

  /** The same rows with the same content up to `position`. */
  ghost predicate SameGroups(x: Groups, y: Groups) {
    x.Keys == y.Keys && forall id | id in x :: StripGroup(x[id]) == StripGroup(y[id])
  }

  ghost predicate SameRules(x: Rules, y: Rules) {
    x.Keys == y.Keys && forall id | id in x :: StripRule(x[id]) == StripRule(y[id])
  }

  // ----- reading the target back

  lemma KeptRowsAreTheirs(t: Three)
    ensures forall id | id in t.Kept() :: t.Kept()[id].id == id
    ensures forall id | id in t.KeptRules() :: t.KeptRules()[id].id == id
  {
    KeptGroupsAreTheirs(t);
    IndexedRules(t.base.rules); IndexedRules(t.current.rules);
  }

  lemma KeptGroupsAreTheirs(t: Three)
    ensures forall id | id in t.Kept() :: t.Kept()[id].id == id
  {
    IndexedGroups(t.base.groups); IndexedGroups(t.current.groups);
  }

  lemma RenumberedGroups(m: Groups)
    requires forall id | id in m :: m[id].id == id
    ensures var q := RenumberGroups(InOrder(m.Values, GroupLess)); UniqueGroups(q) && SameGroups(m, IndexGroups(q))
  {
    var s := m.Values;
    var p := InOrder(s, GroupLess);
    var q := RenumberGroups(p);
    GroupsOrdered(s);
    KeyOrder();
    forall i | 0 <= i < |p| ensures p[i].id in m && m[p[i].id] == p[i] { assert p[i] in s; }
    assert UniqueGroups(q) by {
      forall i, j | 0 <= i < j < |q| ensures q[i].id != q[j].id { assert GroupLess(p[i], p[j]); }
    }
    IndexedGroups(q);
    forall id | id in m ensures id in IndexGroups(q) && StripGroup(IndexGroups(q)[id]) == StripGroup(m[id]) {
      assert m[id] in p;
      var i :| 0 <= i < |p| && p[i] == m[id];
      assert q[i] in q;
    }
    forall id | id in IndexGroups(q) ensures id in m {
      var i :| 0 <= i < |q| && q[i] == IndexGroups(q)[id];
      assert p[i].id == id;
    }
  }

  lemma RenumberedRules(m: Rules)
    requires forall id | id in m :: m[id].id == id
    ensures var q := RenumberRules(InOrder(m.Values, RuleLess)); UniqueRules(q) && SameRules(m, IndexRules(q))
  {
    var s := m.Values;
    var p := InOrder(s, RuleLess);
    var q := RenumberRules(p);
    RulesOrdered(s);
    KeyOrder();
    forall i | 0 <= i < |p| ensures p[i].id in m && m[p[i].id] == p[i] { assert p[i] in s; }
    assert UniqueRules(q) by {
      forall i, j | 0 <= i < j < |q| ensures q[i].id != q[j].id { assert RuleLess(p[i], p[j]); }
    }
    IndexedRules(q);
    forall id | id in m ensures id in IndexRules(q) && StripRule(IndexRules(q)[id]) == StripRule(m[id]) {
      assert m[id] in p;
      var i :| 0 <= i < |p| && p[i] == m[id];
      assert q[i] in q;
    }
    forall id | id in IndexRules(q) ensures id in m {
      var i :| 0 <= i < |q| && q[i] == IndexRules(q)[id];
      assert p[i].id == id;
    }
  }

  lemma NothingDivergedKeepsAll(t: Three)
    requires !t.Merged()
    ensures t.Kept() == IndexGroups(t.base.groups) && t.KeptRules() == IndexRules(t.base.rules)
  {
    forall id | id in t.GroupIds() ensures t.GroupDecision(id) == Restored(Lookup(IndexGroups(t.base.groups), id)) {
      assert !Diverged(t.GroupDecision(id));
    }
    forall id | id in t.RuleIds() ensures t.RuleDecision(id) == Restored(Lookup(IndexRules(t.base.rules), id)) {
      assert !Diverged(t.RuleDecision(id));
    }
  }

  /** The target, read row by row, is what was decided for each row. */
  lemma TargetRows(t: Three)
    ensures SameGroups(t.Kept(), IndexGroups(t.Target().groups))
        && SameRules(t.KeptRules(), IndexRules(t.Target().rules))
  {
    if t.Merged() {
      KeptRowsAreTheirs(t);
      RenumberedGroups(t.Kept());
      RenumberedRules(t.KeptRules());
    } else {
      NothingDivergedKeepsAll(t);
    }
  }

  // ----- the three-way contract

  /** With nothing written since the mutation, the target is the state before, literally. */
  lemma UndisturbedIsLiteral(t: Three)
    requires IndexGroups(t.applied.groups) == IndexGroups(t.current.groups)
    requires IndexRules(t.applied.rules) == IndexRules(t.current.rules)
    ensures !t.Merged() && t.Target() == t.base
  {
    forall id | id in t.GroupIds() ensures !Diverged(t.GroupDecision(id)) {}
    forall id | id in t.RuleIds() ensures !Diverged(t.RuleDecision(id)) {}
  }

  ghost predicate GroupDiverged(t: Three, id: Id) {
    Lookup(IndexGroups(t.applied.groups), id) != Lookup(IndexGroups(t.current.groups), id)
  }

  ghost predicate GroupInInput(t: Three, id: Id) {
    || GroupTouchesInput(Lookup(IndexGroups(t.base.groups), id))
    || GroupTouchesInput(Lookup(IndexGroups(t.applied.groups), id))
    || GroupTouchesInput(Lookup(IndexGroups(t.current.groups), id))
  }

  ghost predicate RuleDiverged(t: Three, id: Id) {
    Lookup(IndexRules(t.applied.rules), id) != Lookup(IndexRules(t.current.rules), id)
  }

  function StripOptGroup(g: Option<Group>): Option<Group> { if g.Some? then Some(StripGroup(g.value)) else None }
  function StripOptRule(r: Option<Rule>): Option<Rule> { if r.Some? then Some(StripRule(r.value)) else None }

  /** A group nobody else wrote, or that reaches the input chain, goes back; any other is as it is now. */
  lemma GroupContract(t: Three, id: Id)
    ensures StripOptGroup(Lookup(IndexGroups(t.Target().groups), id)) ==
            var s := if GroupDiverged(t, id) && !GroupInInput(t, id) then t.current else t.base;
            StripOptGroup(Lookup(IndexGroups(s.groups), id))
  {
    TargetGroup(t, id);
  }

  /**
   The same for rules, except that a rule kept from the current state needs its group to
   survive: otherwise it is left out, and that is reported.
   */
  lemma RuleContract(t: Three, id: Id)
    ensures var c := Lookup(IndexRules(t.current.rules), id);
            var mine := !RuleDiverged(t, id) || t.RuleTouches(id);
            var vanishes := c.Some? && c.value.groupId !in IndexGroups(t.Target().groups);
            && StripOptRule(Lookup(IndexRules(t.Target().rules), id)) ==
               (if mine then StripOptRule(Lookup(IndexRules(t.base.rules), id)) else if vanishes then None
                 else StripOptRule(c))
            && (t.RuleDecision(id).Dropped? <==> !mine && vanishes)
  {
    TargetRule(t, id);
  }

  lemma TargetRule(t: Three, id: Id)
    ensures StripOptRule(Lookup(IndexRules(t.Target().rules), id)) == StripOptRule(Row(t.RuleDecision(id)))
    ensures IndexGroups(t.Target().groups).Keys == t.Kept().Keys
  {
    TargetRows(t);
    assert id in IndexRules(t.Target().rules) <==> id in t.KeptRules();
    assert id !in t.RuleIds() ==> Row(t.RuleDecision(id)).None?;
  }

  ghost predicate OrphanIn(gs: Groups, rs: Rules, id: Id) { id in rs && rs[id].groupId !in gs }

  ghost predicate Closed(s: Snapshot) { forall id :: !OrphanIn(IndexGroups(s.groups), IndexRules(s.rules), id) }

  /** A before-state rule that goes back although someone else removed its group meanwhile. */
  ghost predicate RestoredOntoRemovedGroup(t: Three, id: Id) {
    var b := Lookup(IndexRules(t.base.rules), id);
    && b.Some? && (!RuleDiverged(t, id) || t.RuleTouches(id))
    && GroupDiverged(t, b.value.groupId) && !GroupInInput(t, b.value.groupId)
      && b.value.groupId !in IndexGroups(t.current.groups)
  }

  /** From a before-state without orphans, the target has an orphan exactly when such a rule exists. */
  lemma TargetIsClosedIff(t: Three)
    requires Closed(t.base)
    ensures Closed(t.Target()) <==> forall id :: !RestoredOntoRemovedGroup(t, id)
  {
    TargetRows(t);
    forall id
      ensures OrphanIn(IndexGroups(t.Target().groups), IndexRules(t.Target().rules), id)
         <==> RestoredOntoRemovedGroup(t, id)
    {
      OrphanIff(t, id);
    }
  }

  lemma OrphanIff(t: Three, id: Id)
    requires Closed(t.base)
    ensures OrphanIn(IndexGroups(t.Target().groups), IndexRules(t.Target().rules), id)
       <==> RestoredOntoRemovedGroup(t, id)
  {
    RuleContract(t, id);
    var b := Lookup(IndexRules(t.base.rules), id);
    if b.Some? {
      assert !OrphanIn(IndexGroups(t.base.groups), IndexRules(t.base.rules), id);
      GroupContract(t, b.value.groupId);
    }
  }

  // ----- idempotence

  function Again(t: Three, first: Snapshot): Three { t.(base := first) }

  lemma GroupDecisionAgain(t: Three, id: Id)
    ensures StripOptGroup(Row(Again(t, t.Target()).GroupDecision(id))) == StripOptGroup(Row(t.GroupDecision(id)))
  {
    TargetGroup(t, id);
  }

  lemma TargetGroup(t: Three, id: Id)
    ensures StripOptGroup(Lookup(IndexGroups(t.Target().groups), id)) == StripOptGroup(Row(t.GroupDecision(id)))
  {
    TargetRows(t);
    assert id in IndexGroups(t.Target().groups) <==> id in t.Kept();
    assert id !in t.GroupIds() ==> Row(t.GroupDecision(id)).None?;
    assert id in t.Kept() <==> Row(t.GroupDecision(id)).Some?;
  }

  lemma KeptAgain(t: Three)
    ensures SameGroups(t.Kept(), Again(t, t.Target()).Kept())
  {
    var u := Again(t, t.Target());
    forall id ensures StripOptGroup(Lookup(t.Kept(), id)) == StripOptGroup(Lookup(u.Kept(), id)) {
      GroupDecisionAgain(t, id);
      assert id in t.Kept() <==> Row(t.GroupDecision(id)).Some?;
      assert id in u.Kept() <==> Row(u.GroupDecision(id)).Some?;
    }
    forall id ensures id in t.Kept() <==> id in u.Kept() {
      assert StripOptGroup(Lookup(t.Kept(), id)) == StripOptGroup(Lookup(u.Kept(), id));
    }
    forall id | id in t.Kept() ensures StripGroup(t.Kept()[id]) == StripGroup(u.Kept()[id]) {
      assert StripOptGroup(Lookup(t.Kept(), id)) == StripOptGroup(Lookup(u.Kept(), id));
    }
  }

  /** A rule that reached the input chain in the before-state does so in the target too. */
  lemma RestoredInputRuleStays(t: Three, id: Id)
    requires RuleTouchesInput(Lookup(IndexRules(t.base.rules), id), IndexGroups(t.base.groups))
    ensures Again(t, t.Target()).RuleTouches(id)
  {
    RuleContract(t, id);
    var b := IndexRules(t.base.rules)[id];
    GroupContract(t, b.groupId);
  }

  lemma RuleDecisionAgain(t: Three, id: Id)
    ensures StripOptRule(Row(Again(t, t.Target()).RuleDecision(id))) == StripOptRule(Row(t.RuleDecision(id)))
  {
    var u := Again(t, t.Target());
    TargetRule(t, id);
    KeptAgain(t);
    if RuleTouchesInput(Lookup(IndexRules(t.base.rules), id), IndexGroups(t.base.groups)) {
      RestoredInputRuleStays(t, id);
    }
    DecidedAgain(Lookup(IndexRules(t.base.rules), id), Lookup(IndexRules(t.Target().rules), id),
      Lookup(IndexRules(t.applied.rules), id), Lookup(IndexRules(t.current.rules), id), t.RuleTouches(id),
      u.RuleTouches(id), t.Kept().Keys);
  }

  /** With the first outcome as the before-state, the same row comes out. */
  lemma DecidedAgain(b: Option<Rule>, d: Option<Rule>, a: Option<Rule>, c: Option<Rule>, first: bool, again: bool,
    kept: set<Id>)
    requires StripOptRule(d) == StripOptRule(Row(DecideRule(b, a, c, first, kept))) && (first ==> again)
    ensures StripOptRule(Row(DecideRule(d, a, c, again, kept))) == StripOptRule(d)
  {
  }

  lemma KeptRuleIs(t: Three, id: Id)
    ensures Lookup(t.KeptRules(), id) == Row(t.RuleDecision(id))
  {
    assert id !in t.RuleIds() ==> Row(t.RuleDecision(id)).None?;
  }

  lemma SameRuleRows(x: Rules, y: Rules)
    requires forall id :: StripOptRule(Lookup(x, id)) == StripOptRule(Lookup(y, id))
    ensures SameRules(x, y)
  {
    forall id ensures id in x <==> id in y { assert StripOptRule(Lookup(x, id)) == StripOptRule(Lookup(y, id)); }
    forall id | id in x ensures StripRule(x[id]) == StripRule(y[id]) {
      assert StripOptRule(Lookup(x, id)) == StripOptRule(Lookup(y, id));
    }
  }

  /**
   Merging again with the first target as the before-state decides the same rows: the
   target may be stored before it is applied.
   */
  lemma MergeIsIdempotent(t: Three)
    ensures var u := Again(t, t.Target());
            SameGroups(IndexGroups(t.Target().groups), IndexGroups(u.Target().groups)) &&
            SameRules(IndexRules(t.Target().rules), IndexRules(u.Target().rules))
  {
    var u := Again(t, t.Target());
    TargetRows(t); TargetRows(u);
    KeptAgain(t);
    forall id ensures StripOptRule(Lookup(t.KeptRules(), id)) == StripOptRule(Lookup(u.KeptRules(), id)) {
      RuleDecisionAgain(t, id);
      KeptRuleIs(t, id);
      KeptRuleIs(u, id);
    }
    SameRuleRows(t.KeptRules(), u.KeptRules());
  }

  // ----- order and positions of a merged target

  /** By the position each row had, then by its creation, then by id. */
  predicate Earlier(p: int, t: int, i: Id, q: int, u: int, j: Id) {
    p < q || (p == q && (t < u || (t == u && StrLess(i, j))))
  }

  /** Numbered from zero, in the order of the positions that the rows of `m` have. */
  ghost predicate NumberedGroupsOf(q: seq<Group>, m: Groups) {
    && |q| == |m.Values|
    && (forall i | 0 <= i < |q| :: q[i].position == i && q[i].id in m)
    && forall i, j | 0 <= i < j < |q| ::
         var x, y := m[q[i].id], m[q[j].id];
         Earlier(x.position, x.createdAt, x.id, y.position, y.createdAt, y.id)
  }

  lemma NumberedGroups(m: Groups)
    requires forall id | id in m :: m[id].id == id
    ensures NumberedGroupsOf(RenumberGroups(InOrder(m.Values, GroupLess)), m)
  {
    GroupsOrdered(m.Values);
    var p := InOrder(m.Values, GroupLess);
    forall i | 0 <= i < |p| ensures p[i].id in m && m[p[i].id] == p[i] { assert p[i] in m.Values; }
    forall i, j | 0 <= i < j < |p|
      ensures Earlier(p[i].position, p[i].createdAt, p[i].id, p[j].position, p[j].createdAt, p[j].id)
    {
      assert GroupLess(p[i], p[j]);
    }
    SortedHasAll(p, m.Values, GroupLess);
  }

  ghost predicate NumberedRulesOf(q: seq<Rule>, m: Rules) {
    && |q| == |m.Values|
    && (forall i | 0 <= i < |q| :: q[i].position == i && q[i].id in m)
    && forall i, j | 0 <= i < j < |q| ::
         var x, y := m[q[i].id], m[q[j].id];
         Earlier(x.position, x.createdAt, x.id, y.position, y.createdAt, y.id)
  }

  lemma NumberedRules(m: Rules)
    requires forall id | id in m :: m[id].id == id
    ensures NumberedRulesOf(RenumberRules(InOrder(m.Values, RuleLess)), m)
  {
    RulesOrdered(m.Values);
    var p := InOrder(m.Values, RuleLess);
    forall i | 0 <= i < |p| ensures p[i].id in m && m[p[i].id] == p[i] { assert p[i] in m.Values; }
    forall i, j | 0 <= i < j < |p|
      ensures Earlier(p[i].position, p[i].createdAt, p[i].id, p[j].position, p[j].createdAt, p[j].id)
    {
      assert RuleLess(p[i], p[j]);
    }
    SortedHasAll(p, m.Values, RuleLess);
  }

  /**
   The groups of a merged target are numbered from zero, in the order of the positions that the rows kept had where
   they come from.
   */
  lemma TargetGroupsInOrder(t: Three)
    requires t.Merged()
    ensures NumberedGroupsOf(t.Target().groups, t.Kept())
  {
    KeptRowsAreTheirs(t);
    NumberedGroups(t.Kept());
  }

  /** And so are its rules. */
  lemma TargetRulesInOrder(t: Three)
    requires t.Merged()
    ensures NumberedRulesOf(t.Target().rules, t.KeptRules())
  {
    KeptRowsAreTheirs(t);
    NumberedRules(t.KeptRules());
  }
}
