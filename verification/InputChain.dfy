/** The part of the firewall that reaches the machine itself, and why the merge always restores it. */
module InputChain {
  import opened Options
  import opened Order
  import opened RevertMerge
  import opened MergeProperties

  function Filter<T>(q: seq<T>, p: T -> bool): seq<T>
    decreases |q|
  {
    if q == [] then [] else Filter(q[..|q| - 1], p) + (if p(q[|q| - 1]) then [q[|q| - 1]] else [])
  }

  ghost predicate Increasing<T(!new)>(q: seq<T>, less: (T, T) -> bool) {
    forall i, j | 0 <= i < j < |q| :: less(q[i], q[j])
  }

  lemma {:induction false} FilterKeeps<T(!new)>(q: seq<T>, p: T -> bool, less: (T, T) -> bool)
    ensures forall x :: x in Filter(q, p) <==> x in q && p(x)
    ensures Increasing(q, less) ==> Increasing(Filter(q, p), less)
    decreases |q|
  {
    if q != [] {
      var n := |q| - 1;
      FilterKeeps(q[..n], p, less);
      assert q == q[..n] + [q[n]];
      if Increasing(q, less) {
        var f := Filter(q[..n], p);
        forall i | 0 <= i < |f| ensures less(f[i], q[n]) {
          assert f[i] in q[..n];
          var k :| 0 <= k < n && q[k] == f[i];
        }
      }
    }
  }

  function StripGroups(q: seq<Group>): seq<Group> { seq(|q|, i requires 0 <= i < |q| => StripGroup(q[i])) }
  function StripRules(q: seq<Rule>): seq<Rule> { seq(|q|, i requires 0 <= i < |q| => StripRule(q[i])) }

  function OfGroups(ids: set<Id>): Rule -> bool { (r: Rule) => r.groupId in ids }

  function InputIds(s: Snapshot): set<Id> { set g | g in s.groups && Touches(g) :: g.id }

  /** The groups that reach the input chain and their rules: content and order of evaluation, not positions. */
  datatype InputPart = InputPart(groups: seq<Group>, rules: seq<Rule>)

  function PartOf(s: Snapshot): InputPart {
    InputPart(StripGroups(Filter(s.groups, Touches)), StripRules(Filter(s.rules, OfGroups(InputIds(s)))))
  }

  /** As the database lists it: primary keys, ORDER BY position, created_at (ties settled by id). */
  ghost predicate Listed(s: Snapshot) {
    UniqueGroups(s.groups) && UniqueRules(s.rules) && Increasing(s.groups, GroupLess) && Increasing(s.rules, RuleLess)
  }

  /** Exactly the groups of `ids` reach the input chain, and a rule of one of those has its group. */
  ghost predicate ScopedBy(ids: set<Id>, s: Snapshot) {
    && (forall g | g in s.groups :: Touches(g) <==> g.id in ids)
    && (forall r | r in s.rules && r.groupId in ids :: r.groupId in IndexGroups(s.groups))
  }

  lemma TouchesByIndex(ids: set<Id>, s: Snapshot, id: Id)
    requires ScopedBy(ids, s)
    ensures GroupTouchesInput(Lookup(IndexGroups(s.groups), id)) <==> id in IndexGroups(s.groups) && id in ids
  {
    IndexedGroups(s.groups);
  }

  /** Whatever else diverged, the input groups of the target are those of the before-state. */
  lemma KeptInputGroups(t: Three, ids: set<Id>)
    requires Listed(t.base) && ScopedBy(ids, t.base) && ScopedBy(ids, t.current)
    ensures forall g :: g in t.Kept().Values && Touches(g) <==> g in t.base.groups && Touches(g)
    ensures forall g | g in t.Kept().Values :: Touches(g) <==> g.id in ids
  {
    forall g ensures g in t.Kept().Values && Touches(g) <==> g in t.base.groups && Touches(g) {
      if g in t.base.groups && Touches(g) { InputGroupIsKept(t, g); }
      if g in t.Kept().Values { KeptGroupIsTheirs(t, ids, g); }
    }
    forall g | g in t.Kept().Values ensures Touches(g) <==> g.id in ids { KeptGroupIsTheirs(t, ids, g); }
  }

  lemma InputGroupIsKept(t: Three, g: Group)
    requires Listed(t.base) && g in t.base.groups && Touches(g)
    ensures g in t.Kept().Values
  {
    IndexedGroups(t.base.groups);
    assert t.GroupDecision(g.id) == Base(g);
    assert g.id in t.Kept() && t.Kept()[g.id] == g;
  }

  lemma KeptGroupIsTheirs(t: Three, ids: set<Id>, g: Group)
    requires ScopedBy(ids, t.base) && ScopedBy(ids, t.current) && g in t.Kept().Values
    ensures g in t.base.groups || (g in t.current.groups && !Touches(g))
    ensures Touches(g) <==> g.id in ids
  {
    IndexedGroups(t.base.groups);
    IndexedGroups(t.current.groups);
    var id :| id in t.Kept() && t.Kept()[id] == g;
  }

  lemma KeptInputRules(t: Three, ids: set<Id>)
    requires Listed(t.base) && ScopedBy(ids, t.base) && ScopedBy(ids, t.current)
    ensures forall r :: r in t.KeptRules().Values && r.groupId in ids <==> r in t.base.rules && r.groupId in ids
  {
    forall r ensures r in t.KeptRules().Values && r.groupId in ids <==> r in t.base.rules && r.groupId in ids {
      if r in t.base.rules && r.groupId in ids { InputRuleIsKept(t, ids, r); }
      if r in t.KeptRules().Values && r.groupId in ids { KeptInputRuleIsTheirs(t, ids, r); }
    }
  }

  lemma InputRuleIsKept(t: Three, ids: set<Id>, r: Rule)
    requires Listed(t.base) && ScopedBy(ids, t.base) && r in t.base.rules && r.groupId in ids
    ensures r in t.KeptRules().Values
  {
    IndexedRules(t.base.rules);
    TouchesByIndex(ids, t.base, r.groupId);
    assert t.RuleDecision(r.id) == Base(r);
    assert r.id in t.KeptRules() && t.KeptRules()[r.id] == r;
  }

  lemma KeptInputRuleIsTheirs(t: Three, ids: set<Id>, r: Rule)
    requires ScopedBy(ids, t.current) && r in t.KeptRules().Values && r.groupId in ids
    ensures r in t.base.rules
  {
    IndexedRules(t.base.rules);
    IndexedRules(t.current.rules);
    var id :| id in t.KeptRules() && t.KeptRules()[id] == r;
    TouchesByIndex(ids, t.current, r.groupId);
    assert !t.RuleDecision(id).Concurrent?;
  }

  // ----- renumbering keeps the evaluation order

  lemma {:induction false} FilterRenumberedGroups(q: seq<Group>)
    ensures StripGroups(Filter(RenumberGroups(q), Touches)) == StripGroups(Filter(q, Touches))
    decreases |q|
  {
    if q != [] {
      var n := |q| - 1;
      FilterRenumberedGroups(q[..n]);
      var r := RenumberGroups(q);
      assert r[..n] == RenumberGroups(q[..n]);
      StripAppend(Filter(r[..n], Touches), r[n]);
      StripAppend(Filter(q[..n], Touches), q[n]);
    }
  }

  lemma StripAppend(q: seq<Group>, g: Group)
    ensures StripGroups(q + [g]) == StripGroups(q) + [StripGroup(g)] && q + [] == q
  {
  }

  lemma {:induction false} FilterRenumberedRules(q: seq<Rule>, ids: set<Id>)
    ensures StripRules(Filter(RenumberRules(q), OfGroups(ids))) == StripRules(Filter(q, OfGroups(ids)))
    decreases |q|
  {
    if q != [] {
      var n := |q| - 1;
      FilterRenumberedRules(q[..n], ids);
      var r := RenumberRules(q);
      assert r[..n] == RenumberRules(q[..n]);
      StripAppendRule(Filter(r[..n], OfGroups(ids)), r[n]);
      StripAppendRule(Filter(q[..n], OfGroups(ids)), q[n]);
    }
  }

  lemma StripAppendRule(q: seq<Rule>, r: Rule)
    ensures StripRules(q + [r]) == StripRules(q) + [StripRule(r)] && q + [] == q
  {
  }

  /** Two increasing lists with the same rows under a filter agree there. */
  lemma SameFiltered<T(!new)>(q: seq<T>, r: seq<T>, p: T -> bool, less: (T, T) -> bool, s: set<T>)
    requires TotalOn(s, less) && Increasing(q, less) && Increasing(r, less)
    requires forall x :: x in q && p(x) <==> x in r && p(x)
    requires forall x :: x in q && p(x) <==> x in s
    ensures Filter(q, p) == Filter(r, p)
  {
    FilterKeeps(q, p, less);
    FilterKeeps(r, p, less);
    SortedUnique(Filter(q, p), Filter(r, p), s, less);
  }

  lemma MergedInputGroups(t: Three, ids: set<Id>)
    requires Listed(t.base) && ScopedBy(ids, t.base) && ScopedBy(ids, t.current)
    ensures Filter(InOrder(t.Kept().Values, GroupLess), Touches) == Filter(t.base.groups, Touches)
  {
    KeptRowsAreTheirs(t);
    KeptInputGroups(t, ids);
    var vs := t.Kept().Values;
    GroupsOrdered(vs);
    var s := set g | g in vs && Touches(g);
    GroupsOrdered(s);
    SameFiltered(InOrder(vs, GroupLess), t.base.groups, Touches, GroupLess, s);
  }

  lemma MergedInputRules(t: Three, ids: set<Id>, mine: set<Id>)
    requires Listed(t.base) && ScopedBy(ids, t.base) && ScopedBy(ids, t.current) && mine == InputIds(t.base)
    ensures Filter(InOrder(t.KeptRules().Values, RuleLess), OfGroups(mine)) == Filter(t.base.rules, OfGroups(mine))
  {
    KeptRowsAreTheirs(t);
    KeptInputRules(t, ids);
    assert mine <= ids;
    var vs := t.KeptRules().Values;
    RulesOrdered(vs);
    var s := set r | r in vs && r.groupId in mine;
    RulesOrdered(s);
    SameFiltered(InOrder(vs, RuleLess), t.base.rules, OfGroups(mine), RuleLess, s);
  }

  lemma InputIdsFromPart(s: Snapshot)
    ensures InputIds(s) == set g | g in PartOf(s).groups :: g.id
  {
    FilterKeeps(s.groups, Touches, GroupLess);
    var f := Filter(s.groups, Touches);
    var q := StripGroups(f);
    forall id | id in InputIds(s) ensures id in (set g | g in q :: g.id) {
      var g :| g in s.groups && Touches(g) && g.id == id;
      var i :| 0 <= i < |f| && f[i] == g;
      assert q[i] in q && q[i].id == id;
    }
    forall g | g in q ensures g.id in InputIds(s) {
      var i :| 0 <= i < |q| && q[i] == g;
      assert f[i] in s.groups && Touches(f[i]);
    }
  }

  lemma TargetInputGroups(t: Three, ids: set<Id>)
    requires t.Merged() && Listed(t.base) && ScopedBy(ids, t.base) && ScopedBy(ids, t.current)
    ensures PartOf(t.Target()).groups == PartOf(t.base).groups && InputIds(t.Target()) == InputIds(t.base)
  {
    MergedInputGroups(t, ids);
    FilterRenumberedGroups(InOrder(t.Kept().Values, GroupLess));
    InputIdsFromPart(t.Target());
    InputIdsFromPart(t.base);
  }

  /**
   The promise about access: whatever diverged and whoever wrote it, the groups that reach
   the input chain and their rules come back as they were, in the same order.
   */
  lemma MergeRestoresInputChain(t: Three, ids: set<Id>)
    requires Listed(t.base) && ScopedBy(ids, t.base) && ScopedBy(ids, t.current)
    ensures PartOf(t.Target()) == PartOf(t.base)
  {
    if t.Merged() {
      TargetInputGroups(t, ids);
      MergedInputRules(t, ids, InputIds(t.base));
      FilterRenumberedRules(InOrder(t.KeptRules().Values, RuleLess), InputIds(t.base));
    }
  }

  // ----- the target is again a state the database can hold

  lemma RenumberedIsListed(gs: seq<Group>, rs: seq<Rule>)
    requires UniqueGroups(gs) && UniqueRules(rs)
    ensures Listed(Snapshot(RenumberGroups(gs), RenumberRules(rs), NO_SETTINGS))
  {
  }

  lemma TargetIsListed(t: Three)
    requires Listed(t.base)
    ensures Listed(t.Target())
  {
    if t.Merged() {
      KeptRowsAreTheirs(t);
      DistinctInOrder(t.Kept());
      DistinctRulesInOrder(t.KeptRules());
      RenumberedIsListed(InOrder(t.Kept().Values, GroupLess), InOrder(t.KeptRules().Values, RuleLess));
    }
  }

  lemma DistinctInOrder(m: Groups)
    requires forall id | id in m :: m[id].id == id
    ensures UniqueGroups(InOrder(m.Values, GroupLess))
  {
    RenumberedGroups(m);
    var p := InOrder(m.Values, GroupLess);
    var q := RenumberGroups(p);
    forall i, j | 0 <= i < j < |p| ensures p[i].id != p[j].id { assert q[i].id != q[j].id; }
  }

  lemma DistinctRulesInOrder(m: Rules)
    requires forall id | id in m :: m[id].id == id
    ensures UniqueRules(InOrder(m.Values, RuleLess))
  {
    RenumberedRules(m);
    var p := InOrder(m.Values, RuleLess);
    var q := RenumberRules(p);
    forall i, j | 0 <= i < j < |p| ensures p[i].id != p[j].id { assert q[i].id != q[j].id; }
  }

  lemma TargetIsScoped(t: Three, ids: set<Id>)
    requires Listed(t.base) && ScopedBy(ids, t.base) && ScopedBy(ids, t.current)
    ensures ScopedBy(ids, t.Target())
  {
    if t.Merged() {
      TargetRows(t);
      TargetIsListed(t);
      KeptInputGroups(t, ids);
      KeptInputRules(t, ids);
      var T := t.Target();
      IndexedGroups(T.groups); IndexedRules(T.rules); IndexedGroups(t.base.groups);
      forall g | g in T.groups ensures Touches(g) <==> g.id in ids {
        assert StripGroup(t.Kept()[g.id]) == StripGroup(g);
        assert t.Kept()[g.id] in t.Kept().Values;
      }
      forall r | r in T.rules && r.groupId in ids ensures r.groupId in IndexGroups(T.groups) {
        assert StripRule(t.KeptRules()[r.id]) == StripRule(r);
        var k := t.KeptRules()[r.id];
        assert k in t.KeptRules().Values && k in t.base.rules;
        TouchesByIndex(ids, t.base, r.groupId);
        var g := IndexGroups(t.base.groups)[r.groupId];
        assert g in t.Kept().Values;
        KeptRowsAreTheirs(t);
      }
    }
  }

  /** A group that reaches the machine itself: an administrator's, in the input scope. */
  predicate ReachesInput(g: Group) { g.kind == Admin && g.scope == Input }

  /** The input part is exactly those groups, and the rules of those groups. */
  lemma InputPartIs(s: Snapshot)
    ensures |PartOf(s).groups| == |Filter(s.groups, Touches)|
    ensures forall g :: g in Filter(s.groups, Touches) <==> g in s.groups && ReachesInput(g)
    ensures |PartOf(s).rules| == |Filter(s.rules, OfGroups(InputIds(s)))|
    ensures forall r :: r in Filter(s.rules, OfGroups(InputIds(s)))
                   <==> r in s.rules && exists g :: g in s.groups && ReachesInput(g) && g.id == r.groupId
  {
    FilterKeeps(s.groups, Touches, GroupLess);
    FilterKeeps(s.rules, OfGroups(InputIds(s)), RuleLess);
    forall r: Rule
      ensures r.groupId in InputIds(s) <==> exists g :: g in s.groups && ReachesInput(g) && g.id == r.groupId
    {
      if g :| g in s.groups && Touches(g) && g.id == r.groupId { assert ReachesInput(g); }
      if g :| g in s.groups && ReachesInput(g) && g.id == r.groupId { assert Touches(g); }
    }
  }

  /** A system group is never one of them, whatever its scope says: if someone wrote it since, it stays as it is. */
  lemma SystemGroupIsTheirs(t: Three, id: Id)
    requires forall s | s in [t.base, t.applied, t.current] && id in IndexGroups(s.groups) ::
      IndexGroups(s.groups)[id].kind != Admin
    ensures StripOptGroup(Lookup(IndexGroups(t.Target().groups), id))
         == StripOptGroup(Lookup(IndexGroups((if GroupDiverged(t, id) then t.current else t.base).groups), id))
  {
    GroupContract(t, id);
    assert t.base in [t.base, t.applied, t.current] && t.applied in [t.base, t.applied, t.current]
        && t.current in [t.base, t.applied, t.current];
  }
}
