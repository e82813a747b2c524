/** The merge as the source computes it: indexes, one pass per table, then renumbering. */
module Merging {
  import opened Options
  import opened Order
  import opened RevertMerge
  import opened MergeProperties

  /** One line of the audit: what someone else wrote and the revert leaves standing, or cannot. */
  datatype Change =
    | GroupKept(existed: bool, g: Group)
    | GroupRemovalKept(gone: Id)
    | RuleKept(existed: bool, r: Rule)
    | RuleRemovalKept(gone: Id)

  datatype Outcome = Outcome(target: Snapshot, preserved: seq<Change>, dropped: seq<Rule>)

  ghost predicate ReportedGroup(t: Three, ids: seq<Id>, ch: Change) {
    match ch
    case GroupKept(existed, g) => g.id in ids && t.GroupDecision(g.id) == Concurrent(g)
      && (existed <==> g.id in IndexGroups(t.base.groups))
    case GroupRemovalKept(id) => id in ids && t.GroupDecision(id) == RemovalStands
    case _ => false
  }

  ghost predicate ReportedRule(t: Three, ids: seq<Id>, ch: Change) {
    match ch
    case RuleKept(existed, r) => r.id in ids && t.RuleDecision(r.id) == Concurrent(r)
      && (existed <==> r.id in IndexRules(t.base.rules))
    case RuleRemovalKept(id) => id in ids && t.RuleDecision(id) == RemovalStands
    case _ => false
  }

  /** A line of the audit tells of a row someone else wrote and the target keeps as they left it. */
  ghost predicate Reported(t: Three, ch: Change) {
    match ch
    case GroupKept(existed, g) => g.id in t.GroupIds() && t.GroupDecision(g.id) == Concurrent(g)
      && (existed <==> g.id in IndexGroups(t.base.groups))
    case GroupRemovalKept(id) => id in t.GroupIds() && t.GroupDecision(id) == RemovalStands
    case RuleKept(existed, r) => r.id in t.RuleIds() && t.RuleDecision(r.id) == Concurrent(r)
      && (existed <==> r.id in IndexRules(t.base.rules))
    case RuleRemovalKept(id) => id in t.RuleIds() && t.RuleDecision(id) == RemovalStands
  }

  lemma DecidedRowsAreTheirs(t: Three, id: Id)
    ensures match t.GroupDecision(id)
      case Base(g) => g.id == id
      case Concurrent(g) => g.id == id
      case _ => true
    ensures match t.RuleDecision(id)
      case Base(r) => r.id == id
      case Concurrent(r) => r.id == id
      case Dropped(r) => r.id == id
      case _ => true
  {
    IndexedGroups(t.base.groups); IndexedGroups(t.current.groups);
    IndexedRules(t.base.rules); IndexedRules(t.current.rules);
  }

  method Index(s: Snapshot) returns (gs: Groups, rs: Rules)
    ensures gs == IndexGroups(s.groups) && rs == IndexRules(s.rules)
  {
    gs, rs := map[], map[];
    for i := 0 to |s.groups|
      invariant gs == IndexGroups(s.groups[..i])
    {
      assert s.groups[..i + 1][..i] == s.groups[..i];
      gs := gs[s.groups[i].id := s.groups[i]];
    }
    for i := 0 to |s.rules|
      invariant rs == IndexRules(s.rules[..i])
    {
      assert s.rules[..i + 1][..i] == s.rules[..i];
      rs := rs[s.rules[i].id := s.rules[i]];
    }
    assert s.groups[..|s.groups|] == s.groups && s.rules[..|s.rules|] == s.rules;
  }

  /** The ids of the three tables, without repetition and in a stable order. */
  method UnionIds(s: set<Id>) returns (ids: seq<Id>)
    ensures forall id :: id in ids <==> id in s
    ensures forall i, j | 0 <= i < j < |ids| :: StrLess(ids[i], ids[j])
  {
    StrTotalOn(s);
    ids := Sort(s, StrLess);
  }

  ghost predicate GroupsDone(t: Three, ids: seq<Id>, groups: seq<Group>, preserved: seq<Change>) {
    && (forall g :: g in groups <==> g.id in ids && Row(t.GroupDecision(g.id)) == Some(g))
    && (forall ch :: ch in preserved <==> ReportedGroup(t, ids, ch))
  }

  ghost predicate RulesDone(t: Three, ids: seq<Id>, rules: seq<Rule>, preserved: seq<Change>, dropped: seq<Rule>) {
    && (forall r :: r in rules <==> r.id in ids && Row(t.RuleDecision(r.id)) == Some(r))
    && (forall ch :: ch in preserved <==> ReportedRule(t, ids, ch))
    && (forall r :: r in dropped <==> r.id in ids && t.RuleDecision(r.id) == Dropped(r))
  }

  function GroupLine(t: Three, id: Id): seq<Change> {
    match t.GroupDecision(id)
    case Concurrent(g) => [GroupKept(id in IndexGroups(t.base.groups), g)]
    case RemovalStands => [GroupRemovalKept(id)]
    case _ => []
  }

  function RuleLine(t: Three, id: Id): seq<Change> {
    match t.RuleDecision(id)
    case Concurrent(r) => [RuleKept(id in IndexRules(t.base.rules), r)]
    case RemovalStands => [RuleRemovalKept(id)]
    case _ => []
  }

  function One<T>(o: Option<T>): seq<T> { if o.Some? then [o.value] else [] }

  lemma OneMoreGroup(t: Three, ids: seq<Id>, id: Id, groups: seq<Group>, preserved: seq<Change>)
    requires GroupsDone(t, ids, groups, preserved)
    ensures GroupsDone(t, ids + [id], groups + One(Row(t.GroupDecision(id))), preserved + GroupLine(t, id))
  {
    DecidedRowsAreTheirs(t, id);
    var ps := preserved + GroupLine(t, id);
    forall ch ensures ch in ps <==> ReportedGroup(t, ids + [id], ch) {
      assert ch in preserved <==> ReportedGroup(t, ids, ch);
      assert ch in GroupLine(t, id) <==> ReportedGroup(t, [id], ch);
    }
  }

  lemma OneMoreRule(t: Three, ids: seq<Id>, id: Id, rules: seq<Rule>, preserved: seq<Change>, dropped: seq<Rule>)
    requires RulesDone(t, ids, rules, preserved, dropped)
    ensures var d := t.RuleDecision(id);
            RulesDone(t, ids + [id], rules + One(Row(d)), preserved + RuleLine(t, id),
              dropped + if d.Dropped? then [d.row] else [])
  {
    DecidedRowsAreTheirs(t, id);
    var ps := preserved + RuleLine(t, id);
    forall ch ensures ch in ps <==> ReportedRule(t, ids + [id], ch) {
      assert ch in preserved <==> ReportedRule(t, ids, ch);
      assert ch in RuleLine(t, id) <==> ReportedRule(t, [id], ch);
    }
  }

  method MergeGroups(t: Three, ids: seq<Id>) returns (groups: seq<Group>, preserved: seq<Change>)
    ensures GroupsDone(t, ids, groups, preserved)
  {
    groups, preserved := [], [];
    var base, _ := Index(t.base);
    var applied, _ := Index(t.applied);
    var current, _ := Index(t.current);
    for i := 0 to |ids|
      invariant GroupsDone(t, ids[..i], groups, preserved)
    {
      var id := ids[i];
      assert ids[..i + 1] == ids[..i] + [id];
      OneMoreGroup(t, ids[..i], id, groups, preserved);
      var b, a, c := Lookup(base, id), Lookup(applied, id), Lookup(current, id);
      var keepConcurrent := a != c && !GroupTouchesInput(b) && !GroupTouchesInput(a) && !GroupTouchesInput(c);
      if !keepConcurrent {
        if b.Some? { groups := groups + [b.value]; }
      } else if c.Some? {
        groups := groups + [c.value];
        preserved := preserved + [GroupKept(b.Some?, c.value)];
      } else {
        preserved := preserved + [GroupRemovalKept(id)];
      }
    }
    assert ids[..|ids|] == ids;
  }

  /** One rule: the row that stays, the line of the audit, and the row that had to be dropped. */
  method MergeRule(t: Three, id: Id, b: Option<Rule>, a: Option<Rule>, c: Option<Rule>, touches: bool, kept: set<Id>)
    returns (row: seq<Rule>, line: seq<Change>, drop: seq<Rule>)
    requires b == Lookup(IndexRules(t.base.rules), id) && a == Lookup(IndexRules(t.applied.rules), id)
    requires c == Lookup(IndexRules(t.current.rules), id) && touches == t.RuleTouches(id) && kept == t.Kept().Keys
    ensures row == One(Row(t.RuleDecision(id))) && line == RuleLine(t, id)
    ensures drop == var d := t.RuleDecision(id); if d.Dropped? then [d.row] else []
  {
    row, line, drop := [], [], [];
    var keepConcurrent := a != c && !touches;
    if !keepConcurrent {
      if b.Some? { row := [b.value]; }
    } else if c.Some? && c.value.groupId in kept {
      row, line := [c.value], [RuleKept(b.Some?, c.value)];
    } else if c.Some? {
      drop := [c.value];
    } else {
      line := [RuleRemovalKept(id)];
    }
  }

  method MergeRules(t: Three, ids: seq<Id>, kept: set<Id>) returns (rules: seq<Rule>, preserved: seq<Change>,
    dropped: seq<Rule>)
    requires kept == t.Kept().Keys
    ensures RulesDone(t, ids, rules, preserved, dropped)
  {
    rules, preserved, dropped := [], [], [];
    var baseGroups, base := Index(t.base);
    var appliedGroups, applied := Index(t.applied);
    var currentGroups, current := Index(t.current);
    for i := 0 to |ids|
      invariant RulesDone(t, ids[..i], rules, preserved, dropped)
    {
      var id := ids[i];
      assert ids[..i + 1] == ids[..i] + [id];
      OneMoreRule(t, ids[..i], id, rules, preserved, dropped);
      var b, a, c := Lookup(base, id), Lookup(applied, id), Lookup(current, id);
      var touches := RuleTouchesInput(b, baseGroups) || RuleTouchesInput(a, appliedGroups)
        || RuleTouchesInput(c, currentGroups);
      var row, line, drop := MergeRule(t, id, b, a, c, touches, kept);
      rules, preserved, dropped := rules + row, preserved + line, dropped + drop;
    }
    assert ids[..|ids|] == ids;
  }

  lemma ValuesAreKept(t: Three, gs: seq<Group>, rs: seq<Rule>)
    requires forall g :: g in gs <==> g.id in t.GroupIds() && Row(t.GroupDecision(g.id)) == Some(g)
    requires forall r :: r in rs <==> r.id in t.RuleIds() && Row(t.RuleDecision(r.id)) == Some(r)
    ensures (set g | g in gs) == t.Kept().Values && (set r | r in rs) == t.KeptRules().Values
  {
    KeptRowsAreTheirs(t);
    forall g | g in gs ensures g in t.Kept().Values { assert t.Kept()[g.id] == g; }
    forall r | r in rs ensures r in t.KeptRules().Values { assert t.KeptRules()[r.id] == r; }
  }

  lemma ReportedIffDiverged(t: Three, gids: seq<Id>, rids: seq<Id>, pg: seq<Change>, pr: seq<Change>,
    dropped: seq<Rule>)
    requires (forall id :: id in gids <==> id in t.GroupIds()) && (forall id :: id in rids <==> id in t.RuleIds())
    requires (forall ch :: ch in pg <==> ReportedGroup(t, gids, ch))
        && (forall ch :: ch in pr <==> ReportedRule(t, rids, ch))
    requires forall r :: r in dropped <==> r.id in rids && t.RuleDecision(r.id) == Dropped(r)
    ensures pg == [] && pr == [] && dropped == [] <==> !t.Merged()
  {
    if id :| id in t.GroupIds() && Diverged(t.GroupDecision(id)) {
      DecidedRowsAreTheirs(t, id);
      var d := t.GroupDecision(id);
      var ch := if d.Concurrent? then GroupKept(id in IndexGroups(t.base.groups), d.row) else GroupRemovalKept(id);
      assert ReportedGroup(t, gids, ch);
      assert ch in pg;
    }
    if id :| id in t.RuleIds() && Diverged(t.RuleDecision(id)) {
      DecidedRowsAreTheirs(t, id);
      var d := t.RuleDecision(id);
      var ch := if d.Concurrent? then RuleKept(id in IndexRules(t.base.rules), d.row) else RuleRemovalKept(id);
      assert d.Dropped? || ReportedRule(t, rids, ch);
      assert d.Dropped? ==> d.row in dropped;
      assert d.Dropped? || ch in pr;
    }
    if pg != [] { assert ReportedGroup(t, gids, pg[0]); }
    if pr != [] { assert ReportedRule(t, rids, pr[0]); }
    if dropped != [] { assert t.RuleDecision(dropped[0].id) == Dropped(dropped[0]); }
  }

  method Renumber(groups: seq<Group>, rules: seq<Rule>) returns (gs: seq<Group>, rs: seq<Rule>)
    requires forall x, y | x in groups && y in groups && x != y :: x.id != y.id
    requires forall x, y | x in rules && y in rules && x != y :: x.id != y.id
    ensures gs == RenumberGroups(InOrder((set g | g in groups), GroupLess))
    ensures rs == RenumberRules(InOrder((set r | r in rules), RuleLess))
  {
    GroupsOrdered(set g | g in groups);
    RulesOrdered(set r | r in rules);
    var g := Sort((set g | g in groups), GroupLess);
    var r := Sort((set r | r in rules), RuleLess);
    gs, rs := RenumberGroups(g), RenumberRules(r);
  }

  /** What a revert applies, and what it reports. */
  method MergeRevertTarget(base: Snapshot, applied: Snapshot, current: Snapshot) returns (m: Outcome)
    ensures var t := Three(base, applied, current);
            && m.target == t.Target()
            && (m.preserved == [] && m.dropped == [] <==> !t.Merged())
            && (forall ch :: ch in m.preserved <==> Reported(t, ch))
            && (forall r :: r in m.dropped <==> r.id in t.RuleIds() && t.RuleDecision(r.id) == Dropped(r))
  {
    var t := Three(base, applied, current);
    var gids := UnionIds(t.GroupIds());
    var groups, pg := MergeGroups(t, gids);
    var kept := set g | g in groups :: g.id;
    var rids := UnionIds(t.RuleIds());
    KeptIdsAre(t, groups, kept);
    var rules, pr, dropped := MergeRules(t, rids, kept);
    ReportedIffDiverged(t, gids, rids, pg, pr, dropped);
    AllReported(t, gids, rids, pg, pr);
    if pg == [] && pr == [] && dropped == [] {
      assert pg + pr == [];
      return Outcome(base, [], []);
    }
    assert |pg + pr| == |pg| + |pr|;
    ValuesAreKept(t, groups, rules);
    KeptRowsAreTheirs(t);
    var gs, rs := Renumber(groups, rules);
    return Outcome(Snapshot(gs, rs, NO_SETTINGS), pg + pr, dropped);
  }

  lemma AllReported(t: Three, gids: seq<Id>, rids: seq<Id>, pg: seq<Change>, pr: seq<Change>)
    requires (forall id :: id in gids <==> id in t.GroupIds()) && (forall id :: id in rids <==> id in t.RuleIds())
    requires (forall ch :: ch in pg <==> ReportedGroup(t, gids, ch))
        && (forall ch :: ch in pr <==> ReportedRule(t, rids, ch))
    ensures forall ch :: ch in pg + pr <==> Reported(t, ch)
  {
    forall ch ensures ch in pg + pr <==> Reported(t, ch) {
      assert ch in pg <==> ReportedGroup(t, gids, ch);
      assert ch in pr <==> ReportedRule(t, rids, ch);
    }
  }

  lemma KeptIdsAre(t: Three, groups: seq<Group>, kept: set<Id>)
    requires forall g :: g in groups <==> g.id in t.GroupIds() && Row(t.GroupDecision(g.id)) == Some(g)
    requires kept == set g | g in groups :: g.id
    ensures kept == t.Kept().Keys
  {
    forall id | id in t.Kept() ensures id in kept {
      DecidedRowsAreTheirs(t, id);
      assert t.Kept()[id] in groups;
    }
  }
}
