/**
 Undoing one window without erasing another admin's edit: the three-way merge of
 `internal/firewallrules/revert_merge.go`, as values.
 */
module RevertMerge {
  import opened Options
  import opened Order

  type Id = string

  /** `blocked_hosts` and `blocklist` are the system's own groups; an empty scope counts as forward. */
  datatype Kind = Admin | BlockedHosts | Blocklist
  datatype Scope = Forward | Input

  /**
   `body` stands for the fields the merge only compares and copies. Instants are compared in UTC, so they are numbers
   here.
   */
  datatype Group = Group(id: Id, position: int, createdAt: int, kind: Kind, scope: Scope, body: string)
  datatype Rule = Rule(id: Id, position: int, createdAt: int, groupId: Id, body: string)

  /** The default policies of the two chains, and whether management is closed on the WANs. */
  datatype Settings = Settings(inputPolicy: Option<string>, forwardPolicy: Option<string>, wanMgmtClosed: Option<bool>)

  /** A merged target has no setting, and a window older than a setting does not have that one. */
  const NO_SETTINGS := Settings(None, None, None)

  datatype Snapshot = Snapshot(groups: seq<Group>, rules: seq<Rule>, settings: Settings)

  type Groups = map<Id, Group>
  type Rules = map<Id, Rule>

  function IndexGroups(gs: seq<Group>): Groups
    decreases |gs|
  {
    if gs == [] then map[] else IndexGroups(gs[..|gs| - 1])[gs[|gs| - 1].id := gs[|gs| - 1]]
  }

  function IndexRules(rs: seq<Rule>): Rules
    decreases |rs|
  {
    if rs == [] then map[] else IndexRules(rs[..|rs| - 1])[rs[|rs| - 1].id := rs[|rs| - 1]]
  }

  function Lookup<T>(m: map<Id, T>, id: Id): Option<T> {
    if id in m then Some(m[id]) else None
  }

  /** A system group always lives in the forward chain, whatever its scope column says. */
  predicate Touches(g: Group) { g.kind == Admin && g.scope == Input }

  predicate GroupTouchesInput(g: Option<Group>) { g.Some? && Touches(g.value) }

  predicate RuleTouchesInput(r: Option<Rule>, groups: Groups) {
    r.Some? && GroupTouchesInput(Lookup(groups, r.value.groupId))
  }

  /**
   What becomes of one row: the state before, the current version, a removal that stands, or a rule whose group
   vanishes.
   */
  datatype Decision<T> = Absent | Base(row: T) | Concurrent(row: T) | RemovalStands | Dropped(row: T)

  function Restored<T>(before: Option<T>): Decision<T> {
    if before.Some? then Base(before.value) else Absent
  }

  function DecideGroup(b: Option<Group>, a: Option<Group>, c: Option<Group>): Decision<Group> {
    if a == c || GroupTouchesInput(b) || GroupTouchesInput(a) || GroupTouchesInput(c) then Restored(b)
    else if c.Some? then Concurrent(c.value)
    else RemovalStands
  }

  function DecideRule(b: Option<Rule>, a: Option<Rule>, c: Option<Rule>, touches: bool, kept: set<Id>): Decision<Rule> {
    if a == c || touches then Restored(b)
    else if c.None? then RemovalStands
    else if c.value.groupId in kept then Concurrent(c.value)
    else Dropped(c.value)
  }

  function Row<T>(d: Decision<T>): Option<T> {
    match d case Base(x) => Some(x) case Concurrent(x) => Some(x) case _ => None
  }

  predicate Diverged<T>(d: Decision<T>) { d.Concurrent? || d.RemovalStands? || d.Dropped? }

  /** The three states a revert has in hand: before the window, as its mutation left it, and now. */
  datatype Three = Three(base: Snapshot, applied: Snapshot, current: Snapshot) {
    function GroupIds(): set<Id> {
      IndexGroups(base.groups).Keys + IndexGroups(applied.groups).Keys + IndexGroups(current.groups).Keys
    }

    function RuleIds(): set<Id> {
      IndexRules(base.rules).Keys + IndexRules(applied.rules).Keys + IndexRules(current.rules).Keys
    }

    function GroupDecision(id: Id): Decision<Group> {
      DecideGroup(Lookup(IndexGroups(base.groups), id), Lookup(IndexGroups(applied.groups), id),
        Lookup(IndexGroups(current.groups), id))
    }

    function Kept(): Groups {
      map id | id in GroupIds() && Row(GroupDecision(id)).Some? :: Row(GroupDecision(id)).value
    }

    function RuleTouches(id: Id): bool {
      || RuleTouchesInput(Lookup(IndexRules(base.rules), id), IndexGroups(base.groups))
      || RuleTouchesInput(Lookup(IndexRules(applied.rules), id), IndexGroups(applied.groups))
      || RuleTouchesInput(Lookup(IndexRules(current.rules), id), IndexGroups(current.groups))
    }

    function RuleDecision(id: Id): Decision<Rule> {
      DecideRule(Lookup(IndexRules(base.rules), id), Lookup(IndexRules(applied.rules), id),
        Lookup(IndexRules(current.rules), id),
                 RuleTouches(id), Kept().Keys)
    }

    function KeptRules(): Rules {
      map id | id in RuleIds() && Row(RuleDecision(id)).Some? :: Row(RuleDecision(id)).value
    }

    ghost predicate Merged() {
      (exists id :: id in GroupIds() && Diverged(GroupDecision(id)))
        || (exists id :: id in RuleIds() && Diverged(RuleDecision(id)))
    }

    ghost function Target(): Snapshot {
      if !Merged() then base
      else Snapshot(RenumberGroups(InOrder(Kept().Values, GroupLess)),
        RenumberRules(InOrder(KeptRules().Values, RuleLess)), NO_SETTINGS)
    }
  }

  // ----- order and positions

  /** ORDER BY position, created_at; the id settles what the database leaves open. */
  predicate KeyLess(p: int, t: int, i: Id, q: int, u: int, j: Id) {
    if p != q then p < q else if t != u then t < u else StrLess(i, j)
  }

  predicate GroupLess(x: Group, y: Group) { KeyLess(x.position, x.createdAt, x.id, y.position, y.createdAt, y.id) }
  predicate RuleLess(x: Rule, y: Rule) { KeyLess(x.position, x.createdAt, x.id, y.position, y.createdAt, y.id) }

  ghost function InOrder<T(!new)>(s: set<T>, less: (T, T) -> bool): seq<T> { Sorted(s, less) }

  function RenumberGroups(gs: seq<Group>): (r: seq<Group>)
    ensures |r| == |gs|
  {
    seq(|gs|, i requires 0 <= i < |gs| => gs[i].(position := i))
  }

  function RenumberRules(rs: seq<Rule>): (r: seq<Rule>)
    ensures |r| == |rs|
  {
    seq(|rs|, i requires 0 <= i < |rs| => rs[i].(position := i))
  }

  lemma KeyOrder()
    ensures forall p, t, i :: !KeyLess(p, t, i, p, t, i)
    ensures forall p, t, i, q, u, j :: i != j ==> KeyLess(p, t, i, q, u, j) || KeyLess(q, u, j, p, t, i)
    ensures forall p, t, i, q, u, j, r, v, k ::
              KeyLess(p, t, i, q, u, j) && KeyLess(q, u, j, r, v, k) ==> KeyLess(p, t, i, r, v, k)
  {
    forall i, j ensures !StrLess(i, i) && (i == j || StrLess(i, j) || StrLess(j, i)) { StrTotal(i, j); }
    forall i, j, k | StrLess(i, j) && StrLess(j, k) ensures StrLess(i, k) { StrTransitive(i, j, k); }
  }

  lemma GroupsOrdered(s: set<Group>)
    requires forall x, y | x in s && y in s && x != y :: x.id != y.id
    ensures TotalOn(s, GroupLess) && SortedOf(InOrder(s, GroupLess), s, GroupLess)
  {
    KeyOrder();
    SortedExists(s, GroupLess);
  }

  lemma RulesOrdered(s: set<Rule>)
    requires forall x, y | x in s && y in s && x != y :: x.id != y.id
    ensures TotalOn(s, RuleLess) && SortedOf(InOrder(s, RuleLess), s, RuleLess)
  {
    KeyOrder();
    SortedExists(s, RuleLess);
  }

  // ----- indexes

  ghost predicate UniqueGroups(gs: seq<Group>) { forall i, j | 0 <= i < j < |gs| :: gs[i].id != gs[j].id }
  ghost predicate UniqueRules(rs: seq<Rule>) { forall i, j | 0 <= i < j < |rs| :: rs[i].id != rs[j].id }

  lemma {:induction false} IndexedGroups(gs: seq<Group>)
    ensures forall id | id in IndexGroups(gs) :: IndexGroups(gs)[id].id == id && IndexGroups(gs)[id] in gs
    ensures forall g | g in gs :: g.id in IndexGroups(gs) && (UniqueGroups(gs) ==> IndexGroups(gs)[g.id] == g)
    decreases |gs|
  {
    if gs != [] {
      var n := |gs| - 1;
      assert gs == gs[..n] + [gs[n]];
      IndexedGroups(gs[..n]);
      forall g | g in gs ensures g.id in IndexGroups(gs) && (UniqueGroups(gs) ==> IndexGroups(gs)[g.id] == g) {
        if g != gs[n] { var i :| 0 <= i < n && gs[i] == g; }
      }
    }
  }

  lemma {:induction false} IndexedRules(rs: seq<Rule>)
    ensures forall id | id in IndexRules(rs) :: IndexRules(rs)[id].id == id && IndexRules(rs)[id] in rs
    ensures forall r | r in rs :: r.id in IndexRules(rs) && (UniqueRules(rs) ==> IndexRules(rs)[r.id] == r)
    decreases |rs|
  {
    if rs != [] {
      var n := |rs| - 1;
      assert rs == rs[..n] + [rs[n]];
      IndexedRules(rs[..n]);
      forall r | r in rs ensures r.id in IndexRules(rs) && (UniqueRules(rs) ==> IndexRules(rs)[r.id] == r) {
        if r != rs[n] { var i :| 0 <= i < n && rs[i] == r; }
      }
    }
  }
}
