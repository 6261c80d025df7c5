/** Versioned policy documents, their assignment to groups and machines, and what an agent's
    version comparison can see of a save. */
module Policies {
  import opened Options
  import opened Service

  /** A policies row; its id is its index. `doc` stands for the whole document. */
  datatype Row = Row(name: string, version: int, doc: string)

  /** A policy_assignments row: to one machine, or (machine None) to a group. */
  datatype Assignment = Assignment(machine: Option<string>, group: Option<string>, policy: nat)

  datatype Db = Db(policies: seq<Row>, assignments: seq<Assignment>)

  const DEFAULT_DOC := ""
  const DEFAULT_VERSION := 1

  /** COALESCE(max(version), 0) over the rows of one name. */
  function MaxVersion(rows: seq<Row>, name: string): int {
    if rows == [] then 0
    else
      var m, last := MaxVersion(rows[..|rows| - 1], name), rows[|rows| - 1];
      if last.name == name && last.version > m then last.version else m
  }

  function Stored(db: Db, name: string, doc: string): Db {
    db.(policies := db.policies + [Row(name, MaxVersion(db.policies, name) + 1, doc)])
  }

  predicate ForGroup(a: Assignment, group: string) { a.machine.None? && a.group == Some(group) }

  function WithoutGroup(assignments: seq<Assignment>, group: string): seq<Assignment> {
    if assignments == [] then []
    else
      var init, last := WithoutGroup(assignments[..|assignments| - 1], group), assignments[|assignments| - 1];
      if ForGroup(last, group) then init else init + [last]
  }

  /** SetGroupPolicy, in one transaction. */
  function GroupSet(db: Db, group: string, doc: string): Db {
    var d := Stored(db, group, doc);
    d.(assignments := WithoutGroup(db.assignments, group) + [Assignment(None, Some(group), |db.policies|)])
  }

  // --- resolution ---------------------------------------------------------------------------

  /** The assigned row with the highest version among those a test selects. */
  function Best(db: Db, machine: Option<string>, group: Option<string>, n: nat): Option<Row>
    requires n <= |db.assignments|
  {
    if n == 0 then None
    else
      var before, a := Best(db, machine, group, n - 1), db.assignments[n - 1];
      if a.machine != machine || (machine.None? && a.group != group) || a.policy >= |db.policies| then before
      else
        var row := db.policies[a.policy];
        if before.None? || row.version > before.value.version then Some(row) else before
  }

  function MachineRow(db: Db, machine: string): Option<Row> { Best(db, Some(machine), None, |db.assignments|) }

  function GroupRow(db: Db, group: string): Option<Row> { Best(db, None, Some(group), |db.assignments|) }

  /** What EffectivePolicy resolves before the consent gate: the machine's own policy, else its
      group's, else the built-in default. */
  function Effective(db: Db, machine: string, group: string): Row {
    var own := MachineRow(db, machine);
    if own.Some? then own.value
    else if group != "" && GroupRow(db, group).Some? then GroupRow(db, group).value
    else Row("", DEFAULT_VERSION, DEFAULT_DOC)
  }

  /** What GetGroupPolicy hands the editor: the group's row, or the default under version 0. */
  function Shown(db: Db, group: string): (Row, int) {
    var row := GroupRow(db, group);
    if row.Some? then (row.value, row.value.version) else (Row("", DEFAULT_VERSION, DEFAULT_DOC), 0)
  }

  lemma {:induction false} MaxIsUpperBound(rows: seq<Row>, name: string)
    ensures forall r | r in rows && r.name == name :: r.version <= MaxVersion(rows, name)
    ensures MaxVersion(rows, name) >= 0
    ensures MaxVersion(rows, name) > 0 ==>
              exists r :: r in rows && r.name == name && r.version == MaxVersion(rows, name)
  {
    if rows == [] {
    } else {
      assert rows == rows[..|rows| - 1] + [rows[|rows| - 1]];
      MaxIsUpperBound(rows[..|rows| - 1], name);
    }
  }

  /** Some assignment to this machine, or to the group as a whole, names the row. */
  ghost predicate OwnRow(db: Db, machine: string, row: Row) {
    exists a | a in db.assignments ::
      a.machine == Some(machine) && a.policy < |db.policies| && db.policies[a.policy] == row
  }

  ghost predicate RowOfGroup(db: Db, group: string, row: Row) {
    exists a | a in db.assignments ::
      a.machine == None && a.group == Some(group) && a.policy < |db.policies| && db.policies[a.policy] == row
  }

  /** Assignment k is one the test selects, and names the row. */
  ghost predicate Selects(db: Db, machine: Option<string>, group: Option<string>, k: nat, row: Row) {
    && k < |db.assignments| && db.assignments[k].machine == machine
    && (machine.Some? || db.assignments[k].group == group)
    && db.assignments[k].policy < |db.policies| && db.policies[db.assignments[k].policy] == row
  }

  /** Best is one of the selected rows, and no selected row has a higher version. */
  lemma {:induction false} BestIsHighest(db: Db, machine: Option<string>, group: Option<string>, n: nat)
    requires n <= |db.assignments|
    ensures var b := Best(db, machine, group, n);
      && (b.Some? ==> exists k | 0 <= k < n :: Selects(db, machine, group, k, b.value))
      && forall k, row | 0 <= k < n && Selects(db, machine, group, k, row) ::
           b.Some? && row.version <= b.value.version
  {
    if n > 0 {
      BestIsHighest(db, machine, group, n - 1);
      var b := Best(db, machine, group, n);
      if b.Some? && b != Best(db, machine, group, n - 1) {
        assert Selects(db, machine, group, n - 1, b.value);
      }
    }
  }

  lemma OwnRowSelects(db: Db, machine: string, row: Row)
    ensures OwnRow(db, machine, row) <==>
            exists k | 0 <= k < |db.assignments| :: Selects(db, Some(machine), None, k, row)
  {
    if OwnRow(db, machine, row) {
      var a :| a in db.assignments && a.machine == Some(machine) && a.policy < |db.policies|
        && db.policies[a.policy] == row;
      var k :| 0 <= k < |db.assignments| && db.assignments[k] == a;
      assert Selects(db, Some(machine), None, k, row);
    }
    if k :| 0 <= k < |db.assignments| && Selects(db, Some(machine), None, k, row) {
      assert db.assignments[k] in db.assignments;
    }
  }

  lemma GroupRowSelects(db: Db, group: string, row: Row)
    ensures RowOfGroup(db, group, row) <==>
            exists k | 0 <= k < |db.assignments| :: Selects(db, None, Some(group), k, row)
  {
    if RowOfGroup(db, group, row) {
      var a :| a in db.assignments && a.machine == None && a.group == Some(group) && a.policy < |db.policies|
        && db.policies[a.policy] == row;
      var k :| 0 <= k < |db.assignments| && db.assignments[k] == a;
      assert Selects(db, None, Some(group), k, row);
    }
    if k :| 0 <= k < |db.assignments| && Selects(db, None, Some(group), k, row) {
      assert db.assignments[k] in db.assignments;
    }
  }

  /** A machine's own row, if it has one, is the highest of its own. */
  lemma OwnRowIsHighest(db: Db, machine: string)
    ensures MachineRow(db, machine).None? <==> forall row :: !OwnRow(db, machine, row)
    ensures MachineRow(db, machine).Some? ==>
              && OwnRow(db, machine, MachineRow(db, machine).value)
              && forall row | OwnRow(db, machine, row) :: row.version <= MachineRow(db, machine).value.version
  {
    BestIsHighest(db, Some(machine), None, |db.assignments|);
    var best := MachineRow(db, machine);
    if best.Some? { OwnRowSelects(db, machine, best.value); }
    forall row | OwnRow(db, machine, row) ensures best.Some? && row.version <= best.value.version {
      OwnRowSelects(db, machine, row);
    }
  }

  lemma GroupRowIsHighest(db: Db, group: string)
    ensures GroupRow(db, group).None? <==> forall row :: !RowOfGroup(db, group, row)
    ensures GroupRow(db, group).Some? ==>
              && RowOfGroup(db, group, GroupRow(db, group).value)
              && forall row | RowOfGroup(db, group, row) :: row.version <= GroupRow(db, group).value.version
  {
    BestIsHighest(db, None, Some(group), |db.assignments|);
    var best := GroupRow(db, group);
    if best.Some? { GroupRowSelects(db, group, best.value); }
    forall row | RowOfGroup(db, group, row) ensures best.Some? && row.version <= best.value.version {
      GroupRowSelects(db, group, row);
    }
  }

  /** A machine with an assignment of its own runs the highest version of those, whatever its
      group has; otherwise a machine of a named group with an assignment runs the highest version
      of those; otherwise it runs the built-in default. */
  lemma EffectiveIs(db: Db, machine: string, group: string)
    ensures var r := Effective(db, machine, group);
      if exists row :: OwnRow(db, machine, row)
      then OwnRow(db, machine, r) && forall row | OwnRow(db, machine, row) :: row.version <= r.version
      else if group != "" && exists row :: RowOfGroup(db, group, row)
      then RowOfGroup(db, group, r) && forall row | RowOfGroup(db, group, row) :: row.version <= r.version
      else r == Row("", 1, "")
  {
    OwnRowIsHighest(db, machine);
    GroupRowIsHighest(db, group);
  }

  /** The editor is shown the highest version assigned to the group, with its number, or the
      built-in default numbered 0 when there is none. */
  lemma ShownIs(db: Db, group: string)
    ensures var (row, version) := Shown(db, group);
      if exists r :: RowOfGroup(db, group, r)
      then && RowOfGroup(db, group, row) && version == row.version
           && forall r | RowOfGroup(db, group, r) :: r.version <= row.version
      else row == Row("", 1, "") && version == 0
  {
    GroupRowIsHighest(db, group);
  }

  ghost predicate OneGroupAssignment(db: Db, group: string, policy: nat) {
    exists k | 0 <= k < |db.assignments| ::
      && db.assignments[k] == Assignment(None, Some(group), policy)
      && forall i | 0 <= i < |db.assignments| && i != k :: !ForGroup(db.assignments[i], group)
  }

  lemma {:induction false} WithoutGroupIsFilter(assignments: seq<Assignment>, group: string)
    ensures forall a :: a in WithoutGroup(assignments, group) <==> a in assignments && !ForGroup(a, group)
  {
    if assignments == [] {
    } else {
      assert assignments == assignments[..|assignments| - 1] + [assignments[|assignments| - 1]];
      WithoutGroupIsFilter(assignments[..|assignments| - 1], group);
    }
  }

  lemma {:induction false} BestOfOne(db: Db, group: string, k: nat, n: nat)
    requires k < |db.assignments| && n <= |db.assignments| && db.assignments[k].policy < |db.policies|
    requires ForGroup(db.assignments[k], group)
    requires forall i | 0 <= i < |db.assignments| && i != k :: !ForGroup(db.assignments[i], group)
    ensures Best(db, None, Some(group), n) == if n <= k then None else Some(db.policies[db.assignments[k].policy])
  {
    if n > 0 {
      BestOfOne(db, group, k, n - 1);
    }
  }

  lemma OneAssignmentResolves(db: Db, group: string, policy: nat)
    requires OneGroupAssignment(db, group, policy) && policy < |db.policies|
    ensures GroupRow(db, group) == Some(db.policies[policy])
  {
    var k :| 0 <= k < |db.assignments| && db.assignments[k] == Assignment(None, Some(group), policy)
      && forall i | 0 <= i < |db.assignments| && i != k :: !ForGroup(db.assignments[i], group);
    BestOfOne(db, group, k, |db.assignments|);
  }

  lemma {:induction false} BestIgnoresGroups(db: Db, after: Db, group: string, machine: string, n: nat)
    requires n <= |db.assignments| && db.policies <= after.policies
    requires forall a | a in db.assignments :: a.policy < |db.policies|
    requires after.assignments == WithoutGroup(db.assignments[..n], group)
    ensures Best(after, Some(machine), None, |after.assignments|) == Best(db, Some(machine), None, n)
    decreases n
  {
    if n > 0 {
      var a, rest := db.assignments[n - 1], WithoutGroup(db.assignments[..n - 1], group);
      assert db.assignments[..n][..n - 1] == db.assignments[..n - 1];
      var before := after.(assignments := rest);
      BestIgnoresGroups(db, before, group, machine, n - 1);
      assert a in db.assignments;
      if !ForGroup(a, group) {
        SameBest(before, after, machine, |rest|);
        assert after.policies[a.policy] == db.policies[a.policy];
      }
    }
  }

  lemma {:induction false} SameBest(db: Db, after: Db, machine: string, n: nat)
    requires n <= |db.assignments| && n <= |after.assignments| && after.policies == db.policies
    requires db.assignments[..n] == after.assignments[..n]
    ensures Best(db, Some(machine), None, n) == Best(after, Some(machine), None, n)
  {
    if n > 0 {
      var a, b := db.assignments, after.assignments;
      assert a[n - 1] == a[..n][n - 1] == b[..n][n - 1] == b[n - 1];
      assert a[..n - 1] == a[..n][..n - 1] == b[..n][..n - 1] == b[..n - 1];
      SameBest(db, after, machine, n - 1);
    }
  }

  /** Assignments point at stored rows. */
  ghost predicate WellFormed(db: Db) { forall a | a in db.assignments :: a.policy < |db.policies| }

  /** After a save the group has exactly one assignment, to a version above every earlier one of
      that name; a machine of the group without an assignment of its own gets the new document,
      and a machine with its own keeps it. */
  lemma SaveTakesEffect(db: Db, group: string, doc: string, machine: string)
    requires WellFormed(db)
    ensures var after := GroupSet(db, group, doc);
      var version := MaxVersion(db.policies, group) + 1;
      && WellFormed(after) && OneGroupAssignment(after, group, |db.policies|)
      && (forall r | r in db.policies && r.name == group :: r.version < version)
      && after.policies == db.policies + [Row(group, version, doc)]
      && MachineRow(after, machine) == MachineRow(db, machine)
      && (group != "" && MachineRow(db, machine).None? ==> Effective(after, machine, group) == Row(group, version, doc))
  {
    var after := GroupSet(db, group, doc);
    var kept := WithoutGroup(db.assignments, group);
    WithoutGroupIsFilter(db.assignments, group);
    MaxIsUpperBound(db.policies, group);
    forall i | 0 <= i < |kept|
      ensures !ForGroup(after.assignments[i], group) && after.assignments[i].policy < |db.policies|
    {
      assert after.assignments[i] == kept[i] && kept[i] in kept;
    }
    assert after.assignments[|kept|] == Assignment(None, Some(group), |db.policies|);
    OneAssignmentResolves(after, group, |db.policies|);
    assert db.assignments[..|db.assignments|] == db.assignments;
    BestIgnoresGroups(db, after.(assignments := kept), group, machine, |db.assignments|);
    SameBest(after.(assignments := kept), after, machine, |kept|);
  }

  /** The editor is shown what the machines of a named group without an assignment of their own
      run, before and after a save; the save replaces it. */
  lemma EditorShowsWhatMachinesRun(db: Db, group: string, doc: string, machine: string)
    requires WellFormed(db) && group != "" && MachineRow(db, machine).None?
    ensures Shown(db, group).0 == Effective(db, machine, group)
    ensures var after := GroupSet(db, group, doc);
      var version := MaxVersion(db.policies, group) + 1;
      && Shown(after, group) == (Row(group, version, doc), version)
      && Shown(after, group).0 == Effective(after, machine, group)
  {
    SaveTakesEffect(db, group, doc, machine);
    OneAssignmentResolves(GroupSet(db, group, doc), group, |db.policies|);
  }

  // --- over sequences of saves ------------------------------------------------------------------

  datatype Op = SetGroup(group: string, doc: string) | Upsert(name: string, doc: string)

  function Apply(db: Db, op: Op): Db {
    match op
    case SetGroup(group, doc) => GroupSet(db, group, doc)
    case Upsert(name, doc) => Stored(db, name, doc)
  }

  function Run(db: Db, ops: seq<Op>): Db {
    if ops == [] then db else Apply(Run(db, ops[..|ops| - 1]), ops[|ops| - 1])
  }

  function Saves(ops: seq<Op>, group: string): nat {
    if ops == [] then 0
    else
      var last := ops[|ops| - 1];
      Saves(ops[..|ops| - 1], group) + if last.SetGroup? && last.group == group then 1 else 0
  }

  /** The group has a saved policy: one assignment, to a row of its own name. */
  ghost predicate HasSaved(db: Db, group: string, row: Row) {
    && row.name == group && row.version >= 1
    && exists p | 0 <= p < |db.policies| :: db.policies[p] == row && OneGroupAssignment(db, group, p)
  }

  lemma SavedResolves(db: Db, group: string, row: Row)
    requires HasSaved(db, group, row)
    ensures GroupRow(db, group) == Some(row) && row.version <= MaxVersion(db.policies, group)
  {
    var p :| 0 <= p < |db.policies| && db.policies[p] == row && OneGroupAssignment(db, group, p);
    OneAssignmentResolves(db, group, p);
    MaxIsUpperBound(db.policies, group);
    assert row in db.policies;
  }

  lemma {:induction false} WithoutKeepsOthers(assignments: seq<Assignment>, k: nat, group: string, other: string)
    returns (j: nat)
    requires k < |assignments| && ForGroup(assignments[k], group) && group != other
    requires forall i | 0 <= i < |assignments| && i != k :: !ForGroup(assignments[i], group)
    ensures var rest := WithoutGroup(assignments, other);
      && j < |rest| && rest[j] == assignments[k]
      && forall i | 0 <= i < |rest| && i != j :: !ForGroup(rest[i], group)
    decreases |assignments|
  {
    var init, last := assignments[..|assignments| - 1], assignments[|assignments| - 1];
    if k == |init| {
      WithoutGroupIsFilter(init, other);
      var rest := WithoutGroup(init, other);
      j := |rest|;
      forall i | 0 <= i < |rest| ensures !ForGroup(rest[i], group) {
        assert rest[i] in rest;
        var m :| 0 <= m < |init| && init[m] == rest[i];
      }
    } else {
      j := WithoutKeepsOthers(init, k, group, other);
    }
  }

  /** Saving another group's policy, or storing a document, leaves the group's policy alone. */
  lemma OtherOpsKeepSaved(db: Db, op: Op, group: string, row: Row)
    requires HasSaved(db, group, row) && !(op.SetGroup? && op.group == group)
    ensures HasSaved(Apply(db, op), group, row)
  {
    var after := Apply(db, op);
    var p :| 0 <= p < |db.policies| && db.policies[p] == row && OneGroupAssignment(db, group, p);
    var k :| 0 <= k < |db.assignments| && db.assignments[k] == Assignment(None, Some(group), p)
      && forall i | 0 <= i < |db.assignments| && i != k :: !ForGroup(db.assignments[i], group);
    assert after.policies[p] == row;
    if op.SetGroup? {
      var j := WithoutKeepsOthers(db.assignments, k, group, op.group);
      assert after.assignments[j] == Assignment(None, Some(group), p);
    }
    assert OneGroupAssignment(after, group, p);
  }

  /** Over any sequence of saves of this and other groups and of stored documents, the group's
      version has grown by at least the number of its own saves, and is unchanged, with its
      document, if there were none. */
  lemma {:induction false} VersionsCountSaves(db: Db, ops: seq<Op>, group: string, row: Row) returns (now: Row)
    requires WellFormed(db) && HasSaved(db, group, row) && group != ""
    ensures WellFormed(Run(db, ops)) && HasSaved(Run(db, ops), group, now)
    ensures now.version >= row.version + Saves(ops, group)
    ensures Saves(ops, group) == 0 ==> now == row
  {
    if ops == [] {
      now := row;
    } else {
      var init, op := ops[..|ops| - 1], ops[|ops| - 1];
      var mid := Run(db, init);
      now := VersionsCountSaves(db, init, group, row);
      if op.SetGroup? {
        SaveTakesEffect(mid, op.group, op.doc, "");
      }
      if op.SetGroup? && op.group == group {
        SavedResolves(mid, group, now);
        now := Row(group, MaxVersion(mid.policies, group) + 1, op.doc);
        assert Run(db, ops).policies[|mid.policies|] == now;
      } else {
        OtherOpsKeepSaved(mid, op, group, now);
      }
    }
  }

  /** The agent's policy as the server answers it for a resolved row. */
  function AnswerOf(row: Row, active: bool, enabled: set<string>, grant: Grant): Policy {
    Policy(row.version, active, enabled, row.doc, grant)
  }

  /** For a group that already has a saved policy, an agent that last saw it restarts its
      collectors at its next poll exactly when the group was saved in between (however often) or
      the consent flag changed. */
  lemma PollDetectsSaves(db: Db, ops: seq<Op>, group: string, row: Row, s: Svc,
                         active: bool, enabled: set<string>, grant: Grant)
    requires WellFormed(db) && HasSaved(db, group, row) && group != ""
    requires s.contexts != [] && s.pol.version == row.version && GroupRow(Run(db, ops), group).Some?
    ensures var answer := AnswerOf(GroupRow(Run(db, ops), group).value, active, enabled, grant);
      var t := Polled(s, answer);
      && (t.contexts != s.contexts <==> Saves(ops, group) > 0 || active != s.pol.active)
      && (t.contexts != s.contexts ==> t.pol == answer && t.contexts == Replaced(s.contexts, answer))
  {
    var now := VersionsCountSaves(db, ops, group, row);
    SavedResolves(Run(db, ops), group, now);
    var answer := AnswerOf(now, active, enabled, grant);
    assert |Replaced(s.contexts, answer)| == |s.contexts| + 1;
  }

  /** The first save of a group whose agents run the built-in default is noticed by version only
      if a document of that name was stored before: otherwise both are version 1. */
  lemma FirstSaveDetectedIff(db: Db, group: string, doc: string, machine: string)
    requires WellFormed(db) && group != "" && MachineRow(db, machine).None? && GroupRow(db, group).None?
    requires forall r | r in db.policies :: r.version >= 1
    ensures Effective(GroupSet(db, group, doc), machine, group).version != Effective(db, machine, group).version
        <==> exists r :: r in db.policies && r.name == group
  {
    SaveTakesEffect(db, group, doc, machine);
    MaxIsUpperBound(db.policies, group);
  }

  /** In a new installation: the first policy saved for a group is version 1, like the built-in
      default its agents run, and their next poll keeps the old collectors. */
  lemma FirstSaveGoesUnnoticed(group: string, doc: string, machine: string, active: bool,
                               enabled: set<string>, grant: Grant)
    requires group != ""
    ensures var db := Db([], []);
      var before, after := Effective(db, machine, group), Effective(GroupSet(db, group, doc), machine, group);
      var s := Booted(AnswerOf(before, active, enabled, grant));
      && before == Row("", 1, DEFAULT_DOC) && after == Row(group, 1, doc)
      && Polled(s, AnswerOf(after, active, enabled, grant)).contexts == s.contexts
  {
    SaveTakesEffect(Db([], []), group, doc, machine);
  }

  // --- the tables in place -------------------------------------------------------------------------

  class PolicyStore {
    var policies: seq<Row>
    var assignments: seq<Assignment>

    ghost function View(): Db
      reads this
    {
      Db(policies, assignments)
    }

    constructor ()
      ensures View() == Db([], []) && WellFormed(View())
    {
      policies, assignments := [], [];
    }

    method NextVersion(name: string) returns (v: int)
      ensures v == MaxVersion(policies, name) + 1
    {
      var m := 0;
      for i := 0 to |policies|
        invariant m == MaxVersion(policies[..i], name)
      {
        assert policies[..i + 1][..i] == policies[..i];
        if policies[i].name == name && policies[i].version > m {
          m := policies[i].version;
        }
      }
      assert policies[..|policies|] == policies;
      v := m + 1;
    }

    /** Insert, unassign, assign; `commits` is false when the transaction rolls back. */
    method SetGroupPolicy(group: string, doc: string, commits: bool) returns (version: Option<int>)
      modifies this
      ensures View() == if commits then GroupSet(old(View()), group, doc) else old(View())
      ensures version == if commits then Some(MaxVersion(old(policies), group) + 1) else None
    {
      var v := NextVersion(group);
      var id := |policies|;
      var kept: seq<Assignment> := [];
      for i := 0 to |assignments|
        invariant View() == old(View())
        invariant kept == WithoutGroup(assignments[..i], group)
      {
        assert assignments[..i + 1][..i] == assignments[..i];
        if !ForGroup(assignments[i], group) {
          kept := kept + [assignments[i]];
        }
      }
      assert assignments[..|assignments|] == assignments;
      if !commits {
        return None;
      }
      policies := policies + [Row(group, v, doc)];
      assignments := kept + [Assignment(None, Some(group), id)];
      version := Some(v);
    }

    method UpsertPolicy(name: string, doc: string) returns (id: nat, version: int)
      modifies this
      ensures View() == Stored(old(View()), name, doc)
      ensures id == |old(policies)| && version == MaxVersion(old(policies), name) + 1
    {
      version := NextVersion(name);
      id := |policies|;
      policies := policies + [Row(name, version, doc)];
    }

    /** The highest-version row assigned to a machine, or to a group. */
    method TopAssigned(machine: Option<string>, group: Option<string>) returns (row: Option<Row>)
      ensures row == Best(View(), machine, group, |assignments|)
    {
      row := None;
      for i := 0 to |assignments|
        invariant row == Best(View(), machine, group, i)
      {
        var a := assignments[i];
        if a.machine == machine && (machine.Some? || a.group == group) && a.policy < |policies| {
          var r := policies[a.policy];
          if row.None? || r.version > row.value.version {
            row := Some(r);
          }
        }
      }
    }

    method GetGroupPolicy(group: string) returns (pol: Row, version: int)
      ensures (pol, version) == Shown(View(), group)
    {
      pol, version := Row("", DEFAULT_VERSION, DEFAULT_DOC), 0;
      var found := TopAssigned(None, Some(group));
      if found.Some? {
        pol, version := found.value, found.value.version;
      }
    }

    /** EffectivePolicy up to the consent gate. */
    method EffectivePolicy(machine: string, group: string) returns (pol: Row)
      ensures pol == Effective(View(), machine, group)
    {
      pol := Row("", DEFAULT_VERSION, DEFAULT_DOC);
      var found := TopAssigned(Some(machine), None);
      if found.None? && group != "" {
        found := TopAssigned(None, Some(group));
      }
      if found.Some? {
        pol := found.value;
      }
    }
  }
}
