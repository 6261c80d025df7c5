/** What the event store's tables promise each other: batches are all or nothing, the purge
    removes exactly the stale rows of its kinds, and app_usage agrees with the event log. */
module AppUsage {
  import opened Options
  import opened Json
  import opened EventStore

  // --- which batches are stored ---------------------------------------------------------

  /** What the database requires of an event as it arrives, before any cleaning. */
  predicate Acceptable(e: Event) {
    && !HasNul(e.kind)
    && KeysClean(Obj(e.data))
    && (e.kind == "screenshot" ==> AsText(Field(e.data, "object_key")).Some?)
    && (e.kind == "foreground" ==>
          AsText(Field(e.data, "process")).Some? && AsInt(Field(e.data, "active_sec")).Some?)
  }

  function RowsOf(machine: string, events: seq<Event>, now: int): (rows: seq<Row>)
    ensures |rows| == |events|
    ensures forall i | 0 <= i < |rows| :: rows[i] == RowOf(machine, events[i], now)
  {
    seq(|events|, i requires 0 <= i < |events| => RowOf(machine, events[i], now))
  }

  lemma {:induction false} ExecuteAppend(db: Db, a: seq<Stmt>, b: seq<Stmt>)
    ensures ExecuteAll(db, a + b) ==
            if ExecuteAll(db, a).None? then None else ExecuteAll(ExecuteAll(db, a).value, b)
  {
    if b == [] {
      assert a + b == a;
    } else {
      assert (a + b)[..|a + b| - 1] == a + b[..|b| - 1];
      ExecuteAppend(db, a, b[..|b| - 1]);
    }
  }

  lemma CleanedAccepts(e: Event)
    ensures JsonbAccepts(Obj(Cleaned(e.data))) <==> KeysClean(Obj(e.data))
  {
    assert Stripped(Obj(e.data)) == Obj(Cleaned(e.data));
    StrippedIsStorableIffKeysClean(Obj(e.data));
  }

  // --- what the derived tables should hold -----------------------------------------------

  /** How many active seconds a stored row stands for under a roll-up key. */
  function Contribution(row: Row, key: UsageKey): int {
    if && row.kind == "foreground" && row.machine == key.machine && Day(row.ts) == key.day
       && AsText(Field(row.data, "process")) == Some(key.process)
    then AsInt(Field(row.data, "active_sec")).GetOr(0) else 0
  }

  /** The sum of active_sec over the foreground rows of a machine, day and process. */
  function ForegroundSum(rows: seq<Row>, key: UsageKey): int {
    if rows == [] then 0
    else ForegroundSum(rows[..|rows| - 1], key) + Contribution(rows[|rows| - 1], key)
  }

  function ShotOf(row: Row): Shot
    requires AsText(Field(row.data, "object_key")).Some?
  {
    Shot(row.machine, row.ts, AsText(Field(row.data, "object_key")).value, AsInt(Field(row.data, "width")),
         AsInt(Field(row.data, "height")), AsInt(Field(row.data, "bytes")), AsText(Field(row.data, "format")))
  }

  function ShotsOf(rows: seq<Row>): seq<Shot> {
    if rows == [] then []
    else
      var row := rows[|rows| - 1];
      var shots := ShotsOf(rows[..|rows| - 1]);
      if row.kind != "screenshot" || AsText(Field(row.data, "object_key")).None? then shots
      else shots + [ShotOf(row)]
  }

  lemma {:induction false} SumAppend(a: seq<Row>, b: seq<Row>, key: UsageKey)
    ensures ForegroundSum(a + b, key) == ForegroundSum(a, key) + ForegroundSum(b, key)
  {
    if b == [] {
      assert a + b == a;
    } else {
      assert (a + b)[..|a + b| - 1] == a + b[..|b| - 1];
      SumAppend(a, b[..|b| - 1], key);
    }
  }

  lemma SumSnoc(rows: seq<Row>, row: Row, key: UsageKey)
    ensures ForegroundSum(rows + [row], key) == ForegroundSum(rows, key) + Contribution(row, key)
  {
    assert (rows + [row])[..|rows|] == rows;
  }

  lemma {:induction false} ShotsAppend(a: seq<Row>, b: seq<Row>)
    ensures ShotsOf(a + b) == ShotsOf(a) + ShotsOf(b)
  {
    if b == [] {
      assert a + b == a;
    } else {
      assert (a + b)[..|a + b| - 1] == a + b[..|b| - 1];
      ShotsAppend(a, b[..|b| - 1]);
    }
  }

  /** `after` is `db` with the rows added to the log and to everything derived from it. */
  ghost predicate Gains(db: Db, rows: seq<Row>, after: Db) {
    && after.events == db.events + rows
    && after.screenshots == db.screenshots + ShotsOf(rows)
    && after.blobs == db.blobs
    && forall key :: Usage(after.usage, key) == Usage(db.usage, key) + ForegroundSum(rows, key)
  }

  lemma ExecuteOneOrTwo(db: Db, a: Stmt, b: Stmt)
    ensures ExecuteAll(db, [a]) == Execute(db, a)
    ensures ExecuteAll(db, [a, b]) == if Execute(db, a).None? then None else Execute(Execute(db, a).value, b)
  {
    assert [a][..0] == [] && [a, b][..1] == [a];
    assert ExecuteAll(db, []) == Some(db);
  }

  /** The statements of one event, run on any database. */
  lemma OneEvent(db: Db, machine: string, e: Event, now: int)
    ensures var row := RowOf(machine, e, now);
      var after := ExecuteAll(db, StmtsOf(row));
      (after.Some? <==> Acceptable(e)) && (after.Some? ==> Gains(db, [row], after.value))
  {
    var row := RowOf(machine, e, now);
    CleanedAccepts(e);
    RunsOfRow(db, row);
    if ExecuteAll(db, StmtsOf(row)).Some? {
      RowGains(db, row);
    }
  }

  /** The statements of a row, one after the other. */
  lemma RunsOfRow(db: Db, row: Row)
    ensures var stmts := StmtsOf(row);
      var first := Execute(db, stmts[0]);
      ExecuteAll(db, stmts) == if first.None? || |stmts| == 1 then first else Execute(first.value, stmts[1])
  {
    var stmts := StmtsOf(row);
    ExecuteOneOrTwo(db, stmts[0], stmts[|stmts| - 1]);
    assert stmts == if |stmts| == 1 then [stmts[0]] else [stmts[0], stmts[|stmts| - 1]];
  }

  lemma RowGains(db: Db, row: Row)
    requires ExecuteAll(db, StmtsOf(row)).Some?
    ensures Gains(db, [row], ExecuteAll(db, StmtsOf(row)).value)
  {
    RunsOfRow(db, row);
    assert [row][..0] == [];
  }

  lemma GainsThenOne(db: Db, rows: seq<Row>, mid: Db, row: Row, after: Db)
    requires Gains(db, rows, mid) && Gains(mid, [row], after)
    ensures Gains(db, rows + [row], after)
  {
    ShotsAppend(rows, [row]);
    assert after.events == db.events + (rows + [row]);
    assert after.screenshots == db.screenshots + ShotsOf(rows + [row]);
    forall key ensures Usage(after.usage, key) == Usage(db.usage, key) + ForegroundSum(rows + [row], key) {
      SumAppend(rows, [row], key);
    }
  }

  /** A batch runs as its first events do and then its last event's statements. */
  lemma InsertedSnoc(db: Db, machine: string, events: seq<Event>, last: Event, now: int)
    ensures var before, stmts := Inserted(db, machine, events, now), StmtsOf(RowOf(machine, last, now));
      Inserted(db, machine, events + [last], now) == if before.None? then None else ExecuteAll(before.value, stmts)
    ensures RowsOf(machine, events + [last], now) == RowsOf(machine, events, now) + [RowOf(machine, last, now)]
  {
    assert (events + [last])[..|events|] == events;
    ExecuteAppend(db, Statements(machine, events, now), StmtsOf(RowOf(machine, last, now)));
  }

  /** A batch is stored exactly when every event in it is acceptable (one bad event fails all
      of them), and then every table gains exactly what the new rows stand for. */
  lemma {:induction false} BatchInsert(db: Db, machine: string, events: seq<Event>, now: int)
    ensures Inserted(db, machine, events, now).Some? <==> forall e | e in events :: Acceptable(e)
    ensures Inserted(db, machine, events, now).Some? ==>
              Gains(db, RowsOf(machine, events, now), Inserted(db, machine, events, now).value)
    decreases |events|
  {
    if events == [] {
    } else {
      var init, last := events[..|events| - 1], events[|events| - 1];
      assert events == init + [last];
      BatchInsert(db, machine, init, now);
      InsertedSnoc(db, machine, init, last, now);
      var before := Inserted(db, machine, init, now);
      if before.Some? {
        OneEvent(before.value, machine, last, now);
        var after := Inserted(db, machine, events, now);
        if after.Some? {
          GainsThenOne(db, RowsOf(machine, init, now), before.value, RowOf(machine, last, now), after.value);
        }
      }
    }
  }

  /** What a log row holds of the event it was made from: its kind, its time or else the server's
      clock, and at every place in its data what cleaning makes of that place. */
  ghost predicate RowFrom(row: Row, machine: string, e: Event, now: int) {
    && row.uid == e.uid && row.machine == machine && row.kind == e.kind
    && (e.ts.Some? ==> row.ts == e.ts.value) && (e.ts.None? ==> row.ts == now)
    && forall path: seq<Move> :: CleanedNode(At(Obj(e.data), path), At(Obj(row.data), path))
  }

  /** A stored batch adds one row for each event, in the order of the batch. */
  lemma InsertedRows(db: Db, machine: string, events: seq<Event>, now: int)
    requires Inserted(db, machine, events, now).Some?
    ensures var log := Inserted(db, machine, events, now).value.events;
      && |log| == |db.events| + |events| && log[..|db.events|] == db.events
      && forall i | 0 <= i < |events| :: RowFrom(log[|db.events| + i], machine, events[i], now)
  {
    BatchInsert(db, machine, events, now);
    var rows := RowsOf(machine, events, now);
    forall i | 0 <= i < |events| ensures RowFrom(rows[i], machine, events[i], now) {
      var data := events[i].data;
      assert Stripped(Obj(data)) == Obj(Cleaned(data));
      forall path: seq<Move> ensures CleanedNode(At(Obj(data), path), At(Obj(rows[i].data), path)) {
        StripChangesOnlyStrings(Obj(data), path);
      }
    }
  }

  // --- what the purge removes -------------------------------------------------------------

  predicate StaleFor(row: Row, c: Cutoffs) {
    || (c.activity.Some? && row.kind in ACTIVITY_KINDS && row.ts < c.activity.value)
    || (c.security.Some? && row.kind in SECURITY_KINDS && row.ts < c.security.value)
    || (c.screenshots.Some? && row.kind == "screenshot" && row.ts < c.screenshots.value)
  }

  lemma {:induction false} KeepRowsCount(rows: seq<Row>, kinds: set<string>, before: int, row: Row)
    ensures multiset(KeepRows(rows, kinds, before))[row] ==
            if row.kind in kinds && row.ts < before then 0 else multiset(rows)[row]
  {
    if rows == [] {
    } else {
      var init, last := rows[..|rows| - 1], rows[|rows| - 1];
      assert rows == init + [last];
      KeepRowsCount(init, kinds, before, row);
    }
  }

  /** A purge removes every stale row of its kinds and no other row. */
  lemma PurgeRemovesExactlyTheStale(db: Db, c: Cutoffs, stuck: set<string>, row: Row)
    ensures multiset(Purged(db, c, stuck).events)[row] ==
            if StaleFor(row, c) then 0 else multiset(db.events)[row]
  {
    var a := PurgeActivity(db, c.activity);
    var b := PurgeSecurity(a, c.security);
    if c.activity.Some? { KeepRowsCount(db.events, ACTIVITY_KINDS, c.activity.value, row); }
    if c.security.Some? { KeepRowsCount(a.events, SECURITY_KINDS, c.security.value, row); }
    if c.screenshots.Some? { KeepRowsCount(b.events, {"screenshot"}, c.screenshots.value, row); }
  }

  lemma {:induction false} KeepRowsSum(rows: seq<Row>, kinds: set<string>, before: int, key: UsageKey)
    requires "foreground" !in kinds
    ensures ForegroundSum(KeepRows(rows, kinds, before), key) == ForegroundSum(rows, key)
  {
    if rows == [] {
    } else {
      var init, last := rows[..|rows| - 1], rows[|rows| - 1];
      KeepRowsSum(init, kinds, before, key);
      if !(last.kind in kinds && last.ts < before) {
        SumSnoc(KeepRows(init, kinds, before), last, key);
      }
    }
  }

  /** The part of a roll-up that comes from rows older than a cutoff. */
  function SumBefore(rows: seq<Row>, key: UsageKey, before: int): int {
    if rows == [] then 0
    else
      var last := rows[|rows| - 1];
      SumBefore(rows[..|rows| - 1], key, before) + (if last.ts < before then Contribution(last, key) else 0)
  }

  lemma {:induction false} ActivityPurgeSum(rows: seq<Row>, before: int, key: UsageKey)
    ensures ForegroundSum(KeepRows(rows, ACTIVITY_KINDS, before), key) + SumBefore(rows, key, before)
            == ForegroundSum(rows, key)
    ensures key.day < Day(before) ==> SumBefore(rows, key, before) == ForegroundSum(rows, key)
    ensures key.day > Day(before) ==> SumBefore(rows, key, before) == 0
  {
    if rows == [] {
    } else {
      var init, last := rows[..|rows| - 1], rows[|rows| - 1];
      ActivityPurgeSum(init, before, key);
      if !(last.kind in ACTIVITY_KINDS && last.ts < before) {
        SumSnoc(KeepRows(init, ACTIVITY_KINDS, before), last, key);
      }
    }
  }

  /** How far the roll-up is off for one key. */
  function Discrepancy(db: Db, key: UsageKey): int {
    Usage(db.usage, key) - ForegroundSum(db.events, key)
  }

  /** A purge clears the discrepancy of the days before its activity cutoff, keeps the later
      ones, and on the cutoff's own day adds the seconds of the rows it removed. */
  lemma PurgeDiscrepancy(db: Db, c: Cutoffs, stuck: set<string>, key: UsageKey)
    ensures Discrepancy(Purged(db, c, stuck), key) ==
            if c.activity.None? || key.day > Day(c.activity.value) then Discrepancy(db, key)
            else if key.day < Day(c.activity.value) then 0
            else Discrepancy(db, key) + SumBefore(db.events, key, c.activity.value)
  {
    var a := PurgeActivity(db, c.activity);
    var b := PurgeSecurity(a, c.security);
    if c.activity.Some? { ActivityPurgeSum(db.events, c.activity.value, key); }
    if c.security.Some? { KeepRowsSum(a.events, SECURITY_KINDS, c.security.value, key); }
    if c.screenshots.Some? { KeepRowsSum(b.events, {"screenshot"}, c.screenshots.value, key); }
  }

  /** On the cutoff's own day a roll-up that agreed before still agrees exactly when the
      removed rows of that key sum to nothing. */
  lemma CutoffDayAgreesIff(db: Db, c: Cutoffs, stuck: set<string>, key: UsageKey)
    requires c.activity.Some? && key.day == Day(c.activity.value) && Discrepancy(db, key) == 0
    ensures Discrepancy(Purged(db, c, stuck), key) == 0 <==> SumBefore(db.events, key, c.activity.value) == 0
  {
    PurgeDiscrepancy(db, c, stuck, key);
  }

  // --- over whole histories ----------------------------------------------------------------

  datatype Op =
    | Insert(machine: string, events: seq<Event>, now: int)
    | Purge(cutoffs: Cutoffs, stuck: set<string>)
    | DeleteShot(index: nat, blobStuck: bool)

  /** A failed insert and the deletion of a missing screenshot change nothing. */
  function Apply(db: Db, op: Op): Db {
    match op
    case Insert(machine, events, now) => Inserted(db, machine, events, now).GetOr(db)
    case Purge(c, stuck) => Purged(db, c, stuck)
    case DeleteShot(i, stuck) => if i < |db.screenshots| then ShotDeleted(db, i, stuck) else db
  }

  function RunFrom(db: Db, ops: seq<Op>): Db {
    if ops == [] then db else Apply(RunFrom(db, ops[..|ops| - 1]), ops[|ops| - 1])
  }

  function Run(ops: seq<Op>): Db { RunFrom(EMPTY_DB, ops) }

  const PURGED_KINDS := ACTIVITY_KINDS + SECURITY_KINDS + {"screenshot"}

  lemma {:induction false} UnlistedRowsStay(db: Db, ops: seq<Op>, row: Row)
    requires row.kind !in PURGED_KINDS
    ensures multiset(RunFrom(db, ops).events)[row] >= multiset(db.events)[row]
  {
    if ops == [] {
    } else {
      var before := RunFrom(db, ops[..|ops| - 1]);
      UnlistedRowsStay(db, ops[..|ops| - 1], row);
      match ops[|ops| - 1]
      case Insert(machine, events, now) => BatchInsert(before, machine, events, now);
      case Purge(c, stuck) => PurgeRemovesExactlyTheStale(before, c, stuck, row);
      case DeleteShot(_, _) =>
    }
  }

  /** No history of inserts, purges and deletions ever removes a row of this kind. */
  ghost predicate KeptForEver(kind: string) {
    forall db: Db, ops: seq<Op>, row: Row | row.kind == kind ::
      multiset(RunFrom(db, ops).events)[row] >= multiset(db.events)[row]
  }

  /** Rows are kept for ever exactly when their kind is in none of the purge's lists. */
  lemma KeptForEverIff(kind: string)
    ensures KeptForEver(kind) <==> kind !in PURGED_KINDS
  {
    if kind !in PURGED_KINDS {
      forall db: Db, ops: seq<Op>, row: Row | row.kind == kind
        ensures multiset(RunFrom(db, ops).events)[row] >= multiset(db.events)[row]
      {
        UnlistedRowsStay(db, ops, row);
      }
    } else {
      var row := Row(0, "", 0, kind, map[]);
      var db := Db([row], [], map[], map[]);
      var c := Cutoffs(Some(1), Some(1), Some(1));
      var ops := [Op.Purge(c, {})];
      assert ops[..0] == [] && RunFrom(db, ops) == Apply(RunFrom(db, []), ops[0]);
      PurgeRemovesExactlyTheStale(db, c, {}, row);
      assert multiset(RunFrom(db, ops).events)[row] == 0 && multiset(db.events)[row] == 1;
    }
  }

  lemma VisitsAreUnlisted(kind: string)
    requires kind == "visit"
    ensures kind !in PURGED_KINDS
  {
    assert |kind| == 5 && kind[0] == 'v';
  }

  /** Browsing history is such a kind. */
  lemma VisitsAreKeptForEver(kind: string)
    requires kind == "visit"
    ensures KeptForEver(kind)
  {
    VisitsAreUnlisted(kind);
    KeptForEverIff(kind);
  }

  /** The days a purge has cut through and no later purge has cleared. */
  function CutDays(ops: seq<Op>): set<int> {
    if ops == [] then {}
    else
      var before := CutDays(ops[..|ops| - 1]);
      match ops[|ops| - 1]
      case Purge(c, _) =>
        if c.activity.None? then before
        else (set d | d in before && d >= Day(c.activity.value)) + {Day(c.activity.value)}
      case _ => before
  }

  /** After any history of inserts (redelivered batches included), purges with any cutoffs and
      screenshot deletions, app_usage agrees with the log on every day that was not cut. */
  lemma {:induction false} UsageAgreesOffCutDays(ops: seq<Op>, key: UsageKey)
    requires key.day !in CutDays(ops)
    ensures Usage(Run(ops).usage, key) == ForegroundSum(Run(ops).events, key)
  {
    if ops == [] {
    } else {
      var init, db := ops[..|ops| - 1], Run(ops[..|ops| - 1]);
      if key.day !in CutDays(init) {
        UsageAgreesOffCutDays(init, key);
      }
      match ops[|ops| - 1]
      case Insert(machine, events, now) =>
        BatchInsert(db, machine, events, now);
        SumAppend(db.events, RowsOf(machine, events, now), key);
      case Purge(c, stuck) =>
        PurgeDiscrepancy(db, c, stuck, key);
      case DeleteShot(_, _) =>
    }
  }

  /** The last activity cutoff of a history. */
  function LastCutoff(ops: seq<Op>): Option<int> {
    if ops == [] then None
    else match ops[|ops| - 1]
      case Purge(c, _) => if c.activity.Some? then c.activity else LastCutoff(ops[..|ops| - 1])
      case _ => LastCutoff(ops[..|ops| - 1])
  }

  predicate CutoffsNeverGoBack(ops: seq<Op>) {
    ops == [] ||
    var init := ops[..|ops| - 1];
    && CutoffsNeverGoBack(init)
    && (match ops[|ops| - 1]
        case Purge(c, _) =>
          c.activity.Some? && LastCutoff(init).Some? ==> LastCutoff(init).value <= c.activity.value
        case _ => true)
  }

  lemma {:induction false} OnlyTheLastDayIsCut(ops: seq<Op>)
    requires CutoffsNeverGoBack(ops)
    ensures CutDays(ops) == if LastCutoff(ops).None? then {} else {Day(LastCutoff(ops).value)}
  {
    if ops == [] {
    } else {
      OnlyTheLastDayIsCut(ops[..|ops| - 1]);
    }
  }

  /** With cutoffs that never go back, the roll-up equals the sum over the log on every day
      but the one containing the latest activity cutoff. */
  lemma AppUsageEqualsLog(ops: seq<Op>, key: UsageKey)
    requires CutoffsNeverGoBack(ops)
    requires LastCutoff(ops).None? || key.day != Day(LastCutoff(ops).value)
    ensures Usage(Run(ops).usage, key) == ForegroundSum(Run(ops).events, key)
  {
    OnlyTheLastDayIsCut(ops);
    UsageAgreesOffCutDays(ops, key);
  }

  /** It does differ on that day: after one insert and one purge that cuts the day, the roll-up
      still has the five seconds whose row is gone. */
  lemma CutDayDisagrees()
    ensures var data := map["process" := Text("p"), "active_sec" := Num(5.0)];
      var e := Event(0, "foreground", Some(0), data, 100);
      var ops := [Insert("m", [e], 0), Purge(Cutoffs(None, Some(1), None), {})];
      var key := UsageKey("m", 0, "p");
      CutoffsNeverGoBack(ops) && Usage(Run(ops).usage, key) == 5 && ForegroundSum(Run(ops).events, key) == 0
  {
    var data := map["process" := Text("p"), "active_sec" := Num(5.0)];
    var e := Event(0, "foreground", Some(0), data, 100);
    var c := Cutoffs(None, Some(1), None);
    var ops := [Insert("m", [e], 0), Purge(c, {})];
    var key := UsageKey("m", 0, "p");
    var db := Inserted(EMPTY_DB, "m", [e], 0);
    ForegroundEventCounts(e);
    assert ops[..1] == [Insert("m", [e], 0)] && ops[..1][..0] == [];
    assert RunFrom(EMPTY_DB, ops[..1][..0]) == EMPTY_DB;
    assert Run(ops[..1]) == db.value;
    assert Run(ops) == Purged(db.value, c, {});
    PurgeDiscrepancy(db.value, c, {}, key);
    assert [RowOf("m", e, 0)][..0] == [];
    assert Day(1) == 0;
    assert CutoffsNeverGoBack(ops[..1][..0]) && LastCutoff(ops[..1]).None?;
  }

  lemma ForegroundEventCounts(e: Event)
    requires e == Event(0, "foreground", Some(0), map["process" := Text("p"), "active_sec" := Num(5.0)], 100)
    ensures var db := Inserted(EMPTY_DB, "m", [e], 0);
      && db.Some? && db.value.events == [RowOf("m", e, 0)]
      && Usage(db.value.usage, UsageKey("m", 0, "p")) == 5
      && Contribution(RowOf("m", e, 0), UsageKey("m", 0, "p")) == 5
  {
    var row, key := RowOf("m", e, 0), UsageKey("m", 0, "p");
    ForegroundRow(e);
    BatchInsert(EMPTY_DB, "m", [e], 0);
    assert RowsOf("m", [e], 0) == [row] && [row][..0] == [];
    assert ForegroundSum([row], key) == ForegroundSum([], key) + Contribution(row, key);
  }

  lemma FieldNamesDiffer()
    ensures "process" != "active_sec" && "foreground" != "screenshot"
    ensures !HasNul("process") && !HasNul("active_sec") && !HasNul("foreground")
  {
    assert |"process"| != |"active_sec"| && "foreground"[0] != "screenshot"[0];
  }

  lemma ForegroundIsAcceptable(e: Event, data: map<string, Value>)
    requires data == map["process" := Text("p"), "active_sec" := Num(5.0)]
    requires e == Event(0, "foreground", Some(0), data, 100)
    ensures Acceptable(e)
  {
    FieldNamesDiffer();
    assert data.Keys == {"process", "active_sec"};
    assert forall k | k in data :: KeysClean(data[k]);
  }

  lemma ForegroundRow(e: Event)
    requires e == Event(0, "foreground", Some(0), map["process" := Text("p"), "active_sec" := Num(5.0)], 100)
    ensures Acceptable(e) && Contribution(RowOf("m", e, 0), UsageKey("m", 0, "p")) == 5
  {
    ForegroundIsAcceptable(e, e.data);
    FieldNamesDiffer();
    DropNulKeepsTheRest("p");
    var row := RowOf("m", e, 0);
    assert Field(row.data, "process") == Some(Stripped(Text("p"))) && Stripped(Text("p")) == Text("p");
    assert Field(row.data, "active_sec") == Some(Stripped(Num(5.0)));
  }

  /** With fixed day windows, a later purge never has an earlier cutoff. */
  lemma FixedWindowsNeverGoBack(early: int, late: int, shots: int, activity: int, security: int)
    requires early <= late
    ensures var a, b := RetentionCutoffs(early, shots, activity, security).activity,
                        RetentionCutoffs(late, shots, activity, security).activity;
      && (a.Some? <==> activity > 0) && (b.Some? <==> activity > 0)
      && (activity > 0 ==> a.value <= b.value && Day(late) - Day(b.value) == activity)
  {
    if activity > 0 {
      assert (late - activity * DAY_LENGTH) / DAY_LENGTH == late / DAY_LENGTH - activity;
    }
  }
}
