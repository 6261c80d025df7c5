/** The server's event log and the tables derived from it: batch insert, the app_usage
    roll-up, screenshot metadata, and the retention purge that trims all of them. */
module EventStore {
  import opened Options
  import opened Json

  // --- tables ---------------------------------------------------------------------------

  /** An event on the wire. `uid` names the emission it comes from; no code reads it, it only
      lets properties speak of "the same event". `ts` is None for Go's zero time; `size` is the
      length of the event's JSON form in bytes. */
  datatype Event = Event(uid: nat, kind: string, ts: Option<int>, data: map<string, Value>, size: nat)

  datatype Row = Row(uid: nat, machine: string, ts: int, kind: string, data: map<string, Value>)

  datatype Shot = Shot(machine: string, ts: int, objectKey: string,
                       width: Option<int>, height: Option<int>, bytes: Option<int>, format: Option<string>)

  datatype UsageKey = UsageKey(machine: string, day: int, process: string)

  type Blob = seq<bv8>

  /** `blobs` is the server's object store. */
  datatype Db = Db(events: seq<Row>, screenshots: seq<Shot>, usage: map<UsageKey, int>, blobs: map<string, Blob>)

  const EMPTY_DB := Db([], [], map[], map[])

  /** Timestamps are microseconds; a timestamptz is cast to a date by one day function. */
  const DAY_LENGTH := 86_400_000_000

  function Day(ts: int): int { ts / DAY_LENGTH }

  // --- coercions of decoded JSON --------------------------------------------------------

  function Field(data: map<string, Value>, name: string): Option<Value> {
    if name in data then Some(data[name]) else None
  }

  /** str: a string, or SQL NULL. */
  function AsText(v: Option<Value>): Option<string> {
    match v
    case Some(Text(s)) => Some(s)
    case _ => None
  }

  /** Go converts a float to an integer by dropping the fraction. */
  function Truncated(r: real): int { if r >= 0.0 then r.Floor else -((-r).Floor) }

  /** The result lies between zero and the number, less than one away from it, whatever its sign. */
  lemma TruncatedIsTowardsZero(r: real)
    ensures r >= 0.0 ==> 0 <= Truncated(r) && Truncated(r) as real <= r < Truncated(r) as real + 1.0
    ensures r <= 0.0 ==> Truncated(r) <= 0 && Truncated(r) as real - 1.0 < r <= Truncated(r) as real
  {
    var up := (-r).Floor;
    assert up as real <= -r < up as real + 1.0;
    assert (-up) as real == -(up as real);
  }

  /** num: an integer, or SQL NULL. */
  function AsInt(v: Option<Value>): Option<int> {
    match v
    case Some(Num(r)) => Some(Truncated(r))
    case _ => None
  }

  // --- batch insert ---------------------------------------------------------------------

  datatype Stmt =
    | InsertEvent(row: Row)
    | InsertShot(machine: string, ts: int, objectKey: Option<string>,
                 width: Option<int>, height: Option<int>, bytes: Option<int>, format: Option<string>)
    | AddUsage(machine: string, day: int, process: Option<string>, activeSec: Option<int>)

  function Cleaned(data: map<string, Value>): map<string, Value> {
    map k | k in data :: Stripped(data[k])
  }

  /** The row an event becomes; an event without a timestamp gets the server's clock. */
  function RowOf(machine: string, e: Event, now: int): Row {
    Row(e.uid, machine, e.ts.GetOr(now), e.kind, Cleaned(e.data))
  }

  function StmtsOf(row: Row): seq<Stmt> {
    [InsertEvent(row)] +
    (if row.kind == "screenshot" then
       [InsertShot(row.machine, row.ts, AsText(Field(row.data, "object_key")), AsInt(Field(row.data, "width")),
                   AsInt(Field(row.data, "height")), AsInt(Field(row.data, "bytes")),
                   AsText(Field(row.data, "format")))]
     else if row.kind == "foreground" then
       [AddUsage(row.machine, Day(row.ts), AsText(Field(row.data, "process")), AsInt(Field(row.data, "active_sec")))]
     else [])
  }

  function Statements(machine: string, events: seq<Event>, now: int): seq<Stmt> {
    if events == [] then []
    else Statements(machine, events[..|events| - 1], now) + StmtsOf(RowOf(machine, events[|events| - 1], now))
  }

  function Usage(usage: map<UsageKey, int>, key: UsageKey): int {
    if key in usage then usage[key] else 0
  }

  /** One statement; None is a constraint violation (NULL in a NOT NULL column, NUL in text). */
  function Execute(db: Db, s: Stmt): Option<Db> {
    match s
    case InsertEvent(row) =>
      if HasNul(row.kind) || !JsonbAccepts(Obj(row.data)) then None
      else Some(db.(events := db.events + [row]))
    case InsertShot(machine, ts, key, width, height, bytes, format) =>
      if key.None? then None
      else Some(db.(screenshots := db.screenshots + [Shot(machine, ts, key.value, width, height, bytes, format)]))
    case AddUsage(machine, day, process, sec) =>
      if process.None? || sec.None? then None
      else
        var key := UsageKey(machine, day, process.value);
        Some(db.(usage := db.usage[key := Usage(db.usage, key) + sec.value]))
  }

  function ExecuteAll(db: Db, stmts: seq<Stmt>): Option<Db> {
    if stmts == [] then Some(db)
    else
      var before := ExecuteAll(db, stmts[..|stmts| - 1]);
      if before.None? then None else Execute(before.value, stmts[|stmts| - 1])
  }

  /** InsertEvents: the whole batch in one implicit transaction, or nothing. */
  function Inserted(db: Db, machine: string, events: seq<Event>, now: int): Option<Db> {
    ExecuteAll(db, Statements(machine, events, now))
  }

  // --- retention ------------------------------------------------------------------------

  /** None keeps the class forever. */
  datatype Cutoffs = Cutoffs(screenshots: Option<int>, activity: Option<int>, security: Option<int>)

  function Cutoff(now: int, days: int): Option<int> {
    if days <= 0 then None else Some(now - days * DAY_LENGTH)
  }

  function RetentionCutoffs(now: int, screenshotsDays: int, activityDays: int, securityDays: int): Cutoffs {
    Cutoffs(Cutoff(now, screenshotsDays), Cutoff(now, activityDays), Cutoff(now, securityDays))
  }

  const ACTIVITY_KINDS := {"foreground", "dns", "netflow", "download"}
  const SECURITY_KINDS := {"usb", "printjob", "install", "posture", "seclog"}

  /** DELETE FROM events WHERE kind = ANY(kinds) AND ts < before */
  function KeepRows(rows: seq<Row>, kinds: set<string>, before: int): seq<Row> {
    if rows == [] then []
    else
      var last := rows[|rows| - 1];
      var kept := KeepRows(rows[..|rows| - 1], kinds, before);
      if last.kind in kinds && last.ts < before then kept else kept + [last]
  }

  function KeepShots(shots: seq<Shot>, before: int): seq<Shot> {
    if shots == [] then []
    else
      var last := shots[|shots| - 1];
      var kept := KeepShots(shots[..|shots| - 1], before);
      if last.ts < before then kept else kept + [last]
  }

  function StaleKeys(shots: seq<Shot>, before: int): set<string> {
    set s | s in shots && s.ts < before :: s.objectKey
  }

  function PurgeActivity(db: Db, before: Option<int>): Db {
    if before.None? then db
    else db.(events := KeepRows(db.events, ACTIVITY_KINDS, before.value),
             usage := map k | k in db.usage && k.day >= Day(before.value) :: db.usage[k])
  }

  function PurgeSecurity(db: Db, before: Option<int>): Db {
    if before.None? then db else db.(events := KeepRows(db.events, SECURITY_KINDS, before.value))
  }

  /** `stuck` holds the keys whose blob cannot be deleted; their rows go all the same. */
  function PurgeScreenshots(db: Db, before: Option<int>, stuck: set<string>): Db {
    if before.None? then db
    else db.(events := KeepRows(db.events, {"screenshot"}, before.value),
             screenshots := KeepShots(db.screenshots, before.value),
             blobs := db.blobs - (StaleKeys(db.screenshots, before.value) - stuck))
  }

  function Purged(db: Db, c: Cutoffs, stuck: set<string>): Db {
    PurgeScreenshots(PurgeSecurity(PurgeActivity(db, c.activity), c.security), c.screenshots, stuck)
  }

  /** Deletes one screenshot row and, best effort, its blob. The event row stays. */
  function ShotDeleted(db: Db, index: nat, stuck: bool): Db
    requires index < |db.screenshots|
  {
    db.(screenshots := db.screenshots[..index] + db.screenshots[index + 1..],
        blobs := if stuck then db.blobs else db.blobs - {db.screenshots[index].objectKey})
  }

  // --- the store as the server runs it ---------------------------------------------------

  /** How many rows a purge removed from each table. */
  datatype PurgeResult = PurgeResult(events: int, screenshots: int, usage: int)

  class Store {
    var events: seq<Row>
    var screenshots: seq<Shot>
    var usage: map<UsageKey, int>
    var blobs: map<string, Blob>

    ghost function View(): Db
      reads this
    {
      Db(events, screenshots, usage, blobs)
    }

    constructor ()
      ensures View() == EMPTY_DB
    {
      events, screenshots, usage, blobs := [], [], map[], map[];
    }

    /** Cleans each event's data and queues its statements. */
    method Queue(machine: string, batch: seq<Event>, now: int) returns (queue: seq<Stmt>)
      ensures queue == Statements(machine, batch, now)
    {
      queue := [];
      for i := 0 to |batch|
        invariant queue == Statements(machine, batch[..i], now)
      {
        assert batch[..i + 1][..i] == batch[..i];
        var e := batch[i];
        var data := StripFields(Obj(e.data));
        var ts := if e.ts.None? then now else e.ts.value;
        assert data == Cleaned(e.data) && batch[..i + 1][i] == e;
        queue := queue + StmtsOf(Row(e.uid, machine, ts, e.kind, data));
      }
      assert batch[..|batch|] == batch;
    }

    /** Runs the queue in one transaction: the first failing statement undoes all of it. */
    method SendBatch(queue: seq<Stmt>) returns (ok: bool)
      modifies this
      ensures ok <==> ExecuteAll(old(View()), queue).Some?
      ensures View() == ExecuteAll(old(View()), queue).GetOr(old(View()))
    {
      var tx := Db(events, screenshots, usage, blobs);
      assert queue[..0] == [];
      for i := 0 to |queue|
        invariant View() == old(View())
        invariant ExecuteAll(old(View()), queue[..i]) == Some(tx)
      {
        assert queue[..i + 1][..i] == queue[..i];
        var next := Execute(tx, queue[i]);
        if next.None? {
          FailureSticks(old(View()), queue, i + 1);
          return false;
        }
        tx := next.value;
      }
      assert queue[..|queue|] == queue;
      events, screenshots, usage, blobs := tx.events, tx.screenshots, tx.usage, tx.blobs;
      ok := true;
    }

    /** Returns how many events were accepted, or None when the transaction rolled back. */
    method InsertEvents(machine: string, batch: seq<Event>, now: int) returns (accepted: Option<nat>)
      modifies this
      ensures var after := Inserted(old(View()), machine, batch, now);
        && accepted == (if after.Some? then Some(|batch|) else None)
        && View() == after.GetOr(old(View()))
    {
      if |batch| == 0 {
        return Some(0);
      }
      var queue := Queue(machine, batch, now);
      var ok := SendBatch(queue);
      accepted := if ok then Some(|batch|) else None;
    }

    /** Purge as one step: activity, then security, then screenshots with their blobs. The
        counters say how many rows each table lost. */
    method Purge(c: Cutoffs, stuck: set<string>) returns (res: PurgeResult)
      modifies this
      ensures View() == Purged(old(View()), c, stuck)
      ensures res == PurgeResult(|old(events)| - |events|, |old(screenshots)| - |screenshots|, |old(usage)| - |usage|)
    {
      res := PurgeResult(0, 0, 0);
      if c.activity.Some? {
        var n, m := DeleteActivity(c.activity.value);
        res := res.(events := n, usage := m);
      }
      if c.security.Some? {
        var n := DeleteKinds(SECURITY_KINDS, c.security.value);
        res := res.(events := res.events + n);
      }
      if c.screenshots.Some? {
        var gone := DeleteScreenshots(c.screenshots.value, stuck);
        var n := DeleteKinds({"screenshot"}, c.screenshots.value);
        res := res.(events := res.events + n, screenshots := gone);
      }
    }

    method DeleteActivity(before: int) returns (removed: int, days: int)
      modifies this`events, this`usage
      ensures View() == PurgeActivity(old(View()), Some(before))
      ensures removed == |old(events)| - |events| && days == |old(usage)| - |usage|
    {
      removed := DeleteKinds(ACTIVITY_KINDS, before);
      var kept := map k | k in usage && k.day >= Day(before) :: usage[k];
      days := |usage| - |kept|;
      usage := kept;
    }

    /** Deletes one screenshot row and then, errors ignored, the blob it names. */
    method DeleteScreenshot(index: nat, stuck: bool)
      requires index < |screenshots|
      modifies this`screenshots, this`blobs
      ensures View() == ShotDeleted(old(View()), index, stuck)
    {
      var key := screenshots[index].objectKey;
      screenshots := screenshots[..index] + screenshots[index + 1..];
      if !stuck {
        blobs := blobs - {key};
      }
    }

    method DeleteKinds(kinds: set<string>, before: int) returns (removed: int)
      modifies this`events
      ensures events == KeepRows(old(events), kinds, before)
      ensures removed == |old(events)| - |events|
    {
      var kept: seq<Row> := [];
      for i := 0 to |events|
        invariant events == old(events)
        invariant kept == KeepRows(events[..i], kinds, before)
      {
        assert events[..i + 1][..i] == events[..i];
        if !(events[i].kind in kinds && events[i].ts < before) {
          kept := kept + [events[i]];
        }
      }
      assert events[..|events|] == events;
      removed := |events| - |kept|;
      events := kept;
    }

    /** Blobs first, one key at a time, errors ignored; then the rows. */
    method DeleteScreenshots(before: int, stuck: set<string>) returns (removed: int)
      modifies this`screenshots, this`blobs
      ensures removed == |old(screenshots)| - |screenshots|
      ensures screenshots == KeepShots(old(screenshots), before)
      ensures blobs == old(blobs) - (StaleKeys(old(screenshots), before) - stuck)
    {
      var keys: seq<string> := [];
      var kept: seq<Shot> := [];
      for i := 0 to |screenshots|
        invariant screenshots == old(screenshots)
        invariant kept == KeepShots(screenshots[..i], before)
        invariant forall k :: k in keys <==> k in StaleKeys(screenshots[..i], before)
      {
        var shot := screenshots[i];
        assert screenshots[..i + 1] == screenshots[..i] + [shot];
        if shot.ts < before {
          keys := keys + [shot.objectKey];
        } else {
          kept := kept + [shot];
        }
      }
      assert screenshots[..|screenshots|] == screenshots;
      for i := 0 to |keys|
        invariant screenshots == old(screenshots)
        invariant blobs == old(blobs) - ((set k | k in keys[..i]) - stuck)
      {
        assert keys[..i + 1] == keys[..i] + [keys[i]];
        if keys[i] !in stuck {
          blobs := blobs - {keys[i]};
        }
      }
      assert keys[..|keys|] == keys;
      assert StaleKeys(screenshots, before) == set k | k in keys;
      removed := |screenshots| - |kept|;
      screenshots := kept;
    }
  }

  /** Once a statement has failed, the transaction fails. */
  lemma {:induction false} FailureSticks(db: Db, stmts: seq<Stmt>, n: nat)
    requires n <= |stmts| && ExecuteAll(db, stmts[..n]).None?
    ensures ExecuteAll(db, stmts).None?
    decreases |stmts|
  {
    if n == |stmts| {
      assert stmts[..n] == stmts;
    } else {
      assert stmts[..|stmts| - 1][..n] == stmts[..n];
      FailureSticks(db, stmts[..|stmts| - 1], n);
    }
  }
}
