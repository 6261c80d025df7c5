/** The path of an event from the spool to the server's log, as a protocol: collectors add
    files at any moment, the drain lists, uploads, sends and removes in separate steps, and
    requests, replies, deletions and the agent itself can fail in between. */
module Pipeline {
  import opened Options
  import opened Json
  import opened Text
  import opened EventStore
  import opened AppUsage
  import opened SpoolQueue

  const EVENTS_PER_DRAIN := 500
  const BLOBS_PER_DRAIN := 50

  datatype Entry = Entry(name: string, event: Event)

  /** Where the one drain is. `Acked` has uploaded `key` but not yet deleted its file. */
  datatype Phase =
    | Idle
    | Blobs(todo: seq<string>)
    | Acked(key: string, todo: seq<string>)
    | Listed(batch: seq<Entry>)
    | Posted(batch: seq<Entry>, accepted: bool)
    | Removing(batch: seq<Entry>)

  /** The disk, the drain and the server, and below them the history of the run: what was
      added under which names, what was captured, which uids were inserted (in order, with
      repetitions), which left the log by a purge, and which blobs were deleted. */
  datatype State = State(
    machine: string,
    files: map<string, Event>,
    blobs: map<string, Blob>,
    phase: Phase,
    db: Db,
    added: seq<Event>,
    names: seq<string>,
    captured: map<string, Blob>,
    inserted: seq<nat>,
    purged: set<nat>,
    gone: set<string>)

  /** A freshly enrolled machine. */
  function Start(machine: string): State {
    State(machine, map[], map[], Idle, EMPTY_DB, [], [], map[], [], {}, {})
  }

  ghost predicate Init(s: State) { s == Start(s.machine) && !HasNul(s.machine) }

  datatype Step =
    | AddBlob(key: string, bytes: Blob)
    | AddEvent(name: string, kind: string, ts: Option<int>, data: map<string, Value>, size: nat)
    | StartDrain(keys: seq<string>)
    | SkipBlob
    | UploadBlob(stored: bool, acked: bool)
    | RemoveBlob(deleted: bool)
    | ListEvents(unreadable: set<string>, paths: seq<string>)
    | Post(arrives: bool, now: int)
    | Reply(delivered: bool)
    | RemoveEvent(deleted: bool)
    | Crash
    | RunPurge(cutoffs: Cutoffs, stuck: set<string>)
    | DeleteShot(index: nat, blobStuck: bool)

  /** The server reads at most this much of an uploaded file; the rest is dropped without an error. */
  const UPLOAD_LIMIT := 0x100_0000

  function Limited(bytes: Blob): Blob { if |bytes| <= UPLOAD_LIMIT then bytes else bytes[..UPLOAD_LIMIT] }

  /** The server reads this much of a batch; a longer one is cut, does not decode and is refused. */
  const INGEST_LIMIT := 0x80_0000

  /** What the events and the commas between them take of a request body. */
  function BodySize(events: seq<Event>): nat {
    if events == [] then 0 else BodySize(events[..|events| - 1]) + events[|events| - 1].size + 1
  }

  lemma OneEventBody(e: Event)
    ensures BodySize([e]) == e.size + 1
  {
    assert [e][..0] == [];
  }

  /** The key a blob is stored under on the server. */
  function FullKey(machine: string, key: string): string { machine + "/" + key }

  ghost predicate NamesCaptured(s: State, data: map<string, Value>) {
    exists key | key in s.captured :: AsText(Field(data, "object_key")) == Some(FullKey(s.machine, key))
  }

  /** When the code can take a step. Captures emit their event only after their blob is
      stored, under the key it is stored under; keys are hex digits and ".jpg". */
  ghost predicate Enabled(s: State, step: Step) {
    match step
    case AddBlob(key, _) => !HasNul(key)
    case AddEvent(_, kind, _, data, _) => kind == "screenshot" ==> NamesCaptured(s, data)
    case StartDrain(keys) => s.phase == Idle && OldestPrefix(s.blobs.Keys, BLOBS_PER_DRAIN, keys)
    case SkipBlob => s.phase.Blobs? && s.phase.todo != []
    case UploadBlob(stored, acked) =>
      s.phase.Blobs? && s.phase.todo != [] && s.phase.todo[0] in s.blobs && (acked ==> stored)
    case RemoveBlob(_) => s.phase.Acked?
    case ListEvents(unreadable, paths) =>
      s.phase == Blobs([]) && OldestPrefix(s.files.Keys - unreadable, EVENTS_PER_DRAIN, paths)
    case Post(_, _) => s.phase.Listed?
    case Reply(_) => s.phase.Posted?
    case RemoveEvent(_) => s.phase.Removing?
    case Crash => true
    case RunPurge(_, _) => true
    case DeleteShot(index, _) => index < |s.db.screenshots|
  }

  function Entries(files: map<string, Event>, paths: seq<string>): (batch: seq<Entry>)
    requires forall p | p in paths :: p in files
    ensures |batch| == |paths|
    ensures forall i | 0 <= i < |paths| :: batch[i] == Entry(paths[i], files[paths[i]])
  {
    seq(|paths|, i requires 0 <= i < |paths| => Entry(paths[i], files[paths[i]]))
  }

  function EventsOf(batch: seq<Entry>): (events: seq<Event>)
    ensures |events| == |batch|
    ensures forall i | 0 <= i < |batch| :: events[i] == batch[i].event
  {
    seq(|batch|, i requires 0 <= i < |batch| => batch[i].event)
  }

  function UidsOf(batch: seq<Entry>): (uids: seq<nat>)
    ensures |uids| == |batch|
    ensures forall i | 0 <= i < |batch| :: uids[i] == batch[i].event.uid
  {
    seq(|batch|, i requires 0 <= i < |batch| => batch[i].event.uid)
  }

  function LogUids(rows: seq<Row>): set<nat> { set row | row in rows :: row.uid }

  function Apply(s: State, step: Step): State
    requires Enabled(s, step)
  {
    match step
    case AddBlob(key, bytes) =>
      s.(blobs := s.blobs[key := bytes], captured := s.captured[key := bytes])
    case AddEvent(name, kind, ts, data, size) =>
      var e := Event(|s.added|, kind, ts, data, size);
      s.(files := s.files[name := e], added := s.added + [e], names := s.names + [name])
    case StartDrain(keys) =>
      s.(phase := Blobs(keys))
    case SkipBlob =>
      s.(phase := Blobs(s.phase.todo[1..]))
    case UploadBlob(stored, acked) =>
      var key := s.phase.todo[0];
      s.(db := if stored then s.db.(blobs := s.db.blobs[FullKey(s.machine, key) := Limited(s.blobs[key])]) else s.db,
         gone := if stored then s.gone - {FullKey(s.machine, key)} else s.gone,
         phase := if acked then Acked(key, s.phase.todo[1..]) else Idle)
    case RemoveBlob(deleted) =>
      s.(blobs := if deleted then s.blobs - {s.phase.key} else s.blobs, phase := Blobs(s.phase.todo))
    case ListEvents(_, paths) =>
      s.(phase := if paths == [] then Idle else Listed(Entries(s.files, paths)))
    case Post(arrives, now) =>
      var after := Inserted(s.db, s.machine, EventsOf(s.phase.batch), now);
      if arrives && BodySize(EventsOf(s.phase.batch)) <= INGEST_LIMIT && after.Some?
      then s.(db := after.value, inserted := s.inserted + UidsOf(s.phase.batch), phase := Posted(s.phase.batch, true))
      else s.(phase := Posted(s.phase.batch, false))
    case Reply(delivered) =>
      s.(phase := if s.phase.accepted && delivered then Removing(s.phase.batch) else Idle)
    case RemoveEvent(deleted) =>
      if s.phase.batch == [] then s.(phase := Idle)
      else s.(files := if deleted then s.files - {s.phase.batch[0].name} else s.files,
              phase := Removing(s.phase.batch[1..]))
    case Crash =>
      s.(phase := Idle)
    case RunPurge(c, stuck) =>
      var db := Purged(s.db, c, stuck);
      s.(db := db, purged := s.purged + (LogUids(s.db.events) - LogUids(db.events)),
         gone := s.gone + (s.db.blobs.Keys - db.blobs.Keys))
    case DeleteShot(index, stuck) =>
      var db := ShotDeleted(s.db, index, stuck);
      s.(db := db, gone := s.gone + (s.db.blobs.Keys - db.blobs.Keys))
  }

  ghost predicate ValidRun(s: State, steps: seq<Step>)
    decreases |steps|
  {
    steps == [] || (Enabled(s, steps[0]) && ValidRun(Apply(s, steps[0]), steps[1..]))
  }

  function Run(s: State, steps: seq<Step>): State
    requires ValidRun(s, steps)
    decreases |steps|
  {
    if steps == [] then s else Run(Apply(s, steps[0]), steps[1..])
  }

  /** A run can be extended by any enabled step. */
  lemma {:induction false} RunSnoc(s: State, steps: seq<Step>, step: Step)
    requires ValidRun(s, steps) && Enabled(Run(s, steps), step)
    ensures ValidRun(s, steps + [step])
    ensures Run(s, steps + [step]) == Apply(Run(s, steps), step)
    decreases |steps|
  {
    var all := steps + [step];
    if steps == [] {
      assert all[1..] == [];
      assert Run(Apply(s, all[0]), all[1..]) == Apply(s, all[0]);
    } else {
      assert all[0] == steps[0] && all[1..] == steps[1..] + [step];
      RunSnoc(Apply(s, steps[0]), steps[1..], step);
    }
  }

  lemma {:induction false} RunAppend(s: State, a: seq<Step>, b: seq<Step>)
    requires ValidRun(s, a) && ValidRun(Run(s, a), b)
    ensures ValidRun(s, a + b) && Run(s, a + b) == Run(Run(s, a), b)
    decreases |a|
  {
    if a == [] {
      assert a + b == b;
    } else {
      assert (a + b)[0] == a[0] && (a + b)[1..] == a[1..] + b;
      RunAppend(Apply(s, a[0]), a[1..], b);
    }
  }

  lemma RunOfOne(s: State, a: Step)
    requires Enabled(s, a)
    ensures ValidRun(s, [a]) && Run(s, [a]) == Apply(s, a)
  {
    var none: seq<Step> := [];
    assert [a][1..] == none;
    assert ValidRun(Apply(s, a), none) && Run(Apply(s, a), none) == Apply(s, a);
  }

  lemma RunOfTwo(s: State, a: Step, b: Step)
    requires Enabled(s, a) && Enabled(Apply(s, a), b)
    ensures ValidRun(s, [a, b]) && Run(s, [a, b]) == Apply(Apply(s, a), b)
  {
    RunOfOne(s, a);
    RunOfOne(Apply(s, a), b);
    RunAppend(s, [a], [b]);
    assert [a] + [b] == [a, b];
  }

  // --- what every run keeps ------------------------------------------------------------------

  /** A log row holds what was added, cleaned, under this machine. */
  ghost predicate Faithful(s: State, row: Row) {
    row.uid < |s.added| &&
    var e := s.added[row.uid];
    && row.machine == s.machine && row.kind == e.kind && row.data == Cleaned(e.data)
    && (e.ts.Some? ==> row.ts == e.ts.value)
  }

  function Batch(phase: Phase): seq<Entry> {
    if phase.Listed? || phase.Posted? || phase.Removing? then phase.batch else []
  }

  /** The server has taken the batch in flight. */
  predicate Answered(phase: Phase) { phase.Removing? || (phase.Posted? && phase.accepted) }

  ghost predicate History(s: State) {
    && |s.names| == |s.added|
    && (forall i | 0 <= i < |s.added| :: s.added[i].uid == i)
  }

  /** Each file holds one added event under the name it was added with. */
  ghost predicate FilesMatch(s: State)
    requires History(s)
  {
    forall n | n in s.files ::
      var uid := s.files[n].uid;
      uid < |s.added| && s.files[n] == s.added[uid] && s.names[uid] == n
  }

  /** What was inserted is what is in the log or was purged from it. */
  ghost predicate InsertedIsLogged(s: State) {
    && (forall u | u in s.inserted :: u < |s.added| && (u in LogUids(s.db.events) || u in s.purged))
    && (forall u | u in LogUids(s.db.events) || u in s.purged :: u in s.inserted)
  }

  ghost predicate WasAdded(s: State, e: Entry)
    requires History(s)
  {
    e.event.uid < |s.added| && e.event == s.added[e.event.uid] && s.names[e.event.uid] == e.name
  }

  /** A batch in flight holds added events under their own names, all different, where there
      are still files (of these events or of later ones that took their names); once the server
      has accepted it, its events are in the log. */
  ghost predicate BatchAdded(s: State)
    requires History(s)
  {
    var batch := Batch(s.phase);
    && (forall e | e in batch :: WasAdded(s, e) && e.name in s.files)
    && (forall i, j | 0 <= i < j < |batch| :: batch[i].name != batch[j].name)
    && (Answered(s.phase) ==> forall e | e in batch :: e.event.uid in s.inserted)
  }

  ghost predicate LogFaithful(s: State) { forall row | row in s.db.events :: Faithful(s, row) }

  ghost predicate BaseInv(s: State) {
    History(s) && FilesMatch(s) && InsertedIsLogged(s) && BatchAdded(s) && LogFaithful(s)
  }

  lemma {:induction false} KeepRowsShrinks(rows: seq<Row>, kinds: set<string>, before: int)
    ensures forall row | row in KeepRows(rows, kinds, before) :: row in rows
  {
    if rows == [] {
    } else {
      KeepRowsShrinks(rows[..|rows| - 1], kinds, before);
    }
  }

  lemma PurgeShrinks(db: Db, c: Cutoffs, stuck: set<string>)
    ensures forall row | row in Purged(db, c, stuck).events :: row in db.events
    ensures Purged(db, c, stuck).blobs.Keys <= db.blobs.Keys
    ensures forall k | k in Purged(db, c, stuck).blobs :: Purged(db, c, stuck).blobs[k] == db.blobs[k]
  {
    var a := PurgeActivity(db, c.activity);
    var b := PurgeSecurity(a, c.security);
    if c.activity.Some? { KeepRowsShrinks(db.events, ACTIVITY_KINDS, c.activity.value); }
    if c.security.Some? { KeepRowsShrinks(a.events, SECURITY_KINDS, c.security.value); }
    if c.screenshots.Some? { KeepRowsShrinks(b.events, {"screenshot"}, c.screenshots.value); }
  }

  lemma PostKeepsFaith(s: State, arrives: bool, now: int)
    requires BaseInv(s) && Enabled(s, Post(arrives, now))
    ensures LogFaithful(Apply(s, Post(arrives, now)))
  {
    var batch := s.phase.batch;
    var t := Apply(s, Post(arrives, now));
    BatchInsert(s.db, s.machine, EventsOf(batch), now);
    if t.phase.accepted {
      var rows := RowsOf(s.machine, EventsOf(batch), now);
      forall row | row in t.db.events ensures Faithful(t, row) {
        if row !in s.db.events {
          var i :| 0 <= i < |rows| && rows[i] == row;
          assert batch[i] in batch && row.uid == batch[i].event.uid;
        }
      }
    }
  }

  lemma PostLogsTheBatch(s: State, arrives: bool, now: int)
    requires Enabled(s, Post(arrives, now))
    ensures var t := Apply(s, Post(arrives, now));
            t.phase.accepted ==> LogUids(t.db.events) == LogUids(s.db.events) + set u | u in UidsOf(s.phase.batch)
  {
    var batch := s.phase.batch;
    var events := EventsOf(batch);
    var t := Apply(s, Post(arrives, now));
    BatchInsert(s.db, s.machine, events, now);
    if t.phase.accepted {
      var rows := RowsOf(s.machine, events, now);
      assert t.db.events == s.db.events + rows;
      forall i | 0 <= i < |batch| ensures UidsOf(batch)[i] in LogUids(t.db.events) {
        assert rows[i] in t.db.events && rows[i].uid == UidsOf(batch)[i];
      }
      forall row | row in rows ensures row.uid in UidsOf(batch) {
        var i :| 0 <= i < |rows| && rows[i] == row;
        assert row.uid == UidsOf(batch)[i];
      }
      forall row | row in s.db.events ensures row.uid in LogUids(t.db.events) {
        assert row in t.db.events;
      }
    }
  }

  lemma BatchUids(batch: seq<Entry>)
    ensures forall e | e in batch :: e.event.uid in UidsOf(batch)
    ensures forall u | u in UidsOf(batch) :: exists e :: e in batch && e.event.uid == u
  {
    forall e | e in batch ensures e.event.uid in UidsOf(batch) {
      var i :| 0 <= i < |batch| && batch[i] == e;
      assert UidsOf(batch)[i] == e.event.uid;
    }
    forall u | u in UidsOf(batch) ensures exists e :: e in batch && e.event.uid == u {
      var i :| 0 <= i < |batch| && UidsOf(batch)[i] == u;
      assert batch[i] in batch;
    }
  }

  lemma PostKeepsInserted(s: State, t: State)
    requires BaseInv(s) && t.added == s.added && t.purged == s.purged
    requires var uids := UidsOf(Batch(s.phase));
      t.inserted == s.inserted + uids && LogUids(t.db.events) == LogUids(s.db.events) + set u | u in uids
    ensures InsertedIsLogged(t)
  {
    BatchUids(Batch(s.phase));
  }

  lemma PostKeepsBatch(s: State, t: State)
    requires History(s) && BatchAdded(s) && Batch(t.phase) == Batch(s.phase)
    requires t.files == s.files && t.added == s.added && t.names == s.names
    requires forall u | u in UidsOf(Batch(s.phase)) :: u in t.inserted
    ensures History(t) && BatchAdded(t)
  {
    BatchUids(Batch(s.phase));
  }

  /** Steps that leave the log and the history alone. */
  ghost predicate SameLog(s: State, t: State) {
    && t.machine == s.machine && t.db.events == s.db.events
    && t.added == s.added && t.names == s.names && t.inserted == s.inserted && t.purged == s.purged
  }

  lemma SameLogKeeps(s: State, t: State)
    requires BaseInv(s) && SameLog(s, t)
    ensures History(t) && InsertedIsLogged(t) && LogFaithful(t)
    ensures t.files == s.files ==> FilesMatch(t)
  {
  }

  lemma PostKeepsBase(s: State, arrives: bool, now: int)
    requires BaseInv(s) && Enabled(s, Post(arrives, now))
    ensures BaseInv(Apply(s, Post(arrives, now)))
  {
    var t := Apply(s, Post(arrives, now));
    if t.phase.accepted {
      PostKeepsFaith(s, arrives, now);
      PostLogsTheBatch(s, arrives, now);
      PostKeepsInserted(s, t);
      PostKeepsBatch(s, t);
    } else {
      SameLogKeeps(s, t);
      assert Batch(t.phase) == Batch(s.phase);
    }
  }

  lemma AddEventKeepsBase(s: State, step: Step)
    requires BaseInv(s) && step.AddEvent? && Enabled(s, step)
    ensures BaseInv(Apply(s, step))
  {
  }

  lemma ListKeepsBase(s: State, step: Step)
    requires BaseInv(s) && step.ListEvents? && Enabled(s, step)
    ensures BaseInv(Apply(s, step))
  {
    var paths := step.paths;
    SameLogKeeps(s, Apply(s, step));
    forall i, j | 0 <= i < j < |paths| ensures paths[i] != paths[j] {
      LessIrreflexive(paths[i]);
    }
    forall e | e in Entries(s.files, paths) ensures WasAdded(s, e) && e.name in s.files {
      var i :| 0 <= i < |paths| && e == Entries(s.files, paths)[i];
      assert paths[i] in paths;
    }
  }

  lemma RestOfBatch(batch: seq<Entry>)
    requires batch != [] && forall i, j | 0 <= i < j < |batch| :: batch[i].name != batch[j].name
    ensures forall x | x in batch[1..] :: x in batch && x.name != batch[0].name
  {
    forall x | x in batch[1..] ensures x in batch && x.name != batch[0].name {
      var i :| 0 < i < |batch| && batch[i] == x;
    }
  }

  lemma RemoveKeepsBatch(s: State, t: State)
    requires BaseInv(s) && SameLog(s, t) && s.phase.Removing? && s.phase.batch != []
    requires t.files == s.files || t.files == s.files - {s.phase.batch[0].name}
    requires t.phase == Removing(s.phase.batch[1..])
    ensures History(t) && FilesMatch(t) && BatchAdded(t)
  {
    RestOfBatch(s.phase.batch);
  }

  lemma RemoveKeepsBase(s: State, step: Step)
    requires BaseInv(s) && step.RemoveEvent? && Enabled(s, step)
    ensures BaseInv(Apply(s, step))
  {
    var t := Apply(s, step);
    SameLogKeeps(s, t);
    if s.phase.batch != [] { RemoveKeepsBatch(s, t); }
  }

  lemma PurgeKeepsBase(s: State, step: Step)
    requires BaseInv(s) && Enabled(s, step) && step.RunPurge?
    ensures BaseInv(Apply(s, step))
  {
    PurgeShrinks(s.db, step.cutoffs, step.stuck);
  }

  lemma DeleteShotKeepsBase(s: State, step: Step)
    requires BaseInv(s) && Enabled(s, step) && step.DeleteShot?
    ensures BaseInv(Apply(s, step))
  {
    SameLogKeeps(s, Apply(s, step));
  }

  /** Steps of the drain that touch no event file. */
  predicate DrainStep(step: Step) {
    || step.AddBlob? || step.StartDrain? || step.SkipBlob? || step.UploadBlob? || step.RemoveBlob?
    || step.Reply? || step.Crash?
  }

  lemma DrainKeepsBase(s: State, step: Step)
    requires BaseInv(s) && Enabled(s, step) && DrainStep(step)
    ensures BaseInv(Apply(s, step))
  {
    var t := Apply(s, step);
    SameLogKeeps(s, t);
    assert Batch(t.phase) == Batch(s.phase) || Batch(t.phase) == [];
  }

  lemma StepKeepsBase(s: State, step: Step)
    requires BaseInv(s) && Enabled(s, step)
    ensures BaseInv(Apply(s, step))
  {
    match step
    case Post(arrives, now) => PostKeepsBase(s, arrives, now);
    case AddEvent(_, _, _, _, _) => AddEventKeepsBase(s, step);
    case ListEvents(_, _) => ListKeepsBase(s, step);
    case RemoveEvent(_) => RemoveKeepsBase(s, step);
    case RunPurge(_, _) => PurgeKeepsBase(s, step);
    case DeleteShot(_, _) => DeleteShotKeepsBase(s, step);
    case _ => DrainKeepsBase(s, step);
  }

  lemma {:induction false} RunKeepsBase(s: State, steps: seq<Step>)
    requires BaseInv(s) && ValidRun(s, steps)
    ensures BaseInv(Run(s, steps))
    decreases |steps|
  {
    if steps == [] {
    } else {
      StepKeepsBase(s, steps[0]);
      RunKeepsBase(Apply(s, steps[0]), steps[1..]);
    }
  }

  /** In every run, whatever names the added files take: each row of the log is an added event
      with its own kind, time and cleaned data, under this machine. */
  lemma LogHoldsAddedEvents(s: State, steps: seq<Step>)
    requires Init(s) && ValidRun(s, steps)
    ensures LogFaithful(Run(s, steps))
  {
    RunKeepsBase(s, steps);
  }

  // --- no event is lost --------------------------------------------------------------------

  /** The event with this uid is a spool file, or a row of the log, or was purged from it. */
  ghost predicate Kept(s: State, uid: nat)
    requires uid < |s.added|
  {
    || (exists n | n in s.files :: s.files[n] == s.added[uid])
    || uid in LogUids(s.db.events)
    || uid in s.purged
  }

  ghost predicate AllKept(s: State) { forall uid | 0 <= uid < |s.added| :: Kept(s, uid) }

  ghost predicate Filed(s: State, uid: nat)
    requires History(s) && uid < |s.added|
  {
    s.names[uid] in s.files && s.files[s.names[uid]].uid == uid
  }

  lemma KeptIffFiledOrInserted(s: State, uid: nat)
    requires BaseInv(s) && uid < |s.added|
    ensures Kept(s, uid) <==> Filed(s, uid) || uid in s.inserted
  {
    if Filed(s, uid) {
      assert s.files[s.names[uid]] == s.added[uid];
    }
  }

  /** The batch in flight has an entry of this name. */
  ghost predicate InBatch(s: State, name: string) { exists e :: e in Batch(s.phase) && e.name == name }

  /** A batch in flight still pairs each event with its own file. */
  ghost predicate BatchClean(s: State) {
    forall e | e in Batch(s.phase) :: e.name in s.files && s.files[e.name] == e.event
  }

  /** An added file takes a free name, or that of a file whose event the server has and that
      is not in the batch in flight (so is not about to be removed under its new content). */
  ghost predicate Safe(s: State, step: Step) {
    step.AddEvent? && step.name in s.files ==> s.files[step.name].uid in s.inserted && !InBatch(s, step.name)
  }

  ghost predicate SafeRun(s: State, steps: seq<Step>)
    requires ValidRun(s, steps)
    decreases |steps|
  {
    steps == [] || (Safe(s, steps[0]) && SafeRun(Apply(s, steps[0]), steps[1..]))
  }

  ghost predicate FileOrInserted(s: State)
    requires History(s)
  {
    forall u | 0 <= u < |s.added| :: Filed(s, u) || u in s.inserted
  }

  ghost predicate EventInv(s: State) { BaseInv(s) && FileOrInserted(s) && BatchClean(s) }

  lemma AddEventKeepsFiled(s: State, step: Step)
    requires EventInv(s) && step.AddEvent? && Enabled(s, step) && Safe(s, step)
    ensures var t := Apply(s, step); History(t) && FileOrInserted(t) && BatchClean(t)
  {
    var t := Apply(s, step);
    forall e | e in Batch(t.phase) ensures e.name in t.files && t.files[e.name] == e.event {
      if e.name == step.name { assert InBatch(s, step.name); }
    }
  }

  lemma RemoveKeepsFiled(s: State, step: Step)
    requires EventInv(s) && step.RemoveEvent? && Enabled(s, step)
    ensures var t := Apply(s, step); History(t) && FileOrInserted(t) && BatchClean(t)
  {
    if s.phase.batch != [] {
      var e := s.phase.batch[0];
      RestOfBatch(s.phase.batch);
      assert e in s.phase.batch;
      forall u | 0 <= u < |s.added| && u !in s.inserted ensures s.names[u] != e.name {
        assert s.files[s.names[u]].uid == u && s.files[e.name].uid == e.event.uid;
      }
    }
  }

  lemma ListKeepsClean(s: State, step: Step)
    requires step.ListEvents? && Enabled(s, step)
    ensures BatchClean(Apply(s, step))
  {
    var paths := step.paths;
    forall e | e in Entries(s.files, paths) ensures e.name in s.files && s.files[e.name] == e.event {
      var i :| 0 <= i < |paths| && e == Entries(s.files, paths)[i];
      assert paths[i] in paths;
    }
  }

  /** Files and batch stay, and nothing leaves what was inserted. */
  ghost predicate FilesStay(s: State, t: State) {
    && t.files == s.files && t.added == s.added && t.names == s.names && s.inserted <= t.inserted
    && (Batch(t.phase) == Batch(s.phase) || Batch(t.phase) == [])
  }

  lemma PostLeavesFiles(s: State, step: Step)
    requires step.Post? && Enabled(s, step)
    ensures FilesStay(s, Apply(s, step))
  {
  }

  lemma OtherStepLeavesFiles(s: State, step: Step)
    requires Enabled(s, step) && (step.RunPurge? || step.DeleteShot? || DrainStep(step))
    ensures FilesStay(s, Apply(s, step))
  {
  }

  lemma StepKeepsEventInv(s: State, step: Step)
    requires EventInv(s) && Enabled(s, step) && Safe(s, step)
    ensures EventInv(Apply(s, step))
  {
    StepKeepsBase(s, step);
    match step
    case AddEvent(_, _, _, _, _) => AddEventKeepsFiled(s, step);
    case RemoveEvent(_) => RemoveKeepsFiled(s, step);
    case ListEvents(_, _) => ListKeepsClean(s, step);
    case Post(_, _) => PostLeavesFiles(s, step);
    case _ => OtherStepLeavesFiles(s, step);
  }

  lemma {:induction false} RunKeepsEventInv(s: State, steps: seq<Step>)
    requires EventInv(s) && ValidRun(s, steps) && SafeRun(s, steps)
    ensures EventInv(Run(s, steps))
    decreases |steps|
  {
    if steps == [] {
    } else {
      StepKeepsEventInv(s, steps[0]);
      RunKeepsEventInv(Apply(s, steps[0]), steps[1..]);
    }
  }

  /** In every run of adds, interleaved drain steps, failed and lost requests and replies,
      failed deletions, crashes, purges and deletions: every event ever added is a spool file,
      or in the server's log, or was purged from it. */
  lemma NoEventIsLost(s: State, steps: seq<Step>)
    requires Init(s) && ValidRun(s, steps) && SafeRun(s, steps)
    ensures AllKept(Run(s, steps))
  {
    RunKeepsEventInv(s, steps);
    var t := Run(s, steps);
    forall uid | 0 <= uid < |t.added| ensures Kept(t, uid) {
      KeptIffFiledOrInserted(t, uid);
    }
  }
}
