/** Screenshot events never point at nothing: the blob an event names is in the spool or on
    the server until it is purged or deleted there. */
module Screenshots {
  import opened Options
  import opened Json
  import opened EventStore
  import opened Pipeline
  import AppUsage

  lemma FullKeyInjective(machine: string, a: string, b: string)
    requires FullKey(machine, a) == FullKey(machine, b)
    ensures a == b
  {
    var n := |machine + "/"|;
    assert (machine + "/" + a)[n..] == a && (machine + "/" + b)[n..] == b;
  }

  /** What an event's data says its blob is called. */
  function BlobKey(data: map<string, Value>): Option<string> { AsText(Field(data, "object_key")) }

  /** The blob captured under this key is somewhere it can be seen, or was deleted. */
  ghost predicate Available(s: State, key: string) {
    key in s.blobs || FullKey(s.machine, key) in s.db.blobs || FullKey(s.machine, key) in s.gone
  }

  /** A screenshot event (or the row it became) names a captured key. */
  ghost predicate NamesAKey(s: State, kind: string, data: map<string, Value>) {
    kind == "screenshot" ==> NamesCaptured(s, data)
  }

  ghost predicate AddedNameKeys(s: State) { forall e | e in s.added :: NamesAKey(s, e.kind, e.data) }

  ghost predicate CapturedAvailable(s: State) { forall key | key in s.captured :: Available(s, key) && !HasNul(key) }

  ghost predicate AckedStored(s: State) {
    s.phase.Acked? ==> FullKey(s.machine, s.phase.key) in s.db.blobs || FullKey(s.machine, s.phase.key) in s.gone
  }

  ghost predicate SpoolCaptured(s: State) { forall key | key in s.blobs :: key in s.captured }

  ghost predicate IsCapturedKey(s: State, full: string) {
    exists key | key in s.captured :: full == FullKey(s.machine, key)
  }

  /** The server's objects and screenshot rows are all named by captured keys. */
  ghost predicate ServerKeys(s: State) {
    && (forall full | full in s.db.blobs :: IsCapturedKey(s, full))
    && (forall shot | shot in s.db.screenshots :: IsCapturedKey(s, shot.objectKey))
  }

  ghost predicate BlobInv(s: State) {
    && !HasNul(s.machine) && AddedNameKeys(s) && CapturedAvailable(s) && AckedStored(s)
    && SpoolCaptured(s) && ServerKeys(s)
  }

  lemma CapturesKeepNames(s: State, t: State)
    requires t.machine == s.machine && s.captured.Keys <= t.captured.Keys
    ensures forall kind, data | NamesAKey(s, kind, data) :: NamesAKey(t, kind, data)
    ensures forall full | IsCapturedKey(s, full) :: IsCapturedKey(t, full)
  {
    forall kind, data | NamesAKey(s, kind, data) ensures NamesAKey(t, kind, data) {
      if kind == "screenshot" {
        var key :| key in s.captured && AsText(Field(data, "object_key")) == Some(FullKey(s.machine, key));
        assert key in t.captured;
      }
    }
    forall full | IsCapturedKey(s, full) ensures IsCapturedKey(t, full) {
      var key :| key in s.captured && full == FullKey(s.machine, key);
      assert key in t.captured;
    }
  }

  /** Cleaning an event's data does not touch the key it names. */
  lemma CleaningKeepsKey(s: State, data: map<string, Value>)
    requires BlobInv(s) && NamesCaptured(s, data)
    ensures NamesCaptured(s, Cleaned(data)) && BlobKey(Cleaned(data)) == BlobKey(data)
  {
    var key :| key in s.captured && AsText(Field(data, "object_key")) == Some(FullKey(s.machine, key));
    var full := FullKey(s.machine, key);
    assert !HasNul(full) by {
      assert !HasNul(s.machine) && !HasNul(key) && !HasNul("/");
    }
    DropNulKeepsTheRest(full);
    assert Field(data, "object_key") == Some(Text(full));
    assert Field(Cleaned(data), "object_key") == Some(Text(full));
  }

  lemma {:induction false} ShotsNameKeys(s: State, rows: seq<Row>)
    requires forall row | row in rows :: NamesAKey(s, row.kind, row.data)
    ensures forall shot | shot in AppUsage.ShotsOf(rows) :: IsCapturedKey(s, shot.objectKey)
  {
    if rows == [] {
    } else {
      assert rows[|rows| - 1] in rows;
      ShotsNameKeys(s, rows[..|rows| - 1]);
    }
  }

  /** The rows of a batch name the keys its events named. */
  lemma BatchRowsNameKeys(s: State, now: int)
    requires BaseInv(s) && BlobInv(s)
    ensures forall row | row in AppUsage.RowsOf(s.machine, EventsOf(Batch(s.phase)), now) ::
      NamesAKey(s, row.kind, row.data)
  {
    var batch := Batch(s.phase);
    var rows := AppUsage.RowsOf(s.machine, EventsOf(batch), now);
    forall row | row in rows ensures NamesAKey(s, row.kind, row.data) {
      var i :| 0 <= i < |rows| && rows[i] == row;
      var e := batch[i];
      assert e in batch && WasAdded(s, e);
      if row.kind == "screenshot" {
        CleaningKeepsKey(s, e.event.data);
      }
    }
  }

  lemma PostKeepsBlobInv(s: State, arrives: bool, now: int)
    requires BaseInv(s) && BlobInv(s) && Enabled(s, Post(arrives, now))
    ensures BlobInv(Apply(s, Post(arrives, now)))
  {
    var events := EventsOf(s.phase.batch);
    var t := Apply(s, Post(arrives, now));
    CapturesKeepNames(s, t);
    AppUsage.BatchInsert(s.db, s.machine, events, now);
    if t.phase.accepted {
      BatchRowsNameKeys(s, now);
      var rows := AppUsage.RowsOf(s.machine, events, now);
      ShotsNameKeys(s, rows);
      assert t.db.screenshots == s.db.screenshots + AppUsage.ShotsOf(rows) && t.db.blobs == s.db.blobs;
    }
  }

  lemma {:induction false} SurvivorsAreNotStale(shots: seq<Shot>, before: int)
    ensures forall shot | shot in KeepShots(shots, before) :: shot in shots && shot.ts >= before
  {
    if shots == [] {
    } else {
      SurvivorsAreNotStale(shots[..|shots| - 1], before);
    }
  }

  lemma PurgeKeepsBlobInv(s: State, step: Step)
    requires BlobInv(s) && Enabled(s, step) && step.RunPurge?
    ensures BlobInv(Apply(s, step))
  {
    var t := Apply(s, step);
    CapturesKeepNames(s, t);
    PurgeShrinks(s.db, step.cutoffs, step.stuck);
    if step.cutoffs.screenshots.Some? {
      SurvivorsAreNotStale(s.db.screenshots, step.cutoffs.screenshots.value);
    }
    assert forall shot | shot in t.db.screenshots :: shot in s.db.screenshots;
  }

  lemma DeletionKeepsBlobInv(s: State, step: Step)
    requires BlobInv(s) && Enabled(s, step) && step.DeleteShot?
    ensures BlobInv(Apply(s, step))
  {
    var t := Apply(s, step);
    CapturesKeepNames(s, t);
    assert forall shot | shot in t.db.screenshots :: shot in s.db.screenshots;
  }

  lemma CaptureKeepsBlobInv(s: State, step: Step)
    requires BlobInv(s) && step.AddBlob? && Enabled(s, step)
    ensures BlobInv(Apply(s, step))
  {
    CapturesKeepNames(s, Apply(s, step));
  }

  lemma UploadKeepsBlobInv(s: State, step: Step)
    requires BlobInv(s) && step.UploadBlob? && Enabled(s, step)
    ensures BlobInv(Apply(s, step))
  {
    CapturesKeepNames(s, Apply(s, step));
  }

  lemma AddEventKeepsBlobInv(s: State, step: Step)
    requires BlobInv(s) && Enabled(s, step) && step.AddEvent?
    ensures BlobInv(Apply(s, step))
  {
    CapturesKeepNames(s, Apply(s, step));
  }

  lemma RemoveBlobKeepsBlobInv(s: State, step: Step)
    requires BlobInv(s) && Enabled(s, step) && step.RemoveBlob?
    ensures BlobInv(Apply(s, step))
  {
    CapturesKeepNames(s, Apply(s, step));
  }

  /** Steps that touch no blob, row, event or capture. */
  lemma QuietKeepsBlobInv(s: State, t: State)
    requires BlobInv(s)
    requires t.machine == s.machine && t.blobs == s.blobs && t.db == s.db && t.gone == s.gone
    requires t.added == s.added && t.captured == s.captured && !t.phase.Acked?
    ensures BlobInv(t)
  {
    CapturesKeepNames(s, t);
  }

  lemma DrainKeepsBlobInv(s: State, step: Step)
    requires BlobInv(s) && Enabled(s, step)
    requires step.StartDrain? || step.SkipBlob? || step.ListEvents? || step.Reply? || step.Crash?
    ensures BlobInv(Apply(s, step))
  {
    QuietKeepsBlobInv(s, Apply(s, step));
  }

  lemma RemoveEventKeepsBlobInv(s: State, step: Step)
    requires BlobInv(s) && Enabled(s, step) && step.RemoveEvent?
    ensures BlobInv(Apply(s, step))
  {
    QuietKeepsBlobInv(s, Apply(s, step));
  }

  lemma {:induction false} StepKeepsBlobInv(s: State, step: Step)
    requires BaseInv(s) && BlobInv(s) && Enabled(s, step)
    ensures BlobInv(Apply(s, step))
  {
    match step
    case Post(arrives, now) => PostKeepsBlobInv(s, arrives, now);
    case RunPurge(_, _) => PurgeKeepsBlobInv(s, step);
    case DeleteShot(_, _) => DeletionKeepsBlobInv(s, step);
    case AddBlob(_, _) => CaptureKeepsBlobInv(s, step);
    case UploadBlob(_, _) => UploadKeepsBlobInv(s, step);
    case AddEvent(_, _, _, _, _) => AddEventKeepsBlobInv(s, step);
    case RemoveBlob(_) => RemoveBlobKeepsBlobInv(s, step);
    case RemoveEvent(_) => RemoveEventKeepsBlobInv(s, step);
    case _ => DrainKeepsBlobInv(s, step);
  }

  lemma {:induction false} RunKeepsBlobInv(s: State, steps: seq<Step>)
    requires BaseInv(s) && BlobInv(s) && ValidRun(s, steps)
    ensures BaseInv(Run(s, steps)) && BlobInv(Run(s, steps))
    decreases |steps|
  {
    if steps == [] {
    } else {
      StepKeepsBlobInv(s, steps[0]);
      StepKeepsBase(s, steps[0]);
      RunKeepsBlobInv(Apply(s, steps[0]), steps[1..]);
    }
  }

  /** The blob with this server key waits in the spool, or is on the server, or was purged or
      deleted there. */
  ghost predicate Resolves(s: State, full: string) {
    || (exists key | key in s.blobs :: full == FullKey(s.machine, key))
    || full in s.db.blobs
    || full in s.gone
  }

  /** In every reachable state (any backlog, any file names, captures between any two drain steps,
      failures and crashes anywhere), each screenshot event in the spool, in flight or on the server, and
      each screenshot row, names a blob that resolves. */
  lemma NoDanglingScreenshot(s: State, steps: seq<Step>)
    requires Init(s) && ValidRun(s, steps)
    ensures var t := Run(s, steps);
      && (forall n | n in t.files && t.files[n].kind == "screenshot" ::
            BlobKey(t.files[n].data).Some? && Resolves(t, BlobKey(t.files[n].data).value))
      && (forall row | row in t.db.events && row.kind == "screenshot" ::
            BlobKey(row.data).Some? && Resolves(t, BlobKey(row.data).value))
      && (forall shot | shot in t.db.screenshots :: Resolves(t, shot.objectKey))
  {
    RunKeepsBlobInv(s, steps);
    var t := Run(s, steps);
    forall full | IsCapturedKey(t, full) ensures Resolves(t, full) {}
    forall n | n in t.files && t.files[n].kind == "screenshot"
      ensures BlobKey(t.files[n].data).Some? && Resolves(t, BlobKey(t.files[n].data).value)
    {
      assert t.added[t.files[n].uid] in t.added;
    }
    forall row | row in t.db.events && row.kind == "screenshot"
      ensures BlobKey(row.data).Some? && Resolves(t, BlobKey(row.data).value)
    {
      assert t.added[row.uid] in t.added;
      CleaningKeepsKey(t, t.added[row.uid].data);
    }
  }

  // --- the right blob ------------------------------------------------------------------------

  /** Random keys do not repeat within a run. */
  ghost predicate NewKey(s: State, step: Step) { step.AddBlob? ==> step.key !in s.captured }

  ghost predicate NewKeys(s: State, steps: seq<Step>)
    requires ValidRun(s, steps)
    decreases |steps|
  {
    steps == [] || (NewKey(s, steps[0]) && NewKeys(Apply(s, steps[0]), steps[1..]))
  }

  /** In the spool a captured blob has the bytes that were captured; on the server it has as
      many of them as one upload holds. */
  ghost predicate RightBytes(s: State) {
    && (forall key | key in s.blobs :: key in s.captured && s.blobs[key] == s.captured[key])
    && (forall key | key in s.captured && FullKey(s.machine, key) in s.db.blobs ::
          s.db.blobs[FullKey(s.machine, key)] == Limited(s.captured[key]))
  }

  lemma CaptureKeepsRightBytes(s: State, step: Step)
    requires BlobInv(s) && RightBytes(s) && step.AddBlob? && Enabled(s, step) && NewKey(s, step)
    ensures RightBytes(Apply(s, step))
  {
    var full := FullKey(s.machine, step.key);
    if full in s.db.blobs {
      var other :| other in s.captured && full == FullKey(s.machine, other);
      FullKeyInjective(s.machine, step.key, other);
    }
  }

  lemma UploadKeepsRightBytes(s: State, step: Step)
    requires RightBytes(s) && step.UploadBlob? && Enabled(s, step)
    ensures RightBytes(Apply(s, step))
  {
    var t, up := Apply(s, step), s.phase.todo[0];
    forall key | key in t.captured && FullKey(t.machine, key) in t.db.blobs
      ensures t.db.blobs[FullKey(t.machine, key)] == Limited(t.captured[key])
    {
      if FullKey(s.machine, key) == FullKey(s.machine, up) { FullKeyInjective(s.machine, key, up); }
    }
  }

  lemma PurgeKeepsRightBytes(s: State, step: Step)
    requires RightBytes(s) && step.RunPurge? && Enabled(s, step)
    ensures RightBytes(Apply(s, step))
  {
    PurgeShrinks(s.db, step.cutoffs, step.stuck);
  }

  lemma StepKeepsRightBytes(s: State, step: Step)
    requires BlobInv(s) && RightBytes(s) && Enabled(s, step) && NewKey(s, step)
    ensures RightBytes(Apply(s, step))
  {
    match step
    case Post(arrives, now) => AppUsage.BatchInsert(s.db, s.machine, EventsOf(s.phase.batch), now);
    case RunPurge(_, _) => PurgeKeepsRightBytes(s, step);
    case AddBlob(_, _) => CaptureKeepsRightBytes(s, step);
    case UploadBlob(_, _) => UploadKeepsRightBytes(s, step);
    case _ =>
  }

  lemma {:induction false} RunKeepsRightBytes(s: State, steps: seq<Step>)
    requires BaseInv(s) && BlobInv(s) && RightBytes(s)
    requires ValidRun(s, steps) && NewKeys(s, steps)
    ensures RightBytes(Run(s, steps))
    decreases |steps|
  {
    if steps == [] {
    } else {
      StepKeepsRightBytes(s, steps[0]);
      StepKeepsBlobInv(s, steps[0]);
      StepKeepsBase(s, steps[0]);
      RunKeepsRightBytes(Apply(s, steps[0]), steps[1..]);
    }
  }

  lemma LimitedIff(bytes: Blob)
    ensures Limited(bytes) <= bytes && (Limited(bytes) == bytes <==> |bytes| <= UPLOAD_LIMIT)
  {
    if |bytes| > UPLOAD_LIMIT { assert |Limited(bytes)| == UPLOAD_LIMIT; }
  }

  /** As long as keys do not repeat, in every run: a spooled blob has exactly the bytes of its
      capture; a stored one has a prefix of them, and all of them exactly when the capture has
      at most 16 MiB. */
  lemma BlobsKeepTheirBytes(s: State, steps: seq<Step>)
    requires Init(s) && ValidRun(s, steps) && NewKeys(s, steps)
    ensures var t := Run(s, steps);
      && (forall key | key in t.blobs :: key in t.captured && t.blobs[key] == t.captured[key])
      && (forall key | key in t.captured && FullKey(t.machine, key) in t.db.blobs ::
            var stored := t.db.blobs[FullKey(t.machine, key)];
            && stored <= t.captured[key] && |stored| <= UPLOAD_LIMIT
            && (stored == t.captured[key] <==> |t.captured[key]| <= UPLOAD_LIMIT))
  {
    RunKeepsRightBytes(s, steps);
    var t := Run(s, steps);
    forall key | key in t.captured && FullKey(t.machine, key) in t.db.blobs
      ensures var stored := t.db.blobs[FullKey(t.machine, key)];
        && stored <= t.captured[key] && |stored| <= UPLOAD_LIMIT
        && (stored == t.captured[key] <==> |t.captured[key]| <= UPLOAD_LIMIT)
    {
      LimitedIff(t.captured[key]);
    }
  }

  /** A longer capture is cut without an error: one fault-free drain stores its first 16 MiB,
      deletes its file, and the rest is nowhere. */
  lemma LongCaptureIsCut(machine: string, key: string) returns (bytes: Blob, steps: seq<Step>)
    requires !HasNul(machine) && !HasNul(key)
    ensures |bytes| == UPLOAD_LIMIT + 1 && ValidRun(Start(machine), steps)
    ensures steps == [AddBlob(key, bytes), StartDrain([key])] + [UploadBlob(true, true), RemoveBlob(true)]
    ensures var t := Run(Start(machine), steps);
      && t.captured == map[key := bytes] && t.blobs == map[]
      && t.db.blobs == map[FullKey(machine, key) := bytes[..UPLOAD_LIMIT]] && bytes[..UPLOAD_LIMIT] != bytes
  {
    bytes := seq(UPLOAD_LIMIT + 1, _ => 0);
    var s := Start(machine);
    RunOfTwo(s, AddBlob(key, bytes), StartDrain([key]));
    var t := Run(s, [AddBlob(key, bytes), StartDrain([key])]);
    assert t.blobs == map[key := bytes] && t.phase == Blobs([key]);
    RunOfTwo(t, UploadBlob(true, true), RemoveBlob(true));
    RunAppend(s, [AddBlob(key, bytes), StartDrain([key])], [UploadBlob(true, true), RemoveBlob(true)]);
    steps := [AddBlob(key, bytes), StartDrain([key])] + [UploadBlob(true, true), RemoveBlob(true)];
    assert t.blobs - {key} == map[];
  }

  // --- purges and the rows that survive them ---------------------------------------------------

  /** Captures make a key of their own for every event, and give the event its time. */
  ghost predicate OwnKey(s: State, step: Step) {
    step.AddEvent? && step.kind == "screenshot" ==>
      step.ts.Some? && forall e | e in s.added && e.kind == "screenshot" :: BlobKey(e.data) != BlobKey(step.data)
  }

  ghost predicate OwnKeys(s: State, steps: seq<Step>)
    requires ValidRun(s, steps)
    decreases |steps|
  {
    steps == [] || (OwnKey(s, steps[0]) && OwnKeys(Apply(s, steps[0]), steps[1..]))
  }

  /** Screenshot events have times, and different ones name different keys. */
  ghost predicate KeysApart(s: State) {
    && (forall e | e in s.added && e.kind == "screenshot" :: e.ts.Some?)
    && (forall d, e | d in s.added && e in s.added && d.kind == "screenshot" && e.kind == "screenshot"
          && BlobKey(d.data) == BlobKey(e.data) :: d == e)
  }

  predicate Shows(e: Event, shot: Shot) {
    e.kind == "screenshot" && BlobKey(e.data) == Some(shot.objectKey) && e.ts == Some(shot.ts)
  }

  /** The row was made from an added screenshot event: same key, same time. */
  ghost predicate FromEvent(s: State, shot: Shot) {
    exists e :: e in s.added && Shows(e, shot)
  }

  ghost predicate ShotInv(s: State) {
    KeysApart(s) && forall shot | shot in s.db.screenshots :: FromEvent(s, shot)
  }

  ghost predicate RowFromEvent(s: State, row: Row) {
    row.kind == "screenshot" && BlobKey(row.data).Some? ==>
      exists e :: e in s.added && e.kind == "screenshot" && BlobKey(e.data) == BlobKey(row.data) && e.ts == Some(row.ts)
  }

  lemma {:induction false} ShotsComeFromEvents(s: State, rows: seq<Row>)
    requires forall row | row in rows :: RowFromEvent(s, row)
    ensures forall shot | shot in AppUsage.ShotsOf(rows) :: FromEvent(s, shot)
  {
    if rows == [] {
    } else {
      var init, row := rows[..|rows| - 1], rows[|rows| - 1];
      assert row in rows && forall r | r in init :: r in rows;
      ShotsComeFromEvents(s, init);
    }
  }

  lemma BatchRowsComeFromEvents(s: State, now: int)
    requires BaseInv(s) && BlobInv(s) && ShotInv(s)
    ensures forall row | row in AppUsage.RowsOf(s.machine, EventsOf(Batch(s.phase)), now) :: RowFromEvent(s, row)
  {
    var batch := Batch(s.phase);
    var rows := AppUsage.RowsOf(s.machine, EventsOf(batch), now);
    forall row | row in rows && row.kind == "screenshot" ensures RowFromEvent(s, row) {
      var i :| 0 <= i < |rows| && rows[i] == row;
      var e := batch[i].event;
      assert batch[i] in batch && WasAdded(s, batch[i]) && e in s.added;
      CleaningKeepsKey(s, e.data);
      assert e.ts.Some? && e.ts == Some(row.ts);
    }
  }

  lemma PostKeepsShotInv(s: State, step: Step)
    requires BaseInv(s) && BlobInv(s) && ShotInv(s) && step.Post? && Enabled(s, step)
    ensures ShotInv(Apply(s, step))
  {
    var events, t := EventsOf(s.phase.batch), Apply(s, step);
    AppUsage.BatchInsert(s.db, s.machine, events, step.now);
    if t.phase.accepted {
      BatchRowsComeFromEvents(s, step.now);
      var rows := AppUsage.RowsOf(s.machine, events, step.now);
      ShotsComeFromEvents(s, rows);
      assert t.db.screenshots == s.db.screenshots + AppUsage.ShotsOf(rows);
    }
  }

  lemma AddEventKeepsShotInv(s: State, step: Step)
    requires ShotInv(s) && step.AddEvent? && Enabled(s, step) && OwnKey(s, step)
    ensures ShotInv(Apply(s, step))
  {
    forall shot | shot in s.db.screenshots ensures FromEvent(Apply(s, step), shot) {
      var e :| e in s.added && Shows(e, shot);
      assert e in Apply(s, step).added;
    }
  }

  lemma FewerShots(s: State, t: State)
    requires ShotInv(s) && t.added == s.added && forall shot | shot in t.db.screenshots :: shot in s.db.screenshots
    ensures ShotInv(t)
  {
  }

  lemma PurgeKeepsShotInv(s: State, step: Step)
    requires ShotInv(s) && step.RunPurge? && Enabled(s, step)
    ensures ShotInv(Apply(s, step))
  {
    if step.cutoffs.screenshots.Some? {
      SurvivorsAreNotStale(s.db.screenshots, step.cutoffs.screenshots.value);
    }
    FewerShots(s, Apply(s, step));
  }

  lemma OtherStepKeepsShotInv(s: State, step: Step)
    requires ShotInv(s) && Enabled(s, step) && !step.Post? && !step.AddEvent? && !step.RunPurge?
    ensures ShotInv(Apply(s, step))
  {
    FewerShots(s, Apply(s, step));
  }

  lemma StepKeepsShotInv(s: State, step: Step)
    requires BaseInv(s) && BlobInv(s) && ShotInv(s) && Enabled(s, step) && OwnKey(s, step)
    ensures ShotInv(Apply(s, step))
  {
    match step
    case Post(_, _) => PostKeepsShotInv(s, step);
    case AddEvent(_, _, _, _, _) => AddEventKeepsShotInv(s, step);
    case RunPurge(_, _) => PurgeKeepsShotInv(s, step);
    case _ => OtherStepKeepsShotInv(s, step);
  }

  lemma {:induction false} RunKeepsShotInv(s: State, steps: seq<Step>)
    requires BaseInv(s) && BlobInv(s) && ShotInv(s) && ValidRun(s, steps) && OwnKeys(s, steps)
    ensures ShotInv(Run(s, steps))
    decreases |steps|
  {
    if steps == [] {
    } else {
      StepKeepsShotInv(s, steps[0]);
      StepKeepsBlobInv(s, steps[0]);
      StepKeepsBase(s, steps[0]);
      RunKeepsShotInv(Apply(s, steps[0]), steps[1..]);
    }
  }

  /** After any run in which every screenshot event names a key of its own, redeliveries
      included, no purge deletes the blob of a screenshot row that it leaves. */
  lemma PurgeSparesSurvivors(s: State, steps: seq<Step>, c: Cutoffs, stuck: set<string>, shot: Shot)
    requires Init(s) && ValidRun(s, steps) && OwnKeys(s, steps)
    requires shot in Purged(Run(s, steps).db, c, stuck).screenshots
    ensures shot.objectKey in Run(s, steps).db.blobs ==> shot.objectKey in Purged(Run(s, steps).db, c, stuck).blobs
  {
    RunKeepsShotInv(s, steps);
    var t := Run(s, steps);
    if c.screenshots.Some? {
      var before := c.screenshots.value;
      SurvivorsAreNotStale(t.db.screenshots, before);
      forall other | other in t.db.screenshots && other.objectKey == shot.objectKey ensures other.ts == shot.ts {
        assert FromEvent(t, other) && FromEvent(t, shot);
      }
      assert shot.objectKey !in StaleKeys(t.db.screenshots, before);
    }
  }

  lemma RowsLeft(db: Db, index: nat, stuck: bool)
    requires index < |db.screenshots|
    ensures var left := ShotDeleted(db, index, stuck).screenshots;
      && (forall j | 0 <= j < |db.screenshots| && j != index :: db.screenshots[j] in left)
      && (forall shot | shot in left ::
            exists j :: 0 <= j < |db.screenshots| && j != index && db.screenshots[j] == shot)
  {
    var shots, left := db.screenshots, ShotDeleted(db, index, stuck).screenshots;
    forall j | 0 <= j < |shots| && j != index ensures shots[j] in left {
      assert shots[j] == left[if j < index then j else j - 1];
    }
    forall shot | shot in left ensures exists j :: 0 <= j < |shots| && j != index && shots[j] == shot {
      var i :| 0 <= i < |left| && left[i] == shot;
      assert shots[if i < index then i else i + 1] == shot;
    }
  }

  ghost predicate LosesItsBlob(db: Db, after: Db, shot: Shot) {
    shot in after.screenshots && shot.objectKey in db.blobs && shot.objectKey !in after.blobs
  }

  ghost predicate SharesKey(db: Db, index: nat, j: nat)
    requires index < |db.screenshots|
  {
    j < |db.screenshots| && j != index && db.screenshots[j].objectKey == db.screenshots[index].objectKey
  }

  /** Deleting one row takes the blob from another exactly when the blob is there, can be deleted,
      and a second row has the same key. */
  lemma DeletionDanglesIff(db: Db, index: nat, stuck: bool)
    requires index < |db.screenshots|
    ensures (exists shot :: LosesItsBlob(db, ShotDeleted(db, index, stuck), shot)) <==>
            !stuck && db.screenshots[index].objectKey in db.blobs && exists j: nat :: SharesKey(db, index, j)
  {
    var after := ShotDeleted(db, index, stuck);
    RowsLeft(db, index, stuck);
    if shot :| LosesItsBlob(db, after, shot) {
      var j: nat :| j < |db.screenshots| && j != index && db.screenshots[j] == shot;
      assert SharesKey(db, index, j);
    }
    if !stuck && db.screenshots[index].objectKey in db.blobs {
      if j: nat :| SharesKey(db, index, j) {
        assert LosesItsBlob(db, after, db.screenshots[j]);
      }
    }
  }

  /** In a run in which every event names a key of its own, two rows with one key come from one
      event: one of them is a redelivery. */
  lemma SameKeyIsRedelivery(s: State, steps: seq<Step>, a: Shot, b: Shot)
    requires Init(s) && ValidRun(s, steps) && OwnKeys(s, steps)
    requires a in Run(s, steps).db.screenshots && b in Run(s, steps).db.screenshots && a.objectKey == b.objectKey
    ensures exists e :: e in Run(s, steps).added && Shows(e, a) && Shows(e, b)
  {
    RunKeepsShotInv(s, steps);
    var t := Run(s, steps);
    assert FromEvent(t, a) && FromEvent(t, b);
    var d :| d in t.added && Shows(d, a);
    var e :| e in t.added && Shows(e, b);
    assert d == e;
  }
}
