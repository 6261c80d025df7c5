/** What a redelivered screenshot leads to: two rows with one blob, and the deletion of either row
    takes the blob from the other. */
module Redelivery {
  import opened Options
  import opened Json
  import opened EventStore
  import opened Pipeline
  import opened Delivery
  import AppUsage

  /** A captured screenshot and the event that names it. */
  function ShotEvent(machine: string, key: string): Event {
    Event(0, "screenshot", Some(0), map["object_key" := Text(FullKey(machine, key))], 100)
  }

  function Captured(machine: string, key: string, bytes: Blob, name: string): seq<Step> {
    var e := ShotEvent(machine, key);
    [AddBlob(key, bytes), AddEvent(name, e.kind, e.ts, e.data, e.size)]
  }

  function Uploaded(key: string): seq<Step> {
    [StartDrain([key]), UploadBlob(true, true)] + [RemoveBlob(true), Crash]
  }

  /** The blob is on the server, the event still in the spool. */
  ghost predicate BlobFirst(s: State, machine: string, key: string, bytes: Blob, name: string) {
    && s.machine == machine && s.phase == Idle && s.blobs == map[] && s.files == map[name := ShotEvent(machine, key)]
    && s.db == EMPTY_DB.(blobs := map[FullKey(machine, key) := Limited(bytes)])
  }

  lemma UploadedFirst(s: State, key: string, bytes: Blob)
    requires s.phase == Idle && s.blobs == map[key := bytes] && s.db == EMPTY_DB
    ensures ValidRun(s, Uploaded(key))
    ensures var t := Run(s, Uploaded(key));
      && t.machine == s.machine && t.phase == Idle && t.blobs == map[] && t.files == s.files
      && t.db == EMPTY_DB.(blobs := map[FullKey(s.machine, key) := Limited(bytes)])
  {
    RunOfTwo(s, StartDrain([key]), UploadBlob(true, true));
    var t := Run(s, [StartDrain([key]), UploadBlob(true, true)]);
    RunOfTwo(t, RemoveBlob(true), Crash);
    RunAppend(s, [StartDrain([key]), UploadBlob(true, true)], [RemoveBlob(true), Crash]);
    assert t.blobs - {key} == map[];
  }

  lemma CapturedAndUploaded(machine: string, key: string, bytes: Blob, name: string)
    requires !HasNul(machine) && !HasNul(key)
    ensures var steps := Captured(machine, key, bytes, name) + Uploaded(key);
      ValidRun(Start(machine), steps) && BlobFirst(Run(Start(machine), steps), machine, key, bytes, name)
  {
    var s, e := Start(machine), ShotEvent(machine, key);
    var mid := Apply(s, AddBlob(key, bytes));
    assert key in mid.captured && AsText(Field(e.data, "object_key")) == Some(FullKey(machine, key));
    assert NamesCaptured(mid, e.data);
    RunOfTwo(s, AddBlob(key, bytes), AddEvent(name, e.kind, e.ts, e.data, e.size));
    UploadedFirst(Run(s, Captured(machine, key, bytes, name)), key, bytes);
    RunAppend(s, Captured(machine, key, bytes, name), Uploaded(key));
  }

  lemma ShotNames()
    ensures "screenshot" != "foreground" && !HasNul("screenshot") && !HasNul("object_key") && !HasNul("/")
  {
    assert "screenshot"[0] != "foreground"[0];
  }

  lemma FullKeyIsPlain(machine: string, key: string)
    requires !HasNul(machine) && !HasNul(key)
    ensures !HasNul(FullKey(machine, key)) && DropNul(FullKey(machine, key)) == FullKey(machine, key)
  {
    ShotNames();
    DropNulKeepsTheRest(FullKey(machine, key));
  }

  lemma KeyField(data: map<string, Value>, full: string)
    requires data == map["object_key" := Text(full)] && DropNul(full) == full
    ensures AsText(Field(data, "object_key")) == AsText(Field(Cleaned(data), "object_key")) == Some(full)
    ensures KeysClean(Obj(data))
  {
    ShotNames();
    assert data.Keys == {"object_key"};
    assert Stripped(Text(full)) == Text(full);
  }

  lemma ShotIsAcceptable(machine: string, key: string)
    requires !HasNul(machine) && !HasNul(key)
    ensures AppUsage.Acceptable(ShotEvent(machine, key))
    ensures AsText(Field(Cleaned(ShotEvent(machine, key).data), "object_key")) == Some(FullKey(machine, key))
  {
    ShotNames();
    FullKeyIsPlain(machine, key);
    KeyField(ShotEvent(machine, key).data, FullKey(machine, key));
  }

  /** Storing the event adds one row that names the blob, and touches no blob. */
  lemma StoringAddsItsRow(db: Db, machine: string, key: string, after: Db)
    requires !HasNul(machine) && !HasNul(key)
    requires Inserted(db, machine, [ShotEvent(machine, key)], 0) == Some(after)
    ensures after.blobs == db.blobs
    ensures |after.screenshots| == |db.screenshots| + 1 && db.screenshots <= after.screenshots
    ensures after.screenshots[|db.screenshots|].objectKey == FullKey(machine, key)
  {
    var e := ShotEvent(machine, key);
    ShotIsAcceptable(machine, key);
    AppUsage.BatchInsert(db, machine, [e], 0);
    var row := RowOf(machine, e, 0);
    assert AppUsage.RowsOf(machine, [e], 0) == [row] && [row][..0] == [];
    assert AppUsage.ShotsOf([row]) == [AppUsage.ShotOf(row)];
  }

  function Twice(name: string): seq<Step> { FaultRound(name, LostReply) + FaultRound(name, LostReply) }

  lemma DeliveredTwice(s: State, machine: string, key: string, bytes: Blob, name: string)
    requires !HasNul(machine) && !HasNul(key) && BlobFirst(s, machine, key, bytes, name)
    ensures ValidRun(s, Twice(name))
    ensures var t := Run(s, Twice(name));
      && t.phase == Idle && t.db.blobs.Keys == {FullKey(machine, key)} && |t.db.screenshots| == 2
      && forall i | 0 <= i < 2 :: t.db.screenshots[i].objectKey == FullKey(machine, key)
  {
    ShotIsAcceptable(machine, key);
    FaultInserts(s, name, LostReply);
    var a := Run(s, FaultRound(name, LostReply));
    StoringAddsItsRow(s.db, machine, key, a.db);
    FaultInserts(a, name, LostReply);
    var b := Run(a, FaultRound(name, LostReply));
    StoringAddsItsRow(a.db, machine, key, b.db);
    RunAppend(s, FaultRound(name, LostReply), FaultRound(name, LostReply));
    assert b.db.screenshots[0] == a.db.screenshots[0];
  }

  /** A screenshot whose reply was lost once is delivered again and has two rows; deleting one of
      them deletes the blob, and the other is left without. */
  lemma DeletionLeavesRowWithoutBlob(machine: string, key: string, bytes: Blob, name: string) returns (steps: seq<Step>)
    requires !HasNul(machine) && !HasNul(key)
    ensures ValidRun(Start(machine), steps)
    ensures var t := Run(Start(machine), steps);
      && |t.db.screenshots| == 1 && t.db.screenshots[0].objectKey == FullKey(machine, key)
      && t.db.blobs == map[]
  {
    var s, before := Start(machine), Captured(machine, key, bytes, name) + Uploaded(key);
    CapturedAndUploaded(machine, key, bytes, name);
    var a := Run(s, before);
    DeliveredTwice(a, machine, key, bytes, name);
    var b := Run(a, Twice(name));
    RunOfOne(b, DeleteShot(0, false));
    RunAppend(a, Twice(name), [DeleteShot(0, false)]);
    RunAppend(s, before, Twice(name) + [DeleteShot(0, false)]);
    steps := before + (Twice(name) + [DeleteShot(0, false)]);
    var t := Run(s, steps);
    assert t.db.screenshots == [b.db.screenshots[1]];
    assert t.db.blobs.Keys == {};
  }
}
