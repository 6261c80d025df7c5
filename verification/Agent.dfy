/** The agent's code around the spool, in the shape it is written: collectors emit and capture,
    the drain uploads, sends and removes. Every method is proved to be a run of the protocol
    in Pipeline, so what is proved about all runs holds of this code. */
module Agent {
  import opened Options
  import opened Json
  import opened Names
  import opened EventStore
  import opened SpoolQueue
  import opened Pipeline
  import opened Draining
  import opened Text
  import AppUsage
  import Progress

  /** One display as captured: its size and its JPEG. */
  datatype Image = Image(width: nat, height: nat, jpeg: Blob)

  /** What one round of captures takes: a new key and an image for each display, the sizes of the
      events, the clock, the keys whose blob can be written and those whose event can. */
  datatype Round = Round(keys: seq<string>, images: seq<Image>, sizes: seq<nat>, now: int,
                         stored: set<string>, noted: set<string>)

  ghost predicate Capturable(c: Round) {
    |c.keys| == |c.images| == |c.sizes| && forall k | k in c.keys :: !HasNul(k)
  }

  /** The data of the event for one display. */
  function ShotData(machine: string, display: nat, key: string, image: Image): map<string, Value> {
    map["object_key" := Text(FullKey(machine, key)), "display" := Num(display as real),
        "width" := Num(image.width as real), "height" := Num(image.height as real),
        "bytes" := Num(|image.jpeg| as real), "format" := Text("jpeg")]
  }

  function ShotEvent(machine: string, c: Round, i: nat, uid: nat): Event
    requires i < |c.keys| == |c.images| == |c.sizes|
  {
    Event(uid, "screenshot", Some(c.now), ShotData(machine, i, c.keys[i], c.images[i]), c.sizes[i])
  }

  /** The events of the first n displays, numbered from `first`. */
  function ShotEvents(machine: string, c: Round, n: nat, first: nat): seq<Event>
    requires n <= |c.keys| == |c.images| == |c.sizes|
  {
    if n == 0 then []
    else
      var before := ShotEvents(machine, c, n - 1, first);
      if c.keys[n - 1] !in c.noted then before else before + [ShotEvent(machine, c, n - 1, first + |before|)]
  }

  function WithBlobs(captured: map<string, Blob>, c: Round, n: nat): map<string, Blob>
    requires n <= |c.keys| == |c.images|
  {
    if n == 0 then captured else WithBlobs(captured, c, n - 1)[c.keys[n - 1] := c.images[n - 1].jpeg]
  }

  /** How many displays are captured: the first blob that cannot be written ends the round. */
  function Captured(c: Round, n: nat): (m: nat)
    requires n <= |c.keys|
    ensures m <= n && (forall i | 0 <= i < m :: c.keys[i] in c.stored) && (m < n ==> c.keys[m] !in c.stored)
  {
    if n == 0 then 0
    else if Captured(c, n - 1) < n - 1 || c.keys[n - 1] !in c.stored then Captured(c, n - 1)
    else n
  }

  class Agent {
    const machine: string
    const spool: Spool
    const store: Store
    var emitted: nat
    ghost var start: State
    ghost var trace: seq<Step>
    ghost var world: State

    /** The disk and the server are where the recorded run leads. */
    ghost predicate Valid()
      reads this, spool, spool.dir, store
    {
      && Init(start) && start.machine == machine && ValidRun(start, trace)
      && world == Run(start, trace) && Mirrors(world)
    }

    ghost predicate Mirrors(w: State)
      reads this, spool, spool.dir, store
    {
      && w.machine == machine && w.files == spool.dir.events && w.blobs == spool.dir.blobs
      && w.db == store.View() && |w.added| == emitted
    }

    constructor (machine: string, spool: Spool, store: Store)
      requires !HasNul(machine) && spool.dir.events == map[] && spool.dir.blobs == map[] && store.View() == EMPTY_DB
      ensures Valid() && world.phase == Idle && trace == []
      ensures this.machine == machine && this.spool == spool && this.store == store
    {
      this.machine, this.spool, this.store := machine, spool, store;
      emitted := 0;
      trace := [];
      start := Start(machine);
      world := Start(machine);
    }

    /** Records a step the code has just taken. */
    ghost method Record(step: Step)
      requires Init(start) && start.machine == machine && ValidRun(start, trace)
      requires world == Run(start, trace) && Enabled(world, step) && Mirrors(Apply(world, step))
      modifies this`trace, this`world
      ensures Valid() && trace == old(trace) + [step]
      ensures world == Apply(old(world), step)
    {
      RunSnoc(start, trace, step);
      trace, world := trace + [step], Apply(world, step);
    }

    /** emit: one file in the spool; a failed write is only logged. */
    method Emit(kind: string, ts: Option<int>, data: map<string, Value>, size: nat, now: nat, writes: bool)
      requires Valid() && (kind == "screenshot" ==> NamesCaptured(world, data))
      modifies this, spool, spool.dir
      ensures Valid() && start == old(start) && Quiet(old(trace), trace)
      ensures world.phase == old(world.phase) && spool.seq_ == old(spool.seq_) + 1
      ensures world.captured == old(world.captured) && world.blobs == old(world.blobs)
      ensures world.added == if writes then old(world.added) + [Event(|old(world.added)|, kind, ts, data, size)]
                               else old(world.added)
      ensures spool.dir.events ==
              if writes then old(spool.dir.events)[FileName(now, spool.seq_) := world.added[|world.added| - 1]]
              else old(spool.dir.events)
    {
      var ok := spool.AddEvent(now, Event(emitted, kind, ts, data, size), writes);
      if ok {
        emitted := emitted + 1;
        Record(AddEvent(FileName(now, spool.seq_), kind, ts, data, size));
      }
    }

    /** emitBlob: stores the bytes and returns the key the server will store them under. */
    method EmitBlob(key: string, bytes: Blob, writes: bool) returns (objectKey: Option<string>)
      requires Valid() && !HasNul(key)
      modifies this, spool, spool.dir
      ensures Valid() && start == old(start) && Quiet(old(trace), trace)
      ensures world.phase == old(world.phase)
      ensures objectKey.Some? <==> writes
      ensures writes ==> objectKey == Some(FullKey(machine, key)) && world == Apply(old(world), AddBlob(key, bytes))
      ensures !writes ==> world == old(world)
    {
      var ok := spool.AddBlob(key, bytes, writes);
      if !ok {
        return None;
      }
      Record(AddBlob(key, bytes));
      objectKey := Some(FullKey(machine, key));
    }

    /** The other process that spools into the same directory adds a file under a name of its
        own making. */
    method OtherEmits(name: string, kind: string, data: map<string, Value>, size: nat)
      requires Valid() && (kind == "screenshot" ==> NamesCaptured(world, data))
      modifies this, spool.dir
      ensures Valid() && start == old(start) && trace == old(trace) + [AddEvent(name, kind, None, data, size)]
      ensures world == Apply(old(world), AddEvent(name, kind, None, data, size))
    {
      spool.dir.events := spool.dir.events[name := Event(emitted, kind, None, data, size)];
      emitted := emitted + 1;
      Record(AddEvent(name, kind, None, data, size));
    }

    /** One display: the blob first, then the event that names it. */
    method CaptureDisplay(c: Round, i: nat, clock: nat) returns (ok: bool)
      requires Valid() && Capturable(c) && i < |c.keys|
      modifies this, spool, spool.dir
      ensures Valid() && start == old(start) && Quiet(old(trace), trace)
      ensures world.phase == old(world.phase) && old(world.blobs).Keys <= world.blobs.Keys
      ensures ok == (c.keys[i] in c.stored)
      ensures !ok ==> world == old(world)
      ensures ok ==> world.captured == old(world.captured)[c.keys[i] := c.images[i].jpeg]
      ensures ok && c.keys[i] in c.noted ==>
                world.added == old(world.added) + [ShotEvent(machine, c, i, |old(world.added)|)]
      ensures ok && c.keys[i] !in c.noted ==> world.added == old(world.added)
    {
      var key, image := c.keys[i], c.images[i];
      assert key in c.keys;
      var objectKey := EmitBlob(key, image.jpeg, key in c.stored);
      if objectKey.None? {
        return false;
      }
      var data := ShotData(machine, i, key, image);
      assert Text(objectKey.value) == data["object_key"];
      assert key in world.captured && AsText(Field(data, "object_key")) == Some(FullKey(machine, key));
      Emit("screenshot", Some(c.now), data, c.sizes[i], clock, key in c.noted);
      ok := true;
    }

    /** capture: every display in turn, up to the first whose blob cannot be stored. */
    method Capture(c: Round, clock: nat)
      requires Valid() && Capturable(c)
      modifies this, spool, spool.dir
      ensures Valid() && start == old(start) && Quiet(old(trace), trace)
      ensures world.phase == old(world.phase) && old(world.blobs).Keys <= world.blobs.Keys
      ensures var n := Captured(c, |c.keys|);
        && world.added == old(world.added) + ShotEvents(machine, c, n, |old(world.added)|)
        && world.captured == WithBlobs(old(world.captured), c, n)
    {
      for i := 0 to |c.keys|
        invariant Valid() && start == old(start) && Quiet(old(trace), trace)
        invariant world.phase == old(world.phase) && old(world.blobs).Keys <= world.blobs.Keys
        invariant Captured(c, i) == i
        invariant world.added == old(world.added) + ShotEvents(machine, c, i, |old(world.added)|)
        invariant world.captured == WithBlobs(old(world.captured), c, i)
      {
        var ok := CaptureDisplay(c, i, clock);
        if !ok {
          StopsAt(c, i, |c.keys|);
          return;
        }
      }
    }

    /** Whatever else may happen between two steps of the drain: captures, other events of
        either process, a purge, the deletion of a screenshot; or nothing, when it is calm. */
    method Interfere(calm: bool)
      requires Valid()
      modifies this, spool, spool.dir, store
      ensures Valid() && start == old(start) && Quiet(old(trace), trace)
      ensures world.phase == old(world.phase) && old(world.blobs).Keys <= world.blobs.Keys
      ensures calm ==> world == old(world)
    {
      if calm {
        return;
      }
      var rounds: nat := *;
      while rounds > 0
        invariant Valid() && start == old(start) && Quiet(old(trace), trace)
        invariant world.phase == old(world.phase) && old(world.blobs).Keys <= world.blobs.Keys
      {
        var now: nat, name: string, writes: bool, stuck: set<string> := *, *, *, *;
        var kind: string, data: map<string, Value>, size: nat := *, *, *;
        if * {
          if kind != "screenshot" {
            Emit(kind, Some(now), data, size, now, writes);
          }
        } else if * {
          if kind != "screenshot" {
            OtherEmits(name, kind, data, size);
          }
        } else if * {
          var image: Image := *;
          if !HasNul(name) {
            Capture(Round([name], [image], [size], now, {name}, if writes then {name} else {}), now);
          }
        } else if * {
          var c: Cutoffs := *;
          var _ := store.Purge(c, stuck);
          Record(RunPurge(c, stuck));
        } else {
          var index: nat := *;
          if index < |store.screenshots| {
            store.DeleteScreenshot(index, writes);
            Record(DeleteShot(index, writes));
          }
        }
        rounds := rounds - 1;
      }
    }

    /** Puts one spooled blob on the server, cut to what an upload holds; the reply can be lost
        after the blob is stored. */
    method Upload(key: string, w: Weather) returns (acked: bool)
      requires Valid() && world.phase.Blobs? && world.phase.todo != [] && world.phase.todo[0] == key
      requires key in spool.dir.blobs
      modifies this`trace, this`world, store`blobs
      ensures Valid() && Quiet(old(trace), trace) && acked == Acks(w, key)
      ensures world == Apply(old(world), UploadBlob(Stores(w, key), acked))
    {
      acked := Acks(w, key);
      if Stores(w, key) {
        store.blobs := store.blobs[FullKey(machine, key) := Limited(spool.dir.blobs[key])];
      }
      Record(UploadBlob(Stores(w, key), acked));
    }

    /** Deletes the file of an uploaded blob, errors ignored. */
    method RemoveUploaded(key: string, w: Weather)
      requires Valid() && world.phase.Acked? && world.phase.key == key
      modifies this`trace, this`world, spool.dir
      ensures Valid() && Quiet(old(trace), trace)
      ensures world == Apply(old(world), RemoveBlob(key !in w.stuckBlobs))
    {
      spool.RemoveOne(BlobPath(key), key !in w.stuckBlobs);
      Record(RemoveBlob(key !in w.stuckBlobs));
    }

    /** Reads, uploads and deletes one listed blob; an unreadable file is skipped. */
    method UploadNext(key: string, w: Weather) returns (reachable: bool)
      requires Valid() && world.phase.Blobs? && world.phase.todo != [] && world.phase.todo[0] == key
      modifies this, spool, spool.dir, store
      ensures Valid() && start == old(start) && Quiet(old(trace), trace)
      ensures world.phase == if reachable then Blobs(old(world.phase.todo)[1..]) else Idle
      ensures old(world.blobs).Keys - {key} <= world.blobs.Keys
      ensures key in old(world.blobs) ==> reachable == Passes(w, key)
      ensures w.calm && key in old(world.blobs) ==> world == NextBlob(old(world), w)
    {
      if key !in spool.dir.blobs || key in w.unreadableBlobs {
        Record(SkipBlob);
        return true;
      }
      reachable := Upload(key, w);
      if reachable {
        Interfere(w.calm);
        RemoveUploaded(key, w);
      }
    }

    /** The n-th listed blob, after whatever else happens first. `began` is where the drain began. */
    method DrainBlob(key: string, w: Weather, ghost began: State, ghost keys: seq<string>, ghost n: nat)
      returns (reachable: bool)
      requires Valid() && AtBlob(began, world, w, keys, n) && n < |keys| && keys[n] == key
      modifies this, spool, spool.dir, store
      ensures Valid() && start == old(start) && Quiet(old(trace), trace)
      ensures if reachable then AtBlob(began, world, w, keys, n + 1) else BlobStopped(began, world, w, keys)
    {
      Interfere(w.calm);
      ghost var before := world;
      reachable := UploadNext(key, w);
      if reachable {
        AtNextBlob(began, before, world, w, keys, n);
      } else {
        StoppedByBlob(began, before, world, w, keys, n);
      }
    }

    /** Uploads up to fifty blobs; gives up at the first failed upload. */
    method DrainBlobs(w: Weather) returns (reachable: bool, ghost keys: seq<string>)
      requires Valid() && world.phase == Idle
      modifies this, spool, spool.dir, store
      ensures Valid() && start == old(start) && Quiet(old(trace), trace)
      ensures world.phase == if reachable then Blobs([]) else Idle
      ensures reachable == AllPass(w, keys)
      ensures w.calm ==> BlobsDrained(old(world), world, w, keys)
    {
      ghost var began := world;
      var listed := spool.PendingBlobs(BLOBS_PER_DRAIN);
      keys := listed;
      Record(StartDrain(keys));
      AtFirstBlob(began, w, keys);
      for i := 0 to |listed|
        invariant Valid() && start == old(start) && Quiet(old(trace), trace)
        invariant AtBlob(began, world, w, keys, i)
      {
        reachable := DrainBlob(listed[i], w, began, keys, i);
        if !reachable {
          return;
        }
      }
      reachable := true;
      AllBlobsBehind(began, world, w, keys);
    }

    /** The request: it may get lost, and the server may refuse the batch, for its size or for an
        event in it. */
    method PostBatch(events: seq<Event>, w: Weather) returns (accepted: bool)
      requires Valid() && world.phase.Listed? && EventsOf(world.phase.batch) == events
      modifies this`trace, this`world, store
      ensures Valid() && old(trace) <= trace
      ensures world == Apply(old(world), Post(w.arrives, w.now))
      ensures world.phase == Posted(old(world.phase.batch), accepted)
    {
      accepted := false;
      if w.arrives && BodySize(events) <= INGEST_LIMIT {
        var n := store.InsertEvents(machine, events, w.now);
        accepted := n.Some?;
      }
      Record(Post(w.arrives, w.now));
    }

    /** Posts a listed batch; `ok` means the server said it took it. */
    method Send(events: seq<Event>, w: Weather) returns (ok: bool)
      requires Valid() && world.phase.Listed? && EventsOf(world.phase.batch) == events
      modifies this, spool, spool.dir, store
      ensures Valid() && start == old(start) && old(trace) <= trace
      ensures world.phase == if ok then Removing(old(world.phase.batch)) else Idle
      ensures w.calm ==> world == Apply(Apply(old(world), Post(w.arrives, w.now)), Reply(w.delivered))
    {
      var accepted := PostBatch(events, w);
      Interfere(w.calm);
      Record(Reply(w.delivered));
      ok := accepted && w.delivered;
    }

    method RemoveNext(path: string, w: Weather)
      requires Valid() && world.phase.Removing? && world.phase.batch != [] && world.phase.batch[0].name == path
      modifies this`trace, this`world, spool.dir
      ensures Valid() && old(trace) <= trace
      ensures world == Apply(old(world), RemoveEvent(path !in w.stuck))
    {
      spool.RemoveOne(EventPath(path), path !in w.stuck);
      Record(RemoveEvent(path !in w.stuck));
    }

    /** Deletes the files of a delivered batch, one by one, errors ignored. */
    method RemoveFiles(paths: seq<string>, w: Weather)
      requires Valid() && world.phase.Removing? && |world.phase.batch| == |paths|
      requires forall j | 0 <= j < |paths| :: world.phase.batch[j].name == paths[j]
      modifies this, spool, spool.dir, store
      ensures Valid() && start == old(start) && old(trace) <= trace
      ensures world.phase == Idle
      ensures w.calm ==> FilesBehind(old(world), world, w, paths, |paths|)
    {
      ghost var batch := world.phase.batch;
      assert batch[0..] == batch && paths[..0] == [];
      assert world.files - UnlessStuck(w, paths[..0]) == world.files;
      for i := 0 to |paths|
        invariant Valid() && start == old(start) && old(trace) <= trace
        invariant world.phase == Removing(batch[i..])
        invariant w.calm ==> FilesBehind(old(world), world, w, paths, i)
      {
        Interfere(w.calm);
        assert batch[i..][1..] == batch[i + 1..] && batch[i..][0].name == paths[i];
        if w.calm {
          NextFileIsBehind(old(world), world, w, paths, i);
        }
        RemoveNext(paths[i], w);
      }
      Record(RemoveEvent(true));
    }

    /** Sends up to five hundred events and removes their files once the server has them. */
    method DrainEvents(w: Weather) returns (ghost listed: seq<string>)
      requires Valid() && world.phase == Blobs([])
      modifies this, spool, spool.dir, store
      ensures Valid() && start == old(start) && old(trace) <= trace
      ensures world.phase == Idle
      ensures w.calm ==> EventsDrained(old(world), world, w, listed)
    {
      var events, paths := spool.PendingEvents(EVENTS_PER_DRAIN, w.unreadable);
      listed := paths;
      Record(ListEvents(w.unreadable, paths));
      if |events| == 0 {
        NothingDrained(old(world), w);
        return;
      }
      ghost var batch := world.phase.batch;
      assert EventsOf(batch) == events;
      Interfere(w.calm);
      var ok := Send(events, w);
      if w.calm {
        SentBatch(old(world), w, paths);
      }
      if ok {
        ghost var sent := world;
        RemoveFiles(paths, w);
        if w.calm {
          RemovedBatch(old(world), sent, world, w, paths);
        }
      }
    }

    /** drain: blobs first, then one batch of events; `keys` and `paths` are the two listings. An
        upload that fails ends it before the events are listed. When nothing else happens
        meanwhile, the files and the tables change exactly as the requests, replies and deletions
        went: a batch that is lost or refused, or whose reply is lost, leaves every event file;
        and when nothing fails either, the oldest five hundred move to the log. */
    method Drain(w: Weather) returns (ghost keys: seq<string>, ghost paths: seq<string>)
      requires Valid() && world.phase == Idle
      modifies this, spool, spool.dir, store
      ensures Valid() && start == old(start) && old(trace) <= trace
      ensures world.phase == Idle
      ensures !AllPass(w, keys) ==> Quiet(old(trace), trace)
      ensures w.calm ==> Drained(old(world), world, w, keys, paths)
      ensures w.calm && !AllPass(w, keys) ==>
                spool.dir.events == old(spool.dir.events) && store.events == old(store.events)
      ensures w.calm && AllPass(w, keys) ==>
        && OldestPrefix(old(spool.dir.events).Keys - w.unreadable, EVENTS_PER_DRAIN, paths)
        && var batch := Contents(old(spool.dir.events), paths);
        && spool.dir.events == (if Takes(w, batch) && w.delivered
                                then old(spool.dir.events) - UnlessStuck(w, paths)
                                else old(spool.dir.events))
        && store.events == old(store.events) + if Takes(w, batch) then AppUsage.RowsOf(machine, batch, w.now) else []
      ensures Fair(w) && Deliverable(old(spool.dir.events)) ==>
        && OldestPrefix(old(spool.dir.events).Keys, EVENTS_PER_DRAIN, paths)
        && spool.dir.events == old(spool.dir.events) - (set p | p in paths)
        && store.events ==
           old(store.events) + AppUsage.RowsOf(machine, Contents(old(spool.dir.events), paths), w.now)
    {
      ghost var s := world;
      var reachable;
      reachable, keys := DrainBlobs(w);
      ghost var mid := world;
      paths := [];
      if reachable {
        paths := DrainEvents(w);
      }
      if w.calm {
        BlobsThenEvents(s, mid, world, w, keys, paths);
        if Fair(w) && Deliverable(s.files) {
          FairDelivers(s, world, w, keys, paths);
        }
      }
    }

    /** One tick of the drain's ticker. */
    method Tick(w: Weather) returns (ghost paths: seq<string>)
      requires Valid() && world.phase == Idle
      modifies this, spool, spool.dir, store
      ensures Valid() && start == old(start) && old(trace) <= trace && world.phase == Idle
      ensures Fair(w) && Deliverable(old(spool.dir.events)) ==>
        && OldestPrefix(old(spool.dir.events).Keys, EVENTS_PER_DRAIN, paths)
        && spool.dir.events == old(spool.dir.events) - (set p | p in paths)
        && |store.events| == |old(store.events)| + |paths|
    {
      ghost var keys;
      keys, paths := Drain(w);
    }

    /** The drain's ticker: one drain after another. When nothing fails, each of them takes five
        hundred files, or all that are left. */
    method Ticks(ws: seq<Weather>)
      requires Valid() && world.phase == Idle
      modifies this, spool, spool.dir, store
      ensures Valid() && start == old(start) && old(trace) <= trace
      ensures world.phase == Idle
      ensures Deliverable(old(spool.dir.events)) && AllFair(ws) ==>
        Moved(old(spool.dir.events), |old(store.events)|, spool.dir.events, |store.events|, |ws|)
    {
      ghost var fair := Deliverable(spool.dir.events) && AllFair(ws);
      for i := 0 to |ws|
        invariant Valid() && start == old(start) && old(trace) <= trace && world.phase == Idle
        invariant fair ==>
          Moved(old(spool.dir.events), |old(store.events)|, spool.dir.events, |store.events|, i)
      {
        ghost var files, log := spool.dir.events, |store.events|;
        ghost var paths := Tick(ws[i]);
        if fair {
          MovedMore(old(spool.dir.events), |old(store.events)|, files, log, i, spool.dir.events, paths);
        }
      }
    }
  }

  ghost predicate AllFair(ws: seq<Weather>) { forall i | 0 <= i < |ws| :: Fair(ws[i]) }

  /** How many of these files n drains leave. */
  function Left(files: nat, drains: nat): nat {
    if files <= drains * EVENTS_PER_DRAIN then 0 else files - drains * EVENTS_PER_DRAIN
  }

  /** After n fair drains: files only leave, five hundred at a time while there are as many, and
      the log has grown by as many rows. */
  ghost predicate Moved(files: map<string, Event>, log: nat, after: map<string, Event>, logAfter: nat, n: nat) {
    && Deliverable(after) && after.Keys <= files.Keys && |after| == Left(|files|, n)
    && logAfter + |after| == log + |files|
  }

  lemma MovedMore(first: map<string, Event>, log: nat, files: map<string, Event>, logNow: nat, n: nat,
                  after: map<string, Event>, paths: seq<string>)
    requires Moved(first, log, files, logNow, n)
    requires OldestPrefix(files.Keys, EVENTS_PER_DRAIN, paths) && after == files - (set p | p in paths)
    ensures Moved(first, log, after, logNow + |paths|, n + 1)
  {
    Progress.ListingSize(files.Keys, EVENTS_PER_DRAIN, paths);
    assert after.Keys == files.Keys - set p | p in paths;
    assert |after| == |after.Keys| && |files| == |files.Keys|;
  }

  lemma {:induction false} StopsAt(c: Round, i: nat, n: nat)
    requires i < n <= |c.keys| && Captured(c, i) == i && c.keys[i] !in c.stored
    ensures Captured(c, n) == i
  {
    if n > i + 1 {
      StopsAt(c, i, n - 1);
    }
  }

  // --- from the display to the table ------------------------------------------------------------

  /** When every event can be written, each display captured has its own, in their order. */
  lemma {:induction false} EveryDisplayIsNoted(machine: string, c: Round, n: nat, first: nat)
    requires n <= |c.keys| == |c.images| == |c.sizes| && forall i | 0 <= i < n :: c.keys[i] in c.noted
    ensures var events := ShotEvents(machine, c, n, first);
      |events| == n && forall i | 0 <= i < n :: events[i] == ShotEvent(machine, c, i, first + i)
  {
    if n > 0 {
      EveryDisplayIsNoted(machine, c, n - 1, first);
    }
  }

  lemma FieldsDiffer()
    ensures "object_key" !in {"display", "width", "height", "bytes", "format"}
    ensures "width" !in {"display", "height", "bytes", "format"} && "height" !in {"bytes", "format"}
    ensures "bytes" != "format"
  {
    assert |"object_key"| == 10 && |"display"| == 7 && |"width"| == 5 && |"height"| == 6 && |"bytes"| == 5;
    assert |"format"| == 6 && "width"[0] != "bytes"[0] && "height"[0] != "format"[0];
  }

  lemma FieldsHaveNoNul(data: map<string, Value>)
    requires data.Keys == {"object_key", "display", "width", "height", "bytes", "format"}
    ensures forall k | k in data :: !HasNul(k)
  {
    assert !HasNul("object_key") && !HasNul("display") && !HasNul("width");
    assert !HasNul("height") && !HasNul("bytes") && !HasNul("format");
  }

  lemma ShotFields(machine: string, display: nat, key: string, image: Image)
    ensures var data := ShotData(machine, display, key, image);
      && data.Keys == {"object_key", "display", "width", "height", "bytes", "format"}
      && data["object_key"] == Text(machine + "/" + key)
      && data["width"] == Num(image.width as real) && data["height"] == Num(image.height as real)
      && data["bytes"] == Num(|image.jpeg| as real) && data["format"] == Text("jpeg")
      && forall k | k in data :: data[k].Text? || data[k].Num?
  {
    FieldsDiffer();
  }

  lemma ShotIsAcceptable(machine: string, display: nat, key: string, image: Image, e: Event)
    requires e.kind == "screenshot" && e.data == ShotData(machine, display, key, image)
    ensures AppUsage.Acceptable(e)
  {
    ShotFields(machine, display, key, image);
    FieldsHaveNoNul(e.data);
    assert !HasNul("screenshot") && "screenshot"[0] != "foreground"[0];
    assert forall k | k in e.data :: KeysClean(e.data[k]);
  }

  /** The captured display's row in the screenshots table: its own width, height and size, under
      the key its bytes are stored under. */
  lemma CapturedDisplayHasItsRow(db: Db, machine: string, c: Round, i: nat, uid: nat, now: int)
    requires i < |c.keys| == |c.images| == |c.sizes| && !HasNul(machine) && !HasNul(c.keys[i])
    ensures var after := Inserted(db, machine, [ShotEvent(machine, c, i, uid)], now);
      && after.Some?
      && after.value.screenshots == db.screenshots +
           [Shot(machine, c.now, machine + "/" + c.keys[i], Some(c.images[i].width), Some(c.images[i].height),
                 Some(|c.images[i].jpeg|), Some("jpeg"))]
  {
    var e := ShotEvent(machine, c, i, uid);
    ShotIsAcceptable(machine, i, c.keys[i], c.images[i], e);
    AppUsage.BatchInsert(db, machine, [e], now);
    assert AppUsage.RowsOf(machine, [e], now) == [RowOf(machine, e, now)];
    ShotFields(machine, i, c.keys[i], c.images[i]);
    assert !HasNul(machine + "/" + c.keys[i]);
    RowOfFields(RowOf(machine, e, now), e.data, machine + "/" + c.keys[i],
                c.images[i].width, c.images[i].height, |c.images[i].jpeg|);
  }

  lemma TextStays(data: map<string, Value>, name: string, text: string)
    requires name in data && data[name] == Text(text) && !HasNul(text)
    ensures AsText(Field(Cleaned(data), name)) == Some(text)
  {
    DropNulKeepsTheRest(text);
  }

  lemma NumberStays(data: map<string, Value>, name: string, n: nat)
    requires name in data && data[name] == Num(n as real)
    ensures AsInt(Field(Cleaned(data), name)) == Some(n)
  {
  }

  lemma OneShot(row: Row)
    requires row.kind == "screenshot" && AsText(Field(row.data, "object_key")).Some?
    ensures AppUsage.ShotsOf([row]) == [AppUsage.ShotOf(row)]
  {
    var none: seq<Row> := [];
    assert [row][..0] == none && AppUsage.ShotsOf(none) == [];
  }

  /** The row of an event with these fields. */
  lemma RowOfFields(row: Row, data: map<string, Value>, key: string, width: nat, height: nat, bytes: nat)
    requires row.kind == "screenshot" && row.data == Cleaned(data) && !HasNul(key)
    requires "object_key" in data && data["object_key"] == Text(key)
    requires "width" in data && data["width"] == Num(width as real)
    requires "height" in data && data["height"] == Num(height as real)
    requires "bytes" in data && data["bytes"] == Num(bytes as real)
    requires "format" in data && data["format"] == Text("jpeg")
    ensures AppUsage.ShotsOf([row]) ==
            [Shot(row.machine, row.ts, key, Some(width), Some(height), Some(bytes), Some("jpeg"))]
  {
    TextStays(data, "object_key", key);
    NumberStays(data, "width", width);
    NumberStays(data, "height", height);
    NumberStays(data, "bytes", bytes);
    assert !HasNul("jpeg");
    TextStays(data, "format", "jpeg");
    OneShot(row);
  }

  /** Whatever this code has done so far: as long as no added file took the name of one that
      still mattered, no event it added is lost. */
  lemma AgentLosesNothing(a: Agent)
    requires a.Valid() && SafeRun(a.start, a.trace)
    ensures AllKept(a.world)
  {
    NoEventIsLost(a.start, a.trace);
  }
}
