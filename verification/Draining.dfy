/** What one drain does to the disk and to the server when nothing else happens meanwhile: which
    files go, which stay, and what the tables gain. */
module Draining {
  import opened Options
  import opened Text
  import opened EventStore
  import opened SpoolQueue
  import opened Pipeline
  import AppUsage

  /** How its environment treats one drain: the blob files that cannot be read, whose upload gets
      lost or is stored without an answer, or that cannot be deleted; the event files that cannot
      be read or deleted; whether the request arrives, the server's clock, and whether the reply
      comes back; and whether nothing else touches the disk and the server meanwhile. */
  datatype Weather = Weather(unreadableBlobs: set<string>, lostUploads: set<string>, lostAcks: set<string>,
                             stuckBlobs: set<string>, unreadable: set<string>, stuck: set<string>,
                             arrives: bool, now: int, delivered: bool, calm: bool)

  /** Nothing fails and nothing interferes. */
  predicate Fair(w: Weather) {
    && w.unreadableBlobs == w.lostUploads == w.lostAcks == w.stuckBlobs == w.unreadable == w.stuck == {}
    && w.arrives && w.delivered && w.calm
  }

  /** The recorded steps after these list no events. */
  ghost predicate Quiet(before: seq<Step>, after: seq<Step>) {
    before <= after && forall i | |before| <= i < |after| :: !after[i].ListEvents?
  }

  // --- blobs ----------------------------------------------------------------------------------

  predicate Stores(w: Weather, key: string) { key !in w.lostUploads }

  predicate Acks(w: Weather, key: string) { Stores(w, key) && key !in w.lostAcks }

  /** The drain goes on after this blob: it is skipped unread, or stored and acknowledged. */
  predicate Passes(w: Weather, key: string) { key in w.unreadableBlobs || Acks(w, key) }

  /** The listed blobs from the n-th on still have their files. */
  ghost predicate Ahead(blobs: map<string, Blob>, keys: seq<string>, n: nat) {
    forall i | n <= i < |keys| :: keys[i] in blobs
  }

  /** The first n listed blobs passed. */
  ghost predicate PassedSoFar(w: Weather, keys: seq<string>, n: nat) {
    n <= |keys| && forall i | 0 <= i < n :: Passes(w, keys[i])
  }

  lemma RestIsAhead(before: map<string, Blob>, after: map<string, Blob>, keys: seq<string>, n: nat)
    requires n < |keys| && Increasing(keys) && Ahead(before, keys, n) && before.Keys - {keys[n]} <= after.Keys
    ensures Ahead(after, keys, n + 1)
  {
    forall i | n < i < |keys| ensures keys[i] in after {
      assert Less(keys[n], keys[i]);
      LessIrreflexive(keys[n]);
      assert keys[i] in before.Keys - {keys[n]};
    }
  }

  /** How many listed blobs the drain gets past. */
  function Reached(w: Weather, keys: seq<string>): (n: nat)
    ensures n <= |keys| && (forall i | 0 <= i < n :: Passes(w, keys[i])) && (n < |keys| ==> !Passes(w, keys[n]))
  {
    if keys == [] || !Passes(w, keys[0]) then 0 else 1 + Reached(w, keys[1..])
  }

  /** No blob of the listing stops the drain. */
  predicate AllPass(w: Weather, keys: seq<string>) { forall k | k in keys :: Passes(w, k) }

  lemma ReachedIff(w: Weather, keys: seq<string>)
    ensures Reached(w, keys) == |keys| <==> AllPass(w, keys)
  {
    var n := Reached(w, keys);
    if n == |keys| {
      forall k | k in keys ensures Passes(w, k) {
        var i :| 0 <= i < n && keys[i] == k;
      }
    } else {
      assert keys[n] in keys;
    }
  }

  /** A drain that has passed n blobs and no more has reached n. */
  lemma {:induction false} StoppedAt(w: Weather, keys: seq<string>, n: nat)
    requires PassedSoFar(w, keys, n) && (n < |keys| ==> !Passes(w, keys[n]))
    ensures Reached(w, keys) == n && (AllPass(w, keys) <==> n == |keys|)
  {
    ReachedIff(w, keys);
  }

  /** The files deleted among those the drain got past. */
  function Deleted(w: Weather, keys: seq<string>): set<string> {
    set k | k in keys && k !in w.unreadableBlobs && k !in w.stuckBlobs
  }

  /** The object store after these blobs were uploaded, one after the other. */
  function WithUploads(w: Weather, stored: map<string, Blob>, machine: string, files: map<string, Blob>,
                       keys: seq<string>): map<string, Blob>
    requires forall k | k in keys :: k in files
  {
    if keys == [] then stored
    else
      var before, key := WithUploads(w, stored, machine, files, keys[..|keys| - 1]), keys[|keys| - 1];
      assert key in keys;
      if key in w.unreadableBlobs || !Stores(w, key) then before
      else before[FullKey(machine, key) := Limited(files[key])]
  }

  /** One uploaded blob is stored under the machine's prefix, cut to the limit; any other key of
      the store is as it was. */
  lemma {:induction false} WithUploadsHolds(w: Weather, stored: map<string, Blob>, machine: string,
                                            files: map<string, Blob>, keys: seq<string>, full: string)
    requires forall k | k in keys :: k in files
    ensures var after := WithUploads(w, stored, machine, files, keys);
      && (forall k | k in keys && k !in w.unreadableBlobs && Stores(w, k) && full == machine + "/" + k ::
            full in after && after[full] == if |files[k]| <= UPLOAD_LIMIT then files[k] else files[k][..UPLOAD_LIMIT])
      && ((forall k | k in keys && k !in w.unreadableBlobs && Stores(w, k) :: full != machine + "/" + k) ==>
            (full in after <==> full in stored) && (full in after ==> after[full] == stored[full]))
  {
    if keys == [] {
    } else {
      var init, last := keys[..|keys| - 1], keys[|keys| - 1];
      assert keys == init + [last];
      WithUploadsHolds(w, stored, machine, files, init, full);
      if full == FullKey(machine, last) {
        assert full[|machine + "/"|..] == last;
        forall k | k in keys && full == machine + "/" + k ensures k == last {
          assert full[|machine + "/"|..] == k;
        }
      }
    }
  }

  /** The first n listed blobs are behind the drain, which has changed nothing else. */
  ghost predicate BlobsBehind(s: State, t: State, w: Weather, keys: seq<string>, n: nat)
    requires n <= |keys| && forall k | k in keys :: k in s.blobs
  {
    && t.machine == s.machine && t.files == s.files && t.added == s.added
    && t.blobs == s.blobs - Deleted(w, keys[..n])
    && t.db == s.db.(blobs := WithUploads(w, s.db.blobs, s.machine, s.blobs, keys[..n]))
  }

  /** What the drain makes of the first listed blob, when nothing else happens. */
  ghost function NextBlob(s: State, w: Weather): State
    requires s.phase.Blobs? && s.phase.todo != [] && s.phase.todo[0] in s.blobs
  {
    var key := s.phase.todo[0];
    if key in w.unreadableBlobs then Apply(s, SkipBlob)
    else
      var up := Apply(s, UploadBlob(Stores(w, key), Acks(w, key)));
      if Acks(w, key) then Apply(up, RemoveBlob(key !in w.stuckBlobs)) else up
  }

  lemma PrefixSnoc(keys: seq<string>, n: nat)
    requires n < |keys|
    ensures keys[..n + 1] == keys[..n] + [keys[n]] && keys[n..][0] == keys[n] && keys[n..][1..] == keys[n + 1..]
  {
  }

  lemma NextIsStillThere(s: State, t: State, w: Weather, keys: seq<string>, n: nat)
    requires n < |keys| && Increasing(keys) && (forall k | k in keys :: k in s.blobs) && BlobsBehind(s, t, w, keys, n)
    ensures keys[n] !in keys[..n] && keys[n] in t.blobs && t.blobs[keys[n]] == s.blobs[keys[n]]
  {
    if keys[n] in keys[..n] {
      var i :| 0 <= i < n && keys[..n][i] == keys[n];
      LessIrreflexive(keys[n]);
    }
  }

  lemma WithUploadsSnoc(w: Weather, stored: map<string, Blob>, machine: string, files: map<string, Blob>,
                        keys: seq<string>, key: string)
    requires key in files && forall k | k in keys :: k in files
    ensures forall k | k in keys + [key] :: k in files
    ensures WithUploads(w, stored, machine, files, keys + [key]) ==
            var before := WithUploads(w, stored, machine, files, keys);
            if key in w.unreadableBlobs || !Stores(w, key) then before
            else before[FullKey(machine, key) := Limited(files[key])]
  {
    assert (keys + [key])[..|keys|] == keys;
  }

  /** One more blob: behind the drain if it passes; otherwise the drain ends, and the blob is on
      the server if only the answer was lost. */
  lemma NextBlobIsBehind(s: State, t: State, w: Weather, keys: seq<string>, n: nat)
    requires n < |keys| && Increasing(keys) && (forall k | k in keys :: k in s.blobs)
    requires BlobsBehind(s, t, w, keys, n) && t.phase == Blobs(keys[n..])
    ensures keys[n..] != [] && keys[n..][0] in t.blobs
    ensures var u := NextBlob(t, w);
      if Passes(w, keys[n]) then BlobsBehind(s, u, w, keys, n + 1) && u.phase == Blobs(keys[n + 1..])
      else && u.phase == Idle && u.machine == s.machine && u.files == s.files && u.blobs == t.blobs
           && u.db == s.db.(blobs := WithUploads(w, s.db.blobs, s.machine, s.blobs, keys[..n + 1]))
  {
    NextIsStillThere(s, t, w, keys, n);
    PrefixSnoc(keys, n);
    WithUploadsSnoc(w, s.db.blobs, s.machine, s.blobs, keys[..n], keys[n]);
    assert Deleted(w, keys[..n + 1]) ==
           Deleted(w, keys[..n]) + if keys[n] in w.unreadableBlobs || keys[n] in w.stuckBlobs then {} else {keys[n]};
  }

  /** Where the blobs leave the disk and the server: `keys` is the listing. */
  ghost predicate BlobsDrained(s: State, t: State, w: Weather, keys: seq<string>) {
    && OldestPrefix(s.blobs.Keys, BLOBS_PER_DRAIN, keys)
    && var n := Reached(w, keys);
    && t.machine == s.machine && t.files == s.files
    && t.blobs == s.blobs - Deleted(w, keys[..n])
    && t.db == s.db.(blobs := WithUploads(w, s.db.blobs, s.machine, s.blobs,
                                          if n < |keys| then keys[..n + 1] else keys))
  }

  /** The drain is about to take the n-th listed blob; `s` is where it began. */
  ghost predicate AtBlob(s: State, t: State, w: Weather, keys: seq<string>, n: nat) {
    && OldestPrefix(s.blobs.Keys, BLOBS_PER_DRAIN, keys) && n <= |keys|
    && t.phase == Blobs(keys[n..]) && Ahead(t.blobs, keys, n) && PassedSoFar(w, keys, n)
    && (w.calm ==> BlobsBehind(s, t, w, keys, n))
  }

  /** An upload failed, and the drain has ended. */
  ghost predicate BlobStopped(s: State, t: State, w: Weather, keys: seq<string>) {
    t.phase == Idle && !AllPass(w, keys) && (w.calm ==> BlobsDrained(s, t, w, keys))
  }

  lemma AtFirstBlob(s: State, w: Weather, keys: seq<string>)
    requires OldestPrefix(s.blobs.Keys, BLOBS_PER_DRAIN, keys)
    ensures AtBlob(s, s.(phase := Blobs(keys)), w, keys, 0)
  {
    assert keys[0..] == keys && keys[..0] == [];
    assert s.blobs - Deleted(w, keys[..0]) == s.blobs;
  }

  lemma AllBlobsBehind(s: State, t: State, w: Weather, keys: seq<string>)
    requires AtBlob(s, t, w, keys, |keys|)
    ensures AllPass(w, keys) && (w.calm ==> BlobsDrained(s, t, w, keys))
  {
    assert keys[..|keys|] == keys;
    StoppedAt(w, keys, |keys|);
  }

  lemma StoppedByBlob(s: State, before: State, t: State, w: Weather, keys: seq<string>, n: nat)
    requires AtBlob(s, before, w, keys, n) && n < |keys| && !Passes(w, keys[n])
    requires t.phase == Idle
    requires w.calm ==> before.phase.todo[0] in before.blobs && t == NextBlob(before, w)
    ensures BlobStopped(s, t, w, keys)
  {
    StoppedAt(w, keys, n);
    if w.calm {
      NextBlobIsBehind(s, before, w, keys, n);
    }
  }

  lemma AtNextBlob(s: State, before: State, t: State, w: Weather, keys: seq<string>, n: nat)
    requires AtBlob(s, before, w, keys, n) && n < |keys| && Passes(w, keys[n])
    requires t.phase == Blobs(keys[n..][1..]) && before.blobs.Keys - {keys[n]} <= t.blobs.Keys
    requires w.calm ==> before.phase.todo[0] in before.blobs && t == NextBlob(before, w)
    ensures AtBlob(s, t, w, keys, n + 1)
  {
    RestIsAhead(before.blobs, t.blobs, keys, n);
    if w.calm {
      NextBlobIsBehind(s, before, w, keys, n);
    }
  }

  // --- events ---------------------------------------------------------------------------------

  /** What the listed files hold. */
  function Contents(files: map<string, Event>, paths: seq<string>): (events: seq<Event>)
    requires forall p | p in paths :: p in files
    ensures |events| == |paths| && forall i | 0 <= i < |paths| :: events[i] == files[paths[i]]
  {
    seq(|paths|, i requires 0 <= i < |paths| => files[paths[i]])
  }

  /** The server takes this batch: the request arrives, fits, and every event in it is acceptable. */
  predicate Takes(w: Weather, events: seq<Event>) {
    events != [] && w.arrives && BodySize(events) <= INGEST_LIMIT && forall e | e in events :: AppUsage.Acceptable(e)
  }

  function UnlessStuck(w: Weather, paths: seq<string>): set<string> { set p | p in paths && p !in w.stuck }

  /** Where the events leave the disk and the server: `paths` is the listing. */
  ghost predicate EventsDrained(s: State, t: State, w: Weather, paths: seq<string>) {
    && OldestPrefix(s.files.Keys - w.unreadable, EVENTS_PER_DRAIN, paths)
    && var events := Contents(s.files, paths);
    && t.blobs == s.blobs
    && t.files == (if Takes(w, events) && w.delivered then s.files - UnlessStuck(w, paths) else s.files)
    && AppUsage.Gains(s.db, if Takes(w, events) then AppUsage.RowsOf(s.machine, events, w.now) else [], t.db)
  }

  lemma NothingGained(db: Db)
    ensures AppUsage.Gains(db, [], db)
  {
  }

  /** The server's side of a posted batch. */
  lemma PostGains(s: State, w: Weather)
    requires s.phase.Listed? && s.phase.batch != []
    ensures var events, t := EventsOf(s.phase.batch), Apply(s, Post(w.arrives, w.now));
      && t.phase == Posted(s.phase.batch, Takes(w, events))
      && AppUsage.Gains(s.db, if Takes(w, events) then AppUsage.RowsOf(s.machine, events, w.now) else [], t.db)
  {
    AppUsage.BatchInsert(s.db, s.machine, EventsOf(s.phase.batch), w.now);
    NothingGained(s.db);
  }

  /** What the batch of a listing holds. */
  lemma ListedContents(files: map<string, Event>, paths: seq<string>)
    requires forall p | p in paths :: p in files
    ensures EventsOf(Entries(files, paths)) == Contents(files, paths)
  {
  }

  /** The files of a delivered batch, the first n of them behind the drain. */
  ghost predicate FilesBehind(s: State, t: State, w: Weather, paths: seq<string>, n: nat)
    requires n <= |paths|
  {
    t.db == s.db && t.blobs == s.blobs && t.files == s.files - UnlessStuck(w, paths[..n])
  }

  lemma NextFileIsBehind(s: State, t: State, w: Weather, paths: seq<string>, n: nat)
    requires n < |paths| && FilesBehind(s, t, w, paths, n)
    requires t.phase.Removing? && t.phase.batch != [] && t.phase.batch[0].name == paths[n]
    ensures FilesBehind(s, Apply(t, RemoveEvent(paths[n] !in w.stuck)), w, paths, n + 1)
  {
    PrefixSnoc(paths, n);
    assert UnlessStuck(w, paths[..n + 1]) ==
           UnlessStuck(w, paths[..n]) + if paths[n] in w.stuck then {} else {paths[n]};
  }

  lemma NothingDrained(s: State, w: Weather)
    requires OldestPrefix(s.files.Keys - w.unreadable, EVENTS_PER_DRAIN, [])
    ensures EventsDrained(s, s.(phase := Idle), w, [])
  {
    NothingGained(s.db);
  }

  /** A listed batch after its request and the reply, when nothing else happened. */
  ghost function Sent(s: State, w: Weather, paths: seq<string>): State
    requires forall p | p in paths :: p in s.files
  {
    Apply(Apply(s.(phase := Listed(Entries(s.files, paths))), Post(w.arrives, w.now)), Reply(w.delivered))
  }

  lemma SentBatch(s: State, w: Weather, paths: seq<string>)
    requires OldestPrefix(s.files.Keys - w.unreadable, EVENTS_PER_DRAIN, paths) && paths != []
    ensures var t, events := Sent(s, w, paths), Contents(s.files, paths);
      && t.files == s.files && t.blobs == s.blobs
      && (t.phase.Removing? <==> Takes(w, events) && w.delivered)
      && AppUsage.Gains(s.db, if Takes(w, events) then AppUsage.RowsOf(s.machine, events, w.now) else [], t.db)
      && (!t.phase.Removing? ==> EventsDrained(s, t, w, paths))
  {
    ListedContents(s.files, paths);
    PostGains(s.(phase := Listed(Entries(s.files, paths))), w);
  }

  lemma RemovedBatch(s: State, sent: State, t: State, w: Weather, paths: seq<string>)
    requires OldestPrefix(s.files.Keys - w.unreadable, EVENTS_PER_DRAIN, paths) && paths != []
    requires sent == Sent(s, w, paths) && sent.phase.Removing? && FilesBehind(sent, t, w, paths, |paths|)
    ensures EventsDrained(s, t, w, paths)
  {
    SentBatch(s, w, paths);
    assert paths[..|paths|] == paths;
  }

  // --- a whole drain --------------------------------------------------------------------------

  /** The whole drain: the blobs, and unless one of them stopped it, the events. */
  ghost predicate Drained(s: State, t: State, w: Weather, keys: seq<string>, paths: seq<string>) {
    && OldestPrefix(s.blobs.Keys, BLOBS_PER_DRAIN, keys)
    && var n := Reached(w, keys);
    && t.blobs == s.blobs - Deleted(w, keys[..n])
    && t.db.blobs == WithUploads(w, s.db.blobs, s.machine, s.blobs, if n < |keys| then keys[..n + 1] else keys)
    && if AllPass(w, keys) then EventsMoved(s, t, w, paths)
       else t.files == s.files && t.db == s.db.(blobs := t.db.blobs)
  }

  ghost predicate EventsMoved(s: State, t: State, w: Weather, paths: seq<string>) {
    && OldestPrefix(s.files.Keys - w.unreadable, EVENTS_PER_DRAIN, paths)
    && var events := Contents(s.files, paths);
    && t.files == (if Takes(w, events) && w.delivered then s.files - UnlessStuck(w, paths) else s.files)
    && AppUsage.Gains(s.db.(blobs := t.db.blobs),
                      if Takes(w, events) then AppUsage.RowsOf(s.machine, events, w.now) else [], t.db)
  }

  lemma BlobsThenEvents(s: State, mid: State, t: State, w: Weather, keys: seq<string>, paths: seq<string>)
    requires BlobsDrained(s, mid, w, keys)
    requires if AllPass(w, keys) then EventsDrained(mid, t, w, paths) else t == mid
    ensures Drained(s, t, w, keys, paths)
  {
    ReachedIff(w, keys);
  }

  /** Files the server takes in any batch: acceptable, and small enough that five hundred of them
      fit a request. */
  ghost predicate Deliverable(files: map<string, Event>) {
    forall n | n in files :: AppUsage.Acceptable(files[n]) && files[n].size < INGEST_LIMIT / EVENTS_PER_DRAIN
  }

  lemma {:induction false} SmallBody(events: seq<Event>)
    requires forall e | e in events :: e.size < INGEST_LIMIT / EVENTS_PER_DRAIN
    ensures BodySize(events) <= |events| * (INGEST_LIMIT / EVENTS_PER_DRAIN)
  {
    if events == [] {
    } else {
      var init, last := events[..|events| - 1], events[|events| - 1];
      assert events == init + [last];
      assert last in events && forall e | e in init :: e in events;
      SmallBody(init);
    }
  }

  /** In fair weather a drain of a deliverable spool moves the oldest five hundred events to the
      log, in order, and deletes their files and those of the listed blobs. */
  ghost predicate Delivers(s: State, t: State, w: Weather, keys: seq<string>, paths: seq<string>) {
    && OldestPrefix(s.blobs.Keys, BLOBS_PER_DRAIN, keys) && t.blobs == s.blobs - (set k | k in keys)
    && OldestPrefix(s.files.Keys, EVENTS_PER_DRAIN, paths) && t.files == s.files - (set p | p in paths)
    && t.db.events == s.db.events + AppUsage.RowsOf(s.machine, Contents(s.files, paths), w.now)
  }

  lemma FairDelivers(s: State, t: State, w: Weather, keys: seq<string>, paths: seq<string>)
    requires Fair(w) && Deliverable(s.files) && Drained(s, t, w, keys, paths)
    ensures Delivers(s, t, w, keys, paths)
  {
    ReachedIff(w, keys);
    assert keys[..|keys|] == keys && Deleted(w, keys) == set k | k in keys;
    assert s.files.Keys - w.unreadable == s.files.Keys;
    if paths == [] {
      assert s.files - (set p | p in paths) == s.files;
    } else {
      FairTakes(s.files, paths, w);
    }
  }

  /** In fair weather every listed file of a deliverable spool is taken and deleted. */
  lemma FairTakes(files: map<string, Event>, paths: seq<string>, w: Weather)
    requires Fair(w) && Deliverable(files) && OldestPrefix(files.Keys, EVENTS_PER_DRAIN, paths) && paths != []
    ensures Takes(w, Contents(files, paths)) && UnlessStuck(w, paths) == set p | p in paths
  {
    var events := Contents(files, paths);
    forall e | e in events ensures AppUsage.Acceptable(e) && e.size < INGEST_LIMIT / EVENTS_PER_DRAIN {
      var i :| 0 <= i < |events| && events[i] == e;
      assert paths[i] in paths;
    }
    SmallBody(events);
    assert |events| * (INGEST_LIMIT / EVENTS_PER_DRAIN) <= INGEST_LIMIT;
  }
}
