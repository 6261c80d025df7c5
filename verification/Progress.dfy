/** The queue empties: when nothing fails, each drain stores and removes the oldest five hundred
    files. */
module Progress {
  import opened Text
  import opened EventStore
  import opened SpoolQueue
  import opened Pipeline
  import D = Draining
  import opened Collisions
  import opened Delivery
  import opened Stall
  import AppUsage

  // --- listings exist ------------------------------------------------------------------------------

  lemma {:induction false} SortedExists(names: set<string>) returns (sorted: seq<string>)
    ensures Increasing(sorted) && (forall n :: n in sorted <==> n in names) && |sorted| == |names|
    decreases |names|
  {
    if names == {} {
      sorted := [];
    } else {
      var n :| n in names;
      var rest := SortedExists(names - {n});
      InsertKeepsOrder(rest, n);
      sorted := Insert(rest, n);
    }
  }

  lemma ListingExists(names: set<string>, max: nat) returns (listed: seq<string>)
    ensures OldestPrefix(names, max, listed)
  {
    var sorted := SortedExists(names);
    var k := if |sorted| < max then |sorted| else max;
    listed := sorted[..k];
    ListedIsPrefix(names, {}, sorted, k, max, listed);
    assert names - {} == names;
  }

  /** A listing is full, or holds everything. */
  lemma ListingSize(names: set<string>, max: nat, listed: seq<string>)
    requires OldestPrefix(names, max, listed)
    ensures |listed| == if |names| <= max then |names| else max
    ensures |names - set n | n in listed| == |names| - |listed|
  {
    var got := set n | n in listed;
    IncreasingCount(listed);
    SubsetCount(got, names);
    if |listed| < max {
      assert got == names;
    }
    assert names == got + (names - got);
  }

  // --- one drain ------------------------------------------------------------------------------------

  /** The agent is between drains and has no blobs to upload. */
  ghost predicate Ready(s: State) { BaseInv(s) && s.phase == Idle && s.blobs == map[] && D.Deliverable(s.files) }

  function Removals(n: nat): seq<Step> { seq(n, _ => RemoveEvent(true)) }

  /** A drain of these files in which nothing fails. */
  function Drain(paths: seq<string>): seq<Step> {
    if paths == [] then [StartDrain([]), ListEvents({}, [])]
    else [StartDrain([]), ListEvents({}, paths)] + ([Post(true, 0), Reply(true)] + Removals(|paths| + 1))
  }

  lemma ListedForDrain(s: State, paths: seq<string>)
    requires s.phase == Idle && s.blobs == map[] && OldestPrefix(s.files.Keys, EVENTS_PER_DRAIN, paths)
    ensures ValidRun(s, [StartDrain([]), ListEvents({}, paths)])
    ensures Run(s, [StartDrain([]), ListEvents({}, paths)]) ==
            s.(phase := if paths == [] then Idle else Listed(Entries(s.files, paths)))
  {
    assert s.files.Keys - {} == s.files.Keys;
    RunOfTwo(s, StartDrain([]), ListEvents({}, paths));
  }

  lemma TakenForDrain(s: State)
    requires s.phase.Listed? && |s.phase.batch| <= EVENTS_PER_DRAIN
    requires forall e | e in s.phase.batch ::
      AppUsage.Acceptable(e.event) && e.event.size < INGEST_LIMIT / EVENTS_PER_DRAIN
    ensures ValidRun(s, [Post(true, 0), Reply(true)])
    ensures var t := Run(s, [Post(true, 0), Reply(true)]);
      && t.phase == Removing(s.phase.batch) && t.files == s.files && t.blobs == s.blobs && t.added == s.added
      && t.inserted == s.inserted + UidsOf(s.phase.batch)
  {
    var events := EventsOf(s.phase.batch);
    forall e | e in events ensures e.size < INGEST_LIMIT / EVENTS_PER_DRAIN {
      var i :| 0 <= i < |events| && events[i] == e;
      assert s.phase.batch[i] in s.phase.batch;
    }
    D.SmallBody(events);
    assert |events| * (INGEST_LIMIT / EVENTS_PER_DRAIN) <= INGEST_LIMIT;
    TakenIff(s, Post(true, 0));
    RunOfTwo(s, Post(true, 0), Reply(true));
  }

  function NamesIn(batch: seq<Entry>): set<string> { set e | e in batch :: e.name }

  lemma {:induction false} RemovedForDrain(s: State)
    requires s.phase.Removing?
    ensures ValidRun(s, Removals(|s.phase.batch| + 1))
    ensures Run(s, Removals(|s.phase.batch| + 1)) == s.(phase := Idle, files := s.files - NamesIn(s.phase.batch))
    decreases |s.phase.batch|
  {
    var batch := s.phase.batch;
    var t := Apply(s, RemoveEvent(true));
    RunOfOne(s, RemoveEvent(true));
    if batch == [] {
      assert Removals(1) == [RemoveEvent(true)];
      assert s.files - NamesIn(batch) == s.files;
    } else {
      RemovedForDrain(t);
      assert Removals(|batch| + 1) == [RemoveEvent(true)] + Removals(|batch|);
      RunAppend(s, [RemoveEvent(true)], Removals(|batch|));
      assert batch == [batch[0]] + batch[1..];
      assert NamesIn(batch) == {batch[0].name} + NamesIn(batch[1..]);
      assert s.files - NamesIn(batch) == (s.files - {batch[0].name}) - NamesIn(batch[1..]);
    }
  }

  /** What one drain of these files leads to. */
  ghost predicate Drained(s: State, t: State, paths: seq<string>) {
    && (forall p | p in paths :: p in s.files)
    && t.added == s.added && t.files == s.files - (set n | n in paths)
    && t.inserted == s.inserted + UidsOf(Entries(s.files, paths))
    && |t.files| == if |s.files| <= EVENTS_PER_DRAIN then 0 else |s.files| - EVENTS_PER_DRAIN
  }

  /** The spool without these files, whose events are in the log. */
  ghost predicate Moved(s: State, t: State, paths: seq<string>)
    requires forall p | p in paths :: p in s.files
  {
    && t.phase == Idle && t.blobs == map[] && t.added == s.added
    && t.files == s.files - (set n | n in paths) && t.inserted == s.inserted + UidsOf(Entries(s.files, paths))
  }

  lemma NamesOfEntries(files: map<string, Event>, paths: seq<string>)
    requires forall p | p in paths :: p in files
    ensures NamesIn(Entries(files, paths)) == set n | n in paths
  {
    var batch := Entries(files, paths);
    forall e | e in batch ensures e.name in paths {
      var i :| 0 <= i < |batch| && batch[i] == e;
    }
    forall n | n in paths ensures n in NamesIn(batch) {
      var i :| 0 <= i < |paths| && paths[i] == n;
      assert batch[i] in batch && batch[i].name == n;
    }
  }

  lemma BatchDelivers(s: State, paths: seq<string>, batch: seq<Entry>)
    requires Ready(s) && OldestPrefix(s.files.Keys, EVENTS_PER_DRAIN, paths) && paths != []
    requires batch == Entries(s.files, paths)
    ensures ValidRun(s, Drain(paths))
    ensures Moved(s, Run(s, Drain(paths)), paths)
  {
    ListedForDrain(s, paths);
    var listing, sending := [StartDrain([]), ListEvents({}, paths)], [Post(true, 0), Reply(true)];
    var a := Run(s, listing);
    forall e | e in batch ensures AppUsage.Acceptable(e.event) && e.event.size < INGEST_LIMIT / EVENTS_PER_DRAIN {
      var i :| 0 <= i < |batch| && batch[i] == e;
      assert paths[i] in paths;
    }
    TakenForDrain(a);
    var b := Run(a, sending);
    RemovedForDrain(b);
    RunAppend(a, sending, Removals(|batch| + 1));
    RunAppend(s, listing, sending + Removals(|batch| + 1));
    NamesOfEntries(s.files, paths);
  }

  lemma NothingToMove(s: State)
    requires Ready(s) && OldestPrefix(s.files.Keys, EVENTS_PER_DRAIN, [])
    ensures ValidRun(s, Drain([])) && Moved(s, Run(s, Drain([])), [])
  {
    ListedForDrain(s, []);
    assert UidsOf(Entries(s.files, [])) == [];
  }

  lemma MovedIsDrained(s: State, t: State, paths: seq<string>)
    requires Ready(s) && OldestPrefix(s.files.Keys, EVENTS_PER_DRAIN, paths) && BaseInv(t) && Moved(s, t, paths)
    ensures Ready(t) && Drained(s, t, paths)
  {
    ListingSize(s.files.Keys, EVENTS_PER_DRAIN, paths);
    assert t.files.Keys == s.files.Keys - set n | n in paths;
    assert |t.files| == |t.files.Keys| && |s.files| == |s.files.Keys|;
  }

  /** A drain in which nothing fails stores the oldest five hundred files' events, in order,
      removes exactly those files, and leaves the agent ready for the next. */
  lemma DrainDelivers(s: State, paths: seq<string>)
    requires Ready(s) && OldestPrefix(s.files.Keys, EVENTS_PER_DRAIN, paths)
    ensures ValidRun(s, Drain(paths))
    ensures Ready(Run(s, Drain(paths))) && Drained(s, Run(s, Drain(paths)), paths)
  {
    if paths == [] {
      NothingToMove(s);
    } else {
      BatchDelivers(s, paths, Entries(s.files, paths));
    }
    RunKeepsBase(s, Drain(paths));
    MovedIsDrained(s, Run(s, Drain(paths)), paths);
  }

  // --- until the spool is empty ------------------------------------------------------------------

  function DrainCount(steps: seq<Step>): nat {
    if steps == [] then 0 else (if steps[0].StartDrain? then 1 else 0) + DrainCount(steps[1..])
  }

  lemma {:induction false} DrainCountAppend(a: seq<Step>, b: seq<Step>)
    ensures DrainCount(a + b) == DrainCount(a) + DrainCount(b)
  {
    if a == [] {
      assert a + b == b;
    } else {
      DrainCountAppend(a[1..], b);
      assert (a + b)[1..] == a[1..] + b;
    }
  }

  lemma {:induction false} NoDrains(steps: seq<Step>)
    requires forall i | 0 <= i < |steps| :: !steps[i].StartDrain?
    ensures DrainCount(steps) == 0
  {
    if steps == [] {
    } else {
      NoDrains(steps[1..]);
    }
  }

  lemma OneDrain(paths: seq<string>)
    ensures DrainCount(Drain(paths)) == 1
  {
    NoDrains(Drain(paths)[1..]);
  }

  function DrainsFor(n: nat): nat { (n + EVENTS_PER_DRAIN - 1) / EVENTS_PER_DRAIN }

  lemma OneDrainLess(n: nat)
    requires n > 0
    ensures DrainsFor(n) == 1 + DrainsFor(if n <= EVENTS_PER_DRAIN then 0 else n - EVENTS_PER_DRAIN)
  {
  }

  lemma AllInserted(files: map<string, Event>, paths: seq<string>, first: seq<nat>, last: seq<nat>)
    requires first <= last && forall p | p in paths :: p in files && files[p].uid in first
    requires forall n | n in files && n !in paths :: files[n].uid in last
    ensures forall n | n in files :: files[n].uid in last
  {
    forall p | p in paths ensures files[p].uid in last {
      var i :| 0 <= i < |first| && first[i] == files[p].uid;
      assert last[i] == first[i];
    }
  }

  /** These steps deliver and remove every file, in as few drains as that takes. */
  ghost predicate Empties(s: State, steps: seq<Step>) {
    && ValidRun(s, steps) && DrainCount(steps) == DrainsFor(|s.files|)
    && var t := Run(s, steps);
    && t.files == map[] && t.phase == Idle && t.added == s.added
    && forall n | n in s.files :: s.files[n].uid in t.inserted
  }

  lemma CountsAdd(s: State, drain: seq<Step>, t: State, paths: seq<string>, rest: seq<Step>)
    requires DrainCount(drain) == 1 && |s.files| > 0 && Drained(s, t, paths) && DrainCount(rest) == DrainsFor(|t.files|)
    ensures DrainCount(drain + rest) == DrainsFor(|s.files|)
  {
    DrainCountAppend(drain, rest);
    OneDrainLess(|s.files|);
  }

  lemma InsertedInTheEnd(s: State, t: State, paths: seq<string>, last: seq<nat>)
    requires Drained(s, t, paths) && t.inserted <= last && forall n | n in t.files :: t.files[n].uid in last
    ensures forall n | n in s.files :: s.files[n].uid in last
  {
    ListedAreInserted(s, paths, t.inserted);
    forall n | n in s.files && n !in paths ensures s.files[n].uid in last {
      assert n in t.files && t.files[n] == s.files[n];
    }
    AllInserted(s.files, paths, t.inserted, last);
  }

  lemma DrainThenRest(s: State, drain: seq<Step>, t: State, paths: seq<string>, rest: seq<Step>)
    requires ValidRun(s, drain) && Run(s, drain) == t && DrainCount(drain) == 1 && |s.files| > 0
    requires Drained(s, t, paths) && Empties(t, rest)
    ensures Empties(s, drain + rest)
  {
    RunAppend(s, drain, rest);
    CountsAdd(s, drain, t, paths, rest);
    InsertedGrows(t, rest);
    InsertedInTheEnd(s, t, paths, Run(t, rest).inserted);
  }

  /** n files are delivered and gone after n / 500 drains, rounded up, in which nothing fails. */
  lemma {:induction false} SpoolEmpties(s: State) returns (steps: seq<Step>)
    requires Ready(s)
    ensures Empties(s, steps)
    decreases |s.files|
  {
    if s.files == map[] {
      steps := [];
    } else {
      var paths := ListingExists(s.files.Keys, EVENTS_PER_DRAIN);
      DrainDelivers(s, paths);
      assert |s.files| > 0 by { assert s.files.Keys != {}; }
      var rest := SpoolEmpties(Run(s, Drain(paths)));
      OneDrain(paths);
      DrainThenRest(s, Drain(paths), Run(s, Drain(paths)), paths, rest);
      steps := Drain(paths) + rest;
    }
  }

  lemma ListedAreInserted(s: State, paths: seq<string>, inserted: seq<nat>)
    requires forall p | p in paths :: p in s.files
    requires inserted == s.inserted + UidsOf(Entries(s.files, paths))
    ensures forall p | p in paths :: s.files[p].uid in inserted
  {
    var batch := Entries(s.files, paths);
    BatchUids(batch);
    forall p | p in paths ensures s.files[p].uid in inserted {
      var i :| 0 <= i < |paths| && paths[i] == p;
      assert batch[i] in batch && batch[i].event == s.files[p];
    }
  }
}
