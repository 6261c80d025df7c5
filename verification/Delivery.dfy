/** How often and in which order events reach the server's log. */
module Delivery {
  import opened Options
  import opened Json
  import opened Text
  import opened Names
  import opened EventStore
  import opened Collisions
  import AppUsage
  import opened Pipeline

  // --- at most once ------------------------------------------------------------------------

  /** Nothing goes wrong around this step: no accepted batch loses its reply, no deletion
      fails, and the agent does not crash. */
  ghost predicate Faultless(s: State, step: Step) {
    match step
    case Reply(delivered) => s.phase.Posted? && s.phase.accepted ==> delivered
    case RemoveEvent(deleted) => deleted
    case Crash => false
    case _ => true
  }

  ghost predicate FaultlessRun(s: State, steps: seq<Step>)
    requires ValidRun(s, steps)
    decreases |steps|
  {
    steps == [] || (Faultless(s, steps[0]) && FaultlessRun(Apply(s, steps[0]), steps[1..]))
  }

  ghost predicate Distinct(uids: seq<nat>) {
    forall i, j | 0 <= i < j < |uids| :: uids[i] != uids[j]
  }

  /** A file whose event is already in the log is about to be removed, and a listed batch holds
      only events that are not in the log. */
  ghost predicate OnceInv(s: State) {
    && Distinct(s.inserted)
    && (forall n | n in s.files && s.files[n].uid in s.inserted ::
          Answered(s.phase) && Entry(n, s.files[n]) in s.phase.batch)
    && (s.phase.Listed? ==> forall e | e in s.phase.batch :: e.event.uid !in s.inserted)
  }

  lemma BatchUidsDistinct(s: State)
    requires BaseInv(s)
    ensures Distinct(UidsOf(Batch(s.phase)))
  {
    var batch := Batch(s.phase);
    forall i, j | 0 <= i < j < |batch| ensures batch[i].event.uid != batch[j].event.uid {
      assert WasAdded(s, batch[i]) && WasAdded(s, batch[j]);
    }
  }

  lemma BatchIsNew(s: State)
    requires BaseInv(s) && OnceInv(s) && s.phase.Listed?
    ensures forall u | u in UidsOf(s.phase.batch) :: u !in s.inserted
    ensures forall n | n in s.files && s.files[n].uid in UidsOf(s.phase.batch) :: Entry(n, s.files[n]) in s.phase.batch
  {
    var batch := s.phase.batch;
    BatchUids(batch);
    forall n | n in s.files && s.files[n].uid in UidsOf(batch) ensures Entry(n, s.files[n]) in batch {
      var e :| e in batch && e.event.uid == s.files[n].uid;
      assert WasAdded(s, e) && e == Entry(n, s.files[n]);
    }
  }

  lemma DistinctAppend(a: seq<nat>, b: seq<nat>)
    requires Distinct(a) && Distinct(b) && forall u | u in b :: u !in a
    ensures Distinct(a + b)
  {
    forall i, j | 0 <= i < |a| && 0 <= j < |b| ensures a[i] != b[j] {
      assert b[j] in b;
    }
  }

  lemma PostInsertsNewEvents(s: State, arrives: bool, now: int)
    requires BaseInv(s) && OnceInv(s) && Enabled(s, Post(arrives, now))
    ensures OnceInv(Apply(s, Post(arrives, now)))
  {
    BatchUidsDistinct(s);
    BatchIsNew(s);
    DistinctAppend(s.inserted, UidsOf(s.phase.batch));
  }

  lemma ListKeepsOnce(s: State, step: Step)
    requires BaseInv(s) && OnceInv(s) && step.ListEvents? && Enabled(s, step)
    ensures OnceInv(Apply(s, step))
  {
    forall e | e in Entries(s.files, step.paths) ensures e.event.uid !in s.inserted {
      var i :| 0 <= i < |step.paths| && e == Entries(s.files, step.paths)[i];
      assert step.paths[i] in step.paths;
    }
  }

  /** The steps after which the file of a stored event stays behind, to be sent again: a lost
      reply or a crash while such a file of the batch is still there, or its failed deletion. */
  ghost predicate LeavesCopy(s: State, step: Step)
    requires Enabled(s, step)
  {
    match step
    case Reply(delivered) => s.phase.accepted && !delivered && SomeStillIn(s)
    case Crash => Answered(s.phase) && SomeStillIn(s)
    case RemoveEvent(deleted) => !deleted && s.phase.batch != [] && StillIn(s, s.phase.batch[0])
    case _ => false
  }

  ghost predicate SomeStillIn(s: State) { exists e :: e in Batch(s.phase) && StillIn(s, e) }

  lemma CopiesNeedFaults(s: State, step: Step)
    requires Enabled(s, step) && LeavesCopy(s, step)
    ensures !Faultless(s, step)
  {
  }

  lemma ReplyKeepsOnceIff(s: State, step: Step)
    requires BaseInv(s) && OnceInv(s) && Enabled(s, step) && (step.Reply? || step.Crash?)
    ensures OnceInv(Apply(s, step)) <==> !LeavesCopy(s, step)
  {
    var t := Apply(s, step);
    if Answered(s.phase) && t.phase == Idle {
      forall n | n in s.files && s.files[n].uid in s.inserted ensures SomeStillIn(s) {
        assert Entry(n, s.files[n]) in Batch(s.phase) && StillIn(s, Entry(n, s.files[n]));
      }
      if SomeStillIn(s) {
        var e :| e in Batch(s.phase) && StillIn(s, e);
        assert t.files[e.name].uid in t.inserted;
      }
    }
  }

  lemma RemoveKeepsOnce(s: State, step: Step)
    requires BaseInv(s) && OnceInv(s) && Enabled(s, step) && step.RemoveEvent? && !LeavesCopy(s, step)
    ensures OnceInv(Apply(s, step))
  {
    var t, batch := Apply(s, step), s.phase.batch;
    if batch != [] {
      forall n | n in t.files && t.files[n].uid in t.inserted ensures Entry(n, t.files[n]) in batch[1..] {
        var i :| 0 <= i < |batch| && batch[i] == Entry(n, s.files[n]);
        assert StillIn(s, batch[i]);
        assert i > 0 && batch[1..][i - 1] == batch[i];
      }
    }
  }

  lemma RemoveKeepsOnceIff(s: State, step: Step)
    requires BaseInv(s) && OnceInv(s) && Enabled(s, step) && step.RemoveEvent?
    ensures OnceInv(Apply(s, step)) <==> !LeavesCopy(s, step)
  {
    if LeavesCopy(s, step) {
      var t, e := Apply(s, step), s.phase.batch[0];
      RestOfBatch(s.phase.batch);
      assert e in s.phase.batch && t.files[e.name] == e.event && e.event.uid in t.inserted;
      assert Entry(e.name, t.files[e.name]) == e && e !in s.phase.batch[1..];
    } else {
      RemoveKeepsOnce(s, step);
    }
  }

  lemma AddKeepsOnce(s: State, step: Step)
    requires BaseInv(s) && OnceInv(s) && step.AddEvent? && Enabled(s, step)
    ensures OnceInv(Apply(s, step))
  {
  }

  lemma QuietStepKeepsOnce(s: State, step: Step)
    requires OnceInv(s) && Enabled(s, step)
    requires step.RunPurge? || step.DeleteShot? || (DrainStep(step) && !step.Reply? && !step.Crash?)
    ensures OnceInv(Apply(s, step))
  {
  }

  /** While no stored event's file has been left behind, a step leaves one behind exactly when it
      is such a fault. */
  lemma StepLeavesCopyIff(s: State, step: Step)
    requires BaseInv(s) && OnceInv(s) && Enabled(s, step)
    ensures OnceInv(Apply(s, step)) <==> !LeavesCopy(s, step)
  {
    match step
    case Post(arrives, now) => PostInsertsNewEvents(s, arrives, now);
    case RemoveEvent(_) => RemoveKeepsOnceIff(s, step);
    case AddEvent(_, _, _, _, _) => AddKeepsOnce(s, step);
    case ListEvents(_, _) => ListKeepsOnce(s, step);
    case Reply(_) => ReplyKeepsOnceIff(s, step);
    case Crash => ReplyKeepsOnceIff(s, step);
    case _ => QuietStepKeepsOnce(s, step);
  }

  lemma {:induction false} RunKeepsOnce(s: State, steps: seq<Step>)
    requires BaseInv(s) && OnceInv(s) && ValidRun(s, steps) && FaultlessRun(s, steps)
    ensures OnceInv(Run(s, steps))
    decreases |steps|
  {
    if steps == [] {
    } else {
      if LeavesCopy(s, steps[0]) { CopiesNeedFaults(s, steps[0]); }
      StepLeavesCopyIff(s, steps[0]);
      StepKeepsBase(s, steps[0]);
      RunKeepsOnce(Apply(s, steps[0]), steps[1..]);
    }
  }

  /** With no lost reply, failed deletion or crash, no event is inserted twice; requests may
      still get lost or be refused, and adds may interleave anywhere, under any names. */
  lemma InsertedAtMostOnce(s: State, steps: seq<Step>)
    requires Init(s) && ValidRun(s, steps) && FaultlessRun(s, steps)
    ensures Distinct(Run(s, steps).inserted)
  {
    RunKeepsOnce(s, steps);
  }

  // --- exactly when an event is inserted twice --------------------------------------------------

  /** The server takes a batch with an event it has already taken. */
  ghost predicate Repeats(s: State, step: Step)
    requires Enabled(s, step)
  {
    step.Post? && Taken(s, step) && exists e :: e in s.phase.batch && e.event.uid in s.inserted
  }

  ghost predicate RepeatFree(s: State, steps: seq<Step>)
    requires ValidRun(s, steps)
    decreases |steps|
  {
    steps == [] || (!Repeats(s, steps[0]) && RepeatFree(Apply(s, steps[0]), steps[1..]))
  }

  lemma DistinctAppendIff(a: seq<nat>, b: seq<nat>)
    requires Distinct(a) && Distinct(b)
    ensures Distinct(a + b) <==> forall u | u in b :: u !in a
  {
    if u :| u in b && u in a {
      var i :| 0 <= i < |a| && a[i] == u;
      var j :| 0 <= j < |b| && b[j] == u;
      assert (a + b)[i] == (a + b)[|a| + j];
    } else {
      DistinctAppend(a, b);
    }
  }

  lemma RepeatsIff(s: State, step: Step)
    requires Enabled(s, step) && step.Post?
    ensures Repeats(s, step) <==> Taken(s, step) && exists u :: u in UidsOf(s.phase.batch) && u in s.inserted
  {
    BatchUids(s.phase.batch);
  }

  lemma StepDistinctIff(s: State, step: Step)
    requires BaseInv(s) && Distinct(s.inserted) && Enabled(s, step)
    ensures Distinct(Apply(s, step).inserted) <==> !Repeats(s, step)
  {
    if step.Post? {
      TakenIff(s, step);
      BatchUidsDistinct(s);
      RepeatsIff(s, step);
      DistinctAppendIff(s.inserted, UidsOf(s.phase.batch));
    }
  }

  /** What was inserted stays recorded, in its place. */
  lemma {:induction false} InsertedGrows(s: State, steps: seq<Step>)
    requires ValidRun(s, steps)
    ensures s.inserted <= Run(s, steps).inserted
    decreases |steps|
  {
    if steps == [] {
    } else {
      InsertedGrows(Apply(s, steps[0]), steps[1..]);
    }
  }

  /** In every run, whatever fails: no event is inserted twice exactly when the server never
      takes a batch with an event it has. */
  lemma {:induction false} DistinctIff(s: State, steps: seq<Step>)
    requires BaseInv(s) && Distinct(s.inserted) && ValidRun(s, steps)
    ensures Distinct(Run(s, steps).inserted) <==> RepeatFree(s, steps)
    decreases |steps|
  {
    if steps == [] {
    } else {
      var t := Apply(s, steps[0]);
      StepDistinctIff(s, steps[0]);
      StepKeepsBase(s, steps[0]);
      if Distinct(t.inserted) {
        DistinctIff(t, steps[1..]);
      } else {
        InsertedGrows(t, steps[1..]);
        var i, j :| 0 <= i < j < |t.inserted| && t.inserted[i] == t.inserted[j];
        var end := Run(t, steps[1..]).inserted;
        assert end[i] == t.inserted[i] && end[j] == t.inserted[j];
      }
    }
  }

  lemma InsertedOnceIff(s: State, steps: seq<Step>)
    requires Init(s) && ValidRun(s, steps)
    ensures Distinct(Run(s, steps).inserted) <==> RepeatFree(s, steps)
  {
    DistinctIff(s, steps);
  }

  // --- each fault can repeat an event ---------------------------------------------------------------

  datatype Fault = LostReply | FailedDeletion | Crashed

  /** How a drain with this fault goes on after the server has taken its batch of one. */
  function AfterPost(fault: Fault): seq<Step> {
    match fault
    case LostReply => [Reply(false)]
    case Crashed => [Crash]
    case FailedDeletion => [Reply(true)] + [RemoveEvent(false), RemoveEvent(true)]
  }

  /** One drain whose batch is stored and that fails afterwards. */
  function FaultRound(name: string, fault: Fault): seq<Step> {
    [StartDrain([]), ListEvents({}, [name])] + ([Post(true, 0)] + AfterPost(fault))
  }

  /** A spool with one event in it that the server takes, and nothing else. */
  ghost predicate OneFile(s: State, name: string) {
    && s.phase == Idle && s.blobs == map[] && s.files.Keys == {name}
    && AppUsage.Acceptable(s.files[name]) && s.files[name].size < INGEST_LIMIT
  }

  /** The server has just taken the batch that holds this one file. */
  ghost predicate JustTaken(s: State, name: string) {
    s.files.Keys == {name} && s.phase == Posted([Entry(name, s.files[name])], true)
  }

  lemma OneIsTaken(s: State, name: string)
    requires OneFile(s, name)
    ensures var steps := [StartDrain([]), ListEvents({}, [name])];
      && ValidRun(s, steps) && Run(s, steps).phase.Listed?
      && var t := Apply(Run(s, steps), Post(true, 0));
      && JustTaken(t, name) && t.files == s.files && t.added == s.added && t.blobs == s.blobs
      && t.inserted == s.inserted + [s.files[name].uid]
      && Inserted(s.db, s.machine, [s.files[name]], 0) == Some(t.db) && t.machine == s.machine
  {
    RunOfTwo(s, StartDrain([]), ListEvents({}, [name]));
    var mid := Run(s, [StartDrain([]), ListEvents({}, [name])]);
    assert mid.phase.batch == [Entry(name, s.files[name])] && EventsOf(mid.phase.batch) == [s.files[name]];
    OneEventBody(s.files[name]);
    TakenIff(mid, Post(true, 0));
    assert UidsOf(mid.phase.batch) == [s.files[name].uid];
  }

  lemma FaultLeavesFile(s: State, name: string, fault: Fault)
    requires JustTaken(s, name)
    ensures ValidRun(s, AfterPost(fault))
    ensures Run(s, AfterPost(fault)) == s.(phase := Idle)
  {
    match fault
    case LostReply => RunOfOne(s, Reply(false));
    case Crashed => RunOfOne(s, Crash);
    case FailedDeletion =>
      RunOfOne(s, Reply(true));
      var t := Apply(s, Reply(true));
      RunOfTwo(t, RemoveEvent(false), RemoveEvent(true));
      RunAppend(s, [Reply(true)], [RemoveEvent(false), RemoveEvent(true)]);
  }

  lemma FaultInserts(s: State, name: string, fault: Fault)
    requires OneFile(s, name)
    ensures ValidRun(s, FaultRound(name, fault))
    ensures var t := Run(s, FaultRound(name, fault));
      && OneFile(t, name) && t.files == s.files && t.added == s.added
      && t.inserted == s.inserted + [s.files[name].uid]
      && Inserted(s.db, s.machine, [s.files[name]], 0) == Some(t.db) && t.machine == s.machine
  {
    OneIsTaken(s, name);
    var mid := Run(s, [StartDrain([]), ListEvents({}, [name])]);
    RunOfOne(mid, Post(true, 0));
    FaultLeavesFile(Apply(mid, Post(true, 0)), name, fault);
    RunAppend(mid, [Post(true, 0)], AfterPost(fault));
    RunAppend(s, [StartDrain([]), ListEvents({}, [name])], [Post(true, 0)] + AfterPost(fault));
  }

  lemma {:induction false} RoundsInsert(s: State, name: string, faults: seq<Fault>) returns (steps: seq<Step>)
    requires OneFile(s, name)
    ensures ValidRun(s, steps) && Run(s, steps).inserted == s.inserted + seq(|faults|, _ => s.files[name].uid)
    ensures Run(s, steps).added == s.added
    decreases |faults|
  {
    if faults == [] {
      steps := [];
    } else {
      var round := FaultRound(name, faults[0]);
      FaultInserts(s, name, faults[0]);
      var t := Run(s, round);
      var rest := RoundsInsert(t, name, faults[1..]);
      RunAppend(s, round, rest);
      steps := round + rest;
      assert [s.files[name].uid] + seq(|faults| - 1, _ => s.files[name].uid) == seq(|faults|, _ => s.files[name].uid);
    }
  }

  /** Each lost reply, failed deletion or crash can cost one more copy: for any list of such
      faults there is a run of a new machine in which one event is added and then inserted once
      for each of them. */
  lemma FaultsRepeat(machine: string, name: string, faults: seq<Fault>) returns (steps: seq<Step>)
    requires !HasNul(machine)
    ensures Init(Start(machine)) && ValidRun(Start(machine), steps)
    ensures Run(Start(machine), steps).added == [Added(0)]
    ensures Run(Start(machine), steps).inserted == seq(|faults|, _ => 0)
  {
    var s := Start(machine);
    assert |"dns"| != |"screenshot"|;
    RunOfOne(s, Add(name));
    var t := Apply(s, Add(name));
    AddedIsAcceptable(0);
    assert t.files == map[name := Added(0)];
    var rest := RoundsInsert(t, name, faults);
    RunAppend(s, [Add(name)], rest);
    steps := [Add(name)] + rest;
  }

  // --- in the order they were added --------------------------------------------------------

  /** This step adds its file after every earlier one in text order, and lists every file. */
  ghost predicate Ordered(s: State, step: Step) {
    match step
    case AddEvent(name, _, _, _, _) => forall n | n in s.names :: Less(n, name)
    case ListEvents(unreadable, _) => unreadable == {}
    case _ => true
  }

  ghost predicate OrderedRun(s: State, steps: seq<Step>)
    requires ValidRun(s, steps)
    decreases |steps|
  {
    steps == [] || (Ordered(s, steps[0]) && OrderedRun(Apply(s, steps[0]), steps[1..]))
  }

  /** Whenever an event is inserted, every event added before it has been inserted already. */
  ghost predicate AddOrder(inserted: seq<nat>) {
    forall p, u | 0 <= p < |inserted| && 0 <= u < inserted[p] :: u in inserted[..p]
  }

  /** Everything older than a batch entry is in the log or earlier in the batch. */
  ghost predicate BatchComplete(s: State) {
    s.phase.Listed? ==>
      forall i, u | 0 <= i < |s.phase.batch| && 0 <= u < s.phase.batch[i].event.uid ::
        u in s.inserted || u in UidsOf(s.phase.batch)[..i]
  }

  ghost predicate OrderInv(s: State) {
    Increasing(s.names) && AddOrder(s.inserted) && BatchComplete(s)
  }

  lemma OrderedIsSafe(s: State, step: Step)
    requires EventInv(s) && Ordered(s, step)
    ensures Safe(s, step)
  {
    if step.AddEvent? && step.name in s.files {
      LessIrreflexive(step.name);
    }
  }

  /** What PendingEvents lists is the oldest undelivered prefix: every event added before a
      listed one is in the log or listed before it. */
  lemma ListingIsOldestUndelivered(s: State, paths: seq<string>)
    requires EventInv(s) && OrderInv(s) && Enabled(s, ListEvents({}, paths))
    ensures BatchComplete(Apply(s, ListEvents({}, paths)))
  {
    var batch := Entries(s.files, paths);
    forall i, u | 0 <= i < |batch| && 0 <= u < batch[i].event.uid && u !in s.inserted
      ensures u in UidsOf(batch)[..i]
    {
      assert paths[i] in paths;
      var m := s.names[u];
      assert m in s.files && Less(m, paths[i]);
      if m !in paths {
        LessTransitive(m, paths[i], m);
        LessIrreflexive(m);
      }
      var j :| 0 <= j < |paths| && paths[j] == m;
      if j >= i {
        if j > i { LessTransitive(m, paths[i], m); }
        LessIrreflexive(m);
      }
      assert UidsOf(batch)[..i][j] == u;
    }
  }

  lemma AddOrderAppend(inserted: seq<nat>, uids: seq<nat>)
    requires AddOrder(inserted)
    requires forall i, u | 0 <= i < |uids| && 0 <= u < uids[i] :: u in inserted || u in uids[..i]
    ensures AddOrder(inserted + uids)
  {
    var all := inserted + uids;
    forall p, u | 0 <= p < |all| && 0 <= u < all[p] ensures u in all[..p] {
      if p < |inserted| {
        assert all[..p] == inserted[..p];
      } else {
        assert all[..p] == inserted + uids[..p - |inserted|];
      }
    }
  }

  lemma PostKeepsAddOrder(s: State, arrives: bool, now: int)
    requires EventInv(s) && OrderInv(s) && Enabled(s, Post(arrives, now))
    ensures OrderInv(Apply(s, Post(arrives, now)))
  {
    var uids := UidsOf(s.phase.batch);
    forall i, u | 0 <= i < |uids| && 0 <= u < uids[i] ensures u in s.inserted || u in uids[..i] {
      assert uids[i] == s.phase.batch[i].event.uid;
    }
    AddOrderAppend(s.inserted, uids);
  }

  lemma AddKeepsOrder(s: State, step: Step)
    requires EventInv(s) && OrderInv(s) && step.AddEvent? && Enabled(s, step) && Ordered(s, step)
    ensures OrderInv(Apply(s, step))
  {
    var t := Apply(s, step);
    forall i, j | 0 <= i < j < |t.names| ensures Less(t.names[i], t.names[j]) {
      assert s.names[i] in s.names;
    }
  }

  lemma StepKeepsOrder(s: State, step: Step)
    requires EventInv(s) && OrderInv(s) && Enabled(s, step) && Ordered(s, step)
    ensures OrderInv(Apply(s, step))
  {
    match step
    case ListEvents(_, paths) => ListingIsOldestUndelivered(s, paths);
    case Post(arrives, now) => PostKeepsAddOrder(s, arrives, now);
    case AddEvent(_, _, _, _, _) => AddKeepsOrder(s, step);
    case _ =>
  }

  lemma {:induction false} RunKeepsOrder(s: State, steps: seq<Step>)
    requires EventInv(s) && OrderInv(s) && ValidRun(s, steps) && OrderedRun(s, steps)
    ensures OrderInv(Run(s, steps))
    decreases |steps|
  {
    if steps == [] {
    } else {
      OrderedIsSafe(s, steps[0]);
      StepKeepsOrder(s, steps[0]);
      StepKeepsEventInv(s, steps[0]);
      RunKeepsOrder(Apply(s, steps[0]), steps[1..]);
    }
  }

  /** With names that grow and readable files, first deliveries reach the log in the order the
      events were added, whatever is lost, repeated, refused or crashes in between. */
  lemma FirstDeliveriesInAddOrder(s: State, steps: seq<Step>)
    requires Init(s) && ValidRun(s, steps) && OrderedRun(s, steps)
    ensures AddOrder(Run(s, steps).inserted)
  {
    RunKeepsOrder(s, steps);
  }

  // --- when names are fresh and growing ------------------------------------------------------

  /** No added file takes the name of a file that is still in the spool. */
  ghost predicate FreshRun(s: State, steps: seq<Step>)
    requires ValidRun(s, steps)
    decreases |steps|
  {
    steps == [] ||
    ((steps[0].AddEvent? ==> steps[0].name !in s.files) && FreshRun(Apply(s, steps[0]), steps[1..]))
  }

  lemma {:induction false} FreshRunIsSafe(s: State, steps: seq<Step>)
    requires ValidRun(s, steps) && FreshRun(s, steps)
    ensures SafeRun(s, steps)
    decreases |steps|
  {
    if steps == [] {
    } else {
      FreshRunIsSafe(Apply(s, steps[0]), steps[1..]);
    }
  }

  /** A stamp is the clock reading and counter value a name is made from. */
  datatype Stamp = Stamp(time: nat, count: nat)

  ghost predicate Stamped(steps: seq<Step>, stamps: seq<Stamp>) {
    && |stamps| == |steps|
    && forall i | 0 <= i < |steps| && steps[i].AddEvent? ::
         ClockReading(stamps[i].time) && steps[i].name == FileName(stamps[i].time, stamps[i].count)
  }

  ghost predicate StampsDiffer(steps: seq<Step>, stamps: seq<Stamp>)
    requires Stamped(steps, stamps)
  {
    forall i, j | 0 <= i < j < |steps| && steps[i].AddEvent? && steps[j].AddEvent? :: stamps[i] != stamps[j]
  }

  lemma {:induction false} FilesComeFromSteps(s: State, steps: seq<Step>)
    requires ValidRun(s, steps)
    requires forall i | 0 <= i < |steps| && steps[i].AddEvent? :: steps[i].name !in s.files
    requires forall i, j | 0 <= i < j < |steps| && steps[i].AddEvent? && steps[j].AddEvent? ::
      steps[i].name != steps[j].name
    ensures FreshRun(s, steps)
    decreases |steps|
  {
    if steps == [] {
    } else {
      var t := Apply(s, steps[0]);
      forall i | 0 <= i < |steps[1..]| && steps[1..][i].AddEvent? ensures steps[1..][i].name !in t.files {
        assert steps[1..][i] == steps[i + 1];
      }
      FilesComeFromSteps(t, steps[1..]);
    }
  }

  /** Names never collide, so no event is lost, as long as no two adds, by any of the processes
      sharing the spool, happen at the same nanosecond with the same counter value. */
  lemma DifferentStampsAreFresh(s: State, steps: seq<Step>, stamps: seq<Stamp>)
    requires Init(s) && ValidRun(s, steps) && Stamped(steps, stamps) && StampsDiffer(steps, stamps)
    ensures FreshRun(s, steps) && AllKept(Run(s, steps))
  {
    forall i, j | 0 <= i < j < |steps| && steps[i].AddEvent? && steps[j].AddEvent?
      ensures steps[i].name != steps[j].name
    {
      NamesUnique(stamps[i].time, stamps[i].count, stamps[j].time, stamps[j].count);
    }
    FilesComeFromSteps(s, steps);
    FreshRunIsSafe(s, steps);
    NoEventIsLost(s, steps);
  }

  /** One process at a time, restarts included: the clock never goes back, and while it stands
      still the counter goes up and stays below a million. */
  ghost predicate OneWriter(steps: seq<Step>, stamps: seq<Stamp>)
    requires Stamped(steps, stamps)
  {
    forall i, j | 0 <= i < j < |steps| && steps[i].AddEvent? && steps[j].AddEvent? ::
      || stamps[i].time < stamps[j].time
      || (stamps[i].time == stamps[j].time && stamps[i].count < stamps[j].count < 1_000_000)
  }

  ghost predicate ListsEverything(steps: seq<Step>) {
    forall i | 0 <= i < |steps| && steps[i].ListEvents? :: steps[i].unreadable == {}
  }

  lemma {:induction false} GrowingNamesAreOrdered(s: State, steps: seq<Step>)
    requires ValidRun(s, steps) && ListsEverything(steps)
    requires forall n, i | n in s.names && 0 <= i < |steps| && steps[i].AddEvent? :: Less(n, steps[i].name)
    requires forall i, j | 0 <= i < j < |steps| && steps[i].AddEvent? && steps[j].AddEvent? ::
      Less(steps[i].name, steps[j].name)
    ensures OrderedRun(s, steps)
    decreases |steps|
  {
    if steps == [] {
    } else {
      var t := Apply(s, steps[0]);
      forall i | 0 <= i < |steps[1..]| ensures steps[1..][i] == steps[i + 1] {}
      forall n, i | n in t.names && 0 <= i < |steps[1..]| && steps[1..][i].AddEvent?
        ensures Less(n, steps[1..][i].name)
      {
        if n !in s.names { assert n == steps[0].name; }
      }
      GrowingNamesAreOrdered(t, steps[1..]);
    }
  }

  /** A single writer with a clock that never goes back, whose counter may restart whenever the
      clock has moved, adds under growing names; so delivery is in add order. */
  lemma OneWriterDeliversInOrder(s: State, steps: seq<Step>, stamps: seq<Stamp>)
    requires Init(s) && ValidRun(s, steps) && Stamped(steps, stamps)
    requires OneWriter(steps, stamps) && ListsEverything(steps)
    ensures OrderedRun(s, steps) && AddOrder(Run(s, steps).inserted)
  {
    forall i, j | 0 <= i < j < |steps| && steps[i].AddEvent? && steps[j].AddEvent?
      ensures Less(steps[i].name, steps[j].name)
    {
      NameOrderIsStampOrder(stamps[i].time, stamps[i].count, stamps[j].time, stamps[j].count);
    }
    GrowingNamesAreOrdered(s, steps);
    FirstDeliveriesInAddOrder(s, steps);
  }

  lemma AddedTwice(s: State, name: string)
    requires Init(s) && Enabled(s, Add(name))
    ensures var t := Apply(Apply(s, Add(name)), Add(name));
      && t.files == map[name := Added(1)] && t.names == [name, name] && |t.added| == 2
      && t.inserted == [] && t.phase == Idle
  {
  }

  lemma SameNameIsDead(s: State, name: string)
    requires Init(s) && Enabled(s, Add(name))
    ensures var t := Apply(Apply(s, Add(name)), Add(name)); BaseInv(t) && |t.added| == 2 && !Alive(t, 0)
  {
    StepKeepsBase(s, Add(name));
    StepKeepsBase(Apply(s, Add(name)), Add(name));
    AddedTwice(s, name);
  }

  lemma SameNameTwice(s: State, name: string, more: seq<Step>)
    requires Init(s) && Enabled(s, Add(name)) && ValidRun(Apply(Apply(s, Add(name)), Add(name)), more)
    ensures var steps := [Add(name), Add(name)] + more;
      && ValidRun(s, steps) && 0 < |Run(s, steps).added|
      && !Kept(Run(s, steps), 0) && !AllKept(Run(s, steps))
  {
    SameNameIsDead(s, name);
    LossIsForGood(Apply(Apply(s, Add(name)), Add(name)), more, 0);
    RunOfTwo(s, Add(name), Add(name));
    RunAppend(s, [Add(name), Add(name)], more);
  }

  /** Service and helper each count from one in the shared directory: adding in the same
      nanosecond, the second event replaces the first, which is lost in every continuation. */
  lemma TwoWritersCollide(s: State, time: nat, more: seq<Step>)
    requires Init(s) && Enabled(s, Add(FileName(time, 1)))
    requires ValidRun(Apply(Apply(s, Add(FileName(time, 1))), Add(FileName(time, 1))), more)
    ensures var steps := [Add(FileName(time, 1)), Add(FileName(time, 1))] + more;
      ValidRun(s, steps) && !AllKept(Run(s, steps))
  {
    SameNameTwice(s, FileName(time, 1), more);
  }
}
