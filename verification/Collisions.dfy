/** What it costs when an added file takes the name of a file that is still in the spool: which
    steps lose an event for good, over whole runs and exactly. */
module Collisions {
  import opened Options
  import opened Json
  import opened EventStore
  import opened Pipeline
  import AppUsage

  /** The event is in a listed batch, which may yet be accepted. */
  ghost predicate InFlight(s: State, uid: nat) { s.phase.Listed? && uid in UidsOf(s.phase.batch) }

  /** The event can still be found or delivered. */
  ghost predicate Alive(s: State, uid: nat)
    requires History(s) && uid < |s.added|
  {
    Filed(s, uid) || uid in s.inserted || InFlight(s, uid)
  }

  ghost predicate AllAlive(s: State)
    requires History(s)
  {
    forall uid | 0 <= uid < |s.added| :: Alive(s, uid)
  }

  /** A listed batch is about to be dropped although one of its events is nowhere else: its
      file holds a later event by now. */
  ghost predicate Stranded(s: State) {
    s.phase.Listed? && exists e :: e in s.phase.batch && e.event.uid !in s.inserted && !StillIn(s, e)
  }

  predicate StillIn(s: State, e: Entry) { e.name in s.files && s.files[e.name] == e.event }

  /** A request that the server takes. */
  predicate Taken(s: State, step: Step)
    requires s.phase.Listed? && step.Post?
  {
    && step.arrives && BodySize(EventsOf(s.phase.batch)) <= INGEST_LIMIT
    && forall e | e in s.phase.batch :: AppUsage.Acceptable(e.event)
  }

  /** The steps that lose an event: an add onto the file of an event that is neither stored nor
      in a listed batch; a request that fails, or a crash, with a stranded batch; the removal
      of a file that holds a later event than the one delivered. */
  ghost predicate Loses(s: State, step: Step)
    requires Enabled(s, step)
  {
    match step
    case AddEvent(name, _, _, _, _) =>
      name in s.files && s.files[name].uid !in s.inserted && !InFlight(s, s.files[name].uid)
    case Post(_, _) => !Taken(s, step) && Stranded(s)
    case Crash => Stranded(s)
    case RemoveEvent(deleted) =>
      deleted && s.phase.batch != [] &&
      var name := s.phase.batch[0].name;
      name in s.files && s.files[name].uid !in s.inserted
    case _ => false
  }

  ghost predicate LosslessRun(s: State, steps: seq<Step>)
    requires ValidRun(s, steps)
    decreases |steps|
  {
    steps == [] || (!Loses(s, steps[0]) && LosslessRun(Apply(s, steps[0]), steps[1..]))
  }

  lemma TakenIff(s: State, step: Step)
    requires Enabled(s, step) && step.Post?
    ensures Apply(s, step).phase.accepted <==> Taken(s, step)
  {
    var batch := s.phase.batch;
    AppUsage.BatchInsert(s.db, s.machine, EventsOf(batch), step.now);
    forall e | e in EventsOf(batch) ensures exists b :: b in batch && b.event == e {
      var i :| 0 <= i < |batch| && EventsOf(batch)[i] == e;
      assert batch[i] in batch;
    }
    forall b | b in batch ensures b.event in EventsOf(batch) {
      var i :| 0 <= i < |batch| && batch[i] == b;
      assert EventsOf(batch)[i] == b.event;
    }
  }

  // --- one step ------------------------------------------------------------------------------

  lemma ListedWereFiled(s: State, step: Step, uid: nat)
    requires BaseInv(s) && Enabled(s, step) && step.ListEvents? && uid < |s.added|
    requires InFlight(Apply(s, step), uid)
    ensures Filed(s, uid)
  {
    var batch := Entries(s.files, step.paths);
    var i :| 0 <= i < |batch| && UidsOf(batch)[i] == uid;
    assert step.paths[i] in step.paths;
  }

  /** An event that is nowhere comes back by no step. */
  lemma DeadStaysDead(s: State, step: Step, uid: nat)
    requires BaseInv(s) && Enabled(s, step) && uid < |s.added| && !Alive(s, uid)
    ensures BaseInv(Apply(s, step)) && uid < |Apply(s, step).added| && !Alive(Apply(s, step), uid)
  {
    StepKeepsBase(s, step);
    match step
    case ListEvents(_, _) => if InFlight(Apply(s, step), uid) { ListedWereFiled(s, step, uid); }
    case AddEvent(_, _, _, _, _) =>
    case RemoveEvent(_) =>
    case Post(_, _) => PostLeavesFiles(s, step);
    case _ => OtherStepLeavesFiles(s, step);
  }

  lemma AddAliveIff(s: State, step: Step)
    requires BaseInv(s) && AllAlive(s) && Enabled(s, step) && step.AddEvent?
    ensures History(Apply(s, step)) && (AllAlive(Apply(s, step)) <==> !Loses(s, step))
  {
    StepKeepsBase(s, step);
    var t, n := Apply(s, step), step.name;
    forall uid | 0 <= uid < |s.added|
      ensures Alive(t, uid) <==> !(n in s.files && s.files[n].uid == uid && uid !in s.inserted && !InFlight(s, uid))
    {
      assert Alive(s, uid);
    }
    assert Filed(t, |s.added|);
    if Loses(s, step) { assert !Alive(t, s.files[n].uid); }
  }

  /** The batch in flight is dropped; files and log stay. */
  ghost predicate Dropped(s: State, t: State) {
    && !t.phase.Listed?
    && t.files == s.files && t.added == s.added && t.names == s.names && t.inserted == s.inserted
  }

  lemma StillInIsFiled(s: State, e: Entry)
    requires BaseInv(s) && e in Batch(s.phase)
    ensures StillIn(s, e) <==> Filed(s, e.event.uid)
  {
    assert WasAdded(s, e);
  }

  lemma DroppedDeadWasStranded(s: State, t: State, uid: nat)
    requires BaseInv(s) && Dropped(s, t) && uid < |s.added| && Alive(s, uid) && History(t) && !Alive(t, uid)
    ensures Stranded(s)
  {
    BatchUids(s.phase.batch);
    var e :| e in s.phase.batch && e.event.uid == uid;
    StillInIsFiled(s, e);
  }

  lemma DropAliveIff(s: State, t: State)
    requires BaseInv(s) && AllAlive(s) && Dropped(s, t)
    ensures History(t) && (AllAlive(t) <==> !Stranded(s))
  {
    if uid :| 0 <= uid < |s.added| && !Alive(t, uid) {
      DroppedDeadWasStranded(s, t, uid);
    }
    if Stranded(s) {
      var e :| e in s.phase.batch && e.event.uid !in s.inserted && !StillIn(s, e);
      StillInIsFiled(s, e);
      assert WasAdded(s, e) && !Alive(t, e.event.uid);
    }
  }

  lemma PostAliveIff(s: State, step: Step)
    requires BaseInv(s) && AllAlive(s) && Enabled(s, step) && step.Post?
    ensures History(Apply(s, step)) && (AllAlive(Apply(s, step)) <==> !Loses(s, step))
  {
    var t := Apply(s, step);
    TakenIff(s, step);
    if Taken(s, step) {
      forall uid | 0 <= uid < |t.added| ensures Alive(t, uid) {
        assert Alive(s, uid);
      }
    } else {
      DropAliveIff(s, t);
    }
  }

  lemma RemoveAliveIff(s: State, step: Step)
    requires BaseInv(s) && AllAlive(s) && Enabled(s, step) && step.RemoveEvent?
    ensures History(Apply(s, step)) && (AllAlive(Apply(s, step)) <==> !Loses(s, step))
  {
    var t := Apply(s, step);
    if step.deleted && s.phase.batch != [] {
      var n := s.phase.batch[0].name;
      forall uid | 0 <= uid < |s.added|
        ensures Alive(t, uid) <==> !(n in s.files && s.files[n].uid == uid && uid !in s.inserted)
      {
        assert Alive(s, uid);
      }
      if Loses(s, step) { assert !Alive(t, s.files[n].uid); }
    } else {
      DropAliveIff(s, t);
    }
  }

  lemma QuietStepKeepsAlive(s: State, step: Step)
    requires BaseInv(s) && AllAlive(s) && Enabled(s, step)
    requires step.ListEvents? || step.RunPurge? || step.DeleteShot? || (DrainStep(step) && !step.Crash?)
    ensures History(Apply(s, step)) && AllAlive(Apply(s, step))
  {
    var t := Apply(s, step);
    if !step.ListEvents? { OtherStepLeavesFiles(s, step); }
    forall uid | 0 <= uid < |t.added| ensures Alive(t, uid) {
      assert Alive(s, uid);
    }
  }

  /** From a state in which nothing is lost, a step keeps it that way exactly when it is none
      of the losing ones. */
  lemma StepAliveIff(s: State, step: Step)
    requires BaseInv(s) && AllAlive(s) && Enabled(s, step)
    ensures History(Apply(s, step)) && (AllAlive(Apply(s, step)) <==> !Loses(s, step))
  {
    match step
    case AddEvent(_, _, _, _, _) => AddAliveIff(s, step);
    case Post(_, _) => PostAliveIff(s, step);
    case RemoveEvent(_) => RemoveAliveIff(s, step);
    case Crash => DropAliveIff(s, Apply(s, step));
    case _ => QuietStepKeepsAlive(s, step);
  }

  // --- whole runs ------------------------------------------------------------------------------

  /** An event that is nowhere comes back in no run. */
  lemma {:induction false} LossIsForGood(s: State, steps: seq<Step>, uid: nat)
    requires BaseInv(s) && ValidRun(s, steps) && uid < |s.added| && !Alive(s, uid)
    ensures var t := Run(s, steps); BaseInv(t) && uid < |t.added| && !Alive(t, uid) && !Kept(t, uid)
    decreases |steps|
  {
    if steps == [] {
      KeptIffFiledOrInserted(s, uid);
    } else {
      DeadStaysDead(s, steps[0], uid);
      LossIsForGood(Apply(s, steps[0]), steps[1..], uid);
    }
  }

  lemma {:induction false} RunAliveIff(s: State, steps: seq<Step>)
    requires BaseInv(s) && AllAlive(s) && ValidRun(s, steps)
    ensures BaseInv(Run(s, steps)) && (AllAlive(Run(s, steps)) <==> LosslessRun(s, steps))
    decreases |steps|
  {
    RunKeepsBase(s, steps);
    if steps == [] {
    } else {
      var t := Apply(s, steps[0]);
      StepKeepsBase(s, steps[0]);
      StepAliveIff(s, steps[0]);
      if AllAlive(t) {
        RunAliveIff(t, steps[1..]);
      } else {
        var uid :| 0 <= uid < |t.added| && !Alive(t, uid);
        LossIsForGood(t, steps[1..], uid);
      }
    }
  }

  lemma AliveIsKept(s: State)
    requires BaseInv(s) && (!s.phase.Listed? || BatchClean(s))
    ensures AllAlive(s) <==> AllKept(s)
  {
    forall uid | 0 <= uid < |s.added| ensures Alive(s, uid) <==> Kept(s, uid) {
      KeptIffFiledOrInserted(s, uid);
      if InFlight(s, uid) {
        BatchUids(s.phase.batch);
        var e :| e in s.phase.batch && e.event.uid == uid;
        assert WasAdded(s, e);
      }
    }
  }

  /** A run loses no event exactly when none of its steps is a losing one; unless a batch is
      listed at the end, every event is then a file, in the log or purged from it. */
  lemma KeepsAllIff(s: State, steps: seq<Step>)
    requires Init(s) && ValidRun(s, steps)
    ensures var t := Run(s, steps);
      && History(t) && (AllAlive(t) <==> LosslessRun(s, steps))
      && (!t.phase.Listed? ==> (AllKept(t) <==> LosslessRun(s, steps)))
  {
    RunAliveIff(s, steps);
    if !Run(s, steps).phase.Listed? {
      AliveIsKept(Run(s, steps));
    }
  }

  // --- in terms of adds alone --------------------------------------------------------------------

  /** No added file takes a name of the batch in flight. */
  ghost predicate Untouched(s: State, step: Step) { step.AddEvent? ==> !InBatch(s, step.name) }

  ghost predicate UntouchedRun(s: State, steps: seq<Step>)
    requires ValidRun(s, steps)
    decreases |steps|
  {
    steps == [] || (Untouched(s, steps[0]) && UntouchedRun(Apply(s, steps[0]), steps[1..]))
  }

  lemma AddStaysClean(s: State, step: Step)
    requires BatchClean(s) && Enabled(s, step) && step.AddEvent? && Untouched(s, step)
    ensures BatchClean(Apply(s, step))
  {
    forall e | e in Batch(s.phase) ensures e.name != step.name {
      assert InBatch(s, e.name);
    }
  }

  lemma RemoveStaysClean(s: State, step: Step)
    requires BaseInv(s) && BatchClean(s) && Enabled(s, step) && step.RemoveEvent?
    ensures BatchClean(Apply(s, step))
  {
    if s.phase.batch != [] { RestOfBatch(s.phase.batch); }
  }

  lemma UntouchedStaysClean(s: State, step: Step)
    requires BaseInv(s) && BatchClean(s) && Enabled(s, step) && Untouched(s, step)
    ensures BatchClean(Apply(s, step))
  {
    match step
    case ListEvents(_, _) => ListKeepsClean(s, step);
    case RemoveEvent(_) => RemoveStaysClean(s, step);
    case AddEvent(_, _, _, _, _) => AddStaysClean(s, step);
    case Post(_, _) => PostLeavesFiles(s, step);
    case _ => OtherStepLeavesFiles(s, step);
  }

  lemma InFlightIsInBatch(s: State, name: string)
    requires BaseInv(s) && name in s.files && InFlight(s, s.files[name].uid)
    ensures InBatch(s, name)
  {
    BatchUids(s.phase.batch);
    var e :| e in s.phase.batch && e.event.uid == s.files[name].uid;
    assert WasAdded(s, e);
  }

  lemma CleanLosesIff(s: State, step: Step)
    requires BaseInv(s) && BatchClean(s) && Enabled(s, step) && Untouched(s, step)
    ensures Loses(s, step) <==> !Safe(s, step)
  {
    match step
    case AddEvent(name, _, _, _, _) =>
      if name in s.files && InFlight(s, s.files[name].uid) {
        InFlightIsInBatch(s, name);
      }
    case RemoveEvent(_) => if s.phase.batch != [] { assert s.phase.batch[0] in Batch(s.phase); }
    case _ =>
  }

  lemma {:induction false} CleanLosslessIffSafe(s: State, steps: seq<Step>)
    requires BaseInv(s) && BatchClean(s) && ValidRun(s, steps) && UntouchedRun(s, steps)
    ensures BatchClean(Run(s, steps)) && (LosslessRun(s, steps) <==> SafeRun(s, steps))
    decreases |steps|
  {
    if steps == [] {
    } else {
      CleanLosesIff(s, steps[0]);
      UntouchedStaysClean(s, steps[0]);
      StepKeepsBase(s, steps[0]);
      CleanLosslessIffSafe(Apply(s, steps[0]), steps[1..]);
    }
  }

  /** As long as no added file takes a name of the batch in flight, a run keeps all events
      exactly when every file it adds takes a free name or that of an event already stored. */
  lemma UntouchedKeepsAllIff(s: State, steps: seq<Step>)
    requires Init(s) && ValidRun(s, steps) && UntouchedRun(s, steps)
    ensures AllKept(Run(s, steps)) <==> SafeRun(s, steps)
  {
    RunAliveIff(s, steps);
    CleanLosslessIffSafe(s, steps);
    AliveIsKept(Run(s, steps));
  }

  // --- adds to a name of the batch in flight: each way it can end ----------------------------------

  function Add(name: string): Step { AddEvent(name, "dns", Some(0), map[], 100) }

  function Added(uid: nat): Event { Event(uid, "dns", Some(0), map[], 100) }

  /** One event has been added and listed. */
  function ListedOne(machine: string, name: string): State {
    Start(machine).(files := map[name := Added(0)], phase := Listed([Entry(name, Added(0))]),
                    added := [Added(0)], names := [name])
  }

  function ToListed(name: string): seq<Step> { [Add(name)] + [StartDrain([]), ListEvents({}, [name])] }

  lemma ReachListed(machine: string, name: string)
    ensures ValidRun(Start(machine), ToListed(name))
    ensures Run(Start(machine), ToListed(name)) == ListedOne(machine, name)
  {
    var s := Start(machine);
    assert "dns" != "screenshot" by { assert |"dns"| != |"screenshot"|; }
    RunOfOne(s, Add(name));
    var t := Apply(s, Add(name));
    RunOfTwo(t, StartDrain([]), ListEvents({}, [name]));
    RunAppend(s, [Add(name)], [StartDrain([]), ListEvents({}, [name])]);
    assert Entries(t.files, [name]) == [Entry(name, Added(0))];
  }

  lemma AddedIsAcceptable(uid: nat)
    ensures AppUsage.Acceptable(Added(uid))
  {
    assert |"dns"| == 3 && |"screenshot"| == 10 && |"foreground"| == 10;
    assert "dns"[0] != NUL && "dns"[1] != NUL && "dns"[2] != NUL;
  }

  /** While its file is listed, an event is overwritten; then the request fails: the event is
      gone, in every continuation. */
  lemma OverwrittenThenRefused(machine: string, name: string) returns (steps: seq<Step>)
    requires !HasNul(machine)
    ensures ValidRun(Start(machine), steps) && !AllKept(Run(Start(machine), steps))
    ensures steps == ToListed(name) + [Add(name), Post(false, 0)]
    ensures GoneForGood(Run(Start(machine), steps), 0)
  {
    var s, t := Start(machine), ListedOne(machine, name);
    ReachListed(machine, name);
    RunOfTwo(t, Add(name), Post(false, 0));
    RunAppend(s, ToListed(name), [Add(name), Post(false, 0)]);
    steps := ToListed(name) + [Add(name), Post(false, 0)];
    var end := Run(s, steps);
    assert end.files == map[name := Added(1)] && end.added == [Added(0), Added(1)];
    assert !Kept(end, 0);
    RunKeepsBase(s, steps);
    DeadIsGoneForGood(end, 0);
  }

  /** No continuation finds the event again. */
  ghost predicate GoneForGood(s: State, uid: nat) {
    forall more: seq<Step> | ValidRun(s, more) :: uid < |Run(s, more).added| && !Kept(Run(s, more), uid)
  }

  lemma DeadIsGoneForGood(s: State, uid: nat)
    requires BaseInv(s) && uid < |s.added| && !Alive(s, uid)
    ensures GoneForGood(s, uid)
  {
    forall more: seq<Step> | ValidRun(s, more) ensures uid < |Run(s, more).added| && !Kept(Run(s, more), uid) {
      LossIsForGood(s, more, uid);
    }
  }

  lemma Accepted(t: State, name: string, machine: string)
    requires t.phase == Listed([Entry(name, Added(0))]) && t.machine == machine && t.inserted == []
    ensures Enabled(t, Post(true, 0))
    ensures var u := Apply(t, Post(true, 0));
      && u.phase == Posted(t.phase.batch, true) && u.inserted == [0]
      && u.files == t.files && u.added == t.added && u.names == t.names
  {
    AddedIsAcceptable(0);
    TakenIff(t, Post(true, 0));
    OneEventBody(Added(0));
    assert EventsOf(t.phase.batch) == [Added(0)];
    assert UidsOf(t.phase.batch) == [0];
  }

  /** After the batch was accepted and its reply arrived or was lost. */
  function AfterReply(delivered: bool): seq<Step> { [Post(true, 0), Reply(delivered)] }

  lemma Replied(t: State, name: string, machine: string, delivered: bool)
    requires t.phase == Listed([Entry(name, Added(0))]) && t.machine == machine && t.inserted == []
    ensures ValidRun(t, AfterReply(delivered))
    ensures var u := Run(t, AfterReply(delivered));
      && u.phase == (if delivered then Removing(t.phase.batch) else Idle) && u.inserted == [0]
      && u.files == t.files && u.added == t.added && u.names == t.names
  {
    Accepted(t, name, machine);
    RunOfTwo(t, Post(true, 0), Reply(delivered));
  }

  /** The event is delivered; before its file is removed another event takes the name; the
      removal then deletes the new event, although the replaced one was stored. */
  lemma OverwrittenThenRemoved(machine: string, name: string) returns (steps: seq<Step>)
    requires !HasNul(machine)
    ensures ValidRun(Start(machine), steps) && !AllKept(Run(Start(machine), steps))
    ensures steps == ToListed(name) + [Post(true, 0), Reply(true)] + [Add(name), RemoveEvent(true)]
  {
    var s, t := Start(machine), ListedOne(machine, name);
    ReachListed(machine, name);
    Replied(t, name, machine, true);
    RunAppend(s, ToListed(name), AfterReply(true));
    var mid := ToListed(name) + AfterReply(true);
    RunKeepsBase(s, mid);
    RemovedUnderAdd(Run(s, mid), name);
    RunAppend(s, mid, [Add(name), RemoveEvent(true)]);
    steps := mid + [Add(name), RemoveEvent(true)];
  }

  lemma RemovedUnderAdd(u: State, name: string)
    requires BaseInv(u) && u.phase == Removing([Entry(name, Added(0))]) && u.inserted == [0]
    requires u.files == map[name := Added(0)] && u.added == [Added(0)]
    ensures ValidRun(u, [Add(name), RemoveEvent(true)]) && !AllKept(Run(u, [Add(name), RemoveEvent(true)]))
  {
    assert |"dns"| != |"screenshot"|;
    RunOfTwo(u, Add(name), RemoveEvent(true));
    RunKeepsBase(u, [Add(name), RemoveEvent(true)]);
    var end := Run(u, [Add(name), RemoveEvent(true)]);
    assert end.files == map[] && end.inserted == [0] && |end.added| == 2;
    KeptIffFiledOrInserted(end, 1);
  }

  /** The same overwriting of a listed file costs nothing when the request succeeds and its
      reply is lost: which events are lost is decided only by the later steps. */
  lemma OverwrittenYetKept(machine: string, name: string) returns (steps: seq<Step>)
    requires !HasNul(machine)
    ensures ValidRun(Start(machine), steps) && AllKept(Run(Start(machine), steps))
    ensures steps == ToListed(name) + [Add(name)] + [Post(true, 0), Reply(false)]
  {
    var s, t := Start(machine), ListedOne(machine, name);
    ReachListed(machine, name);
    assert |"dns"| != |"screenshot"|;
    RunOfOne(t, Add(name));
    RunAppend(s, ToListed(name), [Add(name)]);
    var u := Apply(t, Add(name));
    Replied(u, name, machine, false);
    var mid := ToListed(name) + [Add(name)];
    RunAppend(s, mid, AfterReply(false));
    steps := mid + AfterReply(false);
    RunKeepsBase(s, steps);
    BothKept(Run(s, steps), name);
  }

  lemma BothKept(end: State, name: string)
    requires BaseInv(end) && end.inserted == [0] && end.names == [name, name]
    requires end.files == map[name := Added(1)] && |end.added| == 2
    ensures AllKept(end)
  {
    KeptIffFiledOrInserted(end, 0);
    KeptIffFiledOrInserted(end, 1);
  }
}
