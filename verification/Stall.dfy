/** What stops the whole queue: one event the server refuses, as long as its file is among the
    oldest five hundred, and oldest files that are too large together for one request. */
module Stall {
  import opened Options
  import opened Json
  import opened Text
  import opened EventStore
  import opened SpoolQueue
  import AppUsage
  import opened Pipeline
  import opened Collisions
  import opened Delivery

  /** The files that come before this one in the drain's order. */
  function Older(files: map<string, Event>, name: string): set<string> { set n | n in files && Less(n, name) }

  /** The server takes no such batch. */
  ghost predicate Refused(batch: seq<Entry>) {
    BodySize(EventsOf(batch)) > INGEST_LIMIT || exists e :: e in batch && !AppUsage.Acceptable(e.event)
  }

  /** What the drain is doing cannot deliver anything any more. */
  ghost predicate PhaseBlocked(phase: Phase) {
    match phase
    case Listed(batch) => Refused(batch)
    case Posted(_, accepted) => !accepted
    case Removing(_) => false
    case _ => true
  }

  /** The file `bad` holds an unacceptable event and fewer than five hundred files are older. */
  ghost predicate Blocked(s: State, bad: string) {
    && bad in s.files && !AppUsage.Acceptable(s.files[bad])
    && |Older(s.files, bad)| < EVENTS_PER_DRAIN
    && PhaseBlocked(s.phase)
  }

  /** Added files sort after the bad one, and the bad one stays readable. */
  ghost predicate Behind(step: Step, bad: string) {
    match step
    case AddEvent(name, _, _, _, _) => Less(bad, name)
    case ListEvents(unreadable, _) => bad !in unreadable
    case _ => true
  }

  ghost predicate AllBehind(steps: seq<Step>, bad: string) { forall i | 0 <= i < |steps| :: Behind(steps[i], bad) }

  lemma {:induction false} DistinctCount(names: seq<string>)
    requires forall i, j | 0 <= i < j < |names| :: names[i] != names[j]
    ensures |set n | n in names| == |names|
  {
    if names == [] {
    } else {
      var init, last := names[..|names| - 1], names[|names| - 1];
      DistinctCount(init);
      assert names == init + [last];
      assert (set n | n in names) == (set n | n in init) + {last};
    }
  }

  lemma IncreasingCount(names: seq<string>)
    requires Increasing(names)
    ensures |set n | n in names| == |names|
  {
    forall i, j | 0 <= i < j < |names| ensures names[i] != names[j] {
      LessIrreflexive(names[i]);
    }
    DistinctCount(names);
  }

  lemma SubsetCount(a: set<string>, b: set<string>)
    requires a <= b
    ensures |a| <= |b|
  {
    assert b == a + (b - a);
  }

  /** A listing that leaves the file out holds five hundred older files. */
  lemma BadIsListed(s: State, bad: string, unreadable: set<string>, paths: seq<string>)
    requires Blocked(s, bad) && bad !in unreadable && Enabled(s, ListEvents(unreadable, paths))
    ensures bad in paths
  {
    if bad !in paths {
      IncreasingCount(paths);
      SubsetCount((set n | n in paths), Older(s.files, bad));
    }
  }

  lemma ListStaysBlocked(s: State, step: Step, bad: string)
    requires Blocked(s, bad) && step.ListEvents? && Enabled(s, step) && Behind(step, bad)
    ensures Blocked(Apply(s, step), bad)
  {
    BadIsListed(s, bad, step.unreadable, step.paths);
    var i :| 0 <= i < |step.paths| && step.paths[i] == bad;
    assert Entries(s.files, step.paths)[i] == Entry(bad, s.files[bad]);
  }

  lemma AddStaysBlocked(s: State, step: Step, bad: string)
    requires Blocked(s, bad) && step.AddEvent? && Enabled(s, step) && Behind(step, bad)
    ensures Blocked(Apply(s, step), bad) && Apply(s, step).files[bad] == s.files[bad]
  {
    LessIrreflexive(bad);
    if Less(step.name, bad) { LessTransitive(bad, step.name, bad); }
    assert Older(Apply(s, step).files, bad) == Older(s.files, bad);
  }

  lemma StepStaysBlocked(s: State, step: Step, bad: string)
    requires Blocked(s, bad) && Enabled(s, step) && Behind(step, bad)
    ensures var t := Apply(s, step);
      && Blocked(t, bad) && t.files[bad] == s.files[bad]
      && t.inserted == s.inserted && s.files.Keys <= t.files.Keys
  {
    match step
    case ListEvents(_, _) => ListStaysBlocked(s, step, bad);
    case AddEvent(_, _, _, _, _) => AddStaysBlocked(s, step, bad);
    case Post(_, _) => TakenIff(s, step);
    case _ =>
  }

  /** An unacceptable event among the oldest five hundred files stalls the queue for good: in
      every run whose new files sort after it and that can read it, nothing is inserted again,
      no file leaves the spool, and the event stays where it is. */
  lemma {:induction false} BadEventStalls(s: State, steps: seq<Step>, bad: string)
    requires Blocked(s, bad) && ValidRun(s, steps) && AllBehind(steps, bad)
    ensures var t := Run(s, steps);
      && t.inserted == s.inserted && s.files.Keys <= t.files.Keys
      && bad in t.files && t.files[bad] == s.files[bad] && Blocked(t, bad)
    decreases |steps|
  {
    if steps == [] {
    } else {
      var t := Apply(s, steps[0]);
      assert Behind(steps[0], bad);
      StepStaysBlocked(s, steps[0], bad);
      forall i | 0 <= i < |steps[1..]| ensures Behind(steps[1..][i], bad) {
        assert steps[1..][i] == steps[i + 1];
      }
      BadEventStalls(t, steps[1..], bad);
    }
  }

  lemma {:induction false} OrderedRunIsBehind(s: State, steps: seq<Step>, bad: string)
    requires ValidRun(s, steps) && OrderedRun(s, steps) && bad in s.names
    ensures AllBehind(steps, bad)
    decreases |steps|
  {
    if steps == [] {
    } else {
      var t := Apply(s, steps[0]);
      OrderedRunIsBehind(t, steps[1..], bad);
      forall i | 0 <= i < |steps| ensures Behind(steps[i], bad) {
        if i > 0 { assert steps[i] == steps[1..][i - 1]; }
      }
    }
  }

  /** So with growing names and readable files, once such an event is in the spool of a running
      agent, nothing is ever delivered again. */
  lemma BadEventStallsOrderedRuns(s: State, before: seq<Step>, after: seq<Step>, bad: string)
    requires Init(s) && ValidRun(s, before) && Blocked(Run(s, before), bad)
    requires ValidRun(Run(s, before), after) && OrderedRun(Run(s, before), after)
    ensures Run(Run(s, before), after).inserted == Run(s, before).inserted
    ensures Run(s, before).files.Keys <= Run(Run(s, before), after).files.Keys
  {
    var t := Run(s, before);
    RunKeepsBase(s, before);
    assert t.names[t.files[bad].uid] == bad;
    OrderedRunIsBehind(t, after, bad);
    BadEventStalls(t, after, bad);
  }

  /** A listed batch that reaches the server is stored exactly when it holds no such event and
      is not too long. */
  lemma ListedIsStoredIff(s: State, now: int)
    requires s.phase.Listed? && s.phase.batch != []
    ensures var t := Apply(s, Post(true, now));
      t.inserted != s.inserted <==>
        && BodySize(EventsOf(s.phase.batch)) <= INGEST_LIMIT
        && forall e | e in s.phase.batch :: AppUsage.Acceptable(e.event)
  {
    TakenIff(s, Post(true, now));
    assert |UidsOf(s.phase.batch)| > 0;
  }

  /** It takes one map key: an event with a NUL in a key, added to the empty spool of a new
      machine, is never stored, and neither is anything added after it. */
  lemma NulKeyStalls(machine: string, bad: string, steps: seq<Step>)
    requires !HasNul(machine) && Enabled(Start(machine), NulKeyEvent(bad))
    requires ValidRun(Apply(Start(machine), NulKeyEvent(bad)), steps) && AllBehind(steps, bad)
    ensures var run := [NulKeyEvent(bad)] + steps;
      && Init(Start(machine)) && ValidRun(Start(machine), run)
      && Run(Start(machine), run).inserted == [] && bad in Run(Start(machine), run).files
  {
    var s, t := Start(machine), Apply(Start(machine), NulKeyEvent(bad));
    RunOfOne(s, NulKeyEvent(bad));
    RunAppend(s, [NulKeyEvent(bad)], steps);
    LessIrreflexive(bad);
    assert Older(t.files, bad) == {};
    assert HasNul([NUL]) && [NUL] in t.files[bad].data;
    assert !KeysClean(Obj(t.files[bad].data));
    BadEventStalls(t, steps, bad);
  }

  function NulKeyEvent(name: string): Step { AddEvent(name, "dns", Some(0), map[[NUL] := Null], 100) }

  // --- oldest files that are too large together ------------------------------------------------------

  function EventsAt(files: map<string, Event>, names: seq<string>): (events: seq<Event>)
    requires forall n | n in names :: n in files
    ensures |events| == |names| && forall i | 0 <= i < |names| :: events[i] == files[names[i]]
  {
    seq(|names|, i requires 0 <= i < |names| => files[names[i]])
  }

  /** `head` are the oldest files, at most five hundred, and their events exceed a request. */
  ghost predicate TooLarge(s: State, head: seq<string>) {
    && |head| <= EVENTS_PER_DRAIN && OldestPrefix(s.files.Keys, |head|, head)
    && BodySize(EventsAt(s.files, head)) > INGEST_LIMIT
    && PhaseBlocked(s.phase)
  }

  /** Added files sort after the head, which stays readable. */
  ghost predicate BehindAll(step: Step, head: seq<string>) { forall h | h in head :: Behind(step, h) }

  ghost predicate StepsBehindAll(steps: seq<Step>, head: seq<string>) {
    forall i | 0 <= i < |steps| :: BehindAll(steps[i], head)
  }

  lemma FirstOfListing(names: set<string>, max: nat, listed: seq<string>, k: nat)
    requires OldestPrefix(names, max, listed) && k <= |listed|
    ensures OldestPrefix(names, k, listed[..k])
  {
    assert forall m | 0 <= m < k :: listed[m] in listed[..k];
    forall n | n in names && n !in listed[..k] ensures forall p | p in listed[..k] :: Less(p, n) {
      forall p | p in listed[..k] ensures Less(p, n) {
        var i :| 0 <= i < k && listed[i] == p;
        if n in listed {
          var j :| 0 <= j < |listed| && listed[j] == n;
          assert i < j;
        }
      }
    }
  }

  /** Every listing that can read the head begins with it. */
  lemma HeadIsListed(names: set<string>, unreadable: set<string>, head: seq<string>, paths: seq<string>)
    requires |head| <= EVENTS_PER_DRAIN && OldestPrefix(names, |head|, head)
    requires OldestPrefix(names - unreadable, EVENTS_PER_DRAIN, paths) && forall h | h in head :: h !in unreadable
    ensures head <= paths
  {
    var readable := names - unreadable;
    assert OldestPrefix(readable, |head|, head);
    if |paths| < |head| {
      IncreasingCount(head);
      IncreasingCount(paths);
      assert forall h | h in head :: h in paths;
      SubsetCount((set n | n in head), (set n | n in paths));
    }
    FirstOfListing(readable, EVENTS_PER_DRAIN, paths, |head|);
    OldestPrefixIsUnique(readable, |head|, head, paths[..|head|]);
  }

  lemma {:induction false} LongerBody(a: seq<Event>, b: seq<Event>)
    ensures BodySize(a + b) >= BodySize(a)
  {
    if b == [] {
      assert a + b == a;
    } else {
      assert (a + b)[..|a + b| - 1] == a + b[..|b| - 1];
      LongerBody(a, b[..|b| - 1]);
    }
  }

  lemma ListStaysTooLarge(s: State, step: Step, head: seq<string>)
    requires TooLarge(s, head) && step.ListEvents? && Enabled(s, step) && BehindAll(step, head)
    ensures TooLarge(Apply(s, step), head)
  {
    forall h | h in head ensures h !in step.unreadable { assert Behind(step, h); }
    HeadIsListed(s.files.Keys, step.unreadable, head, step.paths);
    var listed, first := EventsOf(Entries(s.files, step.paths)), EventsAt(s.files, head);
    assert listed == first + listed[|head|..] by { assert listed[..|head|] == first; }
    LongerBody(first, listed[|head|..]);
    assert head != [] by { assert BodySize([]) == 0; }
  }

  lemma AddStaysTooLarge(s: State, step: Step, head: seq<string>)
    requires TooLarge(s, head) && step.AddEvent? && Enabled(s, step) && BehindAll(step, head)
    ensures TooLarge(Apply(s, step), head)
  {
    var t := Apply(s, step);
    forall h | h in head ensures Less(h, step.name) && h != step.name {
      assert Behind(step, h);
      LessIrreflexive(h);
    }
    assert EventsAt(t.files, head) == EventsAt(s.files, head);
  }

  lemma StepStaysTooLarge(s: State, step: Step, head: seq<string>)
    requires TooLarge(s, head) && Enabled(s, step) && BehindAll(step, head)
    ensures var t := Apply(s, step);
      TooLarge(t, head) && t.inserted == s.inserted && s.files.Keys <= t.files.Keys
  {
    match step
    case ListEvents(_, _) => ListStaysTooLarge(s, step, head);
    case AddEvent(_, _, _, _, _) => AddStaysTooLarge(s, step, head);
    case Post(_, _) => TakenIff(s, step);
    case _ =>
  }

  /** When the oldest files, at most five hundred, take more than 8 MiB together, the queue stalls
      in the same way: in every run whose new files sort after them and that can read them,
      nothing is inserted again and no file leaves the spool. */
  lemma {:induction false} LargeHeadStalls(s: State, steps: seq<Step>, head: seq<string>)
    requires TooLarge(s, head) && ValidRun(s, steps) && StepsBehindAll(steps, head)
    ensures var t := Run(s, steps);
      TooLarge(t, head) && t.inserted == s.inserted && s.files.Keys <= t.files.Keys
    decreases |steps|
  {
    if steps == [] {
    } else {
      assert BehindAll(steps[0], head);
      StepStaysTooLarge(s, steps[0], head);
      forall i | 0 <= i < |steps[1..]| ensures BehindAll(steps[1..][i], head) {
        assert steps[1..][i] == steps[i + 1];
      }
      LargeHeadStalls(Apply(s, steps[0]), steps[1..], head);
    }
  }

  /** It takes one event of 8 MiB: added to the empty spool of a new machine, it is never stored,
      and neither is anything added after it. */
  lemma LargeEventStalls(s: State, add: Step, steps: seq<Step>)
    requires Init(s) && add.AddEvent? && add.size >= INGEST_LIMIT && Enabled(s, add)
    requires ValidRun(Apply(s, add), steps) && StepsBehindAll(steps, [add.name])
    ensures ValidRun(s, [add] + steps) && Run(s, [add] + steps).inserted == []
    ensures add.name in Run(s, [add] + steps).files
  {
    var t := Apply(s, add);
    RunOfOne(s, add);
    RunAppend(s, [add], steps);
    var e := t.files[add.name];
    assert EventsAt(t.files, [add.name]) == [e];
    OneEventBody(e);
    assert t.files.Keys == {add.name};
    LargeHeadStalls(t, steps, [add.name]);
  }
}
