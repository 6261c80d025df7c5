/** What the history of a run records: an event counts as purged, and a blob as deleted, exactly
    when a step of the run did that. */
module Histories {
  import opened EventStore
  import opened Pipeline
  import AppUsage

  // --- purged events ----------------------------------------------------------------------

  /** The step is a purge, and every log row of this event is of a kind and an age it removes. */
  ghost predicate PurgesEvent(s: State, step: Step, uid: nat) {
    && step.RunPurge? && uid in LogUids(s.db.events)
    && forall row | row in s.db.events && row.uid == uid :: AppUsage.StaleFor(row, step.cutoffs)
  }

  ghost predicate PurgedIn(s: State, steps: seq<Step>, uid: nat)
    requires ValidRun(s, steps)
    decreases |steps|
  {
    steps != [] && (PurgesEvent(s, steps[0], uid) || PurgedIn(Apply(s, steps[0]), steps[1..], uid))
  }

  lemma PurgeTakesIff(s: State, step: Step, uid: nat)
    requires Enabled(s, step) && step.RunPurge?
    ensures uid in LogUids(Apply(s, step).db.events) <==> uid in LogUids(s.db.events) && !PurgesEvent(s, step, uid)
  {
    var after := Apply(s, step).db.events;
    forall row: Row ensures row in after <==> row in s.db.events && !AppUsage.StaleFor(row, step.cutoffs) {
      AppUsage.PurgeRemovesExactlyTheStale(s.db, step.cutoffs, step.stuck, row);
      assert row in after <==> row in multiset(after);
      assert row in s.db.events <==> row in multiset(s.db.events);
    }
  }

  lemma StepPurgesIff(s: State, step: Step, uid: nat)
    requires Enabled(s, step)
    ensures uid in Apply(s, step).purged <==> uid in s.purged || PurgesEvent(s, step, uid)
  {
    if step.RunPurge? {
      PurgeTakesIff(s, step, uid);
    }
  }

  /** An event counts as purged exactly when a purge of the run found all its rows stale. */
  lemma {:induction false} PurgedIff(s: State, steps: seq<Step>, uid: nat)
    requires ValidRun(s, steps)
    ensures uid in Run(s, steps).purged <==> uid in s.purged || PurgedIn(s, steps, uid)
    decreases |steps|
  {
    if steps == [] {
    } else {
      StepPurgesIff(s, steps[0], uid);
      PurgedIff(Apply(s, steps[0]), steps[1..], uid);
    }
  }

  /** So in every run with safe names each event ever added is in a file, or in the log, or was
      found stale by a purge of that run. */
  lemma EveryEventIsAccountedFor(s: State, steps: seq<Step>, uid: nat)
    requires Init(s) && ValidRun(s, steps) && SafeRun(s, steps) && uid < |Run(s, steps).added|
    ensures var t := Run(s, steps);
      || (exists n | n in t.files :: t.files[n] == t.added[uid])
      || uid in LogUids(t.db.events)
      || PurgedIn(s, steps, uid)
  {
    NoEventIsLost(s, steps);
    assert Kept(Run(s, steps), uid);
    PurgedIff(s, steps, uid);
  }

  // --- deleted blobs ------------------------------------------------------------------------

  /** The step takes this blob from the server. */
  ghost predicate DeletesBlob(s: State, step: Step, full: string)
    requires Enabled(s, step)
  {
    full in s.db.blobs && full !in Apply(s, step).db.blobs
  }

  ghost predicate DeletedIn(s: State, steps: seq<Step>, full: string)
    requires ValidRun(s, steps)
    decreases |steps|
  {
    steps != [] && (DeletesBlob(s, steps[0], full) || DeletedIn(Apply(s, steps[0]), steps[1..], full))
  }

  /** Only a purge and the deletion of a screenshot do that. */
  lemma WhoDeletesBlobs(s: State, step: Step, full: string)
    requires Enabled(s, step) && DeletesBlob(s, step, full)
    ensures step.RunPurge? || step.DeleteShot?
  {
    if step.Post? {
      AppUsage.BatchInsert(s.db, s.machine, EventsOf(s.phase.batch), step.now);
    }
  }

  lemma StepKeepsGone(s: State, step: Step, full: string)
    requires Enabled(s, step) && s.gone !! s.db.blobs.Keys
    ensures var t := Apply(s, step);
      && (full in t.gone ==> full !in t.db.blobs)
      && (full in t.gone ==> full in s.gone || DeletesBlob(s, step, full))
      && (full in s.gone || DeletesBlob(s, step, full) ==> full in t.gone || full in t.db.blobs)
  {
    if step.Post? {
      AppUsage.BatchInsert(s.db, s.machine, EventsOf(s.phase.batch), step.now);
    }
  }

  lemma {:induction false} MissingWasDeleted(s: State, steps: seq<Step>, full: string)
    requires ValidRun(s, steps) && full in s.db.blobs && full !in Run(s, steps).db.blobs
    ensures DeletedIn(s, steps, full)
    decreases |steps|
  {
    if full in Apply(s, steps[0]).db.blobs {
      MissingWasDeleted(Apply(s, steps[0]), steps[1..], full);
    }
  }

  /** A blob counts as gone exactly when it is not on the server and a step of the run took it
      from there. */
  lemma {:induction false} GoneIff(s: State, steps: seq<Step>, full: string)
    requires ValidRun(s, steps) && s.gone !! s.db.blobs.Keys
    ensures full in Run(s, steps).gone <==>
            full !in Run(s, steps).db.blobs && (full in s.gone || DeletedIn(s, steps, full))
    decreases |steps|
  {
    if steps == [] {
    } else {
      var t := Apply(s, steps[0]);
      forall f ensures f in t.gone ==> f !in t.db.blobs { StepKeepsGone(s, steps[0], f); }
      StepKeepsGone(s, steps[0], full);
      GoneIff(t, steps[1..], full);
      if full in t.db.blobs && full !in Run(s, steps).db.blobs {
        MissingWasDeleted(t, steps[1..], full);
      }
    }
  }
}
