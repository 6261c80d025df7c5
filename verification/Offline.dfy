/** Offline alerts: a sweep selects silent machines, alerts on each and then flags it, while
    heartbeats keep arriving and clear the flags. */
module Offline {
  import opened Options

  /** `lastSeen` mirrors a nullable column; enrollment sets it. */
  datatype Machine = Machine(active: bool, lastSeen: Option<int>, flagged: bool)

  datatype Mark = Beat(id: string) | Alert(id: string) | Flagged(id: string)

  /** The one sweeper: idle, at the head of its list, or between an alert and its flag. */
  datatype Phase = Idle | Pending(ids: seq<string>) | Alerted(id: string, ids: seq<string>)

  /** The machine rows, the sweeper, and the heartbeats, successful alerts and flag updates so
      far, in order. */
  datatype State = State(rows: map<string, Machine>, phase: Phase, log: seq<Mark>)

  datatype Step =
    | Enroll(id: string, now: int)
    | SetActive(id: string, active: bool)
    | Touch(id: string, now: int)
    | Select(staleBefore: int, ids: seq<string>)
    | Raise(ok: bool)
    | Flag
    | Finish

  predicate Stale(m: Machine, before: int) {
    m.active && m.lastSeen.Some? && m.lastSeen.value < before && !m.flagged
  }

  ghost predicate NoRepeats(ids: seq<string>) { forall i, j | 0 <= i < j < |ids| :: ids[i] != ids[j] }

  /** The rows a select returns, in any order. */
  ghost predicate Selected(rows: map<string, Machine>, before: int, ids: seq<string>) {
    NoRepeats(ids) && forall id :: id in ids <==> id in rows && Stale(rows[id], before)
  }

  ghost predicate Enabled(s: State, step: Step) {
    match step
    case Enroll(id, _) => id !in s.rows && Never(s.log, id)
    case SetActive(id, _) => id in s.rows
    case Touch(id, _) => id in s.rows
    case Select(before, ids) => s.phase.Idle? && Selected(s.rows, before, ids)
    case Raise(_) => s.phase.Pending? && s.phase.ids != []
    case Flag => s.phase.Alerted?
    case Finish => s.phase == Pending([])
  }

  ghost predicate Never(log: seq<Mark>, id: string) { forall m | m in log :: m.id != id }

  function Apply(s: State, step: Step): State
    requires Enabled(s, step)
  {
    match step
    case Enroll(id, now) => s.(rows := s.rows[id := Machine(true, Some(now), false)])
    case SetActive(id, active) => s.(rows := s.rows[id := s.rows[id].(active := active)])
    case Touch(id, now) =>
      s.(rows := s.rows[id := s.rows[id].(lastSeen := Some(now), flagged := false)], log := s.log + [Beat(id)])
    case Select(_, ids) => s.(phase := Pending(ids))
    case Raise(ok) =>
      var id := s.phase.ids[0];
      if ok then s.(phase := Alerted(id, s.phase.ids[1..]), log := s.log + [Alert(id)])
      else s.(phase := Pending(s.phase.ids[1..]))
    case Flag =>
      var id := s.phase.id;
      s.(rows := if id in s.rows then s.rows[id := s.rows[id].(flagged := true)] else s.rows,
         phase := Pending(s.phase.ids), log := s.log + [Flagged(id)])
    case Finish => s.(phase := Idle)
  }

  ghost predicate ValidRun(s: State, steps: seq<Step>)
    decreases |steps|
  {
    steps == [] || (Enabled(s, steps[0]) && ValidRun(Apply(s, steps[0]), steps[1..]))
  }

  function Run(s: State, steps: seq<Step>): State
    requires ValidRun(s, steps)
    decreases |steps|
  {
    if steps == [] then s else Run(Apply(s, steps[0]), steps[1..])
  }

  const EMPTY := State(map[], Idle, [])

  /** Successful alerts for a machine since its last heartbeat. */
  function Since(log: seq<Mark>, id: string): nat {
    if log == [] then 0
    else match log[|log| - 1]
      case Beat(b) => if b == id then 0 else Since(log[..|log| - 1], id)
      case Alert(a) => Since(log[..|log| - 1], id) + if a == id then 1 else 0
      case Flagged(_) => Since(log[..|log| - 1], id)
  }

  /** Two alerts for one machine always have one of its heartbeats between them. */
  ghost predicate SeparatedByBeats(log: seq<Mark>) {
    forall i, j | 0 <= i < j < |log| && log[i].Alert? && log[j] == log[i] ::
      exists k | i < k < j :: log[k] == Beat(log[i].id)
  }

  ghost predicate Inv(s: State) {
    && SeparatedByBeats(s.log)
    && (forall id :: Since(s.log, id) <= 1)
    && (forall id | Since(s.log, id) == 1 ::
          (id in s.rows && s.rows[id].flagged) || (s.phase.Alerted? && s.phase.id == id && id in s.rows))
    && (s.phase.Pending? || s.phase.Alerted? ==>
          && NoRepeats(s.phase.ids)
          && forall id | id in s.phase.ids :: Since(s.log, id) == 0 && id in s.rows && !s.rows[id].flagged)
    && (s.phase.Alerted? ==> s.phase.id !in s.phase.ids)
  }

  lemma SinceSnoc(log: seq<Mark>, m: Mark, id: string)
    ensures Since(log + [m], id) == (match m
      case Beat(b) => if b == id then 0 else Since(log, id)
      case Alert(a) => Since(log, id) + if a == id then 1 else 0
      case Flagged(_) => Since(log, id))
  {
    assert (log + [m])[..|log|] == log;
  }

  /** With no alert since the last heartbeat, every earlier alert has a heartbeat after it. */
  lemma {:induction false} ZeroSinceHasBeat(log: seq<Mark>, id: string, i: nat) returns (k: nat)
    requires Since(log, id) == 0 && i < |log| && log[i] == Alert(id)
    ensures i < k < |log| && log[k] == Beat(id)
    decreases |log|
  {
    if log[|log| - 1] == Beat(id) {
      k := |log| - 1;
    } else {
      k := ZeroSinceHasBeat(log[..|log| - 1], id, i);
    }
  }

  lemma RaiseKeepsSeparation(s: State)
    requires Inv(s) && Enabled(s, Raise(true))
    ensures SeparatedByBeats(Apply(s, Raise(true)).log)
  {
    var id, log := s.phase.ids[0], Apply(s, Raise(true)).log;
    assert id in s.phase.ids;
    forall i, j | 0 <= i < j < |log| && log[i].Alert? && log[j] == log[i]
      ensures exists k | i < k < j :: log[k] == Beat(log[i].id)
    {
      if j < |s.log| {
        var k :| i < k < j && s.log[k] == Beat(s.log[i].id);
        assert log[k] == Beat(log[i].id);
      } else {
        var k := ZeroSinceHasBeat(s.log, id, i);
        assert log[k] == Beat(log[i].id);
      }
    }
  }

  lemma OtherMarkKeepsSeparation(s: State, step: Step)
    requires Inv(s) && Enabled(s, step) && (step.Touch? || step.Flag?)
    ensures SeparatedByBeats(Apply(s, step).log)
  {
    var log := Apply(s, step).log;
    forall i, j | 0 <= i < j < |log| && log[i].Alert? && log[j] == log[i]
      ensures exists k | i < k < j :: log[k] == Beat(log[i].id)
    {
      var k :| i < k < j && s.log[k] == Beat(s.log[i].id);
      assert log[k] == Beat(log[i].id);
    }
  }

  lemma {:induction false} NeverIsZero(log: seq<Mark>, id: string)
    requires Never(log, id)
    ensures Since(log, id) == 0
  {
    if log == [] {
    } else {
      assert log[|log| - 1] in log;
      NeverIsZero(log[..|log| - 1], id);
    }
  }

  lemma StepKeepsInv(s: State, step: Step)
    requires Inv(s) && Enabled(s, step)
    ensures Inv(Apply(s, step))
  {
    var t := Apply(s, step);
    match step
    case Enroll(id, _) =>
      NeverIsZero(s.log, id);
    case Touch(id, _) =>
      OtherMarkKeepsSeparation(s, step);
      forall x ensures Since(t.log, x) == if x == id then 0 else Since(s.log, x) { SinceSnoc(s.log, Beat(id), x); }
    case Raise(ok) =>
      var id := s.phase.ids[0];
      assert id in s.phase.ids;
      if ok {
        RaiseKeepsSeparation(s);
        forall x ensures Since(t.log, x) == Since(s.log, x) + if x == id then 1 else 0 {
          SinceSnoc(s.log, Alert(id), x);
        }
      }
    case Flag =>
      OtherMarkKeepsSeparation(s, step);
      forall x ensures Since(t.log, x) == Since(s.log, x) { SinceSnoc(s.log, Flagged(s.phase.id), x); }
    case _ =>
  }

  lemma {:induction false} RunKeepsInv(s: State, steps: seq<Step>)
    requires Inv(s) && ValidRun(s, steps)
    ensures Inv(Run(s, steps))
    decreases |steps|
  {
    if steps == [] {
    } else {
      StepKeepsInv(s, steps[0]);
      RunKeepsInv(Apply(s, steps[0]), steps[1..]);
    }
  }

  /** However heartbeats interleave with the select, the alerts and the flag updates of the
      sweeps, at most one successful alert per machine falls between two of its heartbeats. */
  lemma OneAlertPerOutage(steps: seq<Step>)
    requires ValidRun(EMPTY, steps)
    ensures SeparatedByBeats(Run(EMPTY, steps).log)
    ensures forall id :: Since(Run(EMPTY, steps).log, id) <= 1
  {
    RunKeepsInv(EMPTY, steps);
  }

  // --- the flag that comes too late ------------------------------------------------------------

  /** The machine is flagged exactly when its last heartbeat or flag update was a flag update;
      every flag update follows an alert. */
  ghost predicate FlagInv(s: State) {
    && (forall id | id in s.rows :: s.rows[id].flagged <==> FlagsLast(s.log, id))
    && (forall id | FlagsLast(s.log, id) :: id in s.rows)
    && (forall k | 0 <= k < |s.log| && s.log[k].Flagged? :: Alert(s.log[k].id) in s.log[..k])
    && (s.phase.Alerted? ==> Alert(s.phase.id) in s.log && s.phase.id in s.rows)
    && (s.phase.Pending? || s.phase.Alerted? ==> forall id | id in s.phase.ids :: id in s.rows)
  }

  function FlagsLast(log: seq<Mark>, id: string): bool {
    if log == [] then false
    else if log[|log| - 1] == Flagged(id) then true
    else if log[|log| - 1] == Beat(id) then false
    else FlagsLast(log[..|log| - 1], id)
  }

  lemma FlagsLastSnoc(log: seq<Mark>, m: Mark, id: string)
    ensures FlagsLast(log + [m], id) ==
            (if m == Flagged(id) then true else if m == Beat(id) then false else FlagsLast(log, id))
  {
    assert (log + [m])[..|log|] == log;
  }

  /** This mark occurs after position k. */
  predicate MarkAfter(log: seq<Mark>, m: Mark, k: nat) { exists j | k < j < |log| :: log[j] == m }

  lemma MarkAfterSnoc(log: seq<Mark>, m: Mark, k: nat)
    requires log != []
    ensures MarkAfter(log, m, k) <==> MarkAfter(log[..|log| - 1], m, k) || (k < |log| - 1 && log[|log| - 1] == m)
  {
    var init := log[..|log| - 1];
    if MarkAfter(init, m, k) {
      var j :| k < j < |init| && init[j] == m;
      assert log[j] == m;
    }
    if MarkAfter(log, m, k) {
      var j :| k < j < |log| && log[j] == m;
      if j < |init| { assert init[j] == m; }
    }
  }

  predicate FlagStands(log: seq<Mark>, id: string, k: nat) {
    k < |log| && log[k] == Flagged(id) && !MarkAfter(log, Beat(id), k)
  }

  lemma {:induction false} FlagsLastIff(log: seq<Mark>, id: string)
    ensures FlagsLast(log, id) <==> exists k: nat :: FlagStands(log, id, k)
  {
    if log == [] {
    } else {
      var init, last := log[..|log| - 1], log[|log| - 1];
      FlagsLastIff(init, id);
      forall k: nat | k < |init| ensures FlagStands(log, id, k) <==> FlagStands(init, id, k) && last != Beat(id) {
        MarkAfterSnoc(log, Beat(id), k);
      }
      assert FlagStands(log, id, |init|) <==> last == Flagged(id);
    }
  }

  lemma {:induction false} NeverFlagsLast(log: seq<Mark>, id: string)
    requires Never(log, id)
    ensures !FlagsLast(log, id)
  {
    if log == [] {
    } else {
      assert log[|log| - 1] in log;
      NeverFlagsLast(log[..|log| - 1], id);
    }
  }

  lemma MarkKeepsAlertsFirst(log: seq<Mark>, m: Mark)
    requires forall k | 0 <= k < |log| && log[k].Flagged? :: Alert(log[k].id) in log[..k]
    requires m.Flagged? ==> Alert(m.id) in log
    ensures var all := log + [m]; forall k | 0 <= k < |all| && all[k].Flagged? :: Alert(all[k].id) in all[..k]
  {
    var all := log + [m];
    forall k | 0 <= k < |all| && all[k].Flagged? ensures Alert(all[k].id) in all[..k] {
      assert all[..k] == log[..k];
      if k == |log| { assert log[..k] == log; }
    }
  }

  lemma StepKeepsFlagInv(s: State, step: Step)
    requires FlagInv(s) && Enabled(s, step)
    ensures FlagInv(Apply(s, step))
  {
    var t := Apply(s, step);
    if t.log != s.log {
      var m := t.log[|s.log|];
      MarkKeepsAlertsFirst(s.log, m);
      forall id ensures FlagsLast(t.log, id) ==
        (if m == Flagged(id) then true else if m == Beat(id) then false else FlagsLast(s.log, id))
      {
        FlagsLastSnoc(s.log, m, id);
      }
    } else if step.Enroll? {
      NeverFlagsLast(s.log, step.id);
    }
  }

  lemma {:induction false} RunKeepsFlagInv(s: State, steps: seq<Step>)
    requires FlagInv(s) && ValidRun(s, steps)
    ensures FlagInv(Run(s, steps))
    decreases |steps|
  {
    if steps == [] {
    } else {
      StepKeepsFlagInv(s, steps[0]);
      RunKeepsFlagInv(Apply(s, steps[0]), steps[1..]);
    }
  }

  lemma {:induction false} SinceZeroIff(log: seq<Mark>, id: string)
    ensures Since(log, id) == 0 <==> forall i | 0 <= i < |log| && log[i] == Alert(id) :: MarkAfter(log, Beat(id), i)
  {
    if log == [] {
    } else {
      var init, last := log[..|log| - 1], log[|log| - 1];
      SinceZeroIff(init, id);
      forall i | 0 <= i < |init|
        ensures MarkAfter(log, Beat(id), i) <==> MarkAfter(init, Beat(id), i) || last == Beat(id)
      {
        MarkAfterSnoc(log, Beat(id), i);
      }
      forall i | 0 <= i < |init| ensures log[i] == init[i] {}
      assert !MarkAfter(log, Beat(id), |init|);
    }
  }

  /** The machine is marked as alerted although it has not been alerted since it last reported. */
  predicate WronglyFlagged(s: State, id: string) { id in s.rows && s.rows[id].flagged && Since(s.log, id) == 0 }

  /** Of this machine: its last alert, then a heartbeat, then a flag update, then no heartbeat. */
  predicate BeatBetween(log: seq<Mark>, id: string, i: nat, j: nat, k: nat) {
    && i < j < k < |log|
    && log[i] == Alert(id) && !MarkAfter(log, Alert(id), i)
    && log[j] == Beat(id)
    && FlagStands(log, id, k)
  }

  lemma {:induction false} LastAlert(log: seq<Mark>, id: string) returns (i: nat)
    requires Alert(id) in log
    ensures i < |log| && log[i] == Alert(id) && !MarkAfter(log, Alert(id), i)
  {
    var init, last := log[..|log| - 1], log[|log| - 1];
    if last == Alert(id) {
      i := |init|;
    } else {
      i := LastAlert(init, id);
      MarkAfterSnoc(log, Alert(id), i);
    }
  }

  lemma FlagBetween(log: seq<Mark>, id: string, k: nat) returns (i: nat, j: nat)
    requires FlagStands(log, id, k) && Alert(id) in log
    requires forall i | 0 <= i < |log| && log[i] == Alert(id) :: MarkAfter(log, Beat(id), i)
    ensures BeatBetween(log, id, i, j, k)
  {
    i := LastAlert(log, id);
    assert MarkAfter(log, Beat(id), i);
    j :| i < j < |log| && log[j] == Beat(id);
    assert log[j] != log[k] && j <= k;
  }

  lemma BetweenIsZero(log: seq<Mark>, id: string, i: nat, j: nat, k: nat)
    requires BeatBetween(log, id, i, j, k)
    ensures forall a | 0 <= a < |log| && log[a] == Alert(id) :: MarkAfter(log, Beat(id), a)
  {
    forall a | 0 <= a < |log| && log[a] == Alert(id) ensures MarkAfter(log, Beat(id), a) {
      assert a <= i;
      assert log[j] == Beat(id);
    }
  }

  /** In every run, a machine is flagged without an alert since its last heartbeat exactly when
      a heartbeat of it came between its last alert and the flag update that belongs to it, and
      none has come since. */
  lemma WronglyFlaggedIff(steps: seq<Step>, id: string)
    requires ValidRun(EMPTY, steps)
    ensures WronglyFlagged(Run(EMPTY, steps), id) <==>
            exists i: nat, j: nat, k: nat :: BeatBetween(Run(EMPTY, steps).log, id, i, j, k)
  {
    RunKeepsFlagInv(EMPTY, steps);
    var t := Run(EMPTY, steps);
    FlagsLastIff(t.log, id);
    SinceZeroIff(t.log, id);
    if WronglyFlagged(t, id) {
      var k: nat :| FlagStands(t.log, id, k);
      assert Alert(id) in t.log[..k];
      var i, j := FlagBetween(t.log, id, k);
    }
    if i: nat, j: nat, k: nat :| BeatBetween(t.log, id, i, j, k) {
      BetweenIsZero(t.log, id, i, j, k);
    }
  }

  // --- what it costs ------------------------------------------------------------------------------

  function AlertsOf(log: seq<Mark>, id: string): nat {
    if log == [] then 0 else AlertsOf(log[..|log| - 1], id) + if log[|log| - 1] == Alert(id) then 1 else 0
  }

  lemma AlertsOfSnoc(log: seq<Mark>, m: Mark, id: string)
    ensures AlertsOf(log + [m], id) == AlertsOf(log, id) + if m == Alert(id) then 1 else 0
  {
    assert (log + [m])[..|log|] == log;
  }

  ghost predicate NeverTouched(steps: seq<Step>, id: string) {
    forall i | 0 <= i < |steps| :: !(steps[i].Touch? && steps[i].id == id)
  }

  lemma SilentSnoc(log: seq<Mark>, m: Mark, id: string)
    requires m != Alert(id) && m != Beat(id)
    ensures AlertsOf(log + [m], id) == AlertsOf(log, id) && Since(log + [m], id) == Since(log, id)
  {
    AlertsOfSnoc(log, m, id);
    SinceSnoc(log, m, id);
  }

  lemma FlaggedStepIsSilent(s: State, step: Step, id: string)
    requires Inv(s) && Enabled(s, step) && !(step.Touch? && step.id == id)
    requires id in s.rows && s.rows[id].flagged
    ensures var t := Apply(s, step);
      && id in t.rows && t.rows[id].flagged
      && AlertsOf(t.log, id) == AlertsOf(s.log, id) && Since(t.log, id) == Since(s.log, id)
  {
    match step
    case Touch(other, _) => SilentSnoc(s.log, Beat(other), id);
    case Raise(_) =>
      assert s.phase.ids[0] in s.phase.ids;
      SilentSnoc(s.log, Alert(s.phase.ids[0]), id);
    case Flag => SilentSnoc(s.log, Flagged(s.phase.id), id);
    case _ =>
  }

  lemma {:induction false} FlaggedRunIsSilent(s: State, steps: seq<Step>, id: string)
    requires Inv(s) && ValidRun(s, steps) && NeverTouched(steps, id)
    requires id in s.rows && s.rows[id].flagged
    ensures var t := Run(s, steps);
      && id in t.rows && t.rows[id].flagged
      && AlertsOf(t.log, id) == AlertsOf(s.log, id) && Since(t.log, id) == Since(s.log, id)
    decreases |steps|
  {
    if steps == [] {
    } else {
      var t := Apply(s, steps[0]);
      FlaggedStepIsSilent(s, steps[0], id);
      StepKeepsInv(s, steps[0]);
      forall i | 0 <= i < |steps[1..]| ensures !(steps[1..][i].Touch? && steps[1..][i].id == id) {
        assert steps[1..][i] == steps[i + 1];
      }
      FlaggedRunIsSilent(t, steps[1..], id);
    }
  }

  /** From any reachable state in which a machine is flagged, no run without a heartbeat of its
      own ever alerts on it. After a wrong flag that is a whole outage without an alert. */
  lemma LateFlagSilencesOutage(before: seq<Step>, after: seq<Step>, id: string)
    requires ValidRun(EMPTY, before) && ValidRun(Run(EMPTY, before), after) && NeverTouched(after, id)
    requires id in Run(EMPTY, before).rows && Run(EMPTY, before).rows[id].flagged
    ensures AlertsOf(Run(Run(EMPTY, before), after).log, id) == AlertsOf(Run(EMPTY, before).log, id)
    ensures WronglyFlagged(Run(EMPTY, before), id) ==> WronglyFlagged(Run(Run(EMPTY, before), after), id)
  {
    RunKeepsInv(EMPTY, before);
    FlaggedRunIsSilent(Run(EMPTY, before), after, id);
  }

  lemma {:induction false} RunSnoc(s: State, steps: seq<Step>, step: Step)
    requires ValidRun(s, steps) && Enabled(Run(s, steps), step)
    ensures ValidRun(s, steps + [step]) && Run(s, steps + [step]) == Apply(Run(s, steps), step)
    decreases |steps|
  {
    var all := steps + [step];
    if steps == [] {
      assert all[1..] == [];
      assert Run(Apply(s, all[0]), all[1..]) == Apply(s, all[0]);
    } else {
      assert all[0] == steps[0] && all[1..] == steps[1..] + [step];
      RunSnoc(Apply(s, steps[0]), steps[1..], step);
    }
  }

  /** It does happen: machine "pc" is selected and alerted, reports, and is then flagged. */
  lemma LateFlagHappens(now: int)
    ensures var steps := [Enroll("pc", 0), Select(1, ["pc"]), Raise(true), Touch("pc", now), Flag];
      ValidRun(EMPTY, steps) && WronglyFlagged(Run(EMPTY, steps), "pc")
  {
    var e, select, raise, touch := Enroll("pc", 0), Select(1, ["pc"]), Raise(true), Touch("pc", now);
    RunSnoc(EMPTY, [], e);
    assert [] + [e] == [e];
    RunSnoc(EMPTY, [e], select);
    assert [e] + [select] == [e, select];
    RunSnoc(EMPTY, [e, select], raise);
    assert [e, select] + [raise] == [e, select, raise];
    RunSnoc(EMPTY, [e, select, raise], touch);
    assert [e, select, raise] + [touch] == [e, select, raise, touch];
    RunSnoc(EMPTY, [e, select, raise, touch], Flag);
    assert [e, select, raise, touch] + [Flag] == [e, select, raise, touch, Flag];
    SinceSnoc([Alert("pc")], Beat("pc"), "pc");
    SinceSnoc([Alert("pc"), Beat("pc")], Flagged("pc"), "pc");
  }

  // --- the sweep as the server runs it ----------------------------------------------------------

  function AlertCount(log: seq<Mark>): nat {
    if log == [] then 0 else AlertCount(log[..|log| - 1]) + if log[|log| - 1].Alert? then 1 else 0
  }

  lemma AlertCountSnoc(log: seq<Mark>, m: Mark)
    ensures AlertCount(log + [m]) == AlertCount(log) + if m.Alert? then 1 else 0
  {
    assert (log + [m])[..|log|] == log;
  }

  /** A select's WHERE clause. */
  lemma StaleIff(m: Machine, before: int)
    ensures Stale(m, before) <==>
            m.active && !m.flagged && exists t: int :: m.lastSeen == Some(t) && t < before
  {
  }

  /** The machines a sweep is about. */
  function StaleIds(rows: map<string, Machine>, before: int): set<string> {
    set id | id in rows && Stale(rows[id], before)
  }

  /** These machines flagged, the others as they were. */
  function WithFlags(rows: map<string, Machine>, ids: set<string>): map<string, Machine> {
    map id | id in rows :: if id in ids then rows[id].(flagged := true) else rows[id]
  }

  class Machines {
    var rows: map<string, Machine>
    ghost var trace: seq<Step>
    ghost var world: State

    /** The rows are where the recorded run leads. */
    ghost predicate Valid()
      reads this
    {
      ValidRun(EMPTY, trace) && world == Run(EMPTY, trace) && world.rows == rows
    }

    constructor ()
      ensures Valid() && world == EMPTY
    {
      rows := map[];
      trace, world := [], EMPTY;
    }

    ghost method Record(step: Step)
      requires ValidRun(EMPTY, trace) && world == Run(EMPTY, trace)
      requires Enabled(world, step) && Apply(world, step).rows == rows
      modifies this`trace, this`world
      ensures Valid() && trace == old(trace) + [step] && world == Apply(old(world), step)
    {
      RunSnoc(EMPTY, trace, step);
      trace, world := trace + [step], Apply(world, step);
    }

    method TouchMachine(id: string, now: int)
      requires Valid() && id in rows
      modifies this
      ensures Valid() && old(trace) <= trace && world.phase == old(world.phase)
      ensures rows == old(rows)[id := old(rows)[id].(lastSeen := Some(now), flagged := false)]
      ensures world.log == old(world.log) + [Beat(id)]
      ensures SameAlerts(old(world.log), world.log)
    {
      rows := rows[id := rows[id].(lastSeen := Some(now), flagged := false)];
      Record(Touch(id, now));
      SilentMark(old(world.log), Beat(id));
    }

    /** Heartbeats of any machines, any number of them, or none when it is calm. */
    method Interfere(calm: bool)
      requires Valid()
      modifies this
      ensures Valid() && old(trace) <= trace && world.phase == old(world.phase)
      ensures rows.Keys == old(rows).Keys && SameAlerts(old(world.log), world.log)
      ensures calm ==> rows == old(rows)
    {
      if calm {
        return;
      }
      var rounds: nat := *;
      while rounds > 0
        invariant Valid() && old(trace) <= trace && world.phase == old(world.phase)
        invariant rows.Keys == old(rows).Keys && SameAlerts(old(world.log), world.log)
      {
        var id: string, now: int := *, *;
        if id in rows {
          TouchMachine(id, now);
        }
        rounds := rounds - 1;
      }
    }

    method SelectStale(before: int) returns (ids: seq<string>)
      ensures Selected(rows, before, ids)
    {
      ids := [];
      var todo := rows.Keys;
      while todo != {}
        invariant todo <= rows.Keys && NoRepeats(ids)
        invariant forall id :: id in ids <==> id in rows && id !in todo && Stale(rows[id], before)
        decreases todo
      {
        var id :| id in todo;
        if Stale(rows[id], before) {
          ids := ids + [id];
        }
        todo := todo - {id};
      }
    }

    /** Alerts on one selected machine and flags it; a failed alert leaves the flag alone. */
    method AlertAndFlag(id: string, fails: bool, calm: bool)
      requires Valid() && world.phase.Pending? && world.phase.ids != [] && world.phase.ids[0] == id && id in rows
      modifies this
      ensures Valid() && old(trace) <= trace && world.phase == Pending(old(world.phase.ids)[1..])
      ensures rows.Keys == old(rows).Keys
      ensures if fails then SameAlerts(old(world.log), world.log) else OneMoreAlert(old(world.log), world.log, id)
      ensures calm ==> rows == if fails then old(rows) else WithFlags(old(rows), {id})
    {
      Record(Raise(!fails));
      if !fails {
        NewAlert(old(world.log), id);
        Interfere(calm);
        if id in rows {
          rows := rows[id := rows[id].(flagged := true)];
        }
        ghost var log := world.log;
        Record(Flag);
        SilentMark(log, Flagged(id));
      }
    }

    /** Returns how many alerts were raised. Whatever heartbeats come in between, it alerts once
        on every machine that was stale when it began, unless the alert fails, and on no other.
        When it is calm, exactly those machines are flagged and nothing else changes. */
    method SweepOfflineMachines(before: int, failing: set<string>, calm: bool) returns (n: nat)
      requires Valid() && world.phase == Idle
      modifies this
      ensures Valid() && old(trace) <= trace && world.phase == Idle
      ensures AlertCount(world.log) == AlertCount(old(world.log)) + n
      ensures AlertsOn(old(world.log), world.log, StaleIds(old(rows), before) - failing)
      ensures calm ==> rows == WithFlags(old(rows), StaleIds(old(rows), before) - failing)
    {
      var ids := SelectStale(before);
      Record(Select(before, ids));
      n := 0;
      ghost var alerted: set<string> := {};
      assert ids[0..] == ids && WithFlags(rows, alerted) == rows;
      for i := 0 to |ids|
        invariant Valid() && old(trace) <= trace && world.phase == Pending(ids[i..])
        invariant rows.Keys == old(rows).Keys
        invariant alerted == IdSet(ids[..i]) - failing
        invariant AlertCount(world.log) == AlertCount(old(world.log)) + n
        invariant AlertsOn(old(world.log), world.log, alerted)
        invariant calm ==> rows == WithFlags(old(rows), alerted)
      {
        ghost var log := world.log;
        Interfere(calm);
        ghost var mid := world.log;
        AlertAndFlag(ids[i], ids[i] in failing, calm);
        n := n + if ids[i] in failing then 0 else 1;
        IdSetSnoc(ids, i);
        if ids[i] !in failing {
          AlertsOnOneMore(old(world.log), log, mid, world.log, alerted, ids[i]);
          WithFlagsTwice(old(rows), alerted, ids[i]);
          alerted := alerted + {ids[i]};
        }
        assert ids[i..][1..] == ids[i + 1..];
      }
      assert ids[..|ids|] == ids && IdSet(ids) == StaleIds(old(rows), before);
      Record(Finish);
    }
  }

  function IdSet(ids: seq<string>): set<string> { set id | id in ids }

  lemma IdSetSnoc(ids: seq<string>, i: nat)
    requires i < |ids| && NoRepeats(ids)
    ensures ids[i] !in IdSet(ids[..i]) && IdSet(ids[..i + 1]) == IdSet(ids[..i]) + {ids[i]}
  {
    assert ids[..i + 1] == ids[..i] + [ids[i]];
  }

  lemma AlertsOnOneMore(first: seq<Mark>, log: seq<Mark>, mid: seq<Mark>, last: seq<Mark>,
                        ids: set<string>, id: string)
    requires AlertsOn(first, log, ids) && SameAlerts(log, mid) && OneMoreAlert(mid, last, id) && id !in ids
    ensures AlertsOn(first, last, ids + {id})
  {
  }

  lemma WithFlagsTwice(rows: map<string, Machine>, ids: set<string>, id: string)
    ensures WithFlags(WithFlags(rows, ids), {id}) == WithFlags(rows, ids + {id})
  {
  }

  // --- what a sweep adds to the alerts -------------------------------------------------------------

  /** No alert came between. */
  ghost predicate SameAlerts(before: seq<Mark>, after: seq<Mark>) {
    AlertCount(after) == AlertCount(before) && forall id :: AlertsOf(after, id) == AlertsOf(before, id)
  }

  ghost predicate OneMoreAlert(before: seq<Mark>, after: seq<Mark>, id: string) {
    && AlertCount(after) == AlertCount(before) + 1
    && forall x :: AlertsOf(after, x) == AlertsOf(before, x) + if x == id then 1 else 0
  }

  /** One alert on each of these machines came between, and no other. */
  ghost predicate AlertsOn(before: seq<Mark>, after: seq<Mark>, ids: set<string>) {
    forall x :: AlertsOf(after, x) == AlertsOf(before, x) + if x in ids then 1 else 0
  }

  lemma SilentMark(log: seq<Mark>, m: Mark)
    requires !m.Alert?
    ensures SameAlerts(log, log + [m])
  {
    AlertCountSnoc(log, m);
    forall id ensures AlertsOf(log + [m], id) == AlertsOf(log, id) { AlertsOfSnoc(log, m, id); }
  }

  lemma NewAlert(log: seq<Mark>, id: string)
    ensures OneMoreAlert(log, log + [Alert(id)], id)
  {
    AlertCountSnoc(log, Alert(id));
    forall x ensures AlertsOf(log + [Alert(id)], x) == AlertsOf(log, x) + if x == id then 1 else 0 {
      AlertsOfSnoc(log, Alert(id), x);
    }
  }
}
