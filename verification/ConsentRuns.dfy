/** Two behaviours of the consent gate, step by step: a revoked consent that comes back, and a
    session recorded for someone who never accepted. */
module ConsentRuns {
  import opened Options
  import opened Service
  import opened Consent

  ghost predicate Can(w: World, steps: seq<Step>)
    decreases |steps|
  {
    steps == [] || (Enabled(w, steps[0]) && Can(Apply(w, steps[0]), steps[1..]))
  }

  ghost function End(w: World, steps: seq<Step>): World
    requires Can(w, steps)
    decreases |steps|
  {
    if steps == [] then w else End(Apply(w, steps[0]), steps[1..])
  }

  lemma OneStep(w: World, step: Step)
    requires Enabled(w, step)
    ensures Can(w, [step]) && End(w, [step]) == Apply(w, step)
  {
    var none: seq<Step> := [];
    assert [step][1..] == none;
    assert Can(Apply(w, step), none) && End(Apply(w, step), none) == Apply(w, step);
  }

  lemma {:induction false} ThenSteps(w: World, a: seq<Step>, b: seq<Step>)
    requires Can(w, a) && Can(End(w, a), b)
    ensures Can(w, a + b) && End(w, a + b) == End(End(w, a), b)
    decreases |a|
  {
    if a == [] {
      assert a + b == b;
    } else {
      assert (a + b)[0] == a[0] && (a + b)[1..] == a[1..] + b;
      ThenSteps(Apply(w, a[0]), a[1..], b);
    }
  }

  lemma OneMoreState(ws: seq<World>, done: seq<Step>, step: Step)
    requires Behaviour(ws) && Traces(ws, done) && Enabled(ws[|ws| - 1], step)
    ensures var more := ws + [Apply(ws[|ws| - 1], step)]; Behaviour(more) && Traces(more, done + [step])
  {
    var w := ws[|ws| - 1];
    var more := ws + [Apply(w, step)];
    forall k | 0 <= k < |more| - 1 ensures Follows(more[k], more[k + 1]) {
      if k < |ws| - 1 { assert Follows(ws[k], ws[k + 1]); }
    }
    forall k | 0 <= k < |done + [step]|
      ensures Enabled(more[k], (done + [step])[k]) && more[k + 1] == Apply(more[k], (done + [step])[k])
    {
      if k < |done| { assert (done + [step])[k] == done[k] && more[k] == ws[k] && more[k + 1] == ws[k + 1]; }
    }
  }

  /** Steps that can be taken from a first state make a behaviour. */
  lemma {:induction false} StepsMakeBehaviour(ws: seq<World>, done: seq<Step>, steps: seq<Step>)
    returns (all: seq<World>)
    requires Behaviour(ws) && Traces(ws, done) && Can(ws[|ws| - 1], steps)
    ensures Behaviour(all) && Traces(all, done + steps)
    ensures ws <= all && all[|all| - 1] == End(ws[|ws| - 1], steps)
    decreases |steps|
  {
    if steps == [] {
      all := ws;
      assert done + steps == done;
    } else {
      var more := ws + [Apply(ws[|ws| - 1], steps[0])];
      OneMoreState(ws, done, steps[0]);
      assert (done + [steps[0]]) + steps[1..] == done + steps;
      all := StepsMakeBehaviour(more, done + [steps[0]], steps[1..]);
    }
  }

  lemma FromStart(w: World, steps: seq<Step>) returns (ws: seq<World>)
    requires Init(w) && Can(w, steps)
    ensures Behaviour(ws) && Traces(ws, steps) && ws[0] == w && ws[|ws| - 1] == End(w, steps)
  {
    assert [] + steps == steps;
    ws := StepsMakeBehaviour([w], [], steps);
  }

  // --- the stages ---------------------------------------------------------------------------------

  /** What the policy poll and the heartbeat leave alone. */
  ghost predicate SameSessions(v: World, w: World) {
    && w.helpers == v.helpers && w.session == v.session && w.doc == v.doc
    && w.markers == v.markers && w.accepted == v.accepted
  }

  ghost predicate Serving(w: World) { w.service.Some? && w.service.value.contexts != [] }

  function Fetch(): seq<Step> { [AskPolicy] + ([AnswerPolicy] + [GetAnswer]) }

  function Report(): seq<Step> { [SendBeat] + [TakeBeat] }

  lemma Asks(w: World)
    ensures Can(w, [AskPolicy])
    ensures End(w, [AskPolicy]) == w.(time := w.time + 1, asked := Some(Asked(w.assignedTo, w.time)))
  {
    OneStep(w, AskPolicy);
  }

  lemma Answers(w: World)
    requires w.asked.Some?
    ensures Can(w, [AnswerPolicy])
    ensures var pol := Gated(w.doc, w.records, w.asked.value.user, w.asked.value.at, w.time);
      End(w, [AnswerPolicy]) == w.(time := w.time + 1, asked := None, answer := Some(pol))
  {
    OneStep(w, AnswerPolicy);
  }

  lemma Gets(w: World)
    requires w.answer.Some? && (w.service.Some? ==> Serving(w))
    ensures Can(w, [GetAnswer])
    ensures var t := End(w, [GetAnswer]);
      && Serving(t) && SameSessions(w, t) && t.records == w.records && t.assignedTo == w.assignedTo
      && t.file.Some? && t.file.value.policy == w.answer.value
  {
    OneStep(w, GetAnswer);
  }

  /** A policy request that is answered and received. */
  lemma Fetched(w: World)
    requires w.service.Some? ==> Serving(w)
    ensures Can(w, Fetch())
    ensures var t := End(w, Fetch());
      && Serving(t) && SameSessions(w, t) && t.records == w.records && t.assignedTo == w.assignedTo
      && t.file.Some? && t.file.value.policy == Gated(w.doc, w.records, w.assignedTo, w.time, w.time + 1)
  {
    Asks(w);
    var a := End(w, [AskPolicy]);
    Answers(a);
    Gets(End(a, [AnswerPolicy]));
    ThenSteps(a, [AnswerPolicy], [GetAnswer]);
    ThenSteps(w, [AskPolicy], [AnswerPolicy] + [GetAnswer]);
  }

  /** A heartbeat with an accepting user's session state. */
  lemma Reported(w: World, user: string)
    requires Serving(w) && w.session == Some(Beat(user, true)) && user != ""
    ensures Can(w, Report())
    ensures var t := End(w, Report());
      Serving(t) && SameSessions(w, t) && t.assignedTo == user && HasConsent(t.records, user)
  {
    OneStep(w, SendBeat);
    var a := Apply(w, SendBeat);
    OneStep(a, TakeBeat);
    ThenSteps(w, [SendBeat], [TakeBeat]);
    OneMoreRecord(w.records, user, user);
  }

  /** First contact: the service fetches its policy and reports the session. */
  lemma FirstContact(w: World, user: string)
    requires w.service.None? && w.session == Some(Beat(user, true)) && user != ""
    ensures Can(w, Fetch() + Report())
    ensures var t := End(w, Fetch() + Report());
      Serving(t) && SameSessions(w, t) && t.assignedTo == user && HasConsent(t.records, user)
  {
    Fetched(w);
    Reported(End(w, Fetch()), user);
    ThenSteps(w, Fetch(), Report());
  }

  function Document(): Policy { Policy(1, false, {"screenshot"}, "", Grant("", 0, 0)) }

  /** A machine nobody has used yet. */
  function Begin(): World {
    World(0, [], "", Document(), None, None, None, None, None, map[], None, {}, {}, [], [])
  }

  // --- a revoked consent that comes back ------------------------------------------------------------

  lemma RevokedThenReported(w: World, user: string)
    requires Serving(w) && w.session == Some(Beat(user, true)) && user != ""
    ensures Can(w, [RevokeConsent(user)] + Report())
    ensures HasConsent(End(w, [RevokeConsent(user)] + Report()).records, user)
  {
    OneStep(w, RevokeConsent(user));
    Reported(Apply(w, RevokeConsent(user)), user);
    ThenSteps(w, [RevokeConsent(user)], Report());
  }

  function AcceptAndRevoke(user: string): (steps: seq<Step>)
    ensures |steps| == 9 && steps[6] == RevokeConsent(user) && steps[7] == SendBeat && steps[8] == TakeBeat
  {
    [StartHelper(0, user, true, true)] + ((Fetch() + Report()) + ([RevokeConsent(user)] + Report()))
  }

  lemma AcceptAndRevokeRuns(user: string)
    requires user != ""
    ensures Can(Begin(), AcceptAndRevoke(user)) && HasConsent(End(Begin(), AcceptAndRevoke(user)).records, user)
  {
    var w, start := Begin(), StartHelper(0, user, true, true);
    OneStep(w, start);
    var a := Apply(w, start);
    FirstContact(a, user);
    RevokedThenReported(End(a, Fetch() + Report()), user);
    ThenSteps(a, Fetch() + Report(), [RevokeConsent(user)] + Report());
    ThenSteps(w, [start], (Fetch() + Report()) + ([RevokeConsent(user)] + Report()));
  }

  /** A helper's user accepts, the consent is recorded and revoked, and the next heartbeat
      records it again. */
  lemma RevokedConsentReturns(user: string) returns (ws: seq<World>, steps: seq<Step>, k: nat)
    requires user != ""
    ensures Behaviour(ws) && Traces(ws, steps)
    ensures k < |steps| && steps[k] == RevokeConsent(user) && NotRevoked(steps, k + 1, |steps|, user)
    ensures !HasConsent(ws[k + 1].records, user) && HasConsent(ws[|ws| - 1].records, user)
  {
    AcceptAndRevokeRuns(user);
    steps, k := AcceptAndRevoke(user), 6;
    ws := FromStart(Begin(), steps);
    ConsentStep(ws[k], steps[k], user);
  }

  // --- a session of someone who never accepted --------------------------------------------------------

  /** Ann and Bob are logged in on one machine; Ann accepts, Bob's helper finds her marker. */
  lemma BothStart(w: World) returns (t: World)
    requires w == Begin()
    ensures var steps := [StartHelper(0, ANN, true, true)] + [StartHelper(1, BOB, false, false)];
      Can(w, steps) && End(w, steps) == t
    ensures t.service.None? && t.session == Some(Beat(BOB, true)) && t.accepted == {ANN} && t.doc == Document()
    ensures 1 in t.helpers && t.helpers[1] == Helper(BOB, true, None, [])
  {
    var ann, bob := StartHelper(0, ANN, true, true), StartHelper(1, BOB, false, false);
    MarkersCollide();
    OneStep(w, ann);
    var a := Apply(w, ann);
    OneStep(a, bob);
    ThenSteps(w, [ann], [bob]);
    t := Apply(a, bob);
  }

  /** With consent on the server, the next policy starts the waiting helper's collectors. */
  lemma FetchedAndWoken(w: World, user: string) returns (pol: Policy)
    requires Serving(w) && w.assignedTo == user != "" && HasConsent(w.records, user) && w.doc == Document()
    requires 1 in w.helpers && w.helpers[1] == Helper(user, true, None, [])
    ensures Can(w, Fetch() + [WakeHelper(1, true, true)])
    ensures var t := End(w, Fetch() + [WakeHelper(1, true, true)]);
      && t.accepted == w.accepted && t.records == w.records
      && StartedBySession(t, user, pol) && pol.grant.user == user
  {
    Fetched(w);
    var a, wake := End(w, Fetch()), WakeHelper(1, true, true);
    OneStep(a, wake);
    ThenSteps(w, Fetch(), [wake]);
    pol := a.file.value.policy;
    assert SESSION_COLLECTORS[0] in pol.enabled;
    assert Wants(a.helpers[1], a.file);
    var t := Apply(a, wake);
    assert t.helpers[1].contexts == [Context(false, Some(pol))];
    assert Context(false, Some(pol)) in t.helpers[1].contexts;
  }

  /** Ann accepts on a shared machine; Bob, whose marker has the same name, is never asked: his
      helper reports his acceptance, the server records his consent, and collectors run in his
      session. */
  lemma NeverAcceptedYetRecorded() returns (ws: seq<World>, pol: Policy)
    ensures Behaviour(ws)
    ensures var w := ws[|ws| - 1];
      && BOB !in w.accepted && HasConsent(w.records, BOB)
      && StartedBySession(w, BOB, pol) && pol.grant.user == BOB
  {
    MarkersCollide();
    var start := [StartHelper(0, ANN, true, true)] + [StartHelper(1, BOB, false, false)];
    var contact, wake := Fetch() + Report(), Fetch() + [WakeHelper(1, true, true)];
    var a := BothStart(Begin());
    FirstContact(a, BOB);
    var b := End(a, contact);
    pol := FetchedAndWoken(b, BOB);
    ThenSteps(a, contact, wake);
    ThenSteps(Begin(), start, contact + wake);
    ws := FromStart(Begin(), start + (contact + wake));
  }
}
