/** The two processes on a machine: the service, which polls the server for its policy and
    hands it on in runtime.json, and the session helper, which follows that file. */
module Service {
  import opened Options

  /** Which server answer a policy is: the user the machine row named when the request came in,
      and when the two lookups happened. No code reads it. */
  datatype Grant = Grant(user: string, readAt: nat, checkedAt: nat)

  /** `enabled` names the collectors switched on; `settings` is the rest of the document. */
  datatype Policy = Policy(version: int, active: bool, enabled: set<string>, settings: string, grant: Grant)

  const SESSION_COLLECTORS := ["screenshot", "foreground", "fswatch", "browsing"]
  const SERVICE_COLLECTORS := ["dns", "netflow", "usb", "printjobs", "installs", "posture", "seclog"]

  /** A cancellable context and the collector generation started under it, if any. */
  datatype Context = Context(cancelled: bool, started: Option<Policy>)

  predicate Live(c: Context) { !c.cancelled && c.started.Some? }

  function LiveCount(cs: seq<Context>): nat {
    if cs == [] then 0 else LiveCount(cs[..|cs| - 1]) + if Live(cs[|cs| - 1]) then 1 else 0
  }

  /** runtime.json */
  datatype Runtime = Runtime(policy: Policy, nonce: nat)

  // --- the service ---------------------------------------------------------------------------

  /** Run's variables, all contexts it ever made (the last is the current one), and the file. */
  datatype Svc = Svc(pol: Policy, contexts: seq<Context>, nonce: nat, runtime: Runtime)

  function Fresh(pol: Policy): Context { Context(false, if pol.active then Some(pol) else None) }

  /** cancelCollectors, then a new context with a new generation when the policy is active. */
  function Replaced(cs: seq<Context>, pol: Policy): seq<Context>
    requires cs != []
  {
    cs[|cs| - 1 := cs[|cs| - 1].(cancelled := true)] + [Fresh(pol)]
  }

  function Booted(pol: Policy): Svc { Svc(pol, [Fresh(pol)], 0, Runtime(pol, 0)) }

  /** A policy poll that got an answer. */
  function Polled(s: Svc, answer: Policy): Svc
    requires s.contexts != []
  {
    if answer.version != s.pol.version || answer.active != s.pol.active
    then Svc(answer, Replaced(s.contexts, answer), s.nonce, Runtime(answer, s.nonce))
    else s.(runtime := Runtime(answer, s.nonce))
  }

  /** A heartbeat reply that carries the restart command. */
  function Restarted(s: Svc): Svc
    requires s.contexts != []
  {
    Svc(s.pol, Replaced(s.contexts, s.pol), s.nonce + 1, Runtime(s.pol, s.nonce + 1))
  }

  datatype SvcEvent = GotPolicy(answer: Policy) | GotRestart

  function React(s: Svc, e: SvcEvent): Svc
    requires s.contexts != []
  {
    match e
    case GotPolicy(answer) => Polled(s, answer)
    case GotRestart => Restarted(s)
  }

  /** Only the current context is live; it runs the current policy exactly when that is active;
      the file carries the current version, flag and nonce. */
  ghost predicate InStep(s: Svc) {
    && s.contexts != []
    && (forall i | 0 <= i < |s.contexts| - 1 :: s.contexts[i].cancelled)
    && s.contexts[|s.contexts| - 1] == Fresh(s.pol)
    && s.runtime.policy.version == s.pol.version && s.runtime.policy.active == s.pol.active
    && s.runtime.nonce == s.nonce
  }

  lemma {:induction false} CancelledAreNotLive(cs: seq<Context>)
    requires forall i | 0 <= i < |cs| :: cs[i].cancelled
    ensures LiveCount(cs) == 0
  {
    if cs != [] {
      CancelledAreNotLive(cs[..|cs| - 1]);
    }
  }

  function After(s: Svc, events: seq<SvcEvent>): (t: Svc)
    requires s.contexts != []
    ensures t.contexts != []
    decreases |events|
  {
    if events == [] then s else React(After(s, events[..|events| - 1]), events[|events| - 1])
  }

  lemma {:induction false} StaysInStep(pol: Policy, events: seq<SvcEvent>)
    ensures InStep(After(Booted(pol), events))
    decreases |events|
  {
    if events != [] {
      StaysInStep(pol, events[..|events| - 1]);
    }
  }

  /** After every step of Run: exactly one live generation when the policy is active and none
      otherwise, the live one was started with that very policy, and runtime.json carries its
      version and active flag. */
  lemma OneLiveGeneration(pol: Policy, events: seq<SvcEvent>)
    ensures var s := After(Booted(pol), events);
      && LiveCount(s.contexts) == (if s.pol.active then 1 else 0)
      && (forall c | c in s.contexts && Live(c) :: c.started.value == s.pol)
      && s.runtime.policy.version == s.pol.version && s.runtime.policy.active == s.pol.active
      && s.runtime.nonce == s.nonce
  {
    StaysInStep(pol, events);
    var s := After(Booted(pol), events);
    CancelledAreNotLive(s.contexts[..|s.contexts| - 1]);
  }

  /** How many restart commands are among these events. */
  function Restarts(events: seq<SvcEvent>): nat {
    if events == [] then 0
    else Restarts(events[..|events| - 1]) + if events[|events| - 1].GotRestart? then 1 else 0
  }

  lemma {:induction false} RestartsGrow(events: seq<SvcEvent>, i: nat, j: nat)
    requires i <= j <= |events|
    ensures Restarts(events[..i]) <= Restarts(events[..j])
    ensures (exists k | i <= k < j :: events[k].GotRestart?) ==> Restarts(events[..i]) < Restarts(events[..j])
    decreases j
  {
    if i < j {
      RestartsGrow(events, i, j - 1);
      assert events[..j][..j - 1] == events[..j - 1];
    }
  }

  /** The nonce counts the restart commands. */
  lemma {:induction false} NonceCountsRestarts(pol: Policy, events: seq<SvcEvent>)
    ensures After(Booted(pol), events).nonce == Restarts(events)
    decreases |events|
  {
    if events != [] {
      NonceCountsRestarts(pol, events[..|events| - 1]);
    }
  }

  /** Every restart command puts a nonce into the file that no earlier file had, cancels every
      context there was, and adds one that runs the current policy if that is active. */
  lemma EveryRestartIsNew(pol: Policy, events: seq<SvcEvent>)
    ensures var s, t := After(Booted(pol), events), After(Booted(pol), events + [GotRestart]);
      && (forall i | 0 <= i <= |events| :: t.runtime.nonce > After(Booted(pol), events[..i]).runtime.nonce)
      && |t.contexts| == |s.contexts| + 1 && (forall i | 0 <= i < |s.contexts| :: t.contexts[i].cancelled)
      && !t.contexts[|s.contexts|].cancelled
      && t.contexts[|s.contexts|].started == (if s.pol.active then Some(s.pol) else None)
      && t.pol == s.pol && t.runtime.policy == s.pol
  {
    var all := events + [GotRestart];
    assert all[..|events|] == events;
    StaysInStep(pol, events);
    StaysInStep(pol, all);
    NonceCountsRestarts(pol, all);
    forall i | 0 <= i <= |events| ensures Restarts(all) > After(Booted(pol), events[..i]).runtime.nonce {
      StaysInStep(pol, events[..i]);
      NonceCountsRestarts(pol, events[..i]);
      RestartsGrow(events, i, |events|);
      assert events[..|events|] == events;
    }
  }

  /** A poll always puts the server's answer into the file under the same nonce. It replaces the
      generation when the answer's version or flag is new, and leaves it alone otherwise. */
  lemma PollReplacesIff(pol: Policy, events: seq<SvcEvent>, answer: Policy)
    ensures var s, t := After(Booted(pol), events), After(Booted(pol), events + [GotPolicy(answer)]);
      && t.runtime.policy == answer && t.runtime.nonce == s.runtime.nonce
      && (answer.version == s.pol.version && answer.active == s.pol.active ==>
            t.contexts == s.contexts && t.pol == s.pol)
      && (answer.version != s.pol.version || answer.active != s.pol.active ==>
            && t.pol == answer && |t.contexts| == |s.contexts| + 1
            && (forall i | 0 <= i < |s.contexts| :: t.contexts[i].cancelled)
            && t.contexts[|s.contexts|].started == (if answer.active then Some(answer) else None))
  {
    var all := events + [GotPolicy(answer)];
    assert all[..|events|] == events;
    StaysInStep(pol, events);
    StaysInStep(pol, all);
  }

  /** Run's loop body, event by event. */
  class Runner {
    var pol: Policy
    var contexts: seq<Context>
    var restartNonce: nat
    var runtime: Runtime  // runtime.json; writes succeed

    ghost function View(): Svc
      reads this
    {
      Svc(pol, contexts, restartNonce, runtime)
    }

    constructor (first: Policy)
      ensures View() == Booted(first) && InStep(View())
    {
      pol, restartNonce, runtime := first, 0, Runtime(first, 0);
      contexts := [Context(false, if first.active then Some(first) else None)];
    }

    method Cancel()
      requires contexts != []
      modifies this`contexts
      ensures contexts == old(contexts)[|old(contexts)| - 1 := old(contexts)[|old(contexts)| - 1].(cancelled := true)]
    {
      contexts := contexts[|contexts| - 1 := contexts[|contexts| - 1].(cancelled := true)];
    }

    method Start(p: Policy)
      modifies this`contexts
      ensures contexts == old(contexts) + [Fresh(p)]
    {
      contexts := contexts + [Context(false, None)];
      if p.active {
        contexts := contexts[|contexts| - 1 := Context(false, Some(p))];
      }
    }

    method OnPolicy(answer: Option<Policy>)
      requires InStep(View())
      modifies this
      ensures InStep(View())
      ensures View() == if answer.None? then old(View()) else Polled(old(View()), answer.value)
    {
      if answer.None? {
        return;
      }
      var newPol := answer.value;
      runtime := Runtime(newPol, restartNonce);
      if newPol.version != pol.version || newPol.active != pol.active {
        Cancel();
        Start(newPol);
        pol := newPol;
      }
    }

    method OnRestart()
      requires InStep(View())
      modifies this
      ensures InStep(View()) && View() == Restarted(old(View()))
    {
      Cancel();
      Start(pol);
      restartNonce := restartNonce + 1;
      runtime := Runtime(pol, restartNonce);
    }
  }

  // --- the session helper ----------------------------------------------------------------------

  /** The helper of one user: whether the notice was accepted, the runtime value the running
      generation was started from, and all contexts it ever made. */
  datatype Helper = Helper(user: string, consented: bool, running: Option<Runtime>, contexts: seq<Context>)

  predicate SomeSessionCollector(pol: Policy) {
    exists i | 0 <= i < |SESSION_COLLECTORS| :: SESSION_COLLECTORS[i] in pol.enabled
  }

  predicate Wants(h: Helper, file: Option<Runtime>) {
    file.Some? && h.consented && file.value.policy.active && SomeSessionCollector(file.value.policy)
  }

  predicate SameTriple(a: Runtime, b: Runtime) {
    a.policy.version == b.policy.version && a.policy.active == b.policy.active && a.nonce == b.nonce
  }

  /** The outer loop with nothing running: start a generation if the file asks for one. */
  function Considered(h: Helper, file: Option<Runtime>): Helper {
    if Wants(h, file)
    then h.(running := file, contexts := h.contexts + [Context(false, Some(file.value.policy))])
    else h.(running := None)
  }

  function Stopped(h: Helper): Helper {
    if h.running.None? || h.contexts == [] then h.(running := None)
    else
      var last := h.contexts[|h.contexts| - 1];
      h.(running := None, contexts := h.contexts[|h.contexts| - 1 := last.(cancelled := true)])
  }

  /** One wake-up: a running generation looks at the file and ends when version, flag or nonce
      changed; the outer loop then reads the file again. None is an unreadable file. */
  function Woken(h: Helper, inner: Option<Runtime>, outer: Option<Runtime>): Helper {
    if h.running.Some? && (inner.None? || SameTriple(inner.value, h.running.value)) then h
    else Considered(Stopped(h), outer)
  }

  ghost predicate HelperInStep(h: Helper) {
    && (h.running.Some? ==>
          && h.consented && h.running.value.policy.active && h.contexts != []
          && h.contexts[|h.contexts| - 1] == Context(false, Some(h.running.value.policy)))
    && (forall i | 0 <= i < |h.contexts| - 1 :: h.contexts[i].cancelled)
    && (h.running.None? && h.contexts != [] ==> h.contexts[|h.contexts| - 1].cancelled)
  }

  lemma StoppedIsCancelled(h: Helper)
    requires HelperInStep(h)
    ensures forall c | c in Stopped(h).contexts :: c.cancelled
  {
  }

  lemma WokenKeepsStep(h: Helper, inner: Option<Runtime>, outer: Option<Runtime>)
    requires HelperInStep(h)
    ensures HelperInStep(Woken(h, inner, outer))
  {
    StoppedIsCancelled(h);
  }

  lemma InStepLiveCount(h: Helper)
    requires HelperInStep(h)
    ensures LiveCount(h.contexts) == if h.running.Some? then 1 else 0
  {
    if h.contexts != [] {
      CancelledAreNotLive(h.contexts[..|h.contexts| - 1]);
    }
  }

  /** Whatever it reads, the helper has at most one live generation: the one it runs. */
  lemma HelperRunsAtMostOne(h: Helper, inner: Option<Runtime>, outer: Option<Runtime>)
    requires HelperInStep(h)
    ensures HelperInStep(Woken(h, inner, outer))
    ensures LiveCount(Woken(h, inner, outer).contexts) == if Woken(h, inner, outer).running.Some? then 1 else 0
  {
    WokenKeepsStep(h, inner, outer);
    InStepLiveCount(Woken(h, inner, outer));
  }

  /** Once runtime.json has stopped changing, the next wake-up leaves running exactly the
      generation for its version, flag and nonce, or none when the file asks for none; later
      wake-ups change nothing. */
  lemma NextPollFollowsFile(h: Helper, file: Runtime)
    requires HelperInStep(h)
    ensures var t := Woken(h, Some(file), Some(file));
      && (t.running.Some? ==> SameTriple(t.running.value, file) && file.policy.active)
      && (t.running.None? ==> !Wants(h, Some(file)))
      && (t.running.Some? && t.running != h.running ==> t.running == Some(file))
      && (Wants(h, Some(file)) <==> t.running.Some? && SomeSessionCollector(file.policy))
      && Woken(t, Some(file), Some(file)) == t
  {
  }

  /** So the helper ends up in step with the service: same version, same flag, same nonce. */
  lemma HelperFollowsService(pol: Policy, events: seq<SvcEvent>, h: Helper)
    requires HelperInStep(h)
    ensures var s := After(Booted(pol), events);
      var t := Woken(h, Some(s.runtime), Some(s.runtime));
      && (t.running.Some? ==>
            && t.running.value.policy.version == s.pol.version && t.running.value.nonce == s.nonce
            && s.pol.active && LiveCount(s.contexts) == 1 && LiveCount(t.contexts) == 1)
      && (Wants(h, Some(s.runtime)) ==> t.running.Some?)
      && (!s.pol.active ==> t.running.None? && LiveCount(t.contexts) == 0)
  {
    StaysInStep(pol, events);
    OneLiveGeneration(pol, events);
    var s := After(Booted(pol), events);
    NextPollFollowsFile(h, s.runtime);
    HelperRunsAtMostOne(h, Some(s.runtime), Some(s.runtime));
  }

  /** A wake-up ends the running generation exactly when the file can be read and differs in
      version, flag or nonce. */
  lemma GenerationEndsIff(h: Helper, inner: Option<Runtime>, outer: Option<Runtime>)
    requires HelperInStep(h) && h.running.Some?
    ensures var t := Woken(h, inner, outer);
      && |t.contexts| >= |h.contexts| > 0
      && (t.contexts[|h.contexts| - 1].cancelled <==>
            inner.Some? && (inner.value.policy.version != h.running.value.policy.version
                            || inner.value.policy.active != h.running.value.policy.active
                            || inner.value.nonce != h.running.value.nonce))
      && (!t.contexts[|h.contexts| - 1].cancelled ==> t == h)
  {
  }

  /** A policy asks for the helper exactly when it switches on one of the four session collectors. */
  lemma SessionCollectorIff(pol: Policy)
    ensures SomeSessionCollector(pol) <==>
            "screenshot" in pol.enabled || "foreground" in pol.enabled || "fswatch" in pol.enabled
            || "browsing" in pol.enabled
  {
    assert SESSION_COLLECTORS[0] == "screenshot" && SESSION_COLLECTORS[1] == "foreground";
    assert SESSION_COLLECTORS[2] == "fswatch" && SESSION_COLLECTORS[3] == "browsing";
  }

  /** A restart reaches the helper: if it runs what the file asked for at one moment, and the
      server has sent a restart command since, its next wake-up ends that generation and starts a
      new one under the new nonce exactly when the file still asks for one. */
  lemma RestartReachesHelper(pol: Policy, events: seq<SvcEvent>, i: nat, j: nat, h: Helper)
    requires i <= j <= |events| && exists k | i <= k < j :: events[k].GotRestart?
    requires HelperInStep(h) && h.running.Some?
    requires SameTriple(h.running.value, After(Booted(pol), events[..i]).runtime)
    ensures var file := After(Booted(pol), events[..j]).runtime;
      var t := Woken(h, Some(file), Some(file));
      && t.contexts[..|h.contexts| - 1] == h.contexts[..|h.contexts| - 1]
      && t.contexts[|h.contexts| - 1] == Context(true, Some(h.running.value.policy))
      && (if Wants(h, Some(file))
          then t.running == Some(file) && t.contexts[|h.contexts|..] == [Context(false, Some(file.policy))]
          else t.running.None? && |t.contexts| == |h.contexts|)
  {
    RestartsGrow(events, i, j);
    StaysInStep(pol, events[..i]);
    NonceCountsRestarts(pol, events[..i]);
    StaysInStep(pol, events[..j]);
    NonceCountsRestarts(pol, events[..j]);
  }

  /** RunSessionAgent's loop and the generation loop inside it, one wake-up at a time. */
  class SessionAgent {
    const user: string
    var consented: bool
    var running: Option<Runtime>
    var contexts: seq<Context>

    ghost function View(): Helper
      reads this
    {
      Helper(user, consented, running, contexts)
    }

    constructor (user: string, marker: bool, accepts: bool)
      ensures View() == Helper(user, marker || accepts, None, []) && HelperInStep(View())
    {
      this.user := user;
      consented := marker;
      running, contexts := None, [];
      new;
      if !consented && accepts {
        consented := true;
      }
    }

    method Wake(inner: Option<Runtime>, outer: Option<Runtime>)
      requires HelperInStep(View())
      modifies this
      ensures View() == Woken(old(View()), inner, outer) && HelperInStep(View())
    {
      WokenKeepsStep(View(), inner, outer);
      if running.Some? {
        if inner.None? {
          return;  // unreadable: keep running
        }
        var cur, rt := inner.value, running.value;
        if cur.policy.version == rt.policy.version && cur.policy.active == rt.policy.active && cur.nonce == rt.nonce {
          return;
        }
        contexts := contexts[|contexts| - 1 := contexts[|contexts| - 1].(cancelled := true)];
      }
      var active := outer.Some? && consented && outer.value.policy.active && SomeSessionCollector(outer.value.policy);
      if active {
        running := outer;
        contexts := contexts + [Context(false, Some(outer.value.policy))];
      } else {
        running := None;
      }
    }
  }
}
