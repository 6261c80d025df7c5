/** The consent gate over the whole system: server, policy answers in flight, service, handoff
    files and session helpers, with processes that start, stop and fail at any moment. */
module Consent {
  import opened Options
  import opened Service
  import opened Text

  // --- consent records as the server keeps them ------------------------------------------------

  datatype Record = Record(user: string, revoked: bool)

  predicate HasConsent(records: seq<Record>, user: string) {
    exists i | 0 <= i < |records| :: records[i].user == user && !records[i].revoked
  }

  function Revoked(records: seq<Record>, user: string): seq<Record> {
    seq(|records|, i requires 0 <= i < |records| =>
      if records[i].user == user then records[i].(revoked := true) else records[i])
  }

  // --- the local consent marker ------------------------------------------------------------------

  predicate SafeInFileName(c: char) {
    'a' <= c <= 'z' || 'A' <= c <= 'Z' || '0' <= c <= '9' || c == '-' || c == '_' || c == '.'
  }

  /** sanitizeUser: the part of the marker's file name that stands for the user. */
  function Sanitized(u: string): string {
    if u == "" then "unknown"
    else seq(|u|, i requires 0 <= i < |u| => if SafeInFileName(u[i]) then u[i] else '_')
  }

  /** Windows finds files by name without regard to case. */
  function Lower(c: char): char { if 'A' <= c <= 'Z' then 'a' + (c - 'A') else c }

  /** The marker file as the file system tells it from others. */
  function Marker(u: string): string {
    var name := Sanitized(u);
    seq(|name|, i requires 0 <= i < |name| => Lower(name[i]))
  }

  /** Letters, digits and three marks stay in a file name. */
  lemma FileNameCharacters(c: char)
    ensures SafeInFileName(c) <==> c in UPPER || c in LOWER || c in DIGITS || c in "-_."
  {
    IsUpper(c);
    IsLower(c);
    IsDigit(c);
  }

  lemma CaseOfLetters(i: nat)
    requires i < 26
    ensures |UPPER| == |LOWER| == 26 && Lower(UPPER[i]) == LOWER[i]
  {
    LetterAt(i);
  }

  /** The file name cannot tell this character from an underscore. */
  predicate Masked(c: char) { !SafeInFileName(c) || c == '_' }

  function Named(u: string): string { if u == "" then "unknown" else u }

  predicate LookAlike(c: char, d: char) { Lower(c) == Lower(d) || (Masked(c) && Masked(d)) }

  /** Two users share a marker exactly when their names are equally long and differ only in case
      or where both have characters that become underscores (no name counts as "unknown"). */
  lemma MarkersCollideIff(u: string, v: string)
    ensures Marker(u) == Marker(v) <==>
            |Named(u)| == |Named(v)| && forall i | 0 <= i < |Named(u)| :: LookAlike(Named(u)[i], Named(v)[i])
  {
    MarkerAt(u);
    MarkerAt(v);
    if Marker(u) == Marker(v) {
      forall i | 0 <= i < |Named(u)| ensures LookAlike(Named(u)[i], Named(v)[i]) {
        assert Marker(u)[i] == Marker(v)[i];
      }
    }
  }

  lemma MarkerAt(u: string)
    ensures |Marker(u)| == |Named(u)|
    ensures forall i | 0 <= i < |Named(u)| :: Marker(u)[i] == if Masked(Named(u)[i]) then '_' else Lower(Named(u)[i])
  {
    if u == "" {
      assert forall c | c in "unknown" :: 'a' <= c <= 'z';
    }
  }

  const ANN := "CORP\\a b"
  const BOB := "CORP\\a_b"

  /** Two different domain accounts that do. */
  lemma MarkersCollide()
    ensures ANN != BOB && Marker(ANN) == Marker(BOB)
  {
    assert ANN[6] != BOB[6];
    MarkersCollideIff(ANN, BOB);
  }

  // --- the system -----------------------------------------------------------------------------------

  /** A started session generation and whose helper started it. */
  datatype SessionStart = SessionStart(user: string, pol: Policy)

  /** `doc` is what the machine's policy tables currently resolve to, before the consent gate.
      `asked` is a policy request between loading the machine row and the consent lookup;
      `answer` and `beat` are messages in flight; `ended` and `endedSessions` collect the
      generations of processes that are gone; `accepted` is who ever clicked accept. There is a
      helper in every user session; all of them write the one session.json (`session`). */
  datatype World = World(
    time: nat,
    records: seq<Record>, assignedTo: string, doc: Policy,
    asked: Option<Asked>, answer: Option<Policy>, beat: Option<Beat>,
    service: Option<Svc>, file: Option<Runtime>,
    helpers: map<nat, Helper>, session: Option<Beat>,
    markers: set<string>, accepted: set<string>,
    ended: seq<Context>, endedSessions: seq<SessionStart>)

  datatype Asked = Asked(user: string, at: nat)

  /** The identity and consent flag of session.json and of a heartbeat. */
  datatype Beat = Beat(user: string, consented: bool)

  datatype Step =
    | SetDoc(doc: Policy)
    | RecordConsent(user: string)
    | RevokeConsent(user: string)
    | AskPolicy
    | AnswerPolicy
    | LoseAnswer
    | GetAnswer
    | RestartCommand
    | StopService
    | SendBeat
    | TakeBeat
    | StartHelper(id: nat, user: string, accepts: bool, marks: bool)
    | WakeHelper(id: nat, innerReadable: bool, outerReadable: bool)
    | StopHelper(id: nat)

  ghost predicate Init(w: World) {
    && w.time == 0 && w.asked.None? && w.answer.None? && w.beat.None? && w.service.None? && w.file.None?
    && w.helpers == map[] && w.session.None? && w.markers == {} && w.accepted == {}
    && w.ended == [] && w.endedSessions == []
  }

  /** EffectivePolicy's last step: active exactly with an assigned, consenting user. */
  function Gated(doc: Policy, records: seq<Record>, user: string, readAt: nat, now: nat): Policy {
    doc.(active := user != "" && HasConsent(records, user), grant := Grant(user, readAt, now))
  }

  function SessionsOf(h: Helper): seq<SessionStart> {
    seq(|h.contexts|, i requires 0 <= i < |h.contexts| =>
      SessionStart(h.user, h.contexts[i].started.GetOr(Policy(0, false, {}, "", Grant("", 0, 0)))))
  }

  function ReadFile(w: World, readable: bool): Option<Runtime> { if readable then w.file else None }

  function WithService(w: World, s: Svc): World { w.(service := Some(s), file := Some(s.runtime)) }

  /** The heartbeat handler: attribute the machine, then record consent if it is new. */
  function Taken(w: World, b: Beat): World {
    w.(assignedTo := if b.user != "" then b.user else w.assignedTo,
       records := if b.consented && b.user != "" && !HasConsent(w.records, b.user)
                  then w.records + [Record(b.user, false)] else w.records)
  }

  ghost predicate Enabled(w: World, step: Step) {
    match step
    case AnswerPolicy => w.asked.Some?
    case GetAnswer => w.answer.Some? && (w.service.Some? ==> w.service.value.contexts != [])
    case RestartCommand => w.service.Some? && w.service.value.contexts != []
    case SendBeat => w.service.Some?
    case TakeBeat => w.beat.Some?
    case StartHelper(id, _, _, _) => id !in w.helpers
    case WakeHelper(id, _, _) => id in w.helpers
    case StopHelper(id) => id in w.helpers
    case _ => true
  }

  ghost function Apply(w: World, step: Step): World
    requires Enabled(w, step)
  {
    var v := w.(time := w.time + 1);
    match step
    case SetDoc(doc) => v.(doc := doc)
    case RecordConsent(user) => v.(records := w.records + [Record(user, false)])
    case RevokeConsent(user) => v.(records := Revoked(w.records, user))
    case AskPolicy => v.(asked := Some(Asked(w.assignedTo, w.time)))
    case AnswerPolicy =>
      v.(asked := None, answer := Some(Gated(w.doc, w.records, w.asked.value.user, w.asked.value.at, w.time)))
    case LoseAnswer => v.(answer := None)
    case GetAnswer =>
      WithService(v.(answer := None),
                  if w.service.None? then Booted(w.answer.value) else Polled(w.service.value, w.answer.value))
    case RestartCommand => WithService(v, Restarted(w.service.value))
    case StopService =>
      v.(service := None, ended := if w.service.None? then w.ended else w.ended + w.service.value.contexts)
    case SendBeat => v.(beat := if w.session.Some? then w.session else Some(Beat("", false)))
    case TakeBeat => Taken(v.(beat := None), w.beat.value)
    case StartHelper(id, user, accepts, marks) =>
      var marker := Marker(user) in w.markers;
      v.(helpers := w.helpers[id := Helper(user, marker || accepts, None, [])],
         session := Some(Beat(user, marker || accepts)),
         accepted := if !marker && accepts then w.accepted + {user} else w.accepted,
         markers := if !marker && accepts && marks then w.markers + {Marker(user)} else w.markers)
    case WakeHelper(id, a, b) =>
      var h := w.helpers[id];
      v.(helpers := w.helpers[id := Woken(h, ReadFile(w, a), ReadFile(w, b))],
         session := Some(Beat(h.user, h.consented)))
    case StopHelper(id) =>
      v.(helpers := w.helpers - {id}, endedSessions := w.endedSessions + SessionsOf(w.helpers[id]))
  }

  /** A behaviour: every state follows from the one before by some step. */
  ghost predicate Behaviour(ws: seq<World>) {
    && ws != [] && Init(ws[0])
    && forall k | 0 <= k < |ws| - 1 :: Follows(ws[k], ws[k + 1])
  }

  ghost predicate Follows(v: World, w: World) { exists step :: Enabled(v, step) && w == Apply(v, step) }

  // --- where policies come from ------------------------------------------------------------------

  /** An active policy was answered for a user the machine row named at one moment of the
      behaviour, who held an unrevoked consent record at a later (or the same) one. */
  ghost predicate Granted(ws: seq<World>, pol: Policy) {
    pol.active ==>
      var g := pol.grant;
      && g.readAt <= g.checkedAt < |ws| && g.user != ""
      && ws[g.readAt].assignedTo == g.user && HasConsent(ws[g.checkedAt].records, g.user)
  }

  ghost predicate AllGranted(ws: seq<World>, cs: seq<Context>) {
    forall c | c in cs && c.started.Some? :: c.started.value.active && Granted(ws, c.started.value)
  }

  ghost predicate SvcGranted(ws: seq<World>, s: Svc) {
    s.contexts != [] && Granted(ws, s.pol) && Granted(ws, s.runtime.policy) && AllGranted(ws, s.contexts)
  }

  /** Whoever the helper runs for, someone whose marker has the same name accepted. */
  ghost predicate SomeoneAccepted(w: World, user: string) {
    exists a | a in w.accepted :: Marker(a) == Marker(user)
  }

  ghost predicate HelperGranted(ws: seq<World>, w: World, h: Helper) {
    && (h.running.Some? ==> Granted(ws, h.running.value.policy))
    && (forall c | c in h.contexts :: c.started.Some?) && AllGranted(ws, h.contexts)
    && (h.consented || h.contexts != [] ==> SomeoneAccepted(w, h.user))
    && (h.contexts != [] ==> h.consented)
  }

  ghost predicate SessionGranted(ws: seq<World>, w: World, s: SessionStart) {
    s.pol.active && Granted(ws, s.pol) && SomeoneAccepted(w, s.user)
  }

  /** What holds of the last state of a behaviour. */
  ghost predicate Inv(ws: seq<World>, w: World) {
    && w.time == |ws| - 1
    && (w.asked.Some? ==> w.asked.value.at < |ws| && ws[w.asked.value.at].assignedTo == w.asked.value.user)
    && (w.answer.Some? ==> Granted(ws, w.answer.value))
    && (w.file.Some? ==> Granted(ws, w.file.value.policy))
    && (w.service.Some? ==> SvcGranted(ws, w.service.value))
    && AllGranted(ws, w.ended)
    && (forall id | id in w.helpers :: HelperGranted(ws, w, w.helpers[id]))
    && (forall s | s in w.endedSessions :: SessionGranted(ws, w, s))
    && (forall m | m in w.markers :: exists a | a in w.accepted :: Marker(a) == m)
  }

  lemma GrantedLater(ws: seq<World>, w: World, pol: Policy)
    requires Granted(ws, pol)
    ensures Granted(ws + [w], pol)
  {
  }

  /** Appending a state keeps everything that was granted. */
  lemma InvLater(ws: seq<World>, w: World, next: World)
    requires Inv(ws, w)
    ensures Inv(ws + [next], w.(time := w.time + 1))
  {
    forall pol | Granted(ws, pol) ensures Granted(ws + [next], pol) { GrantedLater(ws, next, pol); }
  }

  lemma ReplacedGranted(ws: seq<World>, cs: seq<Context>, pol: Policy)
    requires cs != [] && AllGranted(ws, cs) && Granted(ws, pol)
    ensures AllGranted(ws, Replaced(cs, pol))
  {
    var cut := cs[|cs| - 1 := cs[|cs| - 1].(cancelled := true)];
    forall c | c in cut && c.started.Some? ensures c.started.value.active && Granted(ws, c.started.value) {
      var i :| 0 <= i < |cut| && cut[i] == c;
      assert cs[i] in cs && cs[i].started == c.started;
    }
  }

  lemma WokenGranted(ws: seq<World>, w: World, h: Helper, inner: Option<Runtime>, outer: Option<Runtime>)
    requires HelperGranted(ws, w, h) && (outer.Some? ==> Granted(ws, outer.value.policy))
    ensures HelperGranted(ws, w, Woken(h, inner, outer))
  {
    var s := Stopped(h);
    forall c | c in s.contexts ensures c.started.Some? && c.started.value.active && Granted(ws, c.started.value) {
      var i :| 0 <= i < |s.contexts| && s.contexts[i] == c;
      assert h.contexts[i] in h.contexts && h.contexts[i].started == c.started;
    }
  }

  lemma AnswerKeepsInv(ws: seq<World>, w: World, step: Step)
    requires Inv(ws, w) && Enabled(w, step) && step.GetAnswer?
    ensures Inv(ws + [Apply(w, step)], Apply(w, step))
  {
    var next := Apply(w, step);
    InvLater(ws, w, next);
    if w.service.Some? { ReplacedGranted(ws + [next], w.service.value.contexts, w.answer.value); }
  }

  lemma RestartKeepsInv(ws: seq<World>, w: World, step: Step)
    requires Inv(ws, w) && Enabled(w, step) && step.RestartCommand?
    ensures Inv(ws + [Apply(w, step)], Apply(w, step))
  {
    var next := Apply(w, step);
    InvLater(ws, w, next);
    ReplacedGranted(ws + [next], w.service.value.contexts, w.service.value.pol);
  }

  lemma StopServiceKeepsInv(ws: seq<World>, w: World, step: Step)
    requires Inv(ws, w) && Enabled(w, step) && step.StopService?
    ensures Inv(ws + [Apply(w, step)], Apply(w, step))
  {
    InvLater(ws, w, Apply(w, step));
  }

  lemma OneHelperChanges(ws: seq<World>, w: World, id: nat, h: Helper, session: Option<Beat>)
    requires Inv(ws, w) && HelperGranted(ws, w, h)
    ensures Inv(ws, w.(helpers := w.helpers[id := h], session := session))
  {
  }

  lemma WakeKeepsInv(ws: seq<World>, w: World, step: Step)
    requires Inv(ws, w) && Enabled(w, step) && step.WakeHelper?
    ensures Inv(ws + [Apply(w, step)], Apply(w, step))
  {
    var h, later := w.helpers[step.id], w.(time := w.time + 1);
    var inner, outer := ReadFile(w, step.innerReadable), ReadFile(w, step.outerReadable);
    var all := ws + [Apply(w, step)];
    InvLater(ws, w, Apply(w, step));
    WokenGranted(all, later, h, inner, outer);
    OneHelperChanges(all, later, step.id, Woken(h, inner, outer), Some(Beat(h.user, h.consented)));
  }

  lemma SessionsGranted(ws: seq<World>, w: World, h: Helper)
    requires HelperGranted(ws, w, h)
    ensures forall s | s in SessionsOf(h) :: SessionGranted(ws, w, s)
  {
    forall s | s in SessionsOf(h) ensures SessionGranted(ws, w, s) {
      var i :| 0 <= i < |h.contexts| && SessionsOf(h)[i] == s;
      assert h.contexts[i] in h.contexts;
    }
  }

  lemma StopHelperKeepsInv(ws: seq<World>, w: World, step: Step)
    requires Inv(ws, w) && Enabled(w, step) && step.StopHelper?
    ensures Inv(ws + [Apply(w, step)], Apply(w, step))
  {
    InvLater(ws, w, Apply(w, step));
    SessionsGranted(ws + [Apply(w, step)], w, w.helpers[step.id]);
  }

  lemma StartHelperKeepsInv(ws: seq<World>, w: World, step: Step)
    requires Inv(ws, w) && Enabled(w, step) && step.StartHelper?
    ensures Inv(ws + [Apply(w, step)], Apply(w, step))
  {
    var next := Apply(w, step);
    InvLater(ws, w, next);
    forall u | SomeoneAccepted(w, u) ensures SomeoneAccepted(next, u) {
      var a :| a in w.accepted && Marker(a) == Marker(u);
      assert a in next.accepted;
    }
    forall m | m in w.markers ensures exists a | a in next.accepted :: Marker(a) == m {
      var a :| a in w.accepted && Marker(a) == m;
      assert a in next.accepted;
    }
  }

  /** Steps that only change what the server knows, or what is on its way to it. */
  lemma ServerStepKeepsInv(ws: seq<World>, w: World, step: Step)
    requires Inv(ws, w) && Enabled(w, step)
    requires step.SetDoc? || step.RecordConsent? || step.RevokeConsent? || step.LoseAnswer?
             || step.SendBeat? || step.TakeBeat?
    ensures Inv(ws + [Apply(w, step)], Apply(w, step))
  {
    InvLater(ws, w, Apply(w, step));
  }

  lemma PolicyStepKeepsInv(ws: seq<World>, w: World, step: Step)
    requires Inv(ws, w) && Enabled(w, step) && (step.AskPolicy? || step.AnswerPolicy?)
    requires ws[|ws| - 1] == w
    ensures Inv(ws + [Apply(w, step)], Apply(w, step))
  {
    InvLater(ws, w, Apply(w, step));
  }

  lemma StepKeepsInv(ws: seq<World>, w: World, step: Step)
    requires Inv(ws, w) && Enabled(w, step) && ws[|ws| - 1] == w
    ensures Inv(ws + [Apply(w, step)], Apply(w, step))
  {
    match step
    case GetAnswer => AnswerKeepsInv(ws, w, step);
    case RestartCommand => RestartKeepsInv(ws, w, step);
    case StopService => StopServiceKeepsInv(ws, w, step);
    case WakeHelper(_, _, _) => WakeKeepsInv(ws, w, step);
    case StopHelper(_) => StopHelperKeepsInv(ws, w, step);
    case StartHelper(_, _, _, _) => StartHelperKeepsInv(ws, w, step);
    case AskPolicy => PolicyStepKeepsInv(ws, w, step);
    case AnswerPolicy => PolicyStepKeepsInv(ws, w, step);
    case _ => ServerStepKeepsInv(ws, w, step);
  }

  lemma {:induction false} BehaviourKeepsInv(ws: seq<World>)
    requires Behaviour(ws)
    ensures Inv(ws, ws[|ws| - 1])
    decreases |ws|
  {
    if |ws| == 1 {
    } else {
      var init := ws[..|ws| - 1];
      BehaviourKeepsInv(init);
      var v, w := init[|init| - 1], ws[|ws| - 1];
      assert Follows(ws[|ws| - 2], ws[|ws| - 1]);
      var step :| Enabled(v, step) && w == Apply(v, step);
      StepKeepsInv(init, v, step);
      assert ws == init + [w];
    }
  }

  // --- the gate ---------------------------------------------------------------------------------------

  ghost predicate StartedByService(w: World, pol: Policy) {
    exists c | c in w.ended || (w.service.Some? && c in w.service.value.contexts) :: c.started == Some(pol)
  }

  ghost predicate StartedBySession(w: World, user: string, pol: Policy) {
    || SessionStart(user, pol) in w.endedSessions
    || (exists id, c | id in w.helpers && c in w.helpers[id].contexts ::
          w.helpers[id].user == user && c.started == Some(pol))
  }

  /** In every behaviour, every generation the service ever started runs a policy whose answer
      was computed while the server held an unrevoked consent record for the user the machine
      was assigned to when it asked. */
  lemma ServiceNeedsConsent(ws: seq<World>, pol: Policy)
    requires Behaviour(ws) && StartedByService(ws[|ws| - 1], pol)
    ensures pol.active && Granted(ws, pol)
  {
    BehaviourKeepsInv(ws);
  }

  /** The same holds of every session generation, which moreover needs someone's local
      acceptance under the marker name of the helper's user. */
  lemma SessionNeedsConsentAndAcceptance(ws: seq<World>, user: string, pol: Policy)
    requires Behaviour(ws) && StartedBySession(ws[|ws| - 1], user, pol)
    ensures pol.active && Granted(ws, pol) && SomeoneAccepted(ws[|ws| - 1], user)
  {
    BehaviourKeepsInv(ws);
  }

  /** The acceptance is the user's own whenever no other accepting user shares the marker. */
  lemma OwnAcceptance(ws: seq<World>, user: string, pol: Policy)
    requires Behaviour(ws) && StartedBySession(ws[|ws| - 1], user, pol)
    requires forall a | a in ws[|ws| - 1].accepted && Marker(a) == Marker(user) :: a == user
    ensures user in ws[|ws| - 1].accepted
  {
    SessionNeedsConsentAndAcceptance(ws, user, pol);
  }

  // --- what a heartbeat does to consent --------------------------------------------------------------

  lemma RevokedHasNone(records: seq<Record>, user: string, other: string)
    ensures HasConsent(Revoked(records, user), other) <==> HasConsent(records, other) && other != user
  {
    var r := Revoked(records, user);
    if HasConsent(records, other) && other != user {
      var i :| 0 <= i < |records| && records[i].user == other && !records[i].revoked;
      assert r[i].user == other && !r[i].revoked;
    }
  }

  /** The steps a behaviour takes. */
  ghost predicate Traces(ws: seq<World>, steps: seq<Step>) {
    && |ws| == |steps| + 1
    && forall k | 0 <= k < |steps| :: Enabled(ws[k], steps[k]) && ws[k + 1] == Apply(ws[k], steps[k])
  }

  lemma {:induction false} BehaviourHasTrace(ws: seq<World>) returns (steps: seq<Step>)
    requires Behaviour(ws)
    ensures Traces(ws, steps)
    decreases |ws|
  {
    if |ws| == 1 {
      steps := [];
    } else {
      var before := BehaviourHasTrace(ws[..|ws| - 1]);
      var k := |ws| - 2;
      assert Follows(ws[k], ws[k + 1]);
      var step :| Enabled(ws[k], step) && ws[k + 1] == Apply(ws[k], step);
      steps := before + [step];
      forall j | 0 <= j < |steps| ensures Enabled(ws[j], steps[j]) && ws[j + 1] == Apply(ws[j], steps[j]) {
        if j < k { assert before[j] == steps[j] && ws[..|ws| - 1][j] == ws[j] && ws[..|ws| - 1][j + 1] == ws[j + 1]; }
      }
    }
  }

  /** What gives a user consent: a recorded one, or a heartbeat that reports the acceptance. */
  predicate GivesConsent(w: World, step: Step, user: string) {
    step == RecordConsent(user) || (step.TakeBeat? && user != "" && w.beat == Some(Beat(user, true)))
  }

  ghost predicate NotRevoked(steps: seq<Step>, from: nat, to: nat, user: string)
    requires to <= |steps|
  {
    forall l | from <= l < to :: steps[l] != RevokeConsent(user)
  }

  lemma OneMoreRecord(records: seq<Record>, user: string, other: string)
    ensures HasConsent(records + [Record(user, false)], other) <==> HasConsent(records, other) || other == user
  {
    var more := records + [Record(user, false)];
    assert more[|records|] == Record(user, false);
    if i :| 0 <= i < |records| && records[i].user == other && !records[i].revoked {
      assert more[i] == records[i];
    }
  }

  lemma ConsentStep(w: World, step: Step, user: string)
    requires Enabled(w, step)
    ensures HasConsent(Apply(w, step).records, user) <==>
            GivesConsent(w, step, user) || (HasConsent(w.records, user) && step != RevokeConsent(user))
  {
    match step
    case RecordConsent(other) => OneMoreRecord(w.records, other, user);
    case RevokeConsent(other) => RevokedHasNone(w.records, other, user);
    case TakeBeat => OneMoreRecord(w.records, w.beat.value.user, user);
    case _ =>
  }

  /** Between two moments of a behaviour: a user consents at the later one exactly when some step
      gave consent that no later one revoked, or the user consented before and nothing revoked it. */
  lemma {:induction false} ConsentIff(ws: seq<World>, steps: seq<Step>, k: nat, m: nat, user: string)
    requires Traces(ws, steps) && k <= m <= |steps|
    ensures HasConsent(ws[m].records, user) <==>
            || (exists j: nat :: k <= j < m && GivesConsent(ws[j], steps[j], user) && NotRevoked(steps, j + 1, m, user))
            || (HasConsent(ws[k].records, user) && NotRevoked(steps, k, m, user))
    decreases m - k
  {
    if k < m {
      var last := steps[m - 1];
      ConsentIff(ws, steps, k, m - 1, user);
      ConsentStep(ws[m - 1], last, user);
      assert Enabled(ws[m - 1], last) && ws[m - 1 + 1] == Apply(ws[m - 1], last);
      forall j: nat | k <= j < m
        ensures NotRevoked(steps, j, m, user) <==> NotRevoked(steps, j, m - 1, user) && last != RevokeConsent(user)
      {
      }
      assert NotRevoked(steps, m, m, user);
      if GivesConsent(ws[m - 1], last, user) {
        assert k <= m - 1 < m && NotRevoked(steps, m - 1 + 1, m, user);
      }
    }
  }

  /** After the last revocation in a behaviour, the user consents again exactly when some later
      step recorded a consent or took a heartbeat that reports the user's acceptance. */
  lemma RevocationLastsUntilNextBeat(ws: seq<World>, steps: seq<Step>, k: nat, m: nat, user: string)
    requires Behaviour(ws) && Traces(ws, steps)
    requires k < m <= |steps| && steps[k] == RevokeConsent(user) && NotRevoked(steps, k + 1, m, user)
    ensures HasConsent(ws[m].records, user) <==> exists j: nat :: k < j < m && GivesConsent(ws[j], steps[j], user)
  {
    ConsentIff(ws, steps, k + 1, m, user);
    ConsentStep(ws[k], steps[k], user);
    assert !HasConsent(ws[k + 1].records, user);
    forall j: nat | k < j < m && GivesConsent(ws[j], steps[j], user) ensures NotRevoked(steps, j + 1, m, user) {
    }
  }

  // --- the tables in place -----------------------------------------------------------------------------

  class ConsentTable {
    var records: seq<Record>

    constructor ()
      ensures records == []
    {
      records := [];
    }

    method RecordConsent(user: string)
      modifies this
      ensures records == old(records) + [Record(user, false)]
      ensures forall u :: HasConsent(records, u) <==> u == user || HasConsent(old(records), u)
    {
      records := records + [Record(user, false)];
      assert records[|old(records)|] == Record(user, false);
      forall u ensures HasConsent(records, u) <==> u == user || HasConsent(old(records), u) {
        if HasConsent(old(records), u) {
          var i :| 0 <= i < |old(records)| && old(records)[i].user == u && !old(records)[i].revoked;
          assert records[i] == old(records)[i];
        }
      }
    }

    method RevokeConsent(user: string)
      modifies this
      ensures records == Revoked(old(records), user)
      ensures forall u :: HasConsent(records, u) <==> u != user && HasConsent(old(records), u)
    {
      for i := 0 to |records|
        invariant |records| == |old(records)|
        invariant forall j | 0 <= j < i :: records[j] == Revoked(old(records), user)[j]
        invariant forall j | i <= j < |records| :: records[j] == old(records)[j]
      {
        if records[i].user == user && !records[i].revoked {
          records := records[i := records[i].(revoked := true)];
        }
      }
      forall u ensures HasConsent(records, u) <==> u != user && HasConsent(old(records), u) {
        assert records == Revoked(old(records), user);
        RevokedHasNone(old(records), user, u);
      }
    }
  }
}
