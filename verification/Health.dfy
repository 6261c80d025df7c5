/** Collector health: the registries of the two processes, the merged report, and the server's
    alerts on collectors that go down. */
module Health {
  import opened Options
  import opened Service

  datatype Status = Status(name: string, running: bool, error: string, role: string)

  function Names(list: seq<Status>): (names: seq<string>)
    ensures |names| == |list| && forall i | 0 <= i < |list| :: names[i] == list[i].name
  {
    seq(|list|, i requires 0 <= i < |list| => list[i].name)
  }

  ghost predicate NoRepeats(names: seq<string>) {
    forall i, j | 0 <= i < j < |names| :: names[i] != names[j]
  }

  function RoleNames(role: string): seq<string> {
    if role == "session" then SESSION_COLLECTORS else SERVICE_COLLECTORS
  }

  /** The collectors of one role that a policy switches on, in the order they are started. */
  function ActiveNames(pol: Policy, candidates: seq<string>): (names: seq<string>)
    ensures forall n :: n in names <==> n in candidates && n in pol.enabled
  {
    if candidates == [] then []
    else
      var init, last := ActiveNames(pol, candidates[..|candidates| - 1]), candidates[|candidates| - 1];
      assert candidates == candidates[..|candidates| - 1] + [last];
      if last in pol.enabled then init + [last] else init
  }

  lemma {:induction false} ActiveNamesNoRepeats(pol: Policy, candidates: seq<string>)
    requires NoRepeats(candidates)
    ensures NoRepeats(ActiveNames(pol, candidates))
  {
    if candidates == [] {
    } else {
      var init, last := candidates[..|candidates| - 1], candidates[|candidates| - 1];
      ActiveNamesNoRepeats(pol, init);
      var names := ActiveNames(pol, init);
      forall i | 0 <= i < |names| ensures names[i] != last {
        assert names[i] in names;
        var k :| 0 <= k < |init| && init[k] == names[i];
        assert candidates[k] == names[i];
      }
    }
  }

  /** The two roles never share a collector name, and each lists its own once. */
  lemma RolesAreDisjoint()
    ensures NoRepeats(SESSION_COLLECTORS) && NoRepeats(SERVICE_COLLECTORS)
    ensures forall n | n in SESSION_COLLECTORS :: n !in SERVICE_COLLECTORS
  {
    assert |"screenshot"| == 10 && |"foreground"| == 10 && |"fswatch"| == 7 && |"browsing"| == 8;
    assert |"dns"| == 3 && |"netflow"| == 7 && |"usb"| == 3 && |"printjobs"| == 9 && |"installs"| == 8;
    assert |"posture"| == 7 && |"seclog"| == 6;
    assert "screenshot"[0] != "foreground"[0] && "dns"[0] != "usb"[0] && "netflow"[0] != "posture"[0];
    assert "fswatch"[0] != "netflow"[0] && "fswatch"[0] != "posture"[0] && "browsing"[0] != "installs"[0];
  }

  /** A registry's entries in some order. */
  ghost predicate Listing(m: map<string, Status>, list: seq<Status>) {
    && NoRepeats(Names(list))
    && (forall s | s in list :: s.name in m && m[s.name] == s)
    && (forall k | k in m :: m[k] in list)
  }

  class HealthRegistry {
    const role: string
    var m: map<string, Status>

    /** Entries are filed under their own names, which are collectors of the role. */
    ghost predicate Valid()
      reads this
    {
      forall k | k in m :: m[k].name == k && m[k].role == role && k in RoleNames(role)
    }

    constructor (role: string)
      ensures Valid() && this.role == role && m == map[]
    {
      this.role, m := role, map[];
    }

    method Reset()
      modifies this
      ensures Valid() && m == map[]
    {
      m := map[];
    }

    method Set(name: string, running: bool, error: string)
      requires Valid() && name in RoleNames(role)
      modifies this
      ensures Valid() && m == old(m)[name := Status(name, running, error, role)]
    {
      m := m[name := Status(name, running, error, role)];
    }

    /** The entries, in whatever order the map is walked. */
    method Snapshot() returns (out: seq<Status>)
      requires Valid()
      ensures Listing(m, out)
    {
      out := [];
      var todo := m.Keys;
      while todo != {}
        invariant todo <= m.Keys && NoRepeats(Names(out))
        invariant forall s | s in out :: s.name in m && s.name !in todo && m[s.name] == s
        invariant forall k | k in m && k !in todo :: m[k] in out
        decreases todo
      {
        var k :| k in todo;
        forall i | 0 <= i < |out| ensures out[i].name != k { assert out[i] in out; }
        out := out + [m[k]];
        todo := todo - {k};
      }
    }

    /** startCollectors: forget the last generation, then mark each started collector running. */
    method StartCollectors(pol: Policy)
      requires Valid()
      modifies this
      ensures Valid()
      ensures forall n :: n in m <==> n in RoleNames(role) && n in pol.enabled
      ensures forall n | n in m :: m[n].running && m[n].error == ""
    {
      Reset();
      var active := ActiveNames(pol, RoleNames(role));
      for i := 0 to |active|
        invariant Valid()
        invariant forall n :: n in m <==> n in active[..i]
        invariant forall n | n in m :: m[n].running && m[n].error == ""
      {
        assert active[..i + 1] == active[..i] + [active[i]];
        Set(active[i], true, "");
      }
      assert active[..|active|] == active;
    }
  }

  const SECOND := 1_000_000_000

  const SESSION_STALE_AFTER := 3 * 60 * SECOND

  /** The helper's part of session.json: when it was written, to the second (None when that is
      missing or unreadable), and the collectors. Times are nanoseconds. */
  datatype SessionState = SessionState(updatedAt: Option<int>, collectors: seq<Status>)

  predicate Fresh(ss: SessionState, now: int) {
    ss.updatedAt.Some? && now - ss.updatedAt.value < SESSION_STALE_AFTER
  }

  /** What a helper writes: a listing of its own registry. */
  ghost predicate FromHelper(ss: SessionState) {
    NoRepeats(Names(ss.collectors)) && forall s | s in ss.collectors :: s.name in SESSION_COLLECTORS
  }

  /** Any snapshot of a session registry is such a listing. */
  lemma SnapshotIsFromHelper(sh: HealthRegistry, list: seq<Status>, updatedAt: Option<int>)
    requires sh.Valid() && sh.role == "session" && Listing(sh.m, list)
    ensures FromHelper(SessionState(updatedAt, list))
  {
    forall s | s in list ensures s.name in SESSION_COLLECTORS {
      assert s.name in sh.m && s.name in RoleNames(sh.role);
    }
  }

  /** writeSessionState: the helper publishes a snapshot of its registry. From then on it counts
      as reporting for at least 179 seconds, and no longer than 180. */
  method WriteSessionState(sh: HealthRegistry, now: int) returns (ss: SessionState)
    requires sh.Valid() && sh.role == "session"
    ensures FromHelper(ss) && Listing(sh.m, ss.collectors)
    ensures forall later :: later <= now + 179 * SECOND ==> Fresh(ss, later)
    ensures forall later :: later >= now + 180 * SECOND ==> !Fresh(ss, later)
  {
    var list := sh.Snapshot();
    SnapshotIsFromHelper(sh, list, Some(now / SECOND * SECOND));
    ss := SessionState(Some(now / SECOND * SECOND), list);
  }

  function Silent(name: string): Status { Status(name, false, "session helper not reporting", "session") }

  /** What the merged report adds for the session side. */
  function SessionPart(ss: SessionState, pol: Option<Policy>, now: int): (part: seq<Status>) {
    if pol.None? || !pol.value.active then []
    else if Fresh(ss, now) then ss.collectors
    else
      var names := ActiveNames(pol.value, SESSION_COLLECTORS);
      seq(|names|, i requires 0 <= i < |names| => Silent(names[i]))
  }

  /** What the report must say of the session side: nothing while collection is off, what the
      helper wrote while it is at most three minutes old, and every enabled session collector
      down after that. */
  ghost predicate OnSessionSide(s: Status, ss: SessionState, pol: Option<Policy>, now: int) {
    && pol.Some? && pol.value.active
    && if ss.updatedAt.Some? && now < ss.updatedAt.value + 180 * SECOND then s in ss.collectors
       else && s.name in ["screenshot", "foreground", "fswatch", "browsing"] && s.name in pol.value.enabled
            && s == Status(s.name, false, "session helper not reporting", "session")
  }

  lemma SessionPartIs(ss: SessionState, pol: Option<Policy>, now: int, s: Status)
    ensures s in SessionPart(ss, pol, now) <==> OnSessionSide(s, ss, pol, now)
  {
    if pol.Some? && pol.value.active && !Fresh(ss, now) {
      var names, part := ActiveNames(pol.value, SESSION_COLLECTORS), SessionPart(ss, pol, now);
      if OnSessionSide(s, ss, pol, now) {
        var i :| 0 <= i < |names| && names[i] == s.name;
        assert part[i] == s;
      }
    }
  }

  /** The service's registry has this entry. */
  ghost predicate OfService(s: Status, m: map<string, Status>) { s.name in m && s == m[s.name] }

  lemma MergedIs(m: map<string, Status>, own: seq<Status>, ss: SessionState, pol: Option<Policy>, now: int)
    requires Listing(m, own)
    ensures forall s :: s in own + SessionPart(ss, pol, now) <==> OfService(s, m) || OnSessionSide(s, ss, pol, now)
  {
    forall s ensures s in own + SessionPart(ss, pol, now) <==> OfService(s, m) || OnSessionSide(s, ss, pol, now) {
      SessionPartIs(ss, pol, now, s);
    }
  }

  /** The report holds the service's entries and what is to be said of the session side, and
      nothing else, with no name twice. */
  method MergedCollectorHealth(svc: HealthRegistry, ss: SessionState, pol: Option<Policy>, now: int)
    returns (out: seq<Status>)
    requires svc.Valid() && svc.role == "service" && FromHelper(ss)
    ensures forall s :: s in out <==> OfService(s, svc.m) || OnSessionSide(s, ss, pol, now)
    ensures NoRepeats(Names(out))
  {
    out := svc.Snapshot();
    ghost var own := out;
    if pol.Some? && pol.value.active {
      if Fresh(ss, now) {
        out := out + ss.collectors;
      } else {
        var names := ActiveNames(pol.value, SESSION_COLLECTORS);
        for i := 0 to |names|
          invariant out == own + SessionPart(ss, pol, now)[..i]
        {
          out := out + [Silent(names[i])];
        }
      }
    }
    assert out == own + SessionPart(ss, pol, now);
    MergedHasNoRepeats(svc.m, own, ss, pol, now);
    MergedIs(svc.m, own, ss, pol, now);
  }

  /** For any policy and any state of the helper, the merged report lists no name twice. */
  lemma MergedHasNoRepeats(m: map<string, Status>, own: seq<Status>, ss: SessionState, pol: Option<Policy>,
                           now: int)
    requires Listing(m, own) && (forall k | k in m :: k in SERVICE_COLLECTORS) && FromHelper(ss)
    ensures NoRepeats(Names(own + SessionPart(ss, pol, now)))
  {
    RolesAreDisjoint();
    var part := SessionPart(ss, pol, now);
    if pol.Some? { ActiveNamesNoRepeats(pol.value, SESSION_COLLECTORS); }
    assert NoRepeats(Names(part));
    forall i | 0 <= i < |part| ensures part[i].name in SESSION_COLLECTORS {
      if pol.value.active && !Fresh(ss, now) {
        assert part[i].name in ActiveNames(pol.value, SESSION_COLLECTORS);
      } else {
        assert part[i] in ss.collectors;
      }
    }
    forall i, j | 0 <= i < |own| && 0 <= j < |part| ensures own[i].name != part[j].name {
      assert own[i] in own;
    }
    var all := own + part;
    forall i, j | 0 <= i < j < |all| ensures all[i].name != all[j].name {
      if j < |own| {
        assert Names(own)[i] != Names(own)[j];
      } else if i >= |own| {
        assert Names(part)[i - |own|] != Names(part)[j - |own|];
      }
    }
  }

  // --- the server's side ----------------------------------------------------------------------

  /** Only session collectors leave data by which they can be seen to run. */
  predicate SeenRunning(name: string, recent: set<string>) { name in SESSION_COLLECTORS && name in recent }

  function Reconcile(s: Status, recent: set<string>): Status {
    if !s.running && SeenRunning(s.name, recent) then s.(running := true, error := "") else s
  }

  function Reconciled(report: seq<Status>, recent: set<string>): (r: seq<Status>)
    ensures |r| == |report| && forall i | 0 <= i < |report| :: r[i] == Reconcile(report[i], recent)
  {
    seq(|report|, i requires 0 <= i < |report| => Reconcile(report[i], recent))
  }

  predicate Down(report: seq<Status>, name: string) {
    exists i | 0 <= i < |report| :: report[i].name == name && !report[i].running
  }

  /** The statuses an alert is requested for: down now, not down in the stored report. */
  function AlertsFor(report: seq<Status>, prev: seq<Status>): seq<Status> {
    if report == [] then []
    else
      var init, last := AlertsFor(report[..|report| - 1], prev), report[|report| - 1];
      if !last.running && !Down(prev, last.name) then init + [last] else init
  }

  function CountFor(alerts: seq<Status>, name: string): nat {
    if alerts == [] then 0
    else CountFor(alerts[..|alerts| - 1], name) + if alerts[|alerts| - 1].name == name then 1 else 0
  }

  /** One non-empty report as the server gets it, which collectors have recent data, and
      whether the stored report can be read and the new one stored. */
  datatype Beat = Beat(report: seq<Status>, recent: set<string>, loads: bool, saves: bool)

  function StoredAfter(beats: seq<Beat>): seq<Status> {
    if beats == [] then []
    else
      var last := beats[|beats| - 1];
      if last.saves then Reconciled(last.report, last.recent) else StoredAfter(beats[..|beats| - 1])
  }

  /** The previous report as the handler of the next heartbeat sees it. */
  function SeenBefore(beats: seq<Beat>, loads: bool): seq<Status> { if loads then StoredAfter(beats) else [] }

  function RequestsAfter(beats: seq<Beat>): seq<Status> {
    if beats == [] then []
    else
      var init, last := beats[..|beats| - 1], beats[|beats| - 1];
      RequestsAfter(init) + AlertsFor(Reconciled(last.report, last.recent), SeenBefore(init, last.loads))
  }

  class MachineHealth {
    var stored: seq<Status>
    var requests: seq<Status>  // CreateAlert calls, whether or not they succeed
    ghost var beats: seq<Beat> // the non-empty heartbeats so far

    ghost predicate Valid()
      reads this
    {
      stored == StoredAfter(beats) && requests == RequestsAfter(beats)
    }

    constructor ()
      ensures Valid() && beats == []
    {
      stored, requests, beats := [], [], [];
    }

    /** The health part of a heartbeat; an empty report changes nothing. */
    method Heartbeat(b: Beat)
      requires Valid()
      modifies this
      ensures Valid() && beats == if b.report == [] then old(beats) else old(beats) + [b]
    {
      if |b.report| == 0 {
        return;
      }
      var hb := ReconcileAll(b.report, b.recent);
      var prev := if b.loads then stored else [];
      var prevDown := DownIn(prev);
      if b.saves {
        stored := hb;
      }
      RequestAlerts(hb, prevDown, prev);
      assert (beats + [b])[..|beats|] == beats;
      beats := beats + [b];
    }

    /** Marks the collectors whose data still arrives as running, in place. */
    method ReconcileAll(report: seq<Status>, recent: set<string>) returns (hb: seq<Status>)
      ensures hb == Reconciled(report, recent)
    {
      hb := report;
      for i := 0 to |hb|
        invariant |hb| == |report|
        invariant forall j | 0 <= j < i :: hb[j] == Reconcile(report[j], recent)
        invariant forall j | i <= j < |hb| :: hb[j] == report[j]
      {
        if !hb[i].running && SeenRunning(hb[i].name, recent) {
          hb := hb[i := hb[i].(running := true, error := "")];
        }
      }
    }

    method DownIn(list: seq<Status>) returns (down: set<string>)
      ensures forall n :: n in down <==> Down(list, n)
    {
      down := {};
      for i := 0 to |list|
        invariant forall n :: n in down <==> Down(list[..i], n)
      {
        assert list[..i + 1] == list[..i] + [list[i]];
        if !list[i].running {
          down := down + {list[i].name};
        }
      }
      assert list[..|list|] == list;
    }

    method RequestAlerts(hb: seq<Status>, prevDown: set<string>, ghost prev: seq<Status>)
      requires forall n :: n in prevDown <==> Down(prev, n)
      modifies this`requests
      ensures requests == old(requests) + AlertsFor(hb, prev)
    {
      for i := 0 to |hb|
        invariant requests == old(requests) + AlertsFor(hb[..i], prev)
      {
        assert hb[..i + 1][..i] == hb[..i];
        if !hb[i].running && hb[i].name !in prevDown {
          requests := requests + [hb[i]];
        }
      }
      assert hb[..|hb|] == hb;
    }
  }

  lemma DownSnoc(report: seq<Status>, name: string)
    requires report != []
    ensures var last := report[|report| - 1];
      Down(report, name) <==> Down(report[..|report| - 1], name) || (last.name == name && !last.running)
  {
    var init := report[..|report| - 1];
    if Down(init, name) {
      var i :| 0 <= i < |init| && init[i].name == name && !init[i].running;
      assert report[i] == init[i];
    }
  }

  lemma {:induction false} AlertsCount(report: seq<Status>, prev: seq<Status>, name: string)
    requires NoRepeats(Names(report))
    ensures CountFor(AlertsFor(report, prev), name) == if Down(report, name) && !Down(prev, name) then 1 else 0
  {
    if report == [] {
    } else {
      var init, last := report[..|report| - 1], report[|report| - 1];
      forall i, j | 0 <= i < j < |init| ensures Names(init)[i] != Names(init)[j] {
        assert Names(report)[i] != Names(report)[j];
      }
      AlertsCount(init, prev, name);
      DownSnoc(report, name);
      if Down(init, name) {
        var i :| 0 <= i < |init| && init[i].name == name && !init[i].running;
        assert Names(report)[i] != Names(report)[|report| - 1];
      }
    }
  }

  /** An alert carries the entry it is about. */
  lemma {:induction false} AlertsAreEntries(report: seq<Status>, prev: seq<Status>)
    ensures forall a | a in AlertsFor(report, prev) :: a in report && !a.running
  {
    if report == [] {
    } else {
      AlertsAreEntries(report[..|report| - 1], prev);
    }
  }

  /** A beat tells of the collector being down: it says so, and it is not one of the four session
      collectors with recent data. */
  ghost predicate ReportedDown(b: Beat, name: string) {
    && (exists i | 0 <= i < |b.report| :: b.report[i].name == name && !b.report[i].running)
    && !(name in b.recent && name in ["screenshot", "foreground", "fswatch", "browsing"])
  }

  /** The last beat that could be stored told of the collector being down. */
  ghost predicate WasDown(beats: seq<Beat>, name: string) {
    beats != [] &&
    var last := beats[|beats| - 1];
    if last.saves then ReportedDown(last, name) else WasDown(beats[..|beats| - 1], name)
  }

  /** Every entry is stored as it was reported, but one of a session collector with recent data
      is stored as running, without an error if it was reported down. */
  lemma StoredAsReported(report: seq<Status>, recent: set<string>, i: nat)
    requires i < |report|
    ensures |Reconciled(report, recent)| == |report|
    ensures var given, kept := report[i], Reconciled(report, recent)[i];
      if given.name in recent && given.name in ["screenshot", "foreground", "fswatch", "browsing"] && !given.running
      then kept == Status(given.name, true, "", given.role)
      else kept == given
  {
  }

  lemma DownAfterReconciling(b: Beat, name: string)
    ensures Down(Reconciled(b.report, b.recent), name) <==> ReportedDown(b, name)
  {
    var r := Reconciled(b.report, b.recent);
    if Down(r, name) {
      var i :| 0 <= i < |r| && r[i].name == name && !r[i].running;
      StoredAsReported(b.report, b.recent, i);
      assert b.report[i].name == name;
    }
    if ReportedDown(b, name) {
      var i :| 0 <= i < |b.report| && b.report[i].name == name && !b.report[i].running;
      StoredAsReported(b.report, b.recent, i);
      assert r[i].name == name;
    }
  }

  lemma {:induction false} StoredDownIff(beats: seq<Beat>, name: string)
    ensures Down(StoredAfter(beats), name) <==> WasDown(beats, name)
  {
    if beats == [] {
    } else {
      DownAfterReconciling(beats[|beats| - 1], name);
      StoredDownIff(beats[..|beats| - 1], name);
    }
  }

  /** What is stored is the last report that could be stored, entry by entry, with the session
      collectors that have recent data running. */
  lemma StoredIsLastSaved(beats: seq<Beat>, n: nat, i: nat)
    requires n < |beats| && beats[n].saves && i < |beats[n].report|
    requires forall k | n < k < |beats| :: !beats[k].saves
    ensures |StoredAfter(beats)| == |beats[n].report|
    ensures var given, kept := beats[n].report[i], StoredAfter(beats)[i];
      var seen := given.name in beats[n].recent && given.name in ["screenshot", "foreground", "fswatch", "browsing"];
      && kept.name == given.name && kept.role == given.role && kept.running == (given.running || seen)
      && kept.error == (if seen && !given.running then "" else given.error)
  {
    StoredSince(beats, n);
    StoredAsReported(beats[n].report, beats[n].recent, i);
  }

  lemma {:induction false} StoredSince(beats: seq<Beat>, n: nat)
    requires n < |beats| && beats[n].saves && forall k | n < k < |beats| :: !beats[k].saves
    ensures StoredAfter(beats) == Reconciled(beats[n].report, beats[n].recent)
  {
    if n < |beats| - 1 {
      StoredSince(beats[..|beats| - 1], n);
    }
  }

  /** Beat i tells of the collector being down, and the list the handler read, if it could, did
      not. */
  ghost predicate Edge(beats: seq<Beat>, i: nat, name: string)
    requires i < |beats|
  {
    ReportedDown(beats[i], name) && !(beats[i].loads && WasDown(beats[..i], name))
  }

  ghost function Edges(beats: seq<Beat>, n: nat, name: string): nat
    requires n <= |beats|
  {
    if n == 0 then 0 else Edges(beats, n - 1, name) + if Edge(beats, n - 1, name) then 1 else 0
  }

  lemma {:induction false} CountAppend(a: seq<Status>, b: seq<Status>, name: string)
    ensures CountFor(a + b, name) == CountFor(a, name) + CountFor(b, name)
  {
    if b == [] {
      assert a + b == a;
    } else {
      assert (a + b)[..|a + b| - 1] == a + b[..|b| - 1];
      CountAppend(a, b[..|b| - 1], name);
    }
  }

  lemma ReconciledNoRepeats(report: seq<Status>, recent: set<string>)
    requires NoRepeats(Names(report))
    ensures NoRepeats(Names(Reconciled(report, recent)))
  {
    assert Names(Reconciled(report, recent)) == Names(report);
  }

  /** Over any sequence of heartbeats without repeated names, the alert requests for a collector
      are exactly its falling edges. */
  lemma {:induction false} RequestsAreEdges(beats: seq<Beat>, n: nat, name: string)
    requires n <= |beats| && forall b | b in beats :: NoRepeats(Names(b.report))
    ensures CountFor(RequestsAfter(beats[..n]), name) == Edges(beats, n, name)
  {
    if n > 0 {
      var init, last := beats[..n - 1], beats[n - 1];
      RequestsAreEdges(beats, n - 1, name);
      assert beats[..n][..n - 1] == init && last in beats;
      var report := Reconciled(last.report, last.recent);
      ReconciledNoRepeats(last.report, last.recent);
      var seen := SeenBefore(init, last.loads);
      AlertsCount(report, seen, name);
      DownAfterReconciling(last, name);
      StoredDownIff(init, name);
      assert Down(seen, name) <==> last.loads && WasDown(init, name);
      CountAppend(RequestsAfter(init), AlertsFor(report, seen), name);
    }
  }

  /** Beat i no longer tells of the collector being down, which the stored report did. */
  ghost predicate Recovery(beats: seq<Beat>, i: nat, name: string)
    requires i < |beats|
  {
    WasDown(beats[..i], name) && !ReportedDown(beats[i], name)
  }

  ghost function Recoveries(beats: seq<Beat>, n: nat, name: string): nat
    requires n <= |beats|
  {
    if n == 0 then 0 else Recoveries(beats, n - 1, name) + if Recovery(beats, n - 1, name) then 1 else 0
  }

  lemma WasDownAfterSaved(beats: seq<Beat>, n: nat, name: string)
    requires n < |beats| && beats[n].saves
    ensures WasDown(beats[..n + 1], name) <==> ReportedDown(beats[n], name)
  {
    assert beats[..n + 1][n] == beats[n];
  }

  lemma {:induction false} EdgesMatchRecoveries(beats: seq<Beat>, n: nat, name: string)
    requires n <= |beats| && forall i | 0 <= i < |beats| :: beats[i].saves && beats[i].loads
    ensures Edges(beats, n, name) == Recoveries(beats, n, name) + if WasDown(beats[..n], name) then 1 else 0
  {
    if n > 0 {
      EdgesMatchRecoveries(beats, n - 1, name);
      WasDownAfterSaved(beats, n - 1, name);
    }
  }

  /** When reports are stored and read back, a collector that stays down is not alerted again:
      every request is answered by a recovery, but for one while the collector is down. */
  lemma RequestsMatchRecoveries(beats: seq<Beat>, n: nat, name: string)
    requires n <= |beats| && forall b | b in beats :: b.saves && b.loads && NoRepeats(Names(b.report))
    ensures CountFor(RequestsAfter(beats[..n]), name) ==
            Recoveries(beats, n, name) + if WasDown(beats[..n], name) then 1 else 0
  {
    forall i | 0 <= i < |beats| ensures beats[i].saves && beats[i].loads {
      assert beats[i] in beats;
    }
    RequestsAreEdges(beats, n, name);
    EdgesMatchRecoveries(beats, n, name);
  }
}
