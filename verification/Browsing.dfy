/** The incremental scan of browser history: one page of new visits per scan, above a
    watermark that is saved between scans. */
module Browsing {
  import opened Options

  /** A row of the history database. `id` is the row's identity; a row that does not scan into
      the expected types is skipped. */
  datatype Visit = Visit(id: nat, url: string, title: string, time: int, scans: bool)

  const MAX_PER_SCAN: nat := 3000

  /** Chrome counts microseconds from 1601. */
  const CHROME_EPOCH_OFFSET := 11_644_473_600_000_000

  /** How far back the first scan of a database goes: seven days, in microseconds. */
  const INITIAL_LOOKBACK := 7 * 24 * 3600 * 1_000_000

  /** Only web addresses are emitted. */
  predicate Web(v: Visit) { v.scans && v.url != "" && "http" <= v.url }

  /** What the query returns: visits after the mark in time order, at most one page, and when
      some are left out the page is full and they are no earlier than any row in it. The order
      of visits with equal times is the database's choice. */
  ghost predicate IsPage(history: set<Visit>, mark: int, page: seq<Visit>) {
    && |page| <= MAX_PER_SCAN
    && (forall i | 0 <= i < |page| :: page[i] in history && page[i].time > mark)
    && (forall i, j | 0 <= i < j < |page| :: page[i] != page[j] && page[i].time <= page[j].time)
    && (forall v | v in history && v.time > mark && v !in page ::
          |page| == MAX_PER_SCAN && forall p | p in page :: p.time <= v.time)
  }

  /** The latest time among the rows that scan, or the old mark. */
  function NewMark(mark: int, page: seq<Visit>): int {
    if page == [] then mark
    else
      var m, last := NewMark(mark, page[..|page| - 1]), page[|page| - 1];
      if last.scans && last.time > m then last.time else m
  }

  function WebVisits(page: seq<Visit>): seq<Visit> {
    if page == [] then []
    else
      var init, last := WebVisits(page[..|page| - 1]), page[|page| - 1];
      if Web(last) then init + [last] else init
  }

  // --- one source over many scans -----------------------------------------------------------

  /** A completed scan: the history it saw and the page it got. */
  datatype Scan = Scan(history: set<Visit>, page: seq<Visit>)

  function MarkAfter(mark: int, scans: seq<Scan>): int {
    if scans == [] then mark else NewMark(MarkAfter(mark, scans[..|scans| - 1]), scans[|scans| - 1].page)
  }

  function Emitted(scans: seq<Scan>): seq<Visit> {
    if scans == [] then [] else Emitted(scans[..|scans| - 1]) + WebVisits(scans[|scans| - 1].page)
  }

  /** Completed scans of one source: each gets a page above the mark the earlier ones left, and
      between scans visits are only added, later than that mark. */
  ghost predicate ScanRun(mark: int, scans: seq<Scan>) {
    scans == [] ||
    var init, scan := scans[..|scans| - 1], scans[|scans| - 1];
    && ScanRun(mark, init)
    && IsPage(scan.history, MarkAfter(mark, init), scan.page)
    && (init != [] ==> Grows(MarkAfter(mark, init), init[|init| - 1].history, scan.history))
  }

  ghost predicate Grows(mark: int, before: set<Visit>, after: set<Visit>) {
    before <= after && forall v | v in after && v !in before :: v.time > mark
  }

  lemma {:induction false} NewMarkIsLatest(mark: int, page: seq<Visit>)
    ensures NewMark(mark, page) >= mark
    ensures forall p | p in page && p.scans :: p.time <= NewMark(mark, page)
    ensures NewMark(mark, page) == mark || exists p :: p in page && p.scans && p.time == NewMark(mark, page)
  {
    if page == [] {
    } else {
      NewMarkIsLatest(mark, page[..|page| - 1]);
      var last := page[|page| - 1];
      assert page == page[..|page| - 1] + [last];
      assert last in page;
    }
  }

  ghost predicate InOrder(visits: seq<Visit>) {
    forall i, j | 0 <= i < j < |visits| :: visits[i] != visits[j] && visits[i].time <= visits[j].time
  }

  lemma {:induction false} WebVisitsOfPage(page: seq<Visit>)
    requires InOrder(page)
    ensures InOrder(WebVisits(page))
    ensures forall v :: v in WebVisits(page) <==> v in page && Web(v)
  {
    if page == [] {
    } else {
      var init, last := page[..|page| - 1], page[|page| - 1];
      WebVisitsOfPage(init);
      assert page == init + [last];
      forall v | v in init ensures v != last && v.time <= last.time {
        var i :| 0 <= i < |init| && init[i] == v;
        assert page[i] == v;
      }
    }
  }

  lemma InOrderAppend(a: seq<Visit>, b: seq<Visit>, mark: int)
    requires InOrder(a) && InOrder(b)
    requires (forall v | v in a :: v.time <= mark) && forall v | v in b :: v.time > mark
    ensures InOrder(a + b)
  {
    forall i, j | 0 <= i < |a| && 0 <= j < |b| ensures a[i].time < b[j].time {
      assert a[i] in a && b[j] in b;
    }
  }

  /** What one scan emits: the web visits of its page, above the old mark and up to the new. */
  lemma PageEmits(history: set<Visit>, mark: int, page: seq<Visit>)
    requires IsPage(history, mark, page)
    ensures InOrder(WebVisits(page))
    ensures forall v | v in WebVisits(page) :: mark < v.time <= NewMark(mark, page) && v in page && Web(v)
    ensures forall v | v in page :: mark < v.time && v in history && (Web(v) ==> v in WebVisits(page))
  {
    WebVisitsOfPage(page);
    NewMarkIsLatest(mark, page);
    forall v | v in page ensures mark < v.time && v in history {
      var i :| 0 <= i < |page| && page[i] == v;
    }
  }

  /** Everything emitted so far lies between the first mark and the current one, in time order
      and without repetition. */
  lemma {:induction false} EmittedInOrder(mark: int, scans: seq<Scan>)
    requires ScanRun(mark, scans)
    ensures InOrder(Emitted(scans)) && MarkAfter(mark, scans) >= mark
    ensures forall v | v in Emitted(scans) ::
      mark < v.time <= MarkAfter(mark, scans) && Web(v) && v in scans[|scans| - 1].history
  {
    if scans == [] {
    } else {
      var init, scan := scans[..|scans| - 1], scans[|scans| - 1];
      var m := MarkAfter(mark, init);
      EmittedInOrder(mark, init);
      PageEmits(scan.history, m, scan.page);
      NewMarkIsLatest(m, scan.page);
      InOrderAppend(Emitted(init), WebVisits(scan.page), m);
    }
  }

  /** A visit left out of a full page although its time equals that of the page's last row,
      where the watermark then stands. */
  ghost predicate TiedAtEnd(history: set<Visit>, mark: int, page: seq<Visit>, v: Visit) {
    && v in history && v !in page && |page| == MAX_PER_SCAN
    && mark < v.time == page[|page| - 1].time == NewMark(mark, page)
  }

  /** A visit the scans can no longer emit: it was tied at the end of one of them. */
  ghost predicate Missed(mark: int, scans: seq<Scan>, v: Visit) {
    scans != [] &&
    var init, scan := scans[..|scans| - 1], scans[|scans| - 1];
    Missed(mark, init, v) || TiedAtEnd(scan.history, MarkAfter(mark, init), scan.page, v)
  }

  lemma {:induction false} MissedIsPast(mark: int, scans: seq<Scan>, v: Visit)
    requires ScanRun(mark, scans) && Missed(mark, scans, v)
    ensures v.time <= MarkAfter(mark, scans)
  {
    var init, scan := scans[..|scans| - 1], scans[|scans| - 1];
    NewMarkIsLatest(MarkAfter(mark, init), scan.page);
    if Missed(mark, init, v) {
      MissedIsPast(mark, init, v);
    }
  }

  /** A visit in one scan's window is in its page, or tied at the end of it. */
  lemma WindowIsPageOrTied(history: set<Visit>, mark: int, page: seq<Visit>, v: Visit)
    requires IsPage(history, mark, page) && v in history && mark < v.time <= NewMark(mark, page)
    ensures v in page <==> !TiedAtEnd(history, mark, page, v)
  {
    NewMarkIsLatest(mark, page);
    if v !in page {
      var p :| p in page && p.scans && p.time == NewMark(mark, page);
      var k :| 0 <= k < |page| && page[k] == p;
      assert page[|page| - 1] in page;
    }
  }

  /** One scan settles the visits of its own window and leaves the earlier ones alone. */
  lemma LastScanSettles(history: set<Visit>, mark: int, page: seq<Visit>, v: Visit)
    requires IsPage(history, mark, page) && v in history && Web(v)
    ensures v in WebVisits(page) <==> mark < v.time <= NewMark(mark, page) && !TiedAtEnd(history, mark, page, v)
  {
    PageEmits(history, mark, page);
    if mark < v.time <= NewMark(mark, page) {
      WindowIsPageOrTied(history, mark, page, v);
    }
  }

  /** Among the web visits of the last history, exactly those between the first and the current
      mark have been emitted, except the missed ones: those tied with the last row of a full
      page. */
  lemma {:induction false} EmittedExactly(mark: int, scans: seq<Scan>, v: Visit)
    requires ScanRun(mark, scans) && scans != [] && v in scans[|scans| - 1].history && Web(v)
    ensures v in Emitted(scans) <==> mark < v.time <= MarkAfter(mark, scans) && !Missed(mark, scans, v)
  {
    var init, scan := scans[..|scans| - 1], scans[|scans| - 1];
    var m := MarkAfter(mark, init);
    EmittedInOrder(mark, init);
    LastScanSettles(scan.history, m, scan.page, v);
    NewMarkIsLatest(m, scan.page);
    assert v in Emitted(scans) <==> v in Emitted(init) || v in WebVisits(scan.page);
    if Missed(mark, init, v) {
      MissedIsPast(mark, init, v);
    }
    if v.time <= m && init != [] {
      EmittedExactly(mark, init, v);
    }
  }

  lemma {:induction false} MissedIsNeverEmitted(mark: int, scans: seq<Scan>, v: Visit)
    requires ScanRun(mark, scans) && Missed(mark, scans, v)
    ensures v !in Emitted(scans)
  {
    var init, scan := scans[..|scans| - 1], scans[|scans| - 1];
    var m := MarkAfter(mark, init);
    PageEmits(scan.history, m, scan.page);
    EmittedInOrder(mark, init);
    if Missed(mark, init, v) {
      MissedIsNeverEmitted(mark, init, v);
      MissedIsPast(mark, init, v);
    }
  }

  lemma {:induction false} MissedStaysMissed(mark: int, scans: seq<Scan>, more: seq<Scan>, v: Visit)
    requires Missed(mark, scans, v)
    ensures Missed(mark, scans + more, v)
  {
    if more == [] {
      assert scans + more == scans;
    } else {
      assert (scans + more)[..|scans + more| - 1] == scans + more[..|more| - 1];
      MissedStaysMissed(mark, scans, more[..|more| - 1], v);
    }
  }

  /** A page visit of a bulk import: all at one time. */
  function Imported(id: nat): Visit { Visit(id, "http", "", 1, true) }

  function ImportedHistory(): set<Visit> { set id | 0 <= id <= 3000 :: Imported(id) }

  function ImportedPage(): seq<Visit> { seq(3000, id requires 0 <= id < 3000 => Imported(id)) }

  lemma ImportedIsPage()
    ensures IsPage(ImportedHistory(), 0, ImportedPage()) && Imported(3000) !in ImportedPage()
  {
    var page := ImportedPage();
    forall i | 0 <= i < |page| ensures page[i] == Imported(i) && page[i] in ImportedHistory() {}
    forall p | p in page ensures p.time == 1 {}
  }

  /** It takes 3001 visits at one time: the first scan gets 3000 of them, and whatever scans
      follow, the last one is never emitted. */
  lemma TiedVisitIsLost(more: seq<Scan>)
    requires ScanRun(0, [Scan(ImportedHistory(), ImportedPage())] + more)
    ensures ScanRun(0, [Scan(ImportedHistory(), ImportedPage())])
    ensures Imported(3000) in ImportedHistory() && Web(Imported(3000))
    ensures Imported(3000) !in Emitted([Scan(ImportedHistory(), ImportedPage())] + more)
  {
    var v, scan := Imported(3000), Scan(ImportedHistory(), ImportedPage());
    ImportedIsPage();
    assert [scan][..0] == [];
    assert MarkAfter(0, []) == 0 && ScanRun(0, [scan]);
    NewMarkIsLatest(0, scan.page);
    assert scan.page[0] in scan.page && scan.page[0].scans;
    assert NewMark(0, scan.page) == 1;
    assert TiedAtEnd(scan.history, 0, scan.page, v);
    assert Missed(0, [scan], v);
    MissedStaysMissed(0, [scan], more, v);
    MissedIsNeverEmitted(0, [scan] + more, v);
  }

  ghost predicate DistinctTimes(history: set<Visit>) {
    forall a, b | a in history && b in history && a.time == b.time :: a == b
  }

  lemma TiedHasTwin(history: set<Visit>, mark: int, page: seq<Visit>, v: Visit) returns (twin: Visit)
    requires IsPage(history, mark, page) && TiedAtEnd(history, mark, page, v)
    ensures twin in history && twin.time == v.time && twin != v
  {
    twin := page[|page| - 1];
    assert twin in page;
  }

  lemma {:induction false} DistinctTimesNotMissed(mark: int, scans: seq<Scan>, v: Visit)
    requires ScanRun(mark, scans) && scans != [] && DistinctTimes(scans[|scans| - 1].history)
    ensures !Missed(mark, scans, v)
  {
    var init, scan := scans[..|scans| - 1], scans[|scans| - 1];
    if init != [] {
      DistinctTimesNotMissed(mark, init, v);
    }
    if TiedAtEnd(scan.history, MarkAfter(mark, init), scan.page, v) {
      var twin := TiedHasTwin(scan.history, MarkAfter(mark, init), scan.page, v);
    }
  }

  /** With distinct visit times nothing is missed: the concatenation of all scans is exactly the
      web visits after the first mark up to the current one, strictly in time order. */
  lemma DistinctTimesMissNothing(mark: int, scans: seq<Scan>)
    requires ScanRun(mark, scans) && scans != [] && DistinctTimes(scans[|scans| - 1].history)
    ensures forall v :: v in Emitted(scans) <==>
      v in scans[|scans| - 1].history && Web(v) && mark < v.time <= MarkAfter(mark, scans)
    ensures forall i, j | 0 <= i < j < |Emitted(scans)| :: Emitted(scans)[i].time < Emitted(scans)[j].time
  {
    var history := scans[|scans| - 1].history;
    EmittedInOrder(mark, scans);
    forall i, j | 0 <= i < j < |Emitted(scans)| ensures Emitted(scans)[i].time < Emitted(scans)[j].time {
      assert Emitted(scans)[i] in Emitted(scans) && Emitted(scans)[j] in Emitted(scans);
    }
    forall v | v in history && Web(v)
      ensures v in Emitted(scans) <==> mark < v.time <= MarkAfter(mark, scans)
    {
      EmittedExactly(mark, scans, v);
      DistinctTimesNotMissed(mark, scans, v);
    }
  }

  // --- the collector, over all sources -------------------------------------------------------

  /** One history database and what happens to it in one scan: the clock (in Unix microseconds),
      what the database holds, and the page the query returns (None when the copy or the query
      fails). */
  datatype Source = Source(path: string, firefox: bool, now: int, history: set<Visit>, page: Option<seq<Visit>>)

  /** Where a first scan starts, in the browser's own time. */
  function InitialMark(s: Source): int {
    if s.firefox then s.now - INITIAL_LOOKBACK else s.now - INITIAL_LOOKBACK + CHROME_EPOCH_OFFSET
  }

  /** An emitted visit event with its time in Unix microseconds. */
  datatype Emission = Emission(path: string, visit: Visit, ts: int)

  function StartMark(marks: map<string, int>, s: Source): int {
    if s.path in marks && marks[s.path] != 0 then marks[s.path] else InitialMark(s)
  }

  function UnixTime(s: Source, v: Visit): int {
    if s.firefox then v.time else v.time - CHROME_EPOCH_OFFSET
  }

  function Emissions(s: Source, visits: seq<Visit>): seq<Emission> {
    seq(|visits|, i requires 0 <= i < |visits| => Emission(s.path, visits[i], UnixTime(s, visits[i])))
  }

  function MarksAfter(marks: map<string, int>, srcs: seq<Source>): map<string, int> {
    if srcs == [] then marks
    else
      var before, s := MarksAfter(marks, srcs[..|srcs| - 1]), srcs[|srcs| - 1];
      if s.page.None? then before else before[s.path := NewMark(StartMark(before, s), s.page.value)]
  }

  function AllEmissions(srcs: seq<Source>): seq<Emission> {
    if srcs == [] then []
    else
      var before, s := AllEmissions(srcs[..|srcs| - 1]), srcs[|srcs| - 1];
      if s.page.None? then before else before + Emissions(s, WebVisits(s.page.value))
  }

  class Collector {
    var saved: map<string, int>  // the watermark file
    var events: seq<Emission>
    ghost var scanned: seq<Source>  // every database of every round so far

    ghost predicate Valid()
      reads this
    {
      saved == MarksAfter(map[], scanned) && events == AllEmissions(scanned)
    }

    constructor ()
      ensures Valid() && scanned == []
    {
      saved, events, scanned := map[], [], [];
    }

    /** One database: emits the page row by row and moves the watermark. */
    method ScanSource(s: Source, wm: map<string, int>) returns (marks: map<string, int>)
      modifies this`events
      ensures marks == if s.page.None? then wm else wm[s.path := NewMark(StartMark(wm, s), s.page.value)]
      ensures events == if s.page.None? then old(events) else old(events) + Emissions(s, WebVisits(s.page.value))
    {
      if s.page.None? {
        return wm;
      }
      var page := s.page.value;
      var mark := if s.path in wm then wm[s.path] else 0;
      if mark == 0 {
        mark := InitialMark(s);
      }
      var newMark := mark;
      for i := 0 to |page|
        invariant newMark == NewMark(mark, page[..i])
        invariant events == old(events) + Emissions(s, WebVisits(page[..i]))
      {
        assert page[..i + 1][..i] == page[..i];
        var v := page[i];
        if v.scans {
          if v.time > newMark {
            newMark := v.time;
          }
          if v.url != "" && "http" <= v.url {
            events := events + [Emission(s.path, v, UnixTime(s, v))];
          }
        }
      }
      assert page[..|page|] == page;
      marks := wm[s.path := newMark];
    }

    /** All databases in turn; the watermarks are saved once, at the end. */
    method ScanAll(srcs: seq<Source>, saves: bool)
      modifies this`saved, this`events
      ensures saved == if saves then MarksAfter(old(saved), srcs) else old(saved)
      ensures events == old(events) + AllEmissions(srcs)
    {
      var wm := saved;
      for i := 0 to |srcs|
        invariant saved == old(saved) && wm == MarksAfter(old(saved), srcs[..i])
        invariant events == old(events) + AllEmissions(srcs[..i])
      {
        assert srcs[..i + 1][..i] == srcs[..i];
        wm := ScanSource(srcs[i], wm);
      }
      assert srcs[..|srcs|] == srcs;
      if saves {
        saved := wm;
      }
    }

    /** One tick of Start's loop whose watermarks reach the disk. */
    method Round(srcs: seq<Source>)
      requires Valid()
      modifies this
      ensures Valid() && scanned == old(scanned) + srcs
    {
      ScanAll(srcs, true);
      MarksAppend(map[], scanned, srcs);
      EmissionsAppend(scanned, srcs);
      scanned := scanned + srcs;
    }
  }

  lemma {:induction false} MarksAppend(marks: map<string, int>, a: seq<Source>, b: seq<Source>)
    ensures MarksAfter(marks, a + b) == MarksAfter(MarksAfter(marks, a), b)
  {
    if b == [] {
      assert a + b == a;
    } else {
      var init, s := b[..|b| - 1], b[|b| - 1];
      assert (a + b)[..|a + b| - 1] == a + init && (a + b)[|a + b| - 1] == s;
      MarksAppend(marks, a, init);
    }
  }

  lemma {:induction false} EmissionsAppend(a: seq<Source>, b: seq<Source>)
    ensures AllEmissions(a + b) == AllEmissions(a) + AllEmissions(b)
  {
    if b == [] {
      assert a + b == a;
    } else {
      var init, s := b[..|b| - 1], b[|b| - 1];
      assert (a + b)[..|a + b| - 1] == a + init && (a + b)[|a + b| - 1] == s;
      EmissionsAppend(a, init);
      if s.page.Some? {
        var es := Emissions(s, WebVisits(s.page.value));
        assert AllEmissions(a) + (AllEmissions(init) + es) == AllEmissions(a) + AllEmissions(init) + es;
      }
    }
  }

  // --- each database for itself -----------------------------------------------------------------

  /** The completed scans of one database among all that was scanned. */
  function ScansOf(srcs: seq<Source>, path: string): seq<Scan> {
    if srcs == [] then []
    else
      var before, s := ScansOf(srcs[..|srcs| - 1], path), srcs[|srcs| - 1];
      if s.path == path && s.page.Some? then before + [Scan(s.history, s.page.value)] else before
  }

  /** The mark its first completed scan started from. */
  function FirstMark(srcs: seq<Source>, path: string): int {
    if srcs == [] then 0
    else if ScansOf(srcs[..|srcs| - 1], path) != [] then FirstMark(srcs[..|srcs| - 1], path)
    else InitialMark(srcs[|srcs| - 1])
  }

  /** The visits emitted for one database. */
  function VisitsOf(es: seq<Emission>, path: string): seq<Visit> {
    if es == [] then []
    else
      var before, e := VisitsOf(es[..|es| - 1], path), es[|es| - 1];
      if e.path == path then before + [e.visit] else before
  }

  lemma {:induction false} VisitsOfEmissions(es: seq<Emission>, s: Source, visits: seq<Visit>, path: string)
    ensures VisitsOf(es + Emissions(s, visits), path) == VisitsOf(es, path) + if s.path == path then visits else []
  {
    if visits == [] {
      assert es + Emissions(s, visits) == es;
    } else {
      var init := visits[..|visits| - 1];
      var all := es + Emissions(s, visits);
      VisitsOfEmissions(es, s, init, path);
      assert all[..|all| - 1] == es + Emissions(s, init);
      assert visits == init + [visits[|visits| - 1]];
    }
  }

  /** What is emitted for a database, and where its watermark stands, depends on its own
      completed scans alone: the others and the failed ones leave no trace. */
  lemma {:induction false} SourcesAreIndependent(srcs: seq<Source>, path: string)
    requires forall s | s in srcs :: InitialMark(s) > 0
    ensures VisitsOf(AllEmissions(srcs), path) == Emitted(ScansOf(srcs, path))
    ensures path in MarksAfter(map[], srcs) <==> ScansOf(srcs, path) != []
    ensures ScansOf(srcs, path) != [] ==>
              && FirstMark(srcs, path) > 0
              && MarksAfter(map[], srcs)[path] == MarkAfter(FirstMark(srcs, path), ScansOf(srcs, path)) > 0
  {
    if srcs == [] {
    } else {
      var init, s := srcs[..|srcs| - 1], srcs[|srcs| - 1];
      assert s in srcs;
      SourcesAreIndependent(init, path);
      if s.page.Some? {
        VisitsOfEmissions(AllEmissions(init), s, WebVisits(s.page.value), path);
        NewMarkIsLatest(StartMark(MarksAfter(map[], init), s), s.page.value);
      }
      var scans := ScansOf(srcs, path);
      if s.page.Some? && s.path == path {
        assert scans[..|scans| - 1] == ScansOf(init, path);
      }
    }
  }

  /** So over any number of rounds, with other databases and failures in between: no visit of a
      database is emitted twice, its visits come out in time order, and with distinct times
      exactly its web visits between the first and the current mark have come out. */
  lemma CollectorEmitsEachVisitOnce(srcs: seq<Source>, path: string)
    requires (forall s | s in srcs :: InitialMark(s) > 0) && ScansOf(srcs, path) != []
    requires ScanRun(FirstMark(srcs, path), ScansOf(srcs, path))
    ensures InOrder(VisitsOf(AllEmissions(srcs), path)) && path in MarksAfter(map[], srcs)
    ensures var scans := ScansOf(srcs, path);
      var history := scans[|scans| - 1].history;
      DistinctTimes(history) ==>
        forall v :: v in VisitsOf(AllEmissions(srcs), path) <==>
          v in history && Web(v) && FirstMark(srcs, path) < v.time <= MarksAfter(map[], srcs)[path]
  {
    SourcesAreIndependent(srcs, path);
    EmittedInOrder(FirstMark(srcs, path), ScansOf(srcs, path));
    var scans := ScansOf(srcs, path);
    if DistinctTimes(scans[|scans| - 1].history) {
      DistinctTimesMissNothing(FirstMark(srcs, path), scans);
    }
  }

  // --- the times that are emitted ---------------------------------------------------------------

  /** The clock at a database's first completed scan. */
  function FirstNow(srcs: seq<Source>, path: string): int {
    if srcs == [] then 0
    else if ScansOf(srcs[..|srcs| - 1], path) != [] then FirstNow(srcs[..|srcs| - 1], path)
    else srcs[|srcs| - 1].now
  }

  /** Every database at this path is of the same kind of browser. */
  ghost predicate OneBrowser(srcs: seq<Source>, path: string, firefox: bool) {
    forall i | 0 <= i < |srcs| && srcs[i].path == path :: srcs[i].firefox == firefox
  }

  lemma {:induction false} FirstMarkIsLookback(srcs: seq<Source>, path: string, firefox: bool)
    requires ScansOf(srcs, path) != [] && OneBrowser(srcs, path, firefox)
    ensures FirstMark(srcs, path) ==
            FirstNow(srcs, path) - INITIAL_LOOKBACK + if firefox then 0 else CHROME_EPOCH_OFFSET
  {
    var init := srcs[..|srcs| - 1];
    if ScansOf(init, path) != [] {
      FirstMarkIsLookback(init, path, firefox);
    }
  }

  /** 369 years, 89 of them leap years. */
  const DAYS_1601_TO_1970 := 369 * 365 + 89

  lemma EmissionsCarryUnixTime(s: Source, visits: seq<Visit>, e: Emission)
    requires e in Emissions(s, visits)
    ensures e.path == s.path && e.visit in visits
    ensures e.ts == e.visit.time - if s.firefox then 0 else DAYS_1601_TO_1970 * (24 * 3600 * 1_000_000)
  {
    var i :| 0 <= i < |visits| && Emissions(s, visits)[i] == e;
  }

  lemma {:induction false} EmissionsAreVisits(srcs: seq<Source>, path: string, firefox: bool, e: Emission)
    requires e in AllEmissions(srcs) && e.path == path && OneBrowser(srcs, path, firefox)
    ensures e.ts == e.visit.time - if firefox then 0 else DAYS_1601_TO_1970 * (24 * 3600 * 1_000_000)
    ensures e.visit in VisitsOf(AllEmissions(srcs), path)
  {
    var init, s := srcs[..|srcs| - 1], srcs[|srcs| - 1];
    if s.page.Some? {
      VisitsOfEmissions(AllEmissions(init), s, WebVisits(s.page.value), path);
    }
    if e in AllEmissions(init) {
      EmissionsAreVisits(init, path, firefox, e);
    } else {
      EmissionsCarryUnixTime(s, WebVisits(s.page.value), e);
    }
  }

  lemma EmittedIsWebPastFirstMark(srcs: seq<Source>, path: string, v: Visit)
    requires (forall s | s in srcs :: InitialMark(s) > 0) && ScansOf(srcs, path) != []
    requires ScanRun(FirstMark(srcs, path), ScansOf(srcs, path)) && v in VisitsOf(AllEmissions(srcs), path)
    ensures v.time > FirstMark(srcs, path) && Web(v)
  {
    SourcesAreIndependent(srcs, path);
    EmittedInOrder(FirstMark(srcs, path), ScansOf(srcs, path));
  }

  /** Every emitted event carries its visit's time in the Unix epoch, which Firefox counts from
      and Chrome does not, and is less than seven days older than the first scan of its database. */
  lemma EmittedInUnixTime(srcs: seq<Source>, path: string, firefox: bool, e: Emission)
    requires e in AllEmissions(srcs) && e.path == path && OneBrowser(srcs, path, firefox)
    requires (forall s | s in srcs :: InitialMark(s) > 0) && ScansOf(srcs, path) != []
    requires ScanRun(FirstMark(srcs, path), ScansOf(srcs, path))
    ensures e.ts == e.visit.time - if firefox then 0 else DAYS_1601_TO_1970 * (24 * 3600 * 1_000_000)
    ensures e.ts > FirstNow(srcs, path) - 7 * (24 * 3600 * 1_000_000)
    ensures exists rest: string :: e.visit.url == "http" + rest
  {
    EmissionsAreVisits(srcs, path, firefox, e);
    EmittedIsWebPastFirstMark(srcs, path, e.visit);
    FirstMarkIsLookback(srcs, path, firefox);
    assert e.visit.url == "http" + e.visit.url[4..];
  }
}
