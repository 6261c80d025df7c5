/** What a purge leaves of every table, class by class: which rows go, which blobs go, and that
    the survivors keep their order. */
module Retention {
  import opened Options
  import opened EventStore
  import opened AppUsage

  // --- screenshot rows and their blobs ------------------------------------------------------

  lemma {:induction false} KeepShotsCount(shots: seq<Shot>, before: int, shot: Shot)
    ensures multiset(KeepShots(shots, before))[shot] == if shot.ts < before then 0 else multiset(shots)[shot]
  {
    if shots == [] {
    } else {
      var init, last := shots[..|shots| - 1], shots[|shots| - 1];
      assert shots == init + [last];
      KeepShotsCount(init, before, shot);
    }
  }

  /** A purge removes every screenshot row older than the screenshot cutoff and no other. */
  lemma PurgeRemovesExactlyTheOldShots(db: Db, c: Cutoffs, stuck: set<string>, shot: Shot)
    ensures multiset(Purged(db, c, stuck).screenshots)[shot] ==
            if c.screenshots.Some? && shot.ts < c.screenshots.value then 0 else multiset(db.screenshots)[shot]
  {
    if c.screenshots.Some? {
      KeepShotsCount(db.screenshots, c.screenshots.value, shot);
    }
  }

  /** A row older than the screenshot cutoff names this key. */
  ghost predicate NamedByAnOldRow(db: Db, c: Cutoffs, key: string) {
    c.screenshots.Some? && exists s :: s in db.screenshots && s.ts < c.screenshots.value && s.objectKey == key
  }

  /** A blob goes exactly when such a row names it and it can be deleted; the others stay as
      they were, and none appears. */
  lemma PurgeDeletesBlobIff(db: Db, c: Cutoffs, stuck: set<string>, key: string)
    ensures key in Purged(db, c, stuck).blobs <==>
            key in db.blobs && !(NamedByAnOldRow(db, c, key) && key !in stuck)
    ensures key in Purged(db, c, stuck).blobs ==> Purged(db, c, stuck).blobs[key] == db.blobs[key]
  {
    if NamedByAnOldRow(db, c, key) {
      var s :| s in db.screenshots && s.ts < c.screenshots.value && s.objectKey == key;
      assert key in StaleKeys(db.screenshots, c.screenshots.value);
    }
  }

  // --- order --------------------------------------------------------------------------------

  lemma {:induction false} KeepRowsAppend(a: seq<Row>, b: seq<Row>, kinds: set<string>, before: int)
    ensures KeepRows(a + b, kinds, before) == KeepRows(a, kinds, before) + KeepRows(b, kinds, before)
  {
    if b == [] {
      assert a + b == a;
    } else {
      assert (a + b)[..|a + b| - 1] == a + b[..|b| - 1];
      KeepRowsAppend(a, b[..|b| - 1], kinds, before);
    }
  }

  lemma {:induction false} KeepShotsAppend(a: seq<Shot>, b: seq<Shot>, before: int)
    ensures KeepShots(a + b, before) == KeepShots(a, before) + KeepShots(b, before)
  {
    if b == [] {
      assert a + b == a;
    } else {
      assert (a + b)[..|a + b| - 1] == a + b[..|b| - 1];
      KeepShotsAppend(a, b[..|b| - 1], before);
    }
  }

  /** What survives of a part of a table comes before what survives of a later part: a purge
      keeps the order. */
  lemma PurgeKeepsOrder(db: Db, first: Db, last: Db, c: Cutoffs, stuck: set<string>)
    requires db.events == first.events + last.events && db.screenshots == first.screenshots + last.screenshots
    ensures Purged(db, c, stuck).events == Purged(first, c, stuck).events + Purged(last, c, stuck).events
    ensures Purged(db, c, stuck).screenshots ==
            Purged(first, c, stuck).screenshots + Purged(last, c, stuck).screenshots
  {
    var a, b := PurgeActivity(first, c.activity), PurgeActivity(last, c.activity);
    if c.activity.Some? { KeepRowsAppend(first.events, last.events, ACTIVITY_KINDS, c.activity.value); }
    var a2, b2 := PurgeSecurity(a, c.security), PurgeSecurity(b, c.security);
    if c.security.Some? { KeepRowsAppend(a.events, b.events, SECURITY_KINDS, c.security.value); }
    if c.screenshots.Some? {
      KeepRowsAppend(a2.events, b2.events, {"screenshot"}, c.screenshots.value);
      KeepShotsAppend(first.screenshots, last.screenshots, c.screenshots.value);
    }
  }

  // --- windows ------------------------------------------------------------------------------

  /** The window, in days, that each kind of event has; the other kinds have none. */
  function WindowOf(kind: string, screenshotsDays: int, activityDays: int, securityDays: int): int {
    if kind in ["foreground", "dns", "netflow", "download"] then activityDays
    else if kind in ["usb", "printjob", "install", "posture", "seclog"] then securityDays
    else if kind == "screenshot" then screenshotsDays
    else 0
  }

  predicate OlderThan(ts: int, now: int, days: int) { days > 0 && ts < now - days * (24 * 3600 * 1_000_000) }

  lemma KindsAreDisjoint()
    ensures ACTIVITY_KINDS !! SECURITY_KINDS && "screenshot" !in ACTIVITY_KINDS && "screenshot" !in SECURITY_KINDS
  {
    assert |"foreground"| == 10 && |"dns"| == 3 && |"netflow"| == 7 && |"download"| == 8;
    assert |"usb"| == 3 && |"printjob"| == 8 && |"install"| == 7 && |"posture"| == 7 && |"seclog"| == 6;
    assert |"screenshot"| == 10 && "screenshot"[0] != "foreground"[0] && "dns"[0] != "usb"[0];
    assert "netflow"[0] != "install"[0] && "netflow"[0] != "posture"[0] && "download"[0] != "printjob"[0];
  }

  /** With the cutoffs computed from day windows, each class is purged by its own window: a row
      goes exactly when its kind's window is set and the row is older than that; a screenshot
      row by the screenshot window; a roll-up by the activity window, whole days only. */
  lemma PurgeByWindows(db: Db, now: int, shots: int, activity: int, security: int, stuck: set<string>,
                       row: Row, shot: Shot, key: UsageKey)
    ensures var after := Purged(db, RetentionCutoffs(now, shots, activity, security), stuck);
      && multiset(after.events)[row] ==
         (if OlderThan(row.ts, now, WindowOf(row.kind, shots, activity, security)) then 0
          else multiset(db.events)[row])
      && multiset(after.screenshots)[shot] ==
         (if OlderThan(shot.ts, now, shots) then 0 else multiset(db.screenshots)[shot])
      && (key in after.usage <==>
            key in db.usage && !(activity > 0 && (key.day + 1) * DAY_LENGTH <= now - activity * DAY_LENGTH))
      && (key in after.usage ==> after.usage[key] == db.usage[key])
  {
    var c := RetentionCutoffs(now, shots, activity, security);
    KindsAreDisjoint();
    PurgeRemovesExactlyTheStale(db, c, stuck, row);
    PurgeRemovesExactlyTheOldShots(db, c, stuck, shot);
  }
}
