/** The on-disk queue that buffers events and screenshot blobs until they are uploaded. */
module SpoolQueue {
  import opened Text
  import opened Names
  import opened EventStore

  datatype Path = EventPath(name: string) | BlobPath(key: string)

  /** The spool directory. The service and the session helper each open it. */
  class Directory {
    var events: map<string, Event>
    var blobs: map<string, Blob>

    constructor ()
      ensures events == map[] && blobs == map[]
    {
      events, blobs := map[], map[];
    }
  }

  /** What a listing of at most `max` files must be: the oldest ones in text order. */
  ghost predicate OldestPrefix(names: set<string>, max: nat, listed: seq<string>) {
    && Increasing(listed)
    && (forall n | n in listed :: n in names)
    && |listed| <= max
    && (forall n | n in names && n !in listed :: |listed| == max && forall p | p in listed :: Less(p, n))
  }

  /** There is only one such listing. */
  lemma {:induction false} OldestPrefixIsUnique(names: set<string>, max: nat, a: seq<string>, b: seq<string>)
    requires OldestPrefix(names, max, a) && OldestPrefix(names, max, b)
    ensures a == b
    decreases |a|
  {
    EmptyListing(names, max, a);
    EmptyListing(names, max, b);
    if a == [] || b == [] {
    } else {
      FirstIsLeast(names, max, a, b[0]);
      FirstIsLeast(names, max, b, a[0]);
      if a[0] != b[0] {
        LessTransitive(a[0], b[0], a[0]);
        LessIrreflexive(a[0]);
      }
      RestIsPrefix(names, max, a);
      RestIsPrefix(names, max, b);
      OldestPrefixIsUnique(names - {a[0]}, max - 1, a[1..], b[1..]);
      assert a == [a[0]] + a[1..] && b == [b[0]] + b[1..];
    }
  }

  lemma EmptyListing(names: set<string>, max: nat, a: seq<string>)
    requires OldestPrefix(names, max, a)
    ensures a == [] <==> names == {} || max == 0
  {
    if a == [] {
      if n :| n in names { assert n !in a; }
    } else {
      assert a[0] in names;
    }
  }

  lemma FirstIsLeast(names: set<string>, max: nat, a: seq<string>, n: string)
    requires OldestPrefix(names, max, a) && a != [] && n in names
    ensures n == a[0] || Less(a[0], n)
  {
    if n in a {
      var i :| 0 <= i < |a| && a[i] == n;
    }
  }

  lemma RestIsPrefix(names: set<string>, max: nat, a: seq<string>)
    requires OldestPrefix(names, max, a) && a != []
    ensures max > 0 && OldestPrefix(names - {a[0]}, max - 1, a[1..])
  {
    forall n | n in a[1..] ensures n in names - {a[0]} {
      var i :| 0 < i < |a| && a[i] == n;
      if n == a[0] { LessIrreflexive(n); }
    }
  }

  /** Insertion into a sorted list of names. */
  function Insert(names: seq<string>, n: string): (r: seq<string>)
    ensures |r| == |names| + 1
    ensures forall x :: x in r <==> x == n || x in names
  {
    if names == [] || Less(n, names[0]) then [n] + names
    else assert names == [names[0]] + names[1..]; [names[0]] + Insert(names[1..], n)
  }

  lemma {:induction false} InsertKeepsOrder(names: seq<string>, n: string)
    requires Increasing(names) && n !in names
    ensures Increasing(Insert(names, n))
  {
    var r := Insert(names, n);
    if names == [] {
    } else if Less(n, names[0]) {
      forall j | 0 < j < |r| ensures Less(n, r[j]) {
        assert r[j] == names[j - 1];
        if j > 1 { LessTransitive(n, names[0], names[j - 1]); }
      }
    } else {
      LessTotal(n, names[0]);
      InsertKeepsOrder(names[1..], n);
      forall j | 0 < j < |r| ensures Less(names[0], r[j]) {
        assert r[j] == Insert(names[1..], n)[j - 1];
        assert r[j] in Insert(names[1..], n);
        if r[j] != n { var i :| 0 <= i < |names[1..]| && names[1..][i] == r[j]; }
      }
    }
  }

  class Spool {
    const dir: Directory
    var seq_: nat

    constructor (dir: Directory)
      ensures this.dir == dir && seq_ == 0
    {
      this.dir := dir;
      seq_ := 0;
    }

    method NextName(now: nat) returns (name: string)
      modifies this`seq_
      ensures seq_ == old(seq_) + 1 && name == FileName(now, seq_)
    {
      seq_ := seq_ + 1;
      name := FileName(now, seq_);
    }

    /** Writes one file; `writes` is false when the disk refuses. An existing file of the
        same name is replaced. */
    method AddEvent(now: nat, e: Event, writes: bool) returns (ok: bool)
      modifies this`seq_, dir`events
      ensures ok == writes && seq_ == old(seq_) + 1
      ensures dir.events == if ok then old(dir.events)[FileName(now, seq_) := e] else old(dir.events)
    {
      var name := NextName(now);
      if writes {
        dir.events := dir.events[name := e];
      }
      ok := writes;
    }

    method AddBlob(key: string, data: Blob, writes: bool) returns (ok: bool)
      modifies dir`blobs
      ensures ok == writes
      ensures dir.blobs == if ok then old(dir.blobs)[key := data] else old(dir.blobs)
    {
      if writes {
        dir.blobs := dir.blobs[key := data];
      }
      ok := writes;
    }

    /** Sorts the file names, whatever order the directory lists them in. */
    method SortedNames(found: set<string>) returns (names: seq<string>)
      ensures Increasing(names)
      ensures forall n :: n in names <==> n in found
    {
      names := [];
      var todo := found;
      while todo != {}
        invariant todo <= found && Increasing(names)
        invariant forall n :: n in names <==> n in found && n !in todo
        decreases todo
      {
        var n :| n in todo;
        InsertKeepsOrder(names, n);
        names := Insert(names, n);
        todo := todo - {n};
      }
    }

    /** The oldest readable events, each paired with its own file. */
    method PendingEvents(max: nat, unreadable: set<string>) returns (events: seq<Event>, paths: seq<string>)
      ensures |events| == |paths|
      ensures forall i | 0 <= i < |paths| :: paths[i] in dir.events && events[i] == dir.events[paths[i]]
      ensures OldestPrefix(dir.events.Keys - unreadable, max, paths)
    {
      var names := SortedNames(dir.events.Keys);
      events, paths := [], [];
      for i := 0 to |names|
        invariant |events| == |paths| <= max
        invariant forall j | 0 <= j < |paths| :: paths[j] in dir.events && events[j] == dir.events[paths[j]]
        invariant forall j | 0 <= j < |paths| :: paths[j] in names[..i] && paths[j] !in unreadable
        invariant forall k | 0 <= k < i :: names[k] in unreadable || names[k] in paths
        invariant Increasing(paths)
      {
        if |events| >= max {
          ListedIsPrefix(dir.events.Keys, unreadable, names, i, max, paths);
          return;
        }
        var p := names[i];
        if p !in unreadable {
          forall j | 0 <= j < |paths| ensures Less(paths[j], p) {
            assert paths[j] in names[..i];
            var k :| 0 <= k < i && names[..i][k] == paths[j];
            assert names[k] == paths[j];
          }
          events := events + [dir.events[p]];
          paths := paths + [p];
        }
        assert names[..i + 1] == names[..i] + [names[i]];
      }
      ListedIsPrefix(dir.events.Keys, unreadable, names, |names|, max, paths);
    }

    /** Lists up to max blob keys; the directory lists them in name order. */
    method PendingBlobs(max: nat) returns (keys: seq<string>)
      ensures OldestPrefix(dir.blobs.Keys, max, keys)
    {
      var names := SortedNames(dir.blobs.Keys);
      ListedIsPrefix(dir.blobs.Keys, {}, names, if |names| < max then |names| else max, max,
                     if |names| < max then names else names[..max]);
      keys := if |names| < max then names else names[..max];
    }

    /** os.Remove; a file that cannot be deleted stays. */
    method RemoveOne(path: Path, deletes: bool)
      modifies dir
      ensures dir.events == if deletes && path.EventPath? then old(dir.events) - {path.name} else old(dir.events)
      ensures dir.blobs == if deletes && path.BlobPath? then old(dir.blobs) - {path.key} else old(dir.blobs)
    {
      if deletes {
        match path
        case EventPath(name) => dir.events := dir.events - {name};
        case BlobPath(key) => dir.blobs := dir.blobs - {key};
      }
    }

    /** Deletes files one by one; errors are ignored (`stuck` cannot be deleted). */
    method Remove(paths: seq<Path>, stuck: set<Path>)
      modifies dir
      ensures dir.events == old(dir.events) - (set p | p in paths && p !in stuck && p.EventPath? :: p.name)
      ensures dir.blobs == old(dir.blobs) - (set p | p in paths && p !in stuck && p.BlobPath? :: p.key)
    {
      for i := 0 to |paths|
        invariant dir.events == old(dir.events) - (set p | p in paths[..i] && p !in stuck && p.EventPath? :: p.name)
        invariant dir.blobs == old(dir.blobs) - (set p | p in paths[..i] && p !in stuck && p.BlobPath? :: p.key)
      {
        assert paths[..i + 1] == paths[..i] + [paths[i]];
        RemoveOne(paths[i], paths[i] !in stuck);
      }
      assert paths[..|paths|] == paths;
    }
  }

  /** A sorted walk that stopped after i names, or at the cap, has listed an oldest prefix. */
  lemma ListedIsPrefix(found: set<string>, unreadable: set<string>, names: seq<string>, i: nat,
                       max: nat, listed: seq<string>)
    requires Increasing(names) && (forall n :: n in names <==> n in found)
    requires i <= |names| && (i == |names| || |listed| == max)
    requires |listed| <= max && Increasing(listed)
    requires forall j | 0 <= j < |listed| :: listed[j] in names[..i] && listed[j] !in unreadable
    requires forall k | 0 <= k < i :: names[k] in unreadable || names[k] in listed
    ensures OldestPrefix(found - unreadable, max, listed)
  {
    forall n | n in found - unreadable && n !in listed
      ensures |listed| == max && forall p | p in listed :: Less(p, n)
    {
      assert n in names;
      var k :| 0 <= k < |names| && names[k] == n;
      assert k >= i;
      forall p | p in listed ensures Less(p, n) {
        var j :| 0 <= j < |listed| && listed[j] == p;
        var m :| 0 <= m < i && names[m] == p;
      }
    }
  }
}
