/** Decoded JSON values and the NUL removal the server applies to them before storing. */
module Json {
  import opened Options

  datatype Value =
    | Null
    | Bool(b: bool)
    | Num(n: real)
    | Text(s: string)
    | Arr(items: seq<Value>)
    | Obj(fields: map<string, Value>)

  const NUL: char := 0 as char

  predicate HasNul(s: string) { NUL in s }

  /** strings.ReplaceAll(s, "\x00", "") */
  function DropNul(s: string): string {
    if s == [] then [] else (if s[0] == NUL then [] else [s[0]]) + DropNul(s[1..])
  }

  lemma {:induction false} DropNulKeepsTheRest(s: string)
    ensures multiset(DropNul(s)) == multiset(s)[NUL := 0]
    ensures !HasNul(DropNul(s))
    ensures DropNul(s) == s <==> !HasNul(s)
  {
    if s == [] {
    } else {
      DropNulKeepsTheRest(s[1..]);
      assert s == [s[0]] + s[1..];
    }
  }

  lemma DropNulCons(c: char, s: string)
    ensures DropNul([c] + s) == (if c == NUL then "" else [c]) + DropNul(s)
  {
    assert ([c] + s)[1..] == s;
  }

  lemma Regroup(a: string, b: string, c: string)
    ensures a + (b + c) == a + b + c
  {
  }

  /** DropNul goes through a string from left to right: what is kept keeps its order. */
  lemma {:induction false} DropNulAppend(a: string, b: string)
    ensures DropNul(a + b) == DropNul(a) + DropNul(b)
  {
    if a == [] {
      assert a + b == b;
    } else {
      DropNulAppend(a[1..], b);
      DropNulCons(a[0], a[1..]);
      DropNulCons(a[0], a[1..] + b);
      assert a == [a[0]] + a[1..] && a + b == [a[0]] + (a[1..] + b);
      Regroup(if a[0] == NUL then "" else [a[0]], DropNul(a[1..]), DropNul(b));
    }
  }

  lemma DropNulOfOne(c: char)
    ensures DropNul([c]) == if c == NUL then "" else [c]
  {
    assert [c] + "" == [c] && DropNul("") == "";
    DropNulCons(c, "");
  }

  /** What stripNUL makes of a value. */
  function Stripped(v: Value): Value {
    match v
    case Text(s) => Text(DropNul(s))
    case Arr(xs) => Arr(seq(|xs|, i requires 0 <= i < |xs| => Stripped(xs[i])))
    case Obj(m) => Obj(map k | k in m :: Stripped(m[k]))
    case _ => v
  }

  /** The walk itself: strings are replaced, arrays and maps rewritten entry by entry
      (a Go map is walked in no particular order). */
  method StripNul(v: Value) returns (r: Value)
    ensures r == Stripped(v)
    decreases v, 1
  {
    match v
    case Text(s) =>
      if HasNul(s) {
        r := Text(DropNul(s));
      } else {
        DropNulKeepsTheRest(s);
        r := v;
      }
    case Arr(xs) =>
      var out := xs;
      for i := 0 to |xs|
        invariant |out| == |xs|
        invariant forall j | 0 <= j < i :: out[j] == Stripped(xs[j])
        invariant forall j | i <= j < |xs| :: out[j] == xs[j]
      {
        var x := StripNul(xs[i]);
        out := out[i := x];
      }
      r := Arr(out);
    case Obj(m) =>
      var out := StripFields(v);
      r := Obj(out);
    case _ =>
      r := v;
  }

  method StripFields(v: Value) returns (out: map<string, Value>)
    requires v.Obj?
    ensures out == map k | k in v.fields :: Stripped(v.fields[k])
    decreases v, 0
  {
    var m := v.fields;
    out := m;
    var todo := m.Keys;
    while todo != {}
      invariant todo <= m.Keys && out.Keys == m.Keys
      invariant forall k | k in m :: out[k] == if k in todo then m[k] else Stripped(m[k])
      decreases todo
    {
      var k :| k in todo;
      var x := StripNul(m[k]);
      out := out[k := x];
      todo := todo - {k};
    }
  }

  // --- what the walk promises -----------------------------------------------------------

  /** No string value at any depth contains NUL. Map keys are not looked at. */
  predicate NoNul(v: Value) {
    match v
    case Text(s) => !HasNul(s)
    case Arr(xs) => forall i | 0 <= i < |xs| :: NoNul(xs[i])
    case Obj(m) => forall k | k in m :: NoNul(m[k])
    case _ => true
  }

  predicate KeysClean(v: Value) {
    match v
    case Arr(xs) => forall i | 0 <= i < |xs| :: KeysClean(xs[i])
    case Obj(m) => forall k | k in m :: !HasNul(k) && KeysClean(m[k])
    case _ => true
  }

  /** Postgres JSONB rejects U+0000 in any string, key or value. */
  predicate JsonbAccepts(v: Value) { NoNul(v) && KeysClean(v) }

  datatype Move = Index(i: nat) | Key(k: string)

  /** The value reached from v along a path, if the path exists. */
  function At(v: Value, path: seq<Move>): Option<Value>
    decreases |path|
  {
    if path == [] then Some(v)
    else match (v, path[0])
      case (Arr(xs), Index(i)) => if i < |xs| then At(xs[i], path[1..]) else None
      case (Obj(m), Key(k)) => if k in m then At(m[k], path[1..]) else None
      case _ => None
  }

  /** The strings that stand at a path: a string value, or the keys of a map. */
  ghost predicate TextAt(v: Value, path: seq<Move>, s: string) { At(v, path) == Some(Text(s)) }

  ghost predicate KeyAt(v: Value, path: seq<Move>, k: string) {
    At(v, path).Some? && At(v, path).value.Obj? && k in At(v, path).value.fields
  }

  lemma {:induction false} NoNulReaches(v: Value, path: seq<Move>, s: string)
    requires NoNul(v) && TextAt(v, path, s)
    ensures !HasNul(s)
    decreases |path|
  {
    if path == [] {
    } else {
      match (v, path[0])
      case (Arr(xs), Index(i)) => NoNulReaches(xs[i], path[1..], s);
      case (Obj(m), Key(k)) => NoNulReaches(m[k], path[1..], s);
    }
  }

  lemma {:induction false} NulIsSomewhere(v: Value) returns (path: seq<Move>, s: string)
    requires !NoNul(v)
    ensures TextAt(v, path, s) && HasNul(s)
    decreases v
  {
    match v
    case Text(t) =>
      path, s := [], t;
    case Arr(xs) =>
      var i: nat :| i < |xs| && !NoNul(xs[i]);
      var rest: seq<Move>;
      rest, s := NulIsSomewhere(xs[i]);
      path := [Index(i)] + rest;
      assert path[1..] == rest;
    case Obj(m) =>
      var k :| k in m && !NoNul(m[k]);
      var rest: seq<Move>;
      rest, s := NulIsSomewhere(m[k]);
      path := [Key(k)] + rest;
      assert path[1..] == rest;
  }

  lemma {:induction false} CleanKeysReach(v: Value, path: seq<Move>, k: string)
    requires KeysClean(v) && KeyAt(v, path, k)
    ensures !HasNul(k)
    decreases |path|
  {
    if path == [] {
    } else {
      match (v, path[0])
      case (Arr(xs), Index(i)) => CleanKeysReach(xs[i], path[1..], k);
      case (Obj(m), Key(j)) => CleanKeysReach(m[j], path[1..], k);
    }
  }

  lemma {:induction false} NulKeyIsSomewhere(v: Value) returns (path: seq<Move>, k: string)
    requires !KeysClean(v)
    ensures KeyAt(v, path, k) && HasNul(k)
    decreases v
  {
    var rest: seq<Move>;
    match v
    case Arr(xs) =>
      var i: nat :| i < |xs| && !KeysClean(xs[i]);
      rest, k := NulKeyIsSomewhere(xs[i]);
      path := [Index(i)] + rest;
      assert path[1..] == rest;
    case Obj(m) =>
      if j :| j in m && HasNul(j) {
        path, k := [], j;
      } else {
        var j :| j in m && !KeysClean(m[j]);
        rest, k := NulKeyIsSomewhere(m[j]);
        path := [Key(j)] + rest;
        assert path[1..] == rest;
      }
  }

  /** JSONB accepts a value exactly when no string value and no map key in it, at any depth,
      contains NUL. */
  lemma JsonbAcceptsIff(v: Value)
    ensures JsonbAccepts(v) <==>
            && (forall path: seq<Move>, s: string | TextAt(v, path, s) :: !HasNul(s))
            && (forall path: seq<Move>, k: string | KeyAt(v, path, k) :: !HasNul(k))
  {
    if NoNul(v) {
      forall path: seq<Move>, s: string | TextAt(v, path, s) ensures !HasNul(s) { NoNulReaches(v, path, s); }
    } else {
      var path, s := NulIsSomewhere(v);
    }
    if KeysClean(v) {
      forall path: seq<Move>, k: string | KeyAt(v, path, k) ensures !HasNul(k) { CleanKeysReach(v, path, k); }
    } else {
      var path, k := NulKeyIsSomewhere(v);
    }
  }

  /** How one node of the cleaned value compares with the node at the same place before. */
  predicate CleanedNode(before: Option<Value>, after: Option<Value>) {
    match (before, after)
    case (None, None) => true
    case (Some(Text(s)), Some(Text(t))) => t == DropNul(s)
    case (Some(Arr(xs)), Some(Arr(ys))) => |xs| == |ys|
    case (Some(Obj(m)), Some(Obj(n))) => m.Keys == n.Keys
    case (Some(x), Some(y)) => x == y && !x.Text? && !x.Arr? && !x.Obj?
    case _ => false
  }

  /** At every path, at any depth: strings lose their NULs, arrays keep their length, maps
      their keys, every other leaf its value, and no place appears or disappears. */
  lemma {:induction false} StripChangesOnlyStrings(v: Value, path: seq<Move>)
    ensures CleanedNode(At(v, path), At(Stripped(v), path))
    decreases |path|
  {
    if path == [] {
    } else {
      match (v, path[0])
      case (Arr(xs), Index(i)) => if i < |xs| { StripChangesOnlyStrings(xs[i], path[1..]); }
      case (Obj(m), Key(k)) => if k in m { StripChangesOnlyStrings(m[k], path[1..]); }
      case _ =>
    }
  }

  lemma {:induction false} StripLeavesNoNul(v: Value)
    ensures NoNul(Stripped(v))
  {
    match v
    case Text(s) => DropNulKeepsTheRest(s);
    case Arr(xs) => forall i | 0 <= i < |xs| { StripLeavesNoNul(xs[i]); }
    case Obj(m) => forall k | k in m { StripLeavesNoNul(m[k]); }
    case _ =>
  }

  /** Stripping changes nothing exactly when there was nothing to strip. */
  lemma {:induction false} StripFixesExactlyCleanValues(v: Value)
    ensures Stripped(v) == v <==> NoNul(v)
  {
    match v
    case Text(s) => DropNulKeepsTheRest(s);
    case Arr(xs) =>
      forall i | 0 <= i < |xs| { StripFixesExactlyCleanValues(xs[i]); }
      if Stripped(v) == v {
        forall i | 0 <= i < |xs| ensures NoNul(xs[i]) { assert Stripped(v).items[i] == xs[i]; }
      }
      if NoNul(v) {
        assert Stripped(v).items == xs;
      }
    case Obj(m) =>
      forall k | k in m { StripFixesExactlyCleanValues(m[k]); }
      if Stripped(v) == v {
        forall k | k in m ensures NoNul(m[k]) { assert Stripped(v).fields[k] == m[k]; }
      }
      if NoNul(v) {
        assert Stripped(v).fields == m;
      }
    case _ =>
  }

  lemma StripIsIdempotent(v: Value)
    ensures Stripped(Stripped(v)) == Stripped(v)
  {
    StripLeavesNoNul(v);
    StripFixesExactlyCleanValues(Stripped(v));
  }

  lemma {:induction false} StripKeepsKeys(v: Value)
    ensures KeysClean(Stripped(v)) <==> KeysClean(v)
  {
    match v
    case Arr(xs) => forall i | 0 <= i < |xs| { StripKeepsKeys(xs[i]); }
      assert forall i | 0 <= i < |xs| :: Stripped(v).items[i] == Stripped(xs[i]);
    case Obj(m) => forall k | k in m { StripKeepsKeys(m[k]); }
      assert forall k | k in m :: Stripped(v).fields[k] == Stripped(m[k]);
    case _ =>
  }

  /** After stripping, a value can be stored exactly when its map keys were clean: a NUL in
      a key still poisons the insert. */
  lemma StrippedIsStorableIffKeysClean(v: Value)
    ensures JsonbAccepts(Stripped(v)) <==> KeysClean(v)
  {
    StripLeavesNoNul(v);
    StripKeepsKeys(v);
  }
}
