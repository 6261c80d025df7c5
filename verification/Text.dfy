/** Strings as the agent and the server use them: byte-wise text order, zero-padded
    decimals, and splitting. All text here is ASCII, so one char is one byte. */
module Text {

  /** The order sort.Strings puts strings in. */
  predicate Less(a: string, b: string) {
    if a == [] then b != []
    else b != [] && (a[0] < b[0] || (a[0] == b[0] && Less(a[1..], b[1..])))
  }

  lemma {:induction false} LessIrreflexive(a: string)
    ensures !Less(a, a)
  {
    if a == [] {
    } else {
      LessIrreflexive(a[1..]);
    }
  }

  lemma {:induction false} LessTransitive(a: string, b: string, c: string)
    requires Less(a, b) && Less(b, c)
    ensures Less(a, c)
  {
    if a == [] {
    } else if a[0] == b[0] && b[0] == c[0] {
      LessTransitive(a[1..], b[1..], c[1..]);
    }
  }

  lemma {:induction false} LessTotal(a: string, b: string)
    ensures Less(a, b) || Less(b, a) || a == b
  {
    if a == [] || b == [] {
    } else if a[0] == b[0] {
      LessTotal(a[1..], b[1..]);
      assert a == [a[0]] + a[1..] && b == [b[0]] + b[1..];
    }
  }

  /** Equally long prefixes decide first; only then do the rests matter. */
  lemma {:induction false} LessAppend(a: string, b: string, c: string, d: string)
    requires |a| == |b|
    ensures Less(a + c, b + d) <==> Less(a, b) || (a == b && Less(c, d))
  {
    if a == [] {
      assert a + c == c && b + d == d;
    } else {
      LessAppend(a[1..], b[1..], c, d);
      assert (a + c)[1..] == a[1..] + c && (b + d)[1..] == b[1..] + d;
      assert a == [a[0]] + a[1..] && b == [b[0]] + b[1..];
    }
  }

  function Digit(d: nat): (c: char)
    requires d < 10
    ensures '0' <= c <= '9'
  {
    '0' + d as char
  }

  function Pow10(k: nat): (p: nat)
    ensures p > 0
  {
    if k == 0 then 1 else 10 * Pow10(k - 1)
  }

  /** The last `w` decimal digits of n. */
  function Fixed(w: nat, n: nat): (s: string)
    ensures |s| == w
  {
    if w == 0 then [] else Fixed(w - 1, n / 10) + [Digit(n % 10)]
  }

  /** How many decimal digits n is printed with. */
  function Width(n: nat): (w: nat)
    ensures w > 0 && n < Pow10(w)
  {
    if n < 10 then assert Pow10(1) == 10; 1 else 1 + Width(n / 10)
  }

  function Max(a: nat, b: nat): nat { if a < b then b else a }

  /** Format "%0wd": at least w digits, zero-filled, never truncated. */
  function Padded(w: nat, n: nat): (s: string)
    ensures |s| == Max(w, Width(n))
  {
    Fixed(Max(w, Width(n)), n)
  }

  lemma {:induction false} Pow10Monotone(j: nat, k: nat)
    requires j <= k
    ensures Pow10(j) <= Pow10(k)
  {
    if j < k {
      Pow10Monotone(j, k - 1);
    }
  }

  /** n needs at most w digits exactly when it is below ten to the w. */
  lemma {:induction false} WidthBound(n: nat, w: nat)
    requires w > 0
    ensures Width(n) <= w <==> n < Pow10(w)
  {
    if n < 10 {
      Pow10Monotone(1, w);
    } else if w == 1 {
    } else {
      WidthBound(n / 10, w - 1);
    }
  }

  /** On equally many digits, text order is numeric order. */
  lemma {:induction false} FixedOrder(w: nat, m: nat, n: nat)
    requires m < Pow10(w) && n < Pow10(w)
    ensures Less(Fixed(w, m), Fixed(w, n)) <==> m < n
    ensures Fixed(w, m) == Fixed(w, n) <==> m == n
  {
    if w > 0 {
      var a, b := Fixed(w - 1, m / 10), Fixed(w - 1, n / 10);
      var x, y := [Digit(m % 10)], [Digit(n % 10)];
      FixedOrder(w - 1, m / 10, n / 10);
      LessAppend(a, b, x, y);
      assert a + x == b + y ==> a == (a + x)[..w - 1] == b && x[0] == (a + x)[w - 1] == y[0];
    }
  }

  /** n without its last k decimal digits. */
  function DropDigits(n: nat, k: nat): nat {
    if k == 0 then n else DropDigits(n / 10, k - 1)
  }

  /** The first digits of a number spell the number without its last digits. */
  lemma {:induction false} FixedPrefix(w: nat, k: nat, n: nat)
    ensures Fixed(w + k, n)[..w] == Fixed(w, DropDigits(n, k))
  {
    if k == 0 {
    } else {
      FixedPrefix(w, k - 1, n / 10);
      assert Fixed(w + k, n)[..w] == Fixed(w + k - 1, n / 10)[..w];
    }
  }

  lemma {:induction false} DropDigitsBound(w: nat, k: nat, n: nat)
    requires n < Pow10(w + k)
    ensures DropDigits(n, k) < Pow10(w)
  {
    if k > 0 {
      DropDigitsBound(w, k - 1, n / 10);
    }
  }

  /** Every character of a printed number is a digit. */
  lemma {:induction false} FixedDigits(w: nat, n: nat)
    ensures forall i | 0 <= i < w :: '0' <= Fixed(w, n)[i] <= '9'
  {
    if w > 0 {
      FixedDigits(w - 1, n / 10);
    }
  }

  predicate Contains(s: string, part: string) {
    |part| <= |s| && (part <= s || (s != [] && Contains(s[1..], part)))
  }

  predicate HasSuffix(s: string, end: string) {
    |end| <= |s| && s[|s| - |end|..] == end
  }

  predicate StandsAt(s: string, part: string, i: nat) { i + |part| <= |s| && s[i..i + |part|] == part }

  lemma {:induction false} ContainedStands(s: string, part: string) returns (i: nat)
    requires Contains(s, part)
    ensures StandsAt(s, part, i)
  {
    if part <= s {
      i := 0;
    } else {
      var j := ContainedStands(s[1..], part);
      i := j + 1;
      assert s[i..i + |part|] == s[1..][j..j + |part|];
    }
  }

  lemma {:induction false} StandingIsContained(s: string, part: string, i: nat)
    requires StandsAt(s, part, i)
    ensures Contains(s, part)
  {
    if i > 0 {
      assert s[1..][i - 1..i - 1 + |part|] == s[i..i + |part|];
      StandingIsContained(s[1..], part, i - 1);
    } else {
      assert s[0..|part|] == s[..|part|];
    }
  }

  /** Contained is standing somewhere in the text. */
  lemma ContainsIff(s: string, part: string)
    ensures Contains(s, part) <==> exists i: nat :: StandsAt(s, part, i)
  {
    if Contains(s, part) {
      var _ := ContainedStands(s, part);
    }
    if i: nat :| StandsAt(s, part, i) {
      StandingIsContained(s, part, i);
    }
  }

  lemma SuffixIff(s: string, end: string)
    ensures HasSuffix(s, end) <==> exists front: string :: s == front + end
  {
    if HasSuffix(s, end) {
      assert s == s[..|s| - |end|] + end;
    }
  }

  /** Strictly sorted names. */
  predicate Increasing(names: seq<string>) {
    forall i, j | 0 <= i < j < |names| :: Less(names[i], names[j])
  }

  /** strings.Split on a one-character separator; there is always at least one part. */
  function Split(s: string, sep: char): (parts: seq<string>)
    ensures |parts| > 0
  {
    if s == [] then [[]]
    else if s[0] == sep then [[]] + Split(s[1..], sep)
    else var rest := Split(s[1..], sep); [[s[0]] + rest[0]] + rest[1..]
  }

  /** A part without the separator, the separator, and a rest split into that part and the
      parts of the rest. */
  lemma {:induction false} SplitAtSeparator(part: string, sep: char, rest: string)
    requires sep !in part
    ensures Split(part + [sep] + rest, sep) == [part] + Split(rest, sep)
  {
    if part == [] {
      assert part + [sep] + rest == [sep] + rest && ([sep] + rest)[1..] == rest;
    } else {
      SplitAtSeparator(part[1..], sep, rest);
      assert (part + [sep] + rest)[1..] == part[1..] + [sep] + rest;
      assert part == [part[0]] + part[1..];
    }
  }

  lemma {:induction false} SplitWithoutSeparator(part: string, sep: char)
    requires sep !in part
    ensures Split(part, sep) == [part]
  {
    if part == [] {
    } else {
      SplitWithoutSeparator(part[1..], sep);
      assert part == [part[0]] + part[1..];
    }
  }

  /** The parts with the separator between them. */
  function Joined(parts: seq<string>, sep: char): string
    requires parts != []
  {
    if |parts| == 1 then parts[0] else parts[0] + [sep] + Joined(parts[1..], sep)
  }

  /** Splitting what was joined gives the parts back, if none contains the separator. */
  lemma {:induction false} SplitJoined(parts: seq<string>, sep: char)
    requires parts != [] && forall i | 0 <= i < |parts| :: sep !in parts[i]
    ensures Split(Joined(parts, sep), sep) == parts
  {
    if |parts| == 1 {
      SplitWithoutSeparator(parts[0], sep);
    } else {
      SplitJoined(parts[1..], sep);
      SplitAtSeparator(parts[0], sep, Joined(parts[1..], sep));
      assert parts == [parts[0]] + parts[1..];
    }
  }

  /** There is one part more than separators. */
  lemma {:induction false} SplitCount(s: string, sep: char)
    ensures |Split(s, sep)| == multiset(s)[sep] + 1
  {
    if s == [] {
    } else {
      SplitCount(s[1..], sep);
      assert s == [s[0]] + s[1..];
    }
  }

  const UPPER := "ABCDEFGHIJKLMNOPQRSTUVWXYZ"
  const LOWER := "abcdefghijklmnopqrstuvwxyz"
  const DIGITS := "0123456789"

  lemma LetterAt(i: nat)
    requires i < 26
    ensures |UPPER| == |LOWER| == 26 && UPPER[i] == 'A' + i as char && LOWER[i] == 'a' + i as char
  {
  }

  lemma IsUpper(c: char)
    ensures c in UPPER <==> 'A' <= c <= 'Z'
  {
  }

  lemma IsLower(c: char)
    ensures c in LOWER <==> 'a' <= c <= 'z'
  {
  }

  lemma IsDigit(c: char)
    ensures c in DIGITS <==> '0' <= c <= '9'
  {
  }

  predicate AllDigits(s: string) { forall i | 0 <= i < |s| :: '0' <= s[i] <= '9' }

  /** The number a string of digits spells. */
  function DigitsValue(s: string): nat
    requires AllDigits(s)
  {
    if s == [] then 0 else 10 * DigitsValue(s[..|s| - 1]) + (s[|s| - 1] - '0') as nat
  }

  /** Reading back a printed number gives the number. */
  lemma {:induction false} FixedReadsBack(w: nat, n: nat)
    requires n < Pow10(w)
    ensures AllDigits(Fixed(w, n)) && DigitsValue(Fixed(w, n)) == n
  {
    FixedDigits(w, n);
    if w > 0 {
      FixedReadsBack(w - 1, n / 10);
      assert Fixed(w, n)[..w - 1] == Fixed(w - 1, n / 10);
    }
  }

  /** %d of a number that is not negative. */
  function Decimal(n: nat): string { Padded(1, n) }

  lemma DecimalReadsBack(n: nat)
    ensures AllDigits(Decimal(n)) && DigitsValue(Decimal(n)) == n && Decimal(n) != []
  {
    assert Max(1, Width(n)) == Width(n);
    FixedReadsBack(Width(n), n);
  }

  /** unicode.IsSpace */
  predicate IsSpace(c: char) {
    || '\t' <= c <= '\r' || c == ' ' || c == 0x85 as char || c == 0xA0 as char || c == 0x1680 as char
    || 0x2000 as char <= c <= 0x200A as char || c == 0x2028 as char || c == 0x2029 as char
    || c == 0x202F as char || c == 0x205F as char || c == 0x3000 as char
  }
}
