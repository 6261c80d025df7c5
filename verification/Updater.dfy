/** Signed self-update: which release counts as newer, and how often an install is tried. */
module Updater {
  import opened Options
  import opened Text

  // --- versions -------------------------------------------------------------------------------

  function TrimLeft(s: string): string {
    if s != [] && IsSpace(s[0]) then TrimLeft(s[1..]) else s
  }

  function TrimRight(s: string): string {
    if s != [] && IsSpace(s[|s| - 1]) then TrimRight(s[..|s| - 1]) else s
  }

  const INT_LIMIT := 0x8000_0000_0000_0000

  /** strconv.Atoi: an optional sign and digits, within 64 bits. */
  function Atoi(s: string): Option<int> {
    var signed := s != [] && (s[0] == '-' || s[0] == '+');
    var digits := if signed then s[1..] else s;
    if digits == [] || !AllDigits(digits) then None
    else
      var m: int := DigitsValue(digits);
      var n := if signed && s[0] == '-' then -m else m;
      if -INT_LIMIT <= n < INT_LIMIT then Some(n) else None
  }

  /** The text between the dots: trimmed, and without one leading "v". */
  function VersionText(v: string): string {
    var t := TrimRight(TrimLeft(v));
    if t != [] && t[0] == 'v' then t[1..] else t
  }

  function ParseParts(parts: seq<string>): Option<seq<int>> {
    if parts == [] then Some([])
    else
      var init, last := ParseParts(parts[..|parts| - 1]), Atoi(parts[|parts| - 1]);
      if init.None? || last.None? then None else Some(init.value + [last.value])
  }

  function Parsed(v: string): Option<seq<int>> {
    if VersionText(v) == [] then None else ParseParts(Split(VersionText(v), '.'))
  }

  method ParseVersion(v: string) returns (r: Option<seq<int>>)
    ensures r == Parsed(v)
  {
    var t := VersionText(v);
    if t == [] {
      return None;
    }
    var parts := Split(t, '.');
    var numbers: seq<int> := [];
    for i := 0 to |parts|
      invariant ParseParts(parts[..i]) == Some(numbers)
    {
      assert parts[..i + 1][..i] == parts[..i];
      var n := Atoi(parts[i]);
      if n.None? {
        BadPartFails(parts, i + 1);
        return None;
      }
      numbers := numbers + [n.value];
    }
    assert parts[..|parts|] == parts;
    r := Some(numbers);
  }

  lemma {:induction false} BadPartFails(parts: seq<string>, n: nat)
    requires n <= |parts| && ParseParts(parts[..n]).None?
    ensures ParseParts(parts).None?
    decreases |parts|
  {
    if n == |parts| {
      assert parts[..n] == parts;
    } else {
      assert parts[..|parts| - 1][..n] == parts[..n];
      BadPartFails(parts[..|parts| - 1], n);
    }
  }

  /** a comes after b: they agree up to some place, where a goes on or has the larger number. */
  ghost predicate After(a: seq<int>, b: seq<int>) {
    exists k | 0 <= k <= |b| && k < |a| :: FirstDifference(a, b, k) && (k == |b| || a[k] > b[k])
  }

  ghost predicate FirstDifference(a: seq<int>, b: seq<int>, k: nat) {
    k <= |a| && k <= |b| && a[..k] == b[..k] && (k < |a| && k < |b| ==> a[k] != b[k])
  }

  ghost predicate Newer(candidate: string, current: string) {
    var c, cur := Parsed(candidate), Parsed(current);
    if c.None? || cur.None? then candidate != current else After(c.value, cur.value)
  }

  method IsNewer(candidate: string, current: string) returns (r: bool)
    ensures r <==> Newer(candidate, current)
  {
    var c := ParseVersion(candidate);
    var cur := ParseVersion(current);
    if c.None? || cur.None? {
      return candidate != current;
    }
    r := NumbersAfter(c.value, cur.value);
  }

  /** The comparison loop: the first differing number decides, else the longer version. */
  method NumbersAfter(a: seq<int>, b: seq<int>) returns (r: bool)
    ensures r <==> After(a, b)
  {
    var i := 0;
    while i < |a| && i < |b|
      invariant 0 <= i <= |a| && i <= |b| && a[..i] == b[..i]
    {
      if a[i] != b[i] {
        DifferenceDecides(a, b, i);
        return a[i] > b[i];
      }
      i := i + 1;
    }
    DifferenceDecides(a, b, i);
    r := |a| > |b|;
  }

  lemma PrefixAgrees(a: seq<int>, b: seq<int>, k: nat, j: nat)
    requires j < k <= |a| && k <= |b| && a[..k] == b[..k]
    ensures a[j] == b[j]
  {
    assert a[j] == a[..k][j] && b[j] == b[..k][j];
  }

  lemma DifferenceDecides(a: seq<int>, b: seq<int>, k: nat)
    requires FirstDifference(a, b, k) && (k == |a| || k == |b| || a[k] != b[k])
    ensures After(a, b) <==> k < |a| && (k == |b| || a[k] > b[k])
  {
    forall j | 0 <= j <= |b| && j < |a| && FirstDifference(a, b, j) && (j == |b| || a[j] > b[j]) ensures j == k {
      if j < k {
        PrefixAgrees(a, b, k, j);
      } else if k < j {
        PrefixAgrees(a, b, j, k);
      }
    }
  }

  /** Where two number sequences first differ. */
  lemma {:induction false} Diverge(a: seq<int>, b: seq<int>) returns (k: nat)
    ensures FirstDifference(a, b, k) && (k == |a| || k == |b| || a[k] != b[k])
  {
    k := 0;
    while k < |a| && k < |b| && a[k] == b[k]
      invariant 0 <= k <= |a| && k <= |b| && a[..k] == b[..k]
    {
      k := k + 1;
    }
  }

  lemma AfterIsStrictAndTotal(a: seq<int>, b: seq<int>)
    ensures !(After(a, b) && After(b, a))
    ensures After(a, b) || After(b, a) || a == b
    ensures !After(a, a)
  {
    var k := Diverge(a, b);
    DifferenceDecides(a, b, k);
    DifferenceDecides(b, a, k);
    if k == |a| && k == |b| { assert a == a[..k] && b == b[..k]; }
    DifferenceDecides(a, a, |a|);
  }

  lemma AfterIsTransitive(a: seq<int>, b: seq<int>, c: seq<int>)
    requires After(a, b) && After(b, c)
    ensures After(a, c)
  {
    var j :| 0 <= j <= |b| && j < |a| && FirstDifference(a, b, j) && (j == |b| || a[j] > b[j]);
    var k :| 0 <= k <= |c| && k < |b| && FirstDifference(b, c, k) && (k == |c| || b[k] > c[k]);
    var m := if j < k then j else k;
    assert a[..m] == a[..j][..m] == b[..j][..m] == b[..m];
    assert b[..m] == b[..k][..m] == c[..k][..m] == c[..m];
    if j < k {
      assert b[j] == b[..k][j] == c[..k][j] == c[j];
    } else if k < j {
      assert a[k] == a[..j][k] == b[..j][k] == b[k];
    }
    assert FirstDifference(a, c, m);
  }

  /** On parsable versions "newer" is a strict order, total up to versions that spell the same
      numbers ("v1.2" and "1.2"). */
  lemma {:induction false} NewerIsStrictOrder(u: string, v: string, w: string)
    requires Parsed(u).Some? && Parsed(v).Some? && Parsed(w).Some?
    ensures !Newer(u, u) && !(Newer(u, v) && Newer(v, u))
    ensures Newer(u, v) && Newer(v, w) ==> Newer(u, w)
    ensures Newer(u, v) || Newer(v, u) || Parsed(u) == Parsed(v)
    ensures Parsed(u) == Parsed(v) ==> !Newer(u, v)
  {
    AfterIsStrictAndTotal(Parsed(u).value, Parsed(v).value);
    if Newer(u, v) && Newer(v, w) {
      AfterIsTransitive(Parsed(u).value, Parsed(v).value, Parsed(w).value);
    }
  }

  /** Two versions are never each newer than the other exactly when they are the same text or
      both parse. */
  lemma {:induction false} AsymmetricIff(u: string, v: string)
    ensures !(Newer(u, v) && Newer(v, u)) <==> u == v || (Parsed(u).Some? && Parsed(v).Some?)
  {
    if Parsed(u).Some? && Parsed(v).Some? {
      NewerIsStrictOrder(u, v, v);
    }
  }

  // --- what printed versions are read as ---------------------------------------------------------

  function Decimals(ns: seq<nat>): (parts: seq<string>)
    ensures |parts| == |ns| && forall i | 0 <= i < |ns| :: parts[i] == Decimal(ns[i])
  {
    seq(|ns|, i requires 0 <= i < |ns| => Decimal(ns[i]))
  }

  /** The numbers in decimal with dots between them. */
  function Dotted(ns: seq<nat>): string
    requires ns != []
  {
    Joined(Decimals(ns), '.')
  }

  ghost predicate Blank(s: string) { forall i | 0 <= i < |s| :: IsSpace(s[i]) }

  /** The text prints these numbers, perhaps after a "v", perhaps with blanks around. */
  ghost predicate Prints(text: string, ns: seq<nat>) {
    && ns != [] && (forall n | n in ns :: n < INT_LIMIT)
    && exists before, after :: Surrounded(text, before, ns, after)
  }

  ghost predicate Surrounded(text: string, before: string, ns: seq<nat>, after: string)
    requires ns != []
  {
    Blank(before) && Blank(after)
    && (text == before + Dotted(ns) + after || text == before + ("v" + Dotted(ns)) + after)
  }

  /** Whatever its sign, a number is read as long as 64 bits hold it. */
  lemma AtoiReadsDigits(d: string, n: nat)
    requires AllDigits(d) && d != [] && DigitsValue(d) == n
    ensures Atoi(d) == Atoi(['+'] + d) == if n < INT_LIMIT then Some(n) else None
    ensures var m: int := n; Atoi(['-'] + d) == if n <= INT_LIMIT then Some(-m) else None
  {
    assert '0' <= d[0] <= '9';
    assert (['+'] + d)[1..] == d && (['-'] + d)[1..] == d;
  }

  lemma DecimalIsRead(n: nat)
    requires n < INT_LIMIT
    ensures Atoi(Decimal(n)) == Some(n)
  {
    DecimalReadsBack(n);
    AtoiReadsDigits(Decimal(n), n);
  }

  predicate DigitsAndDots(s: string) { forall i | 0 <= i < |s| :: s[i] == '.' || '0' <= s[i] <= '9' }

  /** The printed numbers start and end with a digit and hold digits and dots only. */
  lemma {:induction false} DottedShape(ns: seq<nat>)
    requires ns != []
    ensures DigitsAndDots(Dotted(ns)) && Dotted(ns) != []
  {
    DecimalReadsBack(ns[0]);
    if |ns| > 1 {
      DottedShape(ns[1..]);
      assert Decimals(ns)[1..] == Decimals(ns[1..]);
    }
  }

  lemma {:induction false} TrimLeftDropsBlanks(before: string, t: string)
    requires Blank(before) && t != [] && !IsSpace(t[0])
    ensures TrimLeft(before + t) == t
  {
    if before == [] {
      assert before + t == t;
    } else {
      assert (before + t)[1..] == before[1..] + t;
      TrimLeftDropsBlanks(before[1..], t);
    }
  }

  lemma {:induction false} TrimRightDropsBlanks(t: string, after: string)
    requires Blank(after) && t != [] && !IsSpace(t[|t| - 1])
    ensures TrimRight(t + after) == t
  {
    if after == [] {
      assert t + after == t;
    } else {
      assert (t + after)[..|t + after| - 1] == t + after[..|after| - 1];
      TrimRightDropsBlanks(t, after[..|after| - 1]);
    }
  }

  lemma PrintedText(text: string, ns: seq<nat>)
    requires Prints(text, ns)
    ensures VersionText(text) == Dotted(ns)
  {
    var before, after :| Surrounded(text, before, ns, after);
    var d := Dotted(ns);
    DottedShape(ns);
    var t := if text == before + d + after then d else "v" + d;
    assert !IsSpace('v') && ("v" + d)[1..] == d;
    assert !IsSpace(d[0]) && !IsSpace(d[|d| - 1]) && (t + after)[0] == t[0];
    assert t[|t| - 1] == d[|d| - 1];
    assert text == before + (t + after);
    TrimLeftDropsBlanks(before, t + after);
    TrimRightDropsBlanks(t, after);
  }

  predicate IsRead(part: string, n: int) { Atoi(part) == Some(n) }

  lemma ParseSnoc(init: seq<string>, numbers: seq<int>, last: string, n: int)
    requires ParseParts(init) == Some(numbers) && IsRead(last, n)
    ensures ParseParts(init + [last]) == Some(numbers + [n])
  {
    assert (init + [last])[..|init|] == init;
  }

  lemma {:induction false} PartsParse(parts: seq<string>, ns: seq<int>)
    requires |parts| == |ns| && forall i | 0 <= i < |parts| :: IsRead(parts[i], ns[i])
    ensures ParseParts(parts) == Some(ns)
  {
    if parts == [] {
    } else {
      var k := |parts| - 1;
      PartsParse(parts[..k], ns[..k]);
      ParseSnoc(parts[..k], ns[..k], parts[k], ns[k]);
      assert parts == parts[..k] + [parts[k]] && ns == ns[..k] + [ns[k]];
    }
  }

  lemma PartsReadBack(ns: seq<nat>)
    requires forall n | n in ns :: n < INT_LIMIT
    ensures ParseParts(Decimals(ns)) == Some(ns)
  {
    forall i | 0 <= i < |ns| ensures IsRead(Decimals(ns)[i], ns[i]) {
      assert ns[i] in ns;
      DecimalIsRead(ns[i]);
    }
    PartsParse(Decimals(ns), ns);
  }

  /** Any numbers that fit are read back from their printed form, in order. */
  lemma ParsedReadsPrinted(text: string, ns: seq<nat>)
    requires Prints(text, ns)
    ensures Parsed(text) == Some(ns)
  {
    PrintedText(text, ns);
    DottedShape(ns);
    forall i | 0 <= i < |ns| ensures '.' !in Decimals(ns)[i] {
      DecimalReadsBack(ns[i]);
    }
    SplitJoined(Decimals(ns), '.');
    PartsReadBack(ns);
  }

  /** So printed versions are ordered by their numbers, the first number first. */
  lemma PrintedOrder(u: string, v: string, ms: seq<nat>, ns: seq<nat>, k: nat)
    requires Prints(u, ms) && Prints(v, ns)
    requires k < |ms| && k < |ns| && ms[..k] == ns[..k] && ms[k] > ns[k]
    ensures Newer(u, v) && !Newer(v, u)
  {
    ParsedReadsPrinted(u, ms);
    ParsedReadsPrinted(v, ns);
    DifferenceDecides(ms, ns, k);
    DifferenceDecides(ns, ms, k);
  }

  lemma OneDigitDecimal(n: nat)
    requires n < 10
    ensures Decimal(n) == ['0' + n as char]
  {
    assert Fixed(0, n / 10) == [];
  }

  lemma TwoDigitDecimal(n: nat)
    requires 10 <= n < 100
    ensures Decimal(n) == ['0' + (n / 10) as char, '0' + (n % 10) as char]
  {
    OneDigitDecimal(n / 10);
    assert Width(n) == 2 && Fixed(2, n) == Fixed(1, n / 10) + [Digit(n % 10)];
  }

  lemma ThreePrinted(text: string, a: nat, b: nat, c: nat)
    requires a < 100 && b < 100 && c < 100
    requires text == Decimal(a) + "." + Decimal(b) + "." + Decimal(c)
    ensures Prints(text, [a, b, c])
  {
    var ns := [a, b, c];
    var parts := Decimals(ns);
    assert parts[1..][1..] == [Decimal(c)];
    assert Joined(parts, '.') == parts[0] + "." + (parts[1] + "." + Joined(parts[1..][1..], '.'));
    assert text == "" + Dotted(ns) + "";
    assert Surrounded(text, "", ns, "");
  }

  lemma DigitsPrinted(text: string, a: nat, b: nat, c: nat)
    requires a < 10 && b < 10 && c < 10
    requires text == ['0' + a as char, '.', '0' + b as char, '.', '0' + c as char]
    ensures Prints(text, [a, b, c])
  {
    OneDigitDecimal(a);
    OneDigitDecimal(b);
    OneDigitDecimal(c);
    ThreePrinted(text, a, b, c);
  }

  lemma TwoDigitMiddle(text: string, a: nat, b: nat, c: nat)
    requires a < 10 && 10 <= b < 100 && c < 10
    requires text == ['0' + a as char, '.', '0' + (b / 10) as char, '0' + (b % 10) as char, '.', '0' + c as char]
    ensures Prints(text, [a, b, c])
  {
    OneDigitDecimal(a);
    TwoDigitDecimal(b);
    OneDigitDecimal(c);
    ThreePrinted(text, a, b, c);
  }

  /** "0.2.0" is newer than "0.1.9" and not the other way round. */
  lemma MinorBeforePatch()
    ensures Newer("0.2.0", "0.1.9") && !Newer("0.1.9", "0.2.0")
  {
    DigitsPrinted("0.2.0", 0, 2, 0);
    DigitsPrinted("0.1.9", 0, 1, 9);
    PrintedOrder("0.2.0", "0.1.9", [0, 2, 0], [0, 1, 9], 1);
  }

  /** "1.10.0" is newer than "1.9.9" and older than "2.0.0". */
  lemma NumbersNotTexts()
    ensures Newer("1.10.0", "1.9.9") && !Newer("1.9.9", "1.10.0")
    ensures Newer("2.0.0", "1.10.0") && !Newer("1.10.0", "2.0.0")
  {
    TwoDigitMiddle("1.10.0", 1, 10, 0);
    DigitsPrinted("1.9.9", 1, 9, 9);
    DigitsPrinted("2.0.0", 2, 0, 0);
    PrintedOrder("1.10.0", "1.9.9", [1, 10, 0], [1, 9, 9], 1);
    PrintedOrder("2.0.0", "1.10.0", [2, 0, 0], [1, 10, 0], 0);
  }

  /** A run of updates that each reach their target: every version is newer than the last. */
  ghost predicate UpdateChain(versions: seq<string>) {
    && (forall i | 0 <= i < |versions| :: Parsed(versions[i]).Some?)
    && (forall i | 0 <= i < |versions| - 1 :: Newer(versions[i + 1], versions[i]))
  }

  lemma {:induction false} ChainRises(numbers: seq<seq<int>>, i: nat, j: nat)
    requires i < j < |numbers| && forall k | 0 <= k < |numbers| - 1 :: After(numbers[k + 1], numbers[k])
    ensures After(numbers[j], numbers[i])
    decreases j - i
  {
    assert After(numbers[j - 1 + 1], numbers[j - 1]);
    if i < j - 1 {
      ChainRises(numbers, i, j - 1);
      AfterIsTransitive(numbers[j], numbers[j - 1], numbers[i]);
    }
  }

  /** Along such a run the running version strictly increases, so it never repeats. */
  lemma VersionsOnlyGoUp(versions: seq<string>, i: nat, j: nat)
    requires UpdateChain(versions) && i < j < |versions|
    ensures Newer(versions[j], versions[i]) && Parsed(versions[j]) != Parsed(versions[i])
  {
    var numbers := seq(|versions|, k requires 0 <= k < |versions| => Parsed(versions[k]).value);
    forall k | 0 <= k < |numbers| - 1 ensures After(numbers[k + 1], numbers[k]) {
      assert Newer(versions[k + 1], versions[k]);
    }
    ChainRises(numbers, i, j);
    AfterIsStrictAndTotal(numbers[j], numbers[i]);
  }

  // --- install attempts ----------------------------------------------------------------------

  const MAX_INSTALL_ATTEMPTS := 3

  /** Six hours, in nanoseconds. */
  const ATTEMPT_COOLDOWN := 6 * 3600 * 1_000_000_000

  /** What update-attempt.json holds; a missing file reads as an empty record. */
  datatype Attempt = Attempt(version: string, count: nat, at: int)

  const NO_ATTEMPT := Attempt("", 0, 0)

  /** One call of CheckAndUpdate and how its environment answers it. */
  datatype Check = Check(now: int, enabled: bool, current: string, version: string, url: string,
                         signature: string, downloads: bool, verifies: bool, installs: bool)

  /** A recorded install attempt, with the count it was recorded under. */
  datatype Install = Install(version: string, at: int, count: nat)

  /** shouldAttempt: the record to carry forward, or None while backing off. */
  function ShouldAttempt(rec: Attempt, target: string, now: int): Option<Attempt> {
    if rec.version != target then Some(Attempt(target, 0, 0))
    else if rec.count < MAX_INSTALL_ATTEMPTS then Some(rec)
    else if now - rec.at > ATTEMPT_COOLDOWN then Some(Attempt(target, 0, 0))
    else None
  }

  /** What the retry budget sees of a check: when, for which target, and whether everything
      but the budget lets the install go ahead. */
  datatype Request = Request(now: int, target: string, ready: bool)

  ghost function RequestOf(c: Check): Request {
    Request(c.now, c.version,
            && c.enabled && c.version != "" && c.url != "" && Newer(c.version, c.current) && c.signature != ""
            && c.downloads && c.verifies)
  }

  /** The install a request records, if it gets that far. */
  function Recorded(rec: Attempt, r: Request): Option<Install> {
    var next := ShouldAttempt(rec, r.target, r.now);
    if next.None? || !r.ready then None else Some(Install(r.target, r.now, next.value.count + 1))
  }

  function NextRecord(rec: Attempt, r: Request): Attempt {
    var i := Recorded(rec, r);
    if i.None? then rec else Attempt(i.value.version, i.value.count, i.value.at)
  }

  function RecordAfter(rec: Attempt, rs: seq<Request>): Attempt {
    if rs == [] then rec else NextRecord(RecordAfter(rec, rs[..|rs| - 1]), rs[|rs| - 1])
  }

  /** All installs recorded by a sequence of checks. */
  function InstallsOf(rec: Attempt, rs: seq<Request>): seq<Install> {
    if rs == [] then []
    else
      var before, i := InstallsOf(rec, rs[..|rs| - 1]), Recorded(RecordAfter(rec, rs[..|rs| - 1]), rs[|rs| - 1]);
      if i.None? then before else before + [i.value]
  }

  lemma OneMoreCheck(rec: Attempt, rs: seq<Request>, r: Request)
    ensures RecordAfter(rec, rs + [r]) == NextRecord(RecordAfter(rec, rs), r)
    ensures var i := Recorded(RecordAfter(rec, rs), r);
      InstallsOf(rec, rs + [r]) == InstallsOf(rec, rs) + if i.None? then [] else [i.value]
  {
    assert (rs + [r])[..|rs|] == rs;
  }

  /** How many of the last installs are of this target, without another in between. */
  function Streak(all: seq<Install>, target: string): nat {
    if all == [] || all[|all| - 1].version != target then 0 else 1 + Streak(all[..|all| - 1], target)
  }

  /** The record is the last install, its count the place of that install in its round of three. */
  ghost predicate RecordsStreak(rec: Attempt, all: seq<Install>) {
    if all == [] then rec == NO_ATTEMPT
    else
      var last := all[|all| - 1];
      rec == Attempt(last.version, (Streak(all, last.version) - 1) % 3 + 1, last.at)
  }

  lemma OneMoreInstall(rec: Attempt, before: seq<Install>, r: Request)
    requires RecordsStreak(rec, before) && Recorded(rec, r).Some?
    ensures RecordsStreak(NextRecord(rec, r), before + [Recorded(rec, r).value])
  {
    var i := Recorded(rec, r).value;
    assert (before + [i])[..|before|] == before;
    assert Streak(before + [i], r.target) == 1 + Streak(before, r.target);
    NextInRound(Streak(before, r.target));
  }

  lemma {:induction false} RecordIsLastOfStreak(rs: seq<Request>)
    ensures RecordsStreak(RecordAfter(NO_ATTEMPT, rs), InstallsOf(NO_ATTEMPT, rs))
  {
    if rs == [] {
    } else {
      var init, r := rs[..|rs| - 1], rs[|rs| - 1];
      RecordIsLastOfStreak(init);
      if Recorded(RecordAfter(NO_ATTEMPT, init), r).Some? {
        OneMoreInstall(RecordAfter(NO_ATTEMPT, init), InstallsOf(NO_ATTEMPT, init), r);
      }
    }
  }

  lemma NextInRound(streak: nat)
    ensures streak % 3 + 1 == if streak == 0 || (streak - 1) % 3 + 1 == 3 then 1 else (streak - 1) % 3 + 2
    ensures streak > 0 ==> ((streak - 1) % 3 + 1 < 3 <==> streak % 3 != 0)
  {
  }

  lemma RoundIsFullIff(rec: Attempt, all: seq<Install>, r: Request)
    requires RecordsStreak(rec, all)
    ensures var streak := Streak(all, r.target);
      ShouldAttempt(rec, r.target, r.now).None? <==>
      streak > 0 && streak % 3 == 0 && r.now - all[|all| - 1].at <= 6 * 3600 * 1_000_000_000
  {
    var streak := Streak(all, r.target);
    NextInRound(streak);
    if streak > 0 {
      assert rec == Attempt(r.target, (streak - 1) % 3 + 1, all[|all| - 1].at);
    } else {
      assert rec.version != r.target || rec.count == 0;
    }
  }

  /** On an agent with no record to begin with, a check that is otherwise ready installs unless
      the installs of its target so far, since the last one of another target, make whole rounds
      of three and the last of them was at most six hours ago. So the budget opens again. */
  lemma InstallsUnlessRoundIsFull(rs: seq<Request>, r: Request)
    ensures var all := InstallsOf(NO_ATTEMPT, rs);
      var streak := Streak(all, r.target);
      |InstallsOf(NO_ATTEMPT, rs + [r])| > |all| <==>
      r.ready && !(streak > 0 && streak % 3 == 0 && r.now - all[|all| - 1].at <= 6 * 3600 * 1_000_000_000)
  {
    RecordIsLastOfStreak(rs);
    OneMoreCheck(NO_ATTEMPT, rs, r);
    RoundIsFullIff(RecordAfter(NO_ATTEMPT, rs), InstallsOf(NO_ATTEMPT, rs), r);
  }

  datatype Outcome = NoUpdate | Failed | Updated

  /** The release is advertised completely and newer than the running version. */
  ghost predicate Offered(c: Check) { c.enabled && c.version != "" && c.url != "" && Newer(c.version, c.current) }

  /** Three attempts at this version, the last at most six hours ago. */
  predicate BackingOff(rec: Attempt, c: Check) {
    rec.version == c.version && rec.count >= 3 && c.now - rec.at <= ATTEMPT_COOLDOWN
  }

  /** What one check leaves behind. */
  lemma CheckTakes(first: Attempt, rs: seq<Request>, c: Check)
    ensures var rec, all := RecordAfter(first, rs), rs + [RequestOf(c)];
      if Offered(c) && c.signature != "" && !BackingOff(rec, c) && c.downloads && c.verifies
      then
        var n := ShouldAttempt(rec, c.version, c.now).value.count + 1;
        && RecordAfter(first, all) == Attempt(c.version, n, c.now)
        && InstallsOf(first, all) == InstallsOf(first, rs) + [Install(c.version, c.now, n)]
      else RecordAfter(first, all) == rec && InstallsOf(first, all) == InstallsOf(first, rs)
  {
    OneMoreCheck(first, rs, RequestOf(c));
  }

  class Updater {
    var record: Attempt
    ghost const first: Attempt
    ghost var requests: seq<Request>

    /** The file holds what the checks so far leave behind. */
    ghost predicate Valid()
      reads this
    {
      record == RecordAfter(first, requests)
    }

    ghost function Installs(): seq<Install>
      reads this
    {
      InstallsOf(first, requests)
    }

    constructor (record: Attempt)
      ensures Valid() && this.record == first == record && requests == []
    {
      this.record, first := record, record;
      requests := [];
    }

    /** One check. Its install, if it gets that far, is the only one it adds; the file is
        written before the install, which restarts the service. */
    method CheckAndUpdate(c: Check) returns (r: Outcome)
      requires Valid()
      modifies this
      ensures Valid() && requests == old(requests) + [RequestOf(c)]
      ensures r.NoUpdate? <==> !Offered(c) || (c.signature != "" && BackingOff(old(record), c))
      ensures r.Updated? <==> Offered(c) && c.signature != "" && !BackingOff(old(record), c)
                              && c.downloads && c.verifies && c.installs
      ensures var before, after := old(Installs()), Installs();
        && (r.Updated? <==> c.installs && |after| > |before|)
        && (after == before || after == before + [Install(c.version, c.now, record.count)])
        && (after == before ==> record == old(record))
    {
      CheckTakes(first, requests, c);
      requests := requests + [RequestOf(c)];
      if !c.enabled || c.version == "" || c.url == "" {
        return NoUpdate;
      }
      var newer := IsNewer(c.version, c.current);
      if !newer {
        return NoUpdate;
      }
      if c.signature == "" {
        return Failed;
      }
      var rec := ShouldAttempt(record, c.version, c.now);
      if rec.None? {
        return NoUpdate;
      }
      if !c.downloads || !c.verifies {
        return Failed;
      }
      record := Attempt(rec.value.version, rec.value.count + 1, c.now);
      r := if c.installs then Updated else Failed;
    }
  }

  ghost predicate ClockNeverGoesBack(rs: seq<Request>) {
    forall i, j | 0 <= i < j < |rs| :: rs[i].now <= rs[j].now
  }

  /** How an install follows the previous one of the same target. */
  ghost predicate Follows(a: Install, b: Install) {
    && a.at <= b.at && b.count >= 1
    && (a.version == b.version ==>
          if a.count < MAX_INSTALL_ATTEMPTS then b.count == a.count + 1
          else b.count == 1 && b.at - a.at > ATTEMPT_COOLDOWN)
  }

  /** The record is the last install, which is no later than the last check. */
  ghost predicate RecordsLast(rec: Attempt, all: seq<Install>, latest: int) {
    all != [] ==>
      var last := all[|all| - 1];
      rec == Attempt(last.version, last.count, last.at) && last.at <= latest && last.count >= 1
  }

  lemma {:induction false} InstallsFollow(rec: Attempt, rs: seq<Request>)
    requires ClockNeverGoesBack(rs)
    ensures rs != [] ==> RecordsLast(RecordAfter(rec, rs), InstallsOf(rec, rs), rs[|rs| - 1].now)
    ensures InstallsOf(rec, rs) != [] ==> InstallsOf(rec, rs)[0].count >= 1
    ensures forall i | 0 <= i < |InstallsOf(rec, rs)| - 1 :: Follows(InstallsOf(rec, rs)[i], InstallsOf(rec, rs)[i + 1])
  {
    if rs == [] {
    } else {
      var init, r := rs[..|rs| - 1], rs[|rs| - 1];
      InstallsFollow(rec, init);
      var before, i := InstallsOf(rec, init), Recorded(RecordAfter(rec, init), r);
      if i.Some? && before != [] {
        assert init[|init| - 1].now <= r.now;
        assert Follows(before[|before| - 1], i.value);
      }
    }
  }

  /** Installs i..j, all of one target, one after the other. */
  ghost predicate SameTarget(all: seq<Install>, i: nat, j: nat) {
    i <= j <= |all| && forall k | i <= k < j :: all[k].version == all[i].version
  }

  /** Any four consecutive install attempts of one target span more than six hours. */
  lemma FourAttemptsSpanTheCooldown(rec: Attempt, rs: seq<Request>, i: nat)
    requires ClockNeverGoesBack(rs)
    requires i + 4 <= |InstallsOf(rec, rs)| && SameTarget(InstallsOf(rec, rs), i, i + 4)
    ensures InstallsOf(rec, rs)[i + 3].at - InstallsOf(rec, rs)[i].at > ATTEMPT_COOLDOWN
  {
    InstallsFollow(rec, rs);
    var all := InstallsOf(rec, rs);
    assert Follows(all[i], all[i + 1]) && Follows(all[i + 1], all[i + 2]) && Follows(all[i + 2], all[i + 3]);
    assert all[i].count >= 1 by { if i > 0 { assert Follows(all[i - 1], all[i]); } }
  }

  lemma {:induction false} TriplesAreSpaced(rec: Attempt, rs: seq<Request>, i: nat, j: nat, k: nat)
    requires ClockNeverGoesBack(rs)
    requires SameTarget(InstallsOf(rec, rs), i, j) && i + 3 * k < j
    ensures InstallsOf(rec, rs)[i + 3 * k].at - InstallsOf(rec, rs)[i].at >= k * (ATTEMPT_COOLDOWN + 1)
    decreases k
  {
    if k > 0 {
      TriplesAreSpaced(rec, rs, i, j, k - 1);
      FourAttemptsSpanTheCooldown(rec, rs, i + 3 * (k - 1));
    }
  }

  lemma CooldownsOutlast(span: nat, k: nat)
    requires k == span / ATTEMPT_COOLDOWN + 1
    ensures k * (ATTEMPT_COOLDOWN + 1) > span
  {
  }

  /** So at most 3 * (floor(T / 6h) + 1) installs of an unchanged target start in any span T. */
  lemma InstallRateIsBounded(rec: Attempt, rs: seq<Request>, i: nat, j: nat, span: nat)
    requires ClockNeverGoesBack(rs)
    requires i < j && SameTarget(InstallsOf(rec, rs), i, j)
    requires InstallsOf(rec, rs)[j - 1].at - InstallsOf(rec, rs)[i].at <= span
    ensures j - i <= 3 * (span / ATTEMPT_COOLDOWN + 1)
  {
    var k := span / ATTEMPT_COOLDOWN + 1;
    if j - i > 3 * k {
      TriplesAreSpaced(rec, rs, i, j, k);
      CooldownsOutlast(span, k);
      InstallsFollow(rec, rs);
      LaterIsLater(InstallsOf(rec, rs), i + 3 * k, j - 1);
      assert false;
    }
  }

  lemma {:induction false} LaterIsLater(all: seq<Install>, i: nat, j: nat)
    requires i <= j < |all| && forall k | 0 <= k < |all| - 1 :: Follows(all[k], all[k + 1])
    ensures all[i].at <= all[j].at
    decreases j - i
  {
    if i < j {
      LaterIsLater(all, i, j - 1);
      assert Follows(all[j - 1], all[j]);
    }
  }

  // --- when the target changes ---------------------------------------------------------------------

  /** How often the target changes among the installs i..j. */
  function Changes(all: seq<Install>, i: nat, j: nat): nat
    requires i <= j <= |all|
    decreases j - i
  {
    if j <= i + 1 then 0 else Changes(all, i, j - 1) + if all[j - 1].version != all[j - 2].version then 1 else 0
  }

  /** Where the last unchanged stretch of the installs i..j begins. */
  lemma {:induction false} LastStretch(all: seq<Install>, i: nat, j: nat) returns (m: nat)
    requires i < j <= |all|
    ensures i <= m < j && SameTarget(all, m, j)
    ensures if m == i then Changes(all, i, j) == 0 else Changes(all, i, j) == Changes(all, i, m) + 1
    decreases j - i
  {
    if j == i + 1 {
      m := i;
    } else if all[j - 1].version != all[j - 2].version {
      m := j - 1;
    } else {
      m := LastStretch(all, i, j - 1);
    }
  }

  lemma FloorsAdd(a: nat, b: nat, span: nat)
    requires a + b <= span
    ensures a / ATTEMPT_COOLDOWN + b / ATTEMPT_COOLDOWN <= span / ATTEMPT_COOLDOWN
  {
  }

  /** Whatever the target does: in a span T in which it changes k times, at most
      3 * (floor(T / 6h) + k + 1) installs start. */
  lemma {:induction false} ChangingTargetsAreBounded(rec: Attempt, rs: seq<Request>, i: nat, j: nat, span: nat)
    requires ClockNeverGoesBack(rs) && i < j <= |InstallsOf(rec, rs)|
    requires InstallsOf(rec, rs)[j - 1].at - InstallsOf(rec, rs)[i].at <= span
    ensures j - i <= 3 * (span / ATTEMPT_COOLDOWN + Changes(InstallsOf(rec, rs), i, j) + 1)
    decreases j - i
  {
    var all := InstallsOf(rec, rs);
    InstallsFollow(rec, rs);
    var m := LastStretch(all, i, j);
    LaterIsLater(all, m, j - 1);
    InstallRateIsBounded(rec, rs, m, j, all[j - 1].at - all[m].at);
    if m == i {
      FloorsAdd(all[j - 1].at - all[i].at, 0, span);
    } else {
      LaterIsLater(all, i, m - 1);
      LaterIsLater(all, m - 1, m);
      ChangingTargetsAreBounded(rec, rs, i, m, all[m - 1].at - all[i].at);
      FloorsAdd(all[m - 1].at - all[i].at, all[j - 1].at - all[m].at, span);
    }
  }

  ghost function RequestsOf(cs: seq<Check>): (rs: seq<Request>)
    ensures |rs| == |cs| && forall i | 0 <= i < |rs| :: rs[i] == RequestOf(cs[i])
  {
    seq(|cs|, i requires 0 <= i < |cs| => RequestOf(cs[i]))
  }

  lemma OneMoreRequest(rec: Attempt, rs: seq<Request>, r: Request)
    requires RecordAfter(rec, rs).version != r.target && r.ready
    ensures |InstallsOf(rec, rs + [r])| == |InstallsOf(rec, rs)| + 1
  {
    OneMoreCheck(rec, rs, r);
  }

  /** A check, now, of a release that is downloaded and verified. */
  function GoodCheck(current: string, version: string): Check {
    Check(0, true, current, version, "/agent", "signature", true, true, false)
  }

  lemma {:induction false} AlternatingRequests(a: string, b: string, n: nat) returns (rs: seq<Request>)
    requires a != b
    ensures |rs| == |InstallsOf(NO_ATTEMPT, rs)| == n
    ensures forall i | 0 <= i < n :: rs[i] == Request(0, a, true) || rs[i] == Request(0, b, true)
  {
    if n == 0 {
      rs := [];
    } else {
      var before := AlternatingRequests(a, b, n - 1);
      var next := Request(0, if RecordAfter(NO_ATTEMPT, before).version == a then b else a, true);
      OneMoreRequest(NO_ATTEMPT, before, next);
      rs := before + [next];
    }
  }

  lemma GoodCheckIsReady(current: string, version: string)
    requires version != "" && Newer(version, current)
    ensures RequestOf(GoodCheck(current, version)) == Request(0, version, true)
  {
    assert |"/agent"| > 0 && |"signature"| > 0;
  }

  /** When the advertised release alternates between two that are newer than the running one,
      every check installs: for any n there are n checks at one moment that install n times. */
  lemma FlappingIsUnbounded(current: string, a: string, b: string, n: nat) returns (cs: seq<Check>)
    requires a != b && a != "" && b != "" && Newer(a, current) && Newer(b, current)
    ensures |cs| == |InstallsOf(NO_ATTEMPT, RequestsOf(cs))| == n
    ensures forall i | 0 <= i < n :: cs[i] == GoodCheck(current, a) || cs[i] == GoodCheck(current, b)
  {
    GoodCheckIsReady(current, a);
    GoodCheckIsReady(current, b);
    var rs := AlternatingRequests(a, b, n);
    cs := seq(n, i requires 0 <= i < n => GoodCheck(current, rs[i].target));
    assert RequestsOf(cs) == rs;
  }

  lemma OnePrinted(v: string, n: nat)
    requires n < 10 && v == ['0' + n as char]
    ensures Prints(v, [n])
  {
    OneDigitDecimal(n);
    assert Decimals([n]) == [v] && v == "" + Dotted([n]) + "";
    assert Surrounded(v, "", [n], "");
  }

  lemma OneDigitIsNewer(v: string, w: string, m: nat, n: nat)
    requires n < m < 10 && v == ['0' + m as char] && w == ['0' + n as char]
    ensures Newer(v, w)
  {
    OnePrinted(v, m);
    OnePrinted(w, n);
    PrintedOrder(v, w, [m], [n], 0);
  }

  lemma WordDoesNotParse(v: string)
    requires v == "dev"
    ensures Parsed(v).None?
  {
    assert v[0] == 'd' && v[1] == 'e' && v[2] == 'v' && |v| == 3;
    assert TrimLeft(v) == v && TrimRight(v) == v && VersionText(v) == v;
    SplitWithoutSeparator(v, '.');
    assert !AllDigits(v) && Atoi(v).None?;
    var parts: seq<string> := [v];
    assert parts[|parts| - 1] == v && ParseParts(parts).None?;
  }

  /** A release named "dev" and release "1" are each newer than the other. */
  lemma EachNewerThanTheOther()
    ensures Newer("dev", "1") && Newer("1", "dev")
  {
    WordDoesNotParse("dev");
    assert |"dev"| != |"1"|;
  }

  /** It does happen: with "1" running, "2" and "3" advertised in turn. */
  lemma FlappingHappens(n: nat) returns (cs: seq<Check>)
    ensures |cs| == |InstallsOf(NO_ATTEMPT, RequestsOf(cs))| == n
    ensures forall i | 0 <= i < n :: cs[i] == GoodCheck("1", "2") || cs[i] == GoodCheck("1", "3")
  {
    OneDigitIsNewer("2", "1", 2, 1);
    OneDigitIsNewer("3", "1", 3, 1);
    assert "2"[0] != "3"[0];
    cs := FlappingIsUnbounded("1", "2", "3", n);
  }
}
