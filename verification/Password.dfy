/** Printing and reading back argon2id password hashes. */
module Password {
  import opened Options
  import opened Text

  type Byte = b: nat | b < 256
  type Bytes = seq<Byte>

  // --- base64 without padding (sections 3.2 and 4 of RFC 4648) -----------------------------------

  type Sextet = n: nat | n < 64

  function Char64(n: Sextet): (c: char)
    ensures Value64(c) == Some(n)
  {
    if n < 26 then 'A' + n as char
    else if n < 52 then 'a' + (n - 26) as char
    else if n < 62 then '0' + (n - 52) as char
    else if n == 62 then '+' else '/'
  }

  function Value64(c: char): Option<Sextet> {
    if 'A' <= c <= 'Z' then Some((c - 'A') as nat)
    else if 'a' <= c <= 'z' then Some(26 + (c - 'a') as nat)
    else if '0' <= c <= '9' then Some(52 + (c - '0') as nat)
    else if c == '+' then Some(62)
    else if c == '/' then Some(63)
    else None
  }

  /** Three bytes make four sextets; one or two bytes left over make two or three. */
  function Sextets(b: Bytes): seq<Sextet> {
    if b == [] then []
    else
      var b0: nat, b1: nat, b2: nat := b[0], if |b| > 1 then b[1] else 0, if |b| > 2 then b[2] else 0;
      var v0: Sextet, v1: Sextet, v2: Sextet, v3: Sextet :=
        b0 / 4, b0 % 4 * 16 + b1 / 16, b1 % 16 * 4 + b2 / 64, b2 % 64;
      if |b| == 1 then [v0, v1]
      else if |b| == 2 then [v0, v1, v2]
      else [v0, v1, v2, v3] + Sextets(b[3..])
  }

  /** The way back, whatever the spare bits of a last group; a lone sextet is an error. */
  function Rejoined(v: seq<Sextet>): Option<Bytes> {
    if v == [] then Some([])
    else if |v| == 1 then None
    else
      var v0: nat, v1: nat := v[0], v[1];
      var b0: Byte := v0 * 4 + v1 / 16;
      if |v| == 2 then Some([b0])
      else
        var v2: nat := v[2];
        var b1: Byte := v1 % 16 * 16 + v2 / 4;
        if |v| == 3 then Some([b0, b1])
        else
          var b2: Byte := v2 % 4 * 64 + v[3];
          var rest := Rejoined(v[4..]);
          if rest.None? then None else Some([b0, b1, b2] + rest.value)
  }

  function Chars(v: seq<Sextet>): (s: string)
    ensures |s| == |v| && forall i | 0 <= i < |v| :: s[i] == Char64(v[i])
  {
    seq(|v|, i requires 0 <= i < |v| => Char64(v[i]))
  }

  /** The sextets of a text, unless some character is not in the alphabet. */
  function Values(s: string): Option<seq<Sextet>> {
    if s == [] then Some([])
    else
      var first, rest := Value64(s[0]), Values(s[1..]);
      if first.None? || rest.None? then None else Some([first.value] + rest.value)
  }

  function Encode(b: Bytes): string { Chars(Sextets(b)) }

  function DecodeClean(s: string): Option<Bytes> {
    var v := Values(s);
    if v.None? then None else Rejoined(v.value)
  }

  function WithoutNewlines(s: string): string {
    if s == [] then []
    else (if s[0] == '\r' || s[0] == '\n' then [] else [s[0]]) + WithoutNewlines(s[1..])
  }

  function Decode(s: string): Option<Bytes> { DecodeClean(WithoutNewlines(s)) }

  lemma {:induction false} ValuesOfChars(v: seq<Sextet>)
    ensures Values(Chars(v)) == Some(v)
  {
    if v == [] {
    } else {
      ValuesOfChars(v[1..]);
      var s := Chars(v);
      assert s[1..] == Chars(v[1..]) && v == [v[0]] + v[1..];
      assert Value64(s[0]) == Some(v[0]);
    }
  }

  lemma {:induction false} NothingToDrop(s: string)
    requires '\r' !in s && '\n' !in s
    ensures WithoutNewlines(s) == s
  {
    if s == [] {
    } else {
      NothingToDrop(s[1..]);
      assert s == [s[0]] + s[1..];
    }
  }

  lemma CharsArePlain(v: seq<Sextet>)
    ensures '\r' !in Chars(v) && '\n' !in Chars(v) && '$' !in Chars(v)
  {
    assert Value64('\r').None? && Value64('\n').None? && Value64('$').None?;
    forall i | 0 <= i < |v| ensures Value64(Chars(v)[i]).Some? {
    }
  }

  /** Three bytes cut into four sextets and put together again. */
  lemma BitsRejoin(b0: Byte, b1: Byte, b2: Byte)
    ensures b0 / 4 * 4 + (b0 % 4 * 16 + b1 / 16) / 16 == b0
    ensures (b0 % 4 * 16 + b1 / 16) % 16 * 16 + (b1 % 16 * 4 + b2 / 64) / 4 == b1
    ensures (b1 % 16 * 4 + b2 / 64) % 4 * 64 + b2 % 64 == b2
  {
    assert (b0 % 4 * 16 + b1 / 16) / 16 == b0 % 4 && (b0 % 4 * 16 + b1 / 16) % 16 == b1 / 16;
    assert (b1 % 16 * 4 + b2 / 64) / 4 == b1 % 16 && (b1 % 16 * 4 + b2 / 64) % 4 == b2 / 64;
  }

  lemma {:induction false} SextetsRejoin(b: Bytes)
    ensures Rejoined(Sextets(b)) == Some(b)
  {
    if b == [] {
    } else if |b| == 1 {
      BitsRejoin(b[0], 0, 0);
      assert b == [b[0]];
    } else if |b| == 2 {
      BitsRejoin(b[0], b[1], 0);
      assert b == [b[0], b[1]];
    } else {
      BitsRejoin(b[0], b[1], b[2]);
      SextetsRejoin(b[3..]);
      assert Sextets(b)[4..] == Sextets(b[3..]);
      assert b == [b[0], b[1], b[2]] + b[3..];
    }
  }

  /** Any bytes survive printing and reading. */
  lemma Base64RoundTrip(b: Bytes)
    ensures Decode(Encode(b)) == Some(b) && '$' !in Encode(b)
  {
    ValuesOfChars(Sextets(b));
    CharsArePlain(Sextets(b));
    NothingToDrop(Encode(b));
    SextetsRejoin(b);
  }

  /** Table 1 of RFC 4648. */
  lemma AlphabetIs(n: Sextet)
    ensures |UPPER| == |LOWER| == 26 && |DIGITS| == 10
    ensures Char64(n) == if n < 26 then UPPER[n]
                         else if n < 52 then LOWER[n - 26]
                         else if n < 62 then DIGITS[n - 52]
                         else if n == 62 then '+'
                         else '/'
  {
  }

  /** The number that digits of a base write, the most significant first. */
  function Number(digits: seq<nat>, base: nat): nat {
    if digits == [] then 0 else Number(digits[..|digits| - 1], base) * base + digits[|digits| - 1]
  }

  lemma NumberOfFour(v: seq<nat>, base: nat)
    requires |v| == 4
    ensures Number(v, base) == ((v[0] * base + v[1]) * base + v[2]) * base + v[3]
    ensures Number(v[..3], base) == (v[0] * base + v[1]) * base + v[2]
  {
    assert v[..3][..2] == v[..2] && v[..2][..1] == v[..1] && v[..1][..0] == [];
    assert Number(v[..0], base) == 0 && Number(v[..1], base) == v[0];
    assert Number(v[..2], base) == v[0] * base + v[1];
  }

  lemma GroupIsNumber(b0: nat, b1: nat, b2: nat)
    requires b0 < 256 && b1 < 256 && b2 < 256
    ensures (((b0 / 4) * 64 + (b0 % 4 * 16 + b1 / 16)) * 64 + (b1 % 16 * 4 + b2 / 64)) * 64 + b2 % 64
            == (b0 * 256 + b1) * 256 + b2
  {
  }

  /** Each group of three bytes is written as the same number in four sextets. */
  lemma GroupsAreNumbers(b: Bytes)
    requires |b| >= 3
    ensures var v := Sextets(b);
      |v| >= 4 && Number(v[..4], 64) == Number(b[..3], 256) && v[4..] == Sextets(b[3..])
  {
    var v := Sextets(b);
    NumberOfFour(v[..4], 64);
    NumberOfFour(b[..3] + [0], 256);
    assert (b[..3] + [0])[..3] == b[..3];
    GroupIsNumber(b[0], b[1], b[2]);
  }

  lemma FirstSextets(b: Bytes)
    requires |b| >= 3
    ensures var v := Sextets(b);
      && |v| >= 4 && v[0] == b[0] / 4 && v[1] == b[0] % 4 * 16 + b[1] / 16 && v[2] == b[1] % 16 * 4 + b[2] / 64
  {
  }

  /** One or two last bytes are written as if zero bytes followed, without the sextets that are
      only padding. */
  lemma LastGroupIsPadded(b: Bytes)
    requires 1 <= |b| <= 2
    ensures |Sextets(b + [0, 0])| > |b| && Sextets(b) == Sextets(b + [0, 0])[..|b| + 1]
  {
    var padded, v := b + [0, 0], Sextets(b + [0, 0]);
    FirstSextets(padded);
    if |b| == 1 {
      assert padded[1] == 0 && Sextets(b) == [v[0], v[1]];
    } else {
      assert padded[2] == 0 && Sextets(b) == [v[0], v[1], v[2]];
    }
  }

  predicate InAlphabet(c: char) {
    'A' <= c <= 'Z' || 'a' <= c <= 'z' || '0' <= c <= '9' || c == '+' || c == '/'
  }

  lemma {:induction false} ValuesIff(s: string)
    ensures Values(s).Some? <==> forall i | 0 <= i < |s| :: InAlphabet(s[i])
    ensures Values(s).Some? ==> |Values(s).value| == |s|
  {
    if s == [] {
    } else {
      ValuesIff(s[1..]);
      assert s == [s[0]] + s[1..];
    }
  }

  lemma FourMore(n: nat)
    ensures (n + 4) % 4 == n % 4 && (n + 4) * 3 / 4 == n * 3 / 4 + 3
  {
  }

  lemma {:induction false} RejoinedIff(v: seq<Sextet>)
    ensures Rejoined(v).Some? <==> |v| % 4 != 1
    ensures Rejoined(v).Some? ==> |Rejoined(v).value| == |v| * 3 / 4
  {
    if |v| >= 4 {
      var rest := v[4..];
      RejoinedIff(rest);
      FourMore(|rest|);
      assert Rejoined(v).Some? <==> Rejoined(rest).Some?;
    }
  }

  /** A text is decoded exactly when, line ends aside, it is all from the alphabet and does not
      end in a lone character; three bytes come from every four characters. */
  lemma DecodesIff(s: string)
    ensures var t := WithoutNewlines(s);
      && (Decode(s).Some? <==> (forall i | 0 <= i < |t| :: InAlphabet(t[i])) && |t| % 4 != 1)
      && (Decode(s).Some? ==> |Decode(s).value| == |t| * 3 / 4)
  {
    ValuesIff(WithoutNewlines(s));
    var v := Values(WithoutNewlines(s));
    if v.Some? { RejoinedIff(v.value); }
  }

  // --- decimal fields ---------------------------------------------------------------------------

  /** A newline is not skipped: no number can start there. */
  function SkipBlanks(s: string): string { if s != [] && IsSpace(s[0]) && s[0] != '\n' then SkipBlanks(s[1..]) else s }

  function DigitRun(s: string): (n: nat)
    ensures n <= |s| && AllDigits(s[..n])
  {
    if s == [] || !('0' <= s[0] <= '9') then 0
    else var n := 1 + DigitRun(s[1..]); assert s[..n] == [s[0]] + s[1..][..n - 1]; n
  }

  /** A scanned number, and the text after it. */
  datatype Scanned = Failed | Scanned(value: int, rest: string)

  /** %d into an unsigned variable: blanks, then at least one digit, within range. */
  function ScanNumber(s: string, limit: nat): Scanned {
    var t := SkipBlanks(s);
    var n := DigitRun(t);
    if n == 0 || DigitsValue(t[..n]) >= limit then Failed else Scanned(DigitsValue(t[..n]), t[n..])
  }

  /** %d into a signed variable: a sign may come first. */
  function ScanSigned(s: string, limit: nat): Scanned {
    var t := SkipBlanks(s);
    var signed := t != [] && (t[0] == '-' || t[0] == '+');
    var digits := if signed then t[1..] else t;
    var n := DigitRun(digits);
    var m: int := DigitsValue(digits[..n]);
    var value := if signed && t[0] == '-' then -m else m;
    if n == 0 || value + limit < 0 || value >= limit then Failed else Scanned(value, digits[n..])
  }

  /** A literal part of the format must be matched as it is. */
  function ScanLiteral(s: string, literal: string): Option<string> {
    if literal <= s then Some(s[|literal|..]) else None
  }

  function ScanField(s: string, literal: string, limit: nat): Scanned {
    var t := ScanLiteral(s, literal);
    if t.None? then Failed else ScanNumber(t.value, limit)
  }

  function ScanVersion(s: string, literal: string, limit: nat): Scanned {
    var t := ScanLiteral(s, literal);
    if t.None? then Failed else ScanSigned(t.value, limit)
  }

  ghost predicate NoDigitFirst(s: string) { s == [] || !('0' <= s[0] <= '9') }

  lemma {:induction false} DigitRunOf(d: string, rest: string)
    requires AllDigits(d) && NoDigitFirst(rest)
    ensures DigitRun(d + rest) == |d|
  {
    if d == [] {
      assert d + rest == rest;
    } else {
      DigitRunOf(d[1..], rest);
      assert (d + rest)[1..] == d[1..] + rest;
    }
  }

  lemma {:induction false} NumberReadsBack(d: string, rest: string, limit: nat)
    requires AllDigits(d) && d != [] && DigitsValue(d) < limit && NoDigitFirst(rest)
    ensures ScanNumber(d + rest, limit) == ScanSigned(d + rest, limit) == Scanned(DigitsValue(d), rest)
  {
    DigitRunOf(d, rest);
    assert (d + rest)[..|d|] == d && (d + rest)[|d|..] == rest;
    assert '0' <= (d + rest)[0] <= '9';
  }

  lemma LiteralMatches(literal: string, rest: string)
    ensures ScanLiteral(literal + rest, literal) == Some(rest)
  {
    assert (literal + rest)[|literal|..] == rest;
  }

  /** A printed number after its label is read back, whatever follows that is not a digit. */
  lemma {:induction false} FieldReadsBack(literal: string, n: nat, rest: string, limit: nat)
    requires n < limit && NoDigitFirst(rest)
    ensures ScanField(literal + (Decimal(n) + rest), literal, limit) == Scanned(n, rest)
  {
    LiteralMatches(literal, Decimal(n) + rest);
    DecimalReadsBack(n);
    NumberReadsBack(Decimal(n), rest, limit);
  }

  lemma LastFieldReadsBack(literal: string, n: nat, limit: nat)
    requires n < limit
    ensures ScanField(literal + Decimal(n), literal, limit) == Scanned(n, "")
    ensures ScanVersion(literal + Decimal(n), literal, limit) == Scanned(n, "")
  {
    assert Decimal(n) + "" == Decimal(n);
    FieldReadsBack(literal, n, "", limit);
    LiteralMatches(literal, Decimal(n));
    DecimalReadsBack(n);
    NumberReadsBack(Decimal(n), "", limit);
  }

  // --- the hash string -----------------------------------------------------------------------------

  const ARGON_VERSION := 19
  const ARGON_TIME := 1
  const ARGON_MEMORY := 65536
  const ARGON_THREADS := 4
  const ARGON_KEY_LEN := 32

  /** argon2.IDKey: password, salt, passes, memory, threads and key length to a key. */
  type Argon = (Bytes, Bytes, nat, nat, nat, nat) -> Bytes

  /** "m=%d,t=%d,p=%d" */
  function Params(mem: nat, t: nat, p: nat): string {
    "m=" + (Decimal(mem) + (",t=" + (Decimal(t) + (",p=" + Decimal(p)))))
  }

  function Parts(version: nat, mem: nat, t: nat, p: nat, salt: Bytes, key: Bytes): seq<string> {
    ["", "argon2id", "v=" + Decimal(version), Params(mem, t, p), Encode(salt), Encode(key)]
  }

  /** "$argon2id$v=%d$m=%d,t=%d,p=%d$%s$%s" */
  function Printed(version: nat, mem: nat, t: nat, p: nat, salt: Bytes, key: Bytes): string {
    Joined(Parts(version, mem, t, p, salt, key), '$')
  }

  function HashPassword(password: Bytes, salt: Bytes, argon: Argon): string {
    Printed(ARGON_VERSION, ARGON_MEMORY, ARGON_TIME, ARGON_THREADS, salt,
            argon(password, salt, ARGON_TIME, ARGON_MEMORY, ARGON_THREADS, ARGON_KEY_LEN))
  }

  /** The fields a hash string is read as; a wrong part is an error. */
  datatype Hash = Invalid | Hash(version: int, mem: nat, t: nat, p: nat, salt: Bytes, key: Bytes)

  function ParseParams(s: string): Option<(nat, nat, nat)> {
    var mem := ScanField(s, "m=", 0x1_0000_0000);
    if mem.Failed? then None
    else
      var t := ScanField(mem.rest, ",t=", 0x1_0000_0000);
      if t.Failed? then None
      else
        var p := ScanField(t.rest, ",p=", 256);
        if p.Failed? then None else Some((mem.value, t.value, p.value))
  }

  function Parse(encoded: string): Hash {
    var parts := Split(encoded, '$');
    if |parts| != 6 || parts[1] != "argon2id" then Invalid
    else
      var version, params := ScanVersion(parts[2], "v=", 0x8000_0000_0000_0000), ParseParams(parts[3]);
      var salt, key := Decode(parts[4]), Decode(parts[5]);
      if version.Failed? || params.None? || salt.None? || key.None? then Invalid
      else Hash(version.value, params.value.0, params.value.1, params.value.2, salt.value, key.value)
  }

  /** None is an error; otherwise whether the password matches. */
  function VerifyPassword(password: Bytes, encoded: string, argon: Argon): Option<bool> {
    var h := Parse(encoded);
    if h.Invalid? then None else Some(argon(password, h.salt, h.t, h.mem, h.p, |h.key|) == h.key)
  }

  lemma {:induction false} DecimalHasNoDollar(n: nat)
    ensures '$' !in Decimal(n)
  {
    assert Max(1, Width(n)) == Width(n);
    FixedDigits(Width(n), n);
  }

  lemma PartsHaveNoDollar(version: nat, mem: nat, t: nat, p: nat, salt: Bytes, key: Bytes)
    ensures forall i | 0 <= i < 6 :: '$' !in Parts(version, mem, t, p, salt, key)[i]
  {
    DecimalHasNoDollar(version);
    DecimalHasNoDollar(mem);
    DecimalHasNoDollar(t);
    DecimalHasNoDollar(p);
    Base64RoundTrip(salt);
    Base64RoundTrip(key);
  }

  lemma ParamsReadBack(mem: nat, t: nat, p: nat)
    requires mem < 0x1_0000_0000 && t < 0x1_0000_0000 && p < 256
    ensures ParseParams(Params(mem, t, p)) == Some((mem, t, p))
  {
    FieldReadsBack("m=", mem, ",t=" + (Decimal(t) + (",p=" + Decimal(p))), 0x1_0000_0000);
    FieldReadsBack(",t=", t, ",p=" + Decimal(p), 0x1_0000_0000);
    LastFieldReadsBack(",p=", p, 256);
  }

  /** Splitting, the decimal fields and base64 recover every printed field, for any salt and key
      and any parameters in range. */
  lemma ParseReadsPrinted(version: nat, mem: nat, t: nat, p: nat, salt: Bytes, key: Bytes)
    requires version < 0x8000_0000_0000_0000 && mem < 0x1_0000_0000 && t < 0x1_0000_0000 && p < 256
    ensures Parse(Printed(version, mem, t, p, salt, key)) == Hash(version, mem, t, p, salt, key)
  {
    PartsHaveNoDollar(version, mem, t, p, salt, key);
    SplitJoined(Parts(version, mem, t, p, salt, key), '$');
    LastFieldReadsBack("v=", version, 0x8000_0000_0000_0000);
    ParamsReadBack(mem, t, p);
    Base64RoundTrip(salt);
    Base64RoundTrip(key);
  }

  /** Checking p against the hash of q never errs, and succeeds exactly when the key derivations
      of p and q under the stored salt and parameters agree. */
  lemma VerifyAcceptsEqualKeys(p: Bytes, q: Bytes, salt: Bytes, argon: Argon)
    requires |argon(q, salt, ARGON_TIME, ARGON_MEMORY, ARGON_THREADS, ARGON_KEY_LEN)| == ARGON_KEY_LEN
    ensures VerifyPassword(p, HashPassword(q, salt, argon), argon) ==
            Some(argon(p, salt, ARGON_TIME, ARGON_MEMORY, ARGON_THREADS, ARGON_KEY_LEN)
                 == argon(q, salt, ARGON_TIME, ARGON_MEMORY, ARGON_THREADS, ARGON_KEY_LEN))
  {
    ParseReadsPrinted(ARGON_VERSION, ARGON_MEMORY, ARGON_TIME, ARGON_THREADS, salt,
                      argon(q, salt, ARGON_TIME, ARGON_MEMORY, ARGON_THREADS, ARGON_KEY_LEN));
  }

  lemma DigitsOfMemory()
    ensures Decimal(65536) == "65536"
  {
    assert Fixed(0, 0) == "" && Fixed(1, 6) == "6" && Fixed(2, 65) == "65" && Fixed(3, 655) == "655";
    assert Fixed(4, 6553) == "6553" && Fixed(5, 65536) == "65536";
    assert Width(6) == 1 && Width(65) == 2 && Width(655) == 3 && Width(6553) == 4 && Width(65536) == 5;
  }

  lemma DigitsOfTheRest()
    ensures Decimal(19) == "19" && Decimal(1) == "1" && Decimal(4) == "4"
  {
    assert Fixed(0, 0) == "" && Fixed(1, 1) == "1" && Fixed(2, 19) == "19" && Fixed(1, 4) == "4";
    assert Width(1) == 1 && Width(19) == 2 && Width(4) == 1;
  }

  /** Two stages of one text. */
  lemma Regrouped(a: string, b: string, c: string, d: string, e: string, f: string, sep: string, front: string)
    requires front == a + sep + b + sep + c + sep + d + sep
    ensures a + sep + (b + sep + (c + sep + (d + sep + (e + sep + f)))) == front + e + sep + f
  {
  }

  /** The printed form of a hash. */
  lemma HashIsPrintedAs(password: Bytes, salt: Bytes, argon: Argon)
    ensures HashPassword(password, salt, argon) ==
            "$argon2id$v=19$m=65536,t=1,p=4$" + Encode(salt) + "$" + Encode(argon(password, salt, 1, 65536, 4, 32))
  {
    DigitsOfMemory();
    DigitsOfTheRest();
    var e, f := Encode(salt), Encode(argon(password, salt, 1, 65536, 4, 32));
    var parts := Parts(19, 65536, 1, 4, salt, argon(password, salt, 1, 65536, 4, 32));
    JoinedSix(parts, '$');
    PrintedFront();
    Regrouped("", "argon2id", "v=19", "m=65536,t=1,p=4", e, f, "$", "$argon2id$v=19$m=65536,t=1,p=4$");
  }

  lemma PrintedFront()
    ensures "" + "$" + "argon2id" + "$" + "v=19" + "$" + "m=65536,t=1,p=4" + "$" == "$argon2id$v=19$m=65536,t=1,p=4$"
    ensures "v=" + "19" == "v=19"
    ensures "m=" + ("65536" + (",t=" + ("1" + (",p=" + "4")))) == "m=65536,t=1,p=4"
  {
  }

  lemma JoinedSix(parts: seq<string>, sep: char)
    requires |parts| == 6
    ensures Joined(parts, sep) ==
            parts[0] + [sep] + (parts[1] + [sep] + (parts[2] + [sep] +
            (parts[3] + [sep] + (parts[4] + [sep] + parts[5]))))
  {
    assert Joined(parts[1..][1..][1..][1..], sep) == parts[4] + [sep] + Joined(parts[1..][1..][1..][1..][1..], sep);
    assert Joined(parts[1..][1..][1..], sep) == parts[3] + [sep] + Joined(parts[1..][1..][1..][1..], sep);
    assert Joined(parts[1..][1..], sep) == parts[2] + [sep] + Joined(parts[1..][1..][1..], sep);
    assert Joined(parts[1..], sep) == parts[1] + [sep] + Joined(parts[1..][1..], sep);
  }

  /** A text without exactly five dollar signs, or with another name between the first two, is
      an error and not a mismatch. */
  lemma WrongShapeIsAnError(password: Bytes, encoded: string, argon: Argon)
    ensures multiset(encoded)['$'] != 5 ==> VerifyPassword(password, encoded, argon).None?
    ensures VerifyPassword(password, encoded, argon).Some? ==>
              |Split(encoded, '$')| == 6 && Split(encoded, '$')[1] == "argon2id"
  {
    SplitCount(encoded, '$');
  }
}
