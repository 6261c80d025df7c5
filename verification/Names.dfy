/** The names the spool gives its event files, and the text order the drain sorts them in. */
module Names {
  import opened Text

  const DOT_JSON := ".json"

  /** A nanosecond clock reading (after 1970) prints in at most 20 digits. */
  ghost predicate ClockReading(t: nat) { t < Pow10(20) }

  /** "%020d-%06d.json" */
  function FileName(time: nat, seq_: nat): string {
    Padded(20, time) + ("-" + (Padded(6, seq_) + DOT_JSON))
  }

  /** Text order of the sequence parts of two names with the same time: the shorter
      number is compared with the leading digits of the longer one. */
  ghost predicate SeqBefore(a: nat, b: nat) {
    var w, v := Max(6, Width(a)), Max(6, Width(b));
    if w < v then a <= DropDigits(b, v - w)
    else if v < w then DropDigits(a, w - v) < b
    else a < b
  }

  /** A longer number splits into its leading digits and a rest that starts with a digit,
      which sorts after the '.' that ends the shorter number. */
  lemma LongerSplits(w: nat, k: nat, n: nat) returns (rest: string)
    requires k > 0
    ensures Fixed(w + k, n) + DOT_JSON == Fixed(w, DropDigits(n, k)) + rest
    ensures Less(DOT_JSON, rest) && !Less(rest, DOT_JSON)
  {
    var all := Fixed(w + k, n);
    FixedPrefix(w, k, n);
    FixedDigits(w + k, n);
    rest := all[w..] + DOT_JSON;
    assert all == all[..w] + all[w..];
    assert rest[0] == all[w] && '0' <= all[w];
    assert DOT_JSON[0] == '.';
  }

  lemma ShorterVersusLonger(w: nat, m: nat, k: nat, n: nat)
    requires k > 0 && m < Pow10(w) && n < Pow10(w + k)
    ensures Less(Fixed(w, m) + DOT_JSON, Fixed(w + k, n) + DOT_JSON) <==> m <= DropDigits(n, k)
    ensures Less(Fixed(w + k, n) + DOT_JSON, Fixed(w, m) + DOT_JSON) <==> DropDigits(n, k) < m
  {
    var d := DropDigits(n, k);
    var rest := LongerSplits(w, k, n);
    DropDigitsBound(w, k, n);
    FixedOrder(w, m, d);
    FixedOrder(w, d, m);
    LessAppend(Fixed(w, m), Fixed(w, d), DOT_JSON, rest);
    LessAppend(Fixed(w, d), Fixed(w, m), rest, DOT_JSON);
  }

  lemma SeqPartOrder(a: nat, b: nat)
    ensures Less(Padded(6, a) + DOT_JSON, Padded(6, b) + DOT_JSON) <==> SeqBefore(a, b)
  {
    var w, v := Max(6, Width(a)), Max(6, Width(b));
    Pow10Monotone(Width(a), w);
    Pow10Monotone(Width(b), v);
    if w < v {
      ShorterVersusLonger(w, a, v - w, b);
    } else if v < w {
      ShorterVersusLonger(v, b, w - v, a);
    } else {
      FixedOrder(w, a, b);
      LessAppend(Fixed(w, a), Fixed(w, b), DOT_JSON, DOT_JSON);
      LessIrreflexive(DOT_JSON);
    }
  }

  /** The exact text order of spool names: by time, then by SeqBefore. */
  lemma {:induction false} NameOrder(t1: nat, s1: nat, t2: nat, s2: nat)
    requires ClockReading(t1) && ClockReading(t2)
    ensures Less(FileName(t1, s1), FileName(t2, s2)) <==> t1 < t2 || (t1 == t2 && SeqBefore(s1, s2))
  {
    WidthBound(t1, 20);
    WidthBound(t2, 20);
    var a, b := Padded(6, s1) + DOT_JSON, Padded(6, s2) + DOT_JSON;
    LessAppend(Fixed(20, t1), Fixed(20, t2), "-" + a, "-" + b);
    LessAppend("-", "-", a, b);
    LessIrreflexive("-");
    FixedOrder(20, t1, t2);
    SeqPartOrder(s1, s2);
  }

  /** While the times differ or both counters stay below a million, text order is (time, seq) order. */
  lemma {:induction false} NameOrderIsStampOrder(t1: nat, s1: nat, t2: nat, s2: nat)
    requires ClockReading(t1) && ClockReading(t2)
    requires t1 != t2 || (s1 < 1_000_000 && s2 < 1_000_000)
    ensures Less(FileName(t1, s1), FileName(t2, s2)) <==> t1 < t2 || (t1 == t2 && s1 < s2)
  {
    NameOrder(t1, s1, t2, s2);
    assert Pow10(6) == 1_000_000;
    WidthBound(s1, 6);
    WidthBound(s2, 6);
  }

  /** Past a million the counter outgrows its padding: number 1000000 sorts before 999999. */
  lemma {:induction false} OrderBreaksAtAMillion(t: nat)
    requires ClockReading(t)
    ensures Less(FileName(t, 1_000_000), FileName(t, 999_999))
  {
    NameOrder(t, 1_000_000, t, 999_999);
    WidthBound(999_999, 6);
    WidthBound(1_000_000, 6);
    WidthBound(1_000_000, 7);
    assert Pow10(6) == 1_000_000 && Pow10(7) == 10_000_000;
    assert DropDigits(1_000_000, 1) == 100_000;
  }

  /** Two names are equal only for the same time and the same counter, however large. */
  lemma NamesUnique(t1: nat, s1: nat, t2: nat, s2: nat)
    requires ClockReading(t1) && ClockReading(t2)
    ensures FileName(t1, s1) == FileName(t2, s2) <==> t1 == t2 && s1 == s2
  {
    if FileName(t1, s1) == FileName(t2, s2) {
      LessIrreflexive(FileName(t1, s1));
      NameOrder(t1, s1, t2, s2);
      NameOrder(t2, s2, t1, s1);
      WidthBound(t1, 20);
      WidthBound(t2, 20);
      assert |Padded(20, t1)| == 20 && |Padded(20, t2)| == 20;
      assert |Padded(6, s1)| == |Padded(6, s2)|;
    }
  }
}
