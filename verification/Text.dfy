// Byte-order comparison of text, and the decimal and hexadecimal printers the system relies on.
module Text {
  import opened Basics

  // ---------- Order ----------

  /** Strict lexicographic order. On UTF-8 text byte order and scalar-value order coincide. */
  predicate Less(a: string, b: string) {
    b != [] && (a == [] || a[0] < b[0] || (a[0] == b[0] && Less(a[1..], b[1..])))
  }

  lemma {:induction false} LessIsAsymmetric(a: string, b: string)
    requires Less(a, b)
    ensures a != b && !Less(b, a)
  {
    if a != [] && a[0] == b[0] { LessIsAsymmetric(a[1..], b[1..]); }
  }

  lemma LessIsIrreflexive(a: string)
    ensures !Less(a, a)
  {
    if Less(a, a) { LessIsAsymmetric(a, a); }
  }

  lemma {:induction false} LessIsTotal(a: string, b: string)
    requires a != b
    ensures Less(a, b) || Less(b, a)
  {
    if a != [] && b != [] && a[0] == b[0] {
      assert a == [a[0]] + a[1..] && b == [b[0]] + b[1..];
      LessIsTotal(a[1..], b[1..]);
    }
  }

  lemma {:induction false} LessIsTransitive(a: string, b: string, c: string)
    requires Less(a, b) && Less(b, c)
    ensures Less(a, c)
  {
    if a != [] && a[0] == b[0] && b[0] == c[0] { LessIsTransitive(a[1..], b[1..], c[1..]); }
  }

  /** Equal-length first fields decide the order unless they are equal. */
  lemma {:induction false} LessByField(p: string, x: string, q: string, y: string)
    requires |p| == |q|
    ensures Less(p + x, q + y) <==> Less(p, q) || (p == q && Less(x, y))
  {
    if p == [] {
      assert p + x == x && q + y == y;
    } else {
      assert (p + x)[1..] == p[1..] + x && (q + y)[1..] == q[1..] + y;
      LessByField(p[1..], x, q[1..], y);
      assert p == [p[0]] + p[1..] && q == [q[0]] + q[1..];
    }
  }

  // ---------- Digits ----------

  function Digit(d: nat): (c: char)
    requires d < 10
    ensures '0' <= c <= '9'
  {
    (48 + d) as char
  }

  predicate IsDigit(c: char) { '0' <= c <= '9' }

  predicate AllDigits(s: string) { forall i :: 0 <= i < |s| ==> IsDigit(s[i]) }

  function DigitsValue(s: string): nat
    requires AllDigits(s)
  {
    if s == [] then 0 else 10 * DigitsValue(s[..|s| - 1]) + (s[|s| - 1] as int - 48)
  }

  lemma DigitsValueSnoc(s: string, d: nat)
    requires AllDigits(s) && d < 10
    ensures AllDigits(s + [Digit(d)])
    ensures DigitsValue(s + [Digit(d)]) == 10 * DigitsValue(s) + d
  {
    assert (s + [Digit(d)])[..|s|] == s;
  }

  function Pow10(w: nat): nat { if w == 0 then 1 else 10 * Pow10(w - 1) }

  /** Fixed-width decimal, as `{:0w}` prints a value that fits. */
  function Pad(w: nat, n: nat): (s: string)
    ensures |s| == w && AllDigits(s)
  {
    if w == 0 then "" else Pad(w - 1, n / 10) + [Digit(n % 10)]
  }

  lemma {:induction false} PadValue(w: nat, n: nat)
    requires n < Pow10(w)
    ensures DigitsValue(Pad(w, n)) == n
  {
    if w > 0 {
      PadValue(w - 1, n / 10);
      DigitsValueSnoc(Pad(w - 1, n / 10), n % 10);
    }
  }

  lemma {:induction false} PadOrder(w: nat, m: nat, n: nat)
    requires m < Pow10(w) && n < Pow10(w)
    ensures Less(Pad(w, m), Pad(w, n)) <==> m < n
  {
    if w > 0 {
      PadOrder(w - 1, m / 10, n / 10);
      PadValue(w - 1, m / 10);
      PadValue(w - 1, n / 10);
      LessByField(Pad(w - 1, m / 10), [Digit(m % 10)], Pad(w - 1, n / 10), [Digit(n % 10)]);
    }
  }

  /** A fixed-width decimal field in front of two texts decides their order, or passes it on. */
  lemma FieldOrder(w: nat, m: nat, x: string, n: nat, y: string)
    requires m < Pow10(w) && n < Pow10(w)
    ensures Less(Pad(w, m) + x, Pad(w, n) + y) <==> m < n || (m == n && Less(x, y))
  {
    PadOrder(w, m, n);
    PadValue(w, m);
    PadValue(w, n);
    LessByField(Pad(w, m), x, Pad(w, n), y);
  }

  /** Shortest decimal, as `to_string` prints an unsigned integer. */
  function Decimal(n: nat): (s: string)
    ensures s != "" && AllDigits(s)
  {
    if n < 10 then [Digit(n)] else Decimal(n / 10) + [Digit(n % 10)]
  }

  lemma {:induction false} DecimalValue(n: nat)
    ensures DigitsValue(Decimal(n)) == n
  {
    if n < 10 {
      DigitsValueSnoc([], n);
      assert [] + [Digit(n)] == [Digit(n)];
    } else {
      DecimalValue(n / 10);
      DigitsValueSnoc(Decimal(n / 10), n % 10);
    }
  }

  function SignedDecimal(n: int): string {
    if n < 0 then "-" + Decimal(-n) else Decimal(n)
  }

  // ---------- usize::from_str ----------

  const USIZE_LIMIT: nat := 0x1_0000_0000_0000_0000

  /** Rust's unsigned parser on a 64-bit target: an optional `+`, at least one digit, no overflow. */
  function ParseUsize(s: string): Option<nat> {
    var digits := if s != [] && s[0] == '+' then s[1..] else s;
    if digits == [] || !AllDigits(digits) || DigitsValue(digits) >= USIZE_LIMIT then None
    else Some(DigitsValue(digits))
  }

  lemma ParsePrintedUsize(n: nat)
    requires n < USIZE_LIMIT
    ensures ParseUsize(Decimal(n)) == Some(n)
  {
    DecimalValue(n);
    assert IsDigit(Decimal(n)[0]);
  }

  function Zeros(k: nat): (s: string)
    ensures |s| == k && AllDigits(s)
  {
    seq(k, _ => '0')
  }

  lemma DecimalSnoc(v: nat, d: nat)
    requires d < 10
    ensures Decimal(10 * v + d) == if v == 0 then [Digit(d)] else Decimal(v) + [Digit(d)]
  {
    assert (10 * v + d) / 10 == v && (10 * v + d) % 10 == d;
  }

  /** Digits are the shortest decimal of their value after some zeros. */
  lemma {:induction false} DigitsAre(s: string) returns (k: nat)
    requires s != "" && AllDigits(s)
    ensures s == Zeros(k) + Decimal(DigitsValue(s))
  {
    var n := |s| - 1;
    var d: nat := s[n] as int - 48;
    assert s == s[..n] + [Digit(d)];
    if n == 0 {
      k := 0;
      assert DigitsValue(s[..0]) == 0;
      DecimalSnoc(0, d);
    } else {
      k := DigitsAre(s[..n]);
      var v := DigitsValue(s[..n]);
      assert DigitsValue(s) == 10 * v + d;
      DecimalSnoc(v, d);
      hide DigitsValue;
      if v == 0 {
        DecimalSnoc(0, 0);
        hide Decimal;
        assert Zeros(k) + [Digit(0)] == Zeros(k + 1);
        k := k + 1;
      } else {
        hide Decimal;
        assert s == Zeros(k) + (Decimal(v) + [Digit(d)]);
      }
    }
  }

  lemma {:induction false} ZerosValue(k: nat, s: string)
    requires AllDigits(s)
    ensures DigitsValue(Zeros(k) + s) == DigitsValue(s)
    decreases |s|, k
  {
    if s != "" {
      assert (Zeros(k) + s)[..k + |s| - 1] == Zeros(k) + s[..|s| - 1];
      ZerosValue(k, s[..|s| - 1]);
    } else if k > 0 {
      assert (Zeros(k) + s)[..k - 1] == Zeros(k - 1) + s;
      ZerosValue(k - 1, s);
    } else {
      assert Zeros(0) + s == s;
    }
  }

  /** The texts accepted: a printed number that fits, perhaps after zeros, perhaps after one plus sign. */
  lemma ParseUsizeIff(s: string, n: nat)
    ensures ParseUsize(s) == Some(n) <==>
      n < 0x1_0000_0000_0000_0000 && exists k :: s == Zeros(k) + Decimal(n) || s == "+" + (Zeros(k) + Decimal(n))
  {
    var digits := if s != [] && s[0] == '+' then s[1..] else s;
    if ParseUsize(s) == Some(n) {
      var k := DigitsAre(digits);
      assert s == Zeros(k) + Decimal(n) || s == "+" + (Zeros(k) + Decimal(n));
    }
    if k: nat :| n < USIZE_LIMIT && (s == Zeros(k) + Decimal(n) || s == "+" + (Zeros(k) + Decimal(n))) {
      assert IsDigit((Zeros(k) + Decimal(n))[0]);
      assert ("+" + (Zeros(k) + Decimal(n)))[1..] == Zeros(k) + Decimal(n);
      DecimalValue(n);
      ZerosValue(k, Decimal(n));
    }
  }

  // ---------- UUID text ----------

  function HexDigit(d: nat): (c: char)
    requires d < 16
    ensures d < 10 ==> c == Digit(d)
    ensures d >= 10 ==> 'a' <= c <= 'f'
  {
    if d < 10 then Digit(d) else (87 + d) as char
  }

  function HexText(ds: seq<nat>): (s: string)
    requires forall i :: 0 <= i < |ds| ==> ds[i] < 16
    ensures |s| == |ds|
  {
    seq(|ds|, i requires 0 <= i < |ds| => HexDigit(ds[i]))
  }

  /** Hyphenated lower-case form. */
  function UuidText(u: Uuid): string {
    HexText(u[..8]) + "-" + HexText(u[8..12]) + "-" + HexText(u[12..16]) + "-" + HexText(u[16..20]) + "-"
        + HexText(u[20..])
  }

  function UuidColumn(i: nat): nat
    requires i < 32
  {
    if i < 8 then i else if i < 12 then i + 1 else if i < 16 then i + 2 else if i < 20 then i + 3 else i + 4
  }

  /** Groups of 8, 4, 4, 4 and 12 digits. */
  lemma UuidTextAt(u: Uuid, i: nat)
    requires i < 32
    ensures |UuidText(u)| == 36 && UuidText(u)[UuidColumn(i)] == HexDigit(u[i])
    ensures UuidText(u)[8] == UuidText(u)[13] == UuidText(u)[18] == UuidText(u)[23] == '-'
  {
  }

  lemma UuidTextInjective(u: Uuid, v: Uuid)
    requires UuidText(u) == UuidText(v)
    ensures u == v
  {
    forall i | 0 <= i < 32 ensures u[i] == v[i] {
      UuidTextAt(u, i);
      UuidTextAt(v, i);
    }
  }
}
