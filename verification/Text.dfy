/**
 Strings as the server compares and prints them: the lexicographic order of
 Rust's `str`, decimal formatting, and the integer parser of its `FromStr`.
 */
module Text {

  datatype Option<+T> = None | Some(value: T)

  const U64: nat := 0x1_0000_0000_0000_0000

  // ---------------------------------------------------------------------
  // Order
  // ---------------------------------------------------------------------

  /** `a < b` on strings. Code-point order is the byte order of UTF-8. */
  predicate Less(a: string, b: string) {
    b != "" && (a == "" || a[0] < b[0] || (a[0] == b[0] && Less(a[1..], b[1..])))
  }

  lemma {:induction false} LessIsTotal(a: string, b: string)
    ensures Less(a, b) || Less(b, a) || a == b
  {
    if a != "" && b != "" && a[0] == b[0] {
      LessIsTotal(a[1..], b[1..]);
      assert a == [a[0]] + a[1..] && b == [b[0]] + b[1..];
    }
  }

  lemma {:induction false} LessIsTransitive(a: string, b: string, c: string)
    requires Less(a, b) && Less(b, c)
    ensures Less(a, c)
  {
    if a != "" && a[0] == b[0] == c[0] {
      LessIsTransitive(a[1..], b[1..], c[1..]);
    }
  }

  lemma {:induction false} LessIsAsymmetric(a: string, b: string)
    requires Less(a, b)
    ensures !Less(b, a) && a != b
  {
    if a != "" && a[0] == b[0] {
      LessIsAsymmetric(a[1..], b[1..]);
    }
  }

  /** Behind equal-length fronts, the fronts decide and then the backs do. */
  lemma {:induction false} LessOfConcat(a: string, b: string, x: string, y: string)
    requires |a| == |b|
    ensures Less(a + x, b + y) <==> Less(a, b) || (a == b && Less(x, y))
  {
    if a == "" {
      assert a + x == x && b + y == y;
    } else {
      assert (a + x)[1..] == a[1..] + x && (b + y)[1..] == b[1..] + y;
      assert a == [a[0]] + a[1..] && b == [b[0]] + b[1..];
      LessOfConcat(a[1..], b[1..], x, y);
    }
  }

  // ---------------------------------------------------------------------
  // Decimal
  // ---------------------------------------------------------------------

  predicate IsDigit(c: char) {
    '0' <= c <= '9'
  }

  function Digit(d: nat): (c: char)
    requires d < 10
    ensures IsDigit(c) && c as int - '0' as int == d
  {
    ('0' as int + d) as char
  }

  /** `n.to_string()` */
  function Format(n: nat): (s: string)
    ensures s != "" && forall c :: c in s ==> IsDigit(c)
  {
    if n < 10 then [Digit(n)] else Format(n / 10) + [Digit(n % 10)]
  }

  /** The number a run of digits denotes. */
  function Value(s: string): nat
    requires forall c :: c in s ==> IsDigit(c)
  {
    if s == "" then 0
    else
      assert IsDigit(s[|s| - 1]);
      10 * Value(s[..|s| - 1]) + (s[|s| - 1] as int - '0' as int)
  }

  /** `s.parse::<u64>()`: an optional `+`, then one or more digits, in range. */
  function ParseU64(s: string): Option<nat> {
    var digits := if s != "" && s[0] == '+' then s[1..] else s;
    if digits != "" && (forall c :: c in digits ==> IsDigit(c)) && Value(digits) < U64
    then Some(Value(digits))
    else None
  }

  lemma {:induction false} ValueOfFormat(n: nat)
    ensures Value(Format(n)) == n
  {
    var s := Format(n);
    if n >= 10 {
      assert s[..|s| - 1] == Format(n / 10);
      ValueOfFormat(n / 10);
    }
  }

  lemma ParseOfFormat(n: nat)
    requires n < U64
    ensures ParseU64(Format(n)) == Some(n)
  {
    ValueOfFormat(n);
    assert Format(n)[0] in Format(n);
  }

  lemma {:induction false} LeadingZero(digits: string)
    requires forall c :: c in digits ==> IsDigit(c)
    ensures Value("0" + digits) == Value(digits)
  {
    if digits == "" {
      assert "0" + digits == "0" && "0"[..0] == "";
    } else {
      var n := |digits| - 1;
      LeadingZero(digits[..n]);
      assert ("0" + digits)[..n + 1] == "0" + digits[..n];
    }
  }

  /** The parser takes a leading zero and a leading plus. */
  lemma ParseOfSpellings(n: nat)
    requires n < U64
    ensures ParseU64("0" + Format(n)) == Some(n) == ParseU64("+" + Format(n))
  {
    var digits := Format(n);
    ValueOfFormat(n);
    LeadingZero(digits);
    var zero, plus := "0" + digits, "+" + digits;
    assert zero[0] == '0' && plus[0] == '+' && plus[1..] == digits;
  }

  lemma FormatIsInjective(a: nat, b: nat)
    requires Format(a) == Format(b)
    ensures a == b
  {
    ValueOfFormat(a);
    ValueOfFormat(b);
  }

  /** `format!("{:0width$}", n)` */
  function ZeroPad(n: nat, width: nat): string {
    Zeros(width - |Format(n)|) + Format(n)
  }

  function Zeros(count: int): (s: string)
    ensures |s| == if count > 0 then count else 0
    ensures forall c :: c in s ==> c == '0'
  {
    seq(if count > 0 then count else 0, _ => '0')
  }

  function Pow10(e: nat): nat {
    if e == 0 then 1 else 10 * Pow10(e - 1)
  }

  lemma {:induction false} ZeroPadStep(n: nat, width: nat)
    requires width > 0 && n < Pow10(width)
    ensures |ZeroPad(n, width)| == width
    ensures width > 1 ==> ZeroPad(n, width) == ZeroPad(n / 10, width - 1) + [Digit(n % 10)]
    ensures width == 1 ==> ZeroPad(n, width) == [Digit(n)]
  {
    if width > 1 {
      ZeroPadStep(n / 10, width - 1);
      if n < 10 {
        assert Zeros(width - 1) == Zeros(width - 2) + "0";
      } else {
        assert ZeroPad(n, width) ==
               Zeros(width - 1 - |Format(n / 10)|) + Format(n / 10) + [Digit(n % 10)];
      }
    }
  }

  /** Fixed-width numbers sort as numbers. */
  lemma {:induction false} ZeroPadOrder(a: nat, b: nat, width: nat)
    requires width > 0 && a < Pow10(width) && b < Pow10(width)
    ensures |ZeroPad(a, width)| == |ZeroPad(b, width)| == width
    ensures Less(ZeroPad(a, width), ZeroPad(b, width)) <==> a < b
    ensures ZeroPad(a, width) == ZeroPad(b, width) <==> a == b
  {
    ZeroPadStep(a, width);
    ZeroPadStep(b, width);
    if width > 1 {
      ZeroPadOrder(a / 10, b / 10, width - 1);
      LessOfConcat(ZeroPad(a / 10, width - 1), ZeroPad(b / 10, width - 1),
                   [Digit(a % 10)], [Digit(b % 10)]);
      assert ZeroPad(a, width)[..width - 1] == ZeroPad(a / 10, width - 1);
      assert ZeroPad(b, width)[..width - 1] == ZeroPad(b / 10, width - 1);
      assert ZeroPad(a, width)[width - 1] == Digit(a % 10);
      assert ZeroPad(b, width)[width - 1] == Digit(b % 10);
    }
  }

  /** Fixed-width numbers read as what they print. */
  lemma {:induction false} ZeroPadValue(n: nat, width: nat)
    requires width > 0 && n < Pow10(width)
    ensures |ZeroPad(n, width)| == width
    ensures forall c :: c in ZeroPad(n, width) ==> IsDigit(c)
    ensures Value(ZeroPad(n, width)) == n
  {
    ZeroPadStep(n, width);
    var s := ZeroPad(n, width);
    assert s == s[..width - 1] + [s[width - 1]];
    if width > 1 {
      ZeroPadValue(n / 10, width - 1);
      assert s[..width - 1] == ZeroPad(n / 10, width - 1);
    } else {
      assert s[..0] == "";
    }
  }
}
