/**
 The URL-safe base64 alphabet without padding, sections 3.2 and 5 of RFC 4648,
 as the cursor codec uses it: no `=`, and no stray bits in the last symbol.
 */
module Base64Url {
  import opened Text

  type Byte = b: nat | b < 256
  type Six = n: nat | n < 64

  // ---------------------------------------------------------------------
  // Bytes and groups of six bits
  // ---------------------------------------------------------------------

  function Split(b: seq<Byte>): seq<Six> {
    if |b| == 0 then []
    else if |b| == 1 then [b[0] / 4, b[0] % 4 * 16]
    else if |b| == 2 then [b[0] / 4, b[0] % 4 * 16 + b[1] / 16, b[1] % 16 * 4]
    else
      [b[0] / 4, b[0] % 4 * 16 + b[1] / 16, b[1] % 16 * 4 + b[2] / 64, b[2] % 64] + Split(b[3..])
  }

  function First(p: nat, q: nat): Byte
    requires p < 64 && q < 64
  {
    p * 4 + q / 16
  }

  function Second(q: nat, r: nat): Byte
    requires q < 64 && r < 64
  {
    q % 16 * 16 + r / 4
  }

  function Third(r: nat, t: nat): Byte
    requires r < 64 && t < 64
  {
    r % 4 * 64 + t
  }

  function Join(s: seq<Six>): Option<seq<Byte>> {
    if |s| == 0 then Some([])
    else if |s| == 1 then None
    else if |s| == 2 then
      if s[1] % 16 == 0 then Some([First(s[0], s[1])]) else None
    else if |s| == 3 then
      if s[2] % 4 == 0 then Some([First(s[0], s[1]), Second(s[1], s[2])]) else None
    else
      match Join(s[4..])
      case None => None
      case Some(rest) =>
        Some([First(s[0], s[1]), Second(s[1], s[2]), Third(s[2], s[3])] + rest)
  }

  lemma BitsRegroup(a: Byte, b: Byte, c: Byte)
    ensures var q, r := a % 4 * 16 + b / 16, b % 16 * 4 + c / 64;
            && q < 64 && r < 64
            && First(a / 4, q) == a && Second(q, r) == b && Third(r, c % 64) == c
  {
  }

  lemma JoinOfGroup(p: Six, q: Six, r: Six, t: Six, tail: seq<Six>)
    requires Join(tail).Some?
    ensures Join([p, q, r, t] + tail) ==
            Some([First(p, q), Second(q, r), Third(r, t)] + Join(tail).value)
  {
    var s := [p, q, r, t] + tail;
    assert s[4..] == tail;
  }

  lemma PaddingIsZero(n: Byte)
    ensures n % 4 * 16 % 16 == 0 && n % 16 * 4 % 4 == 0
  {
  }

  lemma JoinOfOne(a: Byte)
    ensures Join(Split([a])) == Some([a])
  {
    var s := Split([a]);
    assert s[0] == a / 4 && s[1] == a % 4 * 16;
    PaddingIsZero(a);
    BitsRegroup(a, 0, 0);
  }

  lemma JoinOfTwo(a: Byte, b: Byte)
    ensures Join(Split([a, b])) == Some([a, b])
  {
    var s := Split([a, b]);
    var q := a % 4 * 16 + b / 16;
    assert s[0] == a / 4 && s[1] == q && s[2] == b % 16 * 4;
    PaddingIsZero(b);
    BitsRegroup(a, b, 0);
  }

  lemma {:induction false} JoinOfSplit(b: seq<Byte>)
    ensures Join(Split(b)) == Some(b)
  {
    if |b| == 0 {
    } else if |b| == 1 {
      JoinOfOne(b[0]);
      assert b == [b[0]];
    } else if |b| == 2 {
      JoinOfTwo(b[0], b[1]);
      assert b == [b[0], b[1]];
    } else {
      BitsRegroup(b[0], b[1], b[2]);
      JoinOfSplit(b[3..]);
      JoinOfGroup(b[0] / 4, b[0] % 4 * 16 + b[1] / 16, b[1] % 16 * 4 + b[2] / 64, b[2] % 64,
                  Split(b[3..]));
      assert b == [b[0], b[1], b[2]] + b[3..];
    }
  }

  lemma BitsUngroup(p: Six, q: Six, r: Six, t: Six)
    ensures var a, b, c := First(p, q), Second(q, r), Third(r, t);
            a / 4 == p && a % 4 * 16 + b / 16 == q && b % 16 * 4 + c / 64 == r && c % 64 == t
  {
  }

  lemma SplitOfGroup(a: Byte, b: Byte, c: Byte, tail: seq<Byte>)
    ensures Split([a, b, c] + tail) ==
            [a / 4, a % 4 * 16 + b / 16, b % 16 * 4 + c / 64, c % 64] + Split(tail)
  {
    assert ([a, b, c] + tail)[3..] == tail;
  }

  lemma {:induction false} SplitOfJoin(s: seq<Six>)
    requires Join(s).Some?
    ensures Split(Join(s).value) == s
  {
    if |s| == 2 {
      BitsUngroup(s[0], s[1], 0, 0);
    } else if |s| == 3 {
      BitsUngroup(s[0], s[1], s[2], 0);
    } else if |s| > 3 {
      SplitOfJoin(s[4..]);
      BitsUngroup(s[0], s[1], s[2], s[3]);
      SplitOfGroup(First(s[0], s[1]), Second(s[1], s[2]), Third(s[2], s[3]), Join(s[4..]).value);
      assert s == [s[0], s[1], s[2], s[3]] + s[4..];
    }
  }

  // ---------------------------------------------------------------------
  // The alphabet
  // ---------------------------------------------------------------------

  function Symbol(n: Six): char {
    if n < 26 then ('A' as int + n) as char
    else if n < 52 then ('a' as int + n - 26) as char
    else if n < 62 then ('0' as int + n - 52) as char
    else if n == 62 then '-' else '_'
  }

  predicate IsSymbol(c: char) {
    'A' <= c <= 'Z' || 'a' <= c <= 'z' || '0' <= c <= '9' || c == '-' || c == '_'
  }

  function Sextet(c: char): (n: Six)
    requires IsSymbol(c)
    ensures Symbol(n) == c
  {
    if 'A' <= c <= 'Z' then c as int - 'A' as int
    else if 'a' <= c <= 'z' then c as int - 'a' as int + 26
    else if '0' <= c <= '9' then c as int - '0' as int + 52
    else if c == '-' then 62 else 63
  }

  function Symbols(s: seq<Six>): string {
    seq(|s|, i requires 0 <= i < |s| => Symbol(s[i]))
  }

  predicate AllSymbols(text: string) {
    forall i :: 0 <= i < |text| ==> IsSymbol(text[i])
  }

  function Sextets(text: string): seq<Six>
    requires AllSymbols(text)
  {
    seq(|text|, i requires 0 <= i < |text| => Sextet(text[i]))
  }

  lemma SextetsOfSymbols(s: seq<Six>)
    ensures AllSymbols(Symbols(s)) && Sextets(Symbols(s)) == s
  {
  }

  lemma SymbolsOfSextets(text: string)
    requires AllSymbols(text)
    ensures Symbols(Sextets(text)) == text
  {
  }

  // ---------------------------------------------------------------------
  // The codec
  // ---------------------------------------------------------------------

  function Encode(b: seq<Byte>): string {
    Symbols(Split(b))
  }

  function Decode(text: string): Option<seq<Byte>> {
    if AllSymbols(text) then Join(Sextets(text)) else None
  }

  /** The codec is strict: a text decodes to `b` exactly when it is what encoding `b` prints. */
  lemma DecodesExactly(text: string, b: seq<Byte>)
    ensures Decode(text) == Some(b) <==> text == Encode(b)
  {
    JoinOfSplit(b);
    SextetsOfSymbols(Split(b));
    if Decode(text) == Some(b) {
      SplitOfJoin(Sextets(text));
      SymbolsOfSextets(text);
    }
  }

  // ---------------------------------------------------------------------
  // What an encoding says
  // ---------------------------------------------------------------------

  /** A number written in some base, most significant digit first, after `front`. */
  function Number(front: nat, base: nat, digits: seq<nat>): nat
    decreases |digits|
  {
    if digits == [] then front else Number(front * base + digits[0], base, digits[1..])
  }

  lemma NumberStep(front: nat, base: nat, digit: nat, tail: seq<nat>)
    ensures Number(front, base, [digit] + tail) == Number(front * base + digit, base, tail)
  {
    assert ([digit] + tail)[1..] == tail;
  }

  /** `sixes` is `eights` with the zero bits that fill up the last six: none, four or two. */
  predicate Padded(sixes: nat, eights: nat, bytes: nat) {
    sixes == if bytes % 3 == 0 then eights else if bytes % 3 == 1 then eights * 16 else eights * 4
  }

  lemma GroupKeepsNumber(front: nat, a: Byte, b: Byte, c: Byte)
    ensures (((front * 64 + a / 4) * 64 + (a % 4 * 16 + b / 16)) * 64 + (b % 16 * 4 + c / 64)) * 64 + c % 64 ==
            ((front * 256 + a) * 256 + b) * 256 + c
  {
    assert a == 4 * (a / 4) + a % 4 && b == 16 * (b / 16) + b % 16 && c == 64 * (c / 64) + c % 64;
  }

  lemma NumberOfFour(front: nat, p: nat, q: nat, r: nat, t: nat, tail: seq<nat>)
    ensures Number(front, 64, [p, q, r, t] + tail) ==
            Number((((front * 64 + p) * 64 + q) * 64 + r) * 64 + t, 64, tail)
  {
    assert [p, q, r, t] + tail == [p] + ([q] + ([r] + ([t] + tail)));
    NumberStep(front, 64, p, [q] + ([r] + ([t] + tail)));
    NumberStep(front * 64 + p, 64, q, [r] + ([t] + tail));
    NumberStep((front * 64 + p) * 64 + q, 64, r, [t] + tail);
    NumberStep(((front * 64 + p) * 64 + q) * 64 + r, 64, t, tail);
  }

  lemma NumberOfThree(front: nat, b: seq<nat>)
    requires |b| >= 3
    ensures Number(front, 256, b) == Number(((front * 256 + b[0]) * 256 + b[1]) * 256 + b[2], 256, b[3..])
  {
    assert b == [b[0]] + ([b[1]] + ([b[2]] + b[3..]));
    NumberStep(front, 256, b[0], [b[1]] + ([b[2]] + b[3..]));
    NumberStep(front * 256 + b[0], 256, b[1], [b[2]] + b[3..]);
    NumberStep((front * 256 + b[0]) * 256 + b[1], 256, b[2], b[3..]);
  }

  lemma OneByteKeepsNumber(front: nat, a: Byte)
    ensures Number(front, 64, [a / 4, a % 4 * 16]) == Number(front, 256, [a]) * 16
  {
    NumberStep(front, 256, a, []);
    NumberStep(front, 64, a / 4, [a % 4 * 16]);
    NumberStep(front * 64 + a / 4, 64, a % 4 * 16, []);
    assert [a] + [] == [a] && [a / 4] + [a % 4 * 16] == [a / 4, a % 4 * 16];
    assert [a % 4 * 16] + [] == [a % 4 * 16];
  }

  lemma TwoBytesKeepNumber(front: nat, a: Byte, b: Byte)
    ensures Number(front, 64, [a / 4, a % 4 * 16 + b / 16, b % 16 * 4]) == Number(front, 256, [a, b]) * 4
  {
    var p, q, r := a / 4, a % 4 * 16 + b / 16, b % 16 * 4;
    NumberStep(front, 256, a, [b]);
    NumberStep(front * 256 + a, 256, b, []);
    NumberStep(front, 64, p, [q, r]);
    NumberStep(front * 64 + p, 64, q, [r]);
    NumberStep((front * 64 + p) * 64 + q, 64, r, []);
    assert [a] + [b] == [a, b] && [b] + [] == [b];
    assert [p] + [q, r] == [p, q, r] && [q] + [r] == [q, r] && [r] + [] == [r];
    assert a == 4 * (a / 4) + a % 4 && b == 16 * (b / 16) + b % 16;
  }

  /** Three bytes and their four groups leave the same number in front of the rest. */
  lemma ThreeKeepNumber(front: nat, b: seq<Byte>) returns (sofar: nat)
    requires |b| >= 3
    ensures Number(front, 64, Split(b)) == Number(sofar, 64, Split(b[3..]))
    ensures Number(front, 256, b) == Number(sofar, 256, b[3..])
  {
    sofar := ((front * 256 + b[0]) * 256 + b[1]) * 256 + b[2];
    GroupKeepsNumber(front, b[0], b[1], b[2]);
    NumberOfThree(front, b);
    NumberOfFour(front, b[0] / 4, b[0] % 4 * 16 + b[1] / 16, b[1] % 16 * 4 + b[2] / 64, b[2] % 64,
                 Split(b[3..]));
  }

  /** The six-bit groups are the same number as the bytes, but for the padding. */
  lemma {:induction false} SplitKeepsNumber(front: nat, b: seq<Byte>)
    ensures Padded(Number(front, 64, Split(b)), Number(front, 256, b), |b|)
    decreases |b|
  {
    if |b| == 1 {
      OneByteKeepsNumber(front, b[0]);
      assert b == [b[0]];
    } else if |b| == 2 {
      TwoBytesKeepNumber(front, b[0], b[1]);
      assert b == [b[0], b[1]];
    } else if |b| >= 3 {
      var sofar := ThreeKeepNumber(front, b);
      SplitKeepsNumber(sofar, b[3..]);
      assert |b[3..]| % 3 == |b| % 3;
    }
  }

  lemma {:induction false} SplitLength(b: seq<Byte>)
    ensures |Split(b)| == (4 * |b| + 2) / 3
    decreases |b|
  {
    if |b| >= 3 {
      SplitLength(b[3..]);
    }
  }

  /** Table 2 of RFC 4648: A to Z, a to z, 0 to 9, minus and underscore, by their codes. */
  predicate InTheTable(c: char, n: Six) {
    c as int == (if n < 26 then 65 + n else if n < 52 then 71 + n else if n < 62 then n - 4
                 else if n == 62 then 45 else 95)
  }

  /**
   An encoding is the bytes as one number, most significant first, written in base
   64 with the characters of the table: no more of them than it takes, and the
   missing low bits of the last one zero.
   */
  lemma EncodesTheNumber(b: seq<Byte>) returns (digits: seq<Six>)
    ensures |Encode(b)| == |digits| == (4 * |b| + 2) / 3
    ensures forall i :: 0 <= i < |digits| ==> InTheTable(Encode(b)[i], digits[i])
    ensures Padded(Number(0, 64, digits), Number(0, 256, b), |b|)
  {
    digits := Split(b);
    SplitKeepsNumber(0, b);
    SplitLength(b);
  }
}
