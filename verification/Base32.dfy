/**
 The base32 codec for TOTP secrets.  The reference is the bit regrouping of section 6
 of RFC 4648 without padding characters; the encoder works with a 32-bit accumulator
 that is never masked, the decoder with a string of bits.
 */
module Base32 {
  import opened Basics

  type Byte = n: int | 0 <= n < 256 witness 0
  type Quintet = n: int | 0 <= n < 32 witness 0
  type Bits = seq<bool>

  const TWO32: int := 0x1_0000_0000

  // ----- the alphabet -----

  /** A to Z, then 2 to 7. */
  function Letter(n: Quintet): char {
    if n < 26 then ('A' as int + n) as char else ('2' as int + (n - 26)) as char
  }

  predicate IsLetter(c: char) {
    'A' <= c <= 'Z' || '2' <= c <= '7'
  }

  // ----- numbers as bits, most significant first -----

  function Pow2(n: nat): (p: nat)
    ensures p >= 1
  {
    if n == 0 then 1 else 2 * Pow2(n - 1)
  }

  function Value(b: Bits): (v: nat)
    ensures v < Pow2(|b|)
  {
    if b == [] then 0 else 2 * Value(b[..|b| - 1]) + (if b[|b| - 1] then 1 else 0)
  }

  function ToBits(n: nat, width: nat): (b: Bits)
    ensures |b| == width
  {
    if width == 0 then [] else ToBits(n / 2, width - 1) + [n % 2 == 1]
  }

  lemma {:induction false} ValueOfBits(n: nat, width: nat)
    requires n < Pow2(width)
    ensures Value(ToBits(n, width)) == n
  {
    if width > 0 {
      ValueOfBits(n / 2, width - 1);
      assert ToBits(n, width)[..width - 1] == ToBits(n / 2, width - 1);
    }
  }

  lemma {:induction false} BitsOfValue(b: Bits)
    ensures ToBits(Value(b), |b|) == b
  {
    if b != [] {
      BitsOfValue(b[..|b| - 1]);
      assert b == b[..|b| - 1] + [b[|b| - 1]];
    }
  }

  lemma {:induction false} PowAdd(m: nat, n: nat)
    ensures Pow2(m + n) == Pow2(m) * Pow2(n)
  {
    if n > 0 {
      PowAdd(m, n - 1);
    }
  }

  lemma {:induction false} ValueConcat(a: Bits, b: Bits)
    ensures Value(a + b) == Value(a) * Pow2(|b|) + Value(b)
  {
    if b == [] {
      assert a + b == a;
    } else {
      var init := b[..|b| - 1];
      ValueConcat(a, init);
      assert (a + b)[..|a + b| - 1] == a + init;
      Doubled(Value(a), Pow2(|init|), Value(init));
    }
  }

  lemma Doubled(a: int, p: int, v: int)
    ensures 2 * (a * p + v) == a * (2 * p) + 2 * v
  {}

  lemma SplitAt(b: Bits, n: nat)
    requires n <= |b|
    ensures b == b[..n] + b[n..]
  {}

  // ----- the reference encoding -----

  function BytesToBits(value: seq<Byte>): (b: Bits)
    ensures |b| == 8 * |value|
  {
    if value == [] then [] else BytesToBits(value[..|value| - 1]) + ToBits(value[|value| - 1], 8)
  }

  function Bit(x: bool): int {
    if x then 1 else 0
  }

  function FiveBits(b: Bits): Quintet
    requires |b| == 5
  {
    16 * Bit(b[0]) + 8 * Bit(b[1]) + 4 * Bit(b[2]) + 2 * Bit(b[3]) + Bit(b[4])
  }

  /** Five-bit groups, the last one filled with zero bits on the right. */
  function Quintets(b: Bits): seq<Quintet> {
    if b == [] then []
    else if |b| < 5 then [FiveBits(b + Zeros(5 - |b|))]
    else [FiveBits(b[..5])] + Quintets(b[5..])
  }

  lemma {:induction false} QuintetCount(b: Bits)
    ensures |Quintets(b)| == (|b| + 4) / 5
  {
    if |b| >= 5 {
      QuintetCount(b[5..]);
    }
  }

  lemma ValueOfPrefix(b: Bits, k: nat)
    requires 0 < k <= |b|
    ensures Value(b[..k]) == 2 * Value(b[..k - 1]) + Bit(b[k - 1])
  {
    assert b[..k][..k - 1] == b[..k - 1];
  }

  lemma ValueOfFive(b: Bits)
    requires |b| == 5
    ensures Value(b) == FiveBits(b)
  {
    ValueOfPrefix(b, 1);
    ValueOfPrefix(b, 2);
    ValueOfPrefix(b, 3);
    ValueOfPrefix(b, 4);
    ValueOfPrefix(b, 5);
    assert b[..0] == [] && b[..5] == b;
  }

  function Zeros(n: nat): (b: Bits)
    ensures |b| == n
  {
    seq(n, _ => false)
  }

  function Letters(q: seq<Quintet>): (s: string)
    ensures |s| == |q| && forall k :: 0 <= k < |q| ==> s[k] == Letter(q[k])
  {
    seq(|q|, k requires 0 <= k < |q| => Letter(q[k]))
  }

  /** Section 6 of RFC 4648, without padding characters. */
  function Rfc4648(value: seq<Byte>): string {
    Letters(Quintets(BytesToBits(value)))
  }

  // ----- shifts -----

  function ShiftLeft(x: int, n: nat): int
    decreases n
  {
    if n == 0 then x else ShiftLeft(2 * x, n - 1)
  }

  function ShiftRight(x: int, n: nat): int
    decreases n
  {
    if n == 0 then x else ShiftRight(x / 2, n - 1)
  }

  /** The n low bits. */
  function Low(x: int, n: nat): int
    decreases n
  {
    if n == 0 then 0 else 2 * Low(x / 2, n - 1) + x % 2
  }

  lemma {:induction false} ShiftLeftIsProduct(x: int, n: nat)
    ensures ShiftLeft(x, n) == x * Pow2(n)
    decreases n
  {
    if n > 0 {
      ShiftLeftIsProduct(2 * x, n - 1);
      assert (2 * x) * Pow2(n - 1) == x * (2 * Pow2(n - 1));
    }
  }

  lemma {:induction false} HalvesAndRest(x: int, n: nat)
    ensures x == ShiftRight(x, n) * Pow2(n) + Low(x, n) && 0 <= Low(x, n) < Pow2(n)
    decreases n
  {
    if n > 0 {
      HalvesAndRest(x / 2, n - 1);
      OneMoreBit(x, ShiftRight(x / 2, n - 1), Pow2(n - 1), Low(x / 2, n - 1));
    }
  }

  lemma OneMoreBit(x: int, high: int, p: nat, low: int)
    requires x / 2 == high * p + low && 0 <= low < p
    ensures x == high * (2 * p) + (2 * low + x % 2) && 0 <= 2 * low + x % 2 < 2 * p
  {
    assert high * (2 * p) == 2 * (high * p);
  }

  lemma ShiftRightIsQuotient(x: int, n: nat)
    ensures ShiftRight(x, n) == x / Pow2(n) && Low(x, n) == x % Pow2(n)
  {
    HalvesAndRest(x, n);
    DivMod(ShiftRight(x, n), Low(x, n), Pow2(n));
  }

  // ----- the encoder -----

  /** What the encoder has emitted and holds back after some bits. */
  predicate Pending(b: Bits, q: nat, output: string, buffer: int, bits: nat) {
    && 5 * q + bits == |b| && 0 <= buffer < TWO32
    && output == Letters(Quintets(b[..5 * q]))
    && Low(buffer, bits) == Value(b[5 * q..])
  }

  lemma SplitConcat(a: Bits, b: Bits, n: nat)
    requires n <= |a|
    ensures (a + b)[..n] == a[..n] && (a + b)[n..] == a[n..] + b
  {}

  lemma Reassociate<T>(a: seq<T>, b: seq<T>, c: seq<T>)
    ensures (a + b) + c == a + (b + c)
  {}

  lemma {:induction false} QuintetsConcat(a: Bits, b: Bits)
    requires |a| % 5 == 0
    ensures Quintets(a + b) == Quintets(a) + Quintets(b)
  {
    if a == [] {
      assert a + b == b;
    } else {
      SplitConcat(a, b, 5);
      QuintetsConcat(a[5..], b);
      Reassociate([FiveBits(a[..5])], Quintets(a[5..]), Quintets(b));
    }
  }

  lemma LettersConcat(p: seq<Quintet>, q: seq<Quintet>)
    ensures Letters(p + q) == Letters(p) + Letters(q)
  {}

  lemma PowFive()
    ensures Pow2(5) == 32
  {}

  lemma PowEight()
    ensures Pow2(8) == 256
  {}

  lemma PowWord()
    ensures Pow2(32) == TWO32
  {
    PowEight();
    PowAdd(8, 8);
    PowAdd(16, 16);
  }

  lemma MulAtLeast(k: int, p: int)
    requires p > 0
    ensures k >= 1 ==> k * p >= p
    ensures k <= -1 ==> k * p <= -p
  {}

  /** Quotient and remainder are unique. */
  lemma DivMod(a: int, b: int, p: int)
    requires 0 <= b < p
    ensures (a * p + b) / p == a && (a * p + b) % p == b
  {
    var n := a * p + b;
    var d := n / p;
    assert n == d * p + n % p;
    assert (a - d) * p == n % p - b;
    MulAtLeast(a - d, p);
  }

  lemma ModOfMod(x: int, m: int, k: int)
    requires m > 0 && k > 0
    ensures k * m > 0 && (x % (k * m)) % m == x % m
  {
    MulAtLeast(k, m);
    var d, r := x / (k * m), x % (k * m);
    var e, s := r / m, r % m;
    assert x == d * (k * m) + r && r == e * m + s;
    assert x == (d * k + e) * m + s by {
      assert d * (k * m) == (d * k) * m;
    }
    DivMod(d * k + e, s, m);
  }

  lemma TruncationKeepsLowBits(x: int, bits: nat)
    requires bits <= 32
    ensures (x % TWO32) % Pow2(bits) == x % Pow2(bits)
  {
    PowWord();
    PowAdd(32 - bits, bits);
    ModOfMod(x, Pow2(bits), Pow2(32 - bits));
  }

  lemma Regroup(a: int, p: int, v: int, r: int)
    ensures (a * p + v) * r == a * (p * r) + v * r
  {
    assert (a * p) * r == a * (p * r);
  }

  lemma ShiftedByte(buffer: int, p: int, byte: Byte)
    requires 0 <= buffer && p > 0
    ensures (buffer * 256 + byte) % (p * 256) == (buffer % p) * 256 + byte
  {
    var a, v := buffer / p, buffer % p;
    assert buffer == a * p + v;
    Regroup(a, p, v, 256);
    DivMod(a, v * 256 + byte, p * 256);
  }

  /** Shifting a byte into the unmasked accumulator loses no bit that is still needed. */
  lemma ShiftIn(buffer: int, bits: nat, byte: Byte)
    requires 0 <= buffer && bits <= 4
    ensures Low((buffer * 256 + byte) % TWO32, bits + 8) == Low(buffer, bits) * 256 + byte
  {
    ShiftRightIsQuotient((buffer * 256 + byte) % TWO32, bits + 8);
    ShiftRightIsQuotient(buffer, bits);
    PowEight();
    PowAdd(bits, 8);
    TruncationKeepsLowBits(buffer * 256 + byte, bits + 8);
    ShiftedByte(buffer, Pow2(bits), byte);
  }

  lemma Within(d: int, v: int, p: int)
    requires 0 <= d < 32 && 0 <= v < p
    ensures 0 <= d * p + v < p * 32
  {
    MulAtLeast(32 - d, p);
    assert (32 - d) * p == p * 32 - d * p;
  }

  /** The five bits above the low `bits` ones, and the low ones, come from the low
      bits + 5 bits of the accumulator alone. */
  lemma TakeTop(buffer: int, p: int, top: int, low: int)
    requires 0 <= buffer && 0 <= top < 32 && 0 <= low < p
    requires buffer % (p * 32) == top * p + low
    ensures (buffer / p) % 32 == top && buffer % p == low
  {
    var c := buffer / (p * 32);
    assert buffer == c * (p * 32) + (top * p + low);
    assert c * (p * 32) == (c * 32) * p;
    assert (c * 32 + top) * p == (c * 32) * p + top * p;
    DivMod(c * 32 + top, low, p);
    DivMod(c, top, 32);
  }

  lemma EmitValue(top: Bits, low: Bits, buffer: int)
    requires 0 <= buffer && |top| == 5 && Low(buffer, |low| + 5) == Value(top + low)
    ensures ShiftRight(buffer, |low|) % 32 == Value(top)
    ensures Low(buffer, |low|) == Value(low)
  {
    ShiftRightIsQuotient(buffer, |low| + 5);
    ShiftRightIsQuotient(buffer, |low|);
    PowAdd(|low|, 5);
    PowFive();
    ValueConcat(top, low);
    TakeTop(buffer, Pow2(|low|), Value(top), Value(low));
  }

  lemma ShortQuintet(b: Bits)
    requires 0 < |b| < 5
    ensures Value(b + Zeros(5 - |b|)) < 32 && Quintets(b) == [Value(b + Zeros(5 - |b|))]
    ensures Letters(Quintets(b)) == [Letter(Value(b + Zeros(5 - |b|)))]
  {
    ValueOfFive(b + Zeros(5 - |b|));
  }

  lemma OneQuintet(b: Bits)
    requires |b| == 5
    ensures Value(b) < 32 && Quintets(b) == [Value(b)] && Letters(Quintets(b)) == [Letter(Value(b))]
  {
    ValueOfFive(b);
    assert b[..5] == b && b[5..] == [];
  }

  lemma OneMoreLetter(done: Bits, five: Bits)
    requires |done| % 5 == 0 && |five| == 5
    ensures Value(five) < 32 && Letters(Quintets(done + five)) == Letters(Quintets(done)) + [Letter(Value(five))]
  {
    QuintetsConcat(done, five);
    LettersConcat(Quintets(done), Quintets(five));
    OneQuintet(five);
  }

  lemma EmitOne(b: Bits, q: nat, output: string, buffer: int, bits: nat)
    requires Pending(b, q, output, buffer, bits + 5)
    ensures Pending(b, q + 1, output + [Letter(ShiftRight(buffer, bits) % 32)], buffer, bits)
  {
    var done, top, low := b[..5 * q], b[5 * q..5 * q + 5], b[5 * q + 5..];
    assert b[5 * q..] == top + low;
    assert b[..5 * (q + 1)] == done + top;
    EmitValue(top, low, buffer);
    OneMoreLetter(done, top);
  }

  lemma AddByte(b: Bits, q: nat, output: string, buffer: int, bits: nat, byte: Byte)
    requires Pending(b, q, output, buffer, bits) && bits <= 4
    ensures Pending(b + ToBits(byte, 8), q, output, (buffer * 256 + byte) % TWO32, bits + 8)
  {
    ShiftIn(buffer, bits, byte);
    SplitConcat(b, ToBits(byte, 8), 5 * q);
    ByteAppended(b[5 * q..], byte);
  }

  lemma ByteAppended(b: Bits, byte: Byte)
    ensures Value(b + ToBits(byte, 8)) == Value(b) * 256 + byte
  {
    PowEight();
    ValueOfBits(byte, 8);
    ValueConcat(b, ToBits(byte, 8));
  }

  lemma ShiftUp(buffer: int, p: int, r: int)
    requires 0 <= buffer && p > 0 && r > 0 && p * r == 32
    ensures (buffer * r) % 32 == (buffer % p) * r
  {
    var a, v := buffer / p, buffer % p;
    assert buffer == a * p + v;
    Regroup(a, p, v, r);
    MulAtLeast(p - v, r);
    assert (p - v) * r == 32 - v * r;
    DivMod(a, v * r, 32);
  }

  lemma LastValue(rest: Bits, z: Bits, buffer: int)
    requires 0 <= buffer && |rest| + |z| == 5 && Value(z) == 0 && Low(buffer, |rest|) == Value(rest)
    ensures ShiftLeft(buffer, |z|) % TWO32 % 32 == Value(rest + z)
  {
    ShiftLeftIsProduct(buffer, |z|);
    ShiftRightIsQuotient(buffer, |rest|);
    var r := Pow2(|z|);
    ValueConcat(rest, z);
    PowFive();
    PowAdd(|rest|, |z|);
    TruncationKeepsLowBits(buffer * r, 5);
    ShiftUp(buffer, Pow2(|rest|), r);
  }

  lemma LastLetter(done: Bits, rest: Bits)
    requires |done| % 5 == 0 && 0 < |rest| < 5
    ensures var z := Zeros(5 - |rest|);
      Value(rest + z) < 32 && Letters(Quintets(done + rest)) == Letters(Quintets(done)) + [Letter(Value(rest + z))]
  {
    QuintetsConcat(done, rest);
    LettersConcat(Quintets(done), Quintets(rest));
    ShortQuintet(rest);
  }

  lemma EmitLast(b: Bits, q: nat, output: string, buffer: int, bits: nat)
    requires Pending(b, q, output, buffer, bits) && 0 < bits <= 4
    ensures output + [Letter(ShiftLeft(buffer, 5 - bits) % TWO32 % 32)] == Letters(Quintets(b))
  {
    var done, rest := b[..5 * q], b[5 * q..];
    SplitAt(b, 5 * q);
    ValueOfZeros(5 - bits);
    LastValue(rest, Zeros(5 - bits), buffer);
    LastLetter(done, rest);
  }

  lemma {:induction false} ValueOfZeros(n: nat)
    ensures Value(Zeros(n)) == 0
  {
    if n > 0 {
      ValueOfZeros(n - 1);
      assert Zeros(n)[..n - 1] == Zeros(n - 1) && !Zeros(n)[n - 1];
    }
  }

  /** The inner loop: letters for as long as five bits are held. */
  method EmitWhole(ghost b: Bits, ghost q0: nat, output0: string, buffer: int, bits0: nat)
    returns (output: string, bits: nat, ghost q: nat)
    requires Pending(b, q0, output0, buffer, bits0)
    ensures bits <= 4 && Pending(b, q, output, buffer, bits)
  {
    output, bits, q := output0, bits0, q0;
    while bits >= 5
      invariant Pending(b, q, output, buffer, bits)
    {
      bits := bits - 5;
      EmitOne(b, q, output, buffer, bits);
      output := output + [Letter(ShiftRight(buffer, bits) % 32)];
      q := q + 1;
    }
  }

  /** After the loop: the bits left over make one more letter. */
  method EmitRest(ghost b: Bits, ghost q: nat, output0: string, buffer: int, bits: nat) returns (output: string)
    requires Pending(b, q, output0, buffer, bits) && bits <= 4
    ensures output == Letters(Quintets(b))
  {
    output := output0;
    if bits > 0 {
      EmitLast(b, q, output, buffer, bits);
      output := output + [Letter(ShiftLeft(buffer, 5 - bits) % TWO32 % 32)];
    } else {
      assert b[..5 * q] == b;
    }
  }

  lemma NextByte(value: seq<Byte>, k: nat)
    requires k < |value|
    ensures BytesToBits(value[..k + 1]) == BytesToBits(value[..k]) + ToBits(value[k], 8)
  {
    assert value[..k + 1][..k] == value[..k];
  }

  /** The encoder: `buffer` holds the 32-bit pattern of the shifted accumulator, from
      which nothing is ever masked away. */
  method Encode(value: seq<Byte>) returns (output: string)
    ensures output == Rfc4648(value)
  {
    var buffer, bits := 0, 0;
    output := "";
    ghost var q := 0;
    for k := 0 to |value|
      invariant bits <= 4 && Pending(BytesToBits(value[..k]), q, output, buffer, bits)
    {
      AddByte(BytesToBits(value[..k]), q, output, buffer, bits, value[k]);
      NextByte(value, k);
      buffer := (buffer * 256 + value[k]) % TWO32;
      output, bits, q := EmitWhole(BytesToBits(value[..k + 1]), q, output, buffer, bits + 8);
    }
    assert value[..|value|] == value;
    output := EmitRest(BytesToBits(value), q, output, buffer, bits);
  }

  // ----- the decoder -----

  function IndexIn(c: char): (n: Option<Quintet>)
    ensures n.Some? <==> IsLetter(c)
    ensures n.Some? ==> Letter(n.value) == c
  {
    if 'A' <= c <= 'Z' then Some((c as int - 'A' as int) as Quintet)
    else if '2' <= c <= '7' then Some((c as int - '2' as int + 26) as Quintet)
    else None
  }

  function StripPadding(s: string): string {
    if s != [] && s[|s| - 1] == '=' then StripPadding(s[..|s| - 1]) else s
  }

  predicate AllLetters(s: string) {
    forall k :: 0 <= k < |s| ==> IsLetter(s[k])
  }

  function LettersToBits(s: string): (b: Bits)
    requires AllLetters(s)
    ensures |b| == 5 * |s|
  {
    if s == [] then [] else LettersToBits(s[..|s| - 1]) + ToBits(IndexIn(s[|s| - 1]).value, 5)
  }

  lemma ValueOfEight(b: Bits)
    requires |b| == 8
    ensures Value(b) < 256
  {
    assert Pow2(8) == 256;
  }

  /** Whole bytes; fewer than eight bits at the end are dropped. */
  function Octets(b: Bits): (v: seq<Byte>)
    ensures |v| == |b| / 8
  {
    if |b| < 8 then [] else
      ValueOfEight(b[..8]); [Value(b[..8])] + Octets(b[8..])
  }

  datatype DecodeError = InvalidSecret

  /** The decoder on every input; `upper` is the library's upper-casing. */
  function Decoded(upper: string -> string, value: string): Result<seq<Byte>, DecodeError> {
    var s := StripPadding(upper(value));
    if AllLetters(s) then Ok(Octets(LettersToBits(s))) else Err(InvalidSecret)
  }

  lemma FirstOctet(b: Bits)
    requires |b| >= 8
    ensures Value(b[..8]) < 256 && Octets(b) == [Value(b[..8])] + Octets(b[8..])
  {
    ValueOfEight(b[..8]);
  }

  lemma {:induction false} OctetsConcat(a: Bits, b: Bits)
    requires |a| % 8 == 0
    ensures Octets(a + b) == Octets(a) + Octets(b)
  {
    if a == [] {
      assert a + b == b;
    } else {
      OctetsConcat(a[8..], b);
      FirstOctet(a);
      FirstOctet(a + b);
      assert (a + b)[..8] == a[..8] && (a + b)[8..] == a[8..] + b;
    }
  }

  /** The string of bits, or nothing when a character is not a letter of the alphabet. */
  method ReadLetters(s: string) returns (r: Option<Bits>)
    ensures r == if AllLetters(s) then Some(LettersToBits(s)) else None
  {
    var bits: Bits := [];
    for k := 0 to |s|
      invariant AllLetters(s[..k])
      invariant bits == LettersToBits(s[..k])
    {
      var n := IndexIn(s[k]);
      if n.None? {
        return None;
      }
      assert s[..k + 1][..k] == s[..k];
      bits := bits + ToBits(n.value, 5);
    }
    assert s[..|s|] == s;
    return Some(bits);
  }

  lemma OneOctet(b: Bits)
    requires |b| == 8
    ensures Value(b) < 256 && Octets(b) == [Value(b)]
  {
    ValueOfEight(b);
    assert b[..8] == b && b[8..] == [];
  }

  method CutBytes(bits: Bits) returns (bytes: seq<Byte>)
    ensures bytes == Octets(bits)
  {
    bytes := [];
    var i := 0;
    while i + 8 <= |bits|
      invariant 0 <= i <= |bits| && i % 8 == 0
      invariant bytes == Octets(bits[..i])
    {
      OneOctet(bits[i..i + 8]);
      assert bits[..i + 8] == bits[..i] + bits[i..i + 8];
      OctetsConcat(bits[..i], bits[i..i + 8]);
      bytes := bytes + [Value(bits[i..i + 8])];
      i := i + 8;
    }
    assert bits == bits[..i] + bits[i..];
    OctetsConcat(bits[..i], bits[i..]);
  }

  method Decode(upper: string -> string, value: string) returns (r: Result<seq<Byte>, DecodeError>)
    ensures r == Decoded(upper, value)
  {
    var bits := ReadLetters(StripPadding(upper(value)));
    if bits.None? {
      return Err(InvalidSecret);
    }
    var bytes := CutBytes(bits.value);
    return Ok(bytes);
  }

  // ----- the round trip -----

  lemma IndexOfLetter(n: Quintet)
    ensures IndexIn(Letter(n)) == Some(n)
  {}

  lemma AppendLetter(s: string, n: Quintet)
    requires AllLetters(s)
    ensures AllLetters(s + [Letter(n)]) && LettersToBits(s + [Letter(n)]) == LettersToBits(s) + ToBits(n, 5)
  {
    IndexOfLetter(n);
    assert (s + [Letter(n)])[..|s|] == s;
  }

  lemma {:induction false} ReadBackWhole(b: Bits)
    requires |b| % 5 == 0
    ensures AllLetters(Letters(Quintets(b)))
    ensures LettersToBits(Letters(Quintets(b))) == b
  {
    if b != [] {
      var init, last := b[..|b| - 5], b[|b| - 5..];
      ReadBackWhole(init);
      SplitAt(b, |b| - 5);
      OneMoreLetter(init, last);
      AppendLetter(Letters(Quintets(init)), Value(last));
      BitsOfValue(last);
    }
  }

  /** The zero bits that fill the last group of n bits. */
  function Fill(n: nat): (z: Bits)
    ensures (n + |z|) % 5 == 0 && |z| < 5
  {
    if n % 5 == 0 then [] else Zeros(5 - n % 5)
  }

  /** Quintets do not see the zero bits that fill the last group. */
  lemma FillIsInvisible(b: Bits)
    ensures Quintets(b + Fill(|b|)) == Quintets(b)
  {
    FillLast(b, |b| / 5, Fill(|b|));
  }

  lemma FillLast(b: Bits, q: nat, z: Bits)
    requires 5 * q <= |b| < 5 * q + 5
    requires z == if |b| == 5 * q then [] else Zeros(5 * q + 5 - |b|)
    ensures Quintets(b + z) == Quintets(b)
  {
    var done, rest := b[..5 * q], b[5 * q..];
    SplitAt(b, 5 * q);
    QuintetsConcat(done, rest);
    if rest == [] {
      assert b + z == b;
    } else {
      ShortQuintet(rest);
      OneQuintet(rest + z);
      Reassociate(done, rest, z);
      QuintetsConcat(done, rest + z);
    }
  }

  lemma ReadBack(q: seq<Quintet>, whole: Bits)
    requires |whole| % 5 == 0 && q == Quintets(whole)
    ensures AllLetters(Letters(q)) && LettersToBits(Letters(q)) == whole
  {
    ReadBackWhole(whole);
  }

  /** Reading the letters back gives the bits, filled up to a multiple of five. */
  lemma LettersReadBack(b: Bits)
    ensures AllLetters(Letters(Quintets(b)))
    ensures LettersToBits(Letters(Quintets(b))) == b + Fill(|b|)
  {
    FillIsInvisible(b);
    var whole := b + Fill(|b|);
    assert |whole| % 5 == 0;
    ReadBack(Quintets(b), whole);
  }

  lemma {:induction false} OctetsReadBack(value: seq<Byte>, rest: Bits)
    requires |rest| < 8
    ensures Octets(BytesToBits(value) + rest) == value
  {
    OctetsConcat(BytesToBits(value), rest);
    OctetsOfBytes(value);
  }

  lemma {:induction false} OctetsOfBytes(value: seq<Byte>)
    ensures Octets(BytesToBits(value)) == value
  {
    if value != [] {
      var init, last := value[..|value| - 1], value[|value| - 1];
      OctetsOfBytes(init);
      OctetsConcat(BytesToBits(init), ToBits(last, 8));
      assert Pow2(8) == 256;
      ValueOfBits(last, 8);
      assert ToBits(last, 8)[..8] == ToBits(last, 8) && ToBits(last, 8)[8..] == [];
      assert Octets(ToBits(last, 8)) == [last];
      assert value == init + [last];
    }
  }

  /** Decoding what was encoded returns the bytes, for every length. */
  lemma RoundTrip(upper: string -> string, value: seq<Byte>)
    requires forall s :: AllLetters(s) ==> upper(s) == s
    ensures Decoded(upper, Rfc4648(value)) == Ok(value)
    ensures |Rfc4648(value)| == (8 * |value| + 4) / 5
  {
    var b := BytesToBits(value);
    LettersReadBack(b);
    OctetsReadBack(value, Fill(|b|));
    assert AllLetters(Rfc4648(value));
    QuintetCount(b);
  }

  lemma {:induction false} PaddingStripped(s: string, n: nat)
    requires AllLetters(s)
    ensures StripPadding(s + seq(n, _ => '=')) == s
  {
    var padded := s + seq(n, _ => '=');
    if n > 0 {
      assert padded[..|padded| - 1] == s + seq(n - 1, _ => '=');
      PaddingStripped(s, n - 1);
    } else {
      assert padded == s;
      assert s != [] ==> IsLetter(s[|s| - 1]);
    }
  }

  lemma DecodedPadded(upper: string -> string, s: string, n: nat)
    requires AllLetters(s)
    requires forall s :: (forall k :: 0 <= k < |s| ==> IsLetter(s[k]) || s[k] == '=') ==> upper(s) == s
    ensures Decoded(upper, s + seq(n, _ => '=')) == Ok(Octets(LettersToBits(s)))
  {
    PaddingStripped(s, n);
    var padded := s + seq(n, _ => '=');
    assert forall k :: 0 <= k < |padded| ==> IsLetter(padded[k]) || padded[k] == '=';
  }

  /** A secret may be padded with equals signs, as RFC 4648 pads it, or not. */
  lemma PaddedRoundTrip(upper: string -> string, value: seq<Byte>, n: nat)
    requires forall s :: (forall k :: 0 <= k < |s| ==> IsLetter(s[k]) || s[k] == '=') ==> upper(s) == s
    ensures Decoded(upper, Rfc4648(value) + seq(n, _ => '=')) == Ok(value)
  {
    LettersReadBack(BytesToBits(value));
    RoundTrip(upper, value);
    DecodedPadded(upper, Rfc4648(value), n);
    DecodedPadded(upper, Rfc4648(value), 0);
    assert Rfc4648(value) + seq(0, _ => '=') == Rfc4648(value);
  }
}
