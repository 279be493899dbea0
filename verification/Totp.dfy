/**
 Time-based one-time passwords: dynamic truncation with bit operations (sections 5.3
 and 5.4 of RFC 4226), six zero-padded digits, and the window of three adjacent time
 steps (section 5.2 of RFC 6238).  HMAC-SHA-1 is a parameter that returns 20 bytes.
 */
module Totp {
  import opened Basics
  import opened Base32

  const STEP: int := 30000
  const MODULUS: int := 1000000
  /** The largest time an ECMAScript clock can show. */
  const LAST_TIME: int := 8640000000000000

  type Mac = (seq<Byte>, seq<Byte>) -> seq<Byte>

  ghost predicate IsSha1Mac(mac: Mac) {
    forall k, m :: |mac(k, m)| == 20
  }

  // ----- bit operations -----

  /** The bitwise or of two non-negative integers. */
  function BitOr(a: nat, b: nat): nat
    decreases a + b
  {
    if a == 0 then b else if b == 0 then a
    else 2 * BitOr(a / 2, b / 2) + (if a % 2 == 1 || b % 2 == 1 then 1 else 0)
  }

  function Shifted(a: nat, k: nat): nat {
    a * Pow2(k)
  }

  lemma {:induction false} OrOfProduct(a: nat, b: nat, k: nat)
    requires b < Pow2(k)
    ensures 0 <= a * Pow2(k) && BitOr(a * Pow2(k), b) == a * Pow2(k) + b
  {
    if k > 0 {
      var p := Pow2(k - 1);
      assert a * Pow2(k) == 2 * (a * p);
      OrOfProduct(a, b / 2, k - 1);
    }
  }

  /** Where the operands have no bit in common, or is sum. */
  lemma OrIsSum(a: nat, b: nat, k: nat)
    requires b < Pow2(k)
    ensures BitOr(Shifted(a, k), b) == Shifted(a, k) + b
  {
    OrOfProduct(a, b, k);
  }

  // ----- dynamic truncation -----

  /** The code's expression: mask, shift and or. */
  function Truncation(digest: seq<Byte>): nat
    requires |digest| == 20
  {
    var index := digest[19] % 16;
    BitOr(BitOr(BitOr(Shifted(digest[index] % 128, 24), Shifted(digest[index + 1], 16)), Shifted(digest[index + 2], 8)),
          digest[index + 3])
  }

  /** The 31-bit big-endian number of RFC 4226. */
  function Rfc4226(digest: seq<Byte>): nat
    requires |digest| == 20
  {
    var i := digest[19] % 16;
    var a: nat, b: nat, c: nat, d: nat := digest[i] % 128, digest[i + 1], digest[i + 2], digest[i + 3];
    a * 16777216 + b * 65536 + c * 256 + d
  }

  lemma ShiftedBytes(a: nat)
    ensures Shifted(a, 8) == a * 256 && Shifted(a, 16) == a * 65536 && Shifted(a, 24) == a * 16777216
  {
    PowEight();
    PowAdd(8, 8);
    PowAdd(8, 16);
  }

  lemma SecondByte(a: nat, b: Byte)
    ensures BitOr(Shifted(a, 24), Shifted(b, 16)) == Shifted(a * 256 + b, 16)
  {
    ShiftedBytes(1);
    ShiftedBytes(a);
    ShiftedBytes(b);
    ShiftedBytes(a * 256 + b);
    OrIsSum(a, Shifted(b, 16), 24);
  }

  lemma ThirdByte(a: nat, b: Byte)
    ensures BitOr(Shifted(a, 16), Shifted(b, 8)) == Shifted(a * 256 + b, 8)
  {
    ShiftedBytes(1);
    ShiftedBytes(a);
    ShiftedBytes(b);
    ShiftedBytes(a * 256 + b);
    OrIsSum(a, Shifted(b, 8), 16);
  }

  lemma OrOfBytes(a: nat, b: Byte, c: Byte, d: Byte)
    requires a < 128
    ensures BitOr(BitOr(BitOr(Shifted(a, 24), Shifted(b, 16)), Shifted(c, 8)), d)
         == a * 16777216 + b * 65536 + c * 256 + d < 0x8000_0000
  {
    SecondByte(a, b);
    ThirdByte(a * 256 + b, c);
    var x := a * 65536 + b * 256 + c;
    assert x == (a * 256 + b) * 256 + c;
    PowEight();
    ShiftedBytes(x);
    OrIsSum(x, d, 8);
  }

  /** The bit operations stay within the digest and compute the big-endian number. */
  lemma TruncationIsRfc4226(digest: seq<Byte>)
    requires |digest| == 20
    ensures Truncation(digest) == Rfc4226(digest) < 0x8000_0000
  {
    var i := digest[19] % 16;
    OrOfBytes(digest[i] % 128, digest[i + 1], digest[i + 2], digest[i + 3]);
  }

  // ----- six digits -----

  function Digit(n: nat): char
    requires n < 10
  {
    ('0' as int + n) as char
  }

  /** The decimal numeral without leading zeros. */
  function Decimal(n: nat): (s: string)
    ensures s != []
  {
    if n < 10 then [Digit(n)] else Decimal(n / 10) + [Digit(n % 10)]
  }

  function PadStart(s: string, width: nat): (r: string)
    ensures |s| < width ==> |r| == width
    decreases width - |s|
  {
    if |s| < width then PadStart("0" + s, width) else s
  }

  /** The width lowest decimal digits. */
  function Digits(n: nat, width: nat): (s: string)
    ensures |s| == width
  {
    if width == 0 then [] else Digits(n / 10, width - 1) + [Digit(n % 10)]
  }

  function Pow10(n: nat): nat {
    if n == 0 then 1 else 10 * Pow10(n - 1)
  }

  lemma {:induction false} PadLast(s: string, c: char, width: nat)
    requires |s| <= width
    ensures PadStart(s + [c], width + 1) == PadStart(s, width) + [c]
    decreases width - |s|
  {
    if |s| < width {
      assert "0" + (s + [c]) == ("0" + s) + [c];
      PadLast("0" + s, c, width);
    }
  }

  lemma {:induction false} PaddedDecimalIsDigits(n: nat, width: nat)
    requires n < Pow10(width) && width > 0
    ensures |Decimal(n)| <= width && PadStart(Decimal(n), width) == Digits(n, width)
  {
    if n < 10 {
      PadOne(n, width);
    } else {
      PaddedDecimalIsDigits(n / 10, width - 1);
      PadLast(Decimal(n / 10), Digit(n % 10), width - 1);
    }
  }

  lemma {:induction false} PadOne(n: nat, width: nat)
    requires n < 10 && width > 0
    ensures PadStart([Digit(n)], width) == Digits(n, width)
  {
    if width == 1 {
      assert Digits(n, 1) == Digits(n / 10, 0) + [Digit(n)];
    } else {
      PadOne(0, width - 1);
      assert [] + [Digit(n)] == [Digit(n)];
      assert PadStart([Digit(n)], width) == PadStart("0" + [Digit(n)], width);
      assert [Digit(0)] == "0";
      PadLast([Digit(0)], Digit(n), width - 1);
    }
  }

  lemma {:induction false} DigitsInjective(m: nat, n: nat, width: nat)
    requires m < Pow10(width) && n < Pow10(width) && Digits(m, width) == Digits(n, width)
    ensures m == n
  {
    if width > 0 {
      var s, t := Digits(m, width), Digits(n, width);
      assert s[..width - 1] == Digits(m / 10, width - 1) && t[..width - 1] == Digits(n / 10, width - 1);
      assert s[width - 1] == Digit(m % 10) && t[width - 1] == Digit(n % 10);
      DigitsInjective(m / 10, n / 10, width - 1);
    }
  }

  // ----- codes -----

  /** The counter as eight bytes, most significant first. */
  function CounterBytes(c: nat, width: nat): (b: seq<Byte>)
    ensures |b| == width
  {
    if width == 0 then [] else CounterBytes(c / 256, width - 1) + [c % 256]
  }

  function Pow256(n: nat): (p: nat)
    ensures p > 0
  {
    if n == 0 then 1 else 256 * Pow256(n - 1)
  }

  /** The message of section 5.2 of RFC 4226: byte k of the eight has the weight 256^(7-k). */
  function Message(c: nat): seq<Byte> {
    seq(8, k requires 0 <= k < 8 => c / Pow256(7 - k) % 256)
  }

  /** The number that bytes stand for, most significant first. */
  function BigEndian(b: seq<Byte>): nat {
    if b == [] then 0 else BigEndian(b[..|b| - 1]) * 256 + b[|b| - 1]
  }

  lemma DivideTwice(c: nat, p: nat)
    requires p > 0
    ensures c / 256 / p == c / (256 * p)
  {
    var q, r := c / 256, c % 256;
    var a, b := q / p, q % p;
    assert c == 256 * (a * p + b) + r == a * (256 * p) + (256 * b + r);
    assert 256 * b + r < 256 * p;
    DivMod(a, 256 * b + r, 256 * p);
  }

  lemma {:induction false} CounterByteAt(c: nat, width: nat, k: nat)
    requires k < width
    ensures CounterBytes(c, width)[k] == c / Pow256(width - 1 - k) % 256
  {
    if k < width - 1 {
      CounterByteAt(c / 256, width - 1, k);
      DivideTwice(c, Pow256(width - 2 - k));
    }
  }

  /** The bytes the code writes are that message. */
  lemma CounterBytesAreMessage(c: nat)
    ensures CounterBytes(c, 8) == Message(c)
  {
    forall k | 0 <= k < 8 ensures CounterBytes(c, 8)[k] == Message(c)[k] {
      CounterByteAt(c, 8, k);
    }
  }

  lemma {:induction false} CounterBytesReadBack(c: nat, width: nat)
    requires c < Pow256(width)
    ensures BigEndian(CounterBytes(c, width)) == c
  {
    if width > 0 {
      CounterBytesReadBack(c / 256, width - 1);
      var b := CounterBytes(c, width);
      assert b[..width - 1] == CounterBytes(c / 256, width - 1);
    }
  }

  /** And the message is the counter, read big-endian, for every counter of 64 bits. */
  lemma MessageIsBigEndian(c: nat)
    requires c < 0x1_0000_0000_0000_0000
    ensures |Message(c)| == 8 && BigEndian(Message(c)) == c
  {
    assert Pow256(4) == 0x1_0000_0000;
    assert Pow256(8) == 256 * (256 * (256 * (256 * Pow256(4))));
    CounterBytesReadBack(c, 8);
    CounterBytesAreMessage(c);
  }

  /** What verifyTotp compares with for one counter. */
  function ComputedCode(mac: Mac, key: seq<Byte>, counter: nat): string
    requires |mac(key, CounterBytes(counter, 8))| == 20
  {
    PadStart(Decimal(Truncation(mac(key, CounterBytes(counter, 8))) % MODULUS), 6)
  }

  /** The six-digit HOTP value of RFC 4226. */
  function Hotp(mac: Mac, key: seq<Byte>, counter: nat): string
    requires |mac(key, Message(counter))| == 20
  {
    Digits(Rfc4226(mac(key, Message(counter))) % 1000000, 6)
  }

  lemma ComputedCodeIsHotp(mac: Mac, key: seq<Byte>, counter: nat)
    requires IsSha1Mac(mac)
    ensures ComputedCode(mac, key, counter) == Hotp(mac, key, counter)
  {
    CounterBytesAreMessage(counter);
    var digest := mac(key, Message(counter));
    TruncationIsRfc4226(digest);
    assert Pow10(6) == MODULUS by { assert Pow10(3) == 1000; }
    PaddedDecimalIsDigits(Rfc4226(digest) % MODULUS, 6);
  }

  /** Equal codes mean equal truncated values modulo a million. */
  lemma EqualCodes(mac: Mac, key: seq<Byte>, c: nat, d: nat)
    requires IsSha1Mac(mac) && Hotp(mac, key, c) == Hotp(mac, key, d)
    ensures Rfc4226(mac(key, Message(c))) % MODULUS == Rfc4226(mac(key, Message(d))) % MODULUS
  {
    assert Pow10(6) == MODULUS by { assert Pow10(3) == 1000; }
    DigitsInjective(Rfc4226(mac(key, Message(c))) % MODULUS,
                    Rfc4226(mac(key, Message(d))) % MODULUS, 6);
  }

  predicate SixDigits(code: string) {
    |code| == 6 && forall k :: 0 <= k < 6 ==> '0' <= code[k] <= '9'
  }

  datatype TotpError = NegativeCounter | BadSecret

  /** The code is the HOTP value of the current time step or a neighbour. */
  ghost predicate InWindow(mac: Mac, key: seq<Byte>, now: nat, code: string)
    requires IsSha1Mac(mac)
  {
    exists c: nat :: now / 30000 - 1 <= c <= now / 30000 + 1 && code == Hotp(mac, key, c)
  }

  /** The answer of verifyTotp: within the first thirty seconds of the epoch the
      earlier counter is negative and its encoding raises; a secret that is not base32
      raises as well; everything else is a decision. */
  ghost function Verdict(mac: Mac, upper: string -> string, secret: string, code: string, now: nat): Result<bool,
        TotpError>
    requires IsSha1Mac(mac)
  {
    if !SixDigits(code) then Ok(false)
    else if now < 30000 then Err(NegativeCounter)
    else match Decoded(upper, secret)
      case Err(_) => Err(BadSecret)
      case Ok(key) => Ok(InWindow(mac, key, now, code))
  }

  /** One turn of the loop: the code of one counter, or what is raised. */
  method CodeAt(mac: Mac, upper: string -> string, secret: string, counter: int) returns (r: Result<string, TotpError>)
    requires IsSha1Mac(mac) && counter <= LAST_TIME
    ensures counter < 0 ==> r == Err(NegativeCounter)
    ensures counter >= 0 && Decoded(upper, secret).Err? ==> r == Err(BadSecret)
    ensures counter >= 0 && Decoded(upper, secret).Ok? ==> r == Ok(Hotp(mac, Decoded(upper, secret).value, counter))
  {
    if counter < 0 {
      return Err(NegativeCounter);
    }
    var key := Base32.Decode(upper, secret);
    if key.Err? {
      return Err(BadSecret);
    }
    ComputedCodeIsHotp(mac, key.value, counter);
    return Ok(ComputedCode(mac, key.value, counter));
  }

  ghost predicate Missed(mac: Mac, key: seq<Byte>, code: string, first: int, end: int)
    requires IsSha1Mac(mac)
  {
    forall c: nat :: first <= c < end ==> code != Hotp(mac, key, c)
  }

  lemma MissedOneMore(mac: Mac, key: seq<Byte>, code: string, first: int, end: nat)
    requires IsSha1Mac(mac) && Missed(mac, key, code, first, end) && code != Hotp(mac, key, end)
    ensures Missed(mac, key, code, first, end + 1)
  {}

  method VerifyTotp(mac: Mac, upper: string -> string, secret: string, code: string, now: nat)
    returns (r: Result<bool, TotpError>)
    requires IsSha1Mac(mac) && now <= LAST_TIME
    ensures r == Verdict(mac, upper, secret, code, now)
  {
    if |code| != 6 || exists k :: 0 <= k < 6 && !('0' <= code[k] <= '9') {
      return Ok(false);
    }
    var counter := now / STEP;
    var offset := -1;
    while offset <= 1
      invariant -1 <= offset <= 2
      invariant offset >= 0 ==> now >= STEP && Decoded(upper, secret).Ok?
      invariant offset >= 0 ==> Missed(mac, Decoded(upper, secret).value, code, counter - 1, counter + offset)
    {
      var computed := CodeAt(mac, upper, secret, counter + offset);
      if computed.Err? {
        return Err(computed.error);
      }
      if computed.value == code {
        return Ok(true);
      }
      MissedOneMore(mac, Decoded(upper, secret).value, code, counter - 1, counter + offset);
      offset := offset + 1;
    }
    return Ok(false);
  }

  /** A prover whose clock is at most one step from the server's is accepted. */
  lemma NeighbouringClockAccepted(mac: Mac, upper: string -> string, secret: string, server: nat, prover: nat)
    requires IsSha1Mac(mac) && Decoded(upper, secret).Ok? && server >= 30000
    requires -30000 <= server - prover <= 30000
    ensures Verdict(mac, upper, secret, Hotp(mac, Decoded(upper, secret).value, prover / 30000), server) == Ok(true)
  {
    var key := Decoded(upper, secret).value;
    var code := Hotp(mac, key, prover / STEP);
    DigitsAreDigits(Rfc4226(mac(key, Message(prover / STEP))) % MODULUS, 6);
    assert server / STEP - 1 <= prover / STEP <= server / STEP + 1;
    assert InWindow(mac, key, server, code);
  }

  lemma {:induction false} DigitsAreDigits(n: nat, width: nat)
    ensures forall k :: 0 <= k < width ==> '0' <= Digits(n, width)[k] <= '9'
  {
    if width > 0 {
      DigitsAreDigits(n / 10, width - 1);
    }
  }

  /** The secrets handed out at enrolment decode to the key they were made from. */
  lemma IssuedSecretsDecode(upper: string -> string, key: seq<Byte>)
    requires |key| == 20 && forall s :: AllLetters(s) ==> upper(s) == s
    ensures Decoded(upper, Rfc4648(key)) == Ok(key) && |Rfc4648(key)| == 32
  {
    RoundTrip(upper, key);
  }
}
