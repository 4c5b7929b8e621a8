/** Time-based one-time passwords: RFC 6238 over the truncation of RFC 4226. HMAC-SHA1 is an arbitrary function. */
module Totp {
  import opened Bytes
  import opened Decimal

  const SECRET_LENGTH := 20
  const PERIOD := 30
  const DIGITS := 6
  const SKEW_STEPS := 1
  const DIGEST_LENGTH := 20
  const UINT31_LIMIT := 0x8000_0000
  const UINT32_LIMIT := 0x1_0000_0000
  const UINT64_LIMIT := 0x1_0000_0000_0000_0000

  type Int64 = x: int | -INT64_LIMIT <= x < INT64_LIMIT
  type Uint32 = x: int | 0 <= x < UINT32_LIMIT
  type Digest = s: seq<Byte> | |s| == DIGEST_LENGTH witness seq(DIGEST_LENGTH, _ => 0)
  type Hmac = (seq<Byte>, seq<Byte>) -> Digest

  // ---- Specification ----

  /** Go's integer division: it truncates toward zero. */
  function Step(at: int): int {
    if at >= 0 then at / PERIOD else -(-at / PERIOD)
  }

  /** The step as RFC 4226 hashes it: 64 bits, unsigned, big-endian. */
  function Counter(step: int): seq<Byte> {
    BigEndian(step % UINT64_LIMIT, 8)
  }

  /** The low nibble of the last byte picks a word, whose top bit is dropped. */
  function Truncated(sum: Digest): nat {
    var offset := sum[DIGEST_LENGTH - 1] % 16;
    FromBigEndian(sum[offset..offset + 4]) % UINT31_LIMIT
  }

  function Zeros(n: nat): (s: string)
    ensures |s| == n && AllDigits(s)
  {
    seq(n, _ => '0')
  }

  /** %0*d: padded on the left with zeros, never cut. */
  function Padded(n: nat, width: nat): string {
    var digits := Decimal.Print(n);
    if |digits| < width then Zeros(width - |digits|) + digits else digits
  }

  function Code(hmac: Hmac, secret: seq<Byte>, step: int): string {
    Padded(Truncated(hmac(secret, Counter(step))) % Power(10, DIGITS), DIGITS)
  }

  predicate Accepts(hmac: Hmac, secret: seq<Byte>, code: string, at: int) {
    && |secret| == SECRET_LENGTH
    && exists step | Step(at) - SKEW_STEPS <= step <= Step(at) + SKEW_STEPS :: code == Code(hmac, secret, step)
  }

  // ---- The program ----

  predicate SixDigits(code: string) {
    |code| == DIGITS && AllDigits(code)
  }

  method IsTotpCode(code: string) returns (ok: bool)
    ensures ok <==> |code| == 6 && forall k | 0 <= k < 6 :: '0' <= code[k] <= '9'
  {
    if |code| != DIGITS {
      return false;
    }
    for i := 0 to |code|
      invariant forall k | 0 <= k < i :: IsDigit(code[k])
    {
      if code[i] < '0' || code[i] > '9' {
        return false;
      }
    }
    return true;
  }

  /** uint32 arithmetic: the product wraps. */
  method Pow10(n: int) returns (result: Uint32)
    ensures n >= 0 ==> result == Power(10, n) % UINT32_LIMIT
    ensures n < 0 ==> result == 1
  {
    result := 1;
    var i := 0;
    while i < n
      invariant 0 <= i && (n >= 0 ==> i <= n) && (n < 0 ==> i == 0)
      invariant result == Power(10, i) % UINT32_LIMIT
    {
      WrappedProduct(Power(10, i));
      result := result * 10 % UINT32_LIMIT;
      i := i + 1;
    }
  }

  method PutUint64(buffer: array<Byte>, value: nat)
    requires buffer.Length == 8
    modifies buffer
    ensures buffer[..] == BigEndian(value, 8)
  {
    var rest := value;
    var i := 8;
    assert buffer[8..] == [];
    while i > 0
      invariant 0 <= i <= 8
      invariant BigEndian(rest, i) + buffer[i..] == BigEndian(value, 8)
    {
      i := i - 1;
      buffer[i] := rest % 256;
      assert buffer[i..] == [rest % 256] + buffer[i + 1..];
      assert BigEndian(rest, i + 1) == BigEndian(rest / 256, i) + [rest % 256];
      rest := rest / 256;
    }
  }

  method TotpCode(hmac: Hmac, secret: seq<Byte>, step: Int64) returns (code: string)
    ensures code == Code(hmac, secret, step)
  {
    var counter := new Byte[8](_ => 0);
    PutUint64(counter, step % UINT64_LIMIT);
    var sum := hmac(secret, counter[..]);
    var offset := sum[|sum| - 1] % 16;
    var truncated := FromBigEndian(sum[offset..offset + 4]) % UINT31_LIMIT;
    var modulus := Pow10(DIGITS);
    SixDigitsFit();
    return Padded(truncated % modulus, DIGITS);
  }

  method VerifyTotp(hmac: Hmac, secret: seq<Byte>, code: string, at: Int64) returns (ok: bool)
    ensures ok <==>
              && |secret| == 20
              && exists step | Step(at) - 1 <= step <= Step(at) + 1 :: code == Code(hmac, secret, step)
  {
    if |secret| != SECRET_LENGTH {
      return false;
    }
    var wellFormed := IsTotpCode(code);
    if !wellFormed {
      CodesHaveSixDigits(hmac, secret, code, at);
      return false;
    }
    var step := Step(at);
    var matched: bv8 := 0;
    var offset := -SKEW_STEPS;
    while offset <= SKEW_STEPS
      invariant -SKEW_STEPS <= offset <= SKEW_STEPS + 1
      invariant matched == 0 || matched == 1
      invariant matched == 1 <==> Matches(hmac, secret, code, step - SKEW_STEPS, step + offset)
    {
      var candidate := TotpCode(hmac, secret, step + offset);
      matched := matched | (if candidate == code then 1 else 0);
      offset := offset + 1;
    }
    return matched == 1;
  }

  /** Some step from `low` up to, not including, `high` has this code. */
  predicate Matches(hmac: Hmac, secret: seq<Byte>, code: string, low: int, high: int) {
    exists step | low <= step < high :: code == Code(hmac, secret, step)
  }

  // ---- Properties ----

  lemma WrappedProduct(x: nat)
    ensures (x % UINT32_LIMIT) * 10 % UINT32_LIMIT == 10 * x % UINT32_LIMIT
  {
    var q, r := x / UINT32_LIMIT, x % UINT32_LIMIT;
    assert 10 * x == 10 * q * UINT32_LIMIT + 10 * r;
    MultiplesVanish(10 * q, 10 * r);
  }

  lemma MultiplesVanish(k: nat, r: nat)
    ensures (k * UINT32_LIMIT + r) % UINT32_LIMIT == r % UINT32_LIMIT
  {
  }

  lemma SixDigitsFit()
    ensures Power(10, DIGITS) == 1_000_000
  {
    assert Power(10, 1) == 10 && Power(10, 2) == 100 && Power(10, 3) == 1_000;
    assert Power(10, 4) == 10_000 && Power(10, 5) == 100_000;
  }

  lemma {:induction false} PrintIsShort(n: nat, width: nat)
    requires width > 0 && n < Power(10, width)
    ensures |Decimal.Print(n)| <= width
  {
    if n >= 10 {
      assert n / 10 < Power(10, width - 1);
      PrintIsShort(n / 10, width - 1);
    }
  }

  lemma {:induction false} ZerosAddNothing(k: nat, digits: string)
    requires AllDigits(digits)
    ensures AllDigits(Zeros(k) + digits) && Value(Zeros(k) + digits) == Value(digits)
  {
    var s := Zeros(k) + digits;
    if digits != "" {
      ZerosAddNothing(k, digits[..|digits| - 1]);
      assert s[..|s| - 1] == Zeros(k) + digits[..|digits| - 1];
    } else if k > 0 {
      ZerosAddNothing(k - 1, "");
      assert s[..|s| - 1] == Zeros(k - 1) + "";
    }
  }

  /** Every code is six digits that spell the truncated digest modulo a million. */
  lemma CodeIsSixDigits(hmac: Hmac, secret: seq<Byte>, step: int)
    ensures SixDigits(Code(hmac, secret, step))
    ensures Value(Code(hmac, secret, step)) == Truncated(hmac(secret, Counter(step))) % 1_000_000
  {
    var n := Truncated(hmac(secret, Counter(step))) % Power(10, DIGITS);
    SixDigitsFit();
    PrintIsShort(n, DIGITS);
    ValueOfPrint(n);
    ZerosAddNothing(DIGITS - |Decimal.Print(n)|, Decimal.Print(n));
  }

  lemma TopBitDropped(w: nat, rest: nat)
    requires w < 256 && rest < 0x100_0000
    ensures (w * 0x100_0000 + rest) % UINT31_LIMIT == w % 128 * 0x100_0000 + rest
  {
    assert w == w / 128 * 128 + w % 128;
  }

  lemma TruncatedWord(d: Digest, o: nat)
    requires o == d[19] % 16
    ensures var w: int, x: int, y: int, z: int := d[o], d[o + 1], d[o + 2], d[o + 3];
            Truncated(d) == w % 128 * 0x100_0000 + x * 0x1_0000 + y * 0x100 + z
  {
    var w: int, x: int, y: int, z: int := d[o], d[o + 1], d[o + 2], d[o + 3];
    assert d[o..o + 4] == [w, x, y, z];
    WordOf(w, x, y, z);
    TopBitDropped(w, x * 0x1_0000 + y * 0x100 + z);
  }

  /**
   The six digits, from the digest: the low four bits of its last byte say where the word of four bytes starts, whose
   top bit is dropped (section 5.3 of RFC 4226).
   */
  lemma CodeOfDigest(hmac: Hmac, secret: seq<Byte>, step: int, d: Digest, o: nat)
    requires d == hmac(secret, Counter(step)) && o == d[19] % 16
    ensures SixDigits(Code(hmac, secret, step))
    ensures var w: int, x: int, y: int, z: int := d[o], d[o + 1], d[o + 2], d[o + 3];
            Value(Code(hmac, secret, step)) == (w % 128 * 0x100_0000 + x * 0x1_0000 + y * 0x100 + z) % 1_000_000
  {
    CodeIsSixDigits(hmac, secret, step);
    TruncatedWord(d, o);
  }

  /** The eight bytes that are hashed: the step modulo 2^64, most significant byte first. */
  lemma CounterByte(step: int, k: nat)
    requires k < 8
    ensures |Counter(step)| == 8 && Power(256, 7 - k) > 0
    ensures Counter(step)[k] == step % 0x1_0000_0000_0000_0000 / Power(256, 7 - k) % 256
  {
    ByteOf(step % UINT64_LIMIT, 8, k);
  }

  lemma CodesHaveSixDigits(hmac: Hmac, secret: seq<Byte>, code: string, at: int)
    ensures Accepts(hmac, secret, code, at) ==> SixDigits(code)
  {
    if Accepts(hmac, secret, code, at) {
      var step :| Step(at) - SKEW_STEPS <= step <= Step(at) + SKEW_STEPS && code == Code(hmac, secret, step);
      CodeIsSixDigits(hmac, secret, step);
    }
  }

  /** The step of an instant: thirty seconds long, and counted toward the epoch from either side. */
  lemma StepIs(at: int)
    ensures at >= 0 ==> 30 * Step(at) <= at < 30 * Step(at) + 30
    ensures at <= 0 ==> 30 * Step(at) - 30 < at <= 30 * Step(at)
  {
  }

  /** At most one period apart, at most one step apart: on either side of the epoch and across it. */
  lemma StepsAreClose(g: int, t: int)
    requires -30 <= t - g <= 30
    ensures -1 <= Step(t) - Step(g) <= 1
  {
  }

  /** A code is accepted throughout the period after and before the instant it was generated at. */
  lemma FreshCodeIsAccepted(hmac: Hmac, secret: seq<Byte>, g: int, t: int)
    requires |secret| == 20 && -30 <= t - g <= 30
    ensures Accepts(hmac, secret, Code(hmac, secret, Step(g)), t)
  {
    StepsAreClose(g, t);
    var step := Step(g);
    assert Step(t) - SKEW_STEPS <= step <= Step(t) + SKEW_STEPS;
  }

  /** The instants at which a code generated at `g` is in the window, for every `g` before, at and after the epoch. */
  lemma WindowOf(g: int, t: int)
    ensures var s := Step(g);
            -1 <= Step(t) - s <= 1
            <==> if s >= 2 then 30 * s - 30 <= t < 30 * s + 60
                 else if s <= -2 then 30 * s - 60 < t <= 30 * s + 30
                 else 30 * s - 60 < t < 30 * s + 60
  {
  }

  /** From the epoch on, the step a code was generated in is in the window for exactly ninety seconds. */
  lemma WindowIsNinetySeconds(g: nat, t: nat)
    ensures -1 <= Step(t) - Step(g) <= 1 <==> 30 * Step(g) - 30 <= t < 30 * Step(g) + 60
  {
  }

  /** Truncation makes the step at the epoch almost twice as long as every other one. */
  lemma EpochStepIsLonger(t: int)
    ensures Step(t) == 0 <==> -30 < t < 30
    ensures Step(t) > 0 <==> t >= 30
  {
  }

  lemma EightBytesHold(value: nat)
    requires value < UINT64_LIMIT
    ensures value < Power(256, 8)
  {
    assert Power(256, 1) == 0x100 && Power(256, 2) == 0x1_0000 && Power(256, 3) == 0x100_0000;
    assert Power(256, 4) == 0x1_0000_0000 && Power(256, 5) == 0x100_0000_0000;
    assert Power(256, 6) == 0x1_0000_0000_0000 && Power(256, 7) == 0x100_0000_0000_0000;
  }

  lemma CounterReads(step: int)
    ensures FromBigEndian(Counter(step)) == step % UINT64_LIMIT
  {
    EightBytesHold(step % UINT64_LIMIT);
    FromBigEndianOf(step % UINT64_LIMIT, 8);
  }

  lemma Wrapped(step: Int64)
    ensures step % UINT64_LIMIT == if step >= 0 then step else step + UINT64_LIMIT
  {
  }

  /** Wrapping a step before the epoch into 64 unsigned bits never gives it another step's counter. */
  lemma CounterIsInjective(a: Int64, b: Int64)
    requires Counter(a) == Counter(b)
    ensures a == b
  {
    CounterReads(a);
    CounterReads(b);
    Wrapped(a);
    Wrapped(b);
  }
}
