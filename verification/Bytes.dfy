/** Bytes, numbers as byte sequences of a fixed length, most significant byte first, and digits in general. */
module Bytes {
  type Byte = x: int | 0 <= x < 256

  function Power(base: nat, n: nat): nat {
    if n == 0 then 1 else base * Power(base, n - 1)
  }

  function BigEndian(value: nat, n: nat): (bytes: seq<Byte>)
    ensures |bytes| == n
  {
    if n == 0 then [] else BigEndian(value / 256, n - 1) + [value % 256]
  }

  function FromBigEndian(bytes: seq<Byte>): nat {
    Number(bytes, 256)
  }

  /** What digits of a base spell, the most significant one first. */
  function Number(digits: seq<nat>, base: nat): nat {
    if digits == [] then 0 else Number(digits[..|digits| - 1], base) * base + digits[|digits| - 1]
  }

  /** A number that fits is read back from its bytes. */
  lemma {:induction false} FromBigEndianOf(value: nat, n: nat)
    requires value < Power(256, n)
    ensures FromBigEndian(BigEndian(value, n)) == value
  {
    if n > 0 {
      assert value / 256 < Power(256, n - 1);
      FromBigEndianOf(value / 256, n - 1);
      var bytes := BigEndian(value, n);
      assert bytes[..|bytes| - 1] == BigEndian(value / 256, n - 1);
    }
  }

  // ---- Single digits ----

  lemma {:induction false} PowerIsPositive(base: nat, n: nat)
    requires base > 0
    ensures Power(base, n) > 0
  {
    if n > 0 {
      PowerIsPositive(base, n - 1);
    }
  }

  lemma ProductGrows(e: int, d: nat)
    ensures e > 0 ==> e * d >= d
    ensures e < 0 ==> e * d <= -(d as int)
  {
  }

  lemma Quotient(x: nat, q: nat, d: nat, r: nat)
    requires d > 0 && x == q * d + r && r < d
    ensures x / d == q && x % d == r
  {
    ProductGrows(x / d - q, d);
  }

  lemma OneMoreFits(n: nat, limit: nat, base: nat, digit: nat)
    requires n < limit && digit < base
    ensures n * base + digit < base * limit
  {
    ProductGrows(limit - n, base);
  }

  lemma Regrouped(q: nat, c: nat, r: nat, b: nat, t: nat)
    ensures (q * c + r) * b + t == q * (b * c) + (r * b + t)
  {
  }

  lemma QuotientOfQuotient(x: nat, q: nat, r: nat, t: nat, b: nat, c: nat)
    requires x == (q * c + r) * b + t && t < b && r < c
    ensures b * c > 0 && x / (b * c) == q
  {
    Regrouped(q, c, r, b, t);
    OneMoreFits(r, c, b, t);
    ProductGrows(c, b);
    Quotient(x, q, b * c, r * b + t);
  }

  lemma DivideTwice(x: nat, b: nat, c: nat)
    requires b > 0 && c > 0
    ensures b * c > 0 && x / (b * c) == x / b / c
  {
    QuotientOfQuotient(x, x / b / c, x / b % c, x % b, b, c);
  }

  /** The digit `k` places from the right is what is left of the number after as many divisions by the base. */
  lemma {:induction false} DigitOf(digits: seq<nat>, base: nat, k: nat)
    requires k < |digits| && base > 0 && forall i | 0 <= i < |digits| :: digits[i] < base
    ensures Power(base, k) > 0
    ensures digits[|digits| - 1 - k] == Number(digits, base) / Power(base, k) % base
  {
    var front, last := digits[..|digits| - 1], digits[|digits| - 1];
    PowerIsPositive(base, k);
    Quotient(Number(digits, base), Number(front, base), base, last);
    if k > 0 {
      DigitOf(front, base, k - 1);
      DivideTwice(Number(digits, base), base, Power(base, k - 1));
    }
  }

  lemma {:induction false} NumberFits(digits: seq<nat>, base: nat)
    requires base > 0 && forall i | 0 <= i < |digits| :: digits[i] < base
    ensures Number(digits, base) < Power(base, |digits|)
  {
    if digits != [] {
      var front, last := digits[..|digits| - 1], digits[|digits| - 1];
      NumberFits(front, base);
      OneMoreFits(Number(front, base), Power(base, |front|), base, last);
    }
  }

  lemma {:induction false} NumberOfBoth(a: seq<nat>, b: seq<nat>, base: nat)
    ensures Number(a + b, base) == Number(a, base) * Power(base, |b|) + Number(b, base)
  {
    if b == [] {
      assert a + b == a;
    } else {
      var front, last := b[..|b| - 1], b[|b| - 1];
      NumberOfBoth(a, front, base);
      assert (a + b)[..|a + b| - 1] == a + front;
      Regrouped(Number(a, base), Power(base, |front|), Number(front, base), base, last);
    }
  }

  /** Byte `k` of a number written big-endian, whether or not the number fits. */
  lemma {:induction false} ByteOf(value: nat, n: nat, k: nat)
    requires k < n
    ensures Power(256, n - 1 - k) > 0
    ensures BigEndian(value, n)[k] == value / Power(256, n - 1 - k) % 256
  {
    PowerIsPositive(256, n - 1 - k);
    if k < n - 1 {
      ByteOf(value / 256, n - 1, k);
      DivideTwice(value, 256, Power(256, n - 2 - k));
    }
  }

  /** Four bytes read as one unsigned word. */
  lemma WordOf(w: Byte, x: Byte, y: Byte, z: Byte)
    ensures FromBigEndian([w, x, y, z]) == w * 0x100_0000 + x * 0x1_0000 + y * 0x100 + z
  {
    var bytes: seq<nat> := [w, x, y, z];
    assert bytes[..3] == [w, x, y] && bytes[..3][..2] == [w, x] && bytes[..3][..2][..1] == [w];
    assert Number([w], 256) == w by { assert [w as nat][..0] == []; }
    assert Number([w, x], 256) == w * 256 + x;
    assert Number([w, x, y], 256) == (w * 256 + x) * 256 + y;
  }
}
