/**
 What base64 is, apart from how it is computed here: the symbols of RFC 4648 (tables 1 and 2), spelling in base 64 the
 number the bytes spell in base 256, followed by as many zero bits as the last symbol needs.
 */
module Base64Digits {
  import opened Base64
  import opened Bytes
  import opened Options

  lemma UrlTable()
    ensures "ABCDEFGHIJKLMNOPQRSTUVWXYZ" + "abcdefghijklmnopqrstuvwxyz" + "0123456789" + "-_"
            == "ABCDEFGHIJKLMNOPQRSTUVWXYZabcdefghijklmnopqrstuvwxyz0123456789-_"
  {
  }

  lemma StdTable()
    ensures "ABCDEFGHIJKLMNOPQRSTUVWXYZ" + "abcdefghijklmnopqrstuvwxyz" + "0123456789" + "+/"
            == "ABCDEFGHIJKLMNOPQRSTUVWXYZabcdefghijklmnopqrstuvwxyz0123456789+/"
  {
  }

  lemma SymbolInParts(alphabet: Alphabet, v: Sextet)
    ensures Symbol(alphabet, v)
            == ("ABCDEFGHIJKLMNOPQRSTUVWXYZ" + "abcdefghijklmnopqrstuvwxyz" + "0123456789"
                + if alphabet.Url? then "-_" else "+/")[v]
  {
  }

  /** The symbols of the two alphabets. */
  lemma SymbolIs(v: Sextet)
    ensures Symbol(Url, v) == "ABCDEFGHIJKLMNOPQRSTUVWXYZabcdefghijklmnopqrstuvwxyz0123456789-_"[v]
    ensures Symbol(Std, v) == "ABCDEFGHIJKLMNOPQRSTUVWXYZabcdefghijklmnopqrstuvwxyz0123456789+/"[v]
  {
    SymbolInParts(Url, v);
    SymbolInParts(Std, v);
    UrlTable();
    StdTable();
  }

  // ---- One number in two bases ----

  lemma SameGroup(p: nat, q: nat, unit: nat)
    requires p == q * unit
    ensures 64 * (64 * (64 * (64 * p))) == 256 * (256 * (256 * q)) * unit
  {
  }

  lemma {:induction false} SixBitsEach(n: nat)
    ensures Power(64, SextetCount(n)) == Power(256, n) * SpareUnit(n)
  {
    if n == 1 {
      assert Power(64, 2) == 64 * Power(64, 1) && Power(64, 1) == 64 * Power(64, 0);
    } else if n == 2 {
      assert Power(64, 3) == 64 * Power(64, 2) && Power(64, 2) == 64 * Power(64, 1) && Power(64, 1) == 64;
      assert Power(256, 2) == 256 * Power(256, 1) && Power(256, 1) == 256;
    } else if n > 2 {
      SixBitsEach(n - 3);
      var c, m := SextetCount(n - 3), n - 3;
      assert Power(64, c + 4) == 64 * Power(64, c + 3) && Power(64, c + 3) == 64 * Power(64, c + 2);
      assert Power(64, c + 2) == 64 * Power(64, c + 1) && Power(64, c + 1) == 64 * Power(64, c);
      assert Power(256, m + 3) == 256 * Power(256, m + 2) && Power(256, m + 2) == 256 * Power(256, m + 1);
      SameGroup(Power(64, c), Power(256, m), SpareUnit(m));
    }
  }

  lemma OneMoreDigit(digits: seq<nat>, d: nat, base: nat)
    ensures Number(digits + [d], base) == Number(digits, base) * base + d
  {
    assert (digits + [d])[..|digits|] == digits;
  }

  lemma NumberOfFour(a: nat, b: nat, c: nat, d: nat, base: nat)
    ensures Number([a, b, c, d], base) == ((a * base + b) * base + c) * base + d
    ensures Number([a, b, c], base) == (a * base + b) * base + c
    ensures Number([a, b], base) == a * base + b
    ensures Number([a], base) == a
  {
    OneMoreDigit([], a, base);
    OneMoreDigit([a], b, base);
    OneMoreDigit([a, b], c, base);
    OneMoreDigit([a, b, c], d, base);
    assert [] + [a] == [a] && [a] + [b] == [a, b] && [a, b] + [c] == [a, b, c] && [a, b, c] + [d] == [a, b, c, d];
  }

  lemma GroupSpells(x: Byte, y: Byte, z: Byte)
    ensures Number([Quad0(x), Quad1(x, y), Quad2(y, z), Quad3(z)], 64) == FromBigEndian([x, y, z])
    ensures Number([Quad0(x), Quad1(x, y), Quad2(y, 0)], 64) == FromBigEndian([x, y]) * 4
    ensures Number([Quad0(x), Quad1(x, 0)], 64) == FromBigEndian([x]) * 16
  {
    NumberOfFour(Quad0(x), Quad1(x, y), Quad2(y, z), Quad3(z), 64);
    NumberOfFour(Quad0(x), Quad1(x, y), Quad2(y, 0), 0, 64);
    NumberOfFour(Quad0(x), Quad1(x, 0), 0, 0, 64);
    NumberOfFour(x, y, z, 0, 256);
  }

  lemma Scaled(n: nat, p: nat, r: nat, unit: nat)
    ensures n * (p * unit) + r * unit == (n * p + r) * unit
  {
  }

  lemma Prepended(group: seq<nat>, rest: seq<nat>, threeBytes: seq<nat>, bytes: seq<nat>, unit: nat)
    requires Number(group, 64) == Number(threeBytes, 256) && Number(rest, 64) == Number(bytes, 256) * unit
    requires Power(64, |rest|) == Power(256, |bytes|) * unit
    ensures Number(group + rest, 64) == Number(threeBytes + bytes, 256) * unit
  {
    NumberOfBoth(group, rest, 64);
    NumberOfBoth(threeBytes, bytes, 256);
    Scaled(Number(group, 64), Power(256, |bytes|), Number(bytes, 256), unit);
  }

  lemma GroupPrepended(x: Byte, y: Byte, z: Byte, rest: seq<Sextet>, bytes: seq<Byte>, unit: nat)
    requires Number(rest, 64) == FromBigEndian(bytes) * unit && Power(64, |rest|) == Power(256, |bytes|) * unit
    ensures Number([Quad0(x), Quad1(x, y), Quad2(y, z), Quad3(z)] + rest, 64)
            == FromBigEndian([x, y, z] + bytes) * unit
  {
    GroupSpells(x, y, z);
    Prepended([Quad0(x), Quad1(x, y), Quad2(y, z), Quad3(z)], rest, [x, y, z], bytes, unit);
  }

  lemma OneSpells(bytes: seq<Byte>)
    requires |bytes| == 1
    ensures Number(Sextets(bytes), 64) == FromBigEndian(bytes) * 16
  {
    var x := bytes[0];
    ShortSextets(x, 0);
    GroupSpells(x, 0, 0);
    assert bytes == [x];
  }

  lemma TwoSpell(bytes: seq<Byte>)
    requires |bytes| == 2
    ensures Number(Sextets(bytes), 64) == FromBigEndian(bytes) * 4
  {
    var x, y := bytes[0], bytes[1];
    ShortSextets(x, y);
    GroupSpells(x, y, 0);
    assert bytes == [x, y];
  }

  lemma LongSpell(bytes: seq<Byte>, unit: nat)
    requires |bytes| >= 3 && unit == SpareUnit(|bytes| - 3)
    requires Number(Sextets(bytes[3..]), 64) == FromBigEndian(bytes[3..]) * unit
    ensures Number(Sextets(bytes), 64) == FromBigEndian(bytes) * unit
  {
    var x, y, z, rest := bytes[0], bytes[1], bytes[2], bytes[3..];
    SextetsCounted(rest);
    SixBitsEach(|rest|);
    GroupPrepended(x, y, z, Sextets(rest), rest, unit);
    GroupFirst(bytes);
    assert bytes == [x, y, z] + rest;
  }

  /** The sextets spell the number of the bytes, shifted by the spare bits. */
  lemma {:induction false} SextetsSpell(bytes: seq<Byte>)
    ensures Number(Sextets(bytes), 64) == FromBigEndian(bytes) * SpareUnit(|bytes|)
  {
    if |bytes| > 2 {
      SextetsSpell(bytes[3..]);
      LongSpell(bytes, SpareUnit(|bytes|));
    } else if |bytes| == 2 {
      TwoSpell(bytes);
    } else if |bytes| == 1 {
      OneSpells(bytes);
    }
  }

  // ---- Symbol by symbol ----

  lemma {:induction false} CountIs(n: nat)
    ensures SextetCount(n) == (4 * n + 2) / 3
  {
    if n > 2 {
      CountIs(n - 3);
    }
  }

  lemma SextetAt(bytes: seq<Byte>, count: nat, k: nat)
    requires k < count == |Sextets(bytes)|
    ensures Power(64, count - 1 - k) > 0
    ensures Sextets(bytes)[k] == FromBigEndian(bytes) * SpareUnit(|bytes|) / Power(64, count - 1 - k) % 64
  {
    DigitOf(Sextets(bytes), 64, count - 1 - k);
    SextetsSpell(bytes);
  }

  /** Symbol `k` of an encoding, of the (4n + 2) / 3 symbols that n bytes become. */
  lemma EncodedSymbol(alphabet: Alphabet, bytes: seq<Byte>, count: nat, k: nat)
    requires k < count == (4 * |bytes| + 2) / 3
    ensures |Encode(alphabet, bytes)| == count && Power(64, count - 1 - k) > 0
    ensures var unit := if |bytes| % 3 == 1 then 16 else if |bytes| % 3 == 2 then 4 else 1;
            Encode(alphabet, bytes)[k]
            == Symbol(alphabet, FromBigEndian(bytes) * unit / Power(64, count - 1 - k) % 64)
  {
    SextetsCounted(bytes);
    CountIs(|bytes|);
    SextetAt(bytes, count, k);
  }

  // ---- What is accepted ----

  /** A line break anywhere makes no difference. */
  lemma {:induction false} StripInserted(a: string, c: char, b: string)
    requires c == '\r' || c == '\n'
    ensures StripNewlines(a + ([c] + b)) == StripNewlines(a + b)
  {
    if a == "" {
      assert a + ([c] + b) == [c] + b && a + b == b && ([c] + b)[1..] == b;
    } else {
      StripInserted(a[1..], c, b);
      assert (a + ([c] + b))[1..] == a[1..] + ([c] + b) && (a + b)[1..] == a[1..] + b;
    }
  }

  lemma {:induction false} PackedUnlessOneOver(sextets: seq<Sextet>)
    ensures Packed(sextets).Some? <==> |sextets| % 4 != 1
  {
    if |sextets| > 3 {
      PackedUnlessOneOver(sextets[4..]);
      FourMore(|sextets| - 4);
    }
  }

  predicate IsSymbol(alphabet: Alphabet, c: char) {
    exists v: Sextet :: Symbol(alphabet, v) == c
  }

  lemma ValueIff(alphabet: Alphabet, c: char)
    ensures Value(alphabet, c).Some? <==> IsSymbol(alphabet, c)
  {
    if IsSymbol(alphabet, c) {
      var v: Sextet :| Symbol(alphabet, v) == c;
      ValueOfSymbol(alphabet, v);
    }
  }

  lemma {:induction false} ValuesIff(alphabet: Alphabet, text: string)
    ensures Values(alphabet, StripNewlines(text)).Some?
            <==> forall c | c in text :: c == '\r' || c == '\n' || IsSymbol(alphabet, c)
  {
    if text != "" {
      var rest := text[1..];
      ValuesIff(alphabet, rest);
      ValueIff(alphabet, text[0]);
      assert forall c :: c in text <==> c == text[0] || c in rest;
      assert ([text[0]] + StripNewlines(rest))[1..] == StripNewlines(rest);
    }
  }

  /** A text decodes unless it holds a foreign character, padding included, or one symbol too many. */
  lemma DecodesIff(alphabet: Alphabet, text: string)
    ensures Decode(alphabet, text).Some?
            <==> && (forall c | c in text :: c == '\r' || c == '\n' || IsSymbol(alphabet, c))
                 && |StripNewlines(text)| % 4 != 1
  {
    ValuesIff(alphabet, text);
    if Values(alphabet, StripNewlines(text)).Some? {
      PackedUnlessOneOver(Values(alphabet, StripNewlines(text)).value);
    }
  }
}
