/** Go's base64.RawURLEncoding and base64.RawStdEncoding: unpadded, and lenient when decoding. */
module Base64 {
  import opened Bytes
  import opened Options

  type Sextet = x: int | 0 <= x < 64

  datatype Alphabet = Url | Std

  function Symbol(alphabet: Alphabet, v: Sextet): char {
    if v < 26 then 'A' + v as char
    else if v < 52 then 'a' + (v - 26) as char
    else if v < 62 then '0' + (v - 52) as char
    else if v == 62 then (if alphabet.Url? then '-' else '+')
    else (if alphabet.Url? then '_' else '/')
  }

  function Value(alphabet: Alphabet, c: char): (v: Option<Sextet>)
    ensures v.Some? ==> Symbol(alphabet, v.value) == c
  {
    if 'A' <= c <= 'Z' then Some((c - 'A') as int)
    else if 'a' <= c <= 'z' then Some((c - 'a') as int + 26)
    else if '0' <= c <= '9' then Some((c - '0') as int + 52)
    else if c == Symbol(alphabet, 62) then Some(62)
    else if c == Symbol(alphabet, 63) then Some(63)
    else None
  }

  lemma ValueOfSymbol(alphabet: Alphabet, v: Sextet)
    ensures Value(alphabet, Symbol(alphabet, v)) == Some(v)
  {
  }

  // ---- Bytes and sextets ----

  function Quad0(x: Byte): Sextet { x / 4 }
  function Quad1(x: Byte, y: Byte): Sextet { x % 4 * 16 + y / 16 }
  function Quad2(y: Byte, z: Byte): Sextet { y % 16 * 4 + z / 64 }
  function Quad3(z: Byte): Sextet { z % 64 }

  function Sextets(bytes: seq<Byte>): seq<Sextet> {
    if |bytes| == 0 then []
    else if |bytes| == 1 then [Quad0(bytes[0]), Quad1(bytes[0], 0)]
    else if |bytes| == 2 then [Quad0(bytes[0]), Quad1(bytes[0], bytes[1]), Quad2(bytes[1], 0)]
    else
      [Quad0(bytes[0]), Quad1(bytes[0], bytes[1]), Quad2(bytes[1], bytes[2]), Quad3(bytes[2])] + Sextets(bytes[3..])
  }

  function Byte0(a: Sextet, b: Sextet): Byte { a * 4 + b / 16 }

  function Byte1(b: Sextet, c: Sextet): Byte { b % 16 * 16 + c / 4 }

  function Byte2(c: Sextet, d: Sextet): Byte { c % 4 * 64 + d }

  /** One sextet over is an error; the spare bits of a final group of two or three are ignored. */
  function Packed(sextets: seq<Sextet>): Option<seq<Byte>> {
    if |sextets| == 0 then Some([])
    else if |sextets| == 1 then None
    else if |sextets| == 2 then Some([Byte0(sextets[0], sextets[1])])
    else if |sextets| == 3 then
      Some([Byte0(sextets[0], sextets[1]), Byte1(sextets[1], sextets[2])])
    else
      match Packed(sextets[4..])
      case None => None
      case Some(rest) =>
        Some([Byte0(sextets[0], sextets[1]), Byte1(sextets[1], sextets[2]), Byte2(sextets[2], sextets[3])] + rest)
  }

  /** The spare bits of the final group are zero. */
  predicate NoSpareBits(sextets: seq<Sextet>) {
    && (|sextets| % 4 == 2 ==> sextets[|sextets| - 1] % 16 == 0)
    && (|sextets| % 4 == 3 ==> sextets[|sextets| - 1] % 4 == 0)
  }

  lemma GroupOfThree(x: Byte, y: Byte, z: Byte)
    ensures Byte0(Quad0(x), Quad1(x, y)) == x
    ensures Byte1(Quad1(x, y), Quad2(y, z)) == y
    ensures Byte2(Quad2(y, z), Quad3(z)) == z
  {
  }

  lemma GroupOfFour(a: Sextet, b: Sextet, c: Sextet, d: Sextet)
    ensures Quad0(Byte0(a, b)) == a
    ensures Quad1(Byte0(a, b), Byte1(b, c)) == b
    ensures Quad2(Byte1(b, c), Byte2(c, d)) == c
    ensures Quad3(Byte2(c, d)) == d
  {
  }

  lemma ShortSextets(x: Byte, y: Byte)
    ensures Sextets([x]) == [Quad0(x), Quad1(x, 0)]
    ensures Sextets([x, y]) == [Quad0(x), Quad1(x, y), Quad2(y, 0)]
  {
  }

  lemma ShortBytes(a: Sextet, b: Sextet, c: Sextet)
    ensures Packed([a, b]) == Some([Byte0(a, b)])
    ensures Packed([a, b, c]) == Some([Byte0(a, b), Byte1(b, c)])
  {
  }

  lemma OneGroup(x: Byte)
    ensures Byte0(Quad0(x), Quad1(x, 0)) == x
  {
  }

  lemma SparesAreZero(x: Byte)
    ensures Quad1(x, 0) % 16 == 0
    ensures Quad2(x, 0) % 4 == 0
  {
  }

  lemma OneByte(x: Byte)
    ensures Packed(Sextets([x])) == Some([x]) && NoSpareBits(Sextets([x]))
  {
    ShortSextets(x, 0);
    ShortBytes(Quad0(x), Quad1(x, 0), 0);
    OneGroup(x);
    SparesAreZero(x);
  }

  lemma TwoBytes(x: Byte, y: Byte)
    ensures Packed(Sextets([x, y])) == Some([x, y]) && NoSpareBits(Sextets([x, y]))
  {
    ShortSextets(x, y);
    ShortBytes(Quad0(x), Quad1(x, y), Quad2(y, 0));
    SparesAreZero(y);
    GroupOfThree(x, y, 0);
  }

  lemma GroupFirst(bytes: seq<Byte>)
    requires |bytes| >= 3
    ensures Sextets(bytes) ==
            [Quad0(bytes[0]), Quad1(bytes[0], bytes[1]), Quad2(bytes[1], bytes[2]), Quad3(bytes[2])]
            + Sextets(bytes[3..])
  {
  }

  lemma BytesFirst(a: Sextet, b: Sextet, c: Sextet, d: Sextet, rest: seq<Sextet>)
    requires Packed(rest).Some?
    ensures Packed([a, b, c, d] + rest) == Some([Byte0(a, b), Byte1(b, c), Byte2(c, d)] + Packed(rest).value)
  {
    assert ([a, b, c, d] + rest)[4..] == rest;
  }

  lemma FirstGroup(bytes: seq<Byte>)
    requires |bytes| >= 3 && Packed(Sextets(bytes[3..])) == Some(bytes[3..])
    ensures Packed(Sextets(bytes)) == Some(bytes)
  {
    GroupFirst(bytes);
    Regroup(bytes, Quad0(bytes[0]), Quad1(bytes[0], bytes[1]), Quad2(bytes[1], bytes[2]), Quad3(bytes[2]),
            Sextets(bytes[3..]));
  }

  lemma Regroup(bytes: seq<Byte>, a: Sextet, b: Sextet, c: Sextet, d: Sextet, rest: seq<Sextet>)
    requires |bytes| >= 3 && Packed(rest) == Some(bytes[3..])
    requires a == Quad0(bytes[0]) && b == Quad1(bytes[0], bytes[1])
    requires c == Quad2(bytes[1], bytes[2]) && d == Quad3(bytes[2])
    ensures Packed([a, b, c, d] + rest) == Some(bytes)
  {
    BytesFirst(a, b, c, d, rest);
    GroupOfThree(bytes[0], bytes[1], bytes[2]);
    assert bytes == [bytes[0], bytes[1], bytes[2]] + bytes[3..];
  }

  lemma {:induction false} BytesOfSextets(bytes: seq<Byte>)
    ensures Packed(Sextets(bytes)) == Some(bytes)
    ensures NoSpareBits(Sextets(bytes))
  {
    if |bytes| == 1 {
      assert bytes == [bytes[0]];
      OneByte(bytes[0]);
    } else if |bytes| == 2 {
      assert bytes == [bytes[0], bytes[1]];
      TwoBytes(bytes[0], bytes[1]);
    } else if |bytes| > 2 {
      BytesOfSextets(bytes[3..]);
      FirstGroup(bytes);
      SpareBitsAreLast(Sextets(bytes), Sextets(bytes[3..]));
    }
  }

  lemma SpareBitsAreLast(sextets: seq<Sextet>, rest: seq<Sextet>)
    requires |sextets| >= 4 && sextets[4..] == rest
    ensures NoSpareBits(sextets) <==> NoSpareBits(rest)
  {
    FourMore(|rest|);
    assert |sextets| == |rest| + 4;
    if |rest| > 0 {
      assert sextets[|sextets| - 1] == rest[|rest| - 1];
    }
  }

  lemma FourMore(n: nat)
    ensures (n + 4) % 4 == n % 4
  {
  }

  lemma DivMod4(m: nat, q: nat)
    requires q < 4
    ensures (m * 4 + q) % 4 == q && (m * 4 + q) / 4 == m
  {
  }

  lemma DivMod16(m: nat, q: nat)
    requires q < 16
    ensures (m * 16 + q) % 16 == q && (m * 16 + q) / 16 == m
  {
  }

  lemma FirstOfTwo(a: Sextet, b: Sextet)
    ensures Quad0(Byte0(a, b)) == a
  {
    DivMod4(a, b / 16);
  }

  lemma LastOfTwo(a: Sextet, b: Sextet)
    requires b % 16 == 0
    ensures Quad1(Byte0(a, b), 0) == b
  {
    var q := b / 16;
    assert b == 16 * q && q < 4;
    DivMod4(a, q);
  }

  lemma LastOfThree(b: Sextet, c: Sextet)
    requires c % 4 == 0
    ensures Quad2(Byte1(b, c), 0) == c
  {
    var q := c / 4;
    assert c == 4 * q && q < 16;
    DivMod16(b % 16, q);
  }

  lemma TwoSextets(a: Sextet, b: Sextet)
    requires b % 16 == 0
    ensures Packed([a, b]).Some? && Sextets(Packed([a, b]).value) == [a, b]
  {
    ShortBytes(a, b, 0);
    ShortSextets(Byte0(a, b), 0);
    FirstOfTwo(a, b);
    LastOfTwo(a, b);
  }

  lemma {:induction false} LastGroup(sextets: seq<Sextet>, rest: seq<Byte>)
    requires |sextets| >= 4 && Packed(sextets[4..]) == Some(rest) && Sextets(rest) == sextets[4..]
    ensures Packed(sextets).Some? && Sextets(Packed(sextets).value) == sextets
  {
    var bytes := Packed(sextets).value;
    assert bytes[3..] == rest;
    GroupOfFour(sextets[0], sextets[1], sextets[2], sextets[3]);
    assert sextets == [sextets[0], sextets[1], sextets[2], sextets[3]] + sextets[4..];
  }

  lemma {:induction false} SextetsOfBytes(sextets: seq<Sextet>, bytes: seq<Byte>)
    requires Packed(sextets) == Some(bytes) && NoSpareBits(sextets)
    ensures Sextets(bytes) == sextets
  {
    if |sextets| == 2 {
      assert sextets == [sextets[0], sextets[1]];
      TwoSextets(sextets[0], sextets[1]);
    } else if |sextets| == 3 {
      var a, b, c := sextets[0], sextets[1], sextets[2];
      assert sextets == [a, b, c];
      ShortBytes(a, b, c);
      ShortSextets(Byte0(a, b), Byte1(b, c));
      LastOfThree(b, c);
      GroupOfFour(a, b, c, 0);
    } else if |sextets| > 3 {
      SpareBitsAreLast(sextets, sextets[4..]);
      SextetsOfBytes(sextets[4..], Packed(sextets[4..]).value);
      LastGroup(sextets, Packed(sextets[4..]).value);
    }
  }

  // ---- Spare bits ----

  /** How many values the spare bits of n bytes can take. */
  function SpareUnit(n: nat): nat {
    if n % 3 == 1 then 16 else if n % 3 == 2 then 4 else 1
  }

  /** The part of the last of `count` sextets that is read. */
  function Kept(x: Sextet, count: nat): nat {
    if count % 4 == 2 then x / 16 else if count % 4 == 3 then x / 4 else x
  }

  /** And the part that is not. */
  function Spare(x: Sextet, count: nat): nat {
    if count % 4 == 2 then x % 16 else if count % 4 == 3 then x % 4 else 0
  }

  /** The spare bits of the final group make no difference. */
  lemma {:induction false} SpareBitsIgnored(sextets: seq<Sextet>, v: Sextet)
    requires |sextets| > 0 && Kept(v, |sextets|) == Kept(sextets[|sextets| - 1], |sextets|)
    ensures Packed(sextets[|sextets| - 1 := v]) == Packed(sextets)
  {
    var n := |sextets|;
    var other := sextets[n - 1 := v];
    if n % 4 == 0 || n % 4 == 1 {
      assert other == sextets;
    } else if n > 4 {
      SpareBitsIgnored(sextets[4..], v);
      assert other[4..] == sextets[4..][n - 5 := v];
    }
  }

  /** How many sextets n bytes become. */
  function SextetCount(n: nat): nat {
    if n == 0 then 0 else if n == 1 then 2 else if n == 2 then 3 else 4 + SextetCount(n - 3)
  }

  lemma {:induction false} CountIsSpare(n: nat)
    ensures n > 0 ==> SextetCount(n) > 0
    ensures SextetCount(n) % 4 == (if n % 3 == 0 then 0 else n % 3 + 1)
  {
    if n > 2 {
      CountIsSpare(n - 3);
    }
  }

  lemma {:induction false} SextetsCounted(bytes: seq<Byte>)
    ensures |Sextets(bytes)| == SextetCount(|bytes|)
  {
    if |bytes| > 2 {
      GroupFirst(bytes);
      SextetsCounted(bytes[3..]);
    } else if |bytes| == 1 {
      assert bytes == [bytes[0]];
      ShortSextets(bytes[0], 0);
    } else if |bytes| == 2 {
      assert bytes == [bytes[0], bytes[1]];
      ShortSextets(bytes[0], bytes[1]);
    }
  }

  /** Spare bits can be set where there are none, and cleared. */
  lemma SpareBitsFit(x: Sextet, count: nat, n: nat, bits: nat)
    requires count % 4 == (if n % 3 == 0 then 0 else n % 3 + 1)
    ensures Spare(x, count) == 0 && bits < SpareUnit(n) ==>
              x + bits < 64 && Kept(x + bits, count) == Kept(x, count) && Spare(x + bits, count) == bits
    ensures Spare(x, count) < SpareUnit(n) && Spare(x, count) <= x
    ensures Kept(x - Spare(x, count), count) == Kept(x, count) && Spare(x - Spare(x, count), count) == 0
  {
  }

  /** The encoder leaves the spare bits of its last sextet at zero. */
  lemma LastIsClean(bytes: seq<Byte>)
    requires |bytes| > 0
    ensures |Sextets(bytes)| > 0
    ensures |Sextets(bytes)| % 4 == (if |bytes| % 3 == 0 then 0 else |bytes| % 3 + 1)
    ensures Spare(Sextets(bytes)[|Sextets(bytes)| - 1], |Sextets(bytes)|) == 0
  {
    SextetsCounted(bytes);
    CountIsSpare(|bytes|);
    BytesOfSextets(bytes);
  }

  /** The sextets with these bits added to the last one. */
  function AddToLast(sextets: seq<Sextet>, bits: nat): seq<Sextet>
    requires |sextets| > 0 && sextets[|sextets| - 1] + bits < 64
  {
    sextets[|sextets| - 1 := sextets[|sextets| - 1] + bits]
  }

  /** The sextets of some bytes, with these spare bits set in the last one. */
  function WithSpareBits(bytes: seq<Byte>, bits: nat): (sextets: seq<Sextet>)
    requires |bytes| > 0 && bits < SpareUnit(|bytes|)
    ensures |sextets| == |Sextets(bytes)| > 0
  {
    LastIsClean(bytes);
    SpareBitsFit(Sextets(bytes)[|Sextets(bytes)| - 1], |Sextets(bytes)|, |bytes|, bits);
    AddToLast(Sextets(bytes), bits)
  }

  lemma AddedBitsIgnored(sextets: seq<Sextet>, n: nat, bits: nat)
    requires |sextets| > 0 && |sextets| % 4 == (if n % 3 == 0 then 0 else n % 3 + 1)
    requires Spare(sextets[|sextets| - 1], |sextets|) == 0 && bits < SpareUnit(n)
    ensures sextets[|sextets| - 1] + bits < 64
    ensures Packed(AddToLast(sextets, bits)) == Packed(sextets)
  {
    var last := sextets[|sextets| - 1];
    SpareBitsFit(last, |sextets|, n, bits);
    SpareBitsIgnored(sextets, last + bits);
  }

  /** Whatever the spare bits, the same bytes are read. */
  lemma BytesOfSpareBits(bytes: seq<Byte>, bits: nat)
    requires |bytes| > 0 && bits < SpareUnit(|bytes|)
    ensures Packed(WithSpareBits(bytes, bits)) == Some(bytes)
  {
    LastIsClean(bytes);
    BytesOfSextets(bytes);
    AddedBitsIgnored(Sextets(bytes), |bytes|, bits);
  }

  /** Without its spare bits, a sequence that is read as some bytes is the encoder's. */
  lemma CleanedIsEncoded(sextets: seq<Sextet>, v: Sextet)
    requires |sextets| > 0 && Packed(sextets).Some?
    requires Spare(v, |sextets|) == 0 && Kept(v, |sextets|) == Kept(sextets[|sextets| - 1], |sextets|)
    ensures sextets[|sextets| - 1 := v] == Sextets(Packed(sextets).value)
  {
    SpareBitsIgnored(sextets, v);
    SextetsOfBytes(sextets[|sextets| - 1 := v], Packed(sextets).value);
  }

  lemma CleanedAndBack(sextets: seq<Sextet>, clean: seq<Sextet>, bits: nat)
    requires |sextets| > 0 && bits <= sextets[|sextets| - 1]
    requires clean == sextets[|sextets| - 1 := sextets[|sextets| - 1] - bits]
    ensures sextets == AddToLast(clean, bits)
  {
  }

  lemma ClearedAndRestored(sextets: seq<Sextet>)
    requires |sextets| > 0 && Packed(sextets).Some?
    ensures var bits, clean := Spare(sextets[|sextets| - 1], |sextets|), Sextets(Packed(sextets).value);
            && |clean| == |sextets| && clean[|clean| - 1] + bits < 64
            && sextets == AddToLast(clean, bits)
  {
    var last := sextets[|sextets| - 1];
    var bits := Spare(last, |sextets|);
    SpareBitsCleared(last, |sextets|);
    CleanedIsEncoded(sextets, last - bits);
    CleanedAndBack(sextets, sextets[|sextets| - 1 := last - bits], bits);
  }

  lemma SpareIsSmall(x: Sextet, bytes: seq<Byte>)
    ensures Spare(x, |Sextets(bytes)|) < SpareUnit(|bytes|)
  {
    SextetsCounted(bytes);
    CountIsSpare(|bytes|);
  }

  /** And nothing but spare bits tells two sextet sequences of the same bytes apart. */
  lemma OnlySpareBitsDiffer(sextets: seq<Sextet>, bytes: seq<Byte>)
    requires |sextets| > 0 && |bytes| > 0 && Packed(sextets) == Some(bytes)
    ensures Spare(sextets[|sextets| - 1], |sextets|) < SpareUnit(|bytes|)
    ensures sextets == WithSpareBits(bytes, Spare(sextets[|sextets| - 1], |sextets|))
  {
    ClearedAndRestored(sextets);
    SpareIsSmall(sextets[|sextets| - 1], bytes);
  }

  lemma SpareBitsCleared(x: Sextet, count: nat)
    ensures Spare(x, count) <= x
    ensures Kept(x - Spare(x, count), count) == Kept(x, count) && Spare(x - Spare(x, count), count) == 0
  {
  }

  // ---- Text ----

  function Symbols(alphabet: Alphabet, sextets: seq<Sextet>): (text: string)
    ensures |text| == |sextets|
    ensures forall k | 0 <= k < |text| :: text[k] == Symbol(alphabet, sextets[k])
  {
    if |sextets| == 0 then "" else [Symbol(alphabet, sextets[0])] + Symbols(alphabet, sextets[1..])
  }

  /** Any symbol outside the alphabet, padding included, is an error. */
  function Values(alphabet: Alphabet, text: string): (sextets: Option<seq<Sextet>>)
    ensures sextets.Some? ==> |sextets.value| == |text|
  {
    if |text| == 0 then Some([])
    else
      match (Value(alphabet, text[0]), Values(alphabet, text[1..]))
      case (Some(v), Some(rest)) => Some([v] + rest)
      case _ => None
  }

  lemma {:induction false} ValuesOfSymbols(alphabet: Alphabet, sextets: seq<Sextet>)
    ensures Values(alphabet, Symbols(alphabet, sextets)) == Some(sextets)
  {
    if |sextets| > 0 {
      ValuesOfSymbols(alphabet, sextets[1..]);
      ValueOfSymbol(alphabet, sextets[0]);
      assert Symbols(alphabet, sextets)[1..] == Symbols(alphabet, sextets[1..]);
      assert sextets == [sextets[0]] + sextets[1..];
    }
  }

  lemma {:induction false} SymbolsOfValues(alphabet: Alphabet, text: string)
    requires Values(alphabet, text).Some?
    ensures Symbols(alphabet, Values(alphabet, text).value) == text
  {
    if |text| > 0 {
      SymbolsOfValues(alphabet, text[1..]);
      var sextets := Values(alphabet, text).value;
      assert sextets[1..] == Values(alphabet, text[1..]).value;
    }
  }

  predicate IsNewline(c: char) {
    c == '\r' || c == '\n'
  }

  /** Line breaks are skipped wherever they stand. */
  function StripNewlines(text: string): string {
    if text == "" then ""
    else if IsNewline(text[0]) then StripNewlines(text[1..])
    else [text[0]] + StripNewlines(text[1..])
  }

  lemma {:induction false} StripShortens(text: string)
    ensures |StripNewlines(text)| <= |text|
    ensures StripNewlines(text) == text <==> forall c | c in text :: !IsNewline(c)
    ensures |StripNewlines(text)| == |text| ==> StripNewlines(text) == text
  {
    if text != "" {
      StripShortens(text[1..]);
      assert text == [text[0]] + text[1..];
      if IsNewline(text[0]) {
        assert text[0] in text;
      } else if StripNewlines(text[1..]) == text[1..] {
        forall c | c in text ensures !IsNewline(c) {
          assert c == text[0] || c in text[1..];
        }
      } else {
        var c :| c in text[1..] && IsNewline(c);
        assert c in text;
      }
    }
  }

  lemma {:induction false} StripAppended(text: string, c: char)
    requires IsNewline(c)
    ensures StripNewlines(text + [c]) == StripNewlines(text)
  {
    if text != "" {
      StripAppended(text[1..], c);
      assert (text + [c])[1..] == text[1..] + [c];
    }
  }

  function Encode(alphabet: Alphabet, bytes: seq<Byte>): string {
    Symbols(alphabet, Sextets(bytes))
  }

  function Decode(alphabet: Alphabet, text: string): Option<seq<Byte>> {
    match Values(alphabet, StripNewlines(text))
    case None => None
    case Some(sextets) => Packed(sextets)
  }

  /** The spelling Encode produces: no line breaks, no spare bits. */
  predicate Canonical(alphabet: Alphabet, text: string) {
    && StripNewlines(text) == text
    && Values(alphabet, text).Some?
    && NoSpareBits(Values(alphabet, text).value)
  }

  /** Symbols of the alphabet are neither line breaks nor separators. */
  lemma SymbolsArePlain(alphabet: Alphabet, sextets: seq<Sextet>)
    ensures StripNewlines(Symbols(alphabet, sextets)) == Symbols(alphabet, sextets)
    ensures forall c | c in Symbols(alphabet, sextets) :: Value(alphabet, c).Some? && c != '.' && c != '$'
  {
    var text := Symbols(alphabet, sextets);
    forall c | c in text ensures Value(alphabet, c).Some? && c != '.' && c != '$' && !IsNewline(c) {
      var k :| 0 <= k < |text| && text[k] == c;
      assert c == Symbol(alphabet, sextets[k]);
      ValueOfSymbol(alphabet, sextets[k]);
    }
    StripShortens(text);
  }

  lemma EncodedIsPlain(alphabet: Alphabet, bytes: seq<Byte>)
    ensures StripNewlines(Encode(alphabet, bytes)) == Encode(alphabet, bytes)
    ensures forall c | c in Encode(alphabet, bytes) :: c != '.' && c != '$'
  {
    SymbolsArePlain(alphabet, Sextets(bytes));
  }

  /** Every byte sequence survives the trip through text. */
  lemma DecodeOfEncode(alphabet: Alphabet, bytes: seq<Byte>)
    ensures Decode(alphabet, Encode(alphabet, bytes)) == Some(bytes)
    ensures Canonical(alphabet, Encode(alphabet, bytes))
  {
    EncodedIsPlain(alphabet, bytes);
    ValuesOfSymbols(alphabet, Sextets(bytes));
    BytesOfSextets(bytes);
  }

  /** Of all the spellings that decode to the same bytes, exactly the canonical one is Encode's. */
  lemma OnlyCanonicalIsEncoded(alphabet: Alphabet, text: string)
    requires Decode(alphabet, text).Some?
    ensures text == Encode(alphabet, Decode(alphabet, text).value) <==> Canonical(alphabet, text)
  {
    if Canonical(alphabet, text) {
      SextetsOfBytes(Values(alphabet, text).value, Decode(alphabet, text).value);
      SymbolsOfValues(alphabet, text);
    } else {
      DecodeOfEncode(alphabet, Decode(alphabet, text).value);
    }
  }

  /** The text of some bytes with these spare bits set in its last symbol. */
  function Respelt(alphabet: Alphabet, bytes: seq<Byte>, bits: nat): string
    requires |bytes| > 0 && bits < SpareUnit(|bytes|)
  {
    Symbols(alphabet, WithSpareBits(bytes, bits))
  }

  lemma RespeltDecodes(alphabet: Alphabet, bytes: seq<Byte>, bits: nat)
    requires |bytes| > 0 && bits < SpareUnit(|bytes|)
    ensures Decode(alphabet, Respelt(alphabet, bytes, bits)) == Some(bytes)
  {
    SymbolsArePlain(alphabet, WithSpareBits(bytes, bits));
    ValuesOfSymbols(alphabet, WithSpareBits(bytes, bits));
    BytesOfSpareBits(bytes, bits);
  }

  /** Other spare bits are another text, and no spare bits are the encoder's. */
  lemma RespeltDiffers(alphabet: Alphabet, bytes: seq<Byte>, bits: nat, others: nat)
    requires |bytes| > 0 && bits < SpareUnit(|bytes|) && others < SpareUnit(|bytes|)
    ensures Respelt(alphabet, bytes, bits) == Respelt(alphabet, bytes, others) <==> bits == others
    ensures Respelt(alphabet, bytes, 0) == Encode(alphabet, bytes)
    ensures |Respelt(alphabet, bytes, bits)| == |Encode(alphabet, bytes)|
  {
    LastIsClean(bytes);
    var sextets := Sextets(bytes);
    assert WithSpareBits(bytes, 0) == sextets;
    if Respelt(alphabet, bytes, bits) == Respelt(alphabet, bytes, others) {
      ValuesOfSymbols(alphabet, WithSpareBits(bytes, bits));
      ValuesOfSymbols(alphabet, WithSpareBits(bytes, others));
      assert WithSpareBits(bytes, bits)[|sextets| - 1] == WithSpareBits(bytes, others)[|sextets| - 1];
    }
  }

  /** Without line breaks, nothing but spare bits tells two texts of the same bytes apart. */
  lemma DecodedIsRespelt(alphabet: Alphabet, text: string, bytes: seq<Byte>) returns (bits: nat)
    requires StripNewlines(text) == text && |bytes| > 0 && Decode(alphabet, text) == Some(bytes)
    ensures bits < SpareUnit(|bytes|) && text == Respelt(alphabet, bytes, bits)
  {
    var sextets := Values(alphabet, text).value;
    OnlySpareBitsDiffer(sextets, bytes);
    SymbolsOfValues(alphabet, text);
    bits := Spare(sextets[|sextets| - 1], |sextets|);
  }
}
