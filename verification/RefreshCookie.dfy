/** The refresh cookie: `<base64url(user id)>.<base64url(secret)>`. */
module RefreshCookie {
  import opened Base64
  import opened Base64Digits
  import opened Bytes
  import opened Text

  const UUID_LENGTH := 16
  const REFRESH_SECRET_LENGTH := 32
  const SEPARATOR := '.'

  datatype Cookie = Cookie(userId: seq<Byte>, secret: seq<Byte>)

  datatype Error = NotTwoParts | UserNotBase64 | UserNotUuid | SecretNotBase64 | SecretLength

  datatype Result = Ok(cookie: Cookie) | Err(error: Error)

  function Format(userId: seq<Byte>, secret: seq<Byte>): string {
    Encode(Url, userId) + ([SEPARATOR] + Encode(Url, secret))
  }

  function Parse(raw: string): Result {
    var parts := Split(raw, SEPARATOR);
    if |parts| != 2 then Err(NotTwoParts)
    else
      match Decode(Url, parts[0])
      case None => Err(UserNotBase64)
      case Some(userId) =>
        if |userId| != UUID_LENGTH then Err(UserNotUuid)
        else
          match Decode(Url, parts[1])
          case None => Err(SecretNotBase64)
          case Some(secret) =>
            if |secret| != REFRESH_SECRET_LENGTH then Err(SecretLength)
            else Ok(Cookie(userId, secret))
  }

  lemma SplitFormatted(userId: seq<Byte>, secret: seq<Byte>)
    ensures Split(Format(userId, secret), SEPARATOR) == [Encode(Url, userId), Encode(Url, secret)]
  {
    EncodedIsPlain(Url, userId);
    EncodedIsPlain(Url, secret);
    SplitAt(Encode(Url, userId), Encode(Url, secret), SEPARATOR);
    SplitNone(Encode(Url, secret), SEPARATOR);
  }

  /** What was formatted parses back when, and only when, both halves have the lengths this server issues. */
  lemma ParseOfFormat(userId: seq<Byte>, secret: seq<Byte>)
    ensures Parse(Format(userId, secret)) ==
            if |userId| != 16 then Err(UserNotUuid)
            else if |secret| != 32 then Err(SecretLength)
            else Ok(Cookie(userId, secret))
  {
    SplitFormatted(userId, secret);
    DecodeOfEncode(Url, userId);
    DecodeOfEncode(Url, secret);
  }

  lemma HalvesAt(a: string, b: string, k: nat)
    requires k <= |a| + |b|
    ensures (a + ([SEPARATOR] + b))[k]
            == if k < |a| then a[k] else if k == |a| then SEPARATOR else b[k - |a| - 1]
  {
  }

  /** A value without exactly one dot is not two parts. */
  lemma NotTwoPartsIff(raw: string)
    ensures Parse(raw) == Err(NotTwoParts) <==> multiset(raw)['.'] != 1
  {
    PartsCounted(raw, '.');
  }

  /** Of two halves the id is looked at first: whether it decodes, then its length, then the same of the secret. */
  lemma ParseOfHalves(user: string, secret: string)
    requires '.' !in user && '.' !in secret
    ensures Parse(user + ("." + secret)) ==
            if Decode(Url, user).None? then Err(UserNotBase64)
            else if |Decode(Url, user).value| != 16 then Err(UserNotUuid)
            else if Decode(Url, secret).None? then Err(SecretNotBase64)
            else if |Decode(Url, secret).value| != 32 then Err(SecretLength)
            else Ok(Cookie(Decode(Url, user).value, Decode(Url, secret).value))
  {
    SplitAt(user, secret, '.');
    SplitNone(secret, '.');
    assert [user] + [secret] == [user, secret];
  }

  /**
   The cookie symbol by symbol: 22 that spell the user id, a dot, 43 that spell the secret, in base 64 with the most
   significant symbol first and zero bits after the last byte.
   */
  lemma FormattedSymbol(userId: seq<Byte>, secret: seq<Byte>, k: nat)
    requires |userId| == 16 && |secret| == 32 && k < 66
    ensures |Format(userId, secret)| == 66
    ensures k < 22 ==>
              && Power(64, 21 - k) > 0
              && Format(userId, secret)[k] == Symbol(Url, FromBigEndian(userId) * 16 / Power(64, 21 - k) % 64)
    ensures k == 22 ==> Format(userId, secret)[k] == '.'
    ensures k > 22 ==>
              && Power(64, 65 - k) > 0
              && Format(userId, secret)[k] == Symbol(Url, FromBigEndian(secret) * 4 / Power(64, 65 - k) % 64)
  {
    EncodedSymbol(Url, userId, 22, if k < 22 then k else 0);
    EncodedSymbol(Url, secret, 43, if k > 22 then k - 23 else 0);
    HalvesAt(Encode(Url, userId), Encode(Url, secret), k);
  }

  /** Different owners or different secrets never share a cookie value. */
  lemma FormatIsInjective(a: Cookie, b: Cookie)
    requires Format(a.userId, a.secret) == Format(b.userId, b.secret)
    ensures a == b
  {
    SplitFormatted(a.userId, a.secret);
    SplitFormatted(b.userId, b.secret);
    DecodeOfEncode(Url, a.userId);
    DecodeOfEncode(Url, b.userId);
    DecodeOfEncode(Url, a.secret);
    DecodeOfEncode(Url, b.secret);
  }

  predicate CanonicalHalves(raw: string) {
    && |Split(raw, SEPARATOR)| == 2
    && Canonical(Url, Split(raw, SEPARATOR)[0])
    && Canonical(Url, Split(raw, SEPARATOR)[1])
  }

  /** An accepted value is the one this server issued for its cookie exactly when both halves are spelt canonically. */
  lemma AcceptedIsIssuedIffCanonical(raw: string, cookie: Cookie)
    requires Parse(raw) == Ok(cookie)
    ensures raw == Format(cookie.userId, cookie.secret) <==> CanonicalHalves(raw)
  {
    var parts := Split(raw, SEPARATOR);
    OnlyCanonicalIsEncoded(Url, parts[0]);
    OnlyCanonicalIsEncoded(Url, parts[1]);
    JoinSplit(raw, SEPARATOR);
    assert parts[1..] == [parts[1]];
    assert raw == parts[0] + ([SEPARATOR] + parts[1]);
    SplitFormatted(cookie.userId, cookie.secret);
  }

  // ---- Other spellings ----

  // The values the spare bits of a 16-byte id and of a 32-byte secret can take.
  const ID_SPELLINGS := 16
  const SECRET_SPELLINGS := 4

  /** The cookie value with these spare bits set in the last symbol of its halves. */
  function Spelling(cookie: Cookie, u: nat, v: nat): string
    requires |cookie.userId| == UUID_LENGTH && |cookie.secret| == REFRESH_SECRET_LENGTH
    requires u < ID_SPELLINGS && v < SECRET_SPELLINGS
  {
    Respelt(Url, cookie.userId, u) + ([SEPARATOR] + Respelt(Url, cookie.secret, v))
  }

  lemma SplitSpelling(cookie: Cookie, u: nat, v: nat)
    requires |cookie.userId| == UUID_LENGTH && |cookie.secret| == REFRESH_SECRET_LENGTH
    requires u < ID_SPELLINGS && v < SECRET_SPELLINGS
    ensures Split(Spelling(cookie, u, v), SEPARATOR)
            == [Respelt(Url, cookie.userId, u), Respelt(Url, cookie.secret, v)]
  {
    SymbolsArePlain(Url, WithSpareBits(cookie.userId, u));
    SymbolsArePlain(Url, WithSpareBits(cookie.secret, v));
    SplitAt(Respelt(Url, cookie.userId, u), Respelt(Url, cookie.secret, v), SEPARATOR);
    SplitNone(Respelt(Url, cookie.secret, v), SEPARATOR);
  }

  predicate InCookieAlphabet(raw: string) {
    forall c | c in raw :: Value(Url, c).Some? || c == SEPARATOR
  }

  lemma SpellingParses(cookie: Cookie, u: nat, v: nat)
    requires |cookie.userId| == UUID_LENGTH && |cookie.secret| == REFRESH_SECRET_LENGTH
    requires u < ID_SPELLINGS && v < SECRET_SPELLINGS
    ensures Parse(Spelling(cookie, u, v)) == Ok(cookie)
  {
    SplitSpelling(cookie, u, v);
    RespeltDecodes(Url, cookie.userId, u);
    RespeltDecodes(Url, cookie.secret, v);
  }

  lemma SpellingInAlphabet(cookie: Cookie, u: nat, v: nat)
    requires |cookie.userId| == UUID_LENGTH && |cookie.secret| == REFRESH_SECRET_LENGTH
    requires u < ID_SPELLINGS && v < SECRET_SPELLINGS
    ensures InCookieAlphabet(Spelling(cookie, u, v))
  {
    SymbolsArePlain(Url, WithSpareBits(cookie.userId, u));
    SymbolsArePlain(Url, WithSpareBits(cookie.secret, v));
  }

  lemma SpellingIsOther(cookie: Cookie, u: nat, v: nat)
    requires |cookie.userId| == UUID_LENGTH && |cookie.secret| == REFRESH_SECRET_LENGTH
    requires u < ID_SPELLINGS && v < SECRET_SPELLINGS
    ensures |Spelling(cookie, u, v)| == |Format(cookie.userId, cookie.secret)|
    ensures Spelling(cookie, u, v) == Format(cookie.userId, cookie.secret) <==> u == 0 && v == 0
  {
    SplitSpelling(cookie, u, v);
    SplitFormatted(cookie.userId, cookie.secret);
    RespeltDiffers(Url, cookie.userId, u, 0);
    RespeltDiffers(Url, cookie.secret, v, 0);
  }

  /**
   Refusing padding does not make spellings unique: the spare bits of either half can be set. Each such value is as
   long as the issued one and has the same alphabet, is another text, and is accepted for the same cookie.
   */
  lemma SecondSpelling(cookie: Cookie, u: nat, v: nat)
    requires |cookie.userId| == UUID_LENGTH && |cookie.secret| == REFRESH_SECRET_LENGTH
    requires u < ID_SPELLINGS && v < SECRET_SPELLINGS
    ensures Parse(Spelling(cookie, u, v)) == Ok(cookie)
    ensures InCookieAlphabet(Spelling(cookie, u, v))
    ensures |Spelling(cookie, u, v)| == |Format(cookie.userId, cookie.secret)|
    ensures Spelling(cookie, u, v) == Format(cookie.userId, cookie.secret) <==> u == 0 && v == 0
  {
    SpellingParses(cookie, u, v);
    SpellingInAlphabet(cookie, u, v);
    SpellingIsOther(cookie, u, v);
  }

  lemma SpellingsDiffer(cookie: Cookie, u: nat, v: nat, w: nat, x: nat)
    requires |cookie.userId| == UUID_LENGTH && |cookie.secret| == REFRESH_SECRET_LENGTH
    requires u < ID_SPELLINGS && v < SECRET_SPELLINGS && w < ID_SPELLINGS && x < SECRET_SPELLINGS
    requires Spelling(cookie, u, v) == Spelling(cookie, w, x)
    ensures u == w && v == x
  {
    SplitSpelling(cookie, u, v);
    SplitSpelling(cookie, w, x);
    RespeltDiffers(Url, cookie.userId, u, w);
    RespeltDiffers(Url, cookie.secret, v, x);
  }

  lemma PlainHalves(raw: string) returns (parts: seq<string>)
    requires forall c | c in raw :: c != '\r' && c != '\n'
    requires |Split(raw, SEPARATOR)| == 2
    ensures parts == Split(raw, SEPARATOR) && raw == parts[0] + ([SEPARATOR] + parts[1])
    ensures StripNewlines(parts[0]) == parts[0] && StripNewlines(parts[1]) == parts[1]
  {
    parts := Split(raw, SEPARATOR);
    JoinSplit(raw, SEPARATOR);
    assert parts[1..] == [parts[1]];
    assert forall c | c in parts[0] || c in parts[1] :: c in raw;
    StripShortens(parts[0]);
    StripShortens(parts[1]);
  }

  /** A value without line breaks is accepted for a cookie if and only if it is one of these 64 spellings of it. */
  lemma SixtyFourSpellings(raw: string, cookie: Cookie)
    requires |cookie.userId| == UUID_LENGTH && |cookie.secret| == REFRESH_SECRET_LENGTH
    requires forall c | c in raw :: c != '\r' && c != '\n'
    ensures Parse(raw) == Ok(cookie)
            <==> exists u: nat, v: nat | u < ID_SPELLINGS && v < SECRET_SPELLINGS :: raw == Spelling(cookie, u, v)
  {
    if Parse(raw) == Ok(cookie) {
      var parts := PlainHalves(raw);
      var u := DecodedIsRespelt(Url, parts[0], cookie.userId);
      var v := DecodedIsRespelt(Url, parts[1], cookie.secret);
      assert raw == Spelling(cookie, u, v);
    } else if u: nat, v: nat :| u < ID_SPELLINGS && v < SECRET_SPELLINGS && raw == Spelling(cookie, u, v) {
      SpellingParses(cookie, u, v);
    }
  }

  /** The same parts, but for line breaks in them. */
  predicate SameStripped(a: seq<string>, b: seq<string>) {
    |a| == |b| && forall i | 0 <= i < |a| :: StripNewlines(a[i]) == StripNewlines(b[i])
  }

  lemma SameLengthened(a: seq<string>, b: seq<string>, d: char)
    requires SameStripped(a, b) && |a| > 0
    ensures SameStripped(Lengthen(d, a), Lengthen(d, b))
    ensures SameStripped([""] + a, [""] + b)
    ensures d == '\r' || d == '\n' ==> SameStripped(Lengthen(d, a), b)
  {
    assert ([d] + a[0])[1..] == a[0] && ([d] + b[0])[1..] == b[0];
  }

  lemma {:induction false} PartsStripped(a: string, c: char, b: string)
    requires c == '\r' || c == '\n'
    ensures SameStripped(Split(a + ([c] + b), SEPARATOR), Split(a + b, SEPARATOR))
  {
    if a == "" {
      assert a + b == b && a + ([c] + b) == [c] + b;
      SplitFirst(c, b, SEPARATOR);
      SameLengthened(Split(b, SEPARATOR), Split(b, SEPARATOR), c);
    } else {
      var d, t := a[0], a[1..];
      PartsStripped(t, c, b);
      assert a + b == [d] + (t + b) && a + ([c] + b) == [d] + (t + ([c] + b));
      SplitFirst(d, t + b, SEPARATOR);
      SplitFirst(d, t + ([c] + b), SEPARATOR);
      SameLengthened(Split(t + ([c] + b), SEPARATOR), Split(t + b, SEPARATOR), d);
    }
  }

  /** A line break anywhere in a value changes nothing about what is made of it, not even the error. */
  lemma LineBreakIsSkipped(a: string, c: char, b: string)
    requires c == '\r' || c == '\n'
    ensures Parse(a + ([c] + b)) == Parse(a + b)
  {
    PartsStripped(a, c, b);
  }
}
