/** Password hashes in PHC form: `$argon2id$v=19$m=<memory>,t=<time>,p=<lanes>$<salt>$<key>`. */
module PhcHash {
  import opened Options
  import opened Text
  import opened Base64
  import opened Bytes
  import opened Decimal

  const VERSION := 19
  const MAX_COMPONENT := 1024
  const UINT32_LIMIT := 0x1_0000_0000
  const UINT8_LIMIT := 0x100

  type Uint32 = n: int | 0 <= n < UINT32_LIMIT
  type Uint8 = n: int | 0 <= n < UINT8_LIMIT

  datatype Params = Params(memory: Uint32, time: Uint32, parallelism: Uint8, saltLength: Uint32, keyLength: Uint32)

  /** Argon2id itself: any function of the password, the salt, the passes, the memory, the lanes and the key length. */
  type Kdf = (string, seq<Byte>, Uint32, Uint32, Uint8, Uint32) -> seq<Byte>

  datatype Stored = Stored(params: Params, salt: seq<Byte>, key: seq<Byte>)

  datatype Error =
    | ZeroCostRefused
    | NoEntropy
    | NotSixFields
    | WrongAlgorithm
    | UnreadableVersion
    | UnsupportedVersion
    | UnreadableParameters
    | UndecodableSalt
    | UndecodableHash
    | SaltLength
    | HashLength
    | ZeroCost

  datatype Result<+T> = Ok(value: T) | Err(error: Error)

  // ---- Printing ----

  /** "m=%d,t=%d,p=%d", and the text that follows it. */
  function Costs(memory: nat, time: nat, parallelism: nat, rest: string): string {
    "m=" + (Decimal.Print(memory)
            + (",t=" + (Decimal.Print(time) + (",p=" + (Decimal.Print(parallelism) + rest)))))
  }

  function Fields(algorithm: string, version: nat, costs: string, salt: string, key: string): seq<string> {
    ["", algorithm, "v=" + Decimal.Print(version), costs, salt, key]
  }

  function Print(stored: Stored): string {
    var params := stored.params;
    var costs := Costs(params.memory, params.time, params.parallelism, "");
    Join(Fields("argon2id", VERSION, costs, Encode(Std, stored.salt), Encode(Std, stored.key)), '$')
  }

  // ---- Reading ----

  /** "v=%d"; whatever follows the number is ignored. */
  function ScanVersion(s: string): Option<int> {
    match ScanLiteral(s, "v=")
    case None => None
    case Some(t) =>
      match ScanInt(t)
      case None => None
      case Some(version) => Some(version.value)
  }

  function ScanCost(s: string, name: string, limit: nat): Option<Operand> {
    match ScanLiteral(s, name)
    case None => None
    case Some(t) => ScanUint(t, limit)
  }

  /** "m=%d,t=%d,p=%d"; whatever follows the third number is ignored. */
  function ScanCosts(s: string): Option<Params> {
    match ScanCost(s, "m=", UINT32_LIMIT)
    case None => None
    case Some(m) =>
      match ScanCost(m.rest, ",t=", UINT32_LIMIT)
      case None => None
      case Some(t) =>
        match ScanCost(t.rest, ",p=", UINT8_LIMIT)
        case None => None
        case Some(p) => Some(Params(m.value, t.value, p.value, 0, 0))
  }

  predicate ComponentOk(n: nat) {
    0 < n <= MAX_COMPONENT
  }

  predicate HasZeroCost(params: Params) {
    params.memory == 0 || params.time == 0 || params.parallelism == 0
  }

  /** What the decoded components add up to. */
  function Assemble(costs: Params, salt: seq<Byte>, key: seq<Byte>): Result<Stored> {
    if !ComponentOk(|salt|) then Err(SaltLength)
    else if !ComponentOk(|key|) then Err(HashLength)
    else if HasZeroCost(costs) then Err(ZeroCost)
    else Ok(Stored(costs.(saltLength := |salt|, keyLength := |key|), salt, key))
  }

  function ReadComponents(costs: Params, salt: string, key: string): Result<Stored> {
    match Decode(Std, salt)
    case None => Err(UndecodableSalt)
    case Some(saltBytes) =>
      match Decode(Std, key)
      case None => Err(UndecodableHash)
      case Some(keyBytes) => Assemble(costs, saltBytes, keyBytes)
  }

  function ReadFields(fields: seq<string>): Result<Stored>
    requires |fields| == 6
  {
    match ScanVersion(fields[2])
    case None => Err(UnreadableVersion)
    case Some(version) =>
      if version != VERSION then Err(UnsupportedVersion)
      else
        match ScanCosts(fields[3])
        case None => Err(UnreadableParameters)
        case Some(costs) => ReadComponents(costs, fields[4], fields[5])
  }

  function Read(encoded: string): Result<Stored> {
    var fields := Split(encoded, '$');
    if |fields| != 6 || fields[0] != "" then Err(NotSixFields)
    else if fields[1] != "argon2id" then Err(WrongAlgorithm)
    else ReadFields(fields)
  }

  // ---- The program ----

  method ComponentLength(n: nat) returns (length: Uint32, ok: bool)
    ensures ok <==> ComponentOk(n)
    ensures length == if ok then n else 0
  {
    if n <= 0 || n > MAX_COMPONENT {
      return 0, false;
    }
    return n, true;
  }

  /** Fills the parameters field by field, stopping at the first thing that is wrong. */
  method Parse(encoded: string) returns (result: Result<Stored>)
    ensures result == Read(encoded)
  {
    var fields := Split(encoded, '$');
    if |fields| != 6 || fields[0] != "" {
      return Err(NotSixFields);
    }
    if fields[1] != "argon2id" {
      return Err(WrongAlgorithm);
    }
    var version := ScanVersion(fields[2]);
    if version.None? {
      return Err(UnreadableVersion);
    }
    if version.value != VERSION {
      return Err(UnsupportedVersion);
    }
    var scanned := ScanCosts(fields[3]);
    if scanned.None? {
      return Err(UnreadableParameters);
    }
    var params := scanned.value;
    var salt := Decode(Std, fields[4]);
    if salt.None? {
      return Err(UndecodableSalt);
    }
    var want := Decode(Std, fields[5]);
    if want.None? {
      return Err(UndecodableHash);
    }
    var saltLength, ok := ComponentLength(|salt.value|);
    if !ok {
      return Err(SaltLength);
    }
    var keyLength;
    keyLength, ok := ComponentLength(|want.value|);
    if !ok {
      return Err(HashLength);
    }
    params := params.(saltLength := saltLength, keyLength := keyLength);
    if params.memory == 0 || params.time == 0 || params.parallelism == 0 {
      return Err(ZeroCost);
    }
    return Ok(Stored(params, salt.value, want.value));
  }

  /** argon2.IDKey panics on zero passes or zero lanes, so its callers must rule both out. */
  method IdKey(kdf: Kdf, password: string, salt: seq<Byte>, time: Uint32, memory: Uint32, parallelism: Uint8,
               keyLength: Uint32)
    returns (key: seq<Byte>)
    requires time >= 1 && parallelism >= 1
    ensures key == kdf(password, salt, time, memory, parallelism, keyLength)
  {
    return kdf(password, salt, time, memory, parallelism, keyLength);
  }

  /** rand.Read: fills the whole buffer, or fails. */
  method ReadRandom(buffer: array<Byte>, entropy: Option<nat -> Byte>) returns (ok: bool)
    modifies buffer
    ensures ok <==> entropy.Some?
    ensures ok ==> buffer[..] == seq(buffer.Length, i requires 0 <= i => entropy.value(i))
  {
    if entropy.None? {
      return false;
    }
    forall i | 0 <= i < buffer.Length {
      buffer[i] := entropy.value(i);
    }
    return true;
  }

  /** Any setting without a zero is accepted, however long the salt and the key it asks for. */
  predicate Hashable(params: Params) {
    !HasZeroCost(params) && params.saltLength != 0 && params.keyLength != 0
  }

  function Drawn(entropy: nat -> Byte, params: Params): (salt: seq<Byte>)
    ensures |salt| == params.saltLength
  {
    seq(params.saltLength, i requires 0 <= i => entropy(i))
  }

  method HashPasswordWithParams(kdf: Kdf, password: string, params: Params, entropy: Option<nat -> Byte>)
    returns (result: Result<string>)
    ensures !Hashable(params) ==> result == Err(ZeroCostRefused)
    ensures Hashable(params) && entropy.None? ==> result == Err(NoEntropy)
    ensures Hashable(params) && entropy.Some? ==>
              var salt := seq(params.saltLength, i requires 0 <= i => entropy.value(i));
              var key := kdf(password, salt, params.time, params.memory, params.parallelism, params.keyLength);
              result == Ok("$argon2id$v=19$m=" + Decimal.Print(params.memory) + ",t=" + Decimal.Print(params.time)
                           + ",p=" + Decimal.Print(params.parallelism)
                           + "$" + Encode(Std, salt) + "$" + Encode(Std, key))
  {
    if params.saltLength == 0 || params.keyLength == 0 || params.memory == 0 || params.time == 0
       || params.parallelism == 0
    {
      return Err(ZeroCostRefused);
    }
    var salt := new Byte[params.saltLength](_ => 0);
    var ok := ReadRandom(salt, entropy);
    if !ok {
      return Err(NoEntropy);
    }
    var key := IdKey(kdf, password, salt[..], params.time, params.memory, params.parallelism, params.keyLength);
    PrintedText(Stored(params, salt[..], key));
    return Ok(Print(Stored(params, salt[..], key)));
  }

  /** The verdict on a stored string: its parse error, or whether the derived key is the stored one. */
  function Verdict(kdf: Kdf, encoded: string, password: string): Result<bool> {
    match Read(encoded)
    case Err(error) => Err(error)
    case Ok(stored) =>
      var params := stored.params;
      Ok(kdf(password, stored.salt, params.time, params.memory, params.parallelism, params.keyLength) == stored.key)
  }

  method VerifyPassword(kdf: Kdf, encoded: string, password: string) returns (result: Result<bool>)
    ensures result == Verdict(kdf, encoded, password)
  {
    var parsed := Parse(encoded);
    if parsed.Err? {
      return Err(parsed.error);
    }
    assert Read(encoded) == parsed;
    AcceptedIsBounded(encoded);
    var stored := parsed.value;
    var params := stored.params;
    var got := IdKey(kdf, password, stored.salt, params.time, params.memory, params.parallelism, params.keyLength);
    return Ok(got == stored.key);
  }

  // ---- Properties ----

  /** What no accepted text is without. */
  lemma AcceptedFields(encoded: string)
    requires Read(encoded).Ok?
    ensures |Split(encoded, '$')| == 6 && Read(encoded) == ReadFields(Split(encoded, '$'))
    ensures Split(encoded, '$')[0] == "" && Split(encoded, '$')[1] == "argon2id"
    ensures ScanVersion(Split(encoded, '$')[2]) == Some(19)
  {
  }

  /** A text that does not start with a dollar sign, or holds more or fewer than five, is not six fields. */
  lemma NotSixFieldsIff(encoded: string)
    ensures Read(encoded) == Err(NotSixFields) <==> multiset(encoded)['$'] != 5 || encoded[0] != '$'
  {
    PartsCounted(encoded, '$');
  }

  lemma AcceptedComponents(fields: seq<string>)
    requires |fields| == 6 && ReadFields(fields).Ok?
    ensures ScanCosts(fields[3]).Some? && Decode(Std, fields[4]).Some? && Decode(Std, fields[5]).Some?
    ensures ReadFields(fields)
            == Assemble(ScanCosts(fields[3]).value, Decode(Std, fields[4]).value, Decode(Std, fields[5]).value)
  {
  }

  /** Nothing accepted asks for a zero cost or for a component of another size than the stored one. */
  lemma AcceptedIsBounded(encoded: string)
    requires Read(encoded).Ok?
    ensures var stored := Read(encoded).value;
            && !HasZeroCost(stored.params)
            && ComponentOk(|stored.salt|) && stored.params.saltLength == |stored.salt|
            && ComponentOk(|stored.key|) && stored.params.keyLength == |stored.key|
  {
    AcceptedFields(encoded);
    AcceptedComponents(Split(encoded, '$'));
  }

  lemma JoinedFields(a: string, b: string, c: string, d: string, e: string)
    ensures Join(["", a, b, c, d, e], '$') == "$" + a + "$" + b + "$" + c + "$" + d + "$" + e
  {
    assert Join([e], '$') == e;
    assert Join([d, e], '$') == d + ("$" + e) by { assert [d, e][1..] == [e]; }
    assert Join([c, d, e], '$') == c + ("$" + Join([d, e], '$')) by { assert [c, d, e][1..] == [d, e]; }
    assert Join([b, c, d, e], '$') == b + ("$" + Join([c, d, e], '$')) by {
      assert [b, c, d, e][1..] == [c, d, e];
    }
    assert [a, b, c, d, e][1..] == [b, c, d, e];
    assert ["", a, b, c, d, e][1..] == [a, b, c, d, e];
  }

  lemma CostsFlat(m: string, t: string, p: string, rest: string)
    ensures "m=" + (m + (",t=" + (t + (",p=" + (p + rest))))) == "m=" + m + ",t=" + t + ",p=" + p + rest
  {
  }

  lemma FieldsFlat(a: string, v: string, m: string, t: string, p: string, rest: string)
    ensures "$" + a + "$" + ("v=" + v) + "$" + ("m=" + m + ",t=" + t + ",p=" + p + rest)
            == "$" + a + "$v=" + v + "$m=" + m + ",t=" + t + ",p=" + p + rest
  {
    assert "$" + ("v=" + v) == "$v=" + v;
    var before := "$" + a + "$v=" + v;
    assert "$" + a + "$" + ("v=" + v) == before;
    assert before + "$" + ("m=" + m + ",t=" + t + ",p=" + p + rest)
        == before + "$m=" + m + ",t=" + t + ",p=" + p + rest;
  }

  /** Six such fields as one text. */
  lemma TextOfFields(algorithm: string, version: nat, memory: nat, time: nat, parallelism: nat, trailer: string,
                     salt: string, key: string)
    ensures Join(Fields(algorithm, version, Costs(memory, time, parallelism, trailer), salt, key), '$')
            == "$" + algorithm + "$v=" + Decimal.Print(version) + "$m=" + Decimal.Print(memory)
               + ",t=" + Decimal.Print(time) + ",p=" + Decimal.Print(parallelism) + trailer + "$" + salt + "$" + key
  {
    var v, m, t, p := Decimal.Print(version), Decimal.Print(memory), Decimal.Print(time), Decimal.Print(parallelism);
    JoinedFields(algorithm, "v=" + v, Costs(memory, time, parallelism, trailer), salt, key);
    CostsFlat(m, t, p, trailer);
    FieldsFlat(algorithm, v, m, t, p, trailer);
  }

  lemma PrintedVersion()
    ensures Decimal.Print(19) == "19"
    ensures "$" + "argon2id" + "$v=" + "19" + "$m=" == "$argon2id$v=19$m="
  {
  }

  /** A stored hash, character for character. */
  lemma PrintedText(stored: Stored)
    ensures Print(stored)
            == "$argon2id$v=19$m=" + Decimal.Print(stored.params.memory) + ",t=" + Decimal.Print(stored.params.time)
               + ",p=" + Decimal.Print(stored.params.parallelism)
               + "$" + Encode(Std, stored.salt) + "$" + Encode(Std, stored.key)
  {
    var params := stored.params;
    TextOfFields("argon2id", 19, params.memory, params.time, params.parallelism, "",
                 Encode(Std, stored.salt), Encode(Std, stored.key));
    PrintedVersion();
    NilRight("$argon2id$v=19$m=" + Decimal.Print(params.memory) + ",t=" + Decimal.Print(params.time)
             + ",p=" + Decimal.Print(params.parallelism));
  }

  lemma VersionOfPrint(version: nat)
    ensures ScanVersion("v=" + Decimal.Print(version)) == if version < INT64_LIMIT then Some(version) else None
  {
    ScanOfPrint(version, "", 0);
    assert Decimal.Print(version) + "" == Decimal.Print(version);
    assert ("v=" + Decimal.Print(version))[2..] == Decimal.Print(version);
  }

  lemma CostOfPrint(name: string, n: nat, rest: string, limit: nat)
    requires rest == "" || !IsDigit(rest[0])
    ensures ScanCost(name + (Decimal.Print(n) + rest), name, limit)
            == if n < limit then Some(Operand(n, rest)) else None
  {
    var tail := Decimal.Print(n) + rest;
    ScanOfPrint(n, rest, limit);
    assert ScanLiteral(name + tail, name) == Some(tail) by {
      assert (name + tail)[|name|..] == tail;
    }
  }

  /** The three costs read back when each fits its width, whatever other text follows them. */
  lemma CostsOfPrint(memory: nat, time: nat, parallelism: nat, rest: string)
    requires rest == "" || !IsDigit(rest[0])
    ensures ScanCosts(Costs(memory, time, parallelism, rest))
            == if memory < UINT32_LIMIT && time < UINT32_LIMIT && parallelism < UINT8_LIMIT
               then Some(Params(memory, time, parallelism, 0, 0)) else None
  {
    var lanes := ",p=" + (Decimal.Print(parallelism) + rest);
    var passes := ",t=" + (Decimal.Print(time) + lanes);
    CostOfPrint("m=", memory, passes, UINT32_LIMIT);
    CostOfPrint(",t=", time, lanes, UINT32_LIMIT);
    CostOfPrint(",p=", parallelism, rest, UINT8_LIMIT);
  }

  lemma NoDollarIn(digits: string, before: string, after: string)
    requires AllDigits(digits) && '$' !in before && '$' !in after
    ensures '$' !in before + (digits + after)
  {
  }

  lemma NoDollarInCosts(memory: nat, time: nat, parallelism: nat, rest: string)
    requires '$' !in rest
    ensures '$' !in Costs(memory, time, parallelism, rest)
  {
    var lanes := ",p=" + (Decimal.Print(parallelism) + rest);
    NoDollarIn(Decimal.Print(parallelism), ",p=", rest);
    NoDollarIn(Decimal.Print(time), ",t=", lanes);
    NoDollarIn(Decimal.Print(memory), "m=", ",t=" + (Decimal.Print(time) + lanes));
  }

  lemma SplitOfFields(algorithm: string, version: nat, costs: string, salt: string, key: string)
    requires '$' !in algorithm && '$' !in costs && '$' !in salt && '$' !in key
    ensures Split(Join(Fields(algorithm, version, costs, salt, key), '$'), '$')
            == Fields(algorithm, version, costs, salt, key)
  {
    NoDollarIn(Decimal.Print(version), "v=", "");
    assert Decimal.Print(version) + "" == Decimal.Print(version);
    SplitJoin(Fields(algorithm, version, costs, salt, key), '$');
  }

  /** What any text of six fields reads as, whatever stands in them. */
  lemma ReadOfFields(algorithm: string, version: nat, memory: nat, time: nat, parallelism: nat, trailer: string,
                     salt: string, key: string)
    requires '$' !in algorithm && '$' !in trailer && '$' !in salt && '$' !in key
    requires trailer == "" || !IsDigit(trailer[0])
    ensures Read(Join(Fields(algorithm, version, Costs(memory, time, parallelism, trailer), salt, key), '$'))
            == if algorithm != "argon2id" then Err(WrongAlgorithm)
               else if version >= INT64_LIMIT then Err(UnreadableVersion)
               else if version != 19 then Err(UnsupportedVersion)
               else if memory >= UINT32_LIMIT || time >= UINT32_LIMIT || parallelism >= UINT8_LIMIT
               then Err(UnreadableParameters)
               else ReadComponents(Params(memory, time, parallelism, 0, 0), salt, key)
  {
    var costs := Costs(memory, time, parallelism, trailer);
    NoDollarInCosts(memory, time, parallelism, trailer);
    SplitOfFields(algorithm, version, costs, salt, key);
    VersionOfPrint(version);
    CostsOfPrint(memory, time, parallelism, trailer);
  }

  /** Text after the three costs is ignored, so every hash has further spellings that are read the same way. */
  lemma ReadWithTrailer(stored: Stored, trailer: string)
    requires '$' !in trailer && (trailer == "" || !IsDigit(trailer[0]))
    ensures var params := stored.params;
            var costs := Costs(params.memory, params.time, params.parallelism, trailer);
            Read(Join(Fields("argon2id", VERSION, costs, Encode(Std, stored.salt), Encode(Std, stored.key)), '$'))
            == Assemble(params, stored.salt, stored.key)
  {
    var params := stored.params;
    EncodedIsPlain(Std, stored.salt);
    EncodedIsPlain(Std, stored.key);
    ReadOfFields("argon2id", VERSION, params.memory, params.time, params.parallelism, trailer,
                 Encode(Std, stored.salt), Encode(Std, stored.key));
    DecodeOfEncode(Std, stored.salt);
    DecodeOfEncode(Std, stored.key);
  }

  /** Reading what was printed: every setting of the three costs, every salt and every key, in or out of bounds. */
  lemma ReadOfPrint(stored: Stored)
    ensures Read(Print(stored)) == Assemble(stored.params, stored.salt, stored.key)
  {
    ReadWithTrailer(stored, "");
  }

  /** An accepted string, printed again from what was read, reads the same: printing picks one spelling of it. */
  lemma PrintedAgain(encoded: string)
    requires Read(encoded).Ok?
    ensures Read(Print(Read(encoded).value)) == Read(encoded)
  {
    AcceptedIsBounded(encoded);
    ReadOfPrint(Read(encoded).value);
  }

  /**
   * A freshly hashed password verifies if and only if both lengths it was hashed with are at most 1024 bytes:
   * hashing has no upper bound, reading has one.
   */
  lemma HashedVerifies(kdf: Kdf, password: string, params: Params, entropy: nat -> Byte)
    requires Hashable(params)
    requires |kdf(password, Drawn(entropy, params), params.time, params.memory, params.parallelism, params.keyLength)|
             == params.keyLength
    ensures var salt := Drawn(entropy, params);
            var key := kdf(password, salt, params.time, params.memory, params.parallelism, params.keyLength);
            var text := Print(Stored(params, salt, key));
            Verdict(kdf, text, password) ==
            if params.saltLength > 1024 then Err(SaltLength)
            else if params.keyLength > 1024 then Err(HashLength)
            else Ok(true)
  {
    var salt := Drawn(entropy, params);
    ReadOfPrint(Stored(params, salt, kdf(password, salt, params.time, params.memory, params.parallelism,
                                         params.keyLength)));
  }

  /** Any password is judged under the parameters and the salt of the stored string, never under today's. */
  lemma JudgedByStoredParams(kdf: Kdf, stored: Stored, password: string)
    requires stored.params.saltLength == |stored.salt| && stored.params.keyLength == |stored.key|
    requires !HasZeroCost(stored.params) && ComponentOk(|stored.salt|) && ComponentOk(|stored.key|)
    ensures Verdict(kdf, Print(stored), password)
            == Ok(kdf(password, stored.salt, stored.params.time, stored.params.memory, stored.params.parallelism,
                      |stored.key|) == stored.key)
  {
    ReadOfPrint(stored);
  }

  /**
   * Verification, from the text to the call of the derivation: a text of this form, with any algorithm, any numbers,
   * anything after the third cost and anything where salt and key belong, is refused at the first thing that is wrong
   * with it, and otherwise the key is derived with the passes, the memory and the lanes it names.
   */
  lemma VerdictOfText(kdf: Kdf, password: string, algorithm: string, version: nat, memory: nat, time: nat,
                      parallelism: nat, trailer: string, salt: string, key: string)
    requires '$' !in algorithm && '$' !in trailer && '$' !in salt && '$' !in key
    requires trailer == "" || !IsDigit(trailer[0])
    ensures Verdict(kdf,
                    "$" + algorithm + "$v=" + Decimal.Print(version) + "$m=" + Decimal.Print(memory)
                    + ",t=" + Decimal.Print(time) + ",p=" + Decimal.Print(parallelism) + trailer
                    + "$" + salt + "$" + key,
                    password)
            == if algorithm != "argon2id" then Err(WrongAlgorithm)
               else if version >= 0x8000_0000_0000_0000 then Err(UnreadableVersion)
               else if version != 19 then Err(UnsupportedVersion)
               else if memory >= 0x1_0000_0000 || time >= 0x1_0000_0000 || parallelism >= 0x100
               then Err(UnreadableParameters)
               else if Decode(Std, salt).None? then Err(UndecodableSalt)
               else if Decode(Std, key).None? then Err(UndecodableHash)
               else if |Decode(Std, salt).value| == 0 || |Decode(Std, salt).value| > 1024 then Err(SaltLength)
               else if |Decode(Std, key).value| == 0 || |Decode(Std, key).value| > 1024 then Err(HashLength)
               else if memory == 0 || time == 0 || parallelism == 0 then Err(ZeroCost)
               else
                 Ok(kdf(password, Decode(Std, salt).value, time, memory, parallelism, |Decode(Std, key).value|)
                    == Decode(Std, key).value)
  {
    TextOfFields(algorithm, version, memory, time, parallelism, trailer, salt, key);
    ReadOfFields(algorithm, version, memory, time, parallelism, trailer, salt, key);
  }
}
