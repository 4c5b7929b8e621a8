/** Decimal integers as fmt prints them with %d and reads them back with Sscanf. */
module Decimal {
  import opened Bytes
  import opened Options
  import opened Text

  predicate IsDigit(c: char) {
    '0' <= c <= '9'
  }

  predicate AllDigits(s: string) {
    forall k | 0 <= k < |s| :: IsDigit(s[k])
  }

  function Digit(n: nat): (c: char)
    requires n < 10
    ensures IsDigit(c) && (c - '0') as int == n
  {
    '0' + n as char
  }

  /** %d of a non-negative integer. */
  function Print(n: nat): (s: string)
    ensures |s| > 0 && AllDigits(s)
  {
    if n < 10 then [Digit(n)] else Print(n / 10) + [Digit(n % 10)]
  }

  /** strconv on a run of digits, before any range check. */
  function Value(s: string): nat
    requires AllDigits(s)
  {
    if s == "" then 0 else Value(s[..|s| - 1]) * 10 + (s[|s| - 1] - '0') as int
  }

  lemma {:induction false} ValueOfPrint(n: nat)
    ensures Value(Print(n)) == n
  {
    if n >= 10 {
      ValueOfPrint(n / 10);
      assert Print(n)[..|Print(n)| - 1] == Print(n / 10);
    } else {
      assert Value(Print(n)[..0]) == 0;
    }
  }

  /** The scanner's digit loop: the longest run of digits at the front. */
  function Run(s: string): (run: string)
    ensures run <= s && AllDigits(run)
    ensures |run| < |s| ==> !IsDigit(s[|run|])
  {
    if s == "" || !IsDigit(s[0]) then ""
    else
      assert [s[0]] + s[1..] == s;
      [s[0]] + Run(s[1..])
  }

  lemma {:induction false} RunStopsAt(digits: string, rest: string)
    requires AllDigits(digits) && (rest == "" || !IsDigit(rest[0]))
    ensures Run(digits + rest) == digits
  {
    if digits != "" {
      RunStopsAt(digits[1..], rest);
      assert (digits + rest)[1..] == digits[1..] + rest;
    } else {
      assert digits + rest == rest;
    }
  }

  /** Spaces before an operand are skipped; a line break there is an error. */
  function SkipSpace(s: string): Option<string> {
    if s == "" then Some("")
    else if s[0] == '\n' then None
    else if IsSpace(s[0]) then SkipSpace(s[1..])
    else Some(s)
  }

  /** A scanned operand and the input after it. */
  datatype Operand = Operand(value: int, rest: string)

  /** %d into an unsigned integer below `limit`: no sign, at least one digit, no overflow. */
  function ScanUint(s: string, limit: nat): Option<Operand> {
    match SkipSpace(s)
    case None => None
    case Some(t) =>
      var run := Run(t);
      if run == "" || Value(run) >= limit then None
      else Some(Operand(Value(run), t[|run|..]))
  }

  const INT64_LIMIT: int := 0x8000_0000_0000_0000

  function Signed(n: nat, negative: bool): int {
    if negative then -(n as int) else n
  }

  function Int64Of(value: int, rest: string): Option<Operand> {
    if -INT64_LIMIT <= value < INT64_LIMIT then Some(Operand(value, rest)) else None
  }

  function IntAt(digits: string, negative: bool): Option<Operand> {
    var run := Run(digits);
    if run == "" then None else Int64Of(Signed(Value(run), negative), digits[|run|..])
  }

  /** %d into an int: one optional sign. */
  function ScanInt(s: string): Option<Operand> {
    match SkipSpace(s)
    case None => None
    case Some(t) =>
      if t != "" && t[0] == '+' then IntAt(t[1..], false)
      else if t != "" && t[0] == '-' then IntAt(t[1..], true)
      else IntAt(t, false)
  }

  /** Text of the format that must appear in the input as it stands. */
  function ScanLiteral(s: string, literal: string): Option<string> {
    if literal <= s then Some(s[|literal|..]) else None
  }

  /** A printed number stands at the front of the input, with no space or sign before it. */
  lemma PrintAtFront(n: nat, rest: string)
    requires rest == "" || !IsDigit(rest[0])
    ensures SkipSpace(Print(n) + rest) == Some(Print(n) + rest)
    ensures Run(Print(n) + rest) == Print(n) && (Print(n) + rest)[|Print(n)|..] == rest
    ensures IsDigit((Print(n) + rest)[0])
  {
    var s := Print(n) + rest;
    assert s[0] == Print(n)[0];
    RunStopsAt(Print(n), rest);
  }

  /** Every printed integer that fits is read back, whatever non-digit follows it. */
  lemma ScanOfPrint(n: nat, rest: string, limit: nat)
    requires rest == "" || !IsDigit(rest[0])
    ensures ScanUint(Print(n) + rest, limit) == if n < limit then Some(Operand(n, rest)) else None
    ensures ScanInt(Print(n) + rest) == if n < INT64_LIMIT then Some(Operand(n, rest)) else None
  {
    PrintAtFront(n, rest);
    ValueOfPrint(n);
  }

  // ---- What is printed and what is read ----

  /** Digit `k` from the right, and no leading zero. */
  lemma {:induction false} DigitOfPrint(n: nat, k: nat)
    requires k < |Print(n)|
    ensures Power(10, k) > 0
    ensures (Print(n)[|Print(n)| - 1 - k] - '0') as int == n / Power(10, k) % 10
    ensures Print(n)[0] == '0' <==> n == 0
  {
    PowerIsPositive(10, k);
    if n >= 10 {
      DigitOfPrint(n / 10, if k > 0 then k - 1 else 0);
      if k > 0 {
        DivideTwice(n, 10, Power(10, k - 1));
      }
    } else {
      Quotient(n, n, 1, 0);
    }
  }

  predicate Blank(s: string) {
    forall c | c in s :: IsSpace(c) && c != '\n'
  }

  lemma {:induction false} BlankIsSkipped(space: string, t: string)
    requires Blank(space)
    ensures t == "" || !IsSpace(t[0]) ==> SkipSpace(space + t) == Some(t)
    ensures t != "" && t[0] == '\n' ==> SkipSpace(space + t) == None
  {
    if space == "" {
      assert space + t == t;
    } else {
      BlankIsSkipped(space[1..], t);
      assert (space + t)[1..] == space[1..] + t;
      assert space[0] in space;
    }
  }

  lemma SignedRun(sign: string, digits: string, rest: string)
    requires sign == "" || sign == "+" || sign == "-"
    requires digits != "" && AllDigits(digits) && (rest == "" || !IsDigit(rest[0]))
    ensures var s := sign + (digits + rest);
            && s != "" && !IsSpace(s[0]) && IsDigit((digits + rest)[0])
            && s[|sign|..] == digits + rest && (s[0] == '+' <==> sign == "+") && (s[0] == '-' <==> sign == "-")
    ensures Run(digits + rest) == digits && (digits + rest)[|digits|..] == rest
  {
    assert (digits + rest)[0] == digits[0];
    RunStopsAt(digits, rest);
  }

  lemma UintOfDigits(space: string, sign: string, digits: string, rest: string, limit: nat)
    requires Blank(space) && (sign == "" || sign == "+" || sign == "-")
    requires digits != "" && AllDigits(digits) && (rest == "" || !IsDigit(rest[0]))
    ensures ScanUint(space + (sign + (digits + rest)), limit)
            == if sign == "" && Value(digits) < limit then Some(Operand(Value(digits), rest)) else None
  {
    SignedRun(sign, digits, rest);
    BlankIsSkipped(space, sign + (digits + rest));
    if sign == "" {
      assert sign + (digits + rest) == digits + rest;
    }
  }

  lemma IntOfRun(digits: string, rest: string, negative: bool)
    requires digits != "" && AllDigits(digits) && (rest == "" || !IsDigit(rest[0]))
    ensures IntAt(digits + rest, negative) == Int64Of(Signed(Value(digits), negative), rest)
  {
    RunStopsAt(digits, rest);
    assert (digits + rest)[|digits|..] == rest;
  }

  lemma IntOfDigits(space: string, sign: string, digits: string, rest: string)
    requires Blank(space) && (sign == "" || sign == "+" || sign == "-")
    requires digits != "" && AllDigits(digits) && (rest == "" || !IsDigit(rest[0]))
    ensures ScanInt(space + (sign + (digits + rest))) == Int64Of(Signed(Value(digits), sign == "-"), rest)
  {
    SignedRun(sign, digits, rest);
    BlankIsSkipped(space, sign + (digits + rest));
    IntOfRun(digits, rest, sign == "-");
    assert sign == "" ==> sign + (digits + rest) == digits + rest;
  }

  /**
   %d after any space but a line break, with leading zeros or without: an int takes one sign and an unsigned integer
   none, and both must fit.
   */
  lemma ScanOfDigits(space: string, sign: string, digits: string, rest: string, limit: nat)
    requires Blank(space) && (sign == "" || sign == "+" || sign == "-")
    requires digits != "" && AllDigits(digits) && (rest == "" || !IsDigit(rest[0]))
    ensures ScanUint(space + (sign + (digits + rest)), limit)
            == if sign == "" && Value(digits) < limit then Some(Operand(Value(digits), rest)) else None
    ensures var value: int := if sign == "-" then -(Value(digits) as int) else Value(digits);
            ScanInt(space + (sign + (digits + rest)))
            == if -INT64_LIMIT <= value < INT64_LIMIT then Some(Operand(value, rest)) else None
  {
    UintOfDigits(space, sign, digits, rest, limit);
    IntOfDigits(space, sign, digits, rest);
  }

  /** And nothing else: another line break, character or end there is an error. */
  lemma ScanNeedsDigits(space: string, sign: string, t: string, limit: nat)
    requires Blank(space) && (sign == "" || sign == "+" || sign == "-")
    requires t == "" || (!IsDigit(t[0]) && (sign == "" ==> t[0] != '+' && t[0] != '-'))
    requires t != "" && sign == "" && IsSpace(t[0]) ==> t[0] == '\n'
    ensures ScanUint(space + (sign + t), limit) == None && ScanInt(space + (sign + t)) == None
  {
    var s := sign + t;
    assert s[|sign|..] == t && (sign != "" ==> s[0] == sign[0]) && (sign == "" ==> s == t);
    BlankIsSkipped(space, s);
  }
}
