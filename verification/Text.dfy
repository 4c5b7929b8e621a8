/** The string functions the codecs and the header scan rest on: Split, Join and TrimSpace. */
module Text {
  lemma Assoc<T>(a: seq<T>, b: seq<T>, c: seq<T>)
    ensures a + (b + c) == (a + b) + c
  {
  }

  lemma NilLeft<T>(a: seq<T>)
    ensures [] + a == a
  {
  }

  lemma NilRight<T>(a: seq<T>)
    ensures a + [] == a
  {
  }

  /** strings.Split with a one-character separator: always at least one part. */
  function Split(s: string, sep: char): (parts: seq<string>)
    ensures |parts| > 0
  {
    if s == "" then [""]
    else if s[0] == sep then [""] + Split(s[1..], sep)
    else Lengthen(s[0], Split(s[1..], sep))
  }

  /** One more character at the front of the first part. */
  function Lengthen(c: char, parts: seq<string>): (r: seq<string>)
    requires |parts| > 0
    ensures |r| > 0
  {
    [[c] + parts[0]] + parts[1..]
  }

  function Join(parts: seq<string>, sep: char): string {
    if |parts| == 0 then ""
    else if |parts| == 1 then parts[0]
    else parts[0] + ([sep] + Join(parts[1..], sep))
  }

  /** One part more than there are separators, and an empty first part before a separator. */
  lemma {:induction false} PartsCounted(s: string, sep: char)
    ensures |Split(s, sep)| == multiset(s)[sep] + 1
    ensures Split(s, sep)[0] == "" <==> s == "" || s[0] == sep
  {
    if s != "" {
      PartsCounted(s[1..], sep);
      assert s == [s[0]] + s[1..];
    }
  }

  lemma {:induction false} NoSeparatorInParts(s: string, sep: char)
    ensures forall k | 0 <= k < |Split(s, sep)| :: sep !in Split(s, sep)[k]
  {
    if s != "" {
      NoSeparatorInParts(s[1..], sep);
    }
  }

  lemma LengthenFirst(c: char, a: seq<string>, b: seq<string>)
    requires |a| > 0
    ensures Lengthen(c, a + b) == Lengthen(c, a) + b
  {
    assert (a + b)[1..] == a[1..] + b;
  }

  lemma SplitFirst(c: char, rest: string, sep: char)
    ensures Split([c] + rest, sep)
            == if c == sep then [""] + Split(rest, sep) else Lengthen(c, Split(rest, sep))
  {
    assert ([c] + rest)[1..] == rest;
  }

  /** Splitting breaks at every separator. */
  lemma {:induction false} SplitBoth(a: string, b: string, sep: char)
    ensures Split(a + ([sep] + b), sep) == Split(a, sep) + Split(b, sep)
  {
    if a == "" {
      NilLeft([sep] + b);
      SplitFirst(sep, b, sep);
    } else {
      var c, t := a[0], a[1..];
      SplitBoth(t, b, sep);
      Assoc([c], t, [sep] + b);
      SplitFirst(c, t + ([sep] + b), sep);
      SplitFirst(c, t, sep);
      assert a == [c] + t;
      LengthenFirst(c, Split(t, sep), Split(b, sep));
      Assoc([""], Split(t, sep), Split(b, sep));
    }
  }

  /** It breaks nowhere else. */
  lemma {:induction false} SplitNone(s: string, sep: char)
    requires sep !in s
    ensures Split(s, sep) == [s]
  {
    if s != "" {
      SplitNone(s[1..], sep);
      assert [s[0]] + s[1..] == s;
    }
  }

  lemma SplitAt(a: string, b: string, sep: char)
    requires sep !in a
    ensures Split(a + ([sep] + b), sep) == [a] + Split(b, sep)
  {
    SplitBoth(a, b, sep);
    SplitNone(a, sep);
  }

  lemma {:induction false} SplitJoin(parts: seq<string>, sep: char)
    requires |parts| > 0 && forall k | 0 <= k < |parts| :: sep !in parts[k]
    ensures Split(Join(parts, sep), sep) == parts
  {
    if |parts| == 1 {
      SplitNone(parts[0], sep);
    } else {
      SplitJoin(parts[1..], sep);
      SplitAt(parts[0], Join(parts[1..], sep), sep);
      assert [parts[0]] + parts[1..] == parts;
    }
  }

  lemma {:induction false} JoinSplit(s: string, sep: char)
    ensures Join(Split(s, sep), sep) == s
  {
    if s != "" {
      JoinSplit(s[1..], sep);
      var rest := Split(s[1..], sep);
      if s[0] == sep {
        assert ([""] + rest)[1..] == rest;
      } else {
        var parts := [[s[0]] + rest[0]] + rest[1..];
        assert parts[1..] == rest[1..];
        assert [s[0]] + s[1..] == s;
        if |rest| > 1 {
          assert Join(parts, sep) == [s[0]] + (rest[0] + ([sep] + Join(rest[1..], sep)));
        }
      }
    }
  }

  /** unicode.IsSpace. */
  predicate IsSpace(c: char) {
    || '\t' <= c <= '\r' || c == ' ' || c == '\U{85}' || c == '\U{A0}' || c == '\U{1680}'
    || '\U{2000}' <= c <= '\U{200a}' || c == '\U{2028}' || c == '\U{2029}' || c == '\U{202f}'
    || c == '\U{205f}' || c == '\U{3000}'
  }

  function TrimLeft(s: string): string {
    if s != "" && IsSpace(s[0]) then TrimLeft(s[1..]) else s
  }

  function TrimRight(s: string): string {
    if s != "" && IsSpace(s[|s| - 1]) then TrimRight(s[..|s| - 1]) else s
  }

  /** strings.TrimSpace. */
  function TrimSpace(s: string): string {
    TrimRight(TrimLeft(s))
  }

  predicate Trimmed(s: string) {
    s == "" || (!IsSpace(s[0]) && !IsSpace(s[|s| - 1]))
  }

  lemma {:induction false} TrimLeftIsSuffix(s: string)
    ensures |TrimLeft(s)| <= |s| && TrimLeft(s) == s[|s| - |TrimLeft(s)|..]
    ensures TrimLeft(s) == "" || !IsSpace(TrimLeft(s)[0])
  {
    if s != "" && IsSpace(s[0]) {
      TrimLeftIsSuffix(s[1..]);
    }
  }

  lemma {:induction false} TrimRightIsPrefix(s: string)
    ensures |TrimRight(s)| <= |s| && TrimRight(s) == s[..|TrimRight(s)|]
    ensures TrimRight(s) == "" || !IsSpace(TrimRight(s)[|TrimRight(s)| - 1])
  {
    if s != "" && IsSpace(s[|s| - 1]) {
      TrimRightIsPrefix(s[..|s| - 1]);
    }
  }

  /** What TrimSpace leaves has no space at either end and no character that was not there. */
  lemma TrimSpaceTrims(s: string, c: char)
    ensures Trimmed(TrimSpace(s))
    ensures c in TrimSpace(s) ==> c in s
  {
    TrimLeftIsSuffix(s);
    TrimRightIsPrefix(TrimLeft(s));
  }

  lemma TrimmedStays(s: string)
    requires Trimmed(s)
    ensures TrimSpace(s) == s
  {
  }

  /** The 25 white space characters of Unicode. */
  lemma SpacesAre(c: char)
    ensures IsSpace(c) <==>
            c in {'\t', '\n', '\U{b}', '\U{c}', '\r', ' ', '\U{85}', '\U{A0}', '\U{1680}',
                  '\U{2000}', '\U{2001}', '\U{2002}', '\U{2003}', '\U{2004}', '\U{2005}', '\U{2006}', '\U{2007}',
                  '\U{2008}', '\U{2009}', '\U{200a}', '\U{2028}', '\U{2029}', '\U{202f}', '\U{205f}', '\U{3000}'}
  {
  }

  predicate AllSpace(s: string) {
    forall k | 0 <= k < |s| :: IsSpace(s[k])
  }

  lemma {:induction false} SpaceLeft(space: string, s: string)
    requires AllSpace(space)
    ensures TrimLeft(space + s) == TrimLeft(s)
  {
    if space == "" {
      assert space + s == s;
    } else {
      SpaceLeft(space[1..], s);
      assert (space + s)[1..] == space[1..] + s;
    }
  }

  lemma {:induction false} SpaceRight(s: string, space: string)
    requires AllSpace(space)
    ensures TrimRight(s + space) == TrimRight(s)
  {
    if space == "" {
      assert s + space == s;
    } else {
      SpaceRight(s, space[..|space| - 1]);
      assert (s + space)[..|s + space| - 1] == s + space[..|space| - 1];
    }
  }

  /** White space around a text, and nothing else, is cut off. */
  lemma TrimSpaceOf(before: string, s: string, after: string)
    requires AllSpace(before) && AllSpace(after) && Trimmed(s)
    ensures TrimSpace(before + s + after) == s
  {
    assert before + s + after == before + (s + after);
    SpaceLeft(before, s + after);
    if s == "" {
      assert s + after == after && after + "" == after;
      SpaceLeft(after, "");
    } else {
      assert (s + after)[0] == s[0];
      SpaceRight(s, after);
    }
  }
}
