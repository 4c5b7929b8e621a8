/** sort.Strings, and the keys of a map in that order. */
module SortedNames {
  /** Go's order of strings: the first difference decides, and a prefix comes first. */
  predicate Below(a: string, b: string) {
    a == "" || (b != "" && (a[0] < b[0] || (a[0] == b[0] && Below(a[1..], b[1..]))))
  }

  /** The smaller character comes first where two texts first differ, and the shorter text where they do not. */
  lemma {:induction false} BelowIsLexical(a: string, b: string)
    ensures Below(a, b) <==>
              || a <= b
              || exists k | 0 <= k < |a| && k < |b| :: a[..k] == b[..k] && a[k] < b[k]
  {
    if a != "" && b != "" {
      var s, t := a[1..], b[1..];
      BelowIsLexical(s, t);
      assert a == [a[0]] + s && b == [b[0]] + t;
      if a[0] == b[0] && !(s <= t) && Below(s, t) {
        var k :| 0 <= k < |s| && k < |t| && s[..k] == t[..k] && s[k] < t[k];
        assert a[..k + 1] == [a[0]] + s[..k] && b[..k + 1] == [b[0]] + t[..k];
        assert a[k + 1] < b[k + 1];
      } else if a[0] < b[0] {
        assert a[..0] == b[..0];
      }
      if k :| 0 <= k < |a| && k < |b| && a[..k] == b[..k] && a[k] < b[k] {
        if k > 0 {
          assert a[..k][0] == a[0] && b[..k][0] == b[0];
          assert s[..k - 1] == a[..k][1..] && t[..k - 1] == b[..k][1..];
          assert s[k - 1] < t[k - 1];
        }
      }
    }
  }

  lemma {:induction false} BelowIsTotal(a: string, b: string)
    ensures Below(a, b) || Below(b, a)
  {
    if a != "" && b != "" {
      BelowIsTotal(a[1..], b[1..]);
    }
  }

  lemma {:induction false} BelowIsTransitive(a: string, b: string, c: string)
    requires Below(a, b) && Below(b, c)
    ensures Below(a, c)
  {
    if a != "" && a[0] == b[0] == c[0] {
      BelowIsTransitive(a[1..], b[1..], c[1..]);
    }
  }

  lemma {:induction false} BelowIsAntisymmetric(a: string, b: string)
    requires Below(a, b) && Below(b, a)
    ensures a == b
  {
    if a != "" && b != "" {
      BelowIsAntisymmetric(a[1..], b[1..]);
      assert a == [a[0]] + a[1..] && b == [b[0]] + b[1..];
    }
  }

  predicate Sorted(names: seq<string>) {
    forall i, j | 0 <= i < j < |names| :: Below(names[i], names[j])
  }

  function InsertName(names: seq<string>, name: string): seq<string> {
    if |names| == 0 || Below(name, names[0]) then [name] + names
    else [names[0]] + InsertName(names[1..], name)
  }

  function SortNames(names: seq<string>): seq<string> {
    if |names| == 0 then [] else InsertName(SortNames(names[1..]), names[0])
  }

  lemma {:induction false} InsertAdds(names: seq<string>, name: string)
    ensures multiset(InsertName(names, name)) == multiset(names) + multiset{name}
  {
    if |names| > 0 && !Below(name, names[0]) {
      InsertAdds(names[1..], name);
      assert names == [names[0]] + names[1..];
    }
  }

  lemma {:induction false} InsertSorts(names: seq<string>, name: string)
    requires Sorted(names)
    ensures Sorted(InsertName(names, name))
  {
    var after := InsertName(names, name);
    if |names| == 0 {
    } else if Below(name, names[0]) {
      forall j | 0 <= j < |names| ensures Below(name, names[j]) {
        if j > 0 {
          BelowIsTransitive(name, names[0], names[j]);
        }
      }
    } else {
      InsertSorts(names[1..], name);
      InsertAdds(names[1..], name);
      BelowIsTotal(name, names[0]);
      forall j | 0 < j < |after| ensures Below(names[0], after[j]) {
        assert after[j] in multiset(after[1..]);
        assert after[1..] == InsertName(names[1..], name);
      }
    }
  }

  lemma {:induction false} SortNamesSorts(names: seq<string>)
    ensures Sorted(SortNames(names)) && multiset(SortNames(names)) == multiset(names)
  {
    if |names| > 0 {
      SortNamesSorts(names[1..]);
      InsertSorts(SortNames(names[1..]), names[0]);
      InsertAdds(SortNames(names[1..]), names[0]);
      assert names == [names[0]] + names[1..];
    }
  }

  /** Sorting changes neither which names there are nor how often. */
  lemma SortedHasSame(names: seq<string>)
    ensures |SortNames(names)| == |names|
    ensures forall name :: name in SortNames(names) <==> name in names
  {
    SortNamesSorts(names);
    assert |SortNames(names)| == |multiset(SortNames(names))|;
    forall name ensures name in SortNames(names) <==> name in names {
      assert name in SortNames(names) <==> name in multiset(SortNames(names));
    }
  }

  lemma TailOf(a: seq<string>)
    requires |a| > 0
    ensures multiset(a[1..]) == multiset(a) - multiset{a[0]}
    ensures Sorted(a) ==> Sorted(a[1..])
  {
    assert a == [a[0]] + a[1..];
  }

  lemma SameLength(a: seq<string>, b: seq<string>)
    requires multiset(a) == multiset(b)
    ensures |a| == |b|
  {
    assert |multiset(a)| == |a|;
    assert |multiset(b)| == |b|;
  }

  lemma SameFirst(a: seq<string>, b: seq<string>)
    requires |a| > 0 && |b| > 0 && Sorted(a) && Sorted(b) && multiset(a) == multiset(b)
    ensures a[0] == b[0]
  {
    FirstIsLeast(a, b);
    FirstIsLeast(b, a);
    BelowIsAntisymmetric(a[0], b[0]);
  }

  lemma SameTails(a: seq<string>, b: seq<string>)
    requires |a| > 0 && |b| > 0 && a[0] == b[0] && a[1..] == b[1..]
    ensures a == b
  {
    assert a == [a[0]] + a[1..] && b == [b[0]] + b[1..];
  }

  /** A sorted list of given names is the only one, so it does not matter how it was sorted. */
  lemma {:induction false} SortedIsUnique(a: seq<string>, b: seq<string>)
    requires Sorted(a) && Sorted(b) && multiset(a) == multiset(b)
    ensures a == b
  {
    SameLength(a, b);
    if |a| > 0 {
      SameFirst(a, b);
      TailOf(a);
      TailOf(b);
      SortedIsUnique(a[1..], b[1..]);
      SameTails(a, b);
    }
  }

  lemma FirstIsLeast(a: seq<string>, b: seq<string>)
    requires |a| > 0 && |b| > 0 && Sorted(a) && multiset(a) == multiset(b)
    ensures Below(a[0], b[0])
  {
    assert b[0] in multiset(a);
    var k :| 0 <= k < |a| && a[k] == b[0];
    if k == 0 {
      BelowIsTotal(a[0], a[0]);
    }
  }

  /** Every name of the set once, in order. */
  predicate ListsKeys(keys: seq<string>, names: set<string>) {
    Sorted(keys) && multiset(keys) == multiset(names)
  }

  ghost function KeysOf(names: set<string>): (keys: seq<string>)
    ensures ListsKeys(keys, names)
  {
    if names == {} then []
    else
      var name :| name in names;
      var rest := KeysOf(names - {name});
      InsertSorts(rest, name);
      InsertAdds(rest, name);
      InsertName(rest, name)
  }

  lemma KeysOfHas(names: set<string>)
    ensures forall name :: name in KeysOf(names) <==> name in names
  {
    forall name ensures name in KeysOf(names) <==> name in names {
      assert name in KeysOf(names) <==> name in multiset(KeysOf(names));
    }
  }

  /** The keys come in any order, and are then sorted. */
  method SortedKeys(names: set<string>) returns (keys: seq<string>)
    ensures keys == KeysOf(names)
  {
    keys := [];
    var left := names;
    while left != {}
      invariant left <= names && multiset(keys) == multiset(names - left)
      decreases |left|
    {
      var name :| name in left;
      assert names - (left - {name}) == (names - left) + {name};
      keys := keys + [name];
      left := left - {name};
    }
    assert names - left == names;
    SortNamesSorts(keys);
    keys := SortNames(keys);
    SortedIsUnique(keys, KeysOf(names));
  }
}
