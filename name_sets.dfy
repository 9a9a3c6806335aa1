/**
 * Name sets as the analysis scripts build and print them: Python's `set(list)`,
 * Python's `<` on `str` (code-point lexicographic order) and `sorted(...)` of a set.
 */
module NameSets {

  /** Python's `a < b` on `str`: the first differing code point decides, and a proper prefix comes first. */
  predicate LexLess(a: string, b: string)
    decreases |a|
  {
    |b| > 0 && (|a| == 0 || a[0] < b[0] || (a[0] == b[0] && LexLess(a[1..], b[1..])))
  }

  lemma {:induction false} LexIrreflexive(a: string)
    ensures !LexLess(a, a)
    decreases |a|
  {
    if |a| > 0 {
      LexIrreflexive(a[1..]);
    }
  }

  lemma {:induction false} LexTransitive(a: string, b: string, c: string)
    requires LexLess(a, b) && LexLess(b, c)
    ensures LexLess(a, c)
    decreases |a|
  {
    if |a| > 0 && a[0] == b[0] && b[0] == c[0] {
      LexTransitive(a[1..], b[1..], c[1..]);
    }
  }

  lemma {:induction false} LexTotal(a: string, b: string)
    requires a != b
    ensures LexLess(a, b) || LexLess(b, a)
    decreases |a|
  {
    if |a| > 0 && |b| > 0 && a[0] == b[0] {
      assert a == [a[0]] + a[1..] && b == [b[0]] + b[1..];
      LexTotal(a[1..], b[1..]);
    }
  }

  lemma LexAsymmetric(a: string, b: string)
    requires LexLess(a, b)
    ensures !LexLess(b, a)
  {
    if LexLess(b, a) {
      LexTransitive(a, b, a);
      LexIrreflexive(a);
    }
  }

  /**
   * The usual statement of Python's string order: `a` is a proper prefix of `b`, or at
   * the first position where they differ `a` holds the smaller code point.
   */
  lemma {:induction false} LexLessIsFirstDifference(a: string, b: string)
    ensures LexLess(a, b) <==>
      || (|a| < |b| && a == b[..|a|])
      || (exists i :: 0 <= i < |a| && i < |b| && a[..i] == b[..i] && a[i] < b[i])
    decreases |a|
  {
    if |a| > 0 && |b| > 0 {
      var a', b' := a[1..], b[1..];
      LexLessIsFirstDifference(a', b');
      if a[0] == b[0] {
        assert (|a| < |b| && a == b[..|a|]) <==> (|a'| < |b'| && a' == b'[..|a'|]) by {
          assert a == [a[0]] + a';
          assert b[..|a|] == [b[0]] + b'[..|a'|] <== |a| <= |b|;
        }
        if exists i :: 0 <= i < |a'| && i < |b'| && a'[..i] == b'[..i] && a'[i] < b'[i] {
          var i :| 0 <= i < |a'| && i < |b'| && a'[..i] == b'[..i] && a'[i] < b'[i];
          assert a[..i + 1] == [a[0]] + a'[..i] && b[..i + 1] == [b[0]] + b'[..i];
          assert a[i + 1] < b[i + 1];
        }
        if exists i :: 0 <= i < |a| && i < |b| && a[..i] == b[..i] && a[i] < b[i] {
          var i :| 0 <= i < |a| && i < |b| && a[..i] == b[..i] && a[i] < b[i];
          assert i > 0;
          assert a'[..i - 1] == a[1..i] == b[1..i] == b'[..i - 1];
          assert a'[i - 1] < b'[i - 1];
        }
      } else if a[0] < b[0] {
        assert a[..0] == b[..0];
      }
    } else if |a| == 0 && |b| > 0 {
      assert a == b[..0];
    }
  }

  /** The list printed by `for name in sorted(...)`: each name once, strictly ascending. */
  ghost predicate StrictlyAscending(xs: seq<string>) {
    forall i, j :: 0 <= i < j < |xs| ==> LexLess(xs[i], xs[j])
  }

  ghost predicate NoDuplicates(xs: seq<string>) {
    forall i, j :: 0 <= i < j < |xs| ==> xs[i] != xs[j]
  }

  /** Python's `set(names)`: the distinct members of a list. */
  function ToSet(xs: seq<string>): (r: set<string>)
    ensures forall x :: x in r <==> x in xs
    ensures |r| <= |xs|
  {
    if xs == [] then {} else {xs[0]} + ToSet(xs[1..])
  }

  lemma NoDuplicatesCons(xs: seq<string>)
    requires xs != []
    ensures NoDuplicates(xs) <==> xs[0] !in xs[1..] && NoDuplicates(xs[1..])
  {
    var rest := xs[1..];
    if xs[0] in rest {
      var j :| 0 <= j < |rest| && rest[j] == xs[0];
      assert xs[0] == xs[j + 1];
    }
    if !NoDuplicates(rest) {
      var i, j :| 0 <= i < j < |rest| && rest[i] == rest[j];
      assert xs[i + 1] == xs[j + 1];
    }
    if xs[0] !in rest && NoDuplicates(rest) {
      forall i, j | 0 <= i < j < |xs| ensures xs[i] != xs[j] {
        assert xs[j] == rest[j - 1];
        if i > 0 {
          assert xs[i] == rest[i - 1];
        }
      }
    }
  }

  /** The set is exactly as large as the list precisely when the list repeats no name. */
  lemma {:induction false} ToSetSizeExact(xs: seq<string>)
    ensures |ToSet(xs)| == |xs| <==> NoDuplicates(xs)
  {
    if xs != [] {
      var rest := xs[1..];
      ToSetSizeExact(rest);
      NoDuplicatesCons(xs);
      if xs[0] in rest {
        assert ToSet(xs) == ToSet(rest);
      } else {
        assert xs[0] !in ToSet(rest);
        assert |ToSet(xs)| == 1 + |ToSet(rest)|;
      }
    }
  }

  predicate IsLeast(m: string, s: set<string>) {
    m in s && forall x :: x in s && x != m ==> LexLess(m, x)
  }

  lemma {:induction false} LeastExists(s: set<string>)
    requires s != {}
    ensures exists m :: IsLeast(m, s)
    decreases |s|
  {
    var x :| x in s;
    if s == {x} {
      assert IsLeast(x, s);
    } else {
      LeastExists(s - {x});
      var m :| IsLeast(m, s - {x});
      if LexLess(x, m) {
        forall y | y in s && y != x
          ensures LexLess(x, y)
        {
          if y != m {
            LexTransitive(x, m, y);
          }
        }
        assert IsLeast(x, s);
      } else {
        LexTotal(x, m);
        assert IsLeast(m, s);
      }
    }
  }

  lemma LeastUnique(s: set<string>)
    ensures forall a, b :: IsLeast(a, s) && IsLeast(b, s) ==> a == b
  {
    forall a, b | IsLeast(a, s) && IsLeast(b, s)
      ensures a == b
    {
      if a != b {
        LexAsymmetric(a, b);
      }
    }
  }

  /** The smallest name of a non-empty set under Python's string order. */
  function Least(s: set<string>): (m: string)
    requires s != {}
    ensures m in s
    ensures forall x :: x in s && x != m ==> LexLess(m, x)
  {
    LeastExists(s);
    LeastUnique(s);
    var m :| IsLeast(m, s);
    m
  }

  /** Python's `sorted(s)` for a set of `str`. */
  function Sorted(s: set<string>): (r: seq<string>)
    ensures StrictlyAscending(r)
    ensures forall x :: x in r <==> x in s
    ensures |r| == |s|
    decreases |s|
  {
    if s == {} then []
    else
      var m := Least(s);
      var rest := Sorted(s - {m});
      AscendingCons(m, rest);
      [m] + rest
  }

  lemma AscendingCons(m: string, rest: seq<string>)
    requires StrictlyAscending(rest)
    requires forall x :: x in rest ==> LexLess(m, x)
    ensures StrictlyAscending([m] + rest)
  {
    var xs := [m] + rest;
    forall i, j | 0 <= i < j < |xs|
      ensures LexLess(xs[i], xs[j])
    {
      assert xs[j] == rest[j - 1];
      if i > 0 {
        assert xs[i] == rest[i - 1];
      }
    }
  }

  /** Sorting is determined by the set alone: any strictly ascending listing of `s` is `Sorted(s)`. */
  lemma {:induction false} SortedIsUnique(xs: seq<string>, s: set<string>)
    requires StrictlyAscending(xs)
    requires forall x :: x in xs <==> x in s
    ensures xs == Sorted(s)
    decreases |xs|
  {
    if xs == [] {
      assert s == {};
    } else {
      assert xs[0] in s;
      var m := Least(s);
      assert IsLeast(xs[0], s) by {
        forall x | x in s && x != xs[0]
          ensures LexLess(xs[0], x)
        {
          var j :| 0 <= j < |xs| && xs[j] == x;
        }
      }
      LeastUnique(s);
      assert xs[0] == m;
      forall x
        ensures x in xs[1..] <==> x in s - {m}
      {
        if x in xs[1..] {
          var j :| 1 <= j < |xs| && xs[j] == x;
          LexIrreflexive(m);
        }
        if x in s - {m} {
          var j :| 0 <= j < |xs| && xs[j] == x;
        }
      }
      SortedIsUnique(xs[1..], s - {m});
    }
  }
}
