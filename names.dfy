/**
 * The names the conversions give to the states they create: "q0", "q1", ... for
 * the subset construction, and "{a,b,...}" (members in string order, joined by
 * commas) for a merged block of the minimisation.
 */
module Names {

  const Digits: string := "0123456789"

  /** The decimal numeral of `n`, as Python's `str` writes it. */
  function Decimal(n: nat): (s: string)
    ensures |s| >= 1
    ensures n >= 10 ==> |s| >= 2
    decreases n
  {
    if n < 10 then [Digits[n]] else Decimal(n / 10) + [Digits[n % 10]]
  }

  lemma DigitsDistinct(i: nat, j: nat)
    requires i < 10 && j < 10 && Digits[i] == Digits[j]
    ensures i == j
  {
  }

  /** Different numbers have different numerals. */
  lemma {:induction false} DecimalInjective(a: nat, b: nat)
    requires Decimal(a) == Decimal(b)
    ensures a == b
    decreases a
  {
    if a < 10 && b < 10 {
      DigitsDistinct(a, b);
    } else if a >= 10 && b >= 10 {
      var sa, sb := Decimal(a / 10), Decimal(b / 10);
      assert Decimal(a) == sa + [Digits[a % 10]];
      assert Decimal(b) == sb + [Digits[b % 10]];
      assert Digits[a % 10] == Decimal(a)[|Decimal(a)| - 1] == Digits[b % 10];
      DigitsDistinct(a % 10, b % 10);
      assert sa == Decimal(a)[..|Decimal(a)| - 1] == sb;
      DecimalInjective(a / 10, b / 10);
    }
  }

  /** The name "q{n}" of the n-th subset found by the subset construction. */
  function SubsetName(n: nat): string
  {
    "q" + Decimal(n)
  }

  lemma SubsetNameInjective(a: nat, b: nat)
    requires SubsetName(a) == SubsetName(b)
    ensures a == b
  {
    assert Decimal(a) == SubsetName(a)[1..] == SubsetName(b)[1..] == Decimal(b);
    DecimalInjective(a, b);
  }

  /** Python's `<` on strings: lexicographic by character. */
  predicate StrLess(a: string, b: string)
    decreases |a|
  {
    if a == [] then b != []
    else if b == [] then false
    else if a[0] != b[0] then a[0] < b[0]
    else StrLess(a[1..], b[1..])
  }

  lemma {:induction false} StrLessIrreflexive(a: string)
    ensures !StrLess(a, a)
    decreases |a|
  {
    if a != [] {
      StrLessIrreflexive(a[1..]);
    }
  }

  lemma {:induction false} StrLessTransitive(a: string, b: string, c: string)
    requires StrLess(a, b) && StrLess(b, c)
    ensures StrLess(a, c)
    decreases |a|
  {
    if a != [] && b != [] && c != [] && a[0] == b[0] && b[0] == c[0] {
      StrLessTransitive(a[1..], b[1..], c[1..]);
    }
  }

  lemma {:induction false} StrLessTotal(a: string, b: string)
    ensures a == b || StrLess(a, b) || StrLess(b, a)
    decreases |a|
  {
    if a != [] && b != [] && a[0] == b[0] {
      StrLessTotal(a[1..], b[1..]);
      if a[1..] == b[1..] {
        assert a == [a[0]] + a[1..] && b == [b[0]] + b[1..];
      }
    }
  }

  ghost predicate IsLeast(m: string, s: set<string>)
  {
    m in s && forall x :: x in s ==> x == m || StrLess(m, x)
  }

  lemma {:induction false} LeastExists(s: set<string>)
    requires s != {}
    ensures exists m :: IsLeast(m, s)
    decreases |s|
  {
    var y :| y in s;
    if s == {y} {
      assert IsLeast(y, s);
    } else {
      LeastExists(s - {y});
      var m :| IsLeast(m, s - {y});
      StrLessTotal(y, m);
      if StrLess(y, m) {
        forall x | x in s
          ensures x == y || StrLess(y, x)
        {
          if x != y && x != m {
            StrLessTransitive(y, m, x);
          }
        }
        assert IsLeast(y, s);
      } else {
        assert IsLeast(m, s);
      }
    }
  }

  lemma LeastUnique(m1: string, m2: string, s: set<string>)
    requires IsLeast(m1, s) && IsLeast(m2, s)
    ensures m1 == m2
  {
    if m1 != m2 {
      StrLessTransitive(m1, m2, m1);
      StrLessIrreflexive(m1);
    }
  }

  ghost function Least(s: set<string>): (m: string)
    requires s != {}
    ensures IsLeast(m, s)
  {
    LeastExists(s);
    var m :| IsLeast(m, s);
    m
  }

  ghost predicate StrictlySorted(r: seq<string>)
  {
    forall i, j :: 0 <= i < j < |r| ==> StrLess(r[i], r[j])
  }

  /** The members of `s` in increasing string order: what `sorted(list(s))` returns. */
  ghost function SortedOf(s: set<string>): (r: seq<string>)
    decreases |s|
  {
    if s == {} then []
    else
      var m := Least(s);
      [m] + SortedOf(s - {m})
  }

  /** `SortedOf(s)` lists exactly the members of `s`, each once, in increasing order. */
  lemma {:induction false} SortedOfSpec(s: set<string>)
    ensures |SortedOf(s)| == |s|
    ensures forall x :: x in SortedOf(s) <==> x in s
    ensures StrictlySorted(SortedOf(s))
    decreases |s|
  {
    if s != {} {
      var m := Least(s);
      SortedOfSpec(s - {m});
      var tail := SortedOf(s - {m});
      assert forall x :: x in tail ==> StrLess(m, x);
      assert SortedOf(s) == [m] + tail;
    }
  }

  lemma SortedOfUnfold(s: set<string>)
    requires s != {}
    ensures Least(s) in s
    ensures SortedOf(s) == [Least(s)] + SortedOf(s - {Least(s)})
  {
  }

  /** Scans a non-empty set for its least string. */
  method FindLeast(s: set<string>) returns (m: string)
    requires s != {}
    ensures m == Least(s)
  {
    m :| m in s;
    var todo := s - {m};
    while todo != {}
      invariant todo <= s && m in s && m !in todo
      invariant forall x :: x in s - todo ==> x == m || StrLess(m, x)
      decreases todo
    {
      var x :| x in todo;
      StrLessTotal(x, m);
      if StrLess(x, m) {
        forall y | y in s - todo
          ensures y == x || StrLess(x, y)
        {
          if y != m {
            StrLessTransitive(x, m, y);
          }
        }
        m := x;
      }
      todo := todo - {x};
    }
    LeastUnique(m, Least(s), s);
  }

  /** Sorts a set of strings by repeatedly taking out the least one. */
  method SortStrings(s: set<string>) returns (r: seq<string>)
    ensures r == SortedOf(s)
  {
    r := [];
    var rest := s;
    while rest != {}
      invariant r + SortedOf(rest) == SortedOf(s)
      decreases |rest|
    {
      var m := FindLeast(rest);
      SortedOfUnfold(rest);
      r, rest := r + [m], rest - {m};
    }
  }

  /** Python's `sep.join(parts)`. */
  function Join(parts: seq<string>, sep: string): string
    decreases |parts|
  {
    if |parts| == 0 then ""
    else if |parts| == 1 then parts[0]
    else parts[0] + sep + Join(parts[1..], sep)
  }

  /**
   * The name the minimisation gives to a block of equivalent states: its only
   * member, or the sorted members joined by commas between braces.
   */
  ghost function BlockName(b: set<string>): string
    requires b != {}
  {
    SortedOfSpec(b);
    var sorted := SortedOf(b);
    if |b| > 1 then "{" + Join(sorted, ",") + "}" else sorted[0]
  }

  /** A singleton block keeps the name of its member; a larger one is braced. */
  lemma BlockNameShape(b: set<string>)
    requires b != {}
    ensures |b| == 1 ==> BlockName(b) in b
    ensures |b| > 1 ==> BlockName(b)[0] == '{'
  {
    SortedOfSpec(b);
  }

  /** No name holds a comma or an opening brace, the characters block names are built with. */
  ghost predicate PlainNames(s: set<string>)
  {
    forall x :: x in s ==> ',' !in x && '{' !in x
  }

  /** A comma-joined list of two or more parts holds a comma right after its first part. */
  lemma JoinComma(parts: seq<string>)
    requires |parts| >= 2
    ensures Join(parts, ",") == parts[0] + "," + Join(parts[1..], ",")
    ensures Join(parts, ",")[|parts[0]|] == ','
  {
  }

  /** Joining parts without commas by commas loses nothing: the parts can be read back. */
  lemma {:induction false} JoinInjective(a: seq<string>, b: seq<string>)
    requires |a| >= 1 && |b| >= 1
    requires forall k :: 0 <= k < |a| ==> ',' !in a[k]
    requires forall k :: 0 <= k < |b| ==> ',' !in b[k]
    ensures Join(a, ",") == Join(b, ",") ==> a == b
    decreases |a|
  {
    var ja, jb := Join(a, ","), Join(b, ",");
    if |a| == 1 && |b| >= 2 {
      JoinComma(b);
      assert ',' in jb && ',' !in ja;
    } else if |b| == 1 && |a| >= 2 {
      JoinComma(a);
      assert ',' in ja && ',' !in jb;
    } else if |a| >= 2 && |b| >= 2 {
      JoinComma(a);
      JoinComma(b);
      if |a[0]| < |b[0]| {
        assert jb[|a[0]|] == b[0][|a[0]|] && b[0][|a[0]|] in b[0];
      } else if |b[0]| < |a[0]| {
        assert ja[|b[0]|] == a[0][|b[0]|] && a[0][|b[0]|] in a[0];
      } else if ja == jb {
        assert a[0] == ja[..|a[0]|] && b[0] == jb[..|b[0]|];
        assert Join(a[1..], ",") == ja[|a[0]| + 1..] && Join(b[1..], ",") == jb[|b[0]| + 1..];
        JoinInjective(a[1..], b[1..]);
        assert a == [a[0]] + a[1..] && b == [b[0]] + b[1..];
      }
    }
  }

  /** A one-member set is the set of its sorted list's first entry. */
  lemma SingleBlock(b: set<string>)
    requires |b| == 1
    ensures b == {SortedOf(b)[0]}
  {
    SortedOfSpec(b);
    var s := SortedOf(b);
    forall x | x in b
      ensures x == s[0]
    {
      assert x in s;
    }
  }

  /**
   * Blocks of plain names with the same name are the same block: a braced name
   * never equals a member's name, and the comma-joined sorted members can be
   * read back.
   */
  lemma BlockNameInjective(b1: set<string>, b2: set<string>)
    requires b1 != {} && b2 != {} && PlainNames(b1) && PlainNames(b2)
    ensures BlockName(b1) == BlockName(b2) ==> b1 == b2
  {
    SortedOfSpec(b1);
    SortedOfSpec(b2);
    var s1, s2 := SortedOf(b1), SortedOf(b2);
    var n1, n2 := BlockName(b1), BlockName(b2);
    if |b1| > 1 && |b2| > 1 {
      var j1, j2 := Join(s1, ","), Join(s2, ",");
      if n1 == n2 {
        assert j1 == n1[1..|n1| - 1] && j2 == n2[1..|n2| - 1];
        JoinInjective(s1, s2);
        assert forall x :: x in b1 <==> x in b2;
      }
    } else if |b1| > 1 {
      assert n1[0] == '{' && '{' in n1;
      assert n2 == s2[0] && '{' !in n2;
    } else if |b2| > 1 {
      assert n2[0] == '{' && '{' in n2;
      assert n1 == s1[0] && '{' !in n1;
    } else {
      SingleBlock(b1);
      SingleBlock(b2);
    }
  }
}
