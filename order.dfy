/** The order on tokens used by both sorters: Java's String.compareTo, which
    compares UTF-16 code units one by one and, when one string is a prefix of
    the other, puts the shorter one first. */
module TokenOrder {

  /** One UTF-16 code unit (a Java char). */
  type CodeUnit = c: int | 0 <= c < 0x1_0000

  /** A token is a Java String: a sequence of code units. */
  type Token = seq<CodeUnit>

  /** String.compareTo: the difference of the first differing code units,
      or the difference of the lengths when one token is a prefix of the other. */
  function CompareTo(a: Token, b: Token): int
  {
    if a == [] || b == [] then |a| - |b|
    else if a[0] != b[0] then a[0] - b[0]
    else CompareTo(a[1..], b[1..])
  }

  /** a precedes or equals b under compareTo. */
  predicate Le(a: Token, b: Token)
  {
    CompareTo(a, b) <= 0
  }

  /** Non-decreasing under compareTo. */
  predicate Sorted(s: seq<Token>)
  {
    forall i, j :: 0 <= i < j < |s| ==> Le(s[i], s[j])
  }

  /** a and b agree before position k, and at k a holds the smaller code unit. */
  ghost predicate FirstDifference(a: Token, b: Token, k: int)
  {
    0 <= k < |a| && k < |b| && a[..k] == b[..k] && a[k] < b[k]
  }

  /** Independent reference: a is lexicographically at most b when a is a
      prefix of b or the first position where they differ holds a smaller
      code unit in a. */
  ghost predicate Lexicographic(a: Token, b: Token)
  {
    a <= b || exists k :: FirstDifference(a, b, k)
  }

  lemma {:induction false} CompareToAntisymmetric(a: Token, b: Token)
    ensures CompareTo(a, b) == -CompareTo(b, a)
  {
    if a != [] && b != [] && a[0] == b[0] {
      CompareToAntisymmetric(a[1..], b[1..]);
    }
  }

  lemma {:induction false} CompareToZero(a: Token, b: Token)
    ensures CompareTo(a, b) == 0 <==> a == b
  {
    if a != [] && b != [] && a[0] == b[0] {
      CompareToZero(a[1..], b[1..]);
      assert a == [a[0]] + a[1..] && b == [b[0]] + b[1..];
    }
  }

  lemma LeReflexive(a: Token)
    ensures Le(a, a)
  {
    CompareToZero(a, a);
  }

  lemma LeAntisymmetric(a: Token, b: Token)
    requires Le(a, b) && Le(b, a)
    ensures a == b
  {
    CompareToAntisymmetric(a, b);
    CompareToZero(a, b);
  }

  lemma LeTotal(a: Token, b: Token)
    ensures Le(a, b) || Le(b, a)
  {
    CompareToAntisymmetric(a, b);
  }

  /** Strict order is transitive together with the non-strict one. */
  lemma {:induction false} LeTransitive(a: Token, b: Token, c: Token)
    requires Le(a, b) && Le(b, c)
    ensures Le(a, c)
  {
    if a == [] || b == [] || c == [] {
      // a == [] makes compareTo(a, c) non-positive; b or c empty cannot happen
    } else if a[0] != b[0] || b[0] != c[0] {
      assert a[0] <= b[0] <= c[0];
    } else {
      LeTransitive(a[1..], b[1..], c[1..]);
    }
  }

  /** compareTo agrees with the lexicographic order written out with indices. */
  lemma {:induction false} LeIsLexicographic(a: Token, b: Token)
    ensures Le(a, b) <==> Lexicographic(a, b)
  {
    if a == [] {
    } else if b == [] {
      assert !(a <= b);
    } else if a[0] != b[0] {
      if a[0] < b[0] {
        assert FirstDifference(a, b, 0);
      } else {
        assert !(a <= b);
      }
    } else {
      LeIsLexicographic(a[1..], b[1..]);
      LexicographicTail(a, b);
    }
  }

  /** A shared first code unit can be dropped from both sides. */
  lemma LexicographicTail(a: Token, b: Token)
    requires a != [] && b != [] && a[0] == b[0]
    ensures Lexicographic(a, b) <==> Lexicographic(a[1..], b[1..])
  {
    assert a == [a[0]] + a[1..] && b == [b[0]] + b[1..];
    assert (a <= b) <==> (a[1..] <= b[1..]);
    if exists k :: FirstDifference(a, b, k) {
      var k :| FirstDifference(a, b, k);
      assert k > 0;
      assert a[1..][..k - 1] == a[..k][1..] && b[1..][..k - 1] == b[..k][1..];
      assert FirstDifference(a[1..], b[1..], k - 1);
    }
    if exists k :: FirstDifference(a[1..], b[1..], k) {
      var k :| FirstDifference(a[1..], b[1..], k);
      assert a[..k + 1] == [a[0]] + a[1..][..k] && b[..k + 1] == [b[0]] + b[1..][..k];
      assert FirstDifference(a, b, k + 1);
    }
  }

  /** The first element of a sorted sequence precedes all its elements. */
  lemma SortedHeadLeast(a: seq<Token>, x: Token)
    requires Sorted(a) && x in multiset(a)
    ensures a != [] && Le(a[0], x)
  {
    assert x in a;
    var i :| 0 <= i < |a| && a[i] == x;
    if i == 0 { LeReflexive(x); }
  }

  /** A sorted permutation is unique: two sorted sequences of the same tokens
      are equal. */
  lemma {:induction false} SortedUnique(a: seq<Token>, b: seq<Token>)
    requires Sorted(a) && Sorted(b) && multiset(a) == multiset(b)
    ensures a == b
  {
    if a == [] {
      assert |b| == |multiset(b)| == 0;
    } else {
      assert a[0] in multiset(a);
      SortedHeadLeast(b, a[0]);
      SortedHeadLeast(a, b[0]);
      LeAntisymmetric(a[0], b[0]);
      assert a == [a[0]] + a[1..] && b == [b[0]] + b[1..];
      assert multiset(a[1..]) == multiset(a) - multiset{a[0]};
      assert multiset(b[1..]) == multiset(b) - multiset{b[0]};
      SortedUnique(a[1..], b[1..]);
    }
  }

  /** Appending a token no smaller than the last keeps a sequence sorted. */
  lemma SortedAppend(s: seq<Token>, x: Token)
    requires Sorted(s) && (s != [] ==> Le(s[|s| - 1], x))
    ensures Sorted(s + [x])
  {
    var t := s + [x];
    forall i, j | 0 <= i < j < |t| ensures Le(t[i], t[j]) {
      if j == |s| && i < |s| - 1 {
        LeTransitive(s[i], s[|s| - 1], x);
      }
    }
  }

  /** s[k] precedes or equals every element of s. */
  predicate IsLeast(s: seq<Token>, k: int)
  {
    0 <= k < |s| && forall j :: 0 <= j < |s| ==> Le(s[k], s[j])
  }

  /** A non-empty sequence of tokens has a least element. */
  lemma {:induction false} LeastExists(s: seq<Token>)
    requires s != []
    ensures exists k :: IsLeast(s, k)
    decreases |s|
  {
    if |s| == 1 {
      LeReflexive(s[0]);
      assert IsLeast(s, 0);
    } else {
      var p := s[..|s| - 1];
      var x := s[|s| - 1];
      assert s == p + [x];
      LeastExists(p);
      var k :| IsLeast(p, k);
      LeTotal(p[k], x);
      if Le(p[k], x) {
        LeastOfAppend(p, k, x);
        assert IsLeast(s, k);
      } else {
        LeastIsNew(p, k, x);
        assert IsLeast(s, |p|);
      }
    }
  }

  lemma LeastOfAppend(p: seq<Token>, k: nat, x: Token)
    requires IsLeast(p, k) && Le(p[k], x)
    ensures IsLeast(p + [x], k)
  {
  }

  lemma LeastIsNew(p: seq<Token>, k: nat, x: Token)
    requires IsLeast(p, k) && Le(x, p[k])
    ensures IsLeast(p + [x], |p|)
  {
    forall j | 0 <= j < |p + [x]| ensures Le(x, (p + [x])[j]) {
      if j < |p| { LeTransitive(x, p[k], p[j]); } else { LeReflexive(x); }
    }
  }

  /** A suffix of a sorted sequence is sorted. */
  lemma SortedSuffix(s: seq<Token>, t: seq<Token>)
    requires Sorted(s) && |t| <= |s| && s[|s| - |t|..] == t
    ensures Sorted(t)
  {
    var d := |s| - |t|;
    forall i, j | 0 <= i < j < |t| ensures Le(t[i], t[j]) {
      assert t[i] == s[d + i] && t[j] == s[d + j];
    }
  }

  /** a is a suffix of b. */
  ghost predicate Suffix(a: seq<Token>, b: seq<Token>)
  {
    |a| <= |b| && b[|b| - |a|..] == a
  }

  lemma SuffixTail(a: seq<Token>, b: seq<Token>)
    requires Suffix(a, b) && a != []
    ensures Suffix(a[1..], b)
  {
    assert b[|b| - |a[1..]|..] == b[|b| - |a|..][1..];
  }

  lemma HeadTail(s: seq<Token>)
    requires s != []
    ensures multiset(s) == multiset{s[0]} + multiset(s[1..])
  {
    assert s == [s[0]] + s[1..];
  }

  lemma RemoveAt(s: seq<Token>, k: nat)
    requires k < |s|
    ensures multiset(s) == multiset(s[..k] + s[k + 1..]) + multiset{s[k]}
  {
    assert s == s[..k] + [s[k]] + s[k + 1..];
  }
}
