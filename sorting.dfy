/** The in-memory sort both sorters apply to a run before it is written:
    List.sort with a comparator that calls String.compareTo. The library's
    algorithm is not part of this model; its promise is. An insertion sort
    serves as the reference function, and since a sorted permutation is unique
    (TokenOrder.SortedUnique) any correct sort produces the same run. */
module Sorting {
  import opened TokenOrder

  /** Inserts x before the first element it precedes. */
  function Insert(x: Token, s: seq<Token>): (r: seq<Token>)
    ensures multiset(r) == multiset(s) + multiset{x}
  {
    if s == [] then [x]
    else if Le(x, s[0]) then [x] + s
    else
      assert s == [s[0]] + s[1..];
      [s[0]] + Insert(x, s[1..])
  }

  /** The sorted permutation of s. */
  function SortTokens(s: seq<Token>): (r: seq<Token>)
  {
    if s == [] then [] else Insert(s[0], SortTokens(s[1..]))
  }

  lemma {:induction false} InsertSorted(x: Token, s: seq<Token>)
    requires Sorted(s)
    ensures Sorted(Insert(x, s))
  {
    if s != [] && !Le(x, s[0]) {
      InsertSorted(x, s[1..]);
      var r := Insert(x, s);
      var t := Insert(x, s[1..]);
      assert r == [s[0]] + t;
      LeTotal(x, s[0]);
      forall k | 0 <= k < |t| ensures Le(s[0], t[k]) {
        assert t[k] in multiset(t);
        assert t[k] in multiset(s[1..]) || t[k] == x;
        if t[k] != x {
          var j :| 0 <= j < |s[1..]| && s[1..][j] == t[k];
          assert s[j + 1] == t[k];
        }
      }
    } else if s != [] {
      var r := Insert(x, s);
      forall i, j | 0 <= i < j < |r| ensures Le(r[i], r[j]) {
        if i == 0 { LeReflexive(s[0]); LeTransitive(x, s[0], s[j - 1]); }
      }
    }
  }

  /** What List.sort promises: the run comes out sorted and holds exactly
      the tokens it went in with. */
  lemma {:induction false} SortTokensCorrect(s: seq<Token>)
    ensures Sorted(SortTokens(s))
    ensures multiset(SortTokens(s)) == multiset(s)
    ensures |SortTokens(s)| == |s|
  {
    if s != [] {
      SortTokensCorrect(s[1..]);
      InsertSorted(s[0], SortTokens(s[1..]));
      assert s == [s[0]] + s[1..];
    }
    assert |multiset(SortTokens(s))| == |multiset(s)|;
  }

  /** Any sorted permutation of s is SortTokens(s). */
  lemma SortTokensUnique(s: seq<Token>, t: seq<Token>)
    requires Sorted(t) && multiset(t) == multiset(s)
    ensures t == SortTokens(s)
  {
    SortTokensCorrect(s);
    SortedUnique(t, SortTokens(s));
  }

  /** Sorting an already sorted sequence leaves it as it is. */
  lemma SortTokensIdempotent(s: seq<Token>)
    requires Sorted(s)
    ensures SortTokens(s) == s
  {
    SortTokensUnique(s, s);
  }
}
