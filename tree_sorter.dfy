/** src/.../FileSorter.java: the same split into sorted runs, merged through
    a TreeMap from word wrappers to Scanners. This WordWrapper compares and
    equals by its word, so the map holds at most one entry per word: a key is
    the word itself, and put() on a word already present replaces the
    Scanner stored under it, which is then never read again. */
module TreeSorter {
  import opened TokenOrder
  import opened Sorting
  import opened Chunking
  import opened RunFiles
  import opened Wrappers
  import opened Configuration

  // ---------------------------------------------------------------------
  // firstKey()

  predicate IsLeastOf(keys: set<Token>, w: Token)
  {
    w in keys && forall x :: x in keys ==> Le(w, x)
  }

  /** A finite non-empty set of words has a least one. */
  lemma {:induction false} LeastInSet(keys: set<Token>)
    requires keys != {}
    ensures exists w :: IsLeastOf(keys, w)
    decreases |keys|
  {
    var y :| y in keys;
    var others := keys - {y};
    LeReflexive(y);
    if others == {} {
      assert keys == {y};
      assert IsLeastOf(keys, y);
    } else {
      LeastInSet(others);
      var z :| IsLeastOf(others, z);
      LeTotal(y, z);
      if Le(y, z) {
        forall x | x in keys ensures Le(y, x) {
          if x != y {
            LeTransitive(y, z, x);
          }
        }
        assert IsLeastOf(keys, y);
      } else {
        assert IsLeastOf(keys, z);
      }
    }
  }

  /** The least key is unique, since the order is antisymmetric. */
  lemma LeastUnique(keys: set<Token>, w: Token, v: Token)
    requires IsLeastOf(keys, w) && IsLeastOf(keys, v)
    ensures w == v
  {
    LeAntisymmetric(w, v);
  }

  /** firstKey() of a non-empty TreeMap. */
  ghost function FirstKey(m: map<Token, nat>): (w: Token)
    requires m != map[]
    ensures IsLeastOf(m.Keys, w)
  {
    assert m.Keys != {} by {
      var x :| x in m;
    }
    LeastInSet(m.Keys);
    var w :| IsLeastOf(m.Keys, w);
    w
  }

  // ---------------------------------------------------------------------
  // The merge as a function of the runs read back

  /** Every entry names one of the Scanners. */
  ghost predicate InRange(m: map<Token, nat>, n: nat)
  {
    forall w :: w in m ==> m[w] < n
  }

  /** The map after one turn of the merge loop: the first key removed and the
      next word of its Scanner, if any, put under that Scanner. */
  ghost function StepMap(m: map<Token, nat>, rest: seq<seq<Token>>): (m': map<Token, nat>)
    requires m != map[] && InRange(m, |rest|)
    ensures InRange(m', |rest|)
  {
    var w := FirstKey(m);
    var r := m[w];
    if rest[r] == [] then m - {w} else (m - {w})[rest[r][0] := r]
  }

  /** The Scanners after one turn: the one polled has read one more word. */
  ghost function StepRest(m: map<Token, nat>, rest: seq<seq<Token>>): (rest': seq<seq<Token>>)
    requires m != map[] && InRange(m, |rest|)
    ensures |rest'| == |rest|
  {
    var r := m[FirstKey(m)];
    if rest[r] == [] then rest else rest[r := rest[r][1..]]
  }

  lemma StepDecreases(m: map<Token, nat>, rest: seq<seq<Token>>)
    requires m != map[] && InRange(m, |rest|)
    ensures |StepMap(m, rest).Keys| + |Concat(StepRest(m, rest))| < |m.Keys| + |Concat(rest)|
  {
    var w := FirstKey(m);
    var r := m[w];
    assert (m - {w}).Keys == m.Keys - {w};
    if rest[r] != [] {
      assert ((m - {w})[rest[r][0] := r]).Keys == (m.Keys - {w}) + {rest[r][0]};
      ConcatTail(rest, r);
    }
  }

  /** The words the merge loop writes from map m and Scanners rest. */
  ghost function Drain(m: map<Token, nat>, rest: seq<seq<Token>>): seq<Token>
    requires InRange(m, |rest|)
    decreases |m.Keys| + |Concat(rest)|
  {
    if m == map[] then []
    else
      StepDecreases(m, rest);
      [FirstKey(m)] + Drain(StepMap(m, rest), StepRest(m, rest))
  }

  /** The map and the Scanners after the first n files are opened: each
      non-empty file's first word is put under its Scanner. */
  ghost function Open(runs: seq<seq<Token>>, n: nat): (st: (map<Token, nat>, seq<seq<Token>>))
    requires n <= |runs|
    ensures |st.1| == n && InRange(st.0, n)
  {
    if n == 0 then (map[], [])
    else
      var (m, rest) := Open(runs, n - 1);
      var s := runs[n - 1];
      if s == [] then (m, rest + [s]) else (m[s[0] := n - 1], rest + [s[1..]])
  }

  /** The words mergeFiles() writes for the runs read back. */
  ghost function TreeMerge(runs: seq<seq<Token>>): seq<Token>
  {
    var st := Open(runs, |runs|);
    Drain(st.0, st.1)
  }

  // ---------------------------------------------------------------------
  // Invariants of the map

  /** An entry's word followed by its Scanner's unread words is what is left
      of its run. */
  ghost predicate TreeHeads(runs: seq<seq<Token>>, rest: seq<seq<Token>>, m: map<Token, nat>)
  {
    && |rest| <= |runs|
    && InRange(m, |rest|)
    && (forall w :: w in m ==> Suffix([w] + rest[m[w]], runs[m[w]]))
  }

  /** No Scanner is stored under two words. */
  ghost predicate Injective(m: map<Token, nat>)
  {
    forall w1, w2 :: w1 in m && w2 in m && w1 != w2 ==> m[w1] != m[w2]
  }

  ghost predicate TreeInv(runs: seq<seq<Token>>, rest: seq<seq<Token>>, m: map<Token, nat>)
  {
    TreeHeads(runs, rest, m) && Injective(m)
  }

  /** Every Scanner with words left is still in the map. */
  ghost predicate Covered(rest: seq<seq<Token>>, m: map<Token, nat>)
  {
    forall r :: 0 <= r < |rest| && rest[r] != [] ==> r in m.Values
  }

  /** No word occurs in two different runs. */
  ghost predicate Disjoint(runs: seq<seq<Token>>)
  {
    forall i, j, x :: 0 <= i < j < |runs| && x in runs[i] ==> x !in runs[j]
  }

  /** The next word of the polled Scanner is not a key already: put() adds
      an entry instead of replacing one. */
  ghost predicate NextIsNew(m: map<Token, nat>, rest: seq<seq<Token>>)
    requires m != map[] && InRange(m, |rest|)
  {
    var w := FirstKey(m);
    var r := m[w];
    rest[r] != [] ==> rest[r][0] !in m - {w}
  }

  lemma SuffixMember(x: Token, t: seq<Token>, s: seq<Token>)
    requires Suffix([x] + t, s)
    ensures x in s
  {
    assert s[|s| - |[x] + t|] == x;
  }

  lemma NotInDisjoint(runs: seq<seq<Token>>, i: nat, j: nat, x: Token)
    requires Disjoint(runs) && i < |runs| && j < |runs| && i != j && x in runs[i]
    ensures x !in runs[j]
  {
  }

  /** The Scanner numbers below n. */
  function Indices(n: nat): set<nat>
  {
    if n == 0 then {} else Indices(n - 1) + {n - 1}
  }

  lemma {:induction false} IndicesCard(n: nat)
    ensures |Indices(n)| == n
    ensures forall r: nat :: r in Indices(n) <==> r < n
  {
    if n > 0 {
      IndicesCard(n - 1);
    }
  }

  /** A subset is no larger. */
  lemma {:induction false} SubsetCard(a: set<nat>, b: set<nat>)
    requires a <= b
    ensures |a| <= |b|
    decreases |b|
  {
    if a != {} {
      var x :| x in a;
      SubsetCard(a - {x}, b - {x});
    }
  }

  /** Under an injective map there are as many Scanners as words. */
  lemma {:induction false} InjectiveCard(m: map<Token, nat>)
    requires Injective(m)
    ensures |m.Keys| == |m.Values|
    decreases |m.Keys|
  {
    if m != map[] {
      var w :| w in m;
      var m1 := m - {w};
      assert Injective(m1);
      InjectiveCard(m1);
      assert m.Keys == m1.Keys + {w};
      forall v | v in m.Values ensures v in m1.Values + {m[w]} {
        var x :| x in m && m[x] == v;
        if x != w {
          assert x in m1 && m1[x] == v;
        }
      }
      forall v | v in m1.Values ensures v in m.Values {
        var x :| x in m1 && m1[x] == v;
        assert x in m && m[x] == v;
      }
      assert m.Values == m1.Values + {m[w]};
      forall x | x in m1 ensures m1[x] != m[w] {
      }
      assert m[w] !in m1.Values;
    }
  }

  /** The TreeMap never holds more entries than there are Scanners: every
      entry names a different one. */
  lemma FrontierBounded(runs: seq<seq<Token>>, rest: seq<seq<Token>>, m: map<Token, nat>)
    requires TreeInv(runs, rest, m)
    ensures |m.Keys| <= |rest| <= |runs|
  {
    InjectiveCard(m);
    IndicesCard(|rest|);
    assert m.Values <= Indices(|rest|);
    SubsetCard(m.Values, Indices(|rest|));
  }

  // ---------------------------------------------------------------------
  // One turn of the merge loop

  lemma StepInv(runs: seq<seq<Token>>, rest: seq<seq<Token>>, m: map<Token, nat>)
    requires TreeInv(runs, rest, m) && m != map[]
    ensures TreeInv(runs, StepRest(m, rest), StepMap(m, rest))
  {
    var w := FirstKey(m);
    var r := m[w];
    var m1 := m - {w};
    assert forall x :: x in m1 ==> m1[x] == m[x] && m[x] != r;
    if rest[r] != [] {
      var x := rest[r][0];
      var rest1 := rest[r := rest[r][1..]];
      var m2 := m1[x := r];
      SuffixTail([w] + rest[r], runs[r]);
      assert ([w] + rest[r])[1..] == rest[r];
      assert [x] + rest1[r] == rest[r];
      forall y | y in m2 ensures Suffix([y] + rest1[m2[y]], runs[m2[y]]) {
        if y != x {
          assert rest1[m2[y]] == rest[m[y]];
        }
      }
      assert Injective(m2);
    }
  }

  /** With sorted runs no key left after a turn is below the key written. */
  lemma StepOrdered(runs: seq<seq<Token>>, rest: seq<seq<Token>>, m: map<Token, nat>)
    requires TreeInv(runs, rest, m) && AllSorted(runs) && m != map[]
    ensures forall x :: x in StepMap(m, rest) ==> Le(FirstKey(m), x)
  {
    var w := FirstKey(m);
    var r := m[w];
    if rest[r] != [] {
      var t := [w] + rest[r];
      assert Sorted(runs[r]);
      SortedSuffix(runs[r], t);
      assert Le(t[0], t[1]);
    }
  }

  /** A turn writes the first key and loses nothing, except the Scanner
      whose entry put() replaces. */
  lemma StepMultiset(m: map<Token, nat>, rest: seq<seq<Token>>)
    requires m != map[] && InRange(m, |rest|)
    ensures var keep := multiset(StepMap(m, rest).Keys) + multiset(Concat(StepRest(m, rest))) + multiset{FirstKey(m)};
      && keep <= multiset(m.Keys) + multiset(Concat(rest))
      && (NextIsNew(m, rest) ==> keep == multiset(m.Keys) + multiset(Concat(rest)))
  {
    var w := FirstKey(m);
    var r := m[w];
    var m1 := m - {w};
    KeysRemove(m, w);
    if rest[r] != [] {
      KeysAdd(m1, rest[r][0], r);
      ConcatTail(rest, r);
    }
  }

  lemma KeysRemove(m: map<Token, nat>, w: Token)
    requires w in m
    ensures multiset((m - {w}).Keys) + multiset{w} == multiset(m.Keys)
  {
    assert (m - {w}).Keys == m.Keys - {w};
    assert m.Keys == (m.Keys - {w}) + {w};
  }

  lemma KeysAdd(m: map<Token, nat>, x: Token, r: nat)
    ensures multiset(m[x := r].Keys) <= multiset(m.Keys) + multiset{x}
    ensures x !in m ==> multiset(m[x := r].Keys) == multiset(m.Keys) + multiset{x}
  {
    assert m[x := r].Keys == m.Keys + {x};
  }

  /** Without shared words a turn keeps every Scanner with words left in the
      map, and put() never replaces an entry. */
  lemma StepCovered(runs: seq<seq<Token>>, rest: seq<seq<Token>>, m: map<Token, nat>)
    requires TreeInv(runs, rest, m) && Covered(rest, m) && Disjoint(runs) && m != map[]
    ensures NextIsNew(m, rest)
    ensures Covered(StepRest(m, rest), StepMap(m, rest))
  {
    StepNextIsNew(runs, rest, m);
    var w := FirstKey(m);
    if rest[m[w]] != [] {
      CoveredRefill(rest, m, w);
    } else {
      CoveredExhausted(rest, m, w);
    }
  }

  /** With disjoint runs the polled Scanner's next word is no other key. */
  lemma StepNextIsNew(runs: seq<seq<Token>>, rest: seq<seq<Token>>, m: map<Token, nat>)
    requires TreeInv(runs, rest, m) && Disjoint(runs) && m != map[]
    ensures NextIsNew(m, rest)
  {
    var w := FirstKey(m);
    var r := m[w];
    var m1 := m - {w};
    if rest[r] != [] {
      var x := rest[r][0];
      if x in m1 {
        var g := m[x];
        assert g != r;
        SuffixMember(x, rest[g], runs[g]);
        SuffixTail([w] + rest[r], runs[r]);
        assert ([w] + rest[r])[1..] == [x] + rest[r][1..];
        SuffixMember(x, rest[r][1..], runs[r]);
        NotInDisjoint(runs, g, r, x);
      }
    }
  }

  lemma CoveredRefill(rest: seq<seq<Token>>, m: map<Token, nat>, w: Token)
    requires InRange(m, |rest|) && Covered(rest, m) && w in m && rest[m[w]] != []
    requires rest[m[w]][0] !in m - {w}
    ensures var r := m[w]; Covered(rest[r := rest[r][1..]], (m - {w})[rest[r][0] := r])
  {
    var r := m[w];
    var x := rest[r][0];
    var rest1 := rest[r := rest[r][1..]];
    var m2 := (m - {w})[x := r];
    forall r' | 0 <= r' < |rest1| && rest1[r'] != [] ensures r' in m2.Values {
      if r' == r {
        assert m2[x] == r;
      } else {
        var y :| y in m && m[y] == r';
        assert y != w;
        assert y in m - {w};
        assert y != x;
        assert m2[y] == r';
      }
    }
  }

  lemma CoveredExhausted(rest: seq<seq<Token>>, m: map<Token, nat>, w: Token)
    requires InRange(m, |rest|) && Covered(rest, m) && w in m && rest[m[w]] == []
    ensures Covered(rest, m - {w})
  {
    var m1 := m - {w};
    forall r' | 0 <= r' < |rest| && rest[r'] != [] ensures r' in m1.Values {
      var y :| y in m && m[y] == r';
      assert y != w;
      assert m1[y] == r';
    }
  }


  // ---------------------------------------------------------------------
  // The drained words

  /** With sorted runs the words written are sorted. */
  lemma {:induction false} DrainSorted(runs: seq<seq<Token>>, rest: seq<seq<Token>>, m: map<Token, nat>)
    requires TreeInv(runs, rest, m) && AllSorted(runs)
    ensures var d := Drain(m, rest); Sorted(d) && (d != [] ==> d[0] in m && forall x :: x in m ==> Le(d[0], x))
    decreases |m.Keys| + |Concat(rest)|
  {
    if m != map[] {
      var w := FirstKey(m);
      var m', rest' := StepMap(m, rest), StepRest(m, rest);
      StepDecreases(m, rest);
      StepInv(runs, rest, m);
      StepOrdered(runs, rest, m);
      DrainSorted(runs, rest', m');
      var d' := Drain(m', rest');
      assert Drain(m, rest) == [w] + d';
      SortedCons(w, d');
    }
  }

  lemma SortedCons(x: Token, s: seq<Token>)
    requires Sorted(s) && (s != [] ==> Le(x, s[0]))
    ensures Sorted([x] + s)
  {
    var t := [x] + s;
    forall i, j | 0 <= i < j < |t| ensures Le(t[i], t[j]) {
      if i == 0 && j > 1 {
        LeTransitive(x, s[0], s[j - 1]);
      }
    }
  }

  /** Every word written was a key or an unread word: the merge invents
      nothing. */
  lemma {:induction false} DrainSubMultiset(m: map<Token, nat>, rest: seq<seq<Token>>)
    requires InRange(m, |rest|)
    ensures multiset(Drain(m, rest)) <= multiset(m.Keys) + multiset(Concat(rest))
    decreases |m.Keys| + |Concat(rest)|
  {
    if m != map[] {
      var w := FirstKey(m);
      var m', rest' := StepMap(m, rest), StepRest(m, rest);
      StepDecreases(m, rest);
      StepMultiset(m, rest);
      DrainSubMultiset(m', rest');
      assert Drain(m, rest) == [w] + Drain(m', rest');
    }
  }

  /** Without shared words every key and every unread word is written. */
  lemma {:induction false} DrainExact(runs: seq<seq<Token>>, rest: seq<seq<Token>>, m: map<Token, nat>)
    requires TreeInv(runs, rest, m) && Covered(rest, m) && Disjoint(runs)
    ensures multiset(Drain(m, rest)) == multiset(m.Keys) + multiset(Concat(rest))
    decreases |m.Keys| + |Concat(rest)|
  {
    if m == map[] {
      assert forall r :: 0 <= r < |rest| ==> rest[r] == [];
      ConcatOfEmpties(rest);
    } else {
      var w := FirstKey(m);
      var m', rest' := StepMap(m, rest), StepRest(m, rest);
      StepDecreases(m, rest);
      StepInv(runs, rest, m);
      StepCovered(runs, rest, m);
      StepMultiset(m, rest);
      DrainExact(runs, rest', m');
      assert Drain(m, rest) == [w] + Drain(m', rest');
    }
  }

  // ---------------------------------------------------------------------
  // Opening the files

  /** After opening n files the invariant holds and nothing is invented;
      without shared words nothing is lost either. */
  lemma {:induction false} OpenInv(runs: seq<seq<Token>>, n: nat)
    requires n <= |runs|
    ensures var (m, rest) := Open(runs, n);
      && TreeInv(runs, rest, m)
      && multiset(m.Keys) + multiset(Concat(rest)) <= multiset(Concat(runs[..n]))
      && (Disjoint(runs) ==>
            Covered(rest, m) && multiset(m.Keys) + multiset(Concat(rest)) == multiset(Concat(runs[..n])))
  {
    if n == 0 {
      assert runs[..0] == [];
    } else {
      OpenInv(runs, n - 1);
      var (m, rest) := Open(runs, n - 1);
      var s := runs[n - 1];
      assert runs[..n] == runs[..n - 1] + [s];
      ConcatSnoc(runs[..n - 1], s);
      var total := multiset(Concat(runs[..n - 1]));
      if s == [] {
        ConcatSnoc(rest, s);
        OpenEmpty(runs, rest, m);
      } else {
        var m1 := m[s[0] := n - 1];
        var rest1 := rest + [s[1..]];
        assert Open(runs, n) == (m1, rest1);
        ConcatSnoc(rest, s[1..]);
        HeadTail(s);
        OpenWord(runs, rest, m);
        var k1, k, c := multiset(m1.Keys), multiset(m.Keys), multiset(Concat(rest));
        var x, y := multiset{s[0]}, multiset(s[1..]);
        CountStep(k1, k, c, x, y, total);
        if Disjoint(runs) {
          CountStepExact(k1, k, c, x, y, total);
        }
      }
    }
  }

  lemma CountStep(k1: multiset<Token>, k: multiset<Token>, c: multiset<Token>,
                  x: multiset<Token>, y: multiset<Token>, total: multiset<Token>)
    requires k1 <= k + x && k + c <= total
    ensures k1 + (c + y) <= total + (x + y)
  {
  }

  lemma CountStepExact(k1: multiset<Token>, k: multiset<Token>, c: multiset<Token>,
                       x: multiset<Token>, y: multiset<Token>, total: multiset<Token>)
    requires k1 == k + x && k + c == total
    ensures k1 + (c + y) == total + (x + y)
  {
  }

  lemma OpenEmpty(runs: seq<seq<Token>>, rest: seq<seq<Token>>, m: map<Token, nat>)
    requires TreeInv(runs, rest, m) && |rest| < |runs| && runs[|rest|] == []
    ensures TreeInv(runs, rest + [[]], m)
    ensures Covered(rest, m) ==> Covered(rest + [[]], m)
  {
    var rest1 := rest + [[]];
    assert forall r :: 0 <= r < |rest| ==> rest1[r] == rest[r];
  }

  lemma OpenWord(runs: seq<seq<Token>>, rest: seq<seq<Token>>, m: map<Token, nat>)
    requires TreeInv(runs, rest, m) && |rest| < |runs| && runs[|rest|] != []
    ensures var s := runs[|rest|]; var m1 := m[s[0] := |rest|];
      && TreeInv(runs, rest + [s[1..]], m1)
      && multiset(m1.Keys) <= multiset(m.Keys) + multiset{s[0]}
      && (Disjoint(runs) ==> s[0] !in m && multiset(m1.Keys) == multiset(m.Keys) + multiset{s[0]})
      && (Disjoint(runs) && Covered(rest, m) ==> Covered(rest + [s[1..]], m1))
  {
    var n := |rest|;
    var s := runs[n];
    var x := s[0];
    var rest1 := rest + [s[1..]];
    var m1 := m[x := n];
    assert forall r :: 0 <= r < n ==> rest1[r] == rest[r];
    assert [x] + rest1[n] == s;
    forall y | y in m1 ensures Suffix([y] + rest1[m1[y]], runs[m1[y]]) {
      if y != x {
        assert m1[y] == m[y] < n;
      }
    }
    assert m1.Keys == m.Keys + {x};
    if Disjoint(runs) {
      assert x !in m by {
        if x in m {
          SuffixMember(x, rest[m[x]], runs[m[x]]);
        }
      }
      if Covered(rest, m) {
        forall r | 0 <= r < |rest1| && rest1[r] != [] ensures r in m1.Values {
          if r == n {
            assert m1[x] == n;
          } else {
            var y :| y in m && m[y] == r;
            assert m1[y] == r;
          }
        }
      }
    }
  }

  // ---------------------------------------------------------------------
  // What the TreeMap merge promises, and what it does not

  /** With sorted runs the output is sorted. */
  lemma TreeMergeSorted(runs: seq<seq<Token>>)
    requires AllSorted(runs)
    ensures Sorted(TreeMerge(runs))
  {
    OpenInv(runs, |runs|);
    var (m, rest) := Open(runs, |runs|);
    DrainSorted(runs, rest, m);
  }

  /** Every word written comes from the runs, at most as often as there. */
  lemma TreeMergeSubMultiset(runs: seq<seq<Token>>)
    ensures multiset(TreeMerge(runs)) <= multiset(Concat(runs))
  {
    OpenInv(runs, |runs|);
    var (m, rest) := Open(runs, |runs|);
    DrainSubMultiset(m, rest);
    assert runs[..|runs|] == runs;
  }

  /** When no word occurs in two runs, the output is every word of the runs
      in sorted order. */
  lemma TreeMergeDisjoint(runs: seq<seq<Token>>)
    requires Disjoint(runs)
    ensures multiset(TreeMerge(runs)) == multiset(Concat(runs))
    ensures AllSorted(runs) ==> TreeMerge(runs) == SortTokens(Concat(runs))
  {
    OpenInv(runs, |runs|);
    var (m, rest) := Open(runs, |runs|);
    DrainExact(runs, rest, m);
    assert runs[..|runs|] == runs;
    if AllSorted(runs) {
      TreeMergeSorted(runs);
      SortTokensUnique(Concat(runs), TreeMerge(runs));
    }
  }

  /** Two runs whose first words are equal: the second put() replaces the
      first run's Scanner under "a", so that run's "a" and "b" are never
      written, while the priority-queue merge writes all four words. */
  lemma TreeTieDrop()
    ensures TreeMerge([[[0x61], [0x62]], [[0x61], [0x63]]]) == [[0x61], [0x63]]
    ensures multiset(TreeMerge([[[0x61], [0x62]], [[0x61], [0x63]]])) + multiset{[0x61], [0x62]}
         == multiset(Concat([[[0x61], [0x62]], [[0x61], [0x63]]]))
  {
    var a, b, c: Token := [0x61], [0x62], [0x63];
    var runs := [[a, b], [a, c]];
    TieOpened();
    TieDrained();
    assert |runs| == 2;
    assert TreeMerge(runs) == [a, c];
    assert runs[1..] == [[a, c]] && [[a, c]][1..] == [];
    assert Concat([[a, c]]) == [a, c];
    assert Concat(runs) == [a, b] + [a, c];
  }

  /** Opening the two runs: the second put() overwrites "a"'s entry. */
  lemma TieOpened()
    ensures Open([[[0x61], [0x62]], [[0x61], [0x63]]], 2) == (map[[0x61] := 1], [[[0x62]], [[0x63]]])
  {
    var a, b, c: Token := [0x61], [0x62], [0x63];
    var runs := [[a, b], [a, c]];
    var st0 := Open(runs, 0);
    assert st0.0 == map[] && st0.1 == [];
    assert runs[0] == [a, b] && runs[0][0] == a && runs[0][1..] == [b];
    var st1 := Open(runs, 1);
    assert st1 == (st0.0[a := 0], st0.1 + [[b]]);
    assert st1.0 == map[a := 0] && st1.1 == [[b]];
    assert runs[1] == [a, c] && runs[1][0] == a && runs[1][1..] == [c];
    var st2 := Open(runs, 2);
    assert st2 == (st1.0[a := 1], st1.1 + [[c]]);
    assert map[a := 0][a := 1] == map[a := 1];
    assert [[b]] + [[c]] == [[b], [c]];
  }

  /** Draining that map writes "a" and then the second run's "c". */
  lemma TieDrained()
    ensures Drain(map[[0x61] := 1], [[[0x62]], [[0x63]]]) == [[0x61], [0x63]]
  {
    var a, b, c: Token := [0x61], [0x62], [0x63];
    var m0 := map[a := 1];
    var rest0 := [[b], [c]];
    assert m0.Keys == {a};
    assert FirstKey(m0) == a;
    var m1 := map[c := 1];
    var rest1 := [[b], []];
    assert (m0 - {a}) == map[];
    assert StepMap(m0, rest0) == m1;
    assert [c][1..] == [];
    assert StepRest(m0, rest0) == rest1;
    assert m1.Keys == {c};
    assert FirstKey(m1) == c;
    assert StepMap(m1, rest1) == map[];
    assert Drain(map[], rest1) == [];
    assert Drain(m1, rest1) == [c];
  }

  lemma AppendAssoc(a: seq<Token>, x: Token, d: seq<Token>)
    ensures (a + [x]) + d == a + ([x] + d)
  {
  }

  // ---------------------------------------------------------------------
  // The sorter

  class FileSorter {
    const config: Config
    /** The temporary files written so far, in creation order, held as
        their contents. */
    var tempFiles: seq<Text>

    constructor (configuration: Config)
      ensures config == configuration && tempFiles == []
    {
      config := configuration;
      tempFiles := [];
    }

    /** sort(): split, then merge through the TreeMap. It throws when the
        buffer size is negative (no run is written); otherwise the lines are
        the merge of the runs read back, written over the output file's old
        content. They are sorted and come from the source; when no word is
        in two runs they are all the source tokens in sorted order. */
    method Sort(source: seq<Token>, existing: Option<Text>) returns (r: Result<Output, SorterError>)
      modifies this
      ensures tempFiles == if config.bufferSize < 0 then [] else SplitRuns(source, config.bufferSize)
      ensures r.Failure? <==> config.bufferSize < 0
      ensures r.Success? ==> r.value.lines == TreeMerge(ReadBack(tempFiles))
      ensures r.Success? ==> r.value.content == Overwrite(Prior(existing), Lines(r.value.lines))
      ensures r.Success? && AllWellFormed(source) ==>
        Sorted(r.value.lines) && multiset(r.value.lines) <= multiset(source)
    {
      tempFiles := [];
      var split := SplitFile(source);
      if split.Failure? {
        return Failure(split.error);
      }
      assert tempFiles == SplitRuns(source, config.bufferSize);
      var lines, content := MergeFiles(tempFiles, existing);
      if AllWellFormed(source) {
        SplitRunsReadBack(source, config.bufferSize);
        TreeMergeSorted(ReadBack(tempFiles));
        TreeMergeSubMultiset(ReadBack(tempFiles));
      }
      r := Success(Output(lines, content));
    }

    /** splitFile(): as in the core sorter, a negative capacity throwing
        before the source is opened. */
    method SplitFile(source: seq<Token>) returns (r: Result<(), SorterError>)
      modifies this
      ensures r.Failure? <==> config.bufferSize < 0
      ensures tempFiles == if r.Failure? then old(tempFiles) else old(tempFiles) + SplitRuns(source, config.bufferSize)
    {
      var wordsPerFile := config.bufferSize;
      if wordsPerFile < 0 {
        return Failure(IllegalArgumentException);
      }
      var words: seq<Token> := [];
      var currentSize := 0;
      var i := 0;
      ghost var start := tempFiles;
      ghost var flushed := 0;
      ghost var k: nat := 0;
      BufferedStart(source, wordsPerFile);
      while i < |source|
        invariant Buffered(source, wordsPerFile, flushed, i, k, words)
        invariant currentSize == |words|
        invariant tempFiles == start + SplitRuns(source[..flushed], wordsPerFile)
      {
        ghost var read, last, flushed0, k0 := words, i, flushed, k;
        words := words + [source[i]];
        currentSize := currentSize + 1;
        i := i + 1;
        if currentSize == wordsPerFile {
          currentSize := 0;
          SnocAssoc(start, SplitRuns(source[..flushed], wordsPerFile), RunFile(words));
          ProcessWords(words);
          words := [];
          flushed := i;
          k := k + 1;
          BufferedFlush(source, wordsPerFile, flushed0, last, k0, read, i, k);
        } else {
          BufferedGrow(source, wordsPerFile, flushed, last, k, read, i, words);
        }
      }
      BufferedEnd(source, wordsPerFile, flushed, k, words);
      if !(words == []) {
        SnocAssoc(start, SplitRuns(source[..flushed], wordsPerFile), RunFile(words));
        ProcessWords(words);
      }
      r := Success(());
    }

    /** processWords(): sort the buffer with compareTo and write it. */
    method ProcessWords(words: seq<Token>)
      modifies this
      ensures tempFiles == old(tempFiles) + [RunFile(words)]
    {
      var sorted := SortTokens(words);
      WriteFile(sorted);
    }

    /** writeFile(): write the words to a new temporary file, one per line. */
    method WriteFile(words: seq<Token>)
      modifies this
      ensures tempFiles == old(tempFiles) + [Lines(words)]
    {
      tempFiles := tempFiles + [Lines(words)];
    }

    /** mergeFiles() with the TreeMap: repeatedly write and remove the first
        key and put the next word of its Scanner. With no file to merge it
        writes nothing and leaves the output file as it was (created empty
        when missing). */
    method MergeFiles(files: seq<Text>, existing: Option<Text>) returns (lines: seq<Token>, content: Text)
      ensures lines == TreeMerge(ReadBack(files))
      ensures content == Overwrite(Prior(existing), Lines(lines))
      ensures files == [] ==> lines == [] && content == Prior(existing)
    {
      ghost var runs := ReadBack(files);
      // Files.createFile when the output does not exist yet
      var prior := Prior(existing);
      var written: Text := [];
      var wordToFile: map<Token, nat> := map[];
      var scanners: seq<seq<Token>> := [];

      for f := 0 to |files|
        invariant (wordToFile, scanners) == Open(runs, f)
      {
        var scanner := Scan(files[f]);
        if scanner != [] {
          wordToFile := wordToFile[scanner[0] := f];
          scanner := scanner[1..];
        }
        scanners := scanners + [scanner];
      }

      lines := [];
      ghost var total := Drain(wordToFile, scanners);
      assert total == TreeMerge(runs);
      while wordToFile != map[]
        invariant InRange(wordToFile, |scanners|)
        invariant lines + Drain(wordToFile, scanners) == total
        invariant written == Lines(lines)
        decreases |wordToFile.Keys| + |Concat(scanners)|
      {
        ghost var m0, rest0, lines0 := wordToFile, scanners, lines;
        StepDecreases(m0, rest0);
        LeastInSet(wordToFile.Keys);
        var wrapper :| IsLeastOf(wordToFile.Keys, wrapper);
        LeastUnique(wordToFile.Keys, wrapper, FirstKey(wordToFile));
        var r := wordToFile[wrapper];
        wordToFile := wordToFile - {wrapper};
        written := written + wrapper + LINE_SEPARATOR;
        LinesAppend(lines, wrapper);
        lines := lines + [wrapper];
        if scanners[r] != [] {
          wordToFile := wordToFile[scanners[r][0] := r];
          scanners := scanners[r := scanners[r][1..]];
        }
        assert wordToFile == StepMap(m0, rest0) && scanners == StepRest(m0, rest0);
        ghost var d := Drain(wordToFile, scanners);
        assert Drain(m0, rest0) == [wrapper] + d;
        AppendAssoc(lines0, wrapper, d);
      }
      content := Overwrite(prior, written);
    }
  }
}
