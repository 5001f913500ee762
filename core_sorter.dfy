/** core/.../FileSorter.java: split the source tokens into sorted temporary
    runs, then merge the runs through a PriorityQueue of word wrappers and a
    HashMap from each wrapper to the Scanner of the run it came from. */
module CoreSorter {
  import opened TokenOrder
  import opened Sorting
  import opened Chunking
  import opened RunFiles
  import opened Wrappers
  import opened Configuration

  /** FileSorter.WordWrapper. It overrides neither equals nor hashCode, so
      the HashMap tells two wrappers apart by object identity even when their
      words are equal; `id` stands for that identity. */
  datatype WordWrapper = WordWrapper(id: nat, word: Token)

  /** The words of a queue of wrappers. */
  function WordsOf(q: seq<WordWrapper>): (r: seq<Token>)
    ensures |r| == |q|
    ensures forall i :: 0 <= i < |q| ==> r[i] == q[i].word
  {
    if q == [] then [] else [q[0].word] + WordsOf(q[1..])
  }

  // ---------------------------------------------------------------------
  // The merge frontier invariant. `rest[r]` is what the Scanner of run r has
  // not read yet; `rest` grows as the runs are opened.

  /** No wrapper is in the queue twice, and every wrapper was made before
      the next identity to hand out. */
  ghost predicate FreshIds(queue: seq<WordWrapper>, nextId: nat)
  {
    && (forall i, j :: 0 <= i < j < |queue| ==> queue[i].id != queue[j].id)
    && (forall i :: 0 <= i < |queue| ==> queue[i].id < nextId)
  }

  /** The queue and the map hold the same wrappers, and no run has two. */
  ghost predicate SameEntries(queue: seq<WordWrapper>, wordToFile: map<WordWrapper, nat>)
  {
    && (forall w :: w in wordToFile <==> w in queue)
    && (forall w1, w2 :: w1 in wordToFile && w2 in wordToFile && w1 != w2 ==> wordToFile[w1] != wordToFile[w2])
  }

  /** An entry's word followed by its Scanner's unread tokens is what is
      left of its run, and a run leaves the map only once its Scanner is
      exhausted. */
  ghost predicate Heads(runs: seq<seq<Token>>, rest: seq<seq<Token>>, wordToFile: map<WordWrapper, nat>)
  {
    && |rest| <= |runs|
    && (forall w :: w in wordToFile ==>
          wordToFile[w] < |rest| && Suffix([w.word] + rest[wordToFile[w]], runs[wordToFile[w]]))
    && (forall r :: 0 <= r < |rest| && rest[r] != [] ==> r in wordToFile.Values)
  }

  ghost predicate Frontier(runs: seq<seq<Token>>, rest: seq<seq<Token>>, queue: seq<WordWrapper>,
                           wordToFile: map<WordWrapper, nat>, nextId: nat)
  {
    FreshIds(queue, nextId) && SameEntries(queue, wordToFile) && Heads(runs, rest, wordToFile)
  }

  /** Nothing lost or invented: the lines written, the queued words and the
      unread tokens together are the runs opened so far. */
  ghost predicate Conserved(runs: seq<seq<Token>>, rest: seq<seq<Token>>, queue: seq<WordWrapper>, lines: seq<Token>)
    requires |rest| <= |runs|
  {
    multiset(lines) + multiset(WordsOf(queue)) + multiset(Concat(rest)) == multiset(Concat(runs[..|rest|]))
  }

  /** The lines written are sorted and none is above a queued word. */
  ghost predicate Ordered(queue: seq<WordWrapper>, lines: seq<Token>)
  {
    && Sorted(lines)
    && (lines != [] ==> forall i :: 0 <= i < |queue| ==> Le(lines[|lines| - 1], queue[i].word))
  }

  /** The whole invariant of the merge: the frontier, conservation of the
      tokens and, when the runs are sorted, the order of the lines. */
  ghost predicate MergeInv(runs: seq<seq<Token>>, rest: seq<seq<Token>>, queue: seq<WordWrapper>,
                           wordToFile: map<WordWrapper, nat>, nextId: nat, lines: seq<Token>)
  {
    && |rest| <= |runs|
    && Frontier(runs, rest, queue, wordToFile, nextId)
    && Conserved(runs, rest, queue, lines)
    && (AllSorted(runs) ==> Ordered(queue, lines))
  }

  // ---------------------------------------------------------------------
  // The words of the queue

  lemma WordsOfRemove(q: seq<WordWrapper>, k: nat)
    requires k < |q|
    ensures WordsOf(q[..k] + q[k + 1..]) == WordsOf(q)[..k] + WordsOf(q)[k + 1..]
    ensures multiset(WordsOf(q)) == multiset(WordsOf(q[..k] + q[k + 1..])) + multiset{q[k].word}
  {
    WordsOfCut(q, k);
    RemoveAt(WordsOf(q), k);
  }

  lemma WordsOfCut(q: seq<WordWrapper>, k: nat)
    requires k < |q|
    ensures WordsOf(q[..k] + q[k + 1..]) == WordsOf(q)[..k] + WordsOf(q)[k + 1..]
  {
    var a := q[..k] + q[k + 1..];
    var w := WordsOf(q);
    var v := w[..k] + w[k + 1..];
    forall i | 0 <= i < |a|
      ensures WordsOf(a)[i] == v[i]
    {
      if i < k {
        assert a[i] == q[i] && v[i] == w[i];
      } else {
        assert a[i] == q[i + 1] && v[i] == w[i + 1];
      }
    }
  }

  lemma WordsOfAppend(q: seq<WordWrapper>, w: WordWrapper)
    ensures multiset(WordsOf(q + [w])) == multiset(WordsOf(q)) + multiset{w.word}
  {
    assert WordsOf(q + [w]) == WordsOf(q) + [w.word];
  }

  // ---------------------------------------------------------------------
  // Identities

  /** Polling entry k leaves every other wrapper in the queue. */
  lemma RemoveFresh(queue: seq<WordWrapper>, nextId: nat, k: nat)
    requires FreshIds(queue, nextId) && k < |queue|
    ensures var q1 := queue[..k] + queue[k + 1..];
      && FreshIds(q1, nextId)
      && (forall x :: x in q1 <==> x in queue && x != queue[k])
  {
    var q1 := queue[..k] + queue[k + 1..];
    assert forall i :: 0 <= i < |q1| ==> q1[i] == queue[if i < k then i else i + 1];
    forall x ensures x in q1 <==> x in queue && x != queue[k] {
      if x in q1 {
        var i :| 0 <= i < |q1| && q1[i] == x;
        var j := if i < k then i else i + 1;
        assert queue[j] == x && j != k;
      }
      if x in queue && x != queue[k] {
        var j :| 0 <= j < |queue| && queue[j] == x;
        assert q1[if j < k then j else j - 1] == x;
      }
    }
  }

  /** A new wrapper gets the next identity, so it is unlike every queued one. */
  lemma AddFresh(queue: seq<WordWrapper>, nextId: nat, w: WordWrapper)
    requires FreshIds(queue, nextId) && w.id == nextId
    ensures FreshIds(queue + [w], nextId + 1)
    ensures w !in queue
    ensures forall x :: x in queue + [w] <==> x in queue || x == w
  {
  }

  // ---------------------------------------------------------------------
  // Queue and map

  lemma SameEntriesRemove(queue: seq<WordWrapper>, q1: seq<WordWrapper>, m: map<WordWrapper, nat>, w: WordWrapper)
    requires SameEntries(queue, m) && w in m
    requires forall x :: x in q1 <==> x in queue && x != w
    ensures SameEntries(q1, m - {w})
  {
  }

  lemma SameEntriesAdd(q: seq<WordWrapper>, m: map<WordWrapper, nat>, nw: WordWrapper, r: nat)
    requires SameEntries(q, m) && nw !in m
    requires forall x :: x in m ==> m[x] != r
    requires forall x :: x in q + [nw] <==> x in q || x == nw
    ensures SameEntries(q + [nw], m[nw := r])
  {
  }

  // ---------------------------------------------------------------------
  // Scanners

  lemma HeadsOpenEmpty(runs: seq<seq<Token>>, rest: seq<seq<Token>>, m: map<WordWrapper, nat>)
    requires Heads(runs, rest, m) && |rest| < |runs| && runs[|rest|] == []
    ensures Heads(runs, rest + [runs[|rest|]], m)
  {
    var rest1 := rest + [runs[|rest|]];
    assert forall r :: 0 <= r < |rest| ==> rest1[r] == rest[r];
  }

  lemma HeadsOpen(runs: seq<seq<Token>>, rest: seq<seq<Token>>, m: map<WordWrapper, nat>, w: WordWrapper)
    requires Heads(runs, rest, m) && |rest| < |runs| && runs[|rest|] != []
    requires w !in m && w.word == runs[|rest|][0]
    ensures Heads(runs, rest + [runs[|rest|][1..]], m[w := |rest|])
  {
    var n := |rest|;
    var s := runs[n];
    var rest1 := rest + [s[1..]];
    var m1 := m[w := n];
    assert forall r :: 0 <= r < n ==> rest1[r] == rest[r];
    assert [w.word] + rest1[n] == s;
    forall x | x in m1 ensures m1[x] < |rest1| && Suffix([x.word] + rest1[m1[x]], runs[m1[x]]) {
      if x != w {
        assert m1[x] == m[x] < n;
      }
    }
    forall r | 0 <= r < |rest1| && rest1[r] != [] ensures r in m1.Values {
      if r == n {
        assert m1[w] == n;
      } else {
        var x :| x in m && m[x] == r;
        assert m1[x] == r;
      }
    }
  }

  lemma HeadsExhausted(runs: seq<seq<Token>>, rest: seq<seq<Token>>, m: map<WordWrapper, nat>, w: WordWrapper)
    requires Heads(runs, rest, m) && w in m && rest[m[w]] == []
    requires forall x :: x in m && x != w ==> m[x] != m[w]
    ensures Heads(runs, rest, m - {w})
  {
    var m1 := m - {w};
    forall r | 0 <= r < |rest| && rest[r] != [] ensures r in m1.Values {
      var x :| x in m && m[x] == r;
      assert x != w;
      assert m1[x] == r;
    }
  }

  lemma HeadsRefill(runs: seq<seq<Token>>, rest: seq<seq<Token>>, m: map<WordWrapper, nat>, w: WordWrapper, nw: WordWrapper)
    requires Heads(runs, rest, m) && w in m && rest[m[w]] != []
    requires nw !in m && nw.word == rest[m[w]][0]
    requires forall x :: x in m && x != w ==> m[x] != m[w]
    ensures var r := m[w]; Heads(runs, rest[r := rest[r][1..]], (m - {w})[nw := r])
  {
    RefillEntries(runs, rest, m, w, nw);
    RefillCovers(runs, rest, m, w, nw);
  }

  /** After the refill every entry still sits on what is left of its run. */
  lemma RefillEntries(runs: seq<seq<Token>>, rest: seq<seq<Token>>, m: map<WordWrapper, nat>, w: WordWrapper, nw: WordWrapper)
    requires Heads(runs, rest, m) && w in m && rest[m[w]] != []
    requires nw !in m && nw.word == rest[m[w]][0]
    requires forall x :: x in m && x != w ==> m[x] != m[w]
    ensures var r := m[w]; var rest1 := rest[r := rest[r][1..]]; var m2 := (m - {w})[nw := r];
      forall x :: x in m2 ==> m2[x] < |rest1| && Suffix([x.word] + rest1[m2[x]], runs[m2[x]])
  {
    var r := m[w];
    var rest1 := rest[r := rest[r][1..]];
    var m2 := (m - {w})[nw := r];
    SuffixTail([w.word] + rest[r], runs[r]);
    assert ([w.word] + rest[r])[1..] == rest[r];
    assert [nw.word] + rest1[r] == rest[r];
    forall x | x in m2 ensures m2[x] < |rest1| && Suffix([x.word] + rest1[m2[x]], runs[m2[x]]) {
      if x != nw {
        assert x in m && x != w && m2[x] == m[x] && m[x] != r;
        assert rest1[m[x]] == rest[m[x]];
      }
    }
  }

  /** After the refill every run with tokens left still has an entry. */
  lemma RefillCovers(runs: seq<seq<Token>>, rest: seq<seq<Token>>, m: map<WordWrapper, nat>, w: WordWrapper, nw: WordWrapper)
    requires Heads(runs, rest, m) && w in m && rest[m[w]] != []
    requires nw !in m
    ensures var r := m[w]; var rest1 := rest[r := rest[r][1..]]; var m2 := (m - {w})[nw := r];
      forall r' :: 0 <= r' < |rest1| && rest1[r'] != [] ==> r' in m2.Values
  {
    var r := m[w];
    var rest1 := rest[r := rest[r][1..]];
    var m2 := (m - {w})[nw := r];
    forall r' | 0 <= r' < |rest1| && rest1[r'] != [] ensures r' in m2.Values {
      if r' == r {
        assert m2[nw] == r;
      } else {
        assert rest1[r'] == rest[r'];
        var x :| x in m && m[x] == r';
        assert x != w && x != nw;
        assert m2[x] == r';
      }
    }
  }

  // ---------------------------------------------------------------------
  // Conservation

  lemma ConservedOpenEmpty(runs: seq<seq<Token>>, rest: seq<seq<Token>>, queue: seq<WordWrapper>)
    requires |rest| < |runs| && Conserved(runs, rest, queue, []) && runs[|rest|] == []
    ensures Conserved(runs, rest + [runs[|rest|]], queue, [])
  {
    var n := |rest|;
    assert runs[..n + 1] == runs[..n] + [runs[n]];
    ConcatSnoc(runs[..n], runs[n]);
    ConcatSnoc(rest, runs[n]);
  }

  lemma ConservedOpen(runs: seq<seq<Token>>, rest: seq<seq<Token>>, queue: seq<WordWrapper>, w: WordWrapper)
    requires |rest| < |runs| && Conserved(runs, rest, queue, []) && runs[|rest|] != []
    requires w.word == runs[|rest|][0]
    ensures Conserved(runs, rest + [runs[|rest|][1..]], queue + [w], [])
  {
    var n := |rest|;
    var s := runs[n];
    assert runs[..n + 1] == runs[..n] + [s];
    ConcatSnoc(runs[..n], s);
    ConcatSnoc(rest, s[1..]);
    WordsOfAppend(queue, w);
    HeadTail(s);
  }

  lemma ConservedPoll(runs: seq<seq<Token>>, rest: seq<seq<Token>>, queue: seq<WordWrapper>, lines: seq<Token>, k: nat)
    requires |rest| <= |runs| && k < |queue| && Conserved(runs, rest, queue, lines)
    ensures Conserved(runs, rest, queue[..k] + queue[k + 1..], lines + [queue[k].word])
  {
    WordsOfRemove(queue, k);
  }

  lemma ConservedRefill(runs: seq<seq<Token>>, rest: seq<seq<Token>>, queue: seq<WordWrapper>, lines: seq<Token>,
                        r: nat, nw: WordWrapper)
    requires |rest| <= |runs| && r < |rest| && Conserved(runs, rest, queue, lines)
    requires rest[r] != [] && nw.word == rest[r][0]
    ensures Conserved(runs, rest[r := rest[r][1..]], queue + [nw], lines)
    ensures |Concat(rest[r := rest[r][1..]])| < |Concat(rest)|
  {
    WordsOfAppend(queue, nw);
    ConcatTail(rest, r);
  }

  // ---------------------------------------------------------------------
  // Order

  lemma OrderedPoll(queue: seq<WordWrapper>, lines: seq<Token>, k: nat)
    requires Ordered(queue, lines) && IsLeast(WordsOf(queue), k)
    ensures Ordered(queue[..k] + queue[k + 1..], lines + [queue[k].word])
  {
    var w := queue[k];
    var q1 := queue[..k] + queue[k + 1..];
    SortedAppend(lines, w.word);
    forall i | 0 <= i < |q1| ensures Le(w.word, q1[i].word) {
      var j := if i < k then i else i + 1;
      assert q1[i] == queue[j];
      assert WordsOf(queue)[j] == q1[i].word;
    }
  }

  lemma OrderedAdd(queue: seq<WordWrapper>, lines: seq<Token>, nw: WordWrapper)
    requires Ordered(queue, lines) && lines != [] && Le(lines[|lines| - 1], nw.word)
    ensures Ordered(queue + [nw], lines)
  {
  }

  /** With sorted runs the word a Scanner supplies next is no smaller than the
      one its run had in the queue. */
  lemma HeadNextLe(runs: seq<seq<Token>>, rest: seq<seq<Token>>, m: map<WordWrapper, nat>, w: WordWrapper)
    requires Heads(runs, rest, m) && AllSorted(runs) && w in m && rest[m[w]] != []
    ensures Le(w.word, rest[m[w]][0])
  {
    var r := m[w];
    var t := [w.word] + rest[r];
    assert Sorted(runs[r]);
    SortedSuffix(runs[r], t);
    assert Le(t[0], t[1]);
  }

  // ---------------------------------------------------------------------
  // The steps of the merge

  lemma MergeStart(runs: seq<seq<Token>>)
    ensures MergeInv(runs, [], [], map[], 0, [])
  {
    assert runs[..0] == [];
  }

  /** Opening the next run and queueing its first word, if it has one. */
  lemma OpenStep(runs: seq<seq<Token>>, rest: seq<seq<Token>>, queue: seq<WordWrapper>,
                 m: map<WordWrapper, nat>, nextId: nat)
    requires MergeInv(runs, rest, queue, m, nextId, []) && |rest| < |runs|
    ensures var s := runs[|rest|];
      if s == [] then
        MergeInv(runs, rest + [s], queue, m, nextId, [])
      else
        var w := WordWrapper(nextId, s[0]);
        MergeInv(runs, rest + [s[1..]], queue + [w], m[w := |rest|], nextId + 1, [])
  {
    var s := runs[|rest|];
    if s == [] {
      HeadsOpenEmpty(runs, rest, m);
      ConservedOpenEmpty(runs, rest, queue);
    } else {
      var w := WordWrapper(nextId, s[0]);
      AddFresh(queue, nextId, w);
      assert forall x :: x in m ==> m[x] < |rest|;
      SameEntriesAdd(queue, m, w, |rest|);
      HeadsOpen(runs, rest, m, w);
      ConservedOpen(runs, rest, queue, w);
    }
  }

  /** One turn of the merge loop: poll the least wrapper, write its word,
      remove it from the map and queue the next word of its Scanner. */
  lemma PollStep(runs: seq<seq<Token>>, rest: seq<seq<Token>>, queue: seq<WordWrapper>,
                 m: map<WordWrapper, nat>, nextId: nat, lines: seq<Token>, k: nat)
    requires MergeInv(runs, rest, queue, m, nextId, lines) && IsLeast(WordsOf(queue), k)
    ensures queue[k] in m && m[queue[k]] < |rest|
    ensures var w := queue[k]; var r := m[w];
      var q1 := queue[..k] + queue[k + 1..]; var m1 := m - {w};
      if rest[r] == [] then
        MergeInv(runs, rest, q1, m1, nextId, lines + [w.word])
      else
        var nw := WordWrapper(nextId, rest[r][0]);
        var rest1 := rest[r := rest[r][1..]];
        && MergeInv(runs, rest1, q1 + [nw], m1[nw := r], nextId + 1, lines + [w.word])
        && |Concat(rest1)| < |Concat(rest)|
  {
    var w := queue[k];
    assert w in queue;
    var r := m[w];
    var q1 := queue[..k] + queue[k + 1..];
    var m1 := m - {w};
    RemoveFresh(queue, nextId, k);
    SameEntriesRemove(queue, q1, m, w);
    ConservedPoll(runs, rest, queue, lines, k);
    if AllSorted(runs) {
      OrderedPoll(queue, lines, k);
    }
    if rest[r] == [] {
      HeadsExhausted(runs, rest, m, w);
    } else {
      var nw := WordWrapper(nextId, rest[r][0]);
      AddFresh(q1, nextId, nw);
      AddFresh(queue, nextId, nw);
      SameEntriesAdd(q1, m1, nw, r);
      HeadsRefill(runs, rest, m, w, nw);
      ConservedRefill(runs, rest, q1, lines + [w.word], r, nw);
      if AllSorted(runs) {
        HeadNextLe(runs, rest, m, w);
        OrderedAdd(q1, lines + [w.word], nw);
      }
    }
  }

  /** The least wrapper polled is in the map, under an opened run. */
  lemma PollHead(runs: seq<seq<Token>>, rest: seq<seq<Token>>, queue: seq<WordWrapper>,
                 m: map<WordWrapper, nat>, nextId: nat, lines: seq<Token>, k: nat)
    requires MergeInv(runs, rest, queue, m, nextId, lines) && IsLeast(WordsOf(queue), k)
    ensures queue[k] in m && m[queue[k]] < |rest|
  {
    assert queue[k] in queue;
  }

  /** PollStep when the polled run's Scanner is exhausted, stated for the
      state (queue1, m1, lines1) the loop body builds. */
  lemma PollExhausted(runs: seq<seq<Token>>, rest: seq<seq<Token>>, queue: seq<WordWrapper>,
                      m: map<WordWrapper, nat>, nextId: nat, lines: seq<Token>, k: nat,
                      queue1: seq<WordWrapper>, m1: map<WordWrapper, nat>, lines1: seq<Token>)
    requires MergeInv(runs, rest, queue, m, nextId, lines) && IsLeast(WordsOf(queue), k)
    requires queue[k] in m && m[queue[k]] < |rest| && rest[m[queue[k]]] == []
    requires queue1 == queue[..k] + queue[k + 1..] && m1 == m - {queue[k]} && lines1 == lines + [queue[k].word]
    ensures MergeInv(runs, rest, queue1, m1, nextId, lines1)
  {
    PollStep(runs, rest, queue, m, nextId, lines, k);
  }

  /** PollStep when the polled run's Scanner has a next word, stated for
      the state the loop body builds. */
  lemma PollRefill(runs: seq<seq<Token>>, rest: seq<seq<Token>>, queue: seq<WordWrapper>,
                   m: map<WordWrapper, nat>, nextId: nat, lines: seq<Token>, k: nat,
                   rest1: seq<seq<Token>>, queue1: seq<WordWrapper>, m1: map<WordWrapper, nat>,
                   nextId1: nat, lines1: seq<Token>)
    requires MergeInv(runs, rest, queue, m, nextId, lines) && IsLeast(WordsOf(queue), k)
    requires queue[k] in m && m[queue[k]] < |rest| && rest[m[queue[k]]] != []
    requires var r := m[queue[k]]; var nw := WordWrapper(nextId, rest[r][0]);
      && rest1 == rest[r := rest[r][1..]]
      && queue1 == queue[..k] + queue[k + 1..] + [nw]
      && m1 == (m - {queue[k]})[nw := r]
      && nextId1 == nextId + 1
      && lines1 == lines + [queue[k].word]
    ensures MergeInv(runs, rest1, queue1, m1, nextId1, lines1)
    ensures |Concat(rest1)| < |Concat(rest)|
  {
    PollStep(runs, rest, queue, m, nextId, lines, k);
  }

  /** OpenStep for an empty run, stated for the state the loop body builds. */
  lemma OpenedEmpty(runs: seq<seq<Token>>, rest: seq<seq<Token>>, queue: seq<WordWrapper>,
                    m: map<WordWrapper, nat>, nextId: nat, rest1: seq<seq<Token>>)
    requires MergeInv(runs, rest, queue, m, nextId, []) && |rest| < |runs|
    requires runs[|rest|] == [] && rest1 == rest + [[]]
    ensures MergeInv(runs, rest1, queue, m, nextId, [])
  {
    OpenStep(runs, rest, queue, m, nextId);
  }

  /** OpenStep for a run with a first word, stated for the state the loop
      body builds. */
  lemma OpenedWord(runs: seq<seq<Token>>, rest: seq<seq<Token>>, queue: seq<WordWrapper>,
                   m: map<WordWrapper, nat>, nextId: nat, rest1: seq<seq<Token>>,
                   queue1: seq<WordWrapper>, m1: map<WordWrapper, nat>, nextId1: nat)
    requires MergeInv(runs, rest, queue, m, nextId, []) && |rest| < |runs| && runs[|rest|] != []
    requires var s := runs[|rest|]; var w := WordWrapper(nextId, s[0]);
      && rest1 == rest + [s[1..]]
      && queue1 == queue + [w]
      && m1 == m[w := |rest|]
      && nextId1 == nextId + 1
    ensures MergeInv(runs, rest1, queue1, m1, nextId1, [])
  {
    OpenStep(runs, rest, queue, m, nextId);
  }

  /** While the map has entries the queue has wrappers to poll. */
  lemma QueueNonEmpty(runs: seq<seq<Token>>, rest: seq<seq<Token>>, queue: seq<WordWrapper>,
                      m: map<WordWrapper, nat>, nextId: nat, lines: seq<Token>)
    requires MergeInv(runs, rest, queue, m, nextId, lines) && m != map[]
    ensures queue != []
  {
    var w :| w in m;
    assert w in queue;
  }

  /** Once the map is empty every Scanner is exhausted, so every token of
      every run has been written. */
  lemma MergeDone(runs: seq<seq<Token>>, rest: seq<seq<Token>>, queue: seq<WordWrapper>,
                  nextId: nat, lines: seq<Token>)
    requires |rest| == |runs| && MergeInv(runs, rest, queue, map[], nextId, lines)
    ensures multiset(lines) == multiset(Concat(runs))
    ensures AllSorted(runs) ==> Sorted(lines)
  {
    assert queue == [];
    ConcatOfEmpties(rest);
    assert runs[..|rest|] == runs;
  }

  // ---------------------------------------------------------------------
  // The sorter

  class FileSorter {
    const config: Config
    /** The temporary files written so far, in creation order. A file is
        named here by its position and held as its content. */
    var tempFiles: seq<Text>

    constructor (configuration: Config)
      ensures config == configuration && tempFiles == []
    {
      config := configuration;
      tempFiles := [];
    }

    /** sort(): reset the list of temporary files, split, merge. It throws
        when the buffer size is negative (no run is written) and when the
        source holds no token (the merge has no run to size its queue by);
        otherwise the output file's new content is the merged lines written
        over its old content. When every source token is non-empty and free
        of whitespace (always so with the default delimiter) the lines are
        the source tokens in sorted order, duplicates kept. */
    method Sort(source: seq<Token>, existing: Option<Text>) returns (r: Result<Output, SorterError>)
      modifies this
      ensures tempFiles == if config.bufferSize < 0 then [] else SplitRuns(source, config.bufferSize)
      ensures r.Failure? <==> config.bufferSize < 0 || source == []
      ensures r.Success? ==> multiset(r.value.lines) == multiset(Concat(ReadBack(tempFiles)))
      ensures r.Success? ==> r.value.content == Overwrite(Prior(existing), Lines(r.value.lines))
      ensures r.Success? && AllWellFormed(source) ==> r.value.lines == SortTokens(source)
    {
      tempFiles := [];
      var split := SplitFile(source);
      if split.Failure? {
        return Failure(split.error);
      }
      assert tempFiles == SplitRuns(source, config.bufferSize);
      r := MergeFiles(tempFiles, existing);
      if r.Success? && AllWellFormed(source) {
        SplitRunsReadBack(source, config.bufferSize);
        assert Sorted(r.value.lines);
        SortTokensUnique(source, r.value.lines);
      }
    }

    /** splitFile(): allocate the buffer (a negative capacity throws before
        the source is opened), then read the tokens into it; each time it
        holds bufferSize of them, sort and write it as a run and clear it;
        write what is left at the end as one last run. */
    method SplitFile(source: seq<Token>) returns (r: Result<(), SorterError>)
      modifies this
      ensures r.Failure? <==> config.bufferSize < 0
      ensures tempFiles == if r.Failure? then old(tempFiles) else old(tempFiles) + SplitRuns(source, config.bufferSize)
    {
      var bufferSize := config.bufferSize;
      if bufferSize < 0 {
        return Failure(IllegalArgumentException);
      }
      var words: seq<Token> := [];
      var currentSize := 0;
      var i := 0;
      ghost var start := tempFiles;
      ghost var flushed := 0;
      ghost var k: nat := 0;
      BufferedStart(source, bufferSize);
      while i < |source|
        invariant Buffered(source, bufferSize, flushed, i, k, words)
        invariant currentSize == |words|
        invariant tempFiles == start + SplitRuns(source[..flushed], bufferSize)
      {
        ghost var read, last, flushed0, k0 := words, i, flushed, k;
        words := words + [source[i]];
        currentSize := currentSize + 1;
        i := i + 1;
        if currentSize == bufferSize {
          currentSize := 0;
          SnocAssoc(start, SplitRuns(source[..flushed], bufferSize), RunFile(words));
          ProcessWords(words);
          words := [];
          flushed := i;
          k := k + 1;
          BufferedFlush(source, bufferSize, flushed0, last, k0, read, i, k);
        } else {
          BufferedGrow(source, bufferSize, flushed, last, k, read, i, words);
        }
      }
      BufferedEnd(source, bufferSize, flushed, k, words);
      if !(words == []) {
        SnocAssoc(start, SplitRuns(source[..flushed], bufferSize), RunFile(words));
        ProcessWords(words);
      }
      r := Success(());
    }

    /** processWords(): sort the buffer with compareTo and write it. */
    method ProcessWords(words: seq<Token>)
      modifies this
      ensures tempFiles == old(tempFiles) + [RunFile(words)]
    {
      var sorted := SortTokens(words);
      WriteFile(sorted);
    }

    /** writeFile(): write the words to a new temporary file, one per line,
        and remember the file. */
    method WriteFile(words: seq<Token>)
      modifies this
      ensures tempFiles == old(tempFiles) + [Lines(words)]
    {
      tempFiles := tempFiles + [Lines(words)];
    }

    /** mergeFiles(): the k-way merge. The queue is sized by the number of
        files, so an empty list throws before the output file is created or
        opened. Otherwise every token read back from the files is written
        exactly once, duplicates included; when the runs read back are
        sorted the lines come out sorted, so they are the sorted permutation
        of all the runs' tokens. */
    method MergeFiles(files: seq<Text>, existing: Option<Text>) returns (r: Result<Output, SorterError>)
      ensures r.Failure? <==> files == []
      ensures r.Success? ==> multiset(r.value.lines) == multiset(Concat(ReadBack(files)))
      ensures r.Success? && AllSorted(ReadBack(files)) ==> Sorted(r.value.lines)
      ensures r.Success? && AllSorted(ReadBack(files)) ==> r.value.lines == SortTokens(Concat(ReadBack(files)))
      ensures r.Success? ==> r.value.content == Overwrite(Prior(existing), Lines(r.value.lines))
    {
      // new PriorityQueue<>(files.size()) refuses a capacity below 1
      if |files| < 1 {
        return Failure(IllegalArgumentException);
      }
      ghost var runs := ReadBack(files);
      // Files.createFile when the output does not exist yet
      var prior := Prior(existing);
      var written: Text := [];
      var sortedWords: seq<WordWrapper> := [];
      var wordToFile: map<WordWrapper, nat> := map[];
      var scanners: seq<seq<Token>> := [];
      var nextId: nat := 0;
      var lines: seq<Token> := [];

      MergeStart(runs);
      for f := 0 to |files|
        invariant |scanners| == f
        invariant MergeInv(runs, scanners, sortedWords, wordToFile, nextId, [])
      {
        ghost var rest0, queue0, m0, id0 := scanners, sortedWords, wordToFile, nextId;
        var scanner := Scan(files[f]);
        if scanner != [] {
          var wrapper := WordWrapper(nextId, scanner[0]);
          nextId := nextId + 1;
          wordToFile := wordToFile[wrapper := f];
          sortedWords := sortedWords + [wrapper];
          scanner := scanner[1..];
          scanners := scanners + [scanner];
          OpenedWord(runs, rest0, queue0, m0, id0, scanners, sortedWords, wordToFile, nextId);
        } else {
          scanners := scanners + [scanner];
          OpenedEmpty(runs, rest0, queue0, m0, id0, scanners);
        }
      }

      while wordToFile != map[]
        invariant |scanners| == |runs|
        invariant MergeInv(runs, scanners, sortedWords, wordToFile, nextId, lines)
        invariant written == Lines(lines)
        decreases |sortedWords| + |Concat(scanners)|
      {
        QueueNonEmpty(runs, scanners, sortedWords, wordToFile, nextId, lines);
        LeastExists(WordsOf(sortedWords));
        var k :| IsLeast(WordsOf(sortedWords), k);
        PollHead(runs, scanners, sortedWords, wordToFile, nextId, lines, k);
        ghost var rest0, queue0, m0, id0, lines0 := scanners, sortedWords, wordToFile, nextId, lines;
        // poll, then write the word and a line separator
        var wrapper := sortedWords[k];
        sortedWords := sortedWords[..k] + sortedWords[k + 1..];
        written := written + wrapper.word + LINE_SEPARATOR;
        LinesAppend(lines, wrapper.word);
        lines := lines + [wrapper.word];
        // remove the wrapper and read the next word of its Scanner
        var r := wordToFile[wrapper];
        wordToFile := wordToFile - {wrapper};
        if scanners[r] != [] {
          var next := WordWrapper(nextId, scanners[r][0]);
          nextId := nextId + 1;
          wordToFile := wordToFile[next := r];
          sortedWords := sortedWords + [next];
          scanners := scanners[r := scanners[r][1..]];
          PollRefill(runs, rest0, queue0, m0, id0, lines0, k, scanners, sortedWords, wordToFile, nextId, lines);
        } else {
          PollExhausted(runs, rest0, queue0, m0, id0, lines0, k, sortedWords, wordToFile, lines);
        }
      }
      MergeDone(runs, scanners, sortedWords, nextId, lines);
      if AllSorted(runs) {
        SortTokensUnique(Concat(runs), lines);
      }
      r := Success(Output(lines, Overwrite(prior, written)));
    }
  }
}
