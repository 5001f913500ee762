/** The scenarios the sorters are meant to handle, run through the models of
    both FileSorter classes: four source tokens with a buffer of two, so that
    two runs' first tokens tie; a source with no token; and one more copy of
    a word than the minimum buffer holds. */
module Scenarios {
  import opened TokenOrder
  import opened Sorting
  import opened Chunking
  import opened RunFiles
  import opened Wrappers
  import opened Configuration
  import CoreSorter
  import TreeSorter

  const A: Token := [0x61]
  const B: Token := [0x62]
  const C: Token := [0x63]

  /** A configuration holding two tokens per run. */
  const PAIRS: Config := Config("source.txt", DEFAULT_OUTPUT_FILE, 2, DEFAULT_MAX_WORD_SIZE, None)

  /** Five tokens and a buffer of two make three runs of 2, 2 and 1 tokens. */
  lemma RunBoundary(s: seq<Token>)
    requires |s| == 5
    ensures |Chunks(s, 2)| == 3
    ensures |Chunks(s, 2)[0]| == 2 && |Chunks(s, 2)[1]| == 2 && |Chunks(s, 2)[2]| == 1
  {
    assert Chunks(s, 2) == [s[..2]] + Chunks(s[2..], 2);
    assert Chunks(s[2..], 2) == [s[2..][..2]] + Chunks(s[2..][2..], 2);
    assert Chunks(s[2..][2..], 2) == [s[2..][2..]];
  }

  lemma Letters()
    ensures WellFormed(A) && WellFormed(B) && WellFormed(C)
    ensures Le(A, B) && Le(B, C) && Le(A, A)
    ensures Sorted([A, B]) && Sorted([A, C]) && Sorted([A, A, B, C])
  {
    assert CompareTo(A, B) == -1;
    assert CompareTo(B, C) == -1;
    assert CompareTo(A, C) == -2;
    LeReflexive(A);
  }

  /** The source "b a a c" is well formed. */
  lemma SourceWellFormed()
    ensures AllWellFormed([B, A, A, C])
  {
    Letters();
  }

  /** The sorted permutation of "b a a c" keeps both a's. */
  lemma SourceSorted()
    ensures SortTokens([B, A, A, C]) == [A, A, B, C]
  {
    Letters();
    var s := [B, A, A, C];
    assert s == [B] + [A, A] + [C];
    assert [A, A, B, C] == [A, A] + [B] + [C];
    SortTokensUnique(s, [A, A, B, C]);
  }

  lemma PairChunks()
    ensures Chunks([B, A, A, C], 2) == [[B, A], [A, C]]
  {
    var s := [B, A, A, C];
    assert s[..2] == [B, A] && s[2..] == [A, C];
    assert Chunks(s, 2) == [s[..2]] + Chunks(s[2..], 2);
  }

  /** "b a a c" split in pairs gives the run files of [a, b] and [a, c]. */
  lemma TiedRuns()
    ensures SplitRuns([B, A, A, C], 2) == [Lines([A, B]), Lines([A, C])]
    ensures ReadBack(SplitRuns([B, A, A, C], 2)) == [[A, B], [A, C]]
  {
    PairChunks();
    Letters();
    SortTokensUnique([B, A], [A, B]);
    SortTokensUnique([A, C], [A, C]);
    assert RunFilesOf([[B, A], [A, C]]) == [RunFile([B, A])] + RunFilesOf([[A, C]]);
    LinesRoundTripWellFormed([A, B]);
    LinesRoundTripWellFormed([A, C]);
  }

  /** With the priority queue both a's are written. */
  method CoreKeepsDuplicates() returns (lines: seq<Token>)
    ensures lines == [A, A, B, C]
  {
    var sorter := new CoreSorter.FileSorter(PAIRS);
    SourceWellFormed();
    SourceSorted();
    var r := sorter.Sort([B, A, A, C], None);
    lines := r.value.lines;
  }

  /** With the TreeMap the run [a, b] loses its Scanner to the tie on "a",
      and only "a" and "c" are written. */
  method TreeDropsTies() returns (lines: seq<Token>)
    ensures lines == [A, C]
  {
    var sorter := new TreeSorter.FileSorter(PAIRS);
    var r := sorter.Sort([B, A, A, C], None);
    lines := r.value.lines;
    TiedRuns();
    TreeSorter.TreeTieDrop();
  }

  /** An empty source makes the core sorter throw: no run is written and the
      queue would be sized zero. */
  method CoreEmptySourceFails() returns (r: Result<Output, SorterError>)
    ensures r == Failure(IllegalArgumentException)
  {
    var sorter := new CoreSorter.FileSorter(PAIRS);
    r := sorter.Sort([], None);
    assert r.Failure? && r.error.IllegalArgumentException?;
  }

  /** The TreeMap sorter merges the empty list of runs into no line and
      leaves the output file as it was. */
  method TreeEmptySource(existing: Option<Text>) returns (out: Output)
    ensures out == Output([], Prior(existing))
  {
    var sorter := new TreeSorter.FileSorter(PAIRS);
    var r := sorter.Sort([], existing);
    out := r.value;
  }

  // ---------------------------------------------------------------------
  // One more copy of a word than the buffer holds

  function Repeat(w: Token, n: nat): (r: seq<Token>)
    ensures |r| == n && forall i :: 0 <= i < n ==> r[i] == w
  {
    seq(n, _ => w)
  }

  lemma RepeatSorted(n: nat)
    ensures AllWellFormed(Repeat(A, n)) && Sorted(Repeat(A, n))
  {
    Letters();
  }

  /** b + 1 copies of "a" with a buffer of b make a full run of b copies and
      a run holding one "a"; both read back as written. */
  lemma RepeatRuns(b: nat)
    requires b >= 1
    ensures ReadBack(SplitRuns(Repeat(A, b + 1), b)) == [Repeat(A, b), [A]]
  {
    var s := Repeat(A, b + 1);
    assert s[..b] == Repeat(A, b) && s[b..] == [A];
    assert Chunks(s[b..], b) == [[A]];
    assert Chunks(s, b) == [Repeat(A, b), [A]];
    RepeatSorted(b);
    RepeatSorted(1);
    assert Repeat(A, 1) == [A];
    SortTokensIdempotent(Repeat(A, b));
    SortTokensIdempotent([A]);
    LinesRoundTripWellFormed(Repeat(A, b));
    LinesRoundTripWellFormed([A]);
  }

  /** The TreeMap merge of a run of copies of "a" and a run of one "a" is a
      single "a": the second put() replaces the first run's Scanner. */
  lemma TreeCollapsesCopies(b: nat)
    requires b >= 1
    ensures TreeSorter.TreeMerge([Repeat(A, b), [A]]) == [A]
  {
    var runs := [Repeat(A, b), [A]];
    var st0 := TreeSorter.Open(runs, 0);
    assert st0.0 == map[] && st0.1 == [];
    assert runs[0] != [] && runs[0][0] == A;
    var st1 := TreeSorter.Open(runs, 1);
    assert st1 == (st0.0[A := 0], st0.1 + [runs[0][1..]]);
    assert st1.0 == map[A := 0];
    assert runs[1] == [A] && runs[1][0] == A && runs[1][1..] == [];
    var st2 := TreeSorter.Open(runs, 2);
    assert st2 == (st1.0[A := 1], st1.1 + [runs[1][1..]]);
    assert st2.0 == map[A := 1] && st2.1[1] == [];
    var m := map[A := 1];
    assert m.Keys == {A};
    assert TreeSorter.FirstKey(m) == A;
    assert m - {A} == map[];
    assert TreeSorter.StepMap(m, st2.1) == map[];
    assert TreeSorter.Drain(map[], TreeSorter.StepRest(m, st2.1)) == [];
  }

  /** The default configuration for a heap of at most zero megabytes has the
      minimum buffer of 200 000 tokens; a source of 200 001 copies of "a"
      then comes out as 200 001 lines from the core sorter and as one line
      from the TreeMap sorter. */
  method MinimumBufferCopies() returns (core: seq<Token>, tree: seq<Token>)
    ensures core == Repeat(A, 200_001)
    ensures tree == [A]
  {
    var builder := new ConfigBuilder("source.txt", 0);
    var built := builder.Build();
    var config := built.value;
    assert config.bufferSize == MIN_BUFFER_SIZE;
    var source := Repeat(A, 200_001);
    RepeatSorted(200_001);
    SortTokensIdempotent(source);
    var coreSorter := new CoreSorter.FileSorter(config);
    var r := coreSorter.Sort(source, None);
    core := r.value.lines;
    var treeSorter := new TreeSorter.FileSorter(config);
    r := treeSorter.Sort(source, None);
    tree := r.value.lines;
    RepeatRuns(200_000);
    TreeCollapsesCopies(200_000);
  }
}
