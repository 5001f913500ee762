/** File contents as the sorters write and read them. A run is written with
    Files.write, one token per line, and read back by a Scanner with its
    default delimiter, runs of Java whitespace; the output file is written one
    token per line through a writer opened WRITE only, which overwrites the
    file from its start but does not truncate it. */
module RunFiles {
  import opened TokenOrder
  import opened Sorting
  import opened Chunking
  import opened Wrappers

  /** Decoded text of a file. */
  type Text = seq<CodeUnit>

  /** The line separator written after every line ("\n"). */
  const LINE_SEPARATOR: Text := [10]

  /** Character.isWhitespace on a UTF-16 code unit: the ASCII controls
      tab to carriage return and U+001C..U+001F, and the Unicode space,
      line and paragraph separators except the non-breaking ones (U+00A0,
      U+2007, U+202F). */
  predicate IsWhitespace(c: CodeUnit)
  {
    || 0x09 <= c <= 0x0D
    || 0x1C <= c <= 0x20
    || c == 0x1680
    || 0x2000 <= c <= 0x2006
    || 0x2008 <= c <= 0x200A
    || c == 0x2028 || c == 0x2029 || c == 0x205F || c == 0x3000
  }

  /** A token a whitespace Scanner can return: non-empty, no whitespace. */
  predicate WellFormed(w: Token)
  {
    w != [] && forall i :: 0 <= i < |w| ==> !IsWhitespace(w[i])
  }

  /** The longest prefix of t free of whitespace. */
  function LeadingWord(t: Text): (w: Token)
    ensures w <= t
    ensures forall i :: 0 <= i < |w| ==> !IsWhitespace(w[i])
    ensures |w| == |t| || IsWhitespace(t[|w|])
  {
    if t == [] || IsWhitespace(t[0]) then [] else [t[0]] + LeadingWord(t[1..])
  }

  /** The tokens a Scanner with the default delimiter returns from t: the
      maximal whitespace-free stretches, in order. */
  function Scan(t: Text): seq<Token>
    decreases |t|
  {
    if t == [] then []
    else if IsWhitespace(t[0]) then Scan(t[1..])
    else
      var w := LeadingWord(t);
      [w] + Scan(t[|w|..])
  }

  /** Files.write and the output writer: every token followed by the line
      separator. */
  function Lines(words: seq<Token>): Text
  {
    if words == [] then [] else words[0] + LINE_SEPARATOR + Lines(words[1..])
  }

  /** Writing one more line appends it to the text. */
  lemma {:induction false} LinesAppend(words: seq<Token>, w: Token)
    ensures Lines(words + [w]) == Lines(words) + w + LINE_SEPARATOR
  {
    if words == [] {
      assert [] + [w] == [w];
    } else {
      assert (words + [w])[1..] == words[1..] + [w];
      LinesAppend(words[1..], w);
    }
  }

  /** Everything a whitespace Scanner returns is well formed. */
  lemma {:induction false} ScanWellFormed(t: Text)
    ensures forall i :: 0 <= i < |Scan(t)| ==> WellFormed(Scan(t)[i])
    decreases |t|
  {
    if t != [] {
      if IsWhitespace(t[0]) {
        ScanWellFormed(t[1..]);
      } else {
        var w := LeadingWord(t);
        assert w[0] == t[0];
        ScanWellFormed(t[|w|..]);
      }
    }
  }

  lemma {:induction false} LeadingWordOfLine(w: Token, rest: Text)
    requires forall i :: 0 <= i < |w| ==> !IsWhitespace(w[i])
    ensures LeadingWord(w + LINE_SEPARATOR + rest) == w
  {
    if w != [] {
      assert (w + LINE_SEPARATOR + rest)[1..] == w[1..] + LINE_SEPARATOR + rest;
      LeadingWordOfLine(w[1..], rest);
    }
  }

  lemma ScanLine(w: Token, rest: Text)
    requires WellFormed(w)
    ensures Scan(w + LINE_SEPARATOR + rest) == [w] + Scan(rest)
  {
    var t := w + LINE_SEPARATOR + rest;
    LeadingWordOfLine(w, rest);
    assert t[|w|..] == LINE_SEPARATOR + rest;
    assert (LINE_SEPARATOR + rest)[1..] == rest;
  }

  /** A run file reads back as the run written exactly when every token in
      it is non-empty and free of whitespace. */
  lemma {:induction false} LinesRoundTrip(words: seq<Token>)
    ensures Scan(Lines(words)) == words <==> forall i :: 0 <= i < |words| ==> WellFormed(words[i])
  {
    if AllWellFormed(words) {
      LinesRoundTripWellFormed(words);
    } else {
      ScanWellFormed(Lines(words));
    }
  }

  predicate AllWellFormed(words: seq<Token>)
  {
    forall i :: 0 <= i < |words| ==> WellFormed(words[i])
  }

  lemma {:induction false} LinesRoundTripWellFormed(words: seq<Token>)
    requires AllWellFormed(words)
    ensures Scan(Lines(words)) == words
  {
    if words != [] {
      ScanLine(words[0], Lines(words[1..]));
      LinesRoundTripWellFormed(words[1..]);
    }
  }

  /** A custom delimiter can produce tokens that do not survive the run
      file: splitting "x..y" on "\\." gives "x", "" and "y", and the empty
      token is gone when the run is read back. */
  lemma EmptyTokenLost()
    ensures Scan(Lines([[0x78], [], [0x79]])) == [[0x78], [0x79]]
  {
    ScanLine([0x79], []);
    assert Lines([[0x78], [], [0x79]]) == [0x78] + LINE_SEPARATOR + ([] + LINE_SEPARATOR + ([0x79] + LINE_SEPARATOR + []));
    assert ([] + LINE_SEPARATOR + ([0x79] + LINE_SEPARATOR + [])) == [10, 0x79, 10];
    ScanLine([0x78], [10, 0x79, 10]);
    assert Scan([10, 0x79, 10]) == Scan([0x79, 10]);
    assert [0x79, 10] == [0x79] + LINE_SEPARATOR + [];
  }

  /** A token holding a space, "a b", comes back from the run file as two. */
  lemma SpacedTokenSplit()
    ensures Scan(Lines([[0x61, 0x20, 0x62]])) == [[0x61], [0x62]]
  {
    assert Lines([[0x61, 0x20, 0x62]]) == [0x61, 0x20, 0x62, 10];
    assert LeadingWord([0x61, 0x20, 0x62, 10]) == [0x61];
    assert [0x61, 0x20, 0x62, 10][1..] == [0x20, 0x62, 10];
    assert Scan([0x20, 0x62, 10]) == Scan([0x62, 10]);
    assert LeadingWord([0x62, 10]) == [0x62];
    assert [0x62, 10][1..] == [10];
  }

  // ---------------------------------------------------------------------
  // Runs

  /** The temporary file written for one chunk: the chunk sorted, one token
      per line. */
  function RunFile(chunk: seq<Token>): Text
  {
    Lines(SortTokens(chunk))
  }

  /** The temporary files the split phase writes for source tokens s and
      buffer size b, in creation order. */
  function SplitRuns(s: seq<Token>, b: int): (r: seq<Text>)
    ensures r == [] <==> s == []
  {
    RunFilesOf(Chunks(s, b))
  }

  function RunFilesOf(cs: seq<seq<Token>>): (r: seq<Text>)
    ensures |r| == |cs|
    ensures forall i :: 0 <= i < |cs| ==> r[i] == RunFile(cs[i])
  {
    if cs == [] then [] else [RunFile(cs[0])] + RunFilesOf(cs[1..])
  }

  /** The token sequences the merge phase reads back from a list of files. */
  function ReadBack(files: seq<Text>): (r: seq<seq<Token>>)
    ensures |r| == |files|
    ensures forall i :: 0 <= i < |files| ==> r[i] == Scan(files[i])
  {
    if files == [] then [] else [Scan(files[0])] + ReadBack(files[1..])
  }

  /** All runs are sorted. */
  predicate AllSorted(runs: seq<seq<Token>>)
  {
    forall i :: 0 <= i < |runs| ==> Sorted(runs[i])
  }

  lemma {:induction false} RunFilesOfAppend(cs: seq<seq<Token>>, c: seq<Token>)
    ensures RunFilesOf(cs + [c]) == RunFilesOf(cs) + [RunFile(c)]
  {
  }

  /** A flush of b more tokens after k whole chunks appends one run file. */
  lemma SplitRunsFlush(s: seq<Token>, flushed: nat, i: nat, b: int, k: nat)
    requires b > 0 && flushed == Times(k, b) && i == flushed + b && i <= |s|
    ensures SplitRuns(s[..i], b) == SplitRuns(s[..flushed], b) + [RunFile(s[flushed..i])]
  {
    assert s[..i] == s[..flushed] + s[flushed..i];
    ChunksAppend(s[..flushed], s[flushed..i], b, k);
    assert Chunks(s[flushed..i], b) == [s[flushed..i]];
    RunFilesOfAppend(Chunks(s[..flushed], b), s[flushed..i]);
  }

  /** The tokens left in the buffer at the end, if any, make one last run
      file. */
  lemma SplitRunsLast(s: seq<Token>, flushed: nat, b: int, k: nat)
    requires flushed <= |s|
    requires b > 0 ==> flushed == Times(k, b) && |s| - flushed < b
    requires b <= 0 ==> flushed == 0
    ensures SplitRuns(s, b) == SplitRuns(s[..flushed], b) + (if flushed == |s| then [] else [RunFile(s[flushed..])])
  {
    var t := s[flushed..];
    assert s == s[..flushed] + t;
    if b > 0 {
      ChunksAppend(s[..flushed], t, b, k);
    } else {
      assert s[..flushed] == [];
    }
    assert Chunks(t, b) == if t == [] then [] else [t];
    if t != [] {
      RunFilesOfAppend(Chunks(s[..flushed], b), t);
    }
  }

  /** The state of the split loop after reading i tokens: the first
      `flushed` of them fill k whole buffers already written, and `words`
      holds the rest. */
  ghost predicate Buffered(s: seq<Token>, b: int, flushed: int, i: int, k: nat, words: seq<Token>)
  {
    && 0 <= flushed <= i <= |s|
    && words == s[flushed..i]
    && (b > 0 ==> flushed == Times(k, b) && i - flushed < b)
    && (b <= 0 ==> flushed == 0)
  }

  lemma BufferedStart(s: seq<Token>, b: int)
    ensures Buffered(s, b, 0, 0, 0, [])
  {
  }

  /** Reading token i when it does not fill the buffer only grows the
      buffer: the state after it has j == i + 1 tokens read and buffer
      `next`. */
  lemma BufferedGrow(s: seq<Token>, b: int, flushed: int, i: int, k: nat, words: seq<Token>, j: int, next: seq<Token>)
    requires Buffered(s, b, flushed, i, k, words) && i < |s|
    requires j == i + 1 && next == words + [s[i]] && |next| != b
    ensures Buffered(s, b, flushed, j, k, next)
  {
    assert next == s[flushed..j];
  }

  /** Reading token i when it fills the buffer writes the buffer as run
      file k + 1 == k2 and clears it. */
  lemma BufferedFlush(s: seq<Token>, b: int, flushed: int, i: int, k: nat, words: seq<Token>, j: int, k2: nat)
    requires Buffered(s, b, flushed, i, k, words) && i < |s|
    requires |words| + 1 == b && j == i + 1 && k2 == k + 1
    ensures Buffered(s, b, j, j, k2, [])
    ensures SplitRuns(s[..j], b) == SplitRuns(s[..flushed], b) + [RunFile(words + [s[i]])]
  {
    assert words + [s[i]] == s[flushed..j];
    assert Times(k2, b) == Times(k, b) + b;
    SplitRunsFlush(s, flushed, j, b, k);
    assert s[j..j] == [];
  }

  lemma SnocAssoc(a: seq<Text>, b: seq<Text>, x: Text)
    ensures a + b + [x] == a + (b + [x])
  {
  }

  /** At the end of the source the buffer, if not empty, is the last run. */
  lemma BufferedEnd(s: seq<Token>, b: int, flushed: int, k: nat, words: seq<Token>)
    requires Buffered(s, b, flushed, |s|, k, words)
    ensures SplitRuns(s, b) == SplitRuns(s[..flushed], b) + (if words == [] then [] else [RunFile(words)])
  {
    SplitRunsLast(s, flushed, b, k);
    assert s[flushed..] == words;
  }

  /** When every source token is well formed, the runs read back are the
      sorted chunks: each is sorted, and together they hold exactly the
      source tokens. */
  lemma SplitRunsReadBack(s: seq<Token>, b: int)
    requires AllWellFormed(s)
    ensures AllSorted(ReadBack(SplitRuns(s, b)))
    ensures multiset(Concat(ReadBack(SplitRuns(s, b)))) == multiset(s)
  {
    var cs := Chunks(s, b);
    ChunksConcat(s, b);
    ChunksWellFormed(s, b);
    ReadBackSorted(cs);
  }

  lemma {:induction false} ChunksWellFormed(s: seq<Token>, b: int)
    requires AllWellFormed(s)
    ensures forall i :: 0 <= i < |Chunks(s, b)| ==> AllWellFormed(Chunks(s, b)[i])
    decreases |s|
  {
    if s != [] && b > 0 && |s| > b {
      ChunksWellFormed(s[b..], b);
      var cs := Chunks(s, b);
      assert forall i :: 1 <= i < |cs| ==> cs[i] == Chunks(s[b..], b)[i - 1];
    }
  }

  lemma {:induction false} ReadBackSorted(cs: seq<seq<Token>>)
    requires forall i :: 0 <= i < |cs| ==> AllWellFormed(cs[i])
    ensures AllSorted(ReadBack(RunFilesOf(cs)))
    ensures multiset(Concat(ReadBack(RunFilesOf(cs)))) == multiset(Concat(cs))
  {
    if cs != [] {
      var c := cs[0];
      SortTokensCorrect(c);
      var sorted := SortTokens(c);
      assert AllWellFormed(sorted) by {
        forall i | 0 <= i < |sorted| ensures WellFormed(sorted[i]) {
          assert sorted[i] in multiset(c);
        }
      }
      LinesRoundTripWellFormed(sorted);
      ReadBackSorted(cs[1..]);
      var rb := ReadBack(RunFilesOf(cs));
      assert rb == [sorted] + ReadBack(RunFilesOf(cs[1..])) by {
        assert RunFilesOf(cs) == [RunFile(c)] + RunFilesOf(cs[1..]);
      }
      assert rb[1..] == ReadBack(RunFilesOf(cs[1..]));
    }
  }

  // ---------------------------------------------------------------------
  // The output file

  /** The output file as the merge finds it: `None` when it does not exist,
      in which case it is created empty. */
  function Prior(existing: Option<Text>): Text
  {
    if existing.Some? then existing.value else []
  }

  /** Writing `written` from the start of a file holding `prior` without
      truncating it. */
  function Overwrite(prior: Text, written: Text): (r: Text)
    ensures written <= r
    ensures |r| == if |prior| <= |written| then |written| else |prior|
    ensures forall i :: |written| <= i < |r| ==> r[i] == prior[i]
  {
    if |prior| <= |written| then written else written + prior[|written|..]
  }

  /** The output holds exactly the written lines only when the old file was
      no longer than them; a longer old file leaves its tail behind. */
  lemma OverwriteExact(prior: Text, written: Text)
    ensures Overwrite(prior, written) == written <==> |prior| <= |written|
  {
  }

  /** The one exception of the sorters the model keeps: Java collection
      constructors refuse a capacity they cannot use (an ArrayList a negative
      one, a PriorityQueue one below 1). */
  datatype SorterError = IllegalArgumentException

  /** What a completed sort leaves: the lines it wrote, in order, and the
      output file's new content. */
  datatype Output = Output(lines: seq<Token>, content: Text)
}
