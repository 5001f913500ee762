# External file sorter: a Dafny model

This project models the core of the `filesorter` repository. That core is an
external merge sort over the tokens ("words") of a text file. The sorter reads
the tokens into a buffer. Each time the buffer holds `bufferSize` tokens it
sorts them with `String.compareTo`, writes them to a temporary file one per
line, and clears the buffer. Whatever is left at the end becomes one last,
shorter run. A k-way merge then combines the temporary files into the output
file.

The repository holds two near-identical `FileSorter` classes. Both are modelled:

- `core/.../FileSorter.java` merges through a `PriorityQueue` of word wrappers
  plus a `HashMap` from each wrapper to its run's `Scanner`. These wrappers are
  compared by word but told apart by object identity.
- `src/.../FileSorter.java` merges through a `TreeMap` keyed by word. Its
  `put` on a word already present replaces the stored `Scanner`.

The buffer size comes from `Config.ConfigBuilder.build()`. It works in Java's
32-bit `int` arithmetic with truncating division, and clamps the result into
[200 000, 1 000 000].

Modules, one per component:

- `TokenOrder` (order.dfy): `String.compareTo` on UTF-16 code units. It is
  proved a total order, and sorted permutations are proved unique.
- `Sorting` (sorting.dfy): the promise of `List.sort` with that comparator.
- `Configuration` (config.dfy): the int arithmetic, the buffer-size function
  and the `ConfigBuilder` class.
- `Chunking` (chunking.dfy): how the split loop cuts the token stream into runs.
- `RunFiles` (runfiles.dfy): run files as text, the default whitespace
  `Scanner` that reads them back, and the output written without truncation.
- `CoreSorter` (core_sorter.dfy): the priority-queue `FileSorter`.
- `TreeSorter` (tree_sorter.dfy): the `TreeMap` `FileSorter`.
- `Scenarios` (scenarios.dfy): both sorters on the same inputs: a small one with
  a tie across runs, an empty one, and one more copy of a word than the buffer holds.

The model follows the code, also where it departs from what the sorter is
documented or commonly expected to do:

- The output file is opened with `WRITE` only. It is not truncated, so older
  bytes past the new content stay (`RunFiles.Overwrite`).
- Temporary files are never deleted.
- The word cost uses the raw builder value of `maxWordSize`. That value is 0
  when never set, which gives a cost of 32 rather than the 232 of the default
  100. The default is substituted afterwards, into a field nothing reads.
- The heap size is in megabytes and is multiplied out in 32-bit arithmetic. It
  wraps from 2048 MB on, so the buffer size is monotone in the heap only on
  1..2047.
- The order compares UTF-16 code units, not code points.
- The core sorter's wrappers are `CoreSorter.WordWrapper(id, word)` values. The
  `id` stands for object identity, which is all the `HashMap` compares.
- The `TreeMap` sorter does not keep duplicates across runs (see Findings).
- Both sorters allocate the token buffer as `new ArrayList<>(bufferSize)`. A
  negative size throws `IllegalArgumentException` before the source is read.
  `build()` never yields one, but a `Config` is modelled as any value.
- The core merge sizes its `PriorityQueue` by the number of runs. An empty
  source leaves no run, and the queue constructor throws (see Findings).

## Model

| member | source | states |
|---|---|---|
| `TokenOrder.CompareTo` | core/src/main/java/org/odanc/filesort/core/FileSorter.java:155-160 | defines String.compareTo: the difference of the first differing code units, else the difference of the lengths; its properties are the lemmas below |
| `TokenOrder.CompareToZero` | core/src/main/java/org/odanc/filesort/core/FileSorter.java:155-160 | compareTo is 0 exactly when the two strings are equal |
| `TokenOrder.CompareToAntisymmetric` | core/src/main/java/org/odanc/filesort/core/FileSorter.java:155-160 | swapping the arguments negates compareTo |
| `TokenOrder.LeReflexive` | core/src/main/java/org/odanc/filesort/core/FileSorter.java:155-160 | every string precedes or equals itself |
| `TokenOrder.LeAntisymmetric` | core/src/main/java/org/odanc/filesort/core/FileSorter.java:155-160 | strings that precede each other are equal |
| `TokenOrder.LeTotal` | core/src/main/java/org/odanc/filesort/core/FileSorter.java:155-160 | any two strings are comparable |
| `TokenOrder.LeTransitive` | core/src/main/java/org/odanc/filesort/core/FileSorter.java:155-160 | the comparator's order is transitive |
| `TokenOrder.LeIsLexicographic` | core/src/main/java/org/odanc/filesort/core/FileSorter.java:155-160 | compareTo <= 0 iff a is a prefix of b or the first differing code unit is smaller in a |
| `TokenOrder.SortedUnique` | core/src/main/java/org/odanc/filesort/core/FileSorter.java:34-41 | two sorted sequences holding the same tokens are equal |
| `TokenOrder.LeastExists` | core/src/main/java/org/odanc/filesort/core/FileSorter.java:129 | a non-empty queue has a least word for poll() to return |
| `Sorting.SortTokens` | core/src/main/java/org/odanc/filesort/core/FileSorter.java:149-162 | defines the sorted run as an insertion sort by compareTo, the reference for what List.sort returns |
| `Sorting.SortTokensCorrect` | core/src/main/java/org/odanc/filesort/core/FileSorter.java:149-163 | the sorted run is sorted, a permutation of the buffer and of the same length |
| `Sorting.SortTokensUnique` | core/src/main/java/org/odanc/filesort/core/FileSorter.java:149-163 | any sorted permutation of the buffer is the run the sort produces |
| `Sorting.SortTokensIdempotent` | core/src/main/java/org/odanc/filesort/core/FileSorter.java:149-163 | sorting an already sorted buffer leaves it unchanged |
| `Configuration.Wrap32` | core/src/main/java/org/odanc/filesort/core/Config.java:131-136 | the result is a Java int congruent to the exact value mod 2^32, and equal to it when it fits |
| `Configuration.JavaDiv` | core/src/main/java/org/odanc/filesort/core/Config.java:131-136 | for every non-zero divisor the remainder a - q*b is smaller than the divisor in magnitude and is zero or has the dividend's sign (truncation toward zero); for a >= 0 and b > 0 it is a / b |
| `Configuration.Cost` | core/src/main/java/org/odanc/filesort/core/Config.java:131 | defines the word cost 8*((m*2+45)/8)-8 with every operation wrapped to int and the division truncating |
| `Configuration.Available` | core/src/main/java/org/odanc/filesort/core/Config.java:136 | defines the dividend maxHeapSize*1024*1024 - RESERVED_HEAP_SIZE with each operation wrapped to int |
| `Configuration.BufferSize` | core/src/main/java/org/odanc/filesort/core/Config.java:124-141 | the buffer size lies in [MIN, MAX]; a heap <= 0 gives MIN; build fails iff heap > 0 and the word cost is 0 |
| `Configuration.BufferSizeFormula` | core/src/main/java/org/odanc/filesort/core/Config.java:131-137 | for heap > 0 and cost != 0 the size is clamp(wrap32(heap*2^20 - 2097152) / cost) with truncating division |
| `Configuration.AvailableWrapped` | core/src/main/java/org/odanc/filesort/core/Config.java:136 | wrapping after each multiplication equals wrapping the exact heap*2^20 - reserved once |
| `Configuration.Wrap32Periodic` | core/src/main/java/org/odanc/filesort/core/Config.java:136 | adding a multiple of 2^32 does not change a wrapped int |
| `Configuration.CostNoWrap` | core/src/main/java/org/odanc/filesort/core/Config.java:131 | for word sizes whose doubling does not overflow, the cost is 8*((2m+45)/8) - 8 exactly |
| `Configuration.CostZeroIff` | core/src/main/java/org/odanc/filesort/core/Config.java:131 | the cost is 0 exactly for m in -18..-15, or in 2147483630..2147483633 where 2m wraps |
| `Configuration.UnsetWordSizeCost` | core/src/main/java/org/odanc/filesort/core/Config.java:131-146 | an unset word size (0) costs 32 bytes, while the default 100 would cost 232 |
| `Configuration.NegativeCost` | core/src/main/java/org/odanc/filesort/core/Config.java:131 | word sizes from -2^30 to -19 give a negative cost |
| `Configuration.CostMultipleOf8` | core/src/main/java/org/odanc/filesort/core/Config.java:131 | every cost is a multiple of 8 |
| `Configuration.NegativeCostGivesMin` | core/src/main/java/org/odanc/filesort/core/Config.java:136-137 | with a heap of 1..2047 MB a negative cost yields MIN_BUFFER_SIZE |
| `Configuration.BufferSizeMonotone` | core/src/main/java/org/odanc/filesort/core/Config.java:136-137 | with a positive cost the size is non-decreasing in the heap over 1..2047 MB |
| `Configuration.HeapOverflow` | core/src/main/java/org/odanc/filesort/core/Config.java:136-137 | 4096 MB wraps the product to 0, so the size falls back to MIN (not monotone past 2047) |
| `Configuration.HeapWrapsPositive` | core/src/main/java/org/odanc/filesort/core/Config.java:136-137 | 2048 MB wraps to a large positive value and gives MAX |
| `Configuration.GigabyteHeap` | core/src/test/java/org/odanc/filesort/core/ConfigBuilderTest.java:53-57 | 1024 MB gives MAX with an unset word size and 527384 with word size 1000, both unlike MIN |
| `Configuration.ConfigBuilder.constructor` | core/src/main/java/org/odanc/filesort/core/Config.java:80-83 | the builder stores source and heap; the other settings start null and 0 |
| `Configuration.ConfigBuilder.SetOutputFile` | core/src/main/java/org/odanc/filesort/core/Config.java:91-94 | sets the output path only and returns the same builder |
| `Configuration.ConfigBuilder.SetMaxWordSize` | core/src/main/java/org/odanc/filesort/core/Config.java:103-106 | sets the raw word size only and returns the same builder |
| `Configuration.ConfigBuilder.SetWordDelimiter` | core/src/main/java/org/odanc/filesort/core/Config.java:114-117 | sets the delimiter only (null stays null) and returns the same builder |
| `Configuration.ConfigBuilder.Build` | core/src/main/java/org/odanc/filesort/core/Config.java:124-157 | fails iff heap > 0 and cost 0; otherwise the buffer size is BufferSize's, the word size is m or 100, the output is the set path or the default, and source and delimiter are copied; the builder is left unchanged |
| `Chunking.Chunks` | core/src/main/java/org/odanc/filesort/core/FileSorter.java:73-87 | defines the runs the split loop cuts: full buffers of b tokens while more than b remain, then the rest; for b <= 0 the whole input |
| `Chunking.ChunksConcat` | core/src/main/java/org/odanc/filesort/core/FileSorter.java:73-87 | the chunks concatenate back to the input token sequence |
| `Chunking.ChunksShape` | core/src/main/java/org/odanc/filesort/core/FileSorter.java:73-87 | for B > 0 every chunk but the last has B tokens, the last has 1..B, and empty input gives no chunk |
| `Chunking.ChunksCount` | core/src/main/java/org/odanc/filesort/core/FileSorter.java:73-87 | there are ceil(n/B) chunks |
| `Chunking.ChunksUnbounded` | core/src/main/java/org/odanc/filesort/core/FileSorter.java:77 | a buffer size of 0 never equals the count, so the whole input is one run; negative sizes reach no chunking, as SplitFile throws first |
| `Chunking.ChunksAppend` | core/src/main/java/org/odanc/filesort/core/FileSorter.java:73-82 | chunking k whole buffers and then the rest is chunking the whole input |
| `RunFiles.IsWhitespace` | core/src/main/java/org/odanc/filesort/core/FileSorter.java:113-116 | defines Character.isWhitespace on one code unit, the Scanner's default delimiter |
| `RunFiles.LeadingWord` | core/src/main/java/org/odanc/filesort/core/FileSorter.java:113-116 | the token a Scanner returns next is a prefix of the text, holds no whitespace, and stops at whitespace or the end |
| `RunFiles.Scan` | core/src/main/java/org/odanc/filesort/core/FileSorter.java:113-116 | defines the tokens a default Scanner reads from a file: its maximal whitespace-free stretches in order |
| `RunFiles.Lines` | core/src/main/java/org/odanc/filesort/core/FileSorter.java:167-172 | defines Files.write of a list: each token followed by the line separator |
| `RunFiles.RunFile` | core/src/main/java/org/odanc/filesort/core/FileSorter.java:149-172 | defines one temporary file: the buffer sorted, one token per line |
| `RunFiles.SplitRuns` | core/src/main/java/org/odanc/filesort/core/FileSorter.java:55-93 | the temporary files of the split phase; there are none exactly when the source has no token |
| `RunFiles.LinesAppend` | core/src/main/java/org/odanc/filesort/core/FileSorter.java:130-131 | writing one more word and a newline appends them to the text |
| `RunFiles.ScanWellFormed` | core/src/main/java/org/odanc/filesort/core/FileSorter.java:114-116 | every token the whitespace Scanner returns is non-empty and whitespace-free |
| `RunFiles.LinesRoundTrip` | core/src/main/java/org/odanc/filesort/core/FileSorter.java:167-172 | a run file reads back as the run written iff every token is non-empty and whitespace-free |
| `RunFiles.EmptyTokenLost` | core/src/main/java/org/odanc/filesort/core/FileSorter.java:62-65 | an empty token from a custom delimiter vanishes from its run file |
| `RunFiles.SpacedTokenSplit` | core/src/main/java/org/odanc/filesort/core/FileSorter.java:62-65 | a token holding a space comes back from its run file as two |
| `RunFiles.SplitRunsReadBack` | core/src/main/java/org/odanc/filesort/core/FileSorter.java:55-93 | for well-formed tokens the runs read back are each sorted and together hold exactly the source tokens |
| `RunFiles.BufferedFlush` | core/src/main/java/org/odanc/filesort/core/FileSorter.java:75-81 | a read that fills the buffer writes it as the next run and leaves the buffer empty |
| `RunFiles.BufferedEnd` | core/src/main/java/org/odanc/filesort/core/FileSorter.java:85-87 | a non-empty buffer at the end is the last run |
| `RunFiles.Overwrite` | core/src/main/java/org/odanc/filesort/core/FileSorter.java:104-108 | the new content starts with the lines written and keeps the older content beyond them, measured in UTF-16 code units (the same as bytes for ASCII text only) |
| `RunFiles.OverwriteExact` | core/src/main/java/org/odanc/filesort/core/FileSorter.java:104-108 | the file holds exactly the lines written iff the old file was no longer |
| `CoreSorter.FileSorter.constructor` | core/src/main/java/org/odanc/filesort/core/FileSorter.java:30-32 | the sorter keeps its configuration |
| `CoreSorter.FileSorter.Sort` | core/src/main/java/org/odanc/filesort/core/FileSorter.java:45-51 | fails iff the buffer size is negative or the source has no token; tempFiles is reset and then holds one run file per chunk; on success the lines hold every token read back, for well-formed tokens they are the sorted source, and the output is overwritten without truncation |
| `CoreSorter.FileSorter.SplitFile` | core/src/main/java/org/odanc/filesort/core/FileSorter.java:55-93 | fails, writing nothing, iff the buffer size is negative; otherwise appends exactly the sorted run files of the chunks, in order; the loop keeps currentSize equal to the buffer length |
| `CoreSorter.FileSorter.ProcessWords` | core/src/main/java/org/odanc/filesort/core/FileSorter.java:149-163 | appends one file holding the sorted buffer |
| `CoreSorter.FileSorter.WriteFile` | core/src/main/java/org/odanc/filesort/core/FileSorter.java:167-172 | appends one file holding the words one per line, deleting nothing |
| `CoreSorter.FileSorter.MergeFiles` | core/src/main/java/org/odanc/filesort/core/FileSorter.java:96-145 | fails iff there is no file, before the output is touched; otherwise the lines are a permutation of all tokens read back, duplicates kept; with sorted runs they are the unique sorted permutation; the file is overwritten without truncation |
| `CoreSorter.OpenStep` | core/src/main/java/org/odanc/filesort/core/FileSorter.java:113-122 | opening a run queues its first word under a fresh wrapper in both queue and map |
| `CoreSorter.PollStep` | core/src/main/java/org/odanc/filesort/core/FileSorter.java:128-143 | one poll keeps queue and map equal, one entry per run, tokens conserved and the lines sorted |
| `CoreSorter.HeadNextLe` | core/src/main/java/org/odanc/filesort/core/FileSorter.java:134-137 | with sorted runs the re-queued word is no smaller than the one just written |
| `CoreSorter.MergeDone` | core/src/main/java/org/odanc/filesort/core/FileSorter.java:128 | once the map is empty every token of every run has been written |
| `TreeSorter.Open` | src/main/java/org/odanc/filesorter/FileSorter.java:108-116 | the map and Scanners after the first n files: each non-empty file's first word put under its index, the later put on an equal word winning; every value names an opened file |
| `TreeSorter.StepMap` | src/main/java/org/odanc/filesorter/FileSorter.java:122-136 | one turn on the map: remove the first key, put the polled Scanner's next word if it has one; values stay file indexes |
| `TreeSorter.StepRest` | src/main/java/org/odanc/filesorter/FileSorter.java:128-130 | one turn on the Scanners: the polled one has read one more word; there are as many as before |
| `TreeSorter.Drain` | src/main/java/org/odanc/filesorter/FileSorter.java:122-136 | defines the words the loop writes from a map and Scanners: the first key, then the rest of the loop after one turn |
| `TreeSorter.TreeMerge` | src/main/java/org/odanc/filesorter/FileSorter.java:94-138 | defines the words mergeFiles() writes: open every file, then drain |
| `TreeSorter.FirstKey` | src/main/java/org/odanc/filesorter/FileSorter.java:123 | firstKey() is the least key of the map |
| `TreeSorter.LeastInSet` | src/main/java/org/odanc/filesorter/FileSorter.java:123 | a non-empty key set has a least key |
| `TreeSorter.FrontierBounded` | src/main/java/org/odanc/filesorter/FileSorter.java:98-116 | the map never holds more entries than there are runs |
| `TreeSorter.StepInv` | src/main/java/org/odanc/filesorter/FileSorter.java:122-136 | a merge turn keeps each entry on what is left of its run and no Scanner under two keys |
| `TreeSorter.StepOrdered` | src/main/java/org/odanc/filesorter/FileSorter.java:128-131 | with sorted runs every key after a turn is >= the word just written |
| `TreeSorter.StepNextIsNew` | src/main/java/org/odanc/filesorter/FileSorter.java:129-130 | when no word is in two runs, put() never replaces an entry |
| `TreeSorter.DrainSorted` | src/main/java/org/odanc/filesorter/FileSorter.java:122-136 | with sorted runs the words written are sorted |
| `TreeSorter.DrainSubMultiset` | src/main/java/org/odanc/filesorter/FileSorter.java:122-136 | the merge loop invents nothing |
| `TreeSorter.DrainExact` | src/main/java/org/odanc/filesorter/FileSorter.java:122-136 | when no word is in two runs, every key and unread word is written |
| `TreeSorter.OpenInv` | src/main/java/org/odanc/filesorter/FileSorter.java:108-116 | opening the files loses tokens only to ties, and none when no word is in two runs |
| `TreeSorter.TreeMergeSorted` | src/main/java/org/odanc/filesorter/FileSorter.java:94-138 | with sorted runs the output is sorted |
| `TreeSorter.TreeMergeSubMultiset` | src/main/java/org/odanc/filesorter/FileSorter.java:94-138 | the output is a sub-multiset of the runs' tokens |
| `TreeSorter.TreeMergeDisjoint` | src/main/java/org/odanc/filesorter/FileSorter.java:94-138 | when no word is in two runs the output is a permutation of all tokens, and the sorted one for sorted runs |
| `TreeSorter.TreeTieDrop` | src/main/java/org/odanc/filesorter/FileSorter.java:108-136 | runs [a,b] and [a,c] merge to [a,c]: the first run's a and b are lost |
| `TreeSorter.FileSorter.constructor` | src/main/java/org/odanc/filesorter/FileSorter.java:28-30 | the sorter keeps its configuration |
| `TreeSorter.FileSorter.Sort` | src/main/java/org/odanc/filesorter/FileSorter.java:43-49 | fails iff the buffer size is negative; tempFiles is reset and then holds one run file per chunk; on success the lines are the TreeMap merge of them, sorted and a sub-multiset of the source for well-formed tokens |
| `TreeSorter.FileSorter.SplitFile` | src/main/java/org/odanc/filesorter/FileSorter.java:53-91 | fails, writing nothing, iff the buffer size is negative; otherwise appends exactly the sorted run files of the chunks, in order |
| `TreeSorter.FileSorter.ProcessWords` | src/main/java/org/odanc/filesorter/FileSorter.java:142-156 | appends one file holding the sorted buffer |
| `TreeSorter.FileSorter.WriteFile` | src/main/java/org/odanc/filesorter/FileSorter.java:160-165 | appends one file holding the words one per line |
| `TreeSorter.FileSorter.MergeFiles` | src/main/java/org/odanc/filesorter/FileSorter.java:94-138 | the lines are the TreeMap merge of the runs read back; the file is overwritten without truncation; with no file nothing is written and the output stays as it was |
| `Scenarios.RunBoundary` | core/src/main/java/org/odanc/filesort/core/FileSorter.java:73-87 | five tokens with a buffer of two make three runs of sizes 2, 2 and 1 |
| `Scenarios.SourceSorted` | core/src/main/java/org/odanc/filesort/core/FileSorter.java:149-163 | "b a a c" sorts to "a a b c" |
| `Scenarios.TiedRuns` | src/main/java/org/odanc/filesorter/FileSorter.java:53-91 | "b a a c" in pairs is written as runs [a,b] and [a,c] and reads back as them |
| `Scenarios.CoreKeepsDuplicates` | core/src/main/java/org/odanc/filesort/core/FileSorter.java:45-51 | the priority-queue sorter turns "b a a c" into a, a, b, c |
| `Scenarios.TreeDropsTies` | src/main/java/org/odanc/filesorter/FileSorter.java:43-49 | the TreeMap sorter turns "b a a c" into a, c |
| `Scenarios.CoreEmptySourceFails` | core/src/main/java/org/odanc/filesort/core/FileSorter.java:96-99 | the priority-queue sorter throws IllegalArgumentException on a source with no token |
| `Scenarios.TreeEmptySource` | src/main/java/org/odanc/filesorter/FileSorter.java:94-104 | the TreeMap sorter writes nothing for a source with no token and leaves the output as it was |
| `Scenarios.RepeatRuns` | core/src/main/java/org/odanc/filesort/core/FileSorter.java:73-87 | b+1 copies of a word with a buffer of b are written as a run of b copies and a run of one, and read back as such |
| `Scenarios.TreeCollapsesCopies` | src/main/java/org/odanc/filesorter/FileSorter.java:108-136 | the TreeMap merge of a run of copies of "a" and a run of one "a" writes a single "a" |
| `Scenarios.MinimumBufferCopies` | src/main/java/org/odanc/filesorter/FileSorter.java:43-49 | with the buffer build() gives a heap of 0 (200 000), 200 001 copies of "a" come out as 200 001 lines from the core sorter and as one line from the TreeMap sorter |

## Left out

- The source file and its tokenizer are not modelled. The `Scanner` with an optional regular-expression delimiter is a library whose behaviour is not visible here. `Sort` therefore takes the source's token sequence as its input. The default whitespace `Scanner` is modelled only where the merge reads the run files back (`RunFiles.Scan`).
- The file system is reduced to values. A temporary file is its text and is named by its position in `tempFiles`. `Files.createTempFile`, paths and UTF-8 encoding are not modelled. Text is a sequence of UTF-16 code units. The line separator is fixed to "\n".
- RunFiles.Overwrite: measures the old content left past the new lines in UTF-16 code units. On disk the writer works in UTF-8 bytes, so the leftover tail is the same only for ASCII text.
- I/O failures are not modelled. This covers `scanner.ioException()`, `checkForReadErrors` and exceptions from `Files`. Closing scanners and writers is not modelled either.
- Whether the output file exists is an input (`Option<Text>`); `Files.createFile` becomes the empty text.
- The algorithm inside `List.sort` is not modelled. Its promise is modelled instead: an insertion sort serves as the reference. Since sorted permutations are unique, every correct sort gives the same run.
- `PriorityQueue` is a sequence, and `poll` takes any least element. Its heap layout and its choice among equal words are not modelled.
- `DEFAULT_OUTPUT_FILE` is the constant `"sorted.txt"`. Its dependence on the `user.dir` property is not modelled.
- A null source path is not modelled. The `Config` getters are plain field reads and need no member of their own.
- The `Config` class that `src/.../FileSorter.java` uses is not part of this model. That sorter is given the core `Config`.
- `core/.../Main.java`, `runner/.../Main.java` and the test fixtures are not modelled. They are argument parsing, process spawning and exit codes.
- How much heap a run actually uses is not modelled. That is what the buffer size is meant to bound.
- TreeSorter.TreeMergeDisjoint: assumes that no word occurs in two runs. This is stronger than "no two runs ever present equal heads at the same time", which is all the exact-output property needs.
- Configuration.NegativeCostGivesMin: covers heap sizes 1..2047 only. Beyond that the dividend can wrap either way.
- Configuration.NegativeCost: covers word sizes from -2^30 up. Below that, `m * 2` wraps to a positive value.

## Findings

| source | as written | input that shows it | evidently intended | confidence | as-written member | corrected member |
|---|---|---|---|---|---|---|
| src/main/java/org/odanc/filesorter/FileSorter.java:108-136 | the TreeMap is keyed by word, so `put` of a head equal to a key already present replaces the earlier run's Scanner, and that run's unread tokens are never written | with the buffer of 200 000 that build() gives for a heap of 0, a source of 200 001 copies of "a" makes runs [a x 200000] and [a], and the output is a single "a" (`Scenarios.MinimumBufferCopies`); with two tokens per run, "b a a c" gives a, c | every token written, duplicates kept, as the wrapper's doc comment (177-181) says | high (proved; not executed) | `TreeSorter.TreeTieDrop` | `CoreSorter.FileSorter.MergeFiles` |
| core/src/main/java/org/odanc/filesort/core/FileSorter.java:96-99 | the queue is created as `new PriorityQueue<>(files.size())`, which throws IllegalArgumentException for a capacity of 0; a source with no token leaves no run, so sort() throws before the output file is created | an empty (or all-whitespace) source file (`Scenarios.CoreEmptySourceFails`) | no line written: the output file created empty when missing and left as it was otherwise, as the TreeMap sorter does | high (proved; not executed) | `CoreSorter.FileSorter.MergeFiles` | `TreeSorter.FileSorter.MergeFiles` |

For the first row the corrected behaviour is the priority-queue merge of the
other `FileSorter`. Its wrappers are told apart by identity, and
`Scenarios.CoreKeepsDuplicates` shows it writing a, a, b, c for the same input.
For the second row it is the `TreeMap` merge, which sizes nothing by the
number of runs: with no run it writes nothing and leaves the output file as
it was (`Scenarios.TreeEmptySource`).
