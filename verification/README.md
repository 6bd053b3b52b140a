# promethium-sort, modelled in Dafny

promethium-sort is an external merge sort for text files with one record per line. It works in two phases:

- **split()** reads the input line by line and stops at the end of the file, at a line holding only the SUB mark (`\u001a`), or once `stopAfter` records have been accepted. It numbers every record it reads. Records numbered above `skipRecord` go to the splitter. The splitter applies the `include` filter and then the `inRec` edit, and buffers the record. A buffer already holding `maxNumRecord` records is first sorted and spilled to a temporary file.
- If no file was ever spilled, the buffer is sorted and written straight to the target. Otherwise the remainder becomes one more sorted file, and the files are merged pairwise in rounds until two are left. The final merge of those two passes every record through the optional reduction operator and the `outRec` edit.

The reduction operators are `first`, `last`, `allDups`, `noDups`, `firstDup`, `lastDup`, `sum(SumFields)` and a caller's own `reduce(RecordAccumulator)`. Each one is a fold over the sorted stream. It sees one record at a time, may emit a record, and may emit one more on the final flush.

The model follows that structure:

- `Ordering`: comparators as functions `(Record, Record) -> int`, what a valid comparator is, stable classes of equal-comparing records, and `String.compareTo`.
- `Merging`: performMerge, both as a reference function and as a two-cursor loop; the stable sort defined by merging; the uniqueness of stable sorts.
- `Grouping`: the maximal runs of equal-comparing records, which are the groups every reduction operator works on.
- `Accumulators`: `RecordAccumulator` as a fold with a flush; `reorg`; `sortAndFinalSave`; what the target receives after reduction and `outRec`.
- `Operators`: the six reorg writers. Each is proved to emit exactly a per-group selection of the sorted stream.
- `SumFields`: the `sum` adapter over a `SumFields` rule. It is proved to call `reset` once per group and `add` once per record, and to emit `getSummary` of each group's first record. `SumFields.none()` is proved to behave like `first()`.
- `GroupCount`: the group-count examples from the documentation and the tests. One is a hand-written accumulator, the other a `SumFields` rule. Both write `key + "%03d"`, which is modelled and proved to round-trip.
- `TempFiles`: the temporary files as text: each record written on a line of its own, and read back with `readLine()`.
- `Barrier`: the Phaser that ends each merge round, as a reduced state machine, with the schedule where the round ends early and a corrected protocol.
- `Scheduling`: merge rounds, the final merge task with its reducing `writeLn`, and the recursive merge.
- `Splitting`: split() and the splitter, with the skip/filter/edit/stop composition.
- `Engine`: the constructor's defaults, sortOut, and the natural-order sort().
- `Samples`: the seven- and nine-record examples from the test suite, proved as instances of the general theorems.

## Model

| member | source | states |
|---|---|---|
| Ordering.NaturalIsValid | src/main/java/io/github/epi155/pm/sort/PmLayerSort.java:6-11 | String.compareTo is a valid comparator: swapping the arguments flips the sign, and "at most" is transitive |
| Ordering.NaturalZeroIffEqual | src/main/java/io/github/epi155/pm/sort/PmLayerSort.java:8-10 | compareTo returns zero exactly when the two strings are identical |
| Ordering.NaturalOrder | src/main/java/io/github/epi155/pm/sort/PmLayerSort.java:6-11 | the natural order is valid, and it identifies exactly the equal strings |
| Ordering.NaturalPrefixFirst | src/main/java/io/github/epi155/pm/sort/PmLayerSort.java:8-10 | a string sorts before any proper extension of itself |
| Merging.MergePermutes | src/main/java/io/github/epi155/pm/sort/PmSortEngine.java:292-313 | the merged file is a rearrangement of the two inputs together |
| Merging.MergeSorted | src/main/java/io/github/epi155/pm/sort/PmSortEngine.java:294-313 | merging two sorted files gives a sorted file |
| Merging.MergeStable | src/main/java/io/github/epi155/pm/sort/PmSortEngine.java:304-311 | because ties go to the first file (`comp <= 0`), the equal-comparing records of the result are those of the first file followed by those of the second, each in its own order |
| Merging.PerformMerge | src/main/java/io/github/epi155/pm/sort/PmSortEngine.java:286-321 | the two-cursor loop writes exactly the reference merge of its two sources |
| Merging.SortIsStable | src/main/java/io/github/epi155/pm/sort/PmSortEngine.java:392-393 | the sort returns a sorted permutation that keeps every class of equal-comparing records in input order, as Collections.sort does |
| Merging.StableSortUnique | src/main/java/io/github/epi155/pm/sort/PmSortEngine.java:305 | two sorted sequences with the same equal-comparing classes are identical, so any stable sort gives the same output |
| Merging.StableSortIsSort | src/main/java/io/github/epi155/pm/sort/PmSortEngine.java:392-393 | any stable sort of the records equals the model's sort |
| Merging.SortIdempotent | src/main/java/io/github/epi155/pm/sort/PmSortEngine.java:392-393 | sorting already sorted records leaves them unchanged |
| Grouping.GroupsIsGrouping | src/main/java/io/github/epi155/pm/sort/PmSortEngine.java:453-469 | the groups concatenate to the stream; they are non-empty; each is a run of neighbours that compare equal; neighbouring groups are cut where the comparator says "different" |
| Grouping.GroupingUnique | src/main/java/io/github/epi155/pm/sort/PmSortEngine.java:453-469 | any split of the stream with those properties is the model's grouping |
| Grouping.UnbrokenMembersEquivalent | src/main/java/io/github/epi155/pm/sort/PmSortEngine.java:211 | under a valid comparator every member of a group compares equal to the group's first record, which is what the writers' cached record is |
| Grouping.SameGroupAsHead | src/main/java/io/github/epi155/pm/sort/PmSortEngine.java:540 | comparing a new record against the group's first record or against its last gives the same decision |
| Accumulators.FeedAppend | src/main/java/io/github/epi155/pm/sort/PmSortEngine.java:420-431 | feeding two streams one after the other equals feeding their concatenation |
| Accumulators.Reorg | src/main/java/io/github/epi155/pm/sort/PmSortEngine.java:420-431 | reorg emits every non-null reduce result in order, followed by the flush result when it is non-null |
| Accumulators.EditAll | src/main/java/io/github/epi155/pm/sort/PmSortEngine.java:410-416 | the outRec loop replaces every record by its edit, in order |
| Accumulators.SortAndFinalSave | src/main/java/io/github/epi155/pm/sort/PmSortEngine.java:405-418 | the target gets the stable sort, then the reduction when there is one, then outRec when there is one |
| Operators.FirstKeepsGroupHeads | src/main/java/io/github/epi155/pm/sort/PmSortEngine.java:453-469 | first() writes the first record of every group, in order |
| Operators.LastKeepsGroupTails | src/main/java/io/github/epi155/pm/sort/PmSortEngine.java:535-553 | last() writes the last record of every group, in order |
| Operators.AllDupsKeepsDuplicates | src/main/java/io/github/epi155/pm/sort/PmSortEngine.java:471-502 | allDups() writes every record of every group of two or more, and nothing else |
| Operators.NoDupsKeepsSingles | src/main/java/io/github/epi155/pm/sort/PmSortEngine.java:504-533 | noDups() writes exactly the records whose group has one member |
| Operators.FirstDupKeepsFirstOfDuplicates | src/main/java/io/github/epi155/pm/sort/PmSortEngine.java:555-578 | firstDup() writes the first record of each group of two or more |
| Operators.LastDupKeepsLastOfDuplicates | src/main/java/io/github/epi155/pm/sort/PmSortEngine.java:580-606 | lastDup() writes the last record of each group of two or more |
| SumFields.SumSummarisesGroups | src/main/java/io/github/epi155/pm/sort/PmSortEngine.java:200-244 | sum(rule) emits, per group, the rule's summary of that group's first record, using the state after reset and then add of each member |
| SumFields.SumCallsResetThenAdds | src/main/java/io/github/epi155/pm/sort/PmSortEngine.java:205-220 | fed through the adapter, the rule sees one reset and then one add per member, group after group, and no other reset or add |
| SumFields.ResetOncePerGroup | src/main/java/io/github/epi155/pm/sort/PmSortEngine.java:205-220 | over the reference grouping, the calls a rule sees are, per group, one reset followed by one add for each member |
| SumFields.SumWritesOnePerGroup | src/main/java/io/github/epi155/pm/sort/PmSortEngine.java:205-225 | the adapter calls getSummary and writes exactly once per group |
| SumFields.LoggerAddAll | src/main/java/io/github/epi155/pm/sort/SumFields.java:86-95 | add is called once for each record of a group, in order |
| SumFields.NoneSummarisesFirsts | src/main/java/io/github/epi155/pm/sort/SumFields.java:32-48 | with the none() rule, every group is summarised by its first record |
| SumFields.SumNoneIsFirst | src/main/java/io/github/epi155/pm/sort/SumFields.java:51-84 | sum(SumFields.none()) writes exactly what first() writes |
| GroupCount.KeyCompareIsValid | src/test/java/io/github/epi155/test/TestSortOpt.java:18-23 | comparing the three-character keys is a valid comparator that identifies records with the same key |
| GroupCount.Pad3RoundTrip | src/main/java/io/github/epi155/pm/sort/SumFields.java:26 | the zero-padded `%03d` rendering of a count reads back as that count |
| GroupCount.CountRuleCountsGroups | src/main/java/io/github/epi155/pm/sort/SumFields.java:10-28 | the counting rule summarises each group as its key followed by its size |
| GroupCount.SumCountWritesCounts | src/test/java/io/github/epi155/test/TestSortOpt.java:307-326 | sum with the counting rule writes one `key + count` record per key group |
| GroupCount.CounterWritesCounts | src/main/java/io/github/epi155/pm/sort/RecordAccumulator.java:13-40 | the hand-written GroupCount writes one `key + count` record per key group; on an empty stream its flush writes `null000` |
| GroupCount.CountersAgree | src/test/java/io/github/epi155/test/TestSortOpt.java:250-278 | on a non-empty stream the hand-written accumulator and the SumFields rule write the same records |
| Scheduling.RoundPairs | src/main/java/io/github/epi155/pm/sort/PmSortEngine.java:117-134 | a round merges files 2i and 2i+1 into the i-th new file, and carries an odd last file over unchanged |
| Scheduling.RoundKeepsOrder | src/main/java/io/github/epi155/pm/sort/PmSortEngine.java:117-134 | after a round every file is still sorted, and each class of equal-comparing records appears in the same order across the files |
| Scheduling.RunRound | src/main/java/io/github/epi155/pm/sort/PmSortEngine.java:117-134 | the queue loop produces exactly one round |
| Scheduling.PassesIsLog | src/main/java/io/github/epi155/pm/sort/PmSortEngine.java:110-140 | the number of merge() runs on n files, which MergeFiles counts, is ceil(log2 n): 2^(passes-1) < n <= 2^passes |
| Scheduling.TakeNext | src/main/java/io/github/epi155/pm/sort/PmSortEngine.java:294-312 | each step of the merge loop emits the head of the remaining merge and advances one cursor |
| Scheduling.WriteLn | src/main/java/io/github/epi155/pm/sort/PmSortEngine.java:338-346 | the final task's writeLn keeps what was written equal to the reduced, edited prefix of the merge |
| Scheduling.FlushTail | src/main/java/io/github/epi155/pm/sort/PmSortEngine.java:348-358 | the final flush completes the reduction, so the target holds the whole post-sort output |
| Scheduling.FinalMerge | src/main/java/io/github/epi155/pm/sort/PmSortEngine.java:333-359 | the final merge task writes the reduction and the outRec edit of the merge of its two files |
| Barrier.AsWrittenReleasesEarly | src/main/java/io/github/epi155/pm/sort/PmSortEngine.java:112-136 | as written, a round of two tasks in which the first ends before the second registers releases merge() while the second merge is still running |
| Barrier.MainPartyWaitsForAll | src/main/java/io/github/epi155/pm/sort/PmSortEngine.java:264-283 | with the main thread as a party from the start, merge() is released exactly when it waits and every task of the round has ended |
| Scheduling.MergeFiles | src/main/java/io/github/epi155/pm/sort/PmSortEngine.java:110-140 | merging any number (at least two) of sorted files writes the reduced, edited stable sort of all their records, in Passes(n) runs of merge() |
| TempFiles.ReadBackWritten | src/main/java/io/github/epi155/pm/sort/PmSortEngine.java:381-390 | a temporary file written by save() reads back, line by line, as the records written, when none holds a line terminator |
| TempFiles.ReadBackIff | src/main/java/io/github/epi155/pm/sort/PmSortEngine.java:292-310 | writing records and reading them back is the identity exactly when no record holds '\n' or '\r' |
| TempFiles.SplitAtNewline | src/main/java/io/github/epi155/pm/sort/PmSortEngine.java:327-330 | a record holding '\n' comes back from a temporary file as two records |
| Splitting.KeepIsFilterThenEdit | src/main/java/io/github/epi155/pm/sort/PmSortEngine.java:366-368 | the splitter keeps the edits of the records the filter accepts: the filter sees the raw line, and the edit comes after it |
| Splitting.SpillShape | src/main/java/io/github/epi155/pm/sort/PmSortEngine.java:369-374 | the spilled batches and the buffer concatenate to the accepted records; every batch is exactly maxNumRecord long; the buffer holds at most that many; the buffer is empty only for no records; there are spills only beyond one full batch |
| Splitting.SortEachKeepsOrder | src/main/java/io/github/epi155/pm/sort/PmSortEngine.java:392-403 | the sorted batches are sorted, and each class of equal-comparing records keeps its order across them |
| Splitting.Process | src/main/java/io/github/epi155/pm/sort/PmSortEngine.java:365-379 | process returns whether the filter accepted the line; an accepted edit is appended, spilling a full buffer first; a rejected line changes nothing |
| Splitting.ReadOne | src/main/java/io/github/epi155/pm/sort/PmSortEngine.java:151-155 | a record read is numbered, and it reaches the splitter only when its number is above skipRecord |
| Splitting.Files | src/main/java/io/github/epi155/pm/sort/PmSortEngine.java:433-450 | no buffered record gives the spilled files; a never-spilled buffer is written to the target; otherwise the buffer becomes one more sorted file, for at least two files |
| Splitting.Split | src/main/java/io/github/epi155/pm/sort/PmSortEngine.java:142-161 | split() accepts the filtered, edited records numbered above skipRecord, before the end-of-file mark, up to stopAfter of them. It leaves nothing when there are none, writes the target directly for at most one batch, and leaves sorted batches plus the sorted remainder otherwise |
| Engine.Configure | src/main/java/io/github/epi155/pm/sort/PmSortEngine.java:24-29 | positive batch size and thread count are kept; non-positive ones become 2048 and max(1, processors/2); a given charset is kept and a missing one becomes UTF-8; the temporary directory is kept as given |
| Engine.ConfigureSettles | src/main/java/io/github/epi155/pm/sort/PmSortEngine.java:24-29 | settings the constructor produced are kept unchanged when passed to it again |
| Engine.SortOut | src/main/java/io/github/epi155/pm/sort/PmSortEngine.java:93-99 | the target is written exactly when some record was accepted, and then holds the reduced, edited stable sort of the accepted records |
| Engine.SortOutNatural | src/main/java/io/github/epi155/pm/sort/PmLayerSort.java:12-14 | sort() without a comparator behaves as sort with String.compareTo |
| Engine.NaturalSortNonDecreasing | src/main/java/io/github/epi155/pm/sort/PmLayerSort.java:6-14 | the natural sort is a rearrangement of its input and is non-decreasing under compareTo |
| Engine.NaturalGroupsIdentical | src/main/java/io/github/epi155/pm/sort/PmLayerSort.java:6-14 | under the natural order, every operator group is a run of identical records |
| Samples.SevenGrouped | src/test/java/io/github/epi155/test/TestSortOpt.java:47-55 | the seven test records fall into the key groups 001, 002, 003 and 004 |
| Samples.FirstDupOnSeven | src/test/java/io/github/epi155/test/TestSortOpt.java:57-68 | firstDup() on the seven records writes 001001 and 004005 |
| Samples.SortOutFirstDupOnSeven | src/test/java/io/github/epi155/test/TestSortOpt.java:57-68 | the whole engine (batch of 256, no scan options, the key comparator, firstDup()) writes 001001 and 004005 to the target |
| Samples.LastDupOnSeven | src/test/java/io/github/epi155/test/TestSortOpt.java:70-81 | lastDup() on the seven records writes 001002 and 004007 |
| Samples.FirstOnSeven | src/test/java/io/github/epi155/test/TestSortOpt.java:83-96 | first() on the seven records writes the first record of each key |
| Samples.LastOnSeven | src/test/java/io/github/epi155/test/TestSortOpt.java:98-111 | last() on the seven records writes the last record of each key |
| Samples.AllDupsOnSeven | src/test/java/io/github/epi155/test/TestSortOpt.java:113-127 | allDups() on the seven records writes the five records of keys 001 and 004 |
| Samples.NoDupsOnSeven | src/test/java/io/github/epi155/test/TestSortOpt.java:129-140 | noDups() on the seven records writes 002003 and 003004 |
| Samples.NineGrouped | src/test/java/io/github/epi155/test/TestSortOpt.java:146-156 | the nine records add the singleton groups 000 and 005 at the two ends |
| Samples.FirstDupOnNine | src/test/java/io/github/epi155/test/TestSortOpt.java:158-169 | firstDup() on the nine records writes 001001 and 004005 |
| Samples.LastDupOnNine | src/test/java/io/github/epi155/test/TestSortOpt.java:171-182 | lastDup() on the nine records writes 001002 and 004007 |
| Samples.FirstOnNine | src/test/java/io/github/epi155/test/TestSortOpt.java:184-199 | first() on the nine records writes the six group heads |
| Samples.LastOnNine | src/test/java/io/github/epi155/test/TestSortOpt.java:201-216 | last() on the nine records writes the six group tails |
| Samples.AllDupsOnNine | src/test/java/io/github/epi155/test/TestSortOpt.java:218-232 | allDups() on the nine records ignores the singleton end groups |
| Samples.NoDupsOnNine | src/test/java/io/github/epi155/test/TestSortOpt.java:234-247 | noDups() on the nine records writes 000000, 002003, 003004 and 005008 |
| Samples.CounterOnSeven | src/test/java/io/github/epi155/test/TestSortOpt.java:280-305 | reduce(new GroupCount()) on the seven records writes 001002, 002001, 003001 and 004003 |
| Samples.SumCountOnSeven | src/test/java/io/github/epi155/test/TestSortOpt.java:340-353 | sum(new GroupCount2()) on the seven records writes the same four records |
| Samples.SumNoneOnSeven | src/test/java/io/github/epi155/test/TestSortOpt.java:355-369 | sum(SumFields.none()) and first() write the same records for the seven records |

## Left out

- File I/O, temporary-file creation and deletion, and the charset are left out. Files are sequences of lines, the input is a sequence of lines, and the target is a value. `SortException` on an I/O error is not modelled.
- Concurrency is left out. The merge pool (`ExecutorService`, `Phaser`, `maxThread`) runs a round's merges in parallel; Scheduling.MergeFiles runs them one after another. That matches the program only if `phaser.awaitAdvance(0)` (PmSortEngine.java:136) returns after every task of the round has ended, and the code guarantees this only when every task registers (line 264) before any of them ends (line 282). The model assumes that wait; the Findings section shows a schedule where it fails and the protocol under which it holds.
- Java `int` and `long` overflow of the counters is not modelled: `nmRecRd` and `nmRecWr` are unbounded, and so is the GroupCount `count`.
- Strings are sequences of `char`, a Unicode scalar value, and compareTo is modelled as comparing those. Java compares UTF-16 code units instead. The two orders agree below U+10000 but differ above it: Java puts U+1F600 (stored from the high surrogate 0xD83D) before U+FF61, while the model puts it after. Lone surrogates, which a Java string may hold, cannot be represented.
- The fluent builders (`SortEngine`, `PmSortBuilder`, the `Layer*` interfaces) are left out. They only record the options that `ScanOptions`, `PostSort` and `Settings` hold.
- Engine.Configure: `Runtime.availableProcessors()` is a parameter.
- Ordering.NaturalOrder: `NaturalCompare` returns Java's own value, the difference of the first differing characters or else the difference of the lengths, but over `char` values rather than UTF-16 code units, as the line above says.
- GroupCount.KeyCompareIsValid: the test comparator takes `substring(0, 3)`, which throws on records shorter than three characters. The model compares the prefix that is there, so it does not model that exception.
- GroupCount.CountOf: `keyOf` takes `substring(0,3)`, which throws on records shorter than three characters. The model takes the prefix that is there.
- GroupCount.CountersAgree: this requires a non-empty stream. On an empty stream the hand-written accumulator's flush gives `null000`, while the `sum` adapter would call `getSummary(null)`. The engine never flushes an empty stream, because nothing is written when no record is accepted.
- SumFields.Sum: the flush on an empty stream is modelled as emitting nothing, standing for the unreachable `getSummary(null)`.
- Scheduling.MergeFiles: this requires at least two files, because sortOut only merges when split() left more than one.
- Splitting.KeepIsFilterThenEdit: the code tests the `include` filter on the raw line and applies `inRec` afterwards (lines 366-368).
- Engine.SortOut: temporary files are modelled as the sequences of records written to them. In the source a spilled record that `inRec` edited to hold '\n' or '\r' comes back from `readLine()` as several records (TempFiles.SplitAtNewline), so with a small batch size the target can differ from the one-batch result. The model's promise that the batch size does not matter holds only for records without line terminators (TempFiles.ReadBackIff). `newLine()` writes the platform separator; the model writes '\n', which reads back the same.
- SumFields.Sum: `getSummary` is modelled as a pure function of the rule's state and the group's first record. Its calls are not logged, and a rule whose `getSummary` changes its own state is not modelled.

## Findings

| source | as written | input that shows it | evidently intended | confidence | as-written member | corrected member |
|---|---|---|---|---|---|---|
| src/main/java/io/github/epi155/pm/sort/PmSortEngine.java:112-136 | each MergeTask registers with a `new Phaser()` (no parties) in its constructor and deregisters when it ends; merge() then calls `awaitAdvance(0)` | a round of two tasks where the first ends before the second is created: the party count falls to zero, the default `onAdvance` terminates the phaser, the second `register()` has no effect, and `awaitAdvance(0)` returns while the second merge still writes its file | merge() goes on to the next round only after every merge of this round has ended, which is what Scheduling.MergeFiles assumes | medium; not executed | Barrier.AsWrittenReleasesEarly | Barrier.MainPartyWaitsForAll |
