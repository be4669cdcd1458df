# PerfectCuboid in Dafny

A model of the search pipeline of the PerfectCuboid program. The program
looks for a perfect cuboid: a box whose edges, face diagonals and space
diagonal are all integers. It works in three stages.

- **Generate.** `PPT_Formula_m_n` enumerates Pythagorean triples
  k(m^2 - n^2), 2kmn, k(m^2 + n^2) and filters them. Each surviving triple
  becomes a record (A, B, G), short edge, long edge and hypotenuse. The
  records go into per-thread in-memory sorted sets (`DataList`).
- **Spill.** When enough records are pending, the sets are merged (k-way,
  duplicates dropped) into a numbered binary run file.
- **Search.** `DataMerger` merges all run files as they are read.
  `Finder` cuts the merged stream into groups of equal G and binary-searches
  each group for A^2 + B^2 = C^2 or D^2.

Alongside this, `EulerBrick` searches Euler bricks directly, both from
Saunderson's parametrisation (`DataSet`) and by brute force over three edges.

The Dafny modules follow the source files:

| module | file | source |
|---|---|---|
| `Records` | records.dfy | the record of `DataNode` / `DataNode3`, both `CompareTo`s, the sorted views of `SortedSet` and `SortedList` |
| `Wrappers` | wrappers.dfy | `Option` for a null read, `Result` for an exception |
| `Utils` | utils.dfy | `Utils` helpers, the `DataNode` constructors, `DataSet` and `DataSet1` (utils.cs) |
| `Codec` | codec.dfy | `Write` / `Read` of both record classes, the byte-array writers, `DataIOReader` / `DataIOReader3` |
| `KWay` | kway.dfy | the k-way merge inside `DataList.Output` / `DataList3.Output` |
| `RunBuffer` | datalist.dfy | `DataList` and `DataList3`: `Add`, `Output`, the shared static state |
| `Merger` | merger.dfy | `DataMerger`: `GetNextDataNode`, `InitializeQueue`, `Merge`, `MergeTwoFiles` |
| `Finder` | finder.dfy | `Finder`: grouping the merged stream and `CheckDataListA` |
| `Generator` | generator.dfy | `PPT_Formula_m_n`: digit table, edge filter, `GeneratePTThread`, `GenerateTestData`, `FindValue` |
| `Bricks` | eulerbrick.dfy | `EulerBrick`: `SearchEulerBrickThread` and `GenerateAllEulerBricks` |

How the source's entities are represented:

- **Records and sets.**
  - One datatype `Node(a, b, c, g)` stands for both record classes; a pair keeps c = 0.
  - A `SortedSet<DataNode>` is a strictly ascending `seq<Node>`, its enumeration order.
  - The merge queue `SortedList<DataNode, reader>` is a sequence of `Entry(key, src)` ascending by key. `src` names the reader.
- **Files.**
  - A run file is a `seq<Byte>` inside a `Directory` object: a map from the file index to the bytes.
  - The merge cursor sees the run files already decoded, as `seq<seq<Node>>`.
  - The byte-level reader is modelled separately as `Codec.RunReader`.
- **Shared static state.** The static fields of `DataList` (and of `DataList3`) are one `Spill` object.
  - `DataList3.Add` and `DataList3.Output` update `DataList._readyToWriteCount`, not a counter of their own.
  - The model follows this: they take `DataList`'s `Spill` as a second argument.
- **Floating-point bounds** become integer parameters:
  - `third(G)` for `SQRT_3 * G` and `half(x)` for `SQRT_2 * x`;
  - the square roots taken by the `PPT_Formula_m_n` constructor;
  - the `BigInteger.Log` seed of `IsPerfectSquare`.
- **Integer widths.** Wrap-around is written out where it changes a result:
  - squares taken in UInt64 (`Finder.Sq64`, `Generator.Digit64`);
  - the UInt64 `DataSet` triple (`Utils.TripleA`, `TripleB`, `TripleC`);
  - `_totalCount`.
- **Threads.** Each per-thread procedure is modelled as run by one thread, sequentially.
- **Ghost bookkeeping.** Ghost out-parameters and ghost tables exist only so the proofs can be stated:
  - `sent`, `log`, `reported`;
  - the verdict function `judge` and the face test `test`;
  - the `rows` / `pairs` tables.

## Model

| member | source | states |
|---|---|---|
| Records.CompareTo | utils.cs:50-75 | Returns -1, 0 or 1: 0 exactly for equal records, negative exactly when the first precedes the second in lexicographic (G, A, B, C) order |
| Records.CompareToAntisymmetric | utils.cs:50-75 | Swapping the two records negates the comparison |
| Records.LessTransitive | utils.cs:50-75 | The order `CompareTo` induces is transitive |
| Records.LessTotal | utils.cs:50-75 | Any two distinct records are ordered one way or the other, so `SortedSet` and `SortedList` are well defined |
| Records.CompareTo3 | Collection3DataList.cs:28-54 | For non-negative G, returns 0 exactly when A, B, C agree and the Gs agree or one of them is 0; when both Gs are positive it agrees with `CompareTo` |
| Records.CompareTo3NotTransitive | Collection3DataList.cs:32-35 | Because a zero G skips the G comparison, three records can compare cyclically (x < y < z < x), so `DataNode3` with a zero G has no consistent sort order |
| Records.Insert | DataList.cs:50 | `SortedSet.Add`: the result is strictly ascending, holds exactly the old records plus the new one, and grows by one unless the record was present |
| Records.SortedUnique | DataList.cs:14 | Two strictly ascending sequences with the same records are equal: a sorted set has exactly one enumeration |
| Records.QInsert | DataList.cs:118-121 | `SortedList.Add` of an absent key: the queue stays sorted, gains exactly that entry and that key |
| Utils.StartBit | utils.cs:714-723 | Gives a power of four above N / 4, a valid starting `bit` for the square root |
| Utils.IsPerfectSquare | utils.cs:711-740 | The digit-by-digit square root returns true exactly when N is the square of an integer |
| Utils.BigDataAbsoluteSquareDiff | utils.cs:741-745 | The result is a^2 - b^2 or b^2 - a^2, and is non-negative for non-negative inputs |
| Utils.InOrder | utils.cs:747-760 | Afterwards a <= b; it swaps, and reports a swap, exactly when a > b |
| Utils.NewPair | utils.cs:26-35 | The three-argument `DataNode` constructor stores the two edges ascending, as the same multiset, with c = 0 and G as given |
| Utils.PairIsCanonical | utils.cs:26-35 | (x, y, G) and (y, x, G) build the same record, which compares equal to itself |
| Utils.NewTriple | utils.cs:37-48 | The four-argument `DataNode` constructor (and `DataNode3`'s) stores A <= B <= C as a permutation of the three inputs |
| Utils.EuclidTriple | utils.cs:153-158 | Without UInt64 wrap-around, (m^2 - n^2, 2mn, m^2 + n^2) is a Pythagorean triple |
| Utils.BrickIdentity | utils.cs:164-182 | For a Pythagorean triple (a, b, c): X^2 + Y^2 = c^6 and X^2 + Y^2 + Z^2 = c^2 (16 a^2 b^2 + c^4), the identity behind `check` |
| Utils.NewDataSet | utils.cs:146-191 | `DataSet(m, n)`: not yet valid; checks non-negative; the triple is Pythagorean when nothing wraps; the brick has ascending edges and G = X^2 + Y^2 + Z^2, which is c^2 times `check` |
| Utils.DataCheck | utils.cs:193-216 | Returns true exactly when `check` or `check2` ends in 1, 5 or 9 and is a perfect square; `valid` becomes true when either ends in 1, 5 or 9; nothing else changes |
| Utils.NewDataSet1 | utils.cs:238-253 | `DataSet1(m, n)`: `check` is the degree-8 polynomial in m and n, `check` - `sums` = n^8, n^8 is 0 only for n = 0, and `check` is never negative, so `DataCheck` may take its square root |
| Utils.Check1NonNeg | utils.cs:243-252 | The `DataSet1` polynomial is at least 16 m^4 n^4, so never negative |
| Utils.QuarticForm | utils.cs:243-252 | With u = m^2 and v = n^2 the polynomial is (u^2 + 34uv + v^2)^2 - 1280 u^2 v^2 |
| Utils.DataCheck1 | utils.cs:255-264 | Fails (division by zero) exactly when n^8 = 0; otherwise true exactly when n^8 divides `sums` and `check` is a perfect square; `valid` set exactly when n^8 divides `sums` |
| Utils.TruncDiv | utils.cs:257-258 | BigInteger division truncates toward zero for either sign of divisor: q * y has the sign of x, is no larger in magnitude, and is less than abs(y) away from x; x == q * y exactly when y divides x |
| Codec.LeBytes | utils.cs:100-110 | `BitConverter.GetBytes`: exactly n little-endian bytes |
| Codec.FromLe | utils.cs:113-119 | `ReadInt64` cast to UInt64: the value of n little-endian bytes, below 256^n |
| Codec.FromLeBytes | utils.cs:100-119 | Reading back the bytes written for a value below 256^n gives the value |
| Codec.FieldRoundTrip | utils.cs:100-119 | Every UInt64 field survives its 8-byte write and read |
| Codec.Encode | utils.cs:88-99 | `DataNode.Write` gives 32 bytes when C > 0 and 24 otherwise; `DataNode3.Write` always gives 32 |
| Codec.Decode | utils.cs:113-119 | `Read` yields UInt64 fields; `DataNode.Read` reads three fields, so C is 0 |
| Codec.DecodeEncode | utils.cs:77-119 | For a storable record (a pair for `DataNode`, any record for `DataNode3`), decoding its encoding gives it back, and the encoding has the record size |
| Codec.DecodeTripleAsPair | utils.cs:77-119 | A `DataNode` with C > 0 is written with four fields but read back with three: the result is (A, B, 0, C), so G is lost |
| Codec.EncodeAll | utils.cs:77-110 | A run of records encodes to a whole number of 8-byte fields |
| Codec.DecodeAllEncodeAll | utils.cs:77-119 | A file of storable records decodes to the same records in the same order |
| Codec.WriteU64 | utils.cs:100-110 | Writes the 8 little-endian bytes of the value at `start`, changes no other cell and returns `start + 8` |
| Codec.WriteNode | utils.cs:88-99 | Writes the record's encoding at `start`, changes no other cell and returns the index after it |
| Codec.RunReader.constructor | DataList.cs:156-160 | A reader over a file starts at its beginning |
| Codec.RunReader.Reset | DataList.cs:163-173 | Reopening moves the reader back to the start of the file |
| Codec.RunReader.ReadNode | DataList.cs:190-202 | Returns the next whole record and consumes it, or None (the null) exactly when no whole record is left, a truncated tail included |
| KWay.SortedUnion | DataList.cs:64-129 | What one `Output` writes: strictly ascending, holding exactly the records of all buffers |
| KWay.InsertAll | DataList.cs:44-55 | Adding records one by one to a sorted set leaves it sorted, holding the old and the new records |
| KWay.Seed | DataList.cs:64-81 | The seeding loop queues each buffer's first record not already queued, at most one per buffer; the merge invariant holds with nothing written; `count` is exactly `SeedCount`, the total size less the records skipped as already queued, and at most the total size |
| KWay.FirstFresh | DataList.cs:68-79 | The index where a buffer's enumerator stops: every earlier record is already queued, and the record there, if any, is not |
| KWay.FirstFreshIs | DataList.cs:68-79 | Any index with those two properties is `FirstFresh`, so the stopping point is unique |
| KWay.SeedOne | DataList.cs:66-80 | The inner seeding loop for one buffer: skips exactly the already queued prefix, queues the first fresh record, and leaves queue and count as `SeedTurn` says |
| KWay.SkipDuplicates | DataList.cs:101-116 | Advances a buffer's enumerator past records already queued; the survivor is not queued; every record passed over is queued; the count of skips matches |
| KWay.Advance | DataList.cs:97-121 | One round of the merge loop writes the least queued record and keeps the merge invariant with a smaller `count` |
| KWay.MergeStep | DataList.cs:97-121 | The step `Advance` takes keeps the invariant: written records ascending and below the queue, one queue entry per live buffer at its cursor, everything passed over already written or queued |
| KWay.MergeDone | DataList.cs:95-129 | When `count` reaches 0 the records written are exactly the sorted union of the buffers, each once |
| RunBuffer.Aligned | DataList.cs:123-128 | Before each write the index is 8-aligned and below `Max_Binary_Data_Length`, so a record of at most 32 bytes fits in the buffer of size Max + 24 |
| RunBuffer.RunFileReadsBack | DataList.cs:123-135 | The bytes of a run file decode to the sorted union of the buffers, which is ascending |
| RunBuffer.Sorted3IsSorted | Collection3DataList.cs:28-54 | With every G positive, ascending by `DataNode3.CompareTo` is ascending by `DataNode.CompareTo` |
| RunBuffer.Spill.constructor | DataList.cs:16-26 | The static counters start at 0 with the write buffer of size Max + 24 |
| RunBuffer.Spill.InitStaticData | DataList.cs:32-37 | Sets the file size and thread count from the settings and changes no other static |
| RunBuffer.Spill.Emit | DataList.cs:123-128 | Appends one record to the buffer and flushes the buffer to the file once it reaches Max: the file followed by the buffer always equals the encoding of the records written so far |
| RunBuffer.Spill.MergeRun | DataList.cs:91-135 | The merge loop and final flush produce exactly the encoded sorted union of the buffers, and leave the write index at 0 |
| RunBuffer.Spill.WriteRun | DataList.cs:83-137 | Bumps `_fileIndex`; adds the seeded count (exactly `SeedCount`) to `_totalCount` modulo 2^64; fails exactly when the run file already exists, and otherwise creates it holding the encoded sorted union; with no run file numbered above `_fileIndex` it succeeds and keeps that so |
| RunBuffer.Spill.CreateRun | DataList.cs:87-135 | `FileMode.CreateNew` and the merge: fails exactly when the file exists, leaving the directory unchanged; otherwise the file holds the encoded sorted union |
| RunBuffer.DataList.constructor | DataList.cs:28-30 | A new buffer is empty |
| RunBuffer.DataList.Add | DataList.cs:44-55 | Set semantics (a duplicate leaves the set unchanged) while the pending count always rises by exactly one |
| RunBuffer.DataList.AddPair | DataList.cs:39-42 | Adds the pair with its edges in ascending order; the pending count rises by one |
| RunBuffer.Output | DataList.cs:57-146 | `_fileIndex` rises by one; fails exactly when that file exists, changing neither the directory, the buffers nor the pending count; otherwise the file holds the encoded sorted union of all buffers, every buffer is empty and the pending count is 0; `_totalCount` grows by `SeedCount` of the buffers modulo 2^64; with no run file numbered above `_fileIndex` it cannot fail; the file size and thread count are unchanged |
| RunBuffer.ClearAll | DataList.cs:139-142 | Every buffer is empty afterwards |
| RunBuffer.DataList3.constructor | Collection3DataList.cs:119-121 | A new buffer is empty |
| RunBuffer.DataList3.Add | Collection3DataList.cs:135-149 | Set semantics, kept ascending by `DataNode3.CompareTo`; `DataList._readyToWriteCount` rises by one |
| RunBuffer.DataList3.AddTriple | Collection3DataList.cs:130-133 | Adds the triple with its edges ascending as a permutation of the input; the pending count rises by one |
| RunBuffer.Output3 | Collection3DataList.cs:151-240 | `DataList3.Output`: as `Output` with 32-byte records; it resets `DataList`'s pending count rather than its own, leaves its own unchanged, and touches no other field of `DataList`'s statics |
| RunBuffer.ClearAll3 | Collection3DataList.cs:233-236 | Every buffer is empty afterwards |
| Merger.SkipFrom | DataMerger.cs:37-41 | Reads past records already queued: the survivor is not queued, every record passed over is queued, and only the reader named moves |
| Merger.Push | DataMerger.cs:43-46 | Queues the survivor, if any, under the reader given; the queue stays sorted |
| Merger.ReadAt | DataMerger.cs:35 | A reader returns its next record and moves on, or returns None at the end of its file |
| Merger.NextRead | DataMerger.cs:35-41 | The head reader's next record not yet queued, or None when that reader runs out; only that reader moves |
| Merger.Next | DataMerger.cs:29-52 | `GetNextDataNode`: None exactly on an empty queue; otherwise the least queued key; the queue never grows and the records still to come strictly shrink |
| Merger.Drain | DataMerger.cs:99-102 | What the drain loop writes: nothing exactly when the queue is empty |
| Merger.NextMerge | DataMerger.cs:29-52 | From a correctly started cursor (queue at the readers' cursors, ascending input), each call keeps it correct and returns records in strictly ascending order |
| Merger.DrainDone | DataMerger.cs:99-102 | A correctly started cursor that has run empty has returned the sorted union of all run files, each record once |
| Merger.InitFrom | DataMerger.cs:54-82 | `InitializeQueue` as written: the queue stays sorted, gains at most one entry per file, and each entry names one of the files |
| Merger.InitFromOnePerSource | DataMerger.cs:65-81 | No two queue entries name the same reader |
| Merger.InitShape | DataMerger.cs:60-81 | The initial queue holds at most one entry per run file and is empty when there are none |
| Merger.DataMerger.constructor | DataMerger.cs:18-23 | Readers at the start of each run file and an empty queue |
| Merger.DataMerger.ReadNode | DataMerger.cs:35 | One read of reader i, as `ReadAt` states |
| Merger.DataMerger.SkipQueued | DataMerger.cs:37-41 | The duplicate-skipping loop computes `SkipFrom` |
| Merger.DataMerger.GetNextDataNode | DataMerger.cs:29-52 | Computes `Next`; the record returned is the first of those still to come, and None leaves the queue empty |
| Merger.DataMerger.InitializeQueue | DataMerger.cs:54-82 | Builds the queue `InitFrom` describes |
| Merger.DataMerger.InitRounds | DataMerger.cs:65-81 | The loop over the files computes `InitFrom` from the current state |
| Merger.DataMerger.InitRound | DataMerger.cs:66-80 | One file's round of that loop |
| Merger.DataMerger.Merge | DataMerger.cs:84-107 | Writes nothing when the merged file exists; otherwise writes every record the cursor returns after `InitializeQueue`, and ends with an empty queue |
| Merger.DataMerger.WriteAll | DataMerger.cs:99-102 | The drain loop writes exactly what the cursor returns until the queue is empty |
| Merger.DataMerger.InitializeQueueFixed | DataMerger.cs:65-81 | With the replacement read from reader n itself, the cursor starts correctly |
| Merger.DataMerger.MergeFixed | DataMerger.cs:84-107 | With that seeding, the merged file holds every record of every run file exactly once, ascending |
| Merger.InitializeQueueLosesRecord | DataMerger.cs:71-79 | On runs [5, 7] and [5, 6] the queue as written makes the cursor return 5, 7, 7: a repeat, out of order, and the 6 lost |
| Merger.DropEq | DataMerger.cs:131-142 | Removes exactly the leading records equal to x: a suffix whose head differs from x |
| Merger.DropOnSorted | DataMerger.cs:131-142 | On strictly ascending files the read-past loops drop at most one record: none from the file just written from, the head of the other only when it equals the record written |
| Merger.TwoWaySorted | DataMerger.cs:115-169 | From two strictly ascending files, `MergeTwoFiles` writes a strictly ascending file holding the records of both |
| Merger.TwoWayIsUnion | DataMerger.cs:115-169 | On such files it writes the same records as the k-way merge of the two |
| Merger.ReadFrom | DataMerger.cs:124-125 | A read returns the next record or None at end of file, and the record in hand plus the rest is what was unread |
| Merger.SkipEqual | DataMerger.cs:131-142 | The read-past loops drop exactly the leading records equal to the one just written |
| Merger.WriteSmaller | DataMerger.cs:128-149 | One round writes the smaller head and leaves the merge of the rests to do; the unread total shrinks |
| Merger.MergeHeads | DataMerger.cs:126-150 | The first loop stops when one file runs out, having written a prefix of the merge |
| Merger.CopyRest | DataMerger.cs:152-162 | The closing loops copy the record in hand and every one after it |
| Merger.MergeTwoFiles | DataMerger.cs:115-169 | Writes exactly the two-way merge `TwoWay` of the two files |
| Finder.KeyListRest | Finder.cs:54-89 | After a call, what is left of the stream is a suffix of it |
| Finder.KeyListEmpty | Finder.cs:63-81 | An empty set is returned only when the stream has run out |
| Finder.KeyListShape | Finder.cs:63-78 | A set returned is ascending and drawn from the stream; all its records share one G of at least `_low`; it has at least `minCount` records; the next record has another G |
| Finder.KeyListCounts | Finder.cs:59-78 | Every record read is either in the set returned or counted as skipped |
| Finder.KeyLists | Finder.cs:36-53 | `GetNextKeyDataListGroup` collects exactly as many groups as it makes calls |
| Finder.KeyListsTail | Finder.cs:36-53 | Groups come out in stream order; once one is empty, the stream is exhausted and every later group is empty |
| Finder.Probe | Finder.cs:366-395 | A hit is an index in the range whose C^2 or D^2 equals A^2 + B^2 |
| Finder.ProbeComplete | Finder.cs:369-394 | On a group with short-edge squares rising and long-edge squares falling, a miss means no index in the range matches |
| Finder.PairsSound | Finder.cs:308-397 | Every report of the j-loop is sound: its indices are in range and in order; A^2 + B^2 is C^2 or D^2; A and B are not both odd; A and B are within their bounds |
| Finder.PairsOrdered | Finder.cs:308-397 | The j-loop reports with strictly increasing j, so each pair yields at most one report |
| Finder.RowsSound | Finder.cs:293-398 | Every report of the i-loop is sound |
| Finder.RowsOrdered | Finder.cs:293-398 | Reports come in strictly increasing (i, j) order: at most one per pair |
| Finder.PairsComplete | Finder.cs:308-397 | On an ordered group, a pair the j-loop reaches that is searched and has a match after j is reported |
| Finder.RowsComplete | Finder.cs:293-398 | A pair that both loops reach, that is not two odd edges, and that has a match after j is reported |
| Finder.TestGroupFinds | Finder.cs:293-395 | On the G = 271 test group, with its bounds, the search reports exactly A = 44, B = 117, C = 125, D = 240 |
| Finder.Reports | Finder.cs:243-253 | An empty group reports nothing |
| Finder.Tabulate | Finder.cs:261-273 | Fills the tables: the squares of both edges, wrapped to 64 bits, and their bounds |
| Finder.Finder.constructor | Finder.cs:26-34 | Opens the merge cursor, initialises its queue and reads the first record; the stream to come is the cursor's output |
| Finder.Finder.TakeGroup | Finder.cs:65-71 | Takes the maximal run of records with the G of `_previous` as a sorted set and leaves `_previous` on the record after it |
| Finder.Finder.GetNextKeyDataList | Finder.cs:54-89 | Computes `KeyList` on the stream: the set, the skipped count and the stream left |
| Finder.Finder.GetNextKeyDataListGroup | Finder.cs:36-53 | 1000 calls of `GetNextKeyDataList` with the skipped counts summed |
| Finder.Finder.CheckDataListGroup | Finder.cs:207-214 | Appends the reports of every group in turn and counts them |
| Finder.Finder.CheckDataListA | Finder.cs:243-398 | Appends exactly the reports `Reports` gives for the group, and counts them |
| Finder.Finder.CheckRows | Finder.cs:293-398 | The i-loop appends exactly the reports of `Rows` |
| Finder.Finder.CheckPairs | Finder.cs:308-397 | The j-loop of row i appends exactly the reports of `Pairs` |
| Finder.Finder.PairRound | Finder.cs:310-395 | One j: passes over two odd edges, stops at a B not below the bound, or searches and reports |
| Finder.Finder.SearchPair | Finder.cs:366-395 | The binary search appends the report of `Probe`'s result, at most one |
| Generator.TableIsListedPairs | PPT_Formula_m_n.cs:31-43 | The digit table accepts exactly the listed digit pairs and their mirror images |
| Generator.TableSymmetric | PPT_Formula_m_n.cs:31-43 | The table is symmetric in the two legs |
| Generator.TableRespectsSquares | PPT_Formula_m_n.cs:31-43 | Both digits of every accepted pair end a square, and so does their sum |
| Generator.LastDigitOfSquare | PPT_Formula_m_n.cs:31-43 | The last digit of every square is 0, 1, 4, 5, 6 or 9, the digits the table is built from |
| Generator.WrappedDigit | PPT_Formula_m_n.cs:279-283 | Once X^2 passes 64 bits, the digit the generator reads is not the last digit of X^2 |
| Generator.Digit64 | PPT_Formula_m_n.cs:279-283 | The last digit of a UInt64 square, computed after the 64-bit wrap, is a decimal digit |
| Generator.CheckEdge | PPT_Formula_m_n.cs:74-86 | An edge passes exactly when it reaches `Min_Even` and, if odd, also `Min_Odd` (`&&` binds tighter than `\|\|`) |
| Generator.CheckEdgeOf | PPT_Formula_m_n.cs:68-73 | The one-argument overload takes the parity from the low bit; it demands `Min_Odd` of odd and `Min_Even` of even edges when `Min_Even <= Min_Odd` |
| Generator.Pythagorean | PPT_Formula_m_n.cs:239-263 | k(m^2 - n^2), 2kmn, k(m^2 + n^2) is a Pythagorean triple |
| Generator.StartN | PPT_Formula_m_n.cs:235 | The first n is `1 + (m & 1)` |
| Generator.OtherParity | PPT_Formula_m_n.cs:235 | Starting there and stepping by two visits exactly the n >= 1 of the other parity |
| Generator.KLoopSound | PPT_Formula_m_n.cs:269-314 | Every candidate the k loop adds has odd k at most the start, k(m^2 + n^2) above the minimum and a passing verdict |
| Generator.KLoopComplete | PPT_Formula_m_n.cs:269-314 | The k loop adds every such candidate |
| Generator.NLoopSound | PPT_Formula_m_n.cs:235-315 | Every candidate of the n loop has an n of the step parity below m, with its k loop's properties |
| Generator.NLoopComplete | PPT_Formula_m_n.cs:235-315 | The n loop adds every such candidate |
| Generator.MLoopSound | PPT_Formula_m_n.cs:228-316 | Every candidate a thread adds has all the properties |
| Generator.MLoopComplete | PPT_Formula_m_n.cs:228-316 | A thread adds every candidate with the properties |
| Generator.MLoopExact | PPT_Formula_m_n.cs:228-316 | A thread hands over exactly the candidates with: m in range; n of the other parity below m; odd k; hypotenuse base and k not multiples of 3; minimum < z <= maximum; a passing verdict |
| Generator.ThreadTriples | PPT_Formula_m_n.cs:267-297 | Every triple handed over is Pythagorean, has minimum < z <= maximum, odd k not a multiple of 3 and hypotenuse base not a multiple of 3, passes both edge checks, and is accepted by the table on wrapped squares |
| Generator.ProductsFit | PPT_Formula_m_n.cs:237-241 | Under `Valid`, m^2, n^2, m^2 + n^2 and 2mn fit in 64 bits |
| Generator.LegsWithin | PPT_Formula_m_n.cs:261-263 | Within the maximum, both legs and the hypotenuse of every k fit in 64 bits |
| Generator.FlushIfDue | PPT_Formula_m_n.cs:287-296 | When the pending count has reached the file size, every buffer is spilled to the next run file (which, with no run file ahead, always succeeds) and the count reset; otherwise nothing changes |
| Generator.AddCandidate | PPT_Formula_m_n.cs:287-297 | Flush when due (the next run file is then written and the pending count is 1 after the add), then the pair is in the thread's buffer with its edges ascending |
| Generator.Tally.constructor | PPT_Formula_m_n.cs:45 | `_skipped` starts at 0 |
| Generator.PPTFormula.constructor | PPT_Formula_m_n.cs:58-65 | Stores the bounds, their integer square roots and the edge minima |
| Generator.NewFormula | PPT_Formula_m_n.cs:52-66 | Fails exactly for a lower bound below 2; otherwise `_high` is one above the square root, and for a maximum below 2^62 the generator is `Valid` |
| Generator.PPTFormula.FillSquares | PPT_Formula_m_n.cs:135-139 | `_squares[i] == (i + 1)^2` for every i below `_high` |
| Generator.PPTFormula.GeneratePTThread | PPT_Formula_m_n.cs:221-317 | Hands the buffers exactly the candidates `MLoop` lists, m from `Low` to the smaller of `High` and `_high`, and adds to `_skipped` exactly the table's rejections |
| Generator.PPTFormula.NRun | PPT_Formula_m_n.cs:235-315 | The n loop for one m produces exactly the candidates and skips of `NLoop` |
| Generator.PPTFormula.NRound | PPT_Formula_m_n.cs:237-268 | One n: the two early exits end the loop; otherwise the k loop runs from the largest odd k within the maximum |
| Generator.PPTFormula.KRun | PPT_Formula_m_n.cs:269-314 | The k loop, with its running products, produces exactly the candidates and skips of `KLoop` |
| Generator.PPTFormula.KRound | PPT_Formula_m_n.cs:272-302 | One k: the filters, then the add or one more skip |
| Generator.PPTFormula.GenerateTestData | PPT_Formula_m_n.cs:319-348 | Two spills: the first run file holds the eight listed records and the second the four further ones; when the first run file exists it fails at once, with one `_fileIndex` bump and the directory unchanged; when the second exists it fails after the first spill; on success `_fileIndex` rose by two and it returns `_totalCount` |
| Generator.AddFirstBatch | PPT_Formula_m_n.cs:325-334 | The first eight adds leave the two buffers holding exactly the first listed batch |
| Generator.SpillFirstBatch | PPT_Formula_m_n.cs:321-336 | Two new buffers, the first eight adds and the first `Output` |
| Generator.AddSecondBatch | PPT_Formula_m_n.cs:338-342 | The four further adds put exactly their two records into each buffer |
| Generator.SpillSecondBatch | PPT_Formula_m_n.cs:338-344 | The four further adds and the second `Output` |
| Generator.FirstBatchListed | PPT_Formula_m_n.cs:325-334 | The first batch's buffers are determined by their records |
| Generator.TestDataGroup | PPT_Formula_m_n.cs:325-342 | The G = 271 records over both run files are the five-record group the finder searches |
| Generator.SearchAsWritten | PPT_Formula_m_n.cs:391-407 | Any index the search returns holds the value |
| Generator.FindValue | PPT_Formula_m_n.cs:385-410 | Computes the search as written; a non-negative result is an index holding the value |
| Generator.FindValueMissesFirst | PPT_Formula_m_n.cs:405 | On [1, 2, 3] the search as written reports 1 as absent |
| Generator.FindValueFixed | PPT_Formula_m_n.cs:385-410 | With `high = mid`, on an ascending array the result is -1 exactly when the value is absent, and otherwise an index holding it |
| Bricks.NPairsExact | EulerBrick.cs:132 | The n loop from n0 visits exactly the n with n0 <= n < m and n - n0 even |
| Bricks.NPairsCount | EulerBrick.cs:132 | It makes (m - n0 + 1) / 2 visits |
| Bricks.RowExact | EulerBrick.cs:132 | For one m the loop visits exactly the n in [1, m) of the other parity |
| Bricks.VisitsExact | EulerBrick.cs:123-132 | A thread visits exactly the (m, n) with m in [from, to] and n in [1, m) of the other parity |
| Bricks.VisitsStep | EulerBrick.cs:125-132 | Each m adds m / 2 visits |
| Bricks.ChampionIsBest | EulerBrick.cs:148-157 | The best candidate never loses check, beats every valid candidate visited, and is either the old one or a valid visited candidate |
| Bricks.BricksExact | EulerBrick.cs:174-197 | A brick is reported exactly when low <= k < j < i < high, all three face sums are perfect squares, and G = i^2 + j^2 + k^2 |
| Bricks.BricksNone | EulerBrick.cs:177-181 | Fewer than three edges in range report nothing |
| Bricks.BricksAscending | EulerBrick.cs:177-189 | Bricks are reported in lexicographic (i, j, k) order |
| Bricks.EulerBrick.constructor | EulerBrick.cs:31-37 | Counters at 0 and a best candidate with check 0 |
| Bricks.EulerBrick.SearchEulerBrickThread | EulerBrick.cs:118-172 | Visits exactly the pairs of `Visits(from, min(High, _high))` in order; the search count grows by the visits; the found count grows by the candidates `DataCheck` accepts; the best candidate is the champion of the visits |
| Bricks.EulerBrick.SearchRow | EulerBrick.cs:132-170 | The same for the n loop of one m |
| Bricks.EulerBrick.Visit | EulerBrick.cs:134-160 | One (m, n): the search count grows by one; the found count grows by one exactly when `DataCheck` accepts; the best candidate is replaced only by a valid one with a strictly larger check |
| Bricks.EulerBrick.GenerateAllEulerBricks | EulerBrick.cs:174-197 | Reports exactly `Bricks(low, high)` and returns their number |
| Bricks.JRow | EulerBrick.cs:179-193 | The j loop for one i reports exactly the bricks with that i |
| Bricks.KRow | EulerBrick.cs:181-192 | The k loop for one (i, j) reports exactly the bricks with that i and j |
| Bricks.Faces | EulerBrick.cs:183-189 | True exactly when all three face sums, on UInt64 squares, are perfect squares; then G is their sum |

## Left out

- Thread plumbing is not modelled: the polling thread pools of `GeneratePT_mn2` (PPT_Formula_m_n.cs:130-219), `Finder.Check` (Finder.cs:402-506) and `SeachEulerBrick` (EulerBrick.cs:39-116), and every `lock`, `Interlocked` and `Thread.Sleep`. Each thread body is modelled as run alone.
- `Generate_all_PT` (PPT_Formula_m_n.cs:88-120) is not modelled. It only checks for existing run files and dispatches to `GenerateTestData` or `GeneratePT_mn2`.
- File system, configuration and console are not modelled:
  - the file system is the `Directory` map, and a file that already exists is the `Err` of `FileMode.CreateNew`;
  - `AppSettings` values are parameters;
  - `Console`, `Utils.Output`, `Console.ReadLine` and every `ToString` are left out;
  - the finder's output lines are the `report` sequence.
- Floating point is left out: `SQRT_3 * G`, `SQRT_2 * x` and the constructor's `Math.Sqrt` are integer parameters. `SQRT_23` (0 through integer division) and `CheckDataListA_by_LongestSide` are left out.
- `CheckDataListAByUsingSquare`, `GenerateSquaredList`, `GeneratePT_enumG`, Detector.cs, Program.cs, Tests.cs and the commented-out `BigUInt` are not part of this model.
- Utils.IsPerfectSquare: the seed derived from `BigInteger.Log(N, 2)` is replaced by a parameter. The parameter must be a power of four above N / 4, which `StartBit` computes.
- Codec.Encode: requires every field to fit in 64 bits. The source's `(UInt64)` cast of a larger BigInteger throws, and that exception is not modelled.
- RunBuffer.Output: requires every buffered field to fit in 64 bits, for the same reason.
- Generator.FlushIfDue: requires no run file numbered above `_fileIndex` (`NoRunFileAhead`). `Generate_all_PT` (PPT_Formula_m_n.cs:95-101) returns before generating when any run file exists, so generation always starts this way; the `IOException` of an existing run file on the generating path is therefore not modelled.
- Generator.AddCandidate: requires `NoRunFileAhead` through `Sink`, for the same reason.
- Generator.PPTFormula.GeneratePTThread: requires `NoRunFileAhead` through `Sink`, for the same reason.
- RunBuffer.DataList3.Add: requires G > 0. With G = 0 `DataNode3.CompareTo` is not a consistent order (`Records.CompareTo3NotTransitive`), so `SortedSet` behaviour is undefined. The source's only use passes G >= 1.
- Generator.PPTFormula.GeneratePTThread: requires `Valid`, i.e. a maximum below 2^62 with `_high` one above its integer square root. Then no UInt64 product of the generator wraps (`ProductsFit`, `LegsWithin`). Wrap-around for larger bounds is not modelled, except in the digit lookup (`Digit64`).
- Generator.PPTFormula.KRound: requires the three edges to fit in 64 bits, which `LegsWithin` supplies.
- Bricks.EulerBrick.SearchEulerBrickThread: when `to` is 2^64 - 1 the source's `m++` wraps and the loop never ends; the model stops after `to`.
- Counters are unbounded integers; their wrap-around is not modelled:
  - the Int64 `_totalSearchCount` and `_totalPerfectCuboidFound`;
  - the int `_skipped`, `_foundTarget`, `_readyToWriteCount`, `_fileIndex` and the seeding `count`.
  - `_totalCount` is modelled modulo 2^64.
- `GenerateAllEulerBricks` keeps the face test and the reported bricks as ghost values. The returned count and the loops are real.
- The default `DataSet` holds null records; the model's `Blank` uses all-zero records instead. Only its `check` (0) and `valid` (false) are ever read.
- `DataMerger` opens run files by index 1..count, not by the names it listed. The model indexes the decoded runs by position, which agrees when the files are numbered without gaps.
- The run readers of the merge cursor see decoded records. The byte-level read, including the truncated tail, is `Codec.RunReader.ReadNode`.
- The empty `lock (_lock);` at the start of `DataList.Add` and `DataList3.Add` only waits; it has no sequential effect.
- `GetNextKeyDataList`'s exception handler is not modelled; the model raises no exception there.
- `FindValue` is modelled although its only caller is commented out.

## Findings

| source | as written | input that shows it | evidently intended | confidence | as-written member | corrected member |
|---|---|---|---|---|---|---|
| DataMerger.cs:74 | When file n's first record is already queued, the replacement is read from the reader at queue index 0 but queued under reader n | Run files [5, 7] and [5, 6] (by G): the cursor returns 5, 7, 7, repeating 7 and losing 6 | Read the replacement from reader n itself, so the merge returns every record once, ascending | not executed | Merger.InitializeQueueLosesRecord | Merger.DataMerger.MergeFixed |
| PPT_Formula_m_n.cs:405 | `high = mid - 1` although `high` is exclusive, so the element at `mid - 1` is never examined | [1, 2, 3], value 1: returns -1 | `high = mid`: on an ascending array, -1 exactly when the value is absent | not executed | Generator.FindValueMissesFirst | Generator.FindValueFixed |
