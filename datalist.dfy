/**
 * `DataList` (DataList.cs) and `DataList3` (Collection3DataList.cs): in-memory
 * sorted sets of records that are merged and spilled to numbered run files.
 * The static fields of each class are one `Spill` object.
 */
module RunBuffer {
  import opened Records
  import opened Wrappers
  import opened Codec
  import opened KWay
  import Utils

  const SizeOfDataNode: nat := 24
  /** `Size_Of_DataNode << 20`. */
  const MaxBinaryDataLength: nat := 24 * 0x10_0000

  /** Bytes in `array[..n]` after writing `chunk` at `start` are the old prefix followed by `chunk`. */
  lemma {:induction false} SplicedPrefix(after: seq<Byte>, before: seq<Byte>, start: nat, chunk: seq<Byte>)
    requires Spliced(after, before, start, chunk)
    ensures after[..start + |chunk|] == before[..start] + chunk
  {
  }

  /** A record written at an 8-byte boundary below the flush mark fits in the buffer and ends on a boundary. */
  lemma {:induction false} Aligned(start: int, len: int)
    requires 0 <= start < MaxBinaryDataLength && start % 8 == 0 && len % 8 == 0 && 0 <= len <= 32
    ensures start + len <= MaxBinaryDataLength + SizeOfDataNode && (start + len) % 8 == 0
  {
    var q, r := start / 8, len / 8;
    assert start == 8 * q && len == 8 * r;
    assert start + len == 8 * (q + r);
  }

  predicate BufsFit(bufs: seq<seq<Node>>) { forall i :: 0 <= i < |bufs| ==> AllFit(bufs[i]) }

  lemma {:induction false} UnionFits(bufs: seq<seq<Node>>, x: Node)
    requires BufsFit(bufs) && x in UnionOf(bufs)
    ensures Fits64(x)
  {
    var i :| 0 <= i < |bufs| && x in bufs[i];
  }

  lemma {:induction false} SortedUnionFits(bufs: seq<seq<Node>>)
    requires BufsFit(bufs)
    ensures AllFit(SortedUnion(bufs))
  {
    forall x | x in SortedUnion(bufs) ensures Fits64(x) {
      assert x in Elems(SortedUnion(bufs));
      UnionFits(bufs, x);
    }
  }

  /** The bytes of the run file `Output` writes for these buffers. */
  function RunFile(layout: Layout, bufs: seq<seq<Node>>): seq<Byte>
    requires BufsFit(bufs)
  {
    SortedUnionFits(bufs);
    EncodeAll(layout, SortedUnion(bufs))
  }

  /** Reading a run file back yields every record of the buffers once, in ascending order. */
  lemma {:induction false} RunFileReadsBack(layout: Layout, bufs: seq<seq<Node>>)
    requires BufsFit(bufs)
    requires forall i, x :: 0 <= i < |bufs| && x in bufs[i] ==> Storable(layout, x)
    ensures DecodeAll(layout, RunFile(layout, bufs)) == SortedUnion(bufs)
    ensures Sorted(DecodeAll(layout, RunFile(layout, bufs)))
  {
    SortedUnionFits(bufs);
    forall x | x in SortedUnion(bufs) ensures Storable(layout, x) {
      assert x in Elems(SortedUnion(bufs));
    }
    DecodeAllEncodeAll(layout, SortedUnion(bufs));
  }

  /**
   * The working directory's run files, by index. `DataList` and `DataList3`
   * both name their files with the same pattern, so they share one directory.
   */
  class Directory {
    var files: map<int, seq<Byte>>

    constructor (existing: map<int, seq<Byte>>)
      ensures files == existing
    {
      files := existing;
    }
  }

  /** The static state of `DataList` (layout of DataNode) or of `DataList3` (layout of DataNode3). */
  class Spill {
    const layout: Layout
    var readyToWriteCount: int
    var totalThreads: int
    var totalCount: int
    var fileIndex: int
    var countInFile: int
    const writeBuffer: array<Byte>
    var writeIndex: int
    /** Where the run files are created. */
    const dir: Directory

    predicate Valid()
      reads this
    {
      writeBuffer.Length == MaxBinaryDataLength + SizeOfDataNode && writeIndex == 0 && InU64(totalCount)
    }

    /**
     * No run file is numbered above `_fileIndex`, so the next `Output` can
     * create its file. `Generate_all_PT` returns early when any run file
     * exists, so generation starts in this state.
     */
    predicate NoRunFileAhead()
      reads this, dir
    {
      forall i :: i > fileIndex ==> i !in dir.files
    }

    /** The static initialisers, with the run files already present in the directory. */
    constructor (layout: Layout, dir: Directory)
      ensures Valid() && fresh(writeBuffer)
      ensures this.layout == layout && this.dir == dir
      ensures readyToWriteCount == 0 && totalCount == 0 && fileIndex == 0 && countInFile == 0 && totalThreads == 0
    {
      this.layout := layout;
      writeBuffer := new Byte[MaxBinaryDataLength + SizeOfDataNode];
      readyToWriteCount, totalThreads, totalCount, fileIndex, countInFile, writeIndex := 0, 0, 0, 0, 0, 0;
      this.dir := dir;
    }

    /** `InitStaticData`: the two configuration values, as read from the application settings. */
    method InitStaticData(countInFileSetting: int, threadsSetting: int)
      modifies this
      ensures countInFile == countInFileSetting && totalThreads == threadsSetting
      ensures readyToWriteCount == old(readyToWriteCount) && totalCount == old(totalCount)
      ensures fileIndex == old(fileIndex) && writeIndex == old(writeIndex)
    {
      countInFile := countInFileSetting;
      totalThreads := threadsSetting;
    }

    /**
     * Appends one record to the write buffer and flushes the buffer to the
     * file once it holds at least `Max_Binary_Data_Length` bytes.
     */
    method Emit(dn: Node, file: seq<Byte>, ghost emitted: seq<Node>) returns (file': seq<Byte>)
      requires writeBuffer.Length == MaxBinaryDataLength + SizeOfDataNode
      requires 0 <= writeIndex < MaxBinaryDataLength && writeIndex % 8 == 0
      requires AllFit(emitted) && Fits64(dn)
      requires file + writeBuffer[..writeIndex] == EncodeAll(layout, emitted)
      modifies this`writeIndex, writeBuffer
      ensures 0 <= writeIndex < MaxBinaryDataLength && writeIndex % 8 == 0
      ensures file' + writeBuffer[..writeIndex] == EncodeAll(layout, emitted + [dn])
    {
      ghost var before := writeBuffer[..];
      ghost var start := writeIndex;
      ghost var enc := Encode(layout, dn);
      Aligned(writeIndex, |enc|);
      writeIndex := WriteNode(layout, writeBuffer, writeIndex, dn);
      SplicedPrefix(writeBuffer[..], before, start, enc);
      EncodeAllSnoc(layout, emitted, dn);
      assert before[..start] == writeBuffer[..writeIndex][..start];
      ghost var pending := writeBuffer[..writeIndex];
      assert file + pending == (file + before[..start]) + enc;
      file' := file;
      if writeIndex >= MaxBinaryDataLength {
        file' := file + writeBuffer[..writeIndex];
        writeIndex := 0;
        assert file' + writeBuffer[..writeIndex] == file';
      }
    }

    /**
     * The merge loop of `Output`: repeatedly takes the least queued record,
     * advances its source past duplicates, and writes the record through the
     * write buffer. The bytes written are the sorted union of the buffers.
     */
    method MergeRun(bufs: seq<seq<Node>>, queue0: seq<Entry>, cur0: seq<nat>, count0: int) returns (file: seq<Byte>)
      requires MergeInv(bufs, queue0, cur0, count0, [])
      requires BufsFit(bufs)
      requires writeBuffer.Length == MaxBinaryDataLength + SizeOfDataNode
      modifies this`writeIndex, writeBuffer
      ensures writeIndex == 0
      ensures |SortedUnion(bufs)| <= count0
      ensures file == RunFile(layout, bufs)
    {
      var queue, cur, count := queue0, cur0, count0;
      writeIndex := 0;
      file := [];
      ghost var emitted: seq<Node> := [];
      while count > 0
        invariant MergeInv(bufs, queue, cur, count, emitted)
        invariant AllFit(emitted)
        invariant 0 <= writeIndex < MaxBinaryDataLength && writeIndex % 8 == 0
        invariant file + writeBuffer[..writeIndex] == EncodeAll(layout, emitted)
        invariant |emitted| + count <= count0
        decreases count
      {
        var dn;
        dn, queue, cur, count := Advance(bufs, queue, cur, count, emitted);
        UnionFits(bufs, dn);
        file := Emit(dn, file, emitted);
        emitted := emitted + [dn];
      }
      if writeIndex > 0 {
        file := file + writeBuffer[..writeIndex];
        writeIndex := 0;
      }
      MergeDone(bufs, queue, cur, emitted);
      SortedUnionFits(bufs);
    }

    /**
     * The body of `Output` between seeding and clearing: opens run file
     * `fileIndex + 1` with CreateNew (failing when it exists), merges the
     * buffers into it through the write buffer, and adds the seeded count to
     * `totalCount`.
     */
    method WriteRun(bufs: seq<seq<Node>>) returns (r: Result<()>, seeded: int)
      requires Valid() && SortedBufs(bufs) && BufsFit(bufs)
      modifies this, writeBuffer, dir
      ensures Valid()
      ensures seeded == SeedCount(bufs) && seeded <= TotalLen(bufs)
      ensures r.Ok? ==> |SortedUnion(bufs)| <= seeded
      ensures fileIndex == old(fileIndex) + 1
      ensures totalCount == (old(totalCount) + seeded) % U64
      ensures r.Err? <==> fileIndex in old(dir.files)
      ensures r.Err? ==> dir.files == old(dir.files)
      ensures r.Ok? ==> dir.files == old(dir.files)[fileIndex := RunFile(layout, bufs)]
      ensures old(NoRunFileAhead()) ==> r.Ok? && NoRunFileAhead()
      ensures readyToWriteCount == old(readyToWriteCount) && countInFile == old(countInFile)
      ensures totalThreads == old(totalThreads)
    {
      var queue, cur, count := Seed(bufs);
      seeded := count;
      fileIndex := fileIndex + 1;
      totalCount := (totalCount + count) % U64;
      r := CreateRun(bufs, queue, cur, count);
    }

    /**
     * `File.Open(..., FileMode.CreateNew)` for run `_fileIndex` and the merge
     * into it: fails when the file exists, and otherwise writes the sorted
     * union of the buffers.
     */
    method CreateRun(bufs: seq<seq<Node>>, queue: seq<Entry>, cur: seq<nat>, count: int) returns (r: Result<()>)
      requires Valid() && MergeInv(bufs, queue, cur, count, []) && BufsFit(bufs)
      modifies this`writeIndex, writeBuffer, dir
      ensures Valid()
      ensures r.Err? <==> fileIndex in old(dir.files)
      ensures r.Err? ==> dir.files == old(dir.files)
      ensures r.Ok? ==> dir.files == old(dir.files)[fileIndex := RunFile(layout, bufs)]
      ensures r.Ok? ==> |SortedUnion(bufs)| <= count
    {
      if fileIndex in dir.files {
        return Err("the run file already exists");
      }
      var file := MergeRun(bufs, queue, cur, count);
      dir.files := dir.files[fileIndex := file];
      return Ok(());
    }
  }

  /** `DataList`: one thread's sorted set of pair records. */
  class DataList {
    var nodes: seq<Node>

    predicate Valid()
      reads this
    {
      Sorted(nodes)
    }

    constructor ()
      ensures Valid() && nodes == []
    {
      nodes := [];
    }

    /** `Add(DataNode)`: set insertion; the shared counter is incremented even for a duplicate. */
    method Add(dn: Node, statics: Spill)
      requires Valid()
      modifies this, statics
      ensures Valid()
      ensures Elems(nodes) == old(Elems(nodes)) + {dn}
      ensures |nodes| == old(|nodes|) + (if dn in old(nodes) then 0 else 1)
      ensures statics.readyToWriteCount == old(statics.readyToWriteCount) + 1
      ensures unchanged(statics`totalCount, statics`fileIndex, statics`writeIndex, statics`countInFile, statics`totalThreads)
    {
      nodes := Insert(nodes, dn);
      statics.readyToWriteCount := statics.readyToWriteCount + 1;
    }

    /** `Add(key, pair, value)`: builds the pair record, then adds it. */
    method AddPair(key: int, pair: int, value: int, statics: Spill)
      requires Valid()
      modifies this, statics
      ensures Valid()
      ensures Elems(nodes) == old(Elems(nodes)) + {if key <= pair then Node(key, pair, 0, value) else Node(pair, key, 0, value)}
      ensures statics.readyToWriteCount == old(statics.readyToWriteCount) + 1
      ensures unchanged(statics`totalCount, statics`fileIndex, statics`writeIndex, statics`countInFile, statics`totalThreads)
    {
      var dn := Utils.NewPair(key, pair, value);
      Add(dn, statics);
    }
  }

  /** The in-order contents of each list. */
  function Contents(lists: seq<DataList>): (bufs: seq<seq<Node>>)
    reads lists
    ensures |bufs| == |lists| && forall i :: 0 <= i < |lists| ==> bufs[i] == lists[i].nodes
  {
    if lists == [] then [] else Contents(lists[..|lists| - 1]) + [lists[|lists| - 1].nodes]
  }

  /**
   * `DataList.Output`: merges every list into the next run file, then
   * empties the lists and resets the shared counter. When the file already
   * exists nothing is written or cleared.
   */
  method Output(lists: seq<DataList>, statics: Spill) returns (r: Result<()>, ghost seeded: int)
    requires statics.Valid() && statics.layout == NodeLayout
    requires forall i :: 0 <= i < |lists| ==> lists[i].Valid() && AllFit(lists[i].nodes)
    modifies statics, statics.writeBuffer, statics.dir, lists
    ensures statics.Valid()
    ensures statics.fileIndex == old(statics.fileIndex) + 1
    ensures r.Err? <==> statics.fileIndex in old(statics.dir.files)
    ensures r.Ok? ==> statics.dir.files == old(statics.dir.files)[statics.fileIndex := RunFile(NodeLayout, old(Contents(lists)))]
    ensures r.Ok? ==> statics.readyToWriteCount == 0 && forall i :: 0 <= i < |lists| ==> lists[i].nodes == []
    ensures r.Err? ==> statics.dir.files == old(statics.dir.files) && Contents(lists) == old(Contents(lists))
    ensures r.Err? ==> statics.readyToWriteCount == old(statics.readyToWriteCount)
    ensures old(statics.NoRunFileAhead()) ==> r.Ok? && statics.NoRunFileAhead()
    ensures seeded == SeedCount(old(Contents(lists))) && seeded <= TotalLen(old(Contents(lists)))
    ensures r.Ok? ==> |SortedUnion(old(Contents(lists)))| <= seeded
    ensures statics.totalCount == (old(statics.totalCount) + seeded) % U64
    ensures statics.countInFile == old(statics.countInFile) && statics.totalThreads == old(statics.totalThreads)
  {
    var bufs := Contents(lists);
    r, seeded := statics.WriteRun(bufs);
    if r.Err? {
      return;
    }
    ClearAll(lists);
    statics.readyToWriteCount := 0;
  }

  /** `dl._nodes.Clear()` for every list. */
  method ClearAll(lists: seq<DataList>)
    modifies lists
    ensures forall i :: 0 <= i < |lists| ==> lists[i].nodes == [] && lists[i].Valid()
  {
    for i := 0 to |lists|
      invariant forall k :: 0 <= k < i ==> lists[k].nodes == []
    {
      lists[i].nodes := [];
    }
  }

  // ---------------------------------------------------------------------
  // DataList3: the same spill scheme over DataNode3 records.

  /** Sortedness under `DataNode3.CompareTo`. */
  predicate Sorted3(s: seq<Node>)
  {
    forall i, j :: 0 <= i < j < |s| ==> s[i].g >= 0 && s[j].g >= 0 && CompareTo3(s[i], s[j]) < 0
  }

  predicate PositiveG(s: seq<Node>) { forall i :: 0 <= i < |s| ==> s[i].g > 0 }

  /**
   * With every G positive, the order of `SortedSet<DataNode3>` is the order
   * of `SortedSet<DataNode>`, so one merge serves both lists.
   */
  lemma {:induction false} Sorted3IsSorted(s: seq<Node>)
    requires PositiveG(s)
    ensures Sorted3(s) <==> Sorted(s)
  {
    if Sorted3(s) {
      forall i, j | 0 <= i < j < |s| ensures Less(s[i], s[j]) {
        assert CompareTo3(s[i], s[j]) < 0;
      }
    }
    if Sorted(s) {
      forall i, j | 0 <= i < j < |s| ensures CompareTo3(s[i], s[j]) < 0 {
        assert Less(s[i], s[j]);
      }
    }
  }

  /** `DataList3`: one thread's sorted set of triple records. */
  class DataList3 {
    var nodes: seq<Node>

    predicate Valid()
      reads this
    {
      Sorted(nodes) && PositiveG(nodes)
    }

    constructor ()
      ensures Valid() && nodes == []
    {
      nodes := [];
    }

    /**
     * `Add(DataNode3)`: set insertion. The counter incremented is the one of
     * `DataList`, not of `DataList3`.
     */
    method Add(dn: Node, listStatics: Spill)
      requires Valid() && dn.g > 0
      modifies this, listStatics
      ensures Valid() && Sorted3(nodes)
      ensures Elems(nodes) == old(Elems(nodes)) + {dn}
      ensures |nodes| == old(|nodes|) + (if dn in old(nodes) then 0 else 1)
      ensures listStatics.readyToWriteCount == old(listStatics.readyToWriteCount) + 1
      ensures unchanged(listStatics`totalCount, listStatics`fileIndex, listStatics`writeIndex, listStatics`countInFile, listStatics`totalThreads)
    {
      ghost var before := nodes;
      nodes := Insert(nodes, dn);
      forall i | 0 <= i < |nodes| ensures nodes[i].g > 0 {
        assert nodes[i] in Elems(nodes);
        if nodes[i] != dn {
          assert nodes[i] in Elems(before);
        }
      }
      Sorted3IsSorted(nodes);
      listStatics.readyToWriteCount := listStatics.readyToWriteCount + 1;
    }

    /** `Add(A, B, C, G)`: sorts the three edges ascending, then adds the record. */
    method AddTriple(x: int, y: int, z: int, g: int, listStatics: Spill)
      requires Valid() && g > 0
      modifies this, listStatics
      ensures Valid()
      ensures exists n :: n in nodes && n.g == g && n.a <= n.b <= n.c && Utils.Perm3(n.a, n.b, n.c, x, y, z)
      ensures |nodes| <= old(|nodes|) + 1
      ensures listStatics.readyToWriteCount == old(listStatics.readyToWriteCount) + 1
    {
      var dn := Utils.NewTriple(x, y, z, g);
      Add(dn, listStatics);
      assert dn in Elems(nodes);
    }
  }

  function Contents3(lists: seq<DataList3>): (bufs: seq<seq<Node>>)
    reads lists
    ensures |bufs| == |lists| && forall i :: 0 <= i < |lists| ==> bufs[i] == lists[i].nodes
  {
    if lists == [] then [] else Contents3(lists[..|lists| - 1]) + [lists[|lists| - 1].nodes]
  }

  /**
   * `DataList3.Output`: as `DataList.Output`, writing 32-byte records; the
   * counter it resets is the one of `DataList`.
   */
  method Output3(lists: seq<DataList3>, statics: Spill, listStatics: Spill) returns (r: Result<()>, ghost seeded: int)
    requires statics.Valid() && statics.layout == Node3Layout && statics != listStatics
    requires forall i :: 0 <= i < |lists| ==> lists[i].Valid() && AllFit(lists[i].nodes)
    modifies statics, statics.writeBuffer, statics.dir, listStatics`readyToWriteCount, lists
    ensures statics.Valid()
    ensures statics.fileIndex == old(statics.fileIndex) + 1
    ensures r.Err? <==> statics.fileIndex in old(statics.dir.files)
    ensures r.Ok? ==> statics.dir.files == old(statics.dir.files)[statics.fileIndex := RunFile(Node3Layout, old(Contents3(lists)))]
    ensures r.Ok? ==> listStatics.readyToWriteCount == 0 && forall i :: 0 <= i < |lists| ==> lists[i].nodes == []
    ensures r.Err? ==> listStatics.readyToWriteCount == old(listStatics.readyToWriteCount)
    ensures statics.readyToWriteCount == old(statics.readyToWriteCount)
    ensures r.Err? ==> statics.dir.files == old(statics.dir.files) && Contents3(lists) == old(Contents3(lists))
    ensures old(statics.NoRunFileAhead()) ==> r.Ok? && statics.NoRunFileAhead()
    ensures seeded == SeedCount(old(Contents3(lists))) && seeded <= TotalLen(old(Contents3(lists)))
    ensures r.Ok? ==> |SortedUnion(old(Contents3(lists)))| <= seeded
    ensures statics.totalCount == (old(statics.totalCount) + seeded) % U64
    ensures statics.countInFile == old(statics.countInFile) && statics.totalThreads == old(statics.totalThreads)
  {
    var bufs := Contents3(lists);
    r, seeded := statics.WriteRun(bufs);
    if r.Err? {
      return;
    }
    ClearAll3(lists);
    listStatics.readyToWriteCount := 0;
  }

  method ClearAll3(lists: seq<DataList3>)
    modifies lists
    ensures forall i :: 0 <= i < |lists| ==> lists[i].nodes == [] && lists[i].Valid()
  {
    for i := 0 to |lists|
      invariant forall k :: 0 <= k < i ==> lists[k].nodes == []
    {
      lists[i].nodes := [];
    }
  }
}
