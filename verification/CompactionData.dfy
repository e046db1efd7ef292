/**
 The data path of a compaction: rows stream through an optional duplicate
 filter into per-partition buffers, and every buffer that reaches the target
 size is sorted and written. Record batches are sequences of records; the hash
 of a record's key columns is taken to be the key itself.
 */
module CompactionData {
  import opened Wrappers

  type Partition = int
  type Key = int

  /** `key` stands for the columns compared, `rank` for the position in the table's sort order. */
  datatype Record = Record(key: Key, partition: Partition, rank: int, payload: int)

  type Batch = seq<Record>

  /** The records one flush wrote. */
  datatype Run = Run(partition: Partition, records: seq<Record>)

  function Concat(batches: seq<Batch>): seq<Record> {
    if batches == [] then [] else Concat(batches[..|batches| - 1]) + batches[|batches| - 1]
  }

  lemma {:induction false} ConcatNext(batches: seq<Batch>, n: nat)
    requires n < |batches|
    ensures Concat(batches[..n + 1]) == Concat(batches[..n]) + batches[n]
  {
    assert batches[..n + 1][..n] == batches[..n];
  }

  // ------------------------------------------------------------------
  // Removing duplicates
  // ------------------------------------------------------------------

  function Keys(records: seq<Record>): set<Key> {
    set r <- records :: r.key
  }

  /** The records whose key has not come up before, in order. */
  function Firsts(records: seq<Record>): seq<Record> {
    if records == [] then []
    else
      var before, last := records[..|records| - 1], records[|records| - 1];
      Firsts(before) + if last.key in Keys(before) then [] else [last]
  }

  /** `i` is the position of the first record with its key. */
  ghost predicate IsFirst(records: seq<Record>, i: nat)
    requires i < |records|
  {
    forall j :: 0 <= j < i ==> records[j].key != records[i].key
  }

  lemma {:induction false} FirstsKeys(records: seq<Record>)
    ensures Keys(Firsts(records)) == Keys(records)
    ensures forall i, j :: 0 <= i < j < |Firsts(records)| ==> Firsts(records)[i].key != Firsts(records)[j].key
  {
    if records != [] {
      var before, last := records[..|records| - 1], records[|records| - 1];
      FirstsKeys(before);
      assert records == before + [last];
      assert Keys(records) == Keys(before) + {last.key};
      if last.key !in Keys(before) {
        assert Keys(Firsts(before) + [last]) == Keys(Firsts(before)) + {last.key};
        forall i | 0 <= i < |Firsts(before)| ensures Firsts(before)[i].key != last.key {
          assert Firsts(before)[i].key in Keys(Firsts(before));
        }
      }
    }
  }

  lemma {:induction false} FirstsSound(records: seq<Record>, r: Record) returns (i: nat)
    requires r in Firsts(records)
    ensures i < |records| && records[i] == r && IsFirst(records, i)
  {
    i := |records| - 1;
    var before := records[..i];
    if r in Firsts(before) {
      i := FirstsSound(before, r);
    } else {
      forall j | 0 <= j < i ensures records[j].key != records[i].key {
        assert before[j] in before;
      }
    }
  }

  lemma {:induction false} FirstsComplete(records: seq<Record>, i: nat)
    requires i < |records| && IsFirst(records, i)
    ensures records[i] in Firsts(records)
  {
    var before := records[..|records| - 1];
    if i < |before| {
      FirstsComplete(before, i);
    }
  }

  /** What the filter keeps: exactly the first record of every key. */
  lemma {:induction false} FirstsMeaning(records: seq<Record>, r: Record)
    ensures r in Firsts(records) <==> exists i :: 0 <= i < |records| && records[i] == r && IsFirst(records, i)
  {
    if r in Firsts(records) {
      var i := FirstsSound(records, r);
    } else {
      forall i | 0 <= i < |records| && IsFirst(records, i) ensures records[i] != r {
        FirstsComplete(records, i);
      }
    }
  }

  class DeduplicatingAccumulator {
    var seen: set<Key>
    var duplicatesEliminated: nat
    ghost var input: seq<Record>
    ghost var output: seq<Record>

    /** However the input was cut into batches, the output is the first occurrence of every key. */
    ghost predicate Valid()
      reads this
    {
      && output == Firsts(input)
      && seen == Keys(input)
      && duplicatesEliminated + |output| == |input|
    }

    constructor ()
      ensures Valid() && input == [] && output == []
    {
      seen, duplicatesEliminated, input, output := {}, 0, [], [];
    }

    method AddBatch(batch: Batch) returns (filtered: Batch)
      requires Valid()
      modifies this
      ensures Valid() && input == old(input) + batch && output == old(output) + filtered
    {
      filtered := [];
      for i := 0 to |batch|
        invariant Valid() && input == old(input) + batch[..i] && output == old(output) + filtered
      {
        ghost var before := input;
        input := input + [batch[i]];
        assert input[..|before|] == before;
        assert Keys(input) == Keys(before) + {batch[i].key};
        assert input == old(input) + batch[..i + 1];
        if batch[i].key in seen {
          duplicatesEliminated := duplicatesEliminated + 1;
        } else {
          seen, filtered, output := seen + {batch[i].key}, filtered + [batch[i]], output + [batch[i]];
        }
      }
      assert batch[..|batch|] == batch;
    }
  }

  // ------------------------------------------------------------------
  // Sorting
  // ------------------------------------------------------------------

  ghost predicate Sorted(records: seq<Record>) {
    forall i, j :: 0 <= i < j < |records| ==> records[i].rank <= records[j].rank
  }

  function Insert(r: Record, records: seq<Record>): (result: seq<Record>)
    ensures multiset(result) == multiset{r} + multiset(records)
  {
    if records == [] || r.rank <= records[0].rank then [r] + records
    else
      assert records == [records[0]] + records[1..];
      [records[0]] + Insert(r, records[1..])
  }

  lemma {:induction false} InsertSorted(r: Record, records: seq<Record>)
    requires Sorted(records)
    ensures Sorted(Insert(r, records))
  {
    if records != [] && r.rank > records[0].rank {
      var rest := Insert(r, records[1..]);
      InsertSorted(r, records[1..]);
      forall i | 0 <= i < |rest| ensures records[0].rank <= rest[i].rank {
        assert rest[i] in multiset(rest);
        assert rest[i] == r || rest[i] in multiset(records[1..]);
      }
    }
  }

  function Sort(records: seq<Record>): (result: seq<Record>)
    ensures multiset(result) == multiset(records)
  {
    if records == [] then []
    else
      assert records == [records[0]] + records[1..];
      Insert(records[0], Sort(records[1..]))
  }

  lemma {:induction false} SortSorts(records: seq<Record>)
    ensures Sorted(Sort(records))
  {
    if records != [] {
      SortSorts(records[1..]);
      InsertSorted(records[0], Sort(records[1..]));
    }
  }

  // ------------------------------------------------------------------
  // The streaming writer
  // ------------------------------------------------------------------

  datatype Buffered = Buffered(batches: seq<Batch>, size: nat)

  function PartitionOf(partitioned: bool, r: Record): Partition {
    if partitioned then r.partition else 0
  }

  /** The records that belong to one partition, in order. */
  function Mine(partitioned: bool, p: Partition, records: seq<Record>): seq<Record> {
    if records == [] then []
    else if PartitionOf(partitioned, records[0]) == p then [records[0]] + Mine(partitioned, p, records[1..])
    else Mine(partitioned, p, records[1..])
  }

  lemma {:induction false} MineMember(partitioned: bool, p: Partition, records: seq<Record>)
    ensures forall r <- Mine(partitioned, p, records) :: PartitionOf(partitioned, r) == p
  {
    if records != [] {
      MineMember(partitioned, p, records[1..]);
    }
  }

  lemma {:induction false} MineConcat(partitioned: bool, p: Partition, a: seq<Record>, b: seq<Record>)
    ensures Mine(partitioned, p, a + b) == Mine(partitioned, p, a) + Mine(partitioned, p, b)
  {
    if a == [] {
      assert a + b == b;
    } else {
      assert (a + b)[1..] == a[1..] + b;
      MineConcat(partitioned, p, a[1..], b);
    }
  }

  lemma {:induction false} MineNone(partitioned: bool, p: Partition, records: seq<Record>)
    requires forall r <- records :: PartitionOf(partitioned, r) != p
    ensures Mine(partitioned, p, records) == []
  {
    if records != [] {
      MineNone(partitioned, p, records[1..]);
    }
  }

  lemma {:induction false} MineSome(partitioned: bool, p: Partition, records: seq<Record>)
    requires exists r <- records :: PartitionOf(partitioned, r) == p
    ensures Mine(partitioned, p, records) != []
  {
    if PartitionOf(partitioned, records[0]) != p {
      assert records == [records[0]] + records[1..];
      MineSome(partitioned, p, records[1..]);
    }
  }

  lemma {:induction false} MineAll(partitioned: bool, p: Partition, records: seq<Record>)
    requires forall r <- records :: PartitionOf(partitioned, r) == p
    ensures Mine(partitioned, p, records) == records
  {
    if records != [] {
      MineAll(partitioned, p, records[1..]);
    }
  }

  /** Everything written for one partition. */
  function RunRows(p: Partition, runs: seq<Run>): multiset<Record> {
    if runs == [] then multiset{}
    else
      var last := runs[|runs| - 1];
      RunRows(p, runs[..|runs| - 1]) + if last.partition == p then multiset(last.records) else multiset{}
  }

  lemma {:induction false} RunRowsNext(p: Partition, runs: seq<Run>, run: Run)
    ensures RunRows(p, runs + [run]) ==
            RunRows(p, runs) + if run.partition == p then multiset(run.records) else multiset{}
  {
    assert (runs + [run])[..|runs|] == runs;
  }

  /** Everything written. */
  function AllRows(runs: seq<Run>): multiset<Record> {
    if runs == [] then multiset{} else AllRows(runs[..|runs| - 1]) + multiset(runs[|runs| - 1].records)
  }

  function TotalSize(sizeOf: Batch -> nat, batches: seq<Batch>): nat {
    if batches == [] then 0 else TotalSize(sizeOf, batches[..|batches| - 1]) + sizeOf(batches[|batches| - 1])
  }

  ghost predicate OwnRows(partitioned: bool, p: Partition, records: seq<Record>) {
    forall r <- records :: PartitionOf(partitioned, r) == p
  }

  /** Every file holds rows of its own partition only, sorted if the table has a sort order. */
  ghost predicate RunsFit(partitioned: bool, sorts: bool, runs: seq<Run>) {
    forall run <- runs :: OwnRows(partitioned, run.partition, run.records) && (sorts ==> Sorted(run.records))
  }

  /** Sort and write `merged`. */
  method WriteRun(partitioned: bool, sorts: bool, p: Partition, merged: seq<Record>) returns (run: Run)
    requires OwnRows(partitioned, p, merged)
    ensures run.partition == p && multiset(run.records) == multiset(merged)
    ensures OwnRows(partitioned, p, run.records)
    ensures if sorts then Sorted(run.records) else run.records == merged
  {
    SortSorts(merged);
    run := Run(p, if sorts then Sort(merged) else merged);
    forall r | r in run.records ensures r in merged {
      assert r in multiset(run.records);
    }
  }

  function At(rows: map<Partition, seq<Record>>, p: Partition): seq<Record> {
    if p in rows then rows[p] else []
  }

  function Added(rows: map<Partition, seq<Record>>, p: Partition, more: seq<Record>): map<Partition, seq<Record>> {
    rows[p := At(rows, p) + more]
  }

  function SlotRows(slot: Option<Buffered>): seq<Record> {
    match slot case None => [] case Some(b) => Concat(b.batches)
  }

  /**
   What a partition took in, in order, is what was flushed followed by what is
   buffered, and the files hold exactly what was flushed.
   */
  ghost predicate Balanced(sizeOf: Batch -> nat, taken: seq<Record>, flushed: seq<Record>, slot: Option<Buffered>,
                           written: multiset<Record>)
  {
    && taken == flushed + SlotRows(slot)
    && written == multiset(flushed)
    && (slot.Some? ==> slot.value.size == TotalSize(sizeOf, slot.value.batches))
  }

  /** One more batch in a partition's buffer. */
  function Grown(sizeOf: Batch -> nat, slot: Option<Buffered>, batch: Batch): Buffered {
    match slot
    case None => Buffered([batch], sizeOf(batch))
    case Some(b) => Buffered(b.batches + [batch], b.size + sizeOf(batch))
  }

  lemma {:induction false} BufferKeepsBalance(sizeOf: Batch -> nat, taken: seq<Record>, flushed: seq<Record>,
                                              slot: Option<Buffered>, written: multiset<Record>, batch: Batch)
    requires Balanced(sizeOf, taken, flushed, slot, written)
    ensures Balanced(sizeOf, taken + batch, flushed, Some(Grown(sizeOf, slot, batch)), written)
  {
    var batches := if slot.Some? then slot.value.batches else [];
    assert (batches + [batch])[..|batches|] == batches;
    assert Concat(batches + [batch]) == SlotRows(slot) + batch;
    assert flushed + SlotRows(slot) + batch == flushed + (SlotRows(slot) + batch);
  }

  lemma {:induction false} FlushKeepsBalance(sizeOf: Batch -> nat, taken: seq<Record>, flushed: seq<Record>,
                                             slot: Option<Buffered>, written: multiset<Record>)
    requires Balanced(sizeOf, taken, flushed, slot, written)
    ensures Balanced(sizeOf, taken, flushed + SlotRows(slot), None, written + multiset(SlotRows(slot)))
  {
    assert taken + [] == taken;
  }

  /** The files of one partition, in the order they were written. */
  function FilesOf(p: Partition, runs: seq<Run>): seq<Run> {
    if runs == [] then []
    else FilesOf(p, runs[..|runs| - 1]) + if runs[|runs| - 1].partition == p then [runs[|runs| - 1]] else []
  }

  lemma {:induction false} FilesOfNext(p: Partition, runs: seq<Run>, run: Run)
    ensures FilesOf(p, runs + [run]) == FilesOf(p, runs) + if run.partition == p then [run] else []
  {
    assert (runs + [run])[..|runs|] == runs;
  }

  /** `next` is `runs` and one more file, holding exactly `records`. */
  ghost predicate OneMore(sorts: bool, runs: seq<Run>, next: seq<Run>, records: seq<Record>) {
    && |next| == |runs| + 1 && next[..|runs|] == runs
    && var last := next[|runs|].records;
       multiset(last) == multiset(records) && if sorts then Sorted(last) else last == records
  }

  /**
   What becomes of a partition that takes in a batch: the batch is buffered
   while the buffered bytes stay below the target, and otherwise everything
   buffered goes into one file.
   */
  ghost predicate Intake(sizeOf: Batch -> nat, target: nat, sorts: bool, batch: Batch, slot: Option<Buffered>,
                         runs: seq<Run>, next: Option<Buffered>, more: seq<Run>) {
    var batches := (if slot.Some? then slot.value.batches else []) + [batch];
    var size := (if slot.Some? then slot.value.size else 0) + sizeOf(batch);
    if size < target then next == Some(Buffered(batches, size)) && more == runs
    else next == None && OneMore(sorts, runs, more, Concat(batches))
  }

  /** The whole writer as a value. */
  datatype Books = Books(buffers: map<Partition, Buffered>, dataFiles: seq<Run>,
                         taken: map<Partition, seq<Record>>, flushed: map<Partition, seq<Record>>)
  {
    function Slot(p: Partition): Option<Buffered> {
      if p in buffers then Some(buffers[p]) else None
    }

    ghost predicate Holds(partitioned: bool, sizeOf: Batch -> nat, p: Partition) {
      && OwnRows(partitioned, p, At(taken, p))
      && Balanced(sizeOf, At(taken, p), At(flushed, p), Slot(p), RunRows(p, dataFiles))
    }

    function Flush(p: Partition, run: Run): Books
      requires p in buffers
    {
      Books(buffers - {p}, dataFiles + [run], taken, Added(flushed, p, Concat(buffers[p].batches)))
    }

    /** One partition's buffer and files are what they were. */
    ghost predicate LeftAlone(p: Partition, before: Books) {
      Slot(p) == before.Slot(p) && FilesOf(p, dataFiles) == FilesOf(p, before.dataFiles)
    }

    ghost predicate TookIn(sizeOf: Batch -> nat, target: nat, sorts: bool, p: Partition, batch: Batch, before: Books) {
      Intake(sizeOf, target, sorts, batch, before.Slot(p), FilesOf(p, before.dataFiles), Slot(p), FilesOf(p, dataFiles))
    }

    function Buffer(sizeOf: Batch -> nat, p: Partition, batch: Batch): Books {
      Books(buffers[p := Grown(sizeOf, Slot(p), batch)], dataFiles, Added(taken, p, batch), flushed)
    }
  }

  lemma {:induction false} FlushHolds(b: Books, partitioned: bool, sizeOf: Batch -> nat, p: Partition, run: Run,
                                      q: Partition)
    requires p in b.buffers && b.Holds(partitioned, sizeOf, q)
    requires run.partition == p && multiset(run.records) == multiset(Concat(b.buffers[p].batches))
    ensures b.Flush(p, run).Holds(partitioned, sizeOf, q)
  {
    RunRowsNext(q, b.dataFiles, run);
    if q == p {
      FlushKeepsBalance(sizeOf, At(b.taken, p), At(b.flushed, p), b.Slot(p), RunRows(p, b.dataFiles));
    }
  }

  lemma {:induction false} BufferHolds(b: Books, partitioned: bool, sizeOf: Batch -> nat, p: Partition, batch: Batch,
                                       q: Partition)
    requires OwnRows(partitioned, p, batch) && b.Holds(partitioned, sizeOf, q)
    ensures b.Buffer(sizeOf, p, batch).Holds(partitioned, sizeOf, q)
  {
    if q == p {
      BufferKeepsBalance(sizeOf, At(b.taken, p), At(b.flushed, p), b.Slot(p), RunRows(p, b.dataFiles), batch);
    }
  }

  lemma {:induction false} BufferKeepsAll(b: Books, partitioned: bool, sizeOf: Batch -> nat, p: Partition,
                                          batch: Batch)
    requires OwnRows(partitioned, p, batch) && forall q :: b.Holds(partitioned, sizeOf, q)
    ensures forall q :: b.Buffer(sizeOf, p, batch).Holds(partitioned, sizeOf, q)
  {
    forall q ensures b.Buffer(sizeOf, p, batch).Holds(partitioned, sizeOf, q) {
      BufferHolds(b, partitioned, sizeOf, p, batch, q);
    }
  }

  lemma {:induction false} BufferedSo(b: Books, sizeOf: Batch -> nat, target: nat, sorts: bool, p: Partition,
                                      batch: Batch, next: Books)
    requires next == b.Buffer(sizeOf, p, batch) && next.buffers[p].size < target
    ensures next.TookIn(sizeOf, target, sorts, p, batch, b) && forall q :: q != p ==> next.LeftAlone(q, b)
  {
    assert [] + [batch] == [batch];
  }

  lemma {:induction false} FlushedSo(b: Books, sizeOf: Batch -> nat, target: nat, sorts: bool, p: Partition,
                                     batch: Batch, run: Run, next: Books)
    requires var grown := b.Buffer(sizeOf, p, batch);
             && grown.buffers[p].size >= target && next.buffers == grown.buffers - {p}
             && next.dataFiles == b.dataFiles + [run] && run.partition == p
             && multiset(run.records) == multiset(Concat(grown.buffers[p].batches))
             && (if sorts then Sorted(run.records) else run.records == Concat(grown.buffers[p].batches))
    ensures next.TookIn(sizeOf, target, sorts, p, batch, b) && forall q :: q != p ==> next.LeftAlone(q, b)
  {
    FilesOfNext(p, b.dataFiles, run);
    forall q | q != p ensures next.LeftAlone(q, b) {
      FilesOfNext(q, b.dataFiles, run);
    }
  }

  /** The parts of `batch` for all partitions but those of `todo` have been taken in. */
  ghost predicate PartsTaken(sizeOf: Batch -> nat, target: nat, sorts: bool, partitioned: bool, batch: Batch,
                             todo: set<Partition>, before: Books, now: Books) {
    forall p ::
      if p in todo || Mine(partitioned, p, batch) == [] then
        now.LeftAlone(p, before) && At(now.taken, p) == At(before.taken, p)
      else
        && now.TookIn(sizeOf, target, sorts, p, Mine(partitioned, p, batch), before)
        && At(now.taken, p) == At(before.taken, p) + Mine(partitioned, p, batch)
  }

  lemma {:induction false} OnePartTaken(sizeOf: Batch -> nat, target: nat, sorts: bool, partitioned: bool, batch: Batch,
                                        todo: set<Partition>, before: Books, mid: Books, p: Partition, now: Books)
    requires PartsTaken(sizeOf, target, sorts, partitioned, batch, todo, before, mid)
    requires p in todo && Mine(partitioned, p, batch) != []
    requires now.TookIn(sizeOf, target, sorts, p, Mine(partitioned, p, batch), mid)
    requires forall q :: q != p ==> now.LeftAlone(q, mid)
    requires forall q :: At(now.taken, q) ==
               if q == p then At(mid.taken, q) + Mine(partitioned, p, batch) else At(mid.taken, q)
    ensures PartsTaken(sizeOf, target, sorts, partitioned, batch, todo - {p}, before, now)
  {
    forall q
      ensures
        if q in todo - {p} || Mine(partitioned, q, batch) == [] then
          now.LeftAlone(q, before) && At(now.taken, q) == At(before.taken, q)
        else
          && now.TookIn(sizeOf, target, sorts, q, Mine(partitioned, q, batch), before)
          && At(now.taken, q) == At(before.taken, q) + Mine(partitioned, q, batch)
    {
      assert q != p ==> now.LeftAlone(q, mid);
      assert q == p ==> mid.LeftAlone(p, before);
    }
  }

  lemma {:induction false} NoPartTaken(sizeOf: Batch -> nat, target: nat, sorts: bool, partitioned: bool, batch: Batch,
                                       todo: set<Partition>, before: Books)
    requires forall r <- batch :: PartitionOf(partitioned, r) in todo
    ensures PartsTaken(sizeOf, target, sorts, partitioned, batch, todo, before, before)
  {
    forall p | p !in todo ensures Mine(partitioned, p, batch) == [] {
      MineNone(partitioned, p, batch);
    }
  }

  lemma {:induction false} PartsAreAll(sizeOf: Batch -> nat, target: nat, sorts: bool, partitioned: bool, batch: Batch,
                                       before: Books, now: Books)
    requires PartsTaken(sizeOf, target, sorts, partitioned, batch, {}, before, now)
    ensures forall p :: At(now.taken, p) == At(before.taken, p) + Mine(partitioned, p, batch)
  {
    forall p ensures At(now.taken, p) == At(before.taken, p) + Mine(partitioned, p, batch) {
      assert At(before.taken, p) + [] == At(before.taken, p);
    }
  }

  class StreamingCompactionWriter {
    const partitioned: bool
    const sorts: bool
    const target: nat
    const sizeOf: Batch -> nat
    var buffers: map<Partition, Buffered>
    var dataFiles: seq<Run>
    ghost var taken: map<Partition, seq<Record>>
    ghost var flushed: map<Partition, seq<Record>>

    ghost function Value(): Books
      reads this
    {
      Books(buffers, dataFiles, taken, flushed)
    }

    ghost predicate Conserves()
      reads this
    {
      RunsFit(partitioned, sorts, dataFiles) && forall p :: Value().Holds(partitioned, sizeOf, p)
    }

    /** Between two writes no buffer has reached the target size. */
    ghost predicate Valid()
      reads this
    {
      Conserves() && forall p <- buffers :: buffers[p].size < target
    }

    constructor (partitioned: bool, sorts: bool, target: nat, sizeOf: Batch -> nat)
      ensures Valid() && buffers == map[] && dataFiles == [] && taken == map[]
      ensures this.partitioned == partitioned && this.sorts == sorts && this.target == target && this.sizeOf == sizeOf
    {
      this.partitioned, this.sorts, this.target, this.sizeOf := partitioned, sorts, target, sizeOf;
      buffers, dataFiles, taken, flushed := map[], [], map[], map[];
    }

    method FlushPartition(p: Partition)
      requires Conserves()
      modifies this`buffers, this`dataFiles, this`flushed
      ensures Conserves() && buffers == old(buffers) - {p}
      ensures p !in old(buffers) ==> dataFiles == old(dataFiles)
      ensures p in old(buffers) ==>
                && |dataFiles| == |old(dataFiles)| + 1 && dataFiles[..|old(dataFiles)|] == old(dataFiles)
                && var run, merged := dataFiles[|old(dataFiles)|], Concat(old(buffers)[p].batches);
                   && run.partition == p && multiset(run.records) == multiset(merged)
                   && (if sorts then Sorted(run.records) else run.records == merged)
    {
      if p !in buffers {
        assert buffers == buffers - {p};
        return;
      }
      ghost var before := Value();
      assert before.Holds(partitioned, sizeOf, p);
      var merged := Concat(buffers[p].batches);
      assert OwnRows(partitioned, p, merged) by {
        assert At(taken, p) == At(flushed, p) + merged;
      }
      var run := WriteRun(partitioned, sorts, p, merged);
      buffers, flushed := buffers - {p}, Added(flushed, p, merged);
      dataFiles := dataFiles + [run];
      assert Value() == before.Flush(p, run);
      forall q ensures Value().Holds(partitioned, sizeOf, q) {
        FlushHolds(before, partitioned, sizeOf, p, run, q);
      }
    }

    method GrowBuffer(p: Partition, batch: Batch)
      requires Valid() && OwnRows(partitioned, p, batch)
      modifies this`buffers, this`taken
      ensures Conserves() && Value() == old(Value()).Buffer(sizeOf, p, batch)
    {
      ghost var before := Value();
      var grown := Grown(sizeOf, if p in buffers then Some(buffers[p]) else None, batch);
      buffers, taken := buffers[p := grown], Added(taken, p, batch);
      assert Value() == before.Buffer(sizeOf, p, batch);
      BufferKeepsAll(before, partitioned, sizeOf, p, batch);
    }

    method BufferBatch(p: Partition, batch: Batch)
      requires Valid() && OwnRows(partitioned, p, batch)
      modifies this
      ensures Valid()
      ensures Value().TookIn(sizeOf, target, sorts, p, batch, old(Value()))
      ensures forall q :: q != p ==> Value().LeftAlone(q, old(Value()))
      ensures forall q :: At(taken, q) == if q == p then At(old(taken), q) + batch else At(old(taken), q)
    {
      ghost var before := Value();
      GrowBuffer(p, batch);
      if buffers[p].size >= target {
        FlushPartition(p);
        ghost var run := dataFiles[|before.dataFiles|];
        assert dataFiles == before.dataFiles + [run];
        FlushedSo(before, sizeOf, target, sorts, p, batch, run, Value());
      } else {
        BufferedSo(before, sizeOf, target, sorts, p, batch, Value());
      }
    }

    /** Split the batch by partition and buffer the parts, in any order. */
    method WriteSplit(batch: Batch)
      requires Valid() && partitioned
      modifies this
      ensures Valid()
      ensures PartsTaken(sizeOf, target, sorts, partitioned, batch, {}, old(Value()), Value())
      ensures forall p :: At(taken, p) == At(old(taken), p) + Mine(partitioned, p, batch)
    {
      var todo := set r <- batch :: r.partition;
      ghost var before, parts := Value(), todo;
      NoPartTaken(sizeOf, target, sorts, partitioned, batch, todo, before);
      while todo != {}
        invariant Valid() && todo <= parts
        invariant PartsTaken(sizeOf, target, sorts, partitioned, batch, todo, before, Value())
        decreases todo
      {
        var p :| p in todo;
        MineMember(partitioned, p, batch);
        MineSome(partitioned, p, batch);
        ghost var mid := Value();
        BufferBatch(p, Mine(partitioned, p, batch));
        OnePartTaken(sizeOf, target, sorts, partitioned, batch, todo, before, mid, p, Value());
        todo := todo - {p};
      }
      PartsAreAll(sizeOf, target, sorts, partitioned, batch, before, Value());
    }

    /** In a table without partitions the whole batch is buffered, even an empty one. */
    method Write(batch: Batch)
      requires Valid()
      modifies this
      ensures Valid()
      ensures if partitioned then PartsTaken(sizeOf, target, sorts, partitioned, batch, {}, old(Value()), Value())
              else Value().TookIn(sizeOf, target, sorts, 0, batch, old(Value())) &&
                   forall p :: p != 0 ==> Value().LeftAlone(p, old(Value()))
      ensures forall p :: At(taken, p) == At(old(taken), p) + Mine(partitioned, p, batch)
    {
      if partitioned {
        WriteSplit(batch);
      } else {
        MineAll(partitioned, 0, batch);
        forall p | p != 0 ensures Mine(partitioned, p, batch) == [] {
          MineNone(partitioned, p, batch);
        }
        BufferBatch(0, batch);
      }
    }

    /** Flush every remaining buffer; afterwards the files hold exactly what was taken in. */
    method Close() returns (files: seq<Run>)
      requires Valid()
      modifies this
      ensures Valid() && buffers == map[] && files == dataFiles && taken == old(taken)
      ensures forall p :: RunRows(p, files) == multiset(At(taken, p))
    {
      var keys := buffers.Keys;
      while exists p :: p in keys
        invariant Conserves() && buffers.Keys == keys && taken == old(taken)
        decreases keys
      {
        var p :| p in keys;
        FlushPartition(p);
        keys := keys - {p};
      }
      files := dataFiles;
      forall p ensures RunRows(p, files) == multiset(At(taken, p)) {
        assert Value().Holds(partitioned, sizeOf, p);
        assert At(taken, p) == At(flushed, p) + [];
      }
    }
  }

  // ------------------------------------------------------------------
  // The whole data path
  // ------------------------------------------------------------------

  /** What a compaction writes back. */
  function Kept(deduplicate: bool, records: seq<Record>): seq<Record> {
    if deduplicate then Firsts(records) else records
  }

  lemma {:induction false} RowCount(partitioned: bool, records: seq<Record>, r: Record)
    ensures multiset(records)[r] == multiset(Mine(partitioned, PartitionOf(partitioned, r), records))[r]
  {
    if records != [] {
      RowCount(partitioned, records[1..], r);
      assert records == [records[0]] + records[1..];
    }
  }

  lemma {:induction false} RunCount(partitioned: bool, sorts: bool, runs: seq<Run>, r: Record)
    requires RunsFit(partitioned, sorts, runs)
    ensures AllRows(runs)[r] == RunRows(PartitionOf(partitioned, r), runs)[r]
  {
    if runs != [] {
      var most, last := runs[..|runs| - 1], runs[|runs| - 1];
      assert forall run <- most :: run in runs;
      RunCount(partitioned, sorts, most, r);
      assert last in runs;
      assert r in multiset(last.records) ==> r in last.records;
    }
  }

  /** Files that are right partition by partition are right altogether. */
  lemma {:induction false} WholeFromParts(partitioned: bool, sorts: bool, runs: seq<Run>, records: seq<Record>)
    requires RunsFit(partitioned, sorts, runs)
    requires forall p :: RunRows(p, runs) == multiset(Mine(partitioned, p, records))
    ensures AllRows(runs) == multiset(records)
  {
    forall r ensures AllRows(runs)[r] == multiset(records)[r] {
      RunCount(partitioned, sorts, runs, r);
      RowCount(partitioned, records, r);
    }
  }

  lemma {:induction false} WriteNext(partitioned: bool, written: seq<Record>, batch: Batch)
    ensures forall p :: Mine(partitioned, p, written + batch) ==
              Mine(partitioned, p, written) + Mine(partitioned, p, batch)
  {
    forall p
      ensures Mine(partitioned, p, written + batch) == Mine(partitioned, p, written) + Mine(partitioned, p, batch)
    {
      MineConcat(partitioned, p, written, batch);
    }
  }

  /** The writer has taken in exactly `records`. */
  ghost predicate Has(writer: StreamingCompactionWriter, records: seq<Record>)
    reads writer
  {
    writer.Valid() && forall p :: At(writer.taken, p) == Mine(writer.partitioned, p, records)
  }

  method WriteOn(writer: StreamingCompactionWriter, batch: Batch, ghost written: seq<Record>)
    requires Has(writer, written)
    modifies writer
    ensures Has(writer, written + batch)
  {
    WriteNext(writer.partitioned, written, batch);
    writer.Write(batch);
  }

  /** Pass every batch through the duplicate filter. */
  method FillDeduplicated(writer: StreamingCompactionWriter, batches: seq<Batch>)
      returns (totalRecords: nat, duplicatesEliminated: nat)
    requires Has(writer, [])
    modifies writer
    ensures Has(writer, Firsts(Concat(batches)))
    ensures totalRecords == |Concat(batches)| == |Firsts(Concat(batches))| + duplicatesEliminated
  {
    var dedup := new DeduplicatingAccumulator();
    totalRecords := 0;
    for i := 0 to |batches|
      invariant fresh(dedup) && dedup.Valid() && Has(writer, dedup.output)
      invariant dedup.input == Concat(batches[..i]) && totalRecords == |dedup.input|
    {
      ConcatNext(batches, i);
      totalRecords := totalRecords + |batches[i]|;
      ghost var before := dedup.output;
      var filtered := dedup.AddBatch(batches[i]);
      if |filtered| > 0 {
        WriteOn(writer, filtered, before);
      } else {
        assert dedup.output == before;
      }
    }
    assert batches[..|batches|] == batches;
    duplicatesEliminated := dedup.duplicatesEliminated;
  }

  method FillDirectly(writer: StreamingCompactionWriter, batches: seq<Batch>) returns (totalRecords: nat)
    requires Has(writer, [])
    modifies writer
    ensures Has(writer, Concat(batches)) && totalRecords == |Concat(batches)|
  {
    totalRecords := 0;
    for i := 0 to |batches|
      invariant Has(writer, Concat(batches[..i])) && totalRecords == |Concat(batches[..i])|
    {
      ConcatNext(batches, i);
      totalRecords := totalRecords + |batches[i]|;
      WriteOn(writer, batches[i], Concat(batches[..i]));
    }
    assert batches[..|batches|] == batches;
  }

  /**
   Read, filter and write all batches. The new files hold exactly the kept
   rows, each once and in its own partition; every row read is either kept or
   counted as a duplicate.
   */
  method Compact(batches: seq<Batch>, deduplicate: bool, partitioned: bool, sorts: bool, target: nat,
                 sizeOf: Batch -> nat)
      returns (files: seq<Run>, totalRecords: nat, duplicatesEliminated: nat)
    ensures RunsFit(partitioned, sorts, files)
    ensures forall run <- files, r <- run.records :: run.partition == if partitioned then r.partition else 0
    ensures AllRows(files) == multiset(Kept(deduplicate, Concat(batches)))
    ensures totalRecords == |Concat(batches)| == |Kept(deduplicate, Concat(batches))| + duplicatesEliminated
  {
    var writer := new StreamingCompactionWriter(partitioned, sorts, target, sizeOf);
    if deduplicate {
      totalRecords, duplicatesEliminated := FillDeduplicated(writer, batches);
    } else {
      totalRecords := FillDirectly(writer, batches);
      duplicatesEliminated := 0;
    }
    files := writer.Close();
    WholeFromParts(partitioned, sorts, files, Kept(deduplicate, Concat(batches)));
  }
}
