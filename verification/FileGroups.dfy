/**
 How the file compactor groups source files into output files: the accumulator
 with its soft size limit, the fold over all files that the download phases
 amount to, and the dry-run plan that is meant to predict it.

 A row stands for its hash; `sizeOf` gives the memory size of a record batch.
 */
module FileGroups {
  import opened Wrappers

  type Row = int
  type Schema = int
  type Timestamp = nat
  type Batch = seq<Row>

  /** A marker's key is its source's key with a suffix, so it carries the same timestamp. */
  datatype Key =
    | Original(id: nat, timestamp: Timestamp)
    | Compacted(timestamp: Timestamp)
    | Processed(of: Key)
  {
    function Time(): Timestamp {
      match this
      case Original(_, t) => t
      case Compacted(t) => t
      case Processed(k) => k.Time()
    }

    /** The flag that parsing the key yields. */
    predicate IsCompacted() {
      match this
      case Original(_, _) => false
      case Compacted(_) => true
      case Processed(k) => k.IsCompacted()
    }
  }

  datatype Body = Empty | Unreadable | Parquet(schema: Schema, batches: seq<Batch>)

  datatype Source = Source(key: Key, body: Body)

  datatype Config = Config(limit: nat, deduplicate: bool, deleteOriginals: bool, sizeOf: Batch -> nat)

  function Rows(batches: seq<Batch>): seq<Row> {
    if batches == [] then [] else batches[0] + Rows(batches[1..])
  }

  function Size(config: Config, batches: seq<Batch>): nat {
    if batches == [] then 0 else Size(config, batches[..|batches| - 1]) + config.sizeOf(batches[|batches| - 1])
  }

  function RowSet(rows: seq<Row>): set<Row> {
    set r <- rows
  }

  /** The rows not seen before, first occurrences only. */
  function Fresh(seen: set<Row>, rows: seq<Row>): seq<Row>
    decreases |rows|
  {
    if rows == [] then []
    else if rows[0] in seen then Fresh(seen, rows[1..])
    else [rows[0]] + Fresh(seen + {rows[0]}, rows[1..])
  }

  // ------------------------------------------------------------------
  // The accumulator
  // ------------------------------------------------------------------

  datatype Accumulated = Accumulated(batches: seq<Batch>, seen: set<Row>, duplicates: nat)

  function Added(deduplicate: bool, a: Accumulated, batch: Batch): Accumulated {
    if !deduplicate then a.(batches := a.batches + [batch])
    else
      var kept := Fresh(a.seen, batch);
      FreshShorter(a.seen, batch);
      Accumulated(if kept == [] then a.batches else a.batches + [kept], a.seen + RowSet(batch),
                  a.duplicates + |batch| - |kept|)
  }

  /** Taking the batches out does not forget the rows that were seen. */
  function Taken(a: Accumulated): Accumulated {
    Accumulated([], a.seen, 0)
  }

  lemma {:induction false} FreshShorter(seen: set<Row>, rows: seq<Row>)
    ensures |Fresh(seen, rows)| <= |rows|
    decreases |rows|
  {
    if rows != [] {
      FreshShorter(if rows[0] in seen then seen else seen + {rows[0]}, rows[1..]);
    }
  }

  class DeduplicatingAccumulator {
    var batches: seq<Batch>
    var seenHashes: set<Row>
    var totalRecords: nat
    var duplicateCount: nat

    function Value(): Accumulated
      reads this
    {
      Accumulated(batches, seenHashes, duplicateCount)
    }

    constructor ()
      ensures Value() == Accumulated([], {}, 0) && totalRecords == 0
    {
      batches, seenHashes, totalRecords, duplicateCount := [], {}, 0, 0;
    }

    method AddBatch(batch: Batch, deduplicate: bool)
      modifies this
      ensures Value() == Added(deduplicate, old(Value()), batch)
      ensures totalRecords == old(totalRecords) + |batch| - (duplicateCount - old(duplicateCount))
    {
      if !deduplicate {
        totalRecords := totalRecords + |batch|;
        batches := batches + [batch];
        return;
      }
      var kept: Batch := [];
      ghost var seen, counted := seenHashes, duplicateCount;
      for i := 0 to |batch|
        invariant Fresh(seen, batch) == kept + Fresh(seenHashes, batch[i..])
        invariant seenHashes == seen + RowSet(batch[..i])
        invariant duplicateCount == counted + i - |kept| && |kept| <= i
        invariant batches == old(batches) && totalRecords == old(totalRecords)
      {
        assert batch[i..][1..] == batch[i + 1..];
        assert RowSet(batch[..i + 1]) == RowSet(batch[..i]) + {batch[i]};
        if batch[i] !in seenHashes {
          assert kept + ([batch[i]] + Fresh(seenHashes + {batch[i]}, batch[i + 1..])) ==
                 kept + [batch[i]] + Fresh(seenHashes + {batch[i]}, batch[i + 1..]);
          seenHashes := seenHashes + {batch[i]};
          kept := kept + [batch[i]];
        } else {
          duplicateCount := duplicateCount + 1;
        }
      }
      assert batch[..|batch|] == batch;
      assert kept + [] == kept;
      if |kept| > 0 {
        totalRecords := totalRecords + |kept|;
        batches := batches + [kept];
      }
    }

    function EstimatedSize(config: Config): nat
      reads this
    {
      Size(config, batches)
    }

    method TakeBatches() returns (taken: seq<Batch>, duplicates: nat)
      modifies this
      ensures Value() == Taken(old(Value())) && totalRecords == 0
      ensures taken == old(batches) && duplicates == old(duplicateCount)
    {
      taken, duplicates := batches, duplicateCount;
      batches, totalRecords, duplicateCount := [], 0, 0;
    }
  }

  // ------------------------------------------------------------------
  // The fold over all files
  // ------------------------------------------------------------------

  datatype Group = Group(sources: seq<Source>, schema: Schema, batches: seq<Batch>, duplicates: nat)

  datatype Progress = Progress(
    held: Accumulated,
    sources: seq<Source>,
    schema: Option<Schema>,
    groups: seq<Group>,
    filesProcessed: nat,
    last: Option<Timestamp>)

  const START := Progress(Accumulated([], {}, 0), [], None, [], 0, None)

  predicate Trips(config: Config, a: Accumulated, batch: Batch) {
    a.batches != [] && Size(config, a.batches) + config.sizeOf(batch) > config.limit
  }

  /** Read a file's batches until one trips the limit; that one is still taken, the rest is not read. */
  function ReadBatches(config: Config, a: Accumulated, batches: seq<Batch>): (Accumulated, bool)
    decreases |batches|
  {
    if batches == [] then (a, false)
    else if batches[0] == [] then ReadBatches(config, a, batches[1..])
    else
      var added := Added(config.deduplicate, a, batches[0]);
      if Trips(config, a, batches[0]) then (added, true) else ReadBatches(config, added, batches[1..])
  }

  /** The rows that a tripped limit leaves unread. */
  function Unread(config: Config, a: Accumulated, batches: seq<Batch>): seq<Row>
    decreases |batches|
  {
    if batches == [] then []
    else if batches[0] == [] then Unread(config, a, batches[1..])
    else if Trips(config, a, batches[0]) then Rows(batches[1..])
    else Unread(config, Added(config.deduplicate, a, batches[0]), batches[1..])
  }

  predicate Accepts(schema: Option<Schema>, f: Source) {
    match f.body
    case Empty => true
    case Unreadable => false
    case Parquet(s, _) => schema == None || schema == Some(s)
  }

  /** One file, before a tripped limit is acted on. */
  function TakeFile(config: Config, p: Progress, f: Source): (Progress, bool) {
    var q := p.(filesProcessed := p.filesProcessed + 1, last := Some(f.key.Time()));
    if !Accepts(p.schema, f) then (q, false)
    else
      match f.body
      case Parquet(s, batches) =>
        var (held, tripped) := ReadBatches(config, p.held, batches);
        (q.(held := held, sources := p.sources + [f], schema := Some(s)), tripped)
      case _ => (q.(sources := p.sources + [f]), false)
  }

  /** The group that would be uploaded now. */
  function GroupOf(p: Progress): Group {
    Group(p.sources, if p.schema.Some? then p.schema.value else 0, p.held.batches, p.held.duplicates)
  }

  function Cut(p: Progress): Progress {
    p.(held := Taken(p.held), sources := [], groups := p.groups + [GroupOf(p)])
  }

  function StepFile(config: Config, p: Progress, f: Source): Progress {
    var (q, tripped) := TakeFile(config, p, f);
    if tripped then Cut(q) else q
  }

  function Consume(config: Config, p: Progress, files: seq<Source>): Progress
    decreases |files|
  {
    if files == [] then p else Consume(config, StepFile(config, p, files[0]), files[1..])
  }

  function Finish(p: Progress): Progress {
    if p.held.batches == [] then p else Cut(p)
  }

  function AllGroups(config: Config, files: seq<Source>): seq<Group> {
    Finish(Consume(config, START, files)).groups
  }

  lemma {:induction false} ConsumeConcat(config: Config, p: Progress, a: seq<Source>, b: seq<Source>)
    ensures Consume(config, p, a + b) == Consume(config, Consume(config, p, a), b)
    decreases |a|
  {
    if a == [] {
      assert a + b == b;
    } else {
      assert (a + b)[1..] == a[1..] + b;
      ConsumeConcat(config, StepFile(config, p, a[0]), a[1..], b);
    }
  }

  // ------------------------------------------------------------------
  // Groups cover the accepted files in order
  // ------------------------------------------------------------------

  function GroupSources(groups: seq<Group>): seq<Source> {
    if groups == [] then [] else GroupSources(groups[..|groups| - 1]) + groups[|groups| - 1].sources
  }

  function GroupRows(groups: seq<Group>): seq<Row> {
    if groups == [] then [] else GroupRows(groups[..|groups| - 1]) + Rows(groups[|groups| - 1].batches)
  }

  function GroupDuplicates(groups: seq<Group>): nat {
    if groups == [] then 0 else GroupDuplicates(groups[..|groups| - 1]) + groups[|groups| - 1].duplicates
  }

  lemma {:induction false} GroupsNext(groups: seq<Group>, g: Group)
    ensures GroupSources(groups + [g]) == GroupSources(groups) + g.sources
    ensures GroupRows(groups + [g]) == GroupRows(groups) + Rows(g.batches)
    ensures GroupDuplicates(groups + [g]) == GroupDuplicates(groups) + g.duplicates
  {
    assert (groups + [g])[..|groups|] == groups;
  }

  /** The files that take part, given the schema known so far: a readable file fixes it. */
  function Accepted(schema: Option<Schema>, files: seq<Source>): seq<Source>
    decreases |files|
  {
    if files == [] then []
    else
      var next := if Accepts(schema, files[0]) && files[0].body.Parquet? then Some(files[0].body.schema) else schema;
      (if Accepts(schema, files[0]) then [files[0]] else []) + Accepted(next, files[1..])
  }

  /** All files taken so far, grouped or not, in order. */
  function TakenSources(p: Progress): seq<Source> {
    GroupSources(p.groups) + p.sources
  }

  lemma {:induction false} StepSources(config: Config, p: Progress, f: Source)
    ensures TakenSources(StepFile(config, p, f)) ==
            TakenSources(p) + if Accepts(p.schema, f) then [f] else []
  {
    var q := TakeFile(config, p, f).0;
    GroupsNext(q.groups, GroupOf(q));
    assert GroupSources(p.groups) + (p.sources + [f]) == GroupSources(p.groups) + p.sources + [f];
    assert GroupSources(q.groups) + q.sources + [] == GroupSources(q.groups) + q.sources;
    assert TakenSources(p) + [] == TakenSources(p);
  }

  /** Groups are consecutive runs of the accepted files; no file is skipped or taken twice. */
  lemma {:induction false} GroupsCoverAccepted(config: Config, p: Progress, files: seq<Source>)
    ensures TakenSources(Consume(config, p, files)) == TakenSources(p) + Accepted(p.schema, files)
    decreases |files|
  {
    if files == [] {
      assert TakenSources(p) + [] == TakenSources(p);
    } else {
      StepSources(config, p, files[0]);
      var taken := if Accepts(p.schema, files[0]) then [files[0]] else [];
      var rest := Accepted(StepFile(config, p, files[0]).schema, files[1..]);
      assert TakenSources(p) + taken + rest == TakenSources(p) + (taken + rest);
      GroupsCoverAccepted(config, StepFile(config, p, files[0]), files[1..]);
    }
  }

  // ------------------------------------------------------------------
  // What becomes of the rows
  // ------------------------------------------------------------------

  lemma {:induction false} RowsConcat(a: seq<Batch>, b: seq<Batch>)
    ensures Rows(a + b) == Rows(a) + Rows(b)
  {
    if a == [] {
      assert a + b == b;
    } else {
      assert (a + b)[1..] == a[1..] + b;
      RowsConcat(a[1..], b);
    }
  }

  lemma {:induction false} RowsNext(a: seq<Batch>, b: Batch)
    ensures Rows(a + [b]) == Rows(a) + b
  {
    RowsConcat(a, [b]);
    assert Rows([b]) == b + [];
  }

  lemma {:induction false} FreshConcat(seen: set<Row>, a: seq<Row>, b: seq<Row>)
    ensures Fresh(seen, a + b) == Fresh(seen, a) + Fresh(seen + RowSet(a), b)
    decreases |a|
  {
    if a == [] {
      assert a + b == b && seen + RowSet(a) == seen;
    } else {
      assert (a + b)[1..] == a[1..] + b;
      assert RowSet(a) == {a[0]} + RowSet(a[1..]) by {
        assert a == [a[0]] + a[1..];
      }
      var next := if a[0] in seen then seen else seen + {a[0]};
      assert next + RowSet(a[1..]) == seen + RowSet(a);
      FreshConcat(next, a[1..], b);
    }
  }

  /** What the compactor keeps of rows it reads. */
  function Kept(deduplicate: bool, seen: set<Row>, rows: seq<Row>): seq<Row> {
    if deduplicate then Fresh(seen, rows) else rows
  }

  /** The rows of a file that are read. */
  function FileRead(config: Config, a: Accumulated, batches: seq<Batch>): seq<Row>
    decreases |batches|
  {
    if batches == [] then []
    else if batches[0] == [] then FileRead(config, a, batches[1..])
    else if Trips(config, a, batches[0]) then batches[0]
    else batches[0] + FileRead(config, Added(config.deduplicate, a, batches[0]), batches[1..])
  }

  /** A file is read from its start; what is left unread is its end. */
  lemma {:induction false} ReadThenUnread(config: Config, a: Accumulated, batches: seq<Batch>)
    ensures FileRead(config, a, batches) + Unread(config, a, batches) == Rows(batches)
    decreases |batches|
  {
    if batches != [] {
      if batches[0] == [] {
        ReadThenUnread(config, a, batches[1..]);
      } else if !Trips(config, a, batches[0]) {
        var added := Added(config.deduplicate, a, batches[0]);
        ReadThenUnread(config, added, batches[1..]);
        assert batches[0] + (FileRead(config, added, batches[1..]) + Unread(config, added, batches[1..])) ==
               batches[0] + FileRead(config, added, batches[1..]) + Unread(config, added, batches[1..]);
      }
    }
  }

  /** `b` is `a` after reading `rows`. */
  ghost predicate HasRead(deduplicate: bool, a: Accumulated, rows: seq<Row>, b: Accumulated) {
    && Rows(b.batches) == Rows(a.batches) + Kept(deduplicate, a.seen, rows)
    && (deduplicate ==> b.seen == a.seen + RowSet(rows))
    && b.duplicates + |Kept(deduplicate, a.seen, rows)| == a.duplicates + |rows|
  }

  lemma {:induction false} AddedHasRead(deduplicate: bool, a: Accumulated, batch: Batch)
    ensures HasRead(deduplicate, a, batch, Added(deduplicate, a, batch))
  {
    var kept := Kept(deduplicate, a.seen, batch);
    FreshShorter(a.seen, batch);
    RowsNext(a.batches, kept);
    assert Rows(a.batches) + [] == Rows(a.batches);
  }

  lemma {:induction false} KeptConcat(deduplicate: bool, seen: set<Row>, r: seq<Row>, s: seq<Row>, next: set<Row>)
    requires deduplicate ==> next == seen + RowSet(r)
    ensures Kept(deduplicate, seen, r + s) == Kept(deduplicate, seen, r) + Kept(deduplicate, next, s)
    ensures deduplicate ==> next + RowSet(s) == seen + RowSet(r + s)
  {
    if deduplicate {
      FreshConcat(seen, r, s);
    }
  }

  lemma {:induction false} HasReadOn(deduplicate: bool, a: Accumulated, r: seq<Row>, b: Accumulated, s: seq<Row>,
                                     c: Accumulated)
    requires HasRead(deduplicate, a, r, b) && HasRead(deduplicate, b, s, c)
    ensures HasRead(deduplicate, a, r + s, c)
  {
    KeptConcat(deduplicate, a.seen, r, s, b.seen);
    var start, first, second := Rows(a.batches), Kept(deduplicate, a.seen, r), Kept(deduplicate, b.seen, s);
    assert start + first + second == start + (first + second);
  }

  lemma {:induction false} ReadBatchesHasRead(config: Config, a: Accumulated, batches: seq<Batch>)
    ensures HasRead(config.deduplicate, a, FileRead(config, a, batches), ReadBatches(config, a, batches).0)
    decreases |batches|
  {
    if batches == [] {
      NothingRead(config.deduplicate, a);
    } else if batches[0] == [] {
      ReadBatchesHasRead(config, a, batches[1..]);
    } else {
      var added := Added(config.deduplicate, a, batches[0]);
      AddedHasRead(config.deduplicate, a, batches[0]);
      if !Trips(config, a, batches[0]) {
        ReadBatchesHasRead(config, added, batches[1..]);
        HasReadOn(config.deduplicate, a, batches[0], added, FileRead(config, added, batches[1..]),
                  ReadBatches(config, added, batches[1..]).0);
      }
    }
  }

  function ReadOf(config: Config, p: Progress, f: Source): seq<Row> {
    if Accepts(p.schema, f) && f.body.Parquet? then FileRead(config, p.held, f.body.batches) else []
  }

  /** All rows read from `files`. */
  function ReadRows(config: Config, p: Progress, files: seq<Source>): seq<Row>
    decreases |files|
  {
    if files == [] then []
    else ReadOf(config, p, files[0]) + ReadRows(config, StepFile(config, p, files[0]), files[1..])
  }

  /** All rows kept so far, and all duplicates counted so far, as one accumulator. */
  function Whole(p: Progress): (Accumulated) {
    Accumulated([GroupRows(p.groups) + Rows(p.held.batches)], p.held.seen,
                GroupDuplicates(p.groups) + p.held.duplicates)
  }

  lemma {:induction false} CutKeepsWhole(p: Progress)
    ensures Whole(Cut(p)) == Whole(p)
  {
    GroupsNext(p.groups, GroupOf(p));
    assert GroupRows(Cut(p).groups) + [] == GroupRows(p.groups) + Rows(p.held.batches);
  }

  lemma {:induction false} OneBatchRows(rows: seq<Row>)
    ensures Rows([rows]) == rows
  {
    assert Rows([rows]) == rows + [];
  }

  lemma {:induction false} NothingRead(deduplicate: bool, a: Accumulated)
    ensures HasRead(deduplicate, a, [], a)
  {
    assert Rows(a.batches) + [] == Rows(a.batches) && a.seen + RowSet([]) == a.seen;
  }

  lemma {:induction false} LiftRead(deduplicate: bool, before: seq<Row>, duplicates: nat, a: Accumulated,
                                    rows: seq<Row>, b: Accumulated)
    requires HasRead(deduplicate, a, rows, b)
    ensures HasRead(deduplicate, Accumulated([before + Rows(a.batches)], a.seen, duplicates + a.duplicates), rows,
                    Accumulated([before + Rows(b.batches)], b.seen, duplicates + b.duplicates))
  {
    OneBatchRows(before + Rows(a.batches));
    OneBatchRows(before + Rows(b.batches));
    var kept := Kept(deduplicate, a.seen, rows);
    assert before + (Rows(a.batches) + kept) == before + Rows(a.batches) + kept;
  }

  lemma {:induction false} StepHasRead(config: Config, p: Progress, f: Source)
    ensures HasRead(config.deduplicate, Whole(p), ReadOf(config, p, f), Whole(StepFile(config, p, f)))
  {
    var q := TakeFile(config, p, f).0;
    CutKeepsWhole(q);
    if Accepts(p.schema, f) && f.body.Parquet? {
      ReadBatchesHasRead(config, p.held, f.body.batches);
    } else {
      NothingRead(config.deduplicate, p.held);
    }
    LiftRead(config.deduplicate, GroupRows(p.groups), GroupDuplicates(p.groups), p.held, ReadOf(config, p, f), q.held);
  }

  /**
   The output is exactly the rows read, in order, less those already seen in
   any earlier file or output: duplicates are removed across output files.
   Kept and duplicate rows add up to the rows read.
   */
  lemma {:induction false} OutputRows(config: Config, p: Progress, files: seq<Source>)
    ensures HasRead(config.deduplicate, Whole(p), ReadRows(config, p, files), Whole(Consume(config, p, files)))
    decreases |files|
  {
    if files == [] {
      NothingRead(config.deduplicate, Whole(p));
    } else {
      var next := StepFile(config, p, files[0]);
      StepHasRead(config, p, files[0]);
      OutputRows(config, next, files[1..]);
      HasReadOn(config.deduplicate, Whole(p), ReadOf(config, p, files[0]), Whole(next),
                ReadRows(config, next, files[1..]), Whole(Consume(config, p, files)));
    }
  }

  function FileRows(f: Source): seq<Row> {
    if f.body.Parquet? then Rows(f.body.batches) else []
  }

  function InputRows(files: seq<Source>): seq<Row> {
    if files == [] then [] else FileRows(files[0]) + InputRows(files[1..])
  }

  function LostOf(config: Config, p: Progress, f: Source): seq<Row> {
    if Accepts(p.schema, f) && f.body.Parquet? then Unread(config, p.held, f.body.batches) else []
  }

  /** The rows that tripped limits leave behind. */
  function LostRows(config: Config, p: Progress, files: seq<Source>): seq<Row>
    decreases |files|
  {
    if files == [] then []
    else LostOf(config, p, files[0]) + LostRows(config, StepFile(config, p, files[0]), files[1..])
  }

  lemma {:induction false} ReadOrLostFile(config: Config, p: Progress, f: Source)
    ensures ReadOf(config, p, f) + LostOf(config, p, f) == if Accepts(p.schema, f) then FileRows(f) else []
  {
    if f.body.Parquet? {
      ReadThenUnread(config, p.held, f.body.batches);
    }
  }

  lemma {:induction false} InputNext(schema: Option<Schema>, files: seq<Source>)
    requires files != []
    ensures var f := files[0];
            var next := if Accepts(schema, f) && f.body.Parquet? then Some(f.body.schema) else schema;
            InputRows(Accepted(schema, files)) ==
            (if Accepts(schema, f) then FileRows(f) else []) + InputRows(Accepted(next, files[1..]))
  {
    var f := files[0];
    var next := if Accepts(schema, f) && f.body.Parquet? then Some(f.body.schema) else schema;
    var rest := Accepted(next, files[1..]);
    assert ([f] + rest)[1..] == rest;
    assert [] + rest == rest && [] + InputRows(rest) == InputRows(rest);
  }

  lemma {:induction false} Interleave(read: seq<Row>, lost: seq<Row>, allRead: seq<Row>, losses: seq<Row>,
                                      input: seq<Row>)
    requires multiset(allRead) + multiset(losses) == multiset(input)
    requires losses == [] ==> allRead == input
    ensures multiset(read + allRead) + multiset(lost + losses) == multiset(read + lost + input)
    ensures lost + losses == [] ==> read + allRead == read + lost + input
  {
    if lost + losses == [] {
      assert lost == [] && losses == [] by {
        assert |lost + losses| == |lost| + |losses|;
      }
      assert read + lost == read;
    }
  }

  /** Every row of an accepted file is read or left behind, exactly once; with nothing left behind the order is kept. */
  lemma {:induction false} ReadOrLost(config: Config, p: Progress, files: seq<Source>)
    ensures multiset(ReadRows(config, p, files)) + multiset(LostRows(config, p, files)) ==
            multiset(InputRows(Accepted(p.schema, files)))
    ensures LostRows(config, p, files) == [] ==> ReadRows(config, p, files) == InputRows(Accepted(p.schema, files))
    decreases |files|
  {
    if files != [] {
      var f, next := files[0], StepFile(config, p, files[0]);
      ReadOrLost(config, next, files[1..]);
      ReadOrLostFile(config, p, f);
      InputNext(p.schema, files);
      Interleave(ReadOf(config, p, f), LostOf(config, p, f), ReadRows(config, next, files[1..]),
                 LostRows(config, next, files[1..]), InputRows(Accepted(next.schema, files[1..])));
    }
  }

  /** At most one of the file's batches holds rows. */
  predicate SingleBatch(f: Source) {
    f.body.Parquet? ==>
      forall i, j :: 0 <= i < j < |f.body.batches| ==> f.body.batches[i] == [] || f.body.batches[j] == []
  }

  lemma {:induction false} NoRows(batches: seq<Batch>)
    requires forall i :: 0 <= i < |batches| ==> batches[i] == []
    ensures Rows(batches) == []
  {
    if batches != [] {
      NoRows(batches[1..]);
    }
  }

  lemma {:induction false} SingleBatchReadsAll(config: Config, a: Accumulated, batches: seq<Batch>)
    requires forall i, j :: 0 <= i < j < |batches| ==> batches[i] == [] || batches[j] == []
    ensures Unread(config, a, batches) == []
    decreases |batches|
  {
    if batches != [] {
      if batches[0] != [] {
        NoRows(batches[1..]);
      }
      var next := if batches[0] == [] then a else Added(config.deduplicate, a, batches[0]);
      SingleBatchReadsAll(config, next, batches[1..]);
    }
  }

  lemma {:induction false} NothingLost(config: Config, p: Progress, files: seq<Source>)
    requires forall f <- files :: SingleBatch(f)
    ensures LostRows(config, p, files) == []
    decreases |files|
  {
    if files != [] {
      assert SingleBatch(files[0]);
      if files[0].body.Parquet? {
        SingleBatchReadsAll(config, p.held, files[0].body.batches);
      }
      NothingLost(config, StepFile(config, p, files[0]), files[1..]);
    }
  }

  // ------------------------------------------------------------------
  // When rows are left behind
  // ------------------------------------------------------------------

  /** What is held after a file's batches if none trips the limit. */
  function Absorbed(config: Config, a: Accumulated, batches: seq<Batch>): Accumulated
    decreases |batches|
  {
    if batches == [] then a
    else Absorbed(config, if batches[0] == [] then a else Added(config.deduplicate, a, batches[0]), batches[1..])
  }

  function NonEmpty(batches: seq<Batch>): seq<Batch> {
    if batches == [] then [] else (if batches[0] == [] then [] else [batches[0]]) + NonEmpty(batches[1..])
  }

  /** Without deduplication what is held is simply what came before. */
  lemma {:induction false} AbsorbedPlainly(config: Config, a: Accumulated, batches: seq<Batch>)
    requires !config.deduplicate
    ensures Absorbed(config, a, batches).batches == a.batches + NonEmpty(batches)
    decreases |batches|
  {
    if batches == [] {
      assert a.batches + [] == a.batches;
    } else if batches[0] == [] {
      AbsorbedPlainly(config, a, batches[1..]);
    } else {
      AbsorbedPlainly(config, Added(false, a, batches[0]), batches[1..]);
      Associates(a.batches, [batches[0]], NonEmpty(batches[1..]));
    }
  }

  /** Batch `k` holds rows, meets a non-empty accumulator that it lifts over the limit, and has rows behind it. */
  ghost predicate CutsAt(config: Config, a: Accumulated, batches: seq<Batch>, k: nat) {
    && k < |batches| && batches[k] != [] && NonEmpty(batches[k + 1..]) != []
    && var held := Absorbed(config, a, batches[..k]).batches;
       held != [] && Size(config, held) + config.sizeOf(batches[k]) > config.limit
  }

  lemma {:induction false} RowsOfNonEmpty(batches: seq<Batch>)
    ensures Rows(batches) != [] <==> NonEmpty(batches) != []
  {
    if batches != [] {
      RowsOfNonEmpty(batches[1..]);
      assert |Rows(batches)| == |batches[0]| + |Rows(batches[1..])|;
    }
  }

  lemma {:induction false} NonEmptyHolds(batches: seq<Batch>, k: nat)
    requires k < |batches| && batches[k] != []
    ensures NonEmpty(batches) != []
  {
    if k > 0 {
      NonEmptyHolds(batches[1..], k - 1);
      assert |NonEmpty(batches)| >= |NonEmpty(batches[1..])|;
    }
  }

  lemma {:induction false} CutsFurtherOn(config: Config, a: Accumulated, batches: seq<Batch>, k: nat)
    requires 0 < k < |batches|
    ensures var next := if batches[0] == [] then a else Added(config.deduplicate, a, batches[0]);
            CutsAt(config, a, batches, k) <==> CutsAt(config, next, batches[1..], k - 1)
  {
    assert batches[..k][1..] == batches[1..][..k - 1];
    assert batches[1..][k - 1 + 1..] == batches[k + 1..];
  }

  /** Rows of a file stay unread exactly when one of its batches trips the limit with rows behind it. */
  lemma {:induction false} UnreadExactly(config: Config, a: Accumulated, batches: seq<Batch>)
    ensures Unread(config, a, batches) != [] <==> exists k: nat :: CutsAt(config, a, batches, k)
    decreases |batches|
  {
    if batches != [] {
      var next := if batches[0] == [] then a else Added(config.deduplicate, a, batches[0]);
      RowsOfNonEmpty(batches[1..]);
      UnreadExactly(config, next, batches[1..]);
      assert batches[..0] == [];
      if k: nat :| CutsAt(config, a, batches, k) {
        if k > 0 {
          CutsFurtherOn(config, a, batches, k);
          NonEmptyHolds(batches[1..], k - 1);
        }
      }
      if k: nat :| CutsAt(config, next, batches[1..], k) {
        CutsFurtherOn(config, a, batches, k + 1);
        NonEmptyHolds(batches[1..], k);
      }
      assert batches[0] != [] && Trips(config, a, batches[0]) && Rows(batches[1..]) != [] ==>
        CutsAt(config, a, batches, 0);
    }
  }

  /** An accepted file with rows behind a batch that trips the limit. */
  ghost predicate CutsFile(config: Config, p: Progress, f: Source) {
    Accepts(p.schema, f) && f.body.Parquet? && exists k: nat :: CutsAt(config, p.held, f.body.batches, k)
  }

  /** A run loses rows exactly when it meets such a file. */
  lemma {:induction false} LostExactly(config: Config, p: Progress, files: seq<Source>)
    ensures LostRows(config, p, files) != [] <==>
              exists i: nat :: i < |files| && CutsFile(config, Consume(config, p, files[..i]), files[i])
    decreases |files|
  {
    if files != [] {
      var next := StepFile(config, p, files[0]);
      LostExactly(config, next, files[1..]);
      if Accepts(p.schema, files[0]) && files[0].body.Parquet? {
        UnreadExactly(config, p.held, files[0].body.batches);
      }
      assert |LostRows(config, p, files)| == |LostOf(config, p, files[0])| + |LostRows(config, next, files[1..])|;
      assert Consume(config, p, files[..0]) == p;
      forall i: nat | 0 < i < |files|
        ensures Consume(config, p, files[..i]) == Consume(config, next, files[1..][..i - 1])
      {
        assert files[..i][1..] == files[1..][..i - 1];
      }
      if i: nat :| i < |files[1..]| && CutsFile(config, Consume(config, next, files[1..][..i]), files[1..][i]) {
        assert CutsFile(config, Consume(config, p, files[..i + 1]), files[i + 1]);
      }
      if i: nat :| 0 < i < |files| && CutsFile(config, Consume(config, p, files[..i]), files[i]) {
        assert CutsFile(config, Consume(config, next, files[1..][..i - 1]), files[1..][i - 1]);
      }
    }
  }

  /** Without deduplication the outputs hold all rows of the accepted files, in order, exactly when no file is cut. */
  lemma {:induction false} CompleteExactly(config: Config, files: seq<Source>)
    requires !config.deduplicate
    ensures GroupRows(AllGroups(config, files)) == InputRows(Accepted(None, files)) <==>
              forall i: nat :: i < |files| ==> !CutsFile(config, Consume(config, START, files[..i]), files[i])
  {
    LostExactly(config, START, files);
    ReadOrLost(config, START, files);
    OutputOfRead(config, files);
    var read, lost, input := ReadRows(config, START, files), LostRows(config, START, files),
                             InputRows(Accepted(None, files));
    assert |multiset(read) + multiset(lost)| == |read| + |lost| && |multiset(input)| == |input|;
  }

  lemma {:induction false} FinishKeepsWhole(p: Progress)
    ensures Whole(Finish(p)) == Whole(p) && Finish(p).held.batches == []
  {
    CutKeepsWhole(p);
  }

  /** All outputs together hold what is kept of the rows read; duplicates after the last output are not in its count. */
  lemma {:induction false} OutputOfRead(config: Config, files: seq<Source>)
    ensures GroupRows(AllGroups(config, files)) == Kept(config.deduplicate, {}, ReadRows(config, START, files))
    ensures var done := Finish(Consume(config, START, files));
            |GroupRows(done.groups)| + GroupDuplicates(done.groups) + done.held.duplicates ==
              |ReadRows(config, START, files)|
  {
    OutputRows(config, START, files);
    var p := Consume(config, START, files);
    FinishKeepsWhole(p);
    OneBatchRows(Whole(p).batches[0]);
    OneBatchRows(Whole(START).batches[0]);
    assert GroupRows(Finish(p).groups) + [] == GroupRows(Finish(p).groups);
  }

  /**
   For files with one batch each, the output files together hold exactly the
   rows of all accepted files in order, without duplicates if so configured.
   */
  lemma {:induction false} SingleBatchOutput(config: Config, files: seq<Source>)
    requires forall f <- files :: SingleBatch(f)
    ensures GroupRows(AllGroups(config, files)) == Kept(config.deduplicate, {}, InputRows(Accepted(None, files)))
    ensures var done := Finish(Consume(config, START, files));
            |GroupRows(done.groups)| + GroupDuplicates(done.groups) + done.held.duplicates ==
            |InputRows(Accepted(None, files))|
  {
    NothingLost(config, START, files);
    ReadOrLost(config, START, files);
    OutputOfRead(config, files);
  }

  // ------------------------------------------------------------------
  // Output keys
  // ------------------------------------------------------------------

  /** The key of a group's output carries its latest source timestamp. */
  function LatestTime(sources: seq<Source>): Timestamp {
    if sources == [] then 0
    else
      var rest, last := LatestTime(sources[..|sources| - 1]), sources[|sources| - 1].key.Time();
      if rest >= last then rest else last
  }

  /** The sources have distinct timestamps and are sorted by them. */
  ghost predicate Ordered(sources: seq<Source>) {
    forall i, j :: 0 <= i < j < |sources| ==> sources[i].key.Time() < sources[j].key.Time()
  }

  lemma {:induction false} LatestTimeIsMember(sources: seq<Source>) returns (k: nat)
    requires sources != []
    ensures k < |sources| && sources[k].key.Time() == LatestTime(sources)
  {
    k := |sources| - 1;
    if k > 0 && LatestTime(sources[..k]) >= sources[k].key.Time() {
      k := LatestTimeIsMember(sources[..k]);
    }
  }

  lemma {:induction false} GroupAt(groups: seq<Group>, i: nat) returns (start: nat)
    requires i < |groups|
    ensures start + |groups[i].sources| <= |GroupSources(groups)|
    ensures groups[i].sources == GroupSources(groups)[start..start + |groups[i].sources|]
    ensures start == |GroupSources(groups[..i])|
  {
    var n := |groups| - 1;
    if i < n {
      start := GroupAt(groups[..n], i);
      assert groups[..n][..i] == groups[..i];
    } else {
      start := |GroupSources(groups[..n])|;
    }
  }

  lemma {:induction false} StartsGrow(groups: seq<Group>, i: nat, j: nat)
    requires i < j <= |groups|
    ensures |GroupSources(groups[..i])| + |groups[i].sources| <= |GroupSources(groups[..j])|
  {
    assert groups[..j][..j - 1] == groups[..j - 1];
    if i < j - 1 {
      StartsGrow(groups, i, j - 1);
    }
  }

  lemma {:induction false} TimesIncrease(groups: seq<Group>, accepted: seq<Source>, i: nat, j: nat)
    requires GroupSources(groups) <= accepted && Ordered(accepted) && i < j < |groups|
    requires groups[i].sources != [] && groups[j].sources != []
    ensures LatestTime(groups[i].sources) < LatestTime(groups[j].sources)
  {
    var a := GroupAt(groups, i);
    var b := GroupAt(groups, j);
    StartsGrow(groups, i, j);
    var k := LatestTimeIsMember(groups[i].sources);
    var l := LatestTimeIsMember(groups[j].sources);
    assert accepted[a + k] == GroupSources(groups)[a + k] == groups[i].sources[k];
    assert accepted[b + l] == GroupSources(groups)[b + l] == groups[j].sources[l];
  }

  lemma {:induction false} AllGroupsCover(config: Config, files: seq<Source>)
    ensures GroupSources(AllGroups(config, files)) <= Accepted(None, files)
  {
    var p := Consume(config, START, files);
    GroupsCoverAccepted(config, START, files);
    GroupsNext(p.groups, GroupOf(p));
    assert TakenSources(START) + Accepted(None, files) == Accepted(None, files);
  }

  /** Sources ordered by distinct timestamps give output files with strictly increasing keys. */
  lemma {:induction false} OutputKeysIncrease(config: Config, files: seq<Source>, i: nat, j: nat)
    requires Ordered(Accepted(None, files)) && i < j < |AllGroups(config, files)|
    requires AllGroups(config, files)[i].sources != [] && AllGroups(config, files)[j].sources != []
    ensures LatestTime(AllGroups(config, files)[i].sources) < LatestTime(AllGroups(config, files)[j].sources)
  {
    AllGroupsCover(config, files);
    TimesIncrease(AllGroups(config, files), Accepted(None, files), i, j);
  }

  // ------------------------------------------------------------------
  // Size bound
  // ------------------------------------------------------------------

  function Max(a: nat, b: nat): nat {
    if a >= b then a else b
  }

  ghost predicate BatchesWithin(config: Config, f: Source, bound: nat) {
    f.body.Parquet? ==> forall b <- f.body.batches :: config.sizeOf(b) <= bound
  }

  lemma {:induction false} ReadStaysBounded(config: Config, a: Accumulated, batches: seq<Batch>, bound: nat)
    requires !config.deduplicate && (forall b <- batches :: config.sizeOf(b) <= bound)
    requires Size(config, a.batches) <= Max(config.limit, bound)
    ensures var (held, tripped) := ReadBatches(config, a, batches);
            Size(config, held.batches) <= Max(config.limit, bound) + if tripped then bound else 0
    decreases |batches|
  {
    if batches != [] {
      var added := Added(false, a, batches[0]);
      assert batches[0] in batches;
      assert added.batches[..|a.batches|] == a.batches;
      if batches[0] == [] {
        ReadStaysBounded(config, a, batches[1..], bound);
      } else if !Trips(config, a, batches[0]) {
        ReadStaysBounded(config, added, batches[1..], bound);
      }
    }
  }

  ghost predicate Bounded(config: Config, p: Progress, bound: nat) {
    && Size(config, p.held.batches) <= Max(config.limit, bound)
    && forall g <- p.groups :: Size(config, g.batches) <= Max(config.limit, bound) + bound
  }

  lemma {:induction false} GroupsStayBounded(config: Config, p: Progress, files: seq<Source>, bound: nat)
    requires !config.deduplicate && (forall f <- files :: BatchesWithin(config, f, bound)) && Bounded(config, p, bound)
    ensures Bounded(config, Consume(config, p, files), bound)
    decreases |files|
  {
    if files != [] {
      var f := files[0];
      assert BatchesWithin(config, f, bound);
      if f.body.Parquet? {
        ReadStaysBounded(config, p.held, f.body.batches, bound);
      }
      GroupsStayBounded(config, StepFile(config, p, f), files[1..], bound);
    }
  }

  /** The limit is soft: an output may exceed the larger of the limit and one batch by one batch, and no more. */
  lemma {:induction false} OutputSize(config: Config, files: seq<Source>, bound: nat, g: Group)
    requires !config.deduplicate && forall f <- files :: BatchesWithin(config, f, bound)
    requires g in AllGroups(config, files)
    ensures Size(config, g.batches) <= Max(config.limit, bound) + bound
  {
    GroupsStayBounded(config, START, files, bound);
  }

  // ------------------------------------------------------------------
  // How full an output is
  // ------------------------------------------------------------------

  /** A first batch always goes in; with every later one the limit still held. */
  ghost predicate Filling(config: Config, batches: seq<Batch>) {
    forall k :: 2 <= k <= |batches| ==> Size(config, batches[..k]) <= config.limit
  }

  /** The last of at least two batches lifted the output over the limit, none before it did. */
  ghost predicate Overfull(config: Config, batches: seq<Batch>) {
    |batches| >= 2 && Size(config, batches) > config.limit && Filling(config, batches[..|batches| - 1])
  }

  lemma {:induction false} SizeNext(config: Config, batches: seq<Batch>, b: Batch)
    ensures Size(config, batches + [b]) == Size(config, batches) + config.sizeOf(b)
  {
    assert (batches + [b])[..|batches|] == batches;
  }

  lemma {:induction false} FillingNext(config: Config, batches: seq<Batch>, b: Batch)
    requires Filling(config, batches)
    ensures if batches != [] && Size(config, batches) + config.sizeOf(b) > config.limit
            then Overfull(config, batches + [b]) else Filling(config, batches + [b])
  {
    SizeNext(config, batches, b);
    assert (batches + [b])[..|batches|] == batches && (batches + [b])[..|batches| + 1] == batches + [b];
    forall k | 2 <= k <= |batches| ensures Size(config, (batches + [b])[..k]) <= config.limit {
      assert (batches + [b])[..k] == batches[..k];
    }
  }

  lemma {:induction false} ReadFills(config: Config, a: Accumulated, batches: seq<Batch>)
    requires !config.deduplicate && Filling(config, a.batches)
    ensures var (held, tripped) := ReadBatches(config, a, batches);
            if tripped then Overfull(config, held.batches) else Filling(config, held.batches)
    decreases |batches|
  {
    if batches != [] {
      if batches[0] == [] {
        ReadFills(config, a, batches[1..]);
      } else {
        FillingNext(config, a.batches, batches[0]);
        if Filling(config, a.batches + [batches[0]]) {
          ReadFills(config, Added(false, a, batches[0]), batches[1..]);
        }
      }
    }
  }

  lemma {:induction false} GroupsFill(config: Config, p: Progress, files: seq<Source>)
    requires !config.deduplicate && Filling(config, p.held.batches)
    requires forall g <- p.groups :: Overfull(config, g.batches)
    ensures var q := Consume(config, p, files);
            Filling(config, q.held.batches) && forall g <- q.groups :: Overfull(config, g.batches)
    decreases |files|
  {
    if files != [] {
      var f := files[0];
      if f.body.Parquet? {
        ReadFills(config, p.held, f.body.batches);
      }
      GroupsFill(config, StepFile(config, p, f), files[1..]);
    }
  }

  /**
   Without deduplication every output is over the limit and was not before its
   last batch, except one that the end of the run closes, which holds what the
   limit had room for.
   */
  lemma {:induction false} OutputsAreFull(config: Config, files: seq<Source>, i: nat)
    requires !config.deduplicate && i < |AllGroups(config, files)|
    ensures var groups := AllGroups(config, files);
            && groups[i].batches != []
            && (i < |Consume(config, START, files).groups| ==> Overfull(config, groups[i].batches))
            && (i == |Consume(config, START, files).groups| ==>
                  i == |groups| - 1 && Filling(config, groups[i].batches))
  {
    GroupsFill(config, START, files);
    var p := Consume(config, START, files);
    assert i < |p.groups| ==> AllGroups(config, files)[i] == p.groups[i] && p.groups[i] in p.groups;
  }

  /** The batches with rows of all these files. */
  function BatchesOf(files: seq<Source>): seq<Batch> {
    if files == [] then []
    else (if files[0].body.Parquet? then NonEmpty(files[0].body.batches) else []) + BatchesOf(files[1..])
  }

  lemma {:induction false} SizeConcat(config: Config, a: seq<Batch>, b: seq<Batch>)
    ensures Size(config, a + b) == Size(config, a) + Size(config, b)
    decreases |b|
  {
    if b == [] {
      assert a + b == a;
    } else {
      assert (a + b)[..|a + b| - 1] == a + b[..|b| - 1];
      SizeConcat(config, a, b[..|b| - 1]);
    }
  }

  lemma {:induction false} OneBatchSize(config: Config, b: Batch)
    ensures Size(config, [b]) == config.sizeOf(b)
  {
    assert [b][..0] == [];
  }

  lemma {:induction false} FileFits(config: Config, a: Accumulated, batches: seq<Batch>)
    requires !config.deduplicate && Size(config, a.batches) + Size(config, NonEmpty(batches)) <= config.limit
    ensures ReadBatches(config, a, batches) == (a.(batches := a.batches + NonEmpty(batches)), false)
    decreases |batches|
  {
    if batches == [] {
      assert a.batches + [] == a.batches;
    } else if batches[0] == [] {
      assert [] + NonEmpty(batches[1..]) == NonEmpty(batches[1..]);
      FileFits(config, a, batches[1..]);
    } else {
      SizeConcat(config, [batches[0]], NonEmpty(batches[1..]));
      OneBatchSize(config, batches[0]);
      SizeNext(config, a.batches, batches[0]);
      FileFits(config, Added(false, a, batches[0]), batches[1..]);
      Associates(a.batches, [batches[0]], NonEmpty(batches[1..]));
    }
  }

  /** What the first file contributes, and the schema known after it. */
  function FirstBatches(schema: Option<Schema>, f: Source): seq<Batch> {
    if Accepts(schema, f) && f.body.Parquet? then NonEmpty(f.body.batches) else []
  }

  function NextSchema(schema: Option<Schema>, f: Source): Option<Schema> {
    if Accepts(schema, f) && f.body.Parquet? then Some(f.body.schema) else schema
  }

  lemma {:induction false} BatchesNext(schema: Option<Schema>, files: seq<Source>)
    requires files != []
    ensures BatchesOf(Accepted(schema, files)) ==
            FirstBatches(schema, files[0]) + BatchesOf(Accepted(NextSchema(schema, files[0]), files[1..]))
  {
    var f, rest := files[0], Accepted(NextSchema(schema, files[0]), files[1..]);
    assert ([f] + rest)[1..] == rest;
    assert [] + rest == rest && [] + BatchesOf(rest) == BatchesOf(rest);
  }

  lemma {:induction false} StepFits(config: Config, p: Progress, f: Source)
    requires !config.deduplicate
    requires Size(config, p.held.batches) + Size(config, FirstBatches(p.schema, f)) <= config.limit
    ensures var next := StepFile(config, p, f);
            && next.groups == p.groups && next.schema == NextSchema(p.schema, f)
            && next.held.batches == p.held.batches + FirstBatches(p.schema, f)
  {
    if Accepts(p.schema, f) && f.body.Parquet? {
      FileFits(config, p.held, f.body.batches);
    } else {
      assert p.held.batches + [] == p.held.batches;
    }
  }

  lemma {:induction false} Associates(a: seq<Batch>, b: seq<Batch>, c: seq<Batch>)
    ensures a + (b + c) == a + b + c
  {
  }

  lemma {:induction false} FilesFit(config: Config, p: Progress, files: seq<Source>, all: seq<Batch>)
    requires !config.deduplicate && all == p.held.batches + BatchesOf(Accepted(p.schema, files))
    requires Size(config, all) <= config.limit
    ensures Consume(config, p, files).groups == p.groups && Consume(config, p, files).held.batches == all
    decreases |files|
  {
    if files == [] {
      assert p.held.batches + [] == p.held.batches;
    } else {
      var here := FirstBatches(p.schema, files[0]);
      var rest := BatchesOf(Accepted(NextSchema(p.schema, files[0]), files[1..]));
      BatchesNext(p.schema, files);
      Associates(p.held.batches, here, rest);
      SizeConcat(config, p.held.batches + here, rest);
      SizeConcat(config, p.held.batches, here);
      StepFits(config, p, files[0]);
      FilesFit(config, StepFile(config, p, files[0]), files[1..], all);
    }
  }

  lemma {:induction false} AllHeld(config: Config, files: seq<Source>)
    requires !config.deduplicate && Size(config, BatchesOf(Accepted(None, files))) <= config.limit
    ensures Consume(config, START, files).groups == []
    ensures Consume(config, START, files).held.batches == BatchesOf(Accepted(None, files))
  {
    var batches := BatchesOf(Accepted(None, files));
    assert START.held.batches + batches == batches;
    FilesFit(config, START, files, batches);
  }

  /** Without deduplication, what fits the limit altogether is put into one output, if there is anything. */
  lemma {:induction false} OneOutputWhenAllFits(config: Config, files: seq<Source>)
    requires !config.deduplicate && Size(config, BatchesOf(Accepted(None, files))) <= config.limit
    ensures var batches, groups := BatchesOf(Accepted(None, files)), AllGroups(config, files);
            if batches == [] then groups == [] else |groups| == 1 && groups[0].batches == batches
  {
    AllHeld(config, files);
  }

  // ------------------------------------------------------------------
  // Which files and rows take part
  // ------------------------------------------------------------------

  /** The schema of the first readable file. */
  function FirstSchema(files: seq<Source>): Option<Schema> {
    if files == [] then None
    else if files[0].body.Parquet? then Some(files[0].body.schema)
    else FirstSchema(files[1..])
  }

  /** The files without rows and those with this schema. */
  function WithSchema(schema: Option<Schema>, files: seq<Source>): seq<Source> {
    if files == [] then []
    else if files[0].body.Empty? || (files[0].body.Parquet? && schema == Some(files[0].body.schema))
    then [files[0]] + WithSchema(schema, files[1..])
    else WithSchema(schema, files[1..])
  }

  /** A file takes part exactly when it is empty or has the schema of the first readable file. */
  lemma {:induction false} AcceptedExactly(schema: Option<Schema>, files: seq<Source>)
    ensures Accepted(schema, files) == WithSchema(if schema.Some? then schema else FirstSchema(files), files)
    decreases |files|
  {
    if files != [] {
      var f := files[0];
      AcceptedExactly(if Accepts(schema, f) && f.body.Parquet? then Some(f.body.schema) else schema, files[1..]);
    }
  }

  /** One more row is kept exactly when it was neither seen before nor is among the rows in front of it. */
  lemma {:induction false} FreshSnoc(seen: set<Row>, rows: seq<Row>, r: Row)
    ensures Fresh(seen, rows + [r]) == Fresh(seen, rows) + if r in seen || r in rows then [] else [r]
  {
    FreshConcat(seen, rows, [r]);
    assert r in RowSet(rows) <==> r in rows;
    assert [r][1..] == [];
  }

  /** Every row not seen before is kept once, and no other. */
  lemma {:induction false} FreshCounts(seen: set<Row>, rows: seq<Row>, r: Row)
    ensures multiset(Fresh(seen, rows))[r] == if r in rows && r !in seen then 1 else 0
    decreases |rows|
  {
    if rows != [] {
      var n := |rows| - 1;
      assert rows == rows[..n] + [rows[n]];
      FreshSnoc(seen, rows[..n], rows[n]);
      FreshCounts(seen, rows[..n], r);
    }
  }

  /** With deduplication all outputs together hold every row that was read exactly once. */
  lemma {:induction false} OutputsHaveNoDuplicates(config: Config, files: seq<Source>, r: Row)
    requires config.deduplicate
    ensures multiset(GroupRows(AllGroups(config, files)))[r] == if r in ReadRows(config, START, files) then 1 else 0
  {
    OutputOfRead(config, files);
    FreshCounts({}, ReadRows(config, START, files), r);
  }
}
