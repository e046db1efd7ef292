/**
 The dry-run plan of a file compaction, and how its numbers relate to what the
 compaction then does. Both read the same files, but the plan closes an output
 before the batch that does not fit, the compaction after it.
 */
module FilePlan {
  import opened Wrappers
  import opened FileGroups

  datatype Plan = Plan(
    held: Accumulated,
    schema: Option<Schema>,
    filesCreated: nat,
    recordsConsolidated: nat,
    duplicatesEliminated: nat,
    filesProcessed: nat,
    last: Option<Timestamp>)

  const NO_PLAN := Plan(Accumulated([], {}, 0), None, 0, 0, 0, 0, None)

  function Close(q: Plan): Plan {
    q.(held := Taken(q.held), filesCreated := q.filesCreated + 1,
       recordsConsolidated := q.recordsConsolidated + |Rows(q.held.batches)|,
       duplicatesEliminated := q.duplicatesEliminated + q.held.duplicates)
  }

  function PlanBatches(config: Config, q: Plan, batches: seq<Batch>): Plan
    decreases |batches|
  {
    if batches == [] then q
    else if batches[0] == [] then PlanBatches(config, q, batches[1..])
    else
      var open := if Trips(config, q.held, batches[0]) then Close(q) else q;
      PlanBatches(config, open.(held := Added(config.deduplicate, open.held, batches[0])), batches[1..])
  }

  function PlanFile(config: Config, q: Plan, f: Source): Plan {
    var next := q.(filesProcessed := q.filesProcessed + 1, last := Some(f.key.Time()));
    if Accepts(q.schema, f) && f.body.Parquet? then
      PlanBatches(config, next.(schema := Some(f.body.schema)), f.body.batches)
    else next
  }

  function PlanFiles(config: Config, q: Plan, files: seq<Source>): Plan
    decreases |files|
  {
    if files == [] then q else PlanFiles(config, PlanFile(config, q, files[0]), files[1..])
  }

  function PlanOf(config: Config, files: seq<Source>): Plan {
    var q := PlanFiles(config, NO_PLAN, files);
    if q.held.batches == [] then q else Close(q)
  }

  // ------------------------------------------------------------------
  // The plan as it is computed
  // ------------------------------------------------------------------

  lemma {:induction false} PlanNext(config: Config, files: seq<Source>, n: nat)
    requires n < |files|
    ensures PlanFiles(config, NO_PLAN, files[..n + 1]) ==
              PlanFile(config, PlanFiles(config, NO_PLAN, files[..n]), files[n])
  {
    PlanConcat(config, NO_PLAN, files[..n], [files[n]]);
    assert files[..n + 1] == files[..n] + [files[n]];
    var q := PlanFiles(config, NO_PLAN, files[..n]);
    assert PlanFiles(config, PlanFile(config, q, files[n]), [files[n]][1..]) == PlanFile(config, q, files[n]);
  }

  lemma {:induction false} PlanConcat(config: Config, q: Plan, a: seq<Source>, b: seq<Source>)
    ensures PlanFiles(config, q, a + b) == PlanFiles(config, PlanFiles(config, q, a), b)
    decreases |a|
  {
    if a == [] {
      assert a + b == b;
    } else {
      assert (a + b)[1..] == a[1..] + b;
      PlanConcat(config, PlanFile(config, q, a[0]), a[1..], b);
    }
  }

  lemma {:induction false} AddedRecords(deduplicate: bool, a: Accumulated, batch: Batch)
    ensures var b := Added(deduplicate, a, batch);
            |Rows(b.batches)| == |Rows(a.batches)| + |batch| - (b.duplicates - a.duplicates)
  {
    AddedHasRead(deduplicate, a, batch);
  }

  lemma {:induction false} PlanBatchesNext(config: Config, q: Plan, batches: seq<Batch>)
    requires batches != [] && batches[0] != []
    ensures var open := if Trips(config, q.held, batches[0]) then Close(q) else q;
            PlanBatches(config, q, batches) ==
            PlanBatches(config, open.(held := Added(config.deduplicate, open.held, batches[0])), batches[1..])
  {
  }

  /** One file's batches; the totals are those of the outputs closed so far. */
  method PlanFileBatches(config: Config, accumulator: DeduplicatingAccumulator, batches: seq<Batch>, ghost q: Plan)
      returns (created: nat, records: nat, duplicates: nat)
    requires q.held == accumulator.Value() && accumulator.totalRecords == |Rows(accumulator.batches)|
    modifies accumulator
    ensures PlanBatches(config, q, batches) ==
            q.(held := accumulator.Value(), filesCreated := q.filesCreated + created,
               recordsConsolidated := q.recordsConsolidated + records,
               duplicatesEliminated := q.duplicatesEliminated + duplicates)
    ensures accumulator.totalRecords == |Rows(accumulator.batches)|
  {
    created, records, duplicates := 0, 0, 0;
    ghost var now := q;
    for k := 0 to |batches|
      invariant PlanBatches(config, q, batches) == PlanBatches(config, now, batches[k..])
      invariant now.held == accumulator.Value() && now.filesCreated == q.filesCreated + created
      invariant now.recordsConsolidated == q.recordsConsolidated + records
      invariant now.duplicatesEliminated == q.duplicatesEliminated + duplicates
      invariant now.schema == q.schema && now.filesProcessed == q.filesProcessed && now.last == q.last
      invariant accumulator.totalRecords == |Rows(accumulator.batches)|
    {
      assert batches[k..][1..] == batches[k + 1..];
      var batch := batches[k];
      if |batch| > 0 {
        PlanBatchesNext(config, now, batches[k..]);
        var size := accumulator.EstimatedSize(config);
        if accumulator.batches != [] && size + config.sizeOf(batch) > config.limit {
          now := Close(now);
          records := records + accumulator.totalRecords;
          var _, eliminated := accumulator.TakeBatches();
          created := created + 1;
          duplicates := duplicates + eliminated;
        }
        AddedRecords(config.deduplicate, accumulator.Value(), batch);
        now := now.(held := Added(config.deduplicate, now.held, batch));
        accumulator.AddBatch(batch, config.deduplicate);
      }
    }
  }

  method PlanCompaction(config: Config, files: seq<Source>) returns (plan: Plan)
    ensures plan == PlanOf(config, files)
  {
    var accumulator := new DeduplicatingAccumulator();
    plan := NO_PLAN;
    assert files[..0] == [];
    for n := 0 to |files|
      invariant fresh(accumulator)
      invariant plan == PlanFiles(config, NO_PLAN, files[..n]) && plan.held == accumulator.Value()
      invariant accumulator.totalRecords == |Rows(accumulator.batches)|
    {
      PlanNext(config, files, n);
      var f := files[n];
      plan := plan.(filesProcessed := plan.filesProcessed + 1, last := Some(f.key.Time()));
      match f.body {
        case Parquet(s, batches) =>
          if plan.schema == None || plan.schema == Some(s) {
            plan := plan.(schema := Some(s));
            var created, records, duplicates := PlanFileBatches(config, accumulator, batches, plan);
            plan := plan.(held := accumulator.Value(), filesCreated := plan.filesCreated + created,
                          recordsConsolidated := plan.recordsConsolidated + records,
                          duplicatesEliminated := plan.duplicatesEliminated + duplicates);
          }
        case _ =>
      }
    }
    assert files[..|files|] == files;
    if accumulator.batches != [] {
      var records := accumulator.totalRecords;
      var _, duplicates := accumulator.TakeBatches();
      plan := plan.(held := accumulator.Value(), filesCreated := plan.filesCreated + 1,
                    recordsConsolidated := plan.recordsConsolidated + records,
                    duplicatesEliminated := plan.duplicatesEliminated + duplicates);
    }
  }

  // ------------------------------------------------------------------
  // Records
  // ------------------------------------------------------------------

  function PlannedRecords(q: Plan): nat {
    q.recordsConsolidated + |Rows(q.held.batches)|
  }

  function PlannedDuplicates(q: Plan): nat {
    q.duplicatesEliminated + q.held.duplicates
  }

  /** `next` is `q` after reading `rows`: those kept are planned records, the others duplicates. */
  ghost predicate Counted(deduplicate: bool, q: Plan, rows: seq<Row>, next: Plan) {
    var kept := Kept(deduplicate, q.held.seen, rows);
    && PlannedRecords(next) == PlannedRecords(q) + |kept|
    && PlannedRecords(next) + PlannedDuplicates(next) == PlannedRecords(q) + PlannedDuplicates(q) + |rows|
    && (deduplicate ==> next.held.seen == q.held.seen + RowSet(rows))
  }

  lemma {:induction false} NothingCounted(deduplicate: bool, q: Plan)
    ensures Counted(deduplicate, q, [], q)
  {
    assert q.held.seen + RowSet([]) == q.held.seen;
  }

  lemma {:induction false} CountedOn(deduplicate: bool, q: Plan, r: seq<Row>, next: Plan, s: seq<Row>, last: Plan)
    requires Counted(deduplicate, q, r, next) && Counted(deduplicate, next, s, last)
    ensures Counted(deduplicate, q, r + s, last)
  {
    KeptConcat(deduplicate, q.held.seen, r, s, next.held.seen);
  }

  lemma {:induction false} BatchCounted(config: Config, q: Plan, batch: Batch)
    ensures var open := if Trips(config, q.held, batch) then Close(q) else q;
            Counted(config.deduplicate, q, batch, open.(held := Added(config.deduplicate, open.held, batch)))
  {
    var open := if Trips(config, q.held, batch) then Close(q) else q;
    AddedHasRead(config.deduplicate, open.held, batch);
  }

  lemma {:induction false} BatchesCounted(config: Config, q: Plan, batches: seq<Batch>)
    ensures Counted(config.deduplicate, q, Rows(batches), PlanBatches(config, q, batches))
    ensures PlanBatches(config, q, batches).schema == q.schema
    decreases |batches|
  {
    if batches == [] {
      NothingCounted(config.deduplicate, q);
    } else if batches[0] == [] {
      assert [] + Rows(batches[1..]) == Rows(batches[1..]);
      BatchesCounted(config, q, batches[1..]);
    } else {
      var open := if Trips(config, q.held, batches[0]) then Close(q) else q;
      var next := open.(held := Added(config.deduplicate, open.held, batches[0]));
      BatchCounted(config, q, batches[0]);
      BatchesCounted(config, next, batches[1..]);
      CountedOn(config.deduplicate, q, batches[0], next, Rows(batches[1..]), PlanBatches(config, q, batches));
    }
  }

  lemma {:induction false} FileCounted(config: Config, q: Plan, f: Source)
    ensures PlanFile(config, q, f).schema == NextSchema(q.schema, f)
    ensures Counted(config.deduplicate, q, if Accepts(q.schema, f) then FileRows(f) else [], PlanFile(config, q, f))
  {
    NothingCounted(config.deduplicate, q);
    if Accepts(q.schema, f) && f.body.Parquet? {
      BatchesCounted(config, q.(filesProcessed := q.filesProcessed + 1, last := Some(f.key.Time()),
                                schema := Some(f.body.schema)), f.body.batches);
    }
  }

  lemma {:induction false} FilesCounted(config: Config, q: Plan, files: seq<Source>)
    ensures Counted(config.deduplicate, q, InputRows(Accepted(q.schema, files)), PlanFiles(config, q, files))
    decreases |files|
  {
    if files == [] {
      NothingCounted(config.deduplicate, q);
    } else {
      var f, next := files[0], PlanFile(config, q, files[0]);
      InputNext(q.schema, files);
      FileCounted(config, q, f);
      FilesCounted(config, next, files[1..]);
      CountedOn(config.deduplicate, q, if Accepts(q.schema, f) then FileRows(f) else [], next,
                InputRows(Accepted(next.schema, files[1..])), PlanFiles(config, q, files));
    }
  }

  /**
   The plan announces as many records as the accepted files have rows, or
   distinct rows with deduplication; the duplicates it announces, and those
   found after the last output, are the other rows.
   */
  lemma {:induction false} PlanCountsExactly(config: Config, files: seq<Source>)
    ensures var plan, input := PlanOf(config, files), InputRows(Accepted(None, files));
            && plan.recordsConsolidated == |Kept(config.deduplicate, {}, input)|
            && plan.recordsConsolidated + plan.duplicatesEliminated + plan.held.duplicates == |input|
  {
    FilesCounted(config, NO_PLAN, files);
    ClosingCounts(PlanFiles(config, NO_PLAN, files));
  }

  lemma {:induction false} ClosingCounts(q: Plan)
    ensures q.held.batches == [] ==> PlannedRecords(q) == q.recordsConsolidated
    ensures Close(q).recordsConsolidated == PlannedRecords(q)
    ensures PlannedDuplicates(Close(q)) == PlannedDuplicates(q)
  {
  }

  /**
   Without deduplication the plan announces exactly the records of the output
   plus those that the compaction leaves unread at a tripped limit.
   */
  lemma {:induction false} PlannedAgainstWritten(config: Config, files: seq<Source>)
    requires !config.deduplicate
    ensures PlanOf(config, files).recordsConsolidated ==
            |GroupRows(AllGroups(config, files))| + |LostRows(config, START, files)|
  {
    PlanCountsExactly(config, files);
    ReadOrLost(config, START, files);
    OutputOfRead(config, files);
    LengthsAdd(ReadRows(config, START, files), LostRows(config, START, files), InputRows(Accepted(None, files)));
  }

  lemma {:induction false} LengthsAdd(a: seq<Row>, b: seq<Row>, c: seq<Row>)
    requires multiset(a) + multiset(b) == multiset(c)
    ensures |a| + |b| == |c|
  {
    assert |multiset(a)| == |a| && |multiset(b)| == |b| && |multiset(c)| == |c|;
  }

  // ------------------------------------------------------------------
  // Greedy stays ahead
  // ------------------------------------------------------------------

  /** The compaction has opened no more outputs than the plan, and with as many it holds no more. */
  ghost predicate Ahead(config: Config, p: Progress, q: Plan) {
    && p.schema == q.schema
    && (|| (&& |p.groups| == q.filesCreated
            && Size(config, p.held.batches) <= Size(config, q.held.batches)
            && (q.held.batches == [] ==> p.held.batches == []))
        || |p.groups| + 1 <= q.filesCreated)
  }

  lemma {:induction false} SkipEmpty(config: Config, a: Accumulated, q: Plan, batches: seq<Batch>)
    requires forall i :: 0 <= i < |batches| ==> batches[i] == []
    ensures ReadBatches(config, a, batches) == (a, false) && PlanBatches(config, q, batches) == q
    decreases |batches|
  {
    if batches != [] {
      SkipEmpty(config, a, q, batches[1..]);
    }
  }

  /** The one batch that holds rows. */
  lemma {:induction false} OneBatchAhead(config: Config, p: Progress, q: Plan, batch: Batch)
    requires !config.deduplicate && Ahead(config, p, q)
    ensures var open := if Trips(config, q.held, batch) then Close(q) else q;
            var grown := p.(held := Added(false, p.held, batch));
            Ahead(config, if Trips(config, p.held, batch) then Cut(grown) else grown,
                  open.(held := Added(false, open.held, batch)))
  {
    SizeNext(config, p.held.batches, batch);
    SizeNext(config, q.held.batches, batch);
    SizeNext(config, [], batch);
  }

  lemma {:induction false} FileAhead(config: Config, p: Progress, q: Plan, batches: seq<Batch>)
    requires !config.deduplicate && Ahead(config, p, q)
    requires forall i, j :: 0 <= i < j < |batches| ==> batches[i] == [] || batches[j] == []
    ensures var (held, tripped) := ReadBatches(config, p.held, batches);
            Ahead(config, if tripped then Cut(p.(held := held)) else p.(held := held), PlanBatches(config, q, batches))
    decreases |batches|
  {
    if batches != [] {
      if batches[0] == [] {
        FileAhead(config, p, q, batches[1..]);
      } else {
        var open := if Trips(config, q.held, batches[0]) then Close(q) else q;
        OneBatchAhead(config, p, q, batches[0]);
        SkipEmpty(config, Added(false, p.held, batches[0]), open.(held := Added(false, open.held, batches[0])),
                  batches[1..]);
      }
    }
  }

  lemma {:induction false} StaysAhead(config: Config, p: Progress, q: Plan, files: seq<Source>)
    requires !config.deduplicate && Ahead(config, p, q) && forall f <- files :: SingleBatch(f)
    ensures Ahead(config, Consume(config, p, files), PlanFiles(config, q, files))
    decreases |files|
  {
    if files != [] {
      var f := files[0];
      assert SingleBatch(f);
      var time := Some(f.key.Time());
      if Accepts(p.schema, f) && f.body.Parquet? {
        FileAhead(config,
                  p.(filesProcessed := p.filesProcessed + 1, last := time, sources := p.sources + [f],
                     schema := Some(f.body.schema)),
                  q.(filesProcessed := q.filesProcessed + 1, last := time, schema := Some(f.body.schema)),
                  f.body.batches);
      }
      assert Ahead(config, StepFile(config, p, f), PlanFile(config, q, f));
      StaysAhead(config, StepFile(config, p, f), PlanFile(config, q, f), files[1..]);
    }
  }

  /** With one batch per file the compaction writes no more files than planned, and exactly the planned records. */
  lemma {:induction false} PlanIsUpperBound(config: Config, files: seq<Source>)
    requires !config.deduplicate && forall f <- files :: SingleBatch(f)
    ensures |AllGroups(config, files)| <= PlanOf(config, files).filesCreated
    ensures |GroupRows(AllGroups(config, files))| == PlanOf(config, files).recordsConsolidated
  {
    StaysAhead(config, START, NO_PLAN, files);
    PlannedAgainstWritten(config, files);
    NothingLost(config, START, files);
  }

  lemma {:induction false} OneBatch(config: Config, a: Accumulated, q: Plan, batches: seq<Batch>)
    requires |batches| == 1 && batches[0] != []
    ensures ReadBatches(config, a, batches) == (Added(config.deduplicate, a, batches[0]), Trips(config, a, batches[0]))
    ensures var open := if Trips(config, q.held, batches[0]) then Close(q) else q;
            PlanBatches(config, q, batches) == open.(held := Added(config.deduplicate, open.held, batches[0]))
  {
    assert batches[1..] == [];
  }

  /** The bound is not an equality: two files of 6 bytes under a limit of 10 are one output, not the planned two. */
  lemma {:induction false} PlanOvercounts(config: Config)
    requires config.limit == 10 && !config.deduplicate && config.sizeOf([1]) == config.sizeOf([2]) == 6
    ensures var files := [Source(Original(0, 1), Parquet(0, [[1]])), Source(Original(0, 2), Parquet(0, [[2]]))];
            |AllGroups(config, files)| == 1 && PlanOf(config, files).filesCreated == 2
  {
    var f1, f2 := Source(Original(0, 1), Parquet(0, [[1]])), Source(Original(0, 2), Parquet(0, [[2]]));
    FirstOfTwo(config, f1);
    SecondOfTwo(config, StepFile(config, START, f1), PlanFile(config, NO_PLAN, f1), f2);
    TwoFiles(config, f1, f2);
  }

  lemma {:induction false} FirstOfTwo(config: Config, f: Source)
    requires f.body == Parquet(0, [[1]]) && !config.deduplicate
    ensures var p, q := StepFile(config, START, f), PlanFile(config, NO_PLAN, f);
            p.held.batches == [[1]] == q.held.batches && p.groups == [] && q.filesCreated == 0 &&
            p.schema == q.schema == Some(0)
  {
    OneBatch(config, START.held, NO_PLAN.(filesProcessed := 1, last := Some(f.key.Time()), schema := Some(0)), [[1]]);
  }

  lemma {:induction false} SecondOfTwo(config: Config, p: Progress, q: Plan, f: Source)
    requires config.limit == 10 && !config.deduplicate && config.sizeOf([1]) == config.sizeOf([2]) == 6
    requires f.body == Parquet(0, [[2]]) && p.held.batches == [[1]] == q.held.batches && p.schema == q.schema == Some(0)
    ensures var next, planned := StepFile(config, p, f), PlanFile(config, q, f);
            && next.held.batches == [] && |next.groups| == |p.groups| + 1
            && planned.held.batches != [] && planned.filesCreated == q.filesCreated + 1
  {
    OneBatchSize(config, [1]);
    OneBatch(config, p.held,
             q.(filesProcessed := q.filesProcessed + 1, last := Some(f.key.Time()), schema := Some(0)), [[2]]);
  }

  lemma {:induction false} TwoFiles(config: Config, f1: Source, f2: Source)
    ensures Consume(config, START, [f1, f2]) == StepFile(config, StepFile(config, START, f1), f2)
    ensures PlanFiles(config, NO_PLAN, [f1, f2]) == PlanFile(config, PlanFile(config, NO_PLAN, f1), f2)
  {
    assert [f1, f2][1..] == [f2] && [f2][1..] == [];
    var p, q := StepFile(config, START, f1), PlanFile(config, NO_PLAN, f1);
    assert Consume(config, p, [f2]) == Consume(config, StepFile(config, p, f2), []);
    assert PlanFiles(config, q, [f2]) == PlanFiles(config, PlanFile(config, q, f2), []);
  }

  // ------------------------------------------------------------------
  // Which outputs the plan announces
  // ------------------------------------------------------------------

  function Joined(outputs: seq<seq<Batch>>): seq<Batch> {
    if outputs == [] then [] else Joined(outputs[..|outputs| - 1]) + outputs[|outputs| - 1]
  }

  lemma {:induction false} JoinedNext(outputs: seq<seq<Batch>>, batches: seq<Batch>)
    ensures Joined(outputs + [batches]) == Joined(outputs) + batches
  {
    assert (outputs + [batches])[..|outputs|] == outputs;
  }

  /** Each output stays within the limit unless one batch alone exceeds it; the next one's first batch would not fit. */
  ghost predicate ClosedInTime(config: Config, outputs: seq<seq<Batch>>) {
    && (forall i :: 0 <= i < |outputs| ==> outputs[i] != [] && Filling(config, outputs[i]))
    && (forall i {:trigger outputs[i + 1]} :: 0 <= i < |outputs| - 1 ==>
          Size(config, outputs[i]) + config.sizeOf(outputs[i + 1][0]) > config.limit)
  }

  /** The plan `q` announces `outputs`, the last of them still open if anything is held. */
  ghost predicate Announces(config: Config, q: Plan, outputs: seq<seq<Batch>>, batches: seq<Batch>) {
    && Joined(outputs) == batches && ClosedInTime(config, outputs)
    && (q.held.batches != [] <==> outputs != [])
    && |outputs| == q.filesCreated + (if q.held.batches == [] then 0 else 1)
    && (outputs != [] ==> outputs[|outputs| - 1] == q.held.batches)
  }

  lemma {:induction false} LastGrows(config: Config, outputs: seq<seq<Batch>>, b: Batch)
    requires outputs != [] && ClosedInTime(config, outputs)
    requires Size(config, outputs[|outputs| - 1]) + config.sizeOf(b) <= config.limit
    ensures var n := |outputs| - 1;
            ClosedInTime(config, outputs[..n] + [outputs[n] + [b]]) &&
            Joined(outputs[..n] + [outputs[n] + [b]]) == Joined(outputs) + [b]
  {
    var n := |outputs| - 1;
    var grown := outputs[..n] + [outputs[n] + [b]];
    FillingNext(config, outputs[n], b);
    JoinedNext(outputs[..n], outputs[n] + [b]);
    assert Joined(outputs[..n]) + (outputs[n] + [b]) == Joined(outputs[..n]) + outputs[n] + [b];
    forall i | 0 <= i < n ensures Size(config, grown[i]) + config.sizeOf(grown[i + 1][0]) > config.limit {
      assert grown[i] == outputs[i] && grown[i + 1][0] == outputs[i + 1][0];
    }
  }

  lemma {:induction false} NextOpens(config: Config, outputs: seq<seq<Batch>>, b: Batch)
    requires ClosedInTime(config, outputs)
    requires outputs != [] ==> Size(config, outputs[|outputs| - 1]) + config.sizeOf(b) > config.limit
    ensures ClosedInTime(config, outputs + [[b]]) && Joined(outputs + [[b]]) == Joined(outputs) + [b]
  {
    JoinedNext(outputs, [b]);
  }

  lemma {:induction false} BatchAnnounced(config: Config, q: Plan, outputs: seq<seq<Batch>>, batches: seq<Batch>,
                                          b: Batch) returns (next: seq<seq<Batch>>)
    requires !config.deduplicate && Announces(config, q, outputs, batches)
    ensures var open := if Trips(config, q.held, b) then Close(q) else q;
            Announces(config, open.(held := Added(false, open.held, b)), next, batches + [b])
  {
    var n := |outputs| - 1;
    if outputs != [] && Size(config, outputs[n]) + config.sizeOf(b) <= config.limit {
      LastGrows(config, outputs, b);
      next := outputs[..n] + [outputs[n] + [b]];
    } else {
      NextOpens(config, outputs, b);
      next := outputs + [[b]];
    }
  }

  lemma {:induction false} PlanAnnounces(config: Config, q: Plan, outputs: seq<seq<Batch>>, batches: seq<Batch>,
                                         more: seq<Batch>) returns (next: seq<seq<Batch>>)
    requires !config.deduplicate && Announces(config, q, outputs, batches)
    ensures Announces(config, PlanBatches(config, q, more), next, batches + NonEmpty(more))
    decreases |more|
  {
    if more == [] {
      assert batches + [] == batches;
      next := outputs;
    } else if more[0] == [] {
      assert [] + NonEmpty(more[1..]) == NonEmpty(more[1..]);
      next := PlanAnnounces(config, q, outputs, batches, more[1..]);
    } else {
      var open := if Trips(config, q.held, more[0]) then Close(q) else q;
      next := BatchAnnounced(config, q, outputs, batches, more[0]);
      next := PlanAnnounces(config, open.(held := Added(false, open.held, more[0])), next, batches + [more[0]],
                            more[1..]);
      Associates(batches, [more[0]], NonEmpty(more[1..]));
    }
  }

  lemma {:induction false} PlanFileAnnounces(config: Config, q: Plan, outputs: seq<seq<Batch>>, batches: seq<Batch>,
                                             f: Source) returns (next: seq<seq<Batch>>)
    requires !config.deduplicate && Announces(config, q, outputs, batches)
    ensures Announces(config, PlanFile(config, q, f), next, batches + FirstBatches(q.schema, f))
    ensures PlanFile(config, q, f).schema == NextSchema(q.schema, f)
  {
    next := outputs;
    if Accepts(q.schema, f) && f.body.Parquet? {
      var begun := q.(filesProcessed := q.filesProcessed + 1, last := Some(f.key.Time()),
                      schema := Some(f.body.schema));
      next := PlanAnnounces(config, begun, outputs, batches, f.body.batches);
      BatchesCounted(config, begun, f.body.batches);
    } else {
      assert batches + [] == batches;
    }
  }

  lemma {:induction false} PlanFilesAnnounce(config: Config, q: Plan, outputs: seq<seq<Batch>>, batches: seq<Batch>,
                                             files: seq<Source>) returns (next: seq<seq<Batch>>)
    requires !config.deduplicate && Announces(config, q, outputs, batches)
    ensures Announces(config, PlanFiles(config, q, files), next, batches + BatchesOf(Accepted(q.schema, files)))
    decreases |files|
  {
    if files == [] {
      assert batches + [] == batches;
      next := outputs;
    } else {
      var here := FirstBatches(q.schema, files[0]);
      var rest := BatchesOf(Accepted(NextSchema(q.schema, files[0]), files[1..]));
      BatchesNext(q.schema, files);
      next := PlanFileAnnounces(config, q, outputs, batches, files[0]);
      next := PlanFilesAnnounce(config, PlanFile(config, q, files[0]), next, batches + here, files[1..]);
      Associates(batches, here, rest);
    }
  }

  /**
   Without deduplication the announced outputs divide the batches of all
   accepted files, in order, into runs that stay within the limit and are closed
   only before a batch that would not fit.
   */
  lemma {:induction false} PlanDividesBatches(config: Config, files: seq<Source>) returns (outputs: seq<seq<Batch>>)
    requires !config.deduplicate
    ensures |outputs| == PlanOf(config, files).filesCreated
    ensures Joined(outputs) == BatchesOf(Accepted(None, files)) && ClosedInTime(config, outputs)
  {
    assert Joined([]) == [];
    outputs := PlanFilesAnnounce(config, NO_PLAN, [], [], files);
    assert [] + BatchesOf(Accepted(None, files)) == BatchesOf(Accepted(None, files));
  }

  lemma {:induction false} OutputsWithin(config: Config, outputs: seq<seq<Batch>>, i: nat)
    requires i < |outputs| - 1 && outputs[i + 1] != []
    ensures Size(config, outputs[i]) + config.sizeOf(outputs[i + 1][0]) <= Size(config, Joined(outputs))
  {
    var n := |outputs| - 1;
    SizeConcat(config, Joined(outputs[..n]), outputs[n]);
    if i + 1 < n {
      OutputsWithin(config, outputs[..n], i);
    } else {
      SizeConcat(config, Joined(outputs[..n][..n - 1]), outputs[n - 1]);
      FirstWithin(config, outputs[n]);
    }
  }

  lemma {:induction false} FirstWithin(config: Config, batches: seq<Batch>)
    requires batches != []
    ensures config.sizeOf(batches[0]) <= Size(config, batches)
  {
    SizeConcat(config, batches[..1], batches[1..]);
    OneBatchSize(config, batches[0]);
    assert batches == batches[..1] + batches[1..] && batches[..1] == [batches[0]];
  }

  /** A plan over files that fit the limit altogether announces one output, if there is anything to write. */
  lemma {:induction false} OnePlannedWhenAllFits(config: Config, files: seq<Source>)
    requires !config.deduplicate && Size(config, BatchesOf(Accepted(None, files))) <= config.limit
    ensures PlanOf(config, files).filesCreated == if BatchesOf(Accepted(None, files)) == [] then 0 else 1
  {
    var outputs := PlanDividesBatches(config, files);
    if |outputs| > 1 {
      OutputsWithin(config, outputs, 0);
    }
    if |outputs| == 1 {
      assert outputs[..0] == [];
    }
  }
}
