/**
 A whole compaction run against a bucket: list, skip what has a marker, read
 and group in download phases, upload, mark, delete. Requests to the bucket can
 fail one by one.
 */
module FileCompactor {
  import opened Wrappers
  import opened FileGroups

  /** The keys for which marking, removing, checking for a marker or downloading fails. */
  datatype Faults = Faults(mark: set<Key>, remove: set<Key>, head: set<Key>, download: set<Key>)

  datatype Error = NoSourceFiles | UploadFailed | DownloadFailed

  function KeysOf(sources: seq<Source>): set<Key> {
    set f <- sources :: f.key
  }

  function Markers(keys: set<Key>): set<Key> {
    set k <- keys :: Processed(k)
  }

  /** The bucket after a group was uploaded, marked and perhaps deleted. */
  function Effect(config: Config, faults: Faults, objects: map<Key, Body>, g: Group): map<Key, Body> {
    var keys := KeysOf(g.sources);
    var uploaded := objects[Compacted(LatestTime(g.sources)) := Parquet(g.schema, g.batches)];
    var marked := uploaded + (map k <- Markers(keys) - faults.mark :: k := Empty);
    if config.deleteOriginals then marked - ((keys + Markers(keys)) - faults.remove) else marked
  }

  function Effects(config: Config, faults: Faults, objects: map<Key, Body>, groups: seq<Group>): map<Key, Body> {
    if groups == [] then objects
    else Effect(config, faults, Effects(config, faults, objects, groups[..|groups| - 1]), groups[|groups| - 1])
  }

  lemma {:induction false} EffectsNext(config: Config, faults: Faults, objects: map<Key, Body>, groups: seq<Group>,
                                       g: Group)
    ensures Effects(config, faults, objects, groups + [g]) ==
            Effect(config, faults, Effects(config, faults, objects, groups), g)
  {
    assert (groups + [g])[..|groups|] == groups;
  }

  lemma {:induction false} MarkOneMore(objects: map<Key, Body>, done: set<Key>, k: Key, failing: set<Key>)
    ensures var before := objects + (map m <- Markers(done) - failing :: m := Empty);
            objects + (map m <- Markers(done + {k}) - failing :: m := Empty) ==
            if Processed(k) in failing then before else before[Processed(k) := Empty]
  {
    assert Markers(done + {k}) == Markers(done) + {Processed(k)};
  }

  class Store {
    var objects: map<Key, Body>
    var puts: nat
    const faults: Faults
    const uploadFails: seq<bool>

    constructor (objects: map<Key, Body>, faults: Faults, uploadFails: seq<bool>)
      ensures this.objects == objects && puts == 0 && this.faults == faults && this.uploadFails == uploadFails
    {
      this.objects, puts, this.faults, this.uploadFails := objects, 0, faults, uploadFails;
    }

    predicate Refuses(put: nat) {
      put < |uploadFails| && uploadFails[put]
    }

    /** The number of puts after one upload that starts when there have been `puts`; it gives up after three. */
    function Uploaded(puts: nat): Option<nat> {
      if !Refuses(puts) then Some(puts + 1)
      else if !Refuses(puts + 1) then Some(puts + 2)
      else if !Refuses(puts + 2) then Some(puts + 3)
      else None
    }

    /** The number of puts after `n` uploads, none of which was given up. */
    function UploadedAll(puts: nat, n: nat): Option<nat> {
      if n == 0 then Some(puts)
      else match UploadedAll(puts, n - 1)
        case None => None
        case Some(q) => Uploaded(q)
    }

    lemma {:induction false} NoneAfterNone(puts: nat, m: nat, n: nat)
      requires m <= n && UploadedAll(puts, m) == None
      ensures UploadedAll(puts, n) == None
    {
      if m < n {
        NoneAfterNone(puts, m, n - 1);
      }
    }

    method PutFile(key: Key, body: Body) returns (ok: bool)
      modifies this
      ensures puts == old(puts) + 1 && ok == !Refuses(old(puts))
      ensures objects == if ok then old(objects)[key := body] else old(objects)
    {
      ok := !Refuses(puts);
      puts := puts + 1;
      if ok {
        objects := objects[key := body];
      }
    }

    method CreateProcessedMarkers(keys: set<Key>)
      modifies this`objects
      ensures objects == old(objects) + (map k <- Markers(keys) - faults.mark :: k := Empty)
    {
      var todo := keys;
      while todo != {}
        invariant todo <= keys
        invariant objects == old(objects) + (map k <- Markers(keys - todo) - faults.mark :: k := Empty)
        decreases todo
      {
        var k :| k in todo;
        MarkOneMore(old(objects), keys - todo, k, faults.mark);
        assert keys - (todo - {k}) == keys - todo + {k};
        if Processed(k) !in faults.mark {
          objects := objects[Processed(k) := Empty];
        }
        todo := todo - {k};
      }
      assert keys - todo == keys;
    }

    /** The files that could not be removed; their markers are removed all the same. */
    method DeleteOriginalFiles(keys: set<Key>) returns (failed: set<Key>)
      modifies this`objects
      ensures objects == old(objects) - ((keys + Markers(keys)) - faults.remove)
      ensures failed == keys * faults.remove
    {
      var todo := keys;
      failed := {};
      while todo != {}
        invariant todo <= keys && failed == (keys - todo) * faults.remove
        invariant objects == old(objects) - (((keys - todo) + Markers(keys - todo)) - faults.remove)
        decreases todo
      {
        var k :| k in todo;
        if k in faults.remove {
          failed := failed + {k};
        } else {
          objects := objects - {k};
        }
        if Processed(k) !in faults.remove {
          objects := objects - {Processed(k)};
        }
        todo := todo - {k};
        assert Markers(keys - todo) == Markers(keys - todo - {k}) + {Processed(k)};
      }
      assert keys - todo == keys;
    }
  }

  const UPLOAD_ATTEMPTS: nat := 3

  /** Upload with retries; sources are marked and deleted only after an upload succeeded. */
  method FinalizeAndUpload(store: Store, config: Config, g: Group) returns (r: Result<set<Key>, Error>)
    modifies store
    ensures r.Ok? ==> store.objects == Effect(config, store.faults, old(store.objects), g)
    ensures r.Ok? ==> r.value == if config.deleteOriginals then KeysOf(g.sources) * store.faults.remove else {}
    ensures r.Err? ==> store.objects == old(store.objects)
    ensures r == Err(NoSourceFiles) <==> g.sources == []
    ensures g.sources != [] ==>
              if r.Ok? then store.Uploaded(old(store.puts)) == Some(store.puts)
              else store.Uploaded(old(store.puts)) == None && r.error == UploadFailed
    ensures r.Err? && g.sources != [] <==>
              g.sources != [] && forall n :: old(store.puts) <= n < old(store.puts) + UPLOAD_ATTEMPTS ==>
                store.Refuses(n)
  {
    if g.sources == [] {
      return Err(NoSourceFiles);
    }
    var key, body := Compacted(LatestTime(g.sources)), Parquet(g.schema, g.batches);
    var uploaded := false;
    var attempt: nat := 0;
    while attempt < UPLOAD_ATTEMPTS && !uploaded
      invariant attempt <= UPLOAD_ATTEMPTS && store.puts == old(store.puts) + attempt
      invariant uploaded ==> attempt > 0 && !store.Refuses(store.puts - 1)
      invariant forall n :: old(store.puts) <= n < store.puts - 1 ==> store.Refuses(n)
      invariant !uploaded ==> forall n :: old(store.puts) <= n < store.puts ==> store.Refuses(n)
      invariant store.objects == if uploaded then old(store.objects)[key := body] else old(store.objects)
    {
      uploaded := store.PutFile(key, body);
      attempt := attempt + 1;
    }
    if !uploaded {
      return Err(UploadFailed);
    }
    store.CreateProcessedMarkers(KeysOf(g.sources));
    var failures := {};
    if config.deleteOriginals {
      failures := store.DeleteOriginalFiles(KeysOf(g.sources));
    }
    return Ok(failures);
  }

  // ------------------------------------------------------------------
  // The files to process
  // ------------------------------------------------------------------

  /** Stable insertion in timestamp order. */
  function InsertByTime(k: Key, keys: seq<Key>): seq<Key> {
    if keys == [] || k.Time() <= keys[0].Time() then [k] + keys
    else [keys[0]] + InsertByTime(k, keys[1..])
  }

  function SortByTime(keys: seq<Key>): seq<Key> {
    if keys == [] then [] else InsertByTime(keys[0], SortByTime(keys[1..]))
  }

  lemma {:induction false} InsertMembers(k: Key, keys: seq<Key>)
    ensures forall x :: x in InsertByTime(k, keys) <==> x == k || x in keys
  {
    if keys != [] && k.Time() > keys[0].Time() {
      InsertMembers(k, keys[1..]);
      assert keys == [keys[0]] + keys[1..];
    }
  }

  lemma {:induction false} SortMembers(keys: seq<Key>)
    ensures forall x :: x in SortByTime(keys) <==> x in keys
  {
    if keys != [] {
      SortMembers(keys[1..]);
      InsertMembers(keys[0], SortByTime(keys[1..]));
      assert keys == [keys[0]] + keys[1..];
    }
  }

  function AtTime(t: Timestamp, keys: seq<Key>): seq<Key> {
    if keys == [] then []
    else (if keys[0].Time() == t then [keys[0]] else []) + AtTime(t, keys[1..])
  }

  lemma {:induction false} InsertIsStable(k: Key, keys: seq<Key>, t: Timestamp)
    ensures AtTime(t, InsertByTime(k, keys)) == (if k.Time() == t then [k] else []) + AtTime(t, keys)
  {
    if keys == [] || k.Time() <= keys[0].Time() {
      assert ([k] + keys)[1..] == keys;
    } else {
      InsertIsStable(k, keys[1..], t);
      assert InsertByTime(k, keys)[1..] == InsertByTime(k, keys[1..]);
      assert [] + AtTime(t, keys) == AtTime(t, keys);
    }
  }

  /** Files of one timestamp are processed in the order in which they were listed. */
  lemma {:induction false} SortIsStable(keys: seq<Key>, t: Timestamp)
    ensures AtTime(t, SortByTime(keys)) == AtTime(t, keys)
  {
    if keys != [] {
      SortIsStable(keys[1..], t);
      InsertIsStable(keys[0], SortByTime(keys[1..]), t);
    }
  }

  ghost predicate InTimeOrder(keys: seq<Key>) {
    forall i, j :: 0 <= i < j < |keys| ==> keys[i].Time() <= keys[j].Time()
  }

  lemma {:induction false} SortSorts(keys: seq<Key>)
    ensures InTimeOrder(SortByTime(keys))
  {
    if keys != [] {
      SortSorts(keys[1..]);
      InsertSorts(keys[0], SortByTime(keys[1..]));
    }
  }

  lemma {:induction false} InsertSorts(k: Key, keys: seq<Key>)
    requires InTimeOrder(keys)
    ensures InTimeOrder(InsertByTime(k, keys))
  {
    if keys != [] && k.Time() > keys[0].Time() {
      var rest := InsertByTime(k, keys[1..]);
      InsertSorts(k, keys[1..]);
      InsertMembers(k, keys[1..]);
      forall i | 0 <= i < |rest| ensures keys[0].Time() <= rest[i].Time() {
        assert rest[i] in rest;
      }
    }
  }

  function Uncompacted(listing: seq<Key>): seq<Key> {
    if listing == [] then []
    else (if listing[0].IsCompacted() then [] else [listing[0]]) + Uncompacted(listing[1..])
  }

  lemma {:induction false} UncompactedMembers(listing: seq<Key>)
    ensures forall k :: k in Uncompacted(listing) <==> k in listing && !k.IsCompacted()
  {
    if listing != [] {
      UncompactedMembers(listing[1..]);
      assert listing == [listing[0]] + listing[1..];
    }
  }

  /** A failed check counts as "no marker". */
  predicate AlreadyProcessed(objects: map<Key, Body>, faults: Faults, k: Key) {
    Processed(k) in objects && k !in faults.head
  }

  function ToProcess(objects: map<Key, Body>, faults: Faults, keys: seq<Key>): seq<Source> {
    if keys == [] then []
    else
      (if keys[0] !in objects || AlreadyProcessed(objects, faults, keys[0]) then []
       else [Source(keys[0], objects[keys[0]])])
      + ToProcess(objects, faults, keys[1..])
  }

  lemma {:induction false} ToProcessMembers(objects: map<Key, Body>, faults: Faults, keys: seq<Key>)
    ensures forall f <- ToProcess(objects, faults, keys) ::
              f.key in keys && f.key in objects && f.body == objects[f.key] && !AlreadyProcessed(objects, faults, f.key)
    ensures forall k <- keys :: k in objects && !AlreadyProcessed(objects, faults, k) ==>
              Source(k, objects[k]) in ToProcess(objects, faults, keys)
  {
    if keys != [] {
      ToProcessMembers(objects, faults, keys[1..]);
      assert keys == [keys[0]] + keys[1..];
    }
  }

  /** The sources of a run over a listing, in processing order. */
  function FilesOf(objects: map<Key, Body>, faults: Faults, listing: seq<Key>): seq<Source> {
    ToProcess(objects, faults, SortByTime(Uncompacted(listing)))
  }

  lemma {:induction false} FilesOfMembers(objects: map<Key, Body>, faults: Faults, listing: seq<Key>)
    ensures forall f <- FilesOf(objects, faults, listing) ::
              && f.key in listing && !f.key.IsCompacted() && f.key in objects && f.body == objects[f.key]
              && !AlreadyProcessed(objects, faults, f.key)
    ensures forall k <- listing :: !k.IsCompacted() && k in objects && !AlreadyProcessed(objects, faults, k) ==>
              Source(k, objects[k]) in FilesOf(objects, faults, listing)
  {
    var keys := SortByTime(Uncompacted(listing));
    UncompactedMembers(listing);
    SortMembers(Uncompacted(listing));
    ToProcessMembers(objects, faults, keys);
  }

  // ------------------------------------------------------------------
  // Bodies do not change under a run
  // ------------------------------------------------------------------

  /** Markers are empty, and the bucket still holds what it held under every other uncompacted key, or nothing. */
  ghost predicate Stable(start: map<Key, Body>, objects: map<Key, Body>) {
    && (forall k <- objects :: k.Processed? ==> objects[k] == Empty)
    && (forall k <- objects :: k.Original? ==> k in start && objects[k] == start[k])
  }

  lemma {:induction false} EffectsStable(config: Config, faults: Faults, objects: map<Key, Body>, groups: seq<Group>)
    requires Stable(objects, objects)
    ensures Stable(objects, Effects(config, faults, objects, groups))
  {
    if groups != [] {
      EffectsStable(config, faults, objects, groups[..|groups| - 1]);
    }
  }

  ghost predicate Snapshot(objects: map<Key, Body>, files: seq<Source>) {
    forall f <- files :: !f.key.IsCompacted() && f.key in objects && f.body == objects[f.key]
  }

  /** The files still have these bodies, unless they are gone. */
  ghost predicate Unaltered(objects: map<Key, Body>, files: seq<Source>) {
    forall f <- files :: f.key in objects ==> objects[f.key] == f.body
  }

  lemma {:induction false} StayUnaltered(config: Config, faults: Faults, start: map<Key, Body>, groups: seq<Group>,
                                         files: seq<Source>, some: seq<Source>)
    requires Stable(start, start) && Snapshot(start, files) && forall f <- some :: f in files
    ensures Unaltered(Effects(config, faults, start, groups), some)
  {
    EffectsStable(config, faults, start, groups);
  }

  // ------------------------------------------------------------------
  // Execution
  // ------------------------------------------------------------------

  method ReadFile(config: Config, accumulator: DeduplicatingAccumulator, batches: seq<Batch>) returns (tripped: bool)
    modifies accumulator
    ensures ReadBatches(config, old(accumulator.Value()), batches) == (accumulator.Value(), tripped)
  {
    tripped := false;
    var k := 0;
    while k < |batches|
      invariant k <= |batches|
      invariant ReadBatches(config, old(accumulator.Value()), batches) ==
                ReadBatches(config, accumulator.Value(), batches[k..])
    {
      assert batches[k..][1..] == batches[k + 1..];
      var batch := batches[k];
      k := k + 1;
      if |batch| == 0 {
        continue;
      }
      var size := accumulator.EstimatedSize(config);
      if accumulator.batches != [] && size + config.sizeOf(batch) > config.limit {
        accumulator.AddBatch(batch, config.deduplicate);
        return true;
      }
      accumulator.AddBatch(batch, config.deduplicate);
    }
  }

  /** One downloaded file. */
  method ReadSource(config: Config, accumulator: DeduplicatingAccumulator, p: Progress, f: Source)
      returns (q: Progress, tripped: bool)
    requires p.held == accumulator.Value()
    modifies accumulator
    ensures (q, tripped) == TakeFile(config, p, f) && q.held == accumulator.Value()
    ensures StepFile(config, p, f) == (if tripped then Cut(q) else q) && (tripped ==> q.sources != [])
  {
    q, tripped := p.(filesProcessed := p.filesProcessed + 1, last := Some(f.key.Time())), false;
    match f.body {
      case Empty =>
        q := q.(sources := q.sources + [f]);
      case Unreadable =>
      case Parquet(schema, batches) =>
        if q.schema == None || q.schema == Some(schema) {
          tripped := ReadFile(config, accumulator, batches);
          q := q.(held := accumulator.Value(), sources := q.sources + [f], schema := Some(schema));
        }
    }
  }

  predicate Reachable(faults: Faults, objects: map<Key, Body>, f: Source) {
    f.key !in faults.download && f.key in objects
  }

  /** Every file can be downloaded when its turn comes: nothing has removed it by then. */
  ghost predicate Downloads(config: Config, faults: Faults, start: map<Key, Body>, p: Progress, files: seq<Source>)
    decreases |files|
  {
    files == [] ||
    (&& Reachable(faults, Effects(config, faults, start, p.groups), files[0])
     && Downloads(config, faults, start, StepFile(config, p, files[0]), files[1..]))
  }

  lemma {:induction false} DownloadsExactly(config: Config, faults: Faults, start: map<Key, Body>, p: Progress,
                                            files: seq<Source>)
    ensures Downloads(config, faults, start, p, files) <==>
              forall i :: 0 <= i < |files| ==>
                Reachable(faults, Effects(config, faults, start, Consume(config, p, files[..i]).groups), files[i])
    decreases |files|
  {
    if files != [] {
      var next := StepFile(config, p, files[0]);
      DownloadsExactly(config, faults, start, next, files[1..]);
      assert files[..0] == [];
      forall i | 0 < i < |files|
        ensures Consume(config, p, files[..i]) == Consume(config, next, files[1..][..i - 1])
      {
        assert files[..i][1..] == files[1..][..i - 1];
      }
      assert forall i :: 0 < i < |files| ==> files[1..][i - 1] == files[i];
      assert forall i :: 0 <= i < |files[1..]| ==> files[1..][i] == files[i + 1];
    }
  }

  /** Download and read files until the limit trips, a download fails, or nothing remains. */
  method DownloadPhase(store: Store, config: Config, accumulator: DeduplicatingAccumulator, remaining: seq<Source>,
                       p: Progress, ghost start: map<Key, Body>)
      returns (r: Result<bool, Error>, q: Progress, consumed: nat)
    requires p.held == accumulator.Value() && store.objects == Effects(config, store.faults, start, p.groups)
    requires Unaltered(store.objects, remaining)
    modifies accumulator
    ensures consumed <= |remaining| && q.groups == p.groups && q.held == accumulator.Value()
    ensures r == Ok(true) ==>
              0 < consumed && Consume(config, p, remaining) == Consume(config, Cut(q), remaining[consumed..])
    ensures r == Ok(false) ==> consumed == |remaining| && Consume(config, p, remaining) == q
    ensures r == Ok(true) ==>
              (Downloads(config, store.faults, start, p, remaining) <==>
               Downloads(config, store.faults, start, Cut(q), remaining[consumed..]))
    ensures r != Ok(true) ==> (r.Ok? <==> Downloads(config, store.faults, start, p, remaining))
    ensures r.Err? ==> r.error == DownloadFailed
    ensures r == Ok(true) ==> q.sources != []
  {
    q, consumed := p, 0;
    while consumed < |remaining|
      invariant consumed <= |remaining| && q.groups == p.groups && q.held == accumulator.Value()
      invariant Downloads(config, store.faults, start, p, remaining) <==>
                Downloads(config, store.faults, start, q, remaining[consumed..])
      invariant Consume(config, p, remaining) == Consume(config, q, remaining[consumed..])
    {
      var f := remaining[consumed];
      assert f in remaining && remaining[consumed..][0] == f;
      assert remaining[consumed..][1..] == remaining[consumed + 1..];
      if f.key in store.faults.download || f.key !in store.objects {
        return Err(DownloadFailed), q, consumed;
      }
      consumed := consumed + 1;
      var tripped;
      q, tripped := ReadSource(config, accumulator, q, Source(f.key, store.objects[f.key]));
      if tripped {
        return Ok(true), q, consumed;
      }
    }
    return Ok(false), q, consumed;
  }

  lemma {:induction false} GroupsOnlyGrow(config: Config, p: Progress, files: seq<Source>)
    ensures p.groups <= Finish(Consume(config, p, files)).groups
    decreases |files|
  {
    if files != [] {
      GroupsOnlyGrow(config, StepFile(config, p, files[0]), files[1..]);
    }
  }

  function LastTime(keys: seq<Key>): Option<Timestamp> {
    if keys == [] then None else Some(keys[|keys| - 1].Time())
  }

  datatype CompactionResult = CompactionResult(
    filesProcessed: nat,
    lastProcessed: Option<Timestamp>,
    filesCreated: nat,
    recordsConsolidated: nat,
    duplicatesEliminated: nat,
    deletionFailures: set<Key>)

  /** The listed keys that a marker excludes, in processing order. */
  function Skipped(objects: map<Key, Body>, faults: Faults, keys: seq<Key>): seq<Key> {
    if keys == [] then []
    else (if AlreadyProcessed(objects, faults, keys[0]) then [keys[0]] else []) + Skipped(objects, faults, keys[1..])
  }

  function SkippedOf(objects: map<Key, Body>, faults: Faults, listing: seq<Key>): seq<Key> {
    Skipped(objects, faults, SortByTime(Uncompacted(listing)))
  }

  /** Skipped files count as processed; they give the last timestamp only if nothing else was processed. */
  function Completed(report: CompactionResult, skipped: seq<Key>, files: seq<Source>): CompactionResult {
    report.(filesProcessed := |skipped| + |files|,
            lastProcessed := if files == [] then LastTime(skipped) else Some(files[|files| - 1].key.Time()))
  }

  lemma {:induction false} ConsumeCounts(config: Config, p: Progress, files: seq<Source>)
    ensures var q := Consume(config, p, files);
            && q.filesProcessed == p.filesProcessed + |files|
            && q.last == if files == [] then p.last else Some(files[|files| - 1].key.Time())
    decreases |files|
  {
    if files != [] {
      ConsumeCounts(config, StepFile(config, p, files[0]), files[1..]);
    }
  }

  lemma {:induction false} FinalFigures(config: Config, files: seq<Source>, skipped: seq<Key>,
                                        report: CompactionResult)
    ensures var p := Consume(config, START, files);
            report.(filesProcessed := |skipped| + p.filesProcessed,
                    lastProcessed := if p.last.Some? then p.last else LastTime(skipped))
            == Completed(report, skipped, files)
  {
    ConsumeCounts(config, START, files);
  }

  lemma {:induction false} InsertLength(k: Key, keys: seq<Key>)
    ensures |InsertByTime(k, keys)| == |keys| + 1
  {
    if keys != [] && k.Time() > keys[0].Time() {
      InsertLength(k, keys[1..]);
    }
  }

  lemma {:induction false} SortLength(keys: seq<Key>)
    ensures |SortByTime(keys)| == |keys|
  {
    if keys != [] {
      SortLength(keys[1..]);
      InsertLength(keys[0], SortByTime(keys[1..]));
    }
  }

  lemma {:induction false} SkippedOrTaken(objects: map<Key, Body>, faults: Faults, keys: seq<Key>)
    requires forall k <- keys :: k in objects
    ensures |Skipped(objects, faults, keys)| + |ToProcess(objects, faults, keys)| == |keys|
  {
    if keys != [] {
      SkippedOrTaken(objects, faults, keys[1..]);
    }
  }

  /** A run that finishes counts every uncompacted file of its listing as processed. */
  lemma {:induction false} EveryFileIsProcessed(objects: map<Key, Body>, faults: Faults, listing: seq<Key>,
                                                report: CompactionResult)
    requires forall k <- listing :: k in objects
    ensures Completed(report, SkippedOf(objects, faults, listing), FilesOf(objects, faults, listing)).filesProcessed ==
            |Uncompacted(listing)|
  {
    var keys := SortByTime(Uncompacted(listing));
    UncompactedMembers(listing);
    SortMembers(Uncompacted(listing));
    SortLength(Uncompacted(listing));
    SkippedOrTaken(objects, faults, keys);
  }

  /** What a run reports about its groups. */
  function Report(config: Config, faults: Faults, groups: seq<Group>): CompactionResult {
    CompactionResult(0, None, |groups|, |GroupRows(groups)|, GroupDuplicates(groups),
                     if config.deleteOriginals then KeysOf(GroupSources(groups)) * faults.remove else {})
  }

  function WithGroup(report: CompactionResult, g: Group, failures: set<Key>): CompactionResult {
    report.(filesCreated := report.filesCreated + 1,
            recordsConsolidated := report.recordsConsolidated + |Rows(g.batches)|,
            duplicatesEliminated := report.duplicatesEliminated + g.duplicates,
            deletionFailures := report.deletionFailures + failures)
  }

  lemma {:induction false} ReportNext(config: Config, faults: Faults, groups: seq<Group>, g: Group)
    ensures Report(config, faults, groups + [g]) ==
            WithGroup(Report(config, faults, groups), g,
                      if config.deleteOriginals then KeysOf(g.sources) * faults.remove else {})
  {
    GroupsNext(groups, g);
    assert KeysOf(GroupSources(groups) + g.sources) == KeysOf(GroupSources(groups)) + KeysOf(g.sources);
  }

  /**
   The figures of a report are about what was read: the records are the rows
   kept of those read, the duplicates the others, up to those after the last
   output; without deduplication every row read is a record.
   */
  lemma {:induction false} ReportedRows(config: Config, faults: Faults, files: seq<Source>)
    ensures var report, read := Report(config, faults, AllGroups(config, files)), ReadRows(config, START, files);
            && report.recordsConsolidated == |Kept(config.deduplicate, {}, read)|
            && report.recordsConsolidated + report.duplicatesEliminated
               + Finish(Consume(config, START, files)).held.duplicates == |read|
            && |read| + |LostRows(config, START, files)| == |InputRows(Accepted(None, files))|
            && report.filesCreated == |AllGroups(config, files)|
  {
    OutputOfRead(config, files);
    ReadOrLost(config, START, files);
    assert |multiset(ReadRows(config, START, files))| == |ReadRows(config, START, files)|;
    assert |multiset(LostRows(config, START, files))| == |LostRows(config, START, files)|;
    assert |multiset(InputRows(Accepted(None, files)))| == |InputRows(Accepted(None, files))|;
  }

  /** Upload one group and add it to the report. */
  method UploadGroup(store: Store, config: Config, accumulator: DeduplicatingAccumulator, p: Progress,
                     report: CompactionResult, ghost start: map<Key, Body>)
      returns (r: Result<CompactionResult, Error>)
    requires p.held == accumulator.Value()
    requires store.objects == Effects(config, store.faults, start, p.groups)
    requires report == Report(config, store.faults, p.groups)
    modifies store, accumulator
    ensures p.sources != [] ==>
              if r.Ok? then store.Uploaded(old(store.puts)) == Some(store.puts)
              else store.Uploaded(old(store.puts)) == None && r.error == UploadFailed
    ensures r.Ok? ==>
              && accumulator.Value() == Cut(p).held
              && store.objects == Effects(config, store.faults, start, Cut(p).groups)
              && r.value == Report(config, store.faults, Cut(p).groups)
    ensures r.Err? ==> store.objects == Effects(config, store.faults, start, p.groups)
  {
    var batches, duplicates := accumulator.TakeBatches();
    var g := Group(p.sources, if p.schema.Some? then p.schema.value else 0, batches, duplicates);
    assert Cut(p).groups == p.groups + [g];
    var uploaded := FinalizeAndUpload(store, config, g);
    match uploaded {
      case Err(e) => return Err(e);
      case Ok(failures) =>
        EffectsNext(config, store.faults, start, p.groups, g);
        ReportNext(config, store.faults, p.groups, g);
        return Ok(WithGroup(report, g, failures));
    }
  }

  /** What a run over `files` that began with bucket `start` after `puts` puts leaves behind. */
  ghost predicate Ended(store: Store, config: Config, start: map<Key, Body>, puts: nat, files: seq<Source>, ok: bool)
    reads store
  {
    var groups := AllGroups(config, files);
    if ok then
      && store.objects == Effects(config, store.faults, start, groups)
      && Downloads(config, store.faults, start, START, files)
      && store.UploadedAll(puts, |groups|) == Some(store.puts)
    else
      && (exists n :: 0 <= n <= |groups| && store.objects == Effects(config, store.faults, start, groups[..n]))
      && !(Downloads(config, store.faults, start, START, files) && store.UploadedAll(puts, |groups|).Some?)
  }

  /** The run has got as far as `p`, with `remaining` still to be read. */
  ghost predicate Underway(store: Store, config: Config, start: map<Key, Body>, puts: nat, files: seq<Source>,
                           p: Progress, remaining: seq<Source>)
    reads store
  {
    && Consume(config, START, files) == Consume(config, p, remaining)
    && store.objects == Effects(config, store.faults, start, p.groups)
    && (Downloads(config, store.faults, start, START, files) <==>
        Downloads(config, store.faults, start, p, remaining))
    && store.UploadedAll(puts, |p.groups|) == Some(store.puts)
  }

  lemma {:induction false} EndsUnread(store: Store, config: Config, start: map<Key, Body>, puts: nat,
                                      files: seq<Source>, p: Progress, remaining: seq<Source>)
    requires Underway(store, config, start, puts, files, p, remaining)
    requires !Downloads(config, store.faults, start, p, remaining)
    ensures Ended(store, config, start, puts, files, false)
  {
    GroupsOnlyGrow(config, p, remaining);
    Prefix(p.groups, AllGroups(config, files));
  }

  lemma {:induction false} EndsUnsent(store: Store, config: Config, start: map<Key, Body>, puts: nat,
                                      files: seq<Source>, p: Progress, remaining: seq<Source>)
    requires store.objects == Effects(config, store.faults, start, p.groups)
    requires Cut(p).groups <= AllGroups(config, files) && store.UploadedAll(puts, |p.groups| + 1) == None
    ensures Ended(store, config, start, puts, files, false)
  {
    Prefix(p.groups, AllGroups(config, files));
    store.NoneAfterNone(puts, |p.groups| + 1, |AllGroups(config, files)|);
  }

  lemma {:induction false} EndsWell(store: Store, config: Config, start: map<Key, Body>, puts: nat,
                                    files: seq<Source>, groups: seq<Group>)
    requires groups == AllGroups(config, files) && store.objects == Effects(config, store.faults, start, groups)
    requires Downloads(config, store.faults, start, START, files)
    requires store.UploadedAll(puts, |groups|) == Some(store.puts)
    ensures Ended(store, config, start, puts, files, true)
  {
  }

  /** The download phases; each but the last ends with an upload. */
  method DownloadAll(store: Store, config: Config, accumulator: DeduplicatingAccumulator, files: seq<Source>,
                     ghost start: map<Key, Body>, ghost puts: nat)
      returns (r: Result<CompactionResult, Error>, p: Progress)
    requires Stable(start, start) && Snapshot(start, files) && store.objects == start && store.puts == puts
    requires accumulator.Value() == START.held
    modifies store, accumulator
    ensures if r.Ok? then p.held == accumulator.Value() && r.value == Report(config, store.faults, p.groups) &&
                          Underway(store, config, start, puts, files, p, [])
            else Ended(store, config, start, puts, files, false)
  {
    var remaining, report := files, CompactionResult(0, None, 0, 0, 0, {});
    p := START;
    while remaining != []
      invariant p.held == accumulator.Value() && forall f <- remaining :: f in files
      invariant Underway(store, config, start, puts, files, p, remaining)
      invariant report == Report(config, store.faults, p.groups)
      decreases |remaining|
    {
      StayUnaltered(config, store.faults, start, p.groups, files, remaining);
      var phase, q, consumed := DownloadPhase(store, config, accumulator, remaining, p, start);
      if phase.Err? {
        EndsUnread(store, config, start, puts, files, p, remaining);
        return Err(phase.error), q;
      }
      remaining := remaining[consumed..];
      p := q;
      if !phase.value {
        break;
      }
      GroupsOnlyGrow(config, Cut(q), remaining);
      var uploaded := UploadGroup(store, config, accumulator, q, report, start);
      if uploaded.Err? {
        EndsUnsent(store, config, start, puts, files, q, remaining);
        return Err(uploaded.error), q;
      }
      report, p := uploaded.value, Cut(q);
    }
    r := Ok(report);
  }

  /** All download phases and the last upload. */
  method ProcessFiles(store: Store, config: Config, files: seq<Source>)
      returns (r: Result<CompactionResult, Error>, p: Progress)
    requires Stable(store.objects, store.objects) && Snapshot(store.objects, files)
    modifies store
    ensures Ended(store, config, old(store.objects), old(store.puts), files, r.Ok?)
    ensures r.Ok? ==> p == Consume(config, START, files)
    ensures r.Ok? ==> r.value == Report(config, store.faults, AllGroups(config, files))
  {
    ghost var start, puts := store.objects, store.puts;
    var accumulator := new DeduplicatingAccumulator();
    r, p := DownloadAll(store, config, accumulator, files, start, puts);
    if r.Err? {
      return;
    }
    GroupsNonempty(config, START, files);
    if accumulator.batches == [] {
      EndsWell(store, config, start, puts, files, p.groups);
    } else {
      r := UploadGroup(store, config, accumulator, p, r.value, start);
      if r.Ok? {
        EndsWell(store, config, start, puts, files, Cut(p).groups);
      } else {
        EndsUnsent(store, config, start, puts, files, p, []);
      }
    }
  }

  /**
   A run succeeds exactly when every file can be downloaded in its turn and no
   upload is refused three times in a row. It has then uploaded, marked and
   deleted for all groups; one that fails, for an initial part of them and
   nothing else.
   */
  method Execute(store: Store, config: Config, listing: seq<Key>) returns (r: Result<CompactionResult, Error>)
    requires Stable(store.objects, store.objects)
    modifies store
    ensures Ended(store, config, old(store.objects), old(store.puts),
                  FilesOf(old(store.objects), store.faults, listing), r.Ok?)
    ensures var files := FilesOf(old(store.objects), store.faults, listing);
            r.Ok? ==> r.value == Completed(Report(config, store.faults, AllGroups(config, files)),
                                           SkippedOf(old(store.objects), store.faults, listing), files)
  {
    var files := FilesOf(store.objects, store.faults, listing);
    var skipped := SkippedOf(store.objects, store.faults, listing);
    FilesOfMembers(store.objects, store.faults, listing);
    var processed, p := ProcessFiles(store, config, files);
    match processed {
      case Err(e) =>
        return Err(e);
      case Ok(report) =>
        FinalFigures(config, files, skipped, report);
        var last := if p.last.Some? then p.last else LastTime(skipped);
        return Ok(report.(filesProcessed := |skipped| + p.filesProcessed, lastProcessed := last));
    }
  }

  lemma {:induction false} Prefix(part: seq<Group>, whole: seq<Group>)
    ensures part <= whole ==> part == whole[..|part|]
  {
  }

  // ------------------------------------------------------------------
  // Sources are deleted only when their rows are in the bucket
  // ------------------------------------------------------------------

  /** An original that is gone belongs to a group that was uploaded. */
  lemma {:induction false} GoneMeansGrouped(config: Config, faults: Faults, objects: map<Key, Body>,
                                            groups: seq<Group>, k: Key)
    requires k.Original? && k in objects && k !in Effects(config, faults, objects, groups)
    ensures config.deleteOriginals && k !in faults.remove && exists g <- groups :: k in KeysOf(g.sources)
  {
    var most, last := groups[..|groups| - 1], groups[|groups| - 1];
    assert last in groups && forall g <- most :: g in groups;
    if k !in Effects(config, faults, objects, most) {
      GoneMeansGrouped(config, faults, objects, most, k);
    }
  }

  /** The bucket holds `body` as the output of time `time`. */
  ghost predicate HasOutput(objects: map<Key, Body>, time: Timestamp, body: Body) {
    Compacted(time) in objects && objects[Compacted(time)] == body
  }

  ghost predicate FromUncompacted(g: Group) {
    forall f <- g.sources :: !f.key.IsCompacted()
  }

  /** The steps of `Effect` only touch the output's own key and keys of sources and markers. */
  lemma {:induction false} MarkingKeepsOutputs(config: Config, faults: Faults, objects: map<Key, Body>, g: Group,
                                               time: Timestamp, body: Body)
    requires FromUncompacted(g)
    requires if time == LatestTime(g.sources) then body == Parquet(g.schema, g.batches)
             else HasOutput(objects, time, body)
    ensures HasOutput(Effect(config, faults, objects, g), time, body)
  {
    var key := Compacted(time);
    assert key !in KeysOf(g.sources) && key !in Markers(KeysOf(g.sources));
  }

  /** What was uploaded stays, as long as no later group has the same timestamp. */
  lemma {:induction false} UploadStays(config: Config, faults: Faults, objects: map<Key, Body>, groups: seq<Group>,
                                       i: nat, time: Timestamp)
    requires i < |groups| && forall j :: 0 <= j < |groups| ==> FromUncompacted(groups[j])
    requires time == LatestTime(groups[i].sources)
    requires forall j :: i < j < |groups| ==> LatestTime(groups[j].sources) != time
    ensures HasOutput(Effects(config, faults, objects, groups), time, Parquet(groups[i].schema, groups[i].batches))
  {
    var n := |groups| - 1;
    if i < n {
      UploadStays(config, faults, objects, groups[..n], i, time);
    }
    MarkingKeepsOutputs(config, faults, Effects(config, faults, objects, groups[..n]), groups[n], time,
                        Parquet(groups[i].schema, groups[i].batches));
  }

  lemma {:induction false} InputConcat(a: seq<Source>, b: seq<Source>)
    ensures InputRows(a + b) == InputRows(a) + InputRows(b)
  {
    if a == [] {
      assert a + b == b;
    } else {
      assert (a + b)[1..] == a[1..] + b;
      InputConcat(a[1..], b);
    }
  }

  /** Without deduplication, what is held and every output are exactly the rows of their own sources. */
  ghost predicate OwnRows(p: Progress) {
    Rows(p.held.batches) == InputRows(p.sources) && forall g <- p.groups :: Rows(g.batches) == InputRows(g.sources)
  }

  lemma {:induction false} StepOwnRows(config: Config, p: Progress, f: Source)
    requires !config.deduplicate && SingleBatch(f) && OwnRows(p)
    ensures OwnRows(StepFile(config, p, f))
  {
    InputConcat(p.sources, [f]);
    assert [f][1..] == [] && InputRows([f]) == FileRows(f) + [];
    assert InputRows(p.sources) + [] == InputRows(p.sources);
    if f.body.Parquet? {
      ReadThenUnread(config, p.held, f.body.batches);
      SingleBatchReadsAll(config, p.held, f.body.batches);
      ReadBatchesHasRead(config, p.held, f.body.batches);
      assert FileRead(config, p.held, f.body.batches) + [] == FileRead(config, p.held, f.body.batches);
    }
  }

  lemma {:induction false} ConsumeOwnRows(config: Config, p: Progress, files: seq<Source>)
    requires !config.deduplicate && OwnRows(p) && forall f <- files :: SingleBatch(f)
    ensures OwnRows(Consume(config, p, files))
    decreases |files|
  {
    if files != [] {
      assert SingleBatch(files[0]);
      StepOwnRows(config, p, files[0]);
      ConsumeOwnRows(config, StepFile(config, p, files[0]), files[1..]);
    }
  }

  lemma {:induction false} GroupSourcesMember(groups: seq<Group>, f: Source)
    ensures f in GroupSources(groups) <==> exists g <- groups :: f in g.sources
  {
    if groups != [] {
      var n := |groups| - 1;
      GroupSourcesMember(groups[..n], f);
      assert groups == groups[..n] + [groups[n]];
    }
  }

  /** The bucket has the group's output, and that is exactly the rows of the group's sources. */
  ghost predicate KeepsRows(objects: map<Key, Body>, g: Group) {
    HasOutput(objects, LatestTime(g.sources), Parquet(g.schema, g.batches)) && Rows(g.batches) == InputRows(g.sources)
  }

  lemma {:induction false} LaterGroupsHaveOtherTimes(config: Config, files: seq<Source>, i: nat, j: nat)
    requires Ordered(Accepted(None, files)) && i < j < |AllGroups(config, files)|
    ensures LatestTime(AllGroups(config, files)[j].sources) != LatestTime(AllGroups(config, files)[i].sources)
  {
    var all := AllGroups(config, files);
    GroupsNonempty(config, START, files);
    assert all[i] in all && all[j] in all;
    OutputKeysIncrease(config, files, i, j);
  }

  lemma {:induction false} GroupsAreUncompacted(config: Config, faults: Faults, objects: map<Key, Body>,
                                                listing: seq<Key>, n: nat)
    requires n <= |AllGroups(config, FilesOf(objects, faults, listing))|
    ensures forall g <- AllGroups(config, FilesOf(objects, faults, listing))[..n] :: FromUncompacted(g)
  {
    SourcesUncompacted(config, objects, faults, listing);
  }

  lemma {:induction false} GroupsOwnRows(config: Config, files: seq<Source>, i: nat)
    requires !config.deduplicate && (forall f <- files :: SingleBatch(f)) && i < |AllGroups(config, files)|
    ensures var g := AllGroups(config, files)[i]; Rows(g.batches) == InputRows(g.sources)
  {
    ConsumeOwnRows(config, START, files);
    assert OwnRows(Finish(Consume(config, START, files)));
    assert AllGroups(config, files)[i] in AllGroups(config, files);
  }

  lemma {:induction false} GroupsAreKept(config: Config, faults: Faults, objects: map<Key, Body>, listing: seq<Key>,
                                         n: nat, i: nat)
    requires !config.deduplicate
    requires var files := FilesOf(objects, faults, listing);
             && (forall f <- files :: SingleBatch(f)) && Ordered(Accepted(None, files))
             && i < n <= |AllGroups(config, files)|
    ensures var groups := AllGroups(config, FilesOf(objects, faults, listing))[..n];
            KeepsRows(Effects(config, faults, objects, groups), groups[i])
  {
    var files := FilesOf(objects, faults, listing);
    var groups := AllGroups(config, files)[..n];
    GroupsOwnRows(config, files, i);
    GroupsAreUncompacted(config, faults, objects, listing, n);
    forall j | i < j < n ensures LatestTime(groups[j].sources) != LatestTime(groups[i].sources) {
      LaterGroupsHaveOtherTimes(config, files, i, j);
    }
    UploadStays(config, faults, objects, groups, i, LatestTime(groups[i].sources));
  }

  /**
   With one batch per file and distinct timestamps, whenever a run has deleted
   a source, whether the run went on to succeed or not, some output in the
   bucket holds exactly the rows of a group that the source belongs to.
   */
  lemma {:induction false} DeletedRowsAreKept(config: Config, faults: Faults, objects: map<Key, Body>,
                                              listing: seq<Key>, n: nat, k: Key)
    requires !config.deduplicate
    requires var files := FilesOf(objects, faults, listing);
             && (forall f <- files :: SingleBatch(f)) && Ordered(Accepted(None, files))
             && n <= |AllGroups(config, files)|
             && k.Original? && k in objects && k !in Effects(config, faults, objects, AllGroups(config, files)[..n])
    ensures var groups := AllGroups(config, FilesOf(objects, faults, listing))[..n];
            exists g <- groups :: k in KeysOf(g.sources) && KeepsRows(Effects(config, faults, objects, groups), g)
  {
    var groups := AllGroups(config, FilesOf(objects, faults, listing))[..n];
    GoneMeansGrouped(config, faults, objects, groups, k);
    var g :| g in groups && k in KeysOf(g.sources);
    var i :| 0 <= i < n && groups[i] == g;
    GroupsAreKept(config, faults, objects, listing, n, i);
  }

  // ------------------------------------------------------------------
  // Rows of deleted sources, duplicates removed or not
  // ------------------------------------------------------------------

  ghost predicate InOutputs(groups: seq<Group>, r: Row) {
    exists g <- groups :: r in Rows(g.batches)
  }

  ghost predicate Holds(p: Progress, r: Row) {
    r in Rows(p.held.batches) || InOutputs(p.groups, r)
  }

  /** Every row seen, and every row of a source taken, is held or in an output; a group's, in one up to its own. */
  ghost predicate RowsCovered(p: Progress) {
    && (forall r <- p.held.seen :: Holds(p, r))
    && (forall f <- p.sources, r <- FileRows(f) :: Holds(p, r))
    && (forall i, f, r :: 0 <= i < |p.groups| && f in p.groups[i].sources && r in FileRows(f) ==>
          InOutputs(p.groups[..i + 1], r))
  }

  lemma {:induction false} FreshCovers(seen: set<Row>, rows: seq<Row>, r: Row)
    requires r in rows
    ensures r in seen || r in Fresh(seen, rows)
    decreases |rows|
  {
    if rows[0] != r {
      assert rows == [rows[0]] + rows[1..];
      FreshCovers(if rows[0] in seen then seen else seen + {rows[0]}, rows[1..], r);
    }
  }

  lemma {:induction false} ReadingCovers(deduplicate: bool, a: Accumulated, rows: seq<Row>, b: Accumulated, r: Row)
    requires HasRead(deduplicate, a, rows, b) && (!deduplicate ==> b.seen == a.seen)
    ensures r in Rows(a.batches) ==> r in Rows(b.batches)
    ensures r in rows ==> r in a.seen || r in Rows(b.batches)
    ensures r in b.seen ==> r in a.seen || r in Rows(b.batches)
  {
    assert r in Rows(b.batches) <==> r in Rows(a.batches) || r in Kept(deduplicate, a.seen, rows);
    if deduplicate && r in rows {
      FreshCovers(a.seen, rows, r);
    }
  }

  lemma {:induction false} ReadingSeesNothing(config: Config, a: Accumulated, batches: seq<Batch>)
    requires !config.deduplicate
    ensures ReadBatches(config, a, batches).0.seen == a.seen
    decreases |batches|
  {
    if batches != [] {
      ReadingSeesNothing(config, if batches[0] == [] then a else Added(false, a, batches[0]), batches[1..]);
    }
  }

  lemma {:induction false} OutputsGrow(groups: seq<Group>, g: Group, r: Row)
    ensures InOutputs(groups + [g], r) <==> InOutputs(groups, r) || r in Rows(g.batches)
  {
    assert (groups + [g])[|groups|] == g;
  }

  lemma {:induction false} TakingCovers(config: Config, p: Progress, f: Source)
    requires SingleBatch(f) && RowsCovered(p)
    ensures RowsCovered(TakeFile(config, p, f).0)
  {
    var q := TakeFile(config, p, f).0;
    if Accepts(p.schema, f) && f.body.Parquet? {
      ReadBatchesHasRead(config, p.held, f.body.batches);
      SingleBatchReadsAll(config, p.held, f.body.batches);
      ReadThenUnread(config, p.held, f.body.batches);
      var rows := FileRead(config, p.held, f.body.batches);
      assert rows + [] == rows == FileRows(f);
      if !config.deduplicate {
        ReadingSeesNothing(config, p.held, f.body.batches);
      }
      forall r
        ensures Holds(p, r) ==> Holds(q, r)
        ensures r in rows || r in q.held.seen ==> Holds(q, r)
      {
        ReadingCovers(config.deduplicate, p.held, rows, q.held, r);
      }
      assert q.groups == p.groups && q.sources == p.sources + [f];
    } else {
      assert q.held == p.held && q.groups == p.groups;
      assert forall r :: Holds(p, r) <==> Holds(q, r);
      assert FileRows(f) == [] || q.sources == p.sources;
    }
  }

  lemma {:induction false} CuttingCovers(q: Progress)
    requires RowsCovered(q)
    ensures RowsCovered(Cut(q))
  {
    var cut := Cut(q);
    forall r ensures Holds(q, r) <==> InOutputs(cut.groups, r) {
      OutputsGrow(q.groups, GroupOf(q), r);
    }
    forall i, f, r | 0 <= i < |cut.groups| && f in cut.groups[i].sources && r in FileRows(f)
      ensures InOutputs(cut.groups[..i + 1], r)
    {
      if i < |q.groups| {
        assert cut.groups[..i + 1] == q.groups[..i + 1];
      } else {
        assert cut.groups[..i + 1] == cut.groups;
      }
    }
  }

  lemma {:induction false} ConsumeCovers(config: Config, p: Progress, files: seq<Source>)
    requires RowsCovered(p) && forall f <- files :: SingleBatch(f)
    ensures RowsCovered(Consume(config, p, files))
    decreases |files|
  {
    if files != [] {
      assert SingleBatch(files[0]);
      TakingCovers(config, p, files[0]);
      CuttingCovers(TakeFile(config, p, files[0]).0);
      ConsumeCovers(config, StepFile(config, p, files[0]), files[1..]);
    }
  }

  lemma {:induction false} GroupsCoverRows(config: Config, files: seq<Source>, i: nat, f: Source, r: Row)
    requires (forall g <- files :: SingleBatch(g)) && i < |AllGroups(config, files)|
    requires f in AllGroups(config, files)[i].sources && r in FileRows(f)
    ensures InOutputs(AllGroups(config, files)[..i + 1], r)
  {
    ConsumeCovers(config, START, files);
    CuttingCovers(Consume(config, START, files));
  }

  lemma {:induction false} OutputIsThere(config: Config, faults: Faults, objects: map<Key, Body>, listing: seq<Key>,
                                         n: nat, j: nat)
    requires var files := FilesOf(objects, faults, listing);
             Ordered(Accepted(None, files)) && j < n <= |AllGroups(config, files)|
    ensures var groups := AllGroups(config, FilesOf(objects, faults, listing))[..n];
            HasOutput(Effects(config, faults, objects, groups), LatestTime(groups[j].sources),
                      Parquet(groups[j].schema, groups[j].batches))
  {
    var files := FilesOf(objects, faults, listing);
    var groups := AllGroups(config, files)[..n];
    GroupsAreUncompacted(config, faults, objects, listing, n);
    forall k | j < k < n ensures LatestTime(groups[k].sources) != LatestTime(groups[j].sources) {
      LaterGroupsHaveOtherTimes(config, files, j, k);
    }
    UploadStays(config, faults, objects, groups, j, LatestTime(groups[j].sources));
  }

  /** The bucket has the output of a group with this row. */
  ghost predicate RowIsOut(objects: map<Key, Body>, groups: seq<Group>, r: Row) {
    exists g <- groups ::
      r in Rows(g.batches) && HasOutput(objects, LatestTime(g.sources), Parquet(g.schema, g.batches))
  }

  /**
   With one batch per file and distinct timestamps, duplicates removed or not:
   whenever a run has deleted a source, whether the run went on to succeed or
   not, each row of the source is in an output that is in the bucket.
   */
  lemma {:induction false} DeletedRowsAreOut(config: Config, faults: Faults, objects: map<Key, Body>,
                                             listing: seq<Key>, n: nat, k: Key, r: Row)
    requires var files := FilesOf(objects, faults, listing);
             && (forall f <- files :: SingleBatch(f)) && Ordered(Accepted(None, files))
             && n <= |AllGroups(config, files)|
             && k.Original? && k in objects && k !in Effects(config, faults, objects, AllGroups(config, files)[..n])
    requires r in FileRows(Source(k, objects[k]))
    ensures var groups := AllGroups(config, FilesOf(objects, faults, listing))[..n];
            RowIsOut(Effects(config, faults, objects, groups), groups, r)
  {
    var files := FilesOf(objects, faults, listing);
    var groups := AllGroups(config, files)[..n];
    GoneMeansGrouped(config, faults, objects, groups, k);
    var g :| g in groups && k in KeysOf(g.sources);
    var i: nat :| i < n && groups[i] == g;
    var f :| f in g.sources && f.key == k;
    GroupedSource(config, faults, objects, listing, i, f);
    GroupsCoverRows(config, files, i, f, r);
    var h :| h in AllGroups(config, files)[..i + 1] && r in Rows(h.batches);
    var j: nat :| j <= i && AllGroups(config, files)[j] == h;
    OutputIsThere(config, faults, objects, listing, n, j);
    assert groups[j] == h && h in groups;
  }

  lemma {:induction false} GroupedSource(config: Config, faults: Faults, objects: map<Key, Body>, listing: seq<Key>,
                                         i: nat, f: Source)
    requires var groups := AllGroups(config, FilesOf(objects, faults, listing));
             i < |groups| && f in groups[i].sources
    ensures f.key in objects && f.body == objects[f.key]
  {
    var groups := AllGroups(config, FilesOf(objects, faults, listing));
    SourcesUncompacted(config, objects, faults, listing);
    FilesOfMembers(objects, faults, listing);
    assert groups[i] in groups;
  }

  lemma {:induction false} SourcesUncompacted(config: Config, objects: map<Key, Body>, faults: Faults,
                                              listing: seq<Key>)
    ensures forall g <- AllGroups(config, FilesOf(objects, faults, listing)), f <- g.sources ::
              !f.key.IsCompacted() && f in FilesOf(objects, faults, listing)
  {
    var files := FilesOf(objects, faults, listing);
    var groups := AllGroups(config, files);
    FilesOfMembers(objects, faults, listing);
    AllGroupsCover(config, files);
    forall g, f | g in groups && f in g.sources ensures !f.key.IsCompacted() && f in files {
      GroupSourcesMember(groups, f);
      assert f in Accepted(None, files);
      AcceptedMembers(None, files, f);
    }
  }

  lemma {:induction false} AcceptedMembers(schema: Option<Schema>, files: seq<Source>, f: Source)
    requires f in Accepted(schema, files)
    ensures f in files
    decreases |files|
  {
    if files != [] {
      var next := if Accepts(schema, files[0]) && files[0].body.Parquet? then Some(files[0].body.schema) else schema;
      if f in Accepted(next, files[1..]) {
        AcceptedMembers(next, files[1..], f);
      }
    }
  }

  /** Rows can only be held when some source was taken. */
  lemma {:induction false} GroupsNonempty(config: Config, p: Progress, files: seq<Source>)
    requires (p.held.batches != [] ==> p.sources != []) && forall g <- p.groups :: g.sources != []
    ensures var q := Consume(config, p, files);
            (q.held.batches != [] ==> q.sources != []) && forall g <- Finish(q).groups :: g.sources != []
    decreases |files|
  {
    if files != [] {
      GroupsNonempty(config, StepFile(config, p, files[0]), files[1..]);
    }
  }

  // ------------------------------------------------------------------
  // A second run
  // ------------------------------------------------------------------

  predicate HasRows(f: Source) {
    FileRows(f) != []
  }

  lemma {:induction false} ReadingHolds(config: Config, a: Accumulated, batches: seq<Batch>)
    requires !config.deduplicate
    ensures a.batches != [] || Rows(batches) != [] <==> ReadBatches(config, a, batches).0.batches != []
    decreases |batches|
  {
    if batches != [] {
      ReadingHolds(config, if batches[0] == [] then a else Added(false, a, batches[0]), batches[1..]);
    }
  }

  /** A source with rows is never left over while nothing is held. */
  ghost predicate RowsPending(p: Progress) {
    p.held.batches == [] ==> forall f <- p.sources :: !HasRows(f)
  }

  lemma {:induction false} ConsumeRowsPending(config: Config, p: Progress, files: seq<Source>)
    requires !config.deduplicate && RowsPending(p)
    ensures RowsPending(Consume(config, p, files))
    decreases |files|
  {
    if files != [] {
      if files[0].body.Parquet? {
        ReadingHolds(config, p.held, files[0].body.batches);
      }
      ConsumeRowsPending(config, StepFile(config, p, files[0]), files[1..]);
    }
  }

  /** Every accepted source with rows ends up in a group. */
  lemma {:induction false} RowsAreGrouped(config: Config, files: seq<Source>, f: Source)
    requires !config.deduplicate && f in Accepted(None, files) && HasRows(f)
    ensures f in GroupSources(AllGroups(config, files))
  {
    var p := Consume(config, START, files);
    GroupsCoverAccepted(config, START, files);
    ConsumeRowsPending(config, START, files);
    assert TakenSources(START) + Accepted(None, files) == Accepted(None, files);
    assert f in GroupSources(p.groups) || f in p.sources;
    GroupsNext(p.groups, GroupOf(p));
  }

  lemma {:induction false} NoRowsNoGroups(config: Config, p: Progress, files: seq<Source>)
    requires !config.deduplicate && p.held.batches == [] && forall f <- files :: !HasRows(f)
    ensures Finish(Consume(config, p, files)).groups == p.groups
    decreases |files|
  {
    if files != [] {
      assert !HasRows(files[0]);
      if files[0].body.Parquet? {
        NoTrip(config, p.held, files[0].body.batches);
      }
      NoRowsNoGroups(config, StepFile(config, p, files[0]), files[1..]);
    }
  }

  lemma {:induction false} NoTrip(config: Config, a: Accumulated, batches: seq<Batch>)
    requires Rows(batches) == []
    ensures ReadBatches(config, a, batches) == (a, false)
    decreases |batches|
  {
    if batches != [] {
      NoTrip(config, a, batches[1..]);
    }
  }

  /** Keeping originals, with every marker written: every source is marked, nothing else changes among the sources. */
  lemma {:induction false} EffectsMark(config: Config, faults: Faults, objects: map<Key, Body>, groups: seq<Group>)
    requires !config.deleteOriginals && faults.mark == {}
    ensures var after := Effects(config, faults, objects, groups);
            && (forall k <- objects :: k in after)
            && (forall f <- GroupSources(groups) :: Processed(f.key) in after)
            && (forall k <- after :: k.Processed? && k !in objects ==> after[k] == Empty)
  {
    if groups != [] {
      var n := |groups| - 1;
      EffectsMark(config, faults, objects, groups[..n]);
      forall f | f in groups[n].sources ensures Processed(f.key) in Effects(config, faults, objects, groups) {
        assert f.key in KeysOf(groups[n].sources);
        assert Processed(f.key) in Markers(KeysOf(groups[n].sources));
      }
    }
  }

  /** Every uncompacted object in the window is listed, and nothing else is. */
  ghost predicate Lists(objects: map<Key, Body>, window: (Timestamp, Timestamp), listing: seq<Key>) {
    forall k :: k in listing <==> k in objects && window.0 < k.Time() <= window.1
  }

  /** A file of the second run has no rows. */
  lemma {:induction false} SecondRunFile(config: Config, faults: Faults, objects: map<Key, Body>,
                                         window: (Timestamp, Timestamp), first: seq<Key>, second: seq<Key>, f: Source)
    requires !config.deleteOriginals && !config.deduplicate && faults.mark == faults.head == {}
    requires Stable(objects, objects) && Lists(objects, window, first)
    requires var files := FilesOf(objects, faults, first);
             var after := Effects(config, faults, objects, AllGroups(config, files));
             && (forall g <- files :: HasRows(g) ==> g in Accepted(None, files))
             && Lists(after, window, second) && f in FilesOf(after, faults, second)
    ensures !HasRows(f)
  {
    var files := FilesOf(objects, faults, first);
    var groups := AllGroups(config, files);
    var after := Effects(config, faults, objects, groups);
    FilesOfMembers(objects, faults, first);
    FilesOfMembers(after, faults, second);
    EffectsStable(config, faults, objects, groups);
    EffectsMark(config, faults, objects, groups);
    var k := f.key;
    if k.Original? && HasRows(f) {
      assert k in objects && objects[k] == f.body;
      assert Processed(k) !in objects;
      assert Source(k, objects[k]) in files;
      RowsAreGrouped(config, files, f);
    }
  }

  /**
   Running again over the same window, with originals kept, every marker
   written and one schema, writes nothing: the marker objects that are listed
   now hold no rows, and every file with rows is marked.
   */
  lemma {:induction false} SecondRunWritesNothing(config: Config, faults: Faults, objects: map<Key, Body>,
                                                  window: (Timestamp, Timestamp), first: seq<Key>, second: seq<Key>)
    requires !config.deleteOriginals && !config.deduplicate && faults.mark == faults.head == {}
    requires Stable(objects, objects) && Lists(objects, window, first)
    requires var files := FilesOf(objects, faults, first);
             && (forall g <- files :: HasRows(g) ==> g in Accepted(None, files))
             && Lists(Effects(config, faults, objects, AllGroups(config, files)), window, second)
    ensures var after := Effects(config, faults, objects, AllGroups(config, FilesOf(objects, faults, first)));
            AllGroups(config, FilesOf(after, faults, second)) == []
  {
    var after := Effects(config, faults, objects, AllGroups(config, FilesOf(objects, faults, first)));
    var again := FilesOf(after, faults, second);
    forall f | f in again ensures !HasRows(f) {
      SecondRunFile(config, faults, objects, window, first, second, f);
    }
    NoRowsNoGroups(config, START, again);
  }

  ghost predicate Grouped(groups: seq<Group>, k: Key) {
    exists g <- groups :: k in KeysOf(g.sources)
  }

  lemma {:induction false} GroupedNext(groups: seq<Group>, k: Key)
    requires groups != []
    ensures var n := |groups| - 1;
            Grouped(groups, k) <==> Grouped(groups[..n], k) || k in KeysOf(groups[n].sources)
  {
    assert groups == groups[..|groups| - 1] + [groups[|groups| - 1]];
  }

  /** What all groups together do to one original and its marker. */
  lemma {:induction false} EffectsOnOne(config: Config, faults: Faults, objects: map<Key, Body>, groups: seq<Group>,
                                        k: Key)
    requires k.Original? && k in objects && Processed(k) !in objects
    requires forall g <- groups :: Processed(k) !in KeysOf(g.sources)
    ensures var after := Effects(config, faults, objects, groups);
            && (k in after <==> Grouped(groups, k) && config.deleteOriginals ==> k in faults.remove)
            && (Processed(k) in after <==>
                  && Grouped(groups, k) && Processed(k) !in faults.mark
                  && (config.deleteOriginals ==> Processed(k) in faults.remove))
  {
    if groups != [] {
      var n := |groups| - 1;
      EffectsOnOne(config, faults, objects, groups[..n], k);
      GroupedNext(groups, k);
      assert k in KeysOf(groups[n].sources) <==> Processed(k) in Markers(KeysOf(groups[n].sources));
    }
  }

  lemma {:induction false} GroupedSources(groups: seq<Group>, k: Key)
    ensures k in KeysOf(GroupSources(groups)) <==> Grouped(groups, k)
  {
    if groups != [] {
      var n := |groups| - 1;
      GroupedSources(groups[..n], k);
      GroupedNext(groups, k);
      assert KeysOf(GroupSources(groups[..n]) + groups[n].sources) ==
             KeysOf(GroupSources(groups[..n])) + KeysOf(groups[n].sources);
    }
  }

  /** A finished run reports as deletion failures exactly the grouped originals that are still in the bucket. */
  lemma {:induction false} FailuresAreLeft(config: Config, faults: Faults, objects: map<Key, Body>, listing: seq<Key>,
                                           k: Key)
    requires k.Original? && k in objects && Processed(k) !in objects
    ensures var groups := AllGroups(config, FilesOf(objects, faults, listing));
            k in Report(config, faults, groups).deletionFailures <==>
              config.deleteOriginals && Grouped(groups, k) && k in Effects(config, faults, objects, groups)
  {
    var groups := AllGroups(config, FilesOf(objects, faults, listing));
    SourcesUncompacted(config, objects, faults, listing);
    FilesOfMembers(objects, faults, listing);
    GroupedSources(groups, k);
    EffectsOnOne(config, faults, objects, groups, k);
  }

  /**
   A source of a finished run is taken once more by the next run, whatever its
   listing beyond the source, exactly when it is still there and the next run
   sees no marker: it was in no group, or it was not removed and its marker was
   not written, was removed, or is not found by a check that fails.
   */
  lemma {:induction false} TakenAgainExactly(config: Config, faults: Faults, objects: map<Key, Body>,
                                             first: seq<Key>, again: Faults, second: seq<Key>, k: Key)
    requires k.Original? && k in first && k in objects && Processed(k) !in objects
    requires var after := Effects(config, faults, objects, AllGroups(config, FilesOf(objects, faults, first)));
             k in after ==> k in second
    ensures var groups := AllGroups(config, FilesOf(objects, faults, first));
            var after := Effects(config, faults, objects, groups);
            (exists f <- FilesOf(after, again, second) :: f.key == k) <==>
              || !Grouped(groups, k)
              || ((config.deleteOriginals ==> k in faults.remove)
                  && (|| Processed(k) in faults.mark || k in again.head
                      || (config.deleteOriginals && Processed(k) !in faults.remove)))
  {
    var files := FilesOf(objects, faults, first);
    var groups := AllGroups(config, files);
    var after := Effects(config, faults, objects, groups);
    SourcesUncompacted(config, objects, faults, first);
    FilesOfMembers(objects, faults, first);
    EffectsOnOne(config, faults, objects, groups, k);
    FilesOfMembers(after, again, second);
    if k in after && !AlreadyProcessed(after, again, k) {
      assert Source(k, after[k]) in FilesOf(after, again, second);
    }
  }

  lemma {:induction false} ReadsOn(config: Config, a: Accumulated, batches: seq<Batch>)
    requires batches != [] && batches[0] != []
    ensures var added := Added(config.deduplicate, a, batches[0]);
            if Trips(config, a, batches[0]) then
              ReadBatches(config, a, batches) == (added, true) && Unread(config, a, batches) == Rows(batches[1..])
            else
              && ReadBatches(config, a, batches) == ReadBatches(config, added, batches[1..])
              && Unread(config, a, batches) == Unread(config, added, batches[1..])
  {
  }

  /** The second batch trips the limit. */
  lemma {:induction false} SecondBatchTrips(config: Config, batches: seq<Batch>)
    requires !config.deduplicate && |batches| >= 2 && batches[0] != [] && batches[1] != []
    requires config.sizeOf(batches[0]) + config.sizeOf(batches[1]) > config.limit
    ensures ReadBatches(config, START.held, batches) == (Accumulated(batches[..2], {}, 0), true)
    ensures Unread(config, START.held, batches) == Rows(batches[2..])
  {
    var tail, a1 := batches[1..], Added(false, START.held, batches[0]);
    ReadsOn(config, START.held, batches);
    assert a1.batches == batches[..1] && batches[..1][..0] == [];
    assert Size(config, a1.batches) == config.sizeOf(batches[0]);
    ReadsOn(config, a1, tail);
    assert batches[..1] + [tail[0]] == batches[..2] && tail[1..] == batches[2..];
  }

  /**
   When the second batch of a file trips the limit, the rows of all its later
   batches are in no output, yet the file counts as consolidated.
   */
  lemma {:induction false} BatchesBehindTheLimitAreLost(config: Config, f: Source)
    requires f.body.Parquet? && !config.deduplicate && |f.body.batches| >= 2
    requires f.body.batches[0] != [] && f.body.batches[1] != []
    requires config.sizeOf(f.body.batches[0]) + config.sizeOf(f.body.batches[1]) > config.limit
    ensures AllGroups(config, [f]) == [Group([f], f.body.schema, f.body.batches[..2], 0)]
    ensures LostRows(config, START, [f]) == Rows(f.body.batches[2..])
  {
    var batches := f.body.batches;
    SecondBatchTrips(config, batches);
    var p, q := StepFile(config, START, f), TakeFile(config, START, f).0;
    assert q.sources == [] + [f] == [f] && p == Cut(q);
    assert p.groups == [] + [Group([f], f.body.schema, batches[..2], 0)];
    assert [f][1..] == [];
    assert Consume(config, START, [f]) == p;
    assert LostRows(config, START, [f]) == Rows(batches[2..]) + LostRows(config, p, []);
  }

  // ------------------------------------------------------------------
  // When an earlier output survives
  // ------------------------------------------------------------------

  /** The last group whose output has this time. */
  function LastAt(groups: seq<Group>, time: Timestamp): Option<Group> {
    if groups == [] then None
    else
      var n := |groups| - 1;
      if LatestTime(groups[n].sources) == time then Some(groups[n]) else LastAt(groups[..n], time)
  }

  function OutputBody(g: Group): Body {
    Parquet(g.schema, g.batches)
  }

  lemma {:induction false} EffectOnOutput(config: Config, faults: Faults, objects: map<Key, Body>, g: Group,
                                          time: Timestamp, body: Body)
    requires FromUncompacted(g)
    ensures HasOutput(Effect(config, faults, objects, g), time, body) <==>
              if LatestTime(g.sources) == time then body == OutputBody(g) else HasOutput(objects, time, body)
  {
    var key := Compacted(time);
    assert key !in KeysOf(g.sources) && key !in Markers(KeysOf(g.sources));
  }

  /** An output holds what the last group of its time put there, or what was there before. */
  lemma {:induction false} OutputsExactly(config: Config, faults: Faults, objects: map<Key, Body>, groups: seq<Group>,
                                          time: Timestamp, body: Body)
    requires forall g <- groups :: FromUncompacted(g)
    ensures HasOutput(Effects(config, faults, objects, groups), time, body) <==>
              match LastAt(groups, time)
              case None => HasOutput(objects, time, body)
              case Some(g) => body == OutputBody(g)
  {
    if groups != [] {
      var n := |groups| - 1;
      OutputsExactly(config, faults, objects, groups[..n], time, body);
      EffectOnOutput(config, faults, Effects(config, faults, objects, groups[..n]), groups[n], time, body);
    }
  }

  lemma {:induction false} LastAtIsMember(groups: seq<Group>, time: Timestamp)
    ensures match LastAt(groups, time)
            case None => forall g <- groups :: LatestTime(g.sources) != time
            case Some(g) => g in groups && LatestTime(g.sources) == time
  {
    if groups != [] {
      LastAtIsMember(groups[..|groups| - 1], time);
      assert groups == groups[..|groups| - 1] + [groups[|groups| - 1]];
    }
  }

  /**
   For every bucket, listing and run, whether it finishes or stops after `n`
   groups: an earlier output survives exactly when the last group of its time,
   if there is one, has the same rows in the same batches.
   */
  lemma {:induction false} OutputSurvivesExactly(config: Config, faults: Faults, objects: map<Key, Body>,
                                                 listing: seq<Key>, n: nat, time: Timestamp, body: Body)
    requires n <= |AllGroups(config, FilesOf(objects, faults, listing))| && HasOutput(objects, time, body)
    ensures var groups := AllGroups(config, FilesOf(objects, faults, listing))[..n];
            HasOutput(Effects(config, faults, objects, groups), time, body) <==>
              LastAt(groups, time).Some? ==> OutputBody(LastAt(groups, time).value) == body
  {
    GroupsAreUncompacted(config, faults, objects, listing, n);
    OutputsExactly(config, faults, objects, AllGroups(config, FilesOf(objects, faults, listing))[..n], time, body);
  }

  ghost predicate SourcesInOrder(files: seq<Source>) {
    forall i, j :: 0 <= i < j < |files| ==> files[i].key.Time() <= files[j].key.Time()
  }

  lemma {:induction false} ToProcessInOrder(objects: map<Key, Body>, faults: Faults, keys: seq<Key>)
    requires InTimeOrder(keys)
    ensures SourcesInOrder(ToProcess(objects, faults, keys))
  {
    if keys != [] {
      ToProcessInOrder(objects, faults, keys[1..]);
      ToProcessMembers(objects, faults, keys[1..]);
      var rest := ToProcess(objects, faults, keys[1..]);
      forall i | 0 <= i < |rest| ensures keys[0].Time() <= rest[i].key.Time() {
        assert rest[i] in rest && rest[i].key in keys[1..];
      }
    }
  }

  lemma {:induction false} FirstInOrder(f: Source, rest: seq<Source>)
    requires SourcesInOrder(rest) && forall r <- rest :: f.key.Time() <= r.key.Time()
    ensures SourcesInOrder([f] + rest)
  {
    assert forall i :: 0 < i < |rest| + 1 ==> ([f] + rest)[i] == rest[i - 1] && rest[i - 1] in rest;
  }

  lemma {:induction false} AcceptedInOrder(schema: Option<Schema>, files: seq<Source>)
    requires SourcesInOrder(files)
    ensures SourcesInOrder(Accepted(schema, files))
    decreases |files|
  {
    if files != [] {
      var rest := Accepted(NextSchema(schema, files[0]), files[1..]);
      AcceptedInOrder(NextSchema(schema, files[0]), files[1..]);
      forall r | r in rest ensures files[0].key.Time() <= r.key.Time() {
        AcceptedMembers(NextSchema(schema, files[0]), files[1..], r);
      }
      FirstInOrder(files[0], rest);
      assert Accepted(schema, files) == (if Accepts(schema, files[0]) then [files[0]] else []) + rest;
      assert [] + rest == rest;
    }
  }

  lemma {:induction false} LatestIsLast(sources: seq<Source>)
    requires SourcesInOrder(sources) && sources != []
    ensures LatestTime(sources) == sources[|sources| - 1].key.Time()
  {
    var n := |sources| - 1;
    if n > 0 {
      LatestIsLast(sources[..n]);
    } else {
      assert sources[..n] == [];
    }
  }

  lemma {:induction false} GroupInOrder(groups: seq<Group>, accepted: seq<Source>, i: nat)
    requires GroupSources(groups) <= accepted && SourcesInOrder(accepted) && i < |groups|
    ensures SourcesInOrder(groups[i].sources)
  {
    var start := GroupAt(groups, i);
    var sources := groups[i].sources;
    forall k | 0 <= k < |sources| ensures sources[k] == accepted[start + k] {
      assert sources[k] == GroupSources(groups)[start + k];
    }
  }

  lemma {:induction false} FilesInOrder(objects: map<Key, Body>, faults: Faults, listing: seq<Key>)
    ensures SourcesInOrder(Accepted(None, FilesOf(objects, faults, listing)))
  {
    SortSorts(Uncompacted(listing));
    ToProcessInOrder(objects, faults, SortByTime(Uncompacted(listing)));
    AcceptedInOrder(None, FilesOf(objects, faults, listing));
  }

  lemma {:induction false} SkippedInOrder(objects: map<Key, Body>, faults: Faults, keys: seq<Key>)
    requires InTimeOrder(keys)
    ensures InTimeOrder(Skipped(objects, faults, keys))
    ensures forall k :: k in Skipped(objects, faults, keys) <==> k in keys && AlreadyProcessed(objects, faults, k)
  {
    if keys != [] {
      SkippedInOrder(objects, faults, keys[1..]);
      assert keys == [keys[0]] + keys[1..];
      var rest := Skipped(objects, faults, keys[1..]);
      forall i | 0 <= i < |rest| ensures keys[0].Time() <= rest[i].Time() {
        assert rest[i] in rest && rest[i] in keys[1..];
      }
    }
  }

  /** `t` is the latest of these times. */
  ghost predicate IsLatest(t: Timestamp, keys: set<Key>) {
    (exists k <- keys :: k.Time() == t) && forall k <- keys :: k.Time() <= t
  }

  /**
   The last timestamp a finished run reports is the latest of the files it
   processed; of those it skipped, if it processed none; and none if it skipped
   none either.
   */
  lemma {:induction false} LastProcessedExactly(objects: map<Key, Body>, faults: Faults, listing: seq<Key>,
                                                report: CompactionResult)
    ensures var files := FilesOf(objects, faults, listing);
            var done := Completed(report, SkippedOf(objects, faults, listing), files);
            var skipped := set k <- listing | !k.IsCompacted() && AlreadyProcessed(objects, faults, k);
            if files != [] then done.lastProcessed.Some? && IsLatest(done.lastProcessed.value, KeysOf(files))
            else if skipped != {} then done.lastProcessed.Some? && IsLatest(done.lastProcessed.value, skipped)
            else done.lastProcessed == None
  {
    var keys := SortByTime(Uncompacted(listing));
    SortSorts(Uncompacted(listing));
    SortMembers(Uncompacted(listing));
    UncompactedMembers(listing);
    var files := FilesOf(objects, faults, listing);
    if files != [] {
      ToProcessInOrder(objects, faults, keys);
      LatestOfFiles(files);
    } else {
      SkippedInOrder(objects, faults, keys);
      LatestOfKeys(Skipped(objects, faults, keys),
                   set k <- listing | !k.IsCompacted() && AlreadyProcessed(objects, faults, k));
    }
  }

  lemma {:induction false} LatestOfFiles(files: seq<Source>)
    requires SourcesInOrder(files) && files != []
    ensures IsLatest(files[|files| - 1].key.Time(), KeysOf(files))
  {
    var last := files[|files| - 1];
    assert last in files && last.key in KeysOf(files);
    forall f | f in files ensures f.key.Time() <= last.key.Time() {
      var i :| 0 <= i < |files| && files[i] == f;
      assert i < |files| - 1 ==> files[i].key.Time() <= last.key.Time();
    }
  }

  lemma {:induction false} LatestOfKeys(keys: seq<Key>, members: set<Key>)
    requires InTimeOrder(keys) && forall k :: k in keys <==> k in members
    ensures if members == {} then LastTime(keys) == None
            else LastTime(keys).Some? && IsLatest(LastTime(keys).value, members)
  {
    if keys == [] {
      assert forall k :: k !in members;
    } else {
      var last := keys[|keys| - 1];
      assert last in keys;
      forall k | k in members ensures k.Time() <= last.Time() {
        var i :| 0 <= i < |keys| && keys[i] == k;
        assert i < |keys| - 1 ==> keys[i].Time() <= last.Time();
      }
    }
  }

  /** An output is named after the file that closes its group. */
  lemma {:induction false} NamedAfterLast(config: Config, objects: map<Key, Body>, faults: Faults, listing: seq<Key>,
                                          g: Group)
    requires g in AllGroups(config, FilesOf(objects, faults, listing))
    ensures g.sources != [] && LatestTime(g.sources) == g.sources[|g.sources| - 1].key.Time()
  {
    var files := FilesOf(objects, faults, listing);
    var groups := AllGroups(config, files);
    var i: nat :| i < |groups| && groups[i] == g;
    GroupsNonempty(config, START, files);
    FilesInOrder(objects, faults, listing);
    AllGroupsCover(config, files);
    GroupInOrder(groups, Accepted(None, files), i);
    LatestIsLast(g.sources);
  }

  /** A group that is cut while files remain is closed by a file whose rows tripped the limit. */
  ghost predicate ClosedByRows(g: Group) {
    g.sources != [] && g.sources[|g.sources| - 1].body.Parquet?
  }

  lemma {:induction false} CutsAreClosedByRows(config: Config, p: Progress, files: seq<Source>)
    requires forall g <- p.groups :: ClosedByRows(g)
    ensures forall g <- Consume(config, p, files).groups :: ClosedByRows(g)
    decreases |files|
  {
    if files != [] {
      CutsAreClosedByRows(config, StepFile(config, p, files[0]), files[1..]);
    }
  }

  lemma {:induction false} LastSource(config: Config, files: seq<Source>)
    requires Consume(config, START, files).sources != []
    ensures var p, accepted := Consume(config, START, files), Accepted(None, files);
            accepted != [] && p.sources[|p.sources| - 1] == accepted[|accepted| - 1]
  {
    GroupsCoverAccepted(config, START, files);
    assert TakenSources(START) + Accepted(None, files) == Accepted(None, files);
  }

  /** Groups cut on the way have other times than files without rows. */
  lemma {:induction false} EarlierGroupsElsewhere(config: Config, faults: Faults, objects: map<Key, Body>,
                                                  listing: seq<Key>, time: Timestamp)
    requires forall f <- FilesOf(objects, faults, listing) :: f.key.Time() == time ==> f.body.Empty?
    ensures LastAt(Consume(config, START, FilesOf(objects, faults, listing)).groups, time).None?
  {
    var files := FilesOf(objects, faults, listing);
    var p := Consume(config, START, files);
    CutsAreClosedByRows(config, START, files);
    LastAtIsMember(p.groups, time);
    forall g | g in p.groups ensures LatestTime(g.sources) != time {
      assert g in AllGroups(config, files) && ClosedByRows(g);
      NamedAfterLast(config, objects, faults, listing, g);
      SourcesUncompacted(config, objects, faults, listing);
      assert g.sources[|g.sources| - 1] in g.sources;
    }
  }

  lemma {:induction false} FinalGroupTime(config: Config, faults: Faults, objects: map<Key, Body>, listing: seq<Key>)
    requires Consume(config, START, FilesOf(objects, faults, listing)).held.batches != []
    ensures var files := FilesOf(objects, faults, listing);
            var p, all, accepted := Consume(config, START, files), AllGroups(config, files), Accepted(None, files);
            && all == p.groups + [GroupOf(p)] && all[|all| - 1] == GroupOf(p) && all[..|all| - 1] == p.groups
            && accepted != [] && LatestTime(GroupOf(p).sources) == accepted[|accepted| - 1].key.Time()
  {
    var files := FilesOf(objects, faults, listing);
    var p, all := Consume(config, START, files), AllGroups(config, files);
    assert all == p.groups + [GroupOf(p)];
    assert all[|all| - 1] in all;
    NamedAfterLast(config, objects, faults, listing, GroupOf(p));
    LastSource(config, files);
  }

  /**
   Where the only listed files of an output's time are markers or other empty
   ones: the output survives a finished run exactly when the run ends with no
   rows held, its last accepted file has another time, or the rows are the same.
   */
  lemma {:induction false} SurvivesUnlessLast(config: Config, faults: Faults, objects: map<Key, Body>,
                                              listing: seq<Key>, time: Timestamp, body: Body)
    requires HasOutput(objects, time, body)
    requires forall f <- FilesOf(objects, faults, listing) :: f.key.Time() == time ==> f.body.Empty?
    ensures var files := FilesOf(objects, faults, listing);
            var p, accepted := Consume(config, START, files), Accepted(None, files);
            HasOutput(Effects(config, faults, objects, AllGroups(config, files)), time, body) <==>
              || p.held.batches == [] || accepted == [] || accepted[|accepted| - 1].key.Time() != time
              || OutputBody(GroupOf(p)) == body
  {
    var files := FilesOf(objects, faults, listing);
    var p, all := Consume(config, START, files), AllGroups(config, files);
    OutputSurvivesExactly(config, faults, objects, listing, |all|, time, body);
    assert all[..|all|] == all;
    EarlierGroupsElsewhere(config, faults, objects, listing, time);
    if p.held.batches != [] {
      FinalGroupTime(config, faults, objects, listing);
    }
  }

  /** A file of one batch followed by an empty one make one group, keyed by the later of the two. */
  lemma {:induction false} FileThenEmpty(config: Config, f: Source, marker: Source)
    requires !config.deduplicate && f.body.Parquet? && |f.body.batches| == 1 && f.body.batches[0] != []
    requires marker.body.Empty? && f.key.Time() <= marker.key.Time()
    ensures AllGroups(config, [f, marker]) == [Group([f, marker], f.body.schema, f.body.batches, 0)]
    ensures LatestTime([f, marker]) == marker.key.Time()
  {
    var batches := f.body.batches;
    ReadsOn(config, START.held, batches);
    assert batches[1..] == [] && [] + [batches[0]] == batches;
    var p := StepFile(config, START, f);
    assert p.held == Accumulated(batches, {}, 0) && p.sources == [f] && p.groups == []
      && p.schema == Some(f.body.schema);
    var q := StepFile(config, p, marker);
    assert q.sources == [f, marker] && q.groups == [] && q.held == p.held;
    assert [f, marker][1..] == [marker] && [marker][1..] == [];
    assert Consume(config, p, [marker]) == Consume(config, q, []);
    assert Consume(config, START, [f, marker]) == q;
    assert Finish(q).groups == [] + [Group([f, marker], f.body.schema, f.body.batches, 0)];
    assert [f, marker][..1] == [f] && [f][..0] == [];
    assert LatestTime([f]) == f.key.Time();
  }

  /**
   Listed markers take part in naming the output: a late file that is followed
   by an earlier run's marker goes into an output of that marker's time, and
   the output that the earlier run wrote under this key is replaced.
   */
  lemma {:induction false} LateFileReplacesOutput(config: Config, faults: Faults, done: Key, late: Key,
                                                  listing: seq<Key>)
    requires !config.deduplicate && !config.deleteOriginals && faults.head == {}
    requires done == Original(0, 5) && late == Original(1, 3) && listing == [late, done, Compacted(5), Processed(done)]
    ensures var objects := map[late := Parquet(0, [[2]]), done := Parquet(0, [[1]]),
                               Compacted(5) := Parquet(0, [[1]]), Processed(done) := Empty];
            HasOutput(Effects(config, faults, objects, AllGroups(config, FilesOf(objects, faults, listing))),
                      5, Parquet(0, [[2]]))
  {
    var objects := map[late := Parquet(0, [[2]]), done := Parquet(0, [[1]]),
                       Compacted(5) := Parquet(0, [[1]]), Processed(done) := Empty];
    var f, marker := Source(late, Parquet(0, [[2]])), Source(Processed(done), Empty);
    LateFiles(objects, faults, done, late, listing);
    FileThenEmpty(config, f, marker);
    var g := Group([f, marker], 0, [[2]], 0);
    assert AllGroups(config, [f, marker]) == [] + [g];
    EffectsNext(config, faults, objects, [], g);
    MarkingKeepsOutputs(config, faults, objects, g, 5, Parquet(0, [[2]]));
  }

  lemma {:induction false} LateFiles(objects: map<Key, Body>, faults: Faults, done: Key, late: Key, listing: seq<Key>)
    requires faults.head == {} && done == Original(0, 5) && late == Original(1, 3)
    requires listing == [late, done, Compacted(5), Processed(done)]
    requires objects == map[late := Parquet(0, [[2]]), done := Parquet(0, [[1]]),
                            Compacted(5) := Parquet(0, [[1]]), Processed(done) := Empty]
    ensures FilesOf(objects, faults, listing) == [Source(late, Parquet(0, [[2]])), Source(Processed(done), Empty)]
  {
    var keys := [late, done, Processed(done)];
    UncompactedOf4(late, done, Compacted(5), Processed(done));
    assert Uncompacted(listing) == keys;
    Sorted3(late, done, Processed(done));
    ToProcess3(objects, faults, late, done, Processed(done));
  }

  lemma {:induction false} UncompactedOf4(a: Key, b: Key, c: Key, d: Key)
    requires !a.IsCompacted() && !b.IsCompacted() && c.IsCompacted() && !d.IsCompacted()
    ensures Uncompacted([a, b, c, d]) == [a, b, d]
  {
    assert [d][1..] == [];
    assert Uncompacted([d]) == [d];
    assert [c, d][1..] == [d];
    assert Uncompacted([c, d]) == [d];
    assert [b, c, d][1..] == [c, d];
    assert Uncompacted([b, c, d]) == [b, d];
    assert [a, b, c, d][1..] == [b, c, d];
  }

  lemma {:induction false} Sorted3(a: Key, b: Key, c: Key)
    requires a.Time() <= b.Time() <= c.Time()
    ensures SortByTime([a, b, c]) == [a, b, c]
  {
    assert [c][1..] == [];
    assert SortByTime([c]) == [c];
    assert [b, c][1..] == [c];
    assert SortByTime([b, c]) == [b, c];
    assert [a, b, c][1..] == [b, c];
  }

  lemma {:induction false} ToProcess3(objects: map<Key, Body>, faults: Faults, a: Key, b: Key, c: Key)
    requires a in objects && b in objects && c in objects
    requires !AlreadyProcessed(objects, faults, a) && !AlreadyProcessed(objects, faults, c)
    requires AlreadyProcessed(objects, faults, b)
    ensures ToProcess(objects, faults, [a, b, c]) == [Source(a, objects[a]), Source(c, objects[c])]
  {
    assert [c][1..] == [];
    assert [b, c][1..] == [c];
    assert [a, b, c][1..] == [b, c];
    assert ToProcess(objects, faults, [c]) == [Source(c, objects[c])];
    assert ToProcess(objects, faults, [b, c]) == [Source(c, objects[c])];
  }
}
