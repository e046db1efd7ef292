/** The compaction procedure itself: plan once, then commit with retries. */
module Compactor {
  import opened Wrappers
  import opened Catalog
  import opened CatalogServer
  import opened Rewrite
  import opened CompactionRuns

  datatype Outcome =
    | NothingToDo
    | NothingWritten(filesRead: nat, partitionsCompacted: nat)
    | Rewritten(filesRead: nat, filesWritten: nat, partitionsCompacted: nat)

  datatype CompactionError = NoCurrentSnapshot | FilesGone | CommitFailed(error: CommitError)

  /**
   `after` is `parent` with one more snapshot, now main: a Replace of the files
   `paths` by `output`, all of which were live in main when it was applied.
   */
  ghost predicate RewriteLanded(parent: Metadata, after: Metadata, paths: set<Path>, output: seq<DataFile>) {
    && (DistinctPaths(LiveEntries(Main(parent))) ==> paths <= LivePaths(Main(parent)))
    && after.SnapshotForRef(MAIN).Some?
    && var s := after.SnapshotForRef(MAIN).value;
       && s.id !in parent.snapshots && after.snapshots == parent.snapshots[s.id := s]
       && after.refs == parent.refs[MAIN := s.id]
       && s.operation == Replace && s.parent == parent.Ref(MAIN)
       && exists entries ::
            && PathsOf(entries) <= paths
            && (DistinctPaths(LiveEntries(Main(parent))) ==> PathsOf(entries) == paths)
            && s.manifests == RewriteManifests(Main(parent), entries, output, s.seqNum)
  }

  /** `entries` are files to be compacted, all of them as long as every live path has one live entry. */
  ghost predicate Covers(table: Metadata, entries: seq<Entry>, paths: set<Path>) {
    && PathsOf(entries) <= paths
    && (DistinctPaths(LiveEntries(Main(table))) ==> PathsOf(entries) == paths <= LivePaths(Main(table)))
  }

  lemma {:induction false} LandedRewrite(base: Metadata, parent: Metadata, after: Metadata, entries: seq<Entry>,
                      output: seq<DataFile>, paths: set<Path>)
    requires MAIN in after.refs && after.refs[MAIN] !in parent.snapshots
    requires after.snapshots == parent.snapshots[after.refs[MAIN] :=
               RewriteSnapshot(base, entries, output, after.refs[MAIN])]
    requires after.refs == parent.refs[MAIN := after.refs[MAIN]]
    requires base.Ref(MAIN) == parent.Ref(MAIN) && base.SnapshotForRef(MAIN) == parent.SnapshotForRef(MAIN)
    requires Covers(base, entries, paths)
    ensures RewriteLanded(parent, after, paths, output)
  {
    var s := after.SnapshotForRef(MAIN).value;
    assert s == RewriteSnapshot(base, entries, output, s.id);
    assert s.manifests == RewriteManifests(Main(parent), entries, output, s.seqNum);
  }

  lemma {:induction false} SelectedWithin(entries: seq<Entry>, paths: set<Path>)
    ensures PathsOf(Select(entries, paths)) <= paths
  {
    forall e | e in Select(entries, paths) ensures e.file.path in paths {
      SelectMember(entries, paths, e);
    }
  }

  // ------------------------------------------------------------------
  // What the rivals do decides the answer
  // ------------------------------------------------------------------

  /**
   A rewrite built on `base` conflicts when `met` has another main, is invalid
   when a snapshot elsewhere has taken its sequence number, and lands otherwise.
   */
  function SubmissionReply(base: Metadata, met: Metadata): Result<(), CommitError> {
    if met.Ref(MAIN) != base.Ref(MAIN) then Err(Conflict)
    else if met.lastSeqNum > base.lastSeqNum then Err(Invalid)
    else Ok(())
  }

  /** Main names a snapshot in which as many entries as there are files to compact are live. */
  ghost predicate AllThere(table: Metadata, paths: set<Path>) {
    MAIN in table.refs && |Select(LiveEntries(Main(table)), paths)| == |paths|
  }

  /** A reply that ends the loop, as its answer. */
  function Final(reply: Result<(), CommitError>): Result<(), CompactionError> {
    match reply case Ok(_) => Ok(()) case Err(e) => Err(CommitFailed(e))
  }

  /**
   A compaction that chose the files `chosen` of the table `planned` and then
   made its first call, with number `first`, to a catalog whose table was `start`.
   */
  datatype Run = Run(catalog: Server, start: Metadata, first: nat, planned: Metadata, chosen: seq<Entry>) {
    ghost predicate Sound() {
      start.RefsResolve() && LoadedBefore(planned, start) && PathsOf(chosen) <= LivePaths(Main(planned))
    }

    /** The rivals' table after `calls` calls, as long as none of them has changed it. */
    ghost function Rivals(calls: nat): Metadata {
      catalog.RivalsOnly(start, first, first + calls)
    }

    /** The table that submission `n` is built on: the one planned on, or the one reloaded before it. */
    ghost function BaseOf(n: nat): Metadata {
      if n == 0 then planned else Rivals(2 * n)
    }

    /** The entries that submission `n` takes out. */
    ghost function TakenBy(n: nat): seq<Entry> {
      if n == 0 then chosen else Select(LiveEntries(Main(BaseOf(n))), PathsOf(chosen))
    }

    ghost predicate MainMoved(n: nat) {
      Rivals(2 * n + 1).Ref(MAIN) != BaseOf(n).Ref(MAIN)
    }

    /** What the catalog replies to submission `n`. */
    ghost function ReplyTo(n: nat): Result<(), CommitError> {
      SubmissionReply(BaseOf(n), Rivals(2 * n + 1))
    }

    /** Main had moved under every submission before number `n`, and every reload found all files. */
    ghost predicate Retried(n: nat) {
      n == 0 || (Retried(n - 1) && MainMoved(n - 1) && AllThere(BaseOf(n), PathsOf(chosen)))
    }

    /**
     The answer after `calls` calls: submissions and reloads take turns, a
     submission is followed by a reload only if main had moved, a reload by a
     submission only if all files are there, and the fourth submission is the last.
     */
    ghost predicate Answers(calls: nat, answer: Result<(), CompactionError>) {
      && 1 <= calls <= 7
      && var n := calls / 2;
         if calls % 2 == 1 then
           Retried(n) && (MainMoved(n) ==> calls == 7) && answer == Final(ReplyTo(n))
         else
           && Retried(n - 1) && MainMoved(n - 1) && !AllThere(BaseOf(n), PathsOf(chosen))
           && answer == Err(if MAIN in BaseOf(n).refs then FilesGone else NoCurrentSnapshot)
    }

    /** Nothing is written if the rewrite is empty, and otherwise the rivals decide. */
    ghost predicate RewriteAnswers(partitions: nat, output: seq<DataFile>, calls: nat,
                                   answer: Result<Outcome, CompactionError>) {
      if output == [] then answer == Ok(NothingWritten(|chosen|, partitions))
      else
        && (answer.Ok? ==> answer.value == Rewritten(|chosen|, |output|, partitions))
        && Answers(calls, if answer.Ok? then Ok(()) else Err(answer.error))
    }
  }

  lemma {:induction false} RivalsLoad(run: Run, calls: nat)
    requires run.Sound()
    ensures run.Rivals(calls).RefsResolve() && LoadedBefore(run.planned, run.Rivals(calls))
  {
    if calls > 0 {
      RivalsLoad(run, calls - 1);
      LandedKeepsSnapshots(run.Rivals(calls - 1), run.catalog.Rivals(run.first + calls - 1));
    }
  }

  /** Every submission is built on a table the catalog has had, and its entries cover the chosen files. */
  lemma {:induction false} SubmissionIsSound(run: Run, n: nat)
    requires run.Sound() && run.Retried(n)
    ensures run.BaseOf(n).RefsResolve() && LoadedBefore(run.BaseOf(n), run.Rivals(2 * n + 1))
    ensures run.Rivals(2 * n + 1).RefsResolve()
    ensures Covers(run.BaseOf(n), run.TakenBy(n), PathsOf(run.chosen))
  {
    RivalsLoad(run, 2 * n + 1);
    if n > 0 {
      RivalsLoad(run, 2 * n);
      LandedKeepsSnapshots(run.Rivals(2 * n), run.catalog.Rivals(run.first + 2 * n));
      SelectedWithin(LiveEntries(Main(run.BaseOf(n))), PathsOf(run.chosen));
      if DistinctPaths(LiveEntries(Main(run.BaseOf(n)))) {
        CountFindsEveryPath(LiveEntries(Main(run.BaseOf(n))), PathsOf(run.chosen));
      }
    }
  }

  lemma {:induction false} AnswersAtSubmission(run: Run, n: nat, reply: Result<(), CommitError>)
    requires n <= 3 && run.Retried(n) && reply == run.ReplyTo(n)
    ensures if reply == Err(Conflict) && n < 3 then run.MainMoved(n) else run.Answers(2 * n + 1, Final(reply))
  {
    assert (2 * n + 1) / 2 == n && (2 * n + 1) % 2 == 1;
  }

  lemma {:induction false} AnswersAtReload(run: Run, n: nat, error: CompactionError)
    requires n <= 2 && run.Retried(n) && run.MainMoved(n) && !AllThere(run.BaseOf(n + 1), PathsOf(run.chosen))
    requires error == if MAIN in run.BaseOf(n + 1).refs then FilesGone else NoCurrentSnapshot
    ensures run.Answers(2 * n + 2, Err(error))
  {
    assert (2 * n + 2) / 2 == n + 1 && (2 * n + 2) % 2 == 0;
  }

  lemma {:induction false} RetriedOnce(run: Run, n: nat)
    requires run.Retried(n) && run.MainMoved(n) && AllThere(run.BaseOf(n + 1), PathsOf(run.chosen))
    ensures run.Retried(n + 1)
  {
  }

  lemma {:induction false} RetriedEachTime(run: Run, n: nat, k: nat)
    requires run.Retried(n) && k < n
    ensures run.Retried(k) && run.MainMoved(k) && AllThere(run.BaseOf(k + 1), PathsOf(run.chosen))
  {
    if k < n - 1 {
      RetriedEachTime(run, n - 1, k);
    }
  }

  lemma {:induction false} ConflictAfterFour(run: Run, calls: nat, answer: Result<(), CompactionError>)
    requires run.Answers(calls, answer) && answer == Err(CommitFailed(Conflict))
    ensures calls == 7 && run.Retried(3) && run.MainMoved(3)
  {
    assert calls % 2 == 1;
    assert run.ReplyTo(calls / 2) == Err(Conflict);
    assert run.MainMoved(calls / 2);
  }

  lemma {:induction false} FourMovesConflict(run: Run, calls: nat, answer: Result<(), CompactionError>)
    requires run.Answers(calls, answer) && run.Retried(3) && run.MainMoved(3)
    ensures answer == Err(CommitFailed(Conflict))
  {
    if calls < 7 {
      RetriedEachTime(run, 3, calls / 2);
    } else {
      assert calls / 2 == 3 && run.ReplyTo(3) == Err(Conflict);
    }
  }

  /** A conflict is reported exactly when main has moved under all four submissions and every reload found all files. */
  lemma {:induction false} ConflictExactly(run: Run, calls: nat, answer: Result<(), CompactionError>)
    requires run.Answers(calls, answer)
    ensures answer == Err(CommitFailed(Conflict)) <==> run.Retried(3) && run.MainMoved(3)
    ensures answer == Err(CommitFailed(Conflict)) ==> calls == 7
  {
    if answer == Err(CommitFailed(Conflict)) {
      ConflictAfterFour(run, calls, answer);
    } else if run.Retried(3) && run.MainMoved(3) {
      FourMovesConflict(run, calls, answer);
      assert false;
    }
  }

  /** Files are missed only at a reload, after a conflict, when fewer or more than the chosen ones are live. */
  lemma {:induction false} MissedAtReload(run: Run, calls: nat, answer: Result<(), CompactionError>)
    requires run.Answers(calls, answer) && (answer == Err(FilesGone) || answer == Err(NoCurrentSnapshot))
    ensures calls % 2 == 0 && run.Retried(calls / 2 - 1) && run.MainMoved(calls / 2 - 1)
    ensures var table := run.Rivals(calls);
            && (answer == Err(FilesGone) <==> MAIN in table.refs)
            && (answer == Err(FilesGone) ==>
                  |Select(LiveEntries(Main(table)), PathsOf(run.chosen))| != |PathsOf(run.chosen)|)
  {
    assert calls % 2 == 0 ==> 2 * (calls / 2) == calls;
  }

  /** Rivals who leave main and the sequence number alone let the first submission land. */
  lemma {:induction false} QuietRivalsLetItLand(run: Run, calls: nat, answer: Result<(), CompactionError>)
    requires run.Answers(calls, answer)
    requires run.Rivals(1).Ref(MAIN) == run.planned.Ref(MAIN) && run.Rivals(1).lastSeqNum <= run.planned.lastSeqNum
    ensures calls == 1 && answer == Ok(())
  {
    var n := calls / 2;
    assert !run.MainMoved(0);
    if n > 0 && calls % 2 == 1 {
      RetriedEachTime(run, n, 0);
    } else if n > 1 {
      RetriedEachTime(run, n - 1, 0);
    }
  }

  /** The live files of all partitions that have enough of them, in some order. */
  ghost predicate ChosenFrom(live: seq<Entry>, minFiles: nat, taken: seq<Entry>, partitions: nat) {
    && multiset(taken) == multiset(Qualifying(live, minFiles)) && partitions == |BigPartitions(live, minFiles)|
    && taken != [] && PathsOf(taken) <= PathsOf(live)
  }

  /** No file of `some` lies in a partition with enough live files. */
  ghost predicate NoneQualifies(live: seq<Entry>, some: seq<Entry>, minFiles: nat) {
    some == [] ||
    (|InPartitions(live, {some[0].file.partition})| < minFiles && NoneQualifies(live, some[1..], minFiles))
  }

  /**
   There is nothing to do when no partition of main has enough files; otherwise
   all files of such partitions are chosen.
   */
  ghost predicate Chooses(planned: Metadata, chosen: seq<Entry>, minFiles: nat, any: bool, partitions: nat) {
    var live := LiveEntries(Main(planned));
    if any then MAIN in planned.refs && !NoneQualifies(live, live, minFiles) &&
                ChosenFrom(live, minFiles, chosen, partitions)
    else MAIN !in planned.refs || NoneQualifies(live, live, minFiles)
  }

  lemma {:induction false} NoneQualifiesMeaning(live: seq<Entry>, some: seq<Entry>, minFiles: nat)
    ensures NoneQualifies(live, some, minFiles) <==>
              forall e <- some :: |InPartitions(live, {e.file.partition})| < minFiles
  {
    if some != [] {
      NoneQualifiesMeaning(live, some[1..], minFiles);
      assert some == [some[0]] + some[1..];
    }
  }

  lemma {:induction false} NothingTaken(live: seq<Entry>, taken: seq<Entry>, minFiles: nat)
    requires multiset(taken) == multiset(Qualifying(live, minFiles))
    ensures taken == [] <==> NoneQualifies(live, live, minFiles)
  {
    var big := BigPartitions(live, minFiles);
    InPartitionsMembers(live, big);
    NoneQualifiesMeaning(live, live, minFiles);
    assert |multiset(taken)| == |taken| && |multiset(Qualifying(live, minFiles))| == |Qualifying(live, minFiles)|;
    if taken == [] {
      forall e | e in live ensures |InPartitions(live, {e.file.partition})| < minFiles {
        assert e.file.partition in Partitions(live);
        assert e !in Qualifying(live, minFiles);
      }
    } else {
      var e := Qualifying(live, minFiles)[0];
      assert e in Qualifying(live, minFiles) && e.file.partition in big;
    }
  }

  lemma {:induction false} InPartitionsMembers(entries: seq<Entry>, ps: set<Partition>)
    ensures forall e :: e in InPartitions(entries, ps) <==> e in entries && e.file.partition in ps
  {
    if entries != [] {
      InPartitionsMembers(entries[1..], ps);
      assert entries == [entries[0]] + entries[1..];
    }
  }

  class IcebergCompactor {
    var table: Metadata
    var compactEntries: seq<Entry>
    const minFiles: nat

    constructor (loaded: Metadata, minFiles: nat)
      ensures table == loaded && compactEntries == [] && this.minFiles == minFiles
    {
      table, compactEntries := loaded, [];
      this.minFiles := minFiles;
    }

    /** Build the rewrite of `compactEntries` into `output` on the loaded table and submit it. */
    method CommitRewrite(catalog: Server, output: seq<DataFile>) returns (reply: Result<(), CommitError>)
      modifies catalog
      ensures catalog.calls == old(catalog.calls) + 1
      ensures var before := Landed(old(catalog.table), catalog.Rivals(old(catalog.calls)));
              if reply.Ok? then
                && before.Ref(MAIN) == table.Ref(MAIN)
                && MAIN in catalog.table.refs
                && catalog.table.refs == before.refs[MAIN := catalog.table.refs[MAIN]]
                && catalog.table.refs[MAIN] !in before.snapshots
                && catalog.table.snapshots == before.snapshots[catalog.table.refs[MAIN] :=
                     RewriteSnapshot(table, compactEntries, output, catalog.table.refs[MAIN])]
              else
                catalog.table == before && (reply == Err(Conflict) <==> before.Ref(MAIN) != table.Ref(MAIN))
      ensures var before := Landed(old(catalog.table), catalog.Rivals(old(catalog.calls)));
              LoadedBefore(table, before) ==> reply == SubmissionReply(table, before)
    {
      var id := GenerateUniqueSnapshotId(table);
      var surviving := SurvivingManifests(table.ManifestsOf(MAIN), PathsOf(compactEntries));
      var manifests := surviving + [DeletedManifest(compactEntries, table.NextSeqNum()),
                                    AddedManifest(output, table.NextSeqNum())];
      var snapshot := Snapshot(id, table.Ref(MAIN), table.NextSeqNum(), Replace, None, manifests);
      assert snapshot == RewriteSnapshot(table, compactEntries, output, id);
      CommitOfAdvance(Landed(catalog.table, catalog.Rivals(catalog.calls)), table, MAIN, snapshot);
      reply := catalog.CommitTable(AdvanceRequest(table, MAIN, snapshot));
    }

    /** Reload the table and look the chosen files up again; false when some of them are gone. */
    method Recollect(catalog: Server, paths: set<Path>) returns (r: Result<(), CompactionError>)
      modifies this, catalog
      ensures catalog.calls == old(catalog.calls) + 1
      ensures catalog.table == table == Landed(old(catalog.table), catalog.Rivals(old(catalog.calls)))
      ensures r.Ok? ==> compactEntries == Select(LiveEntries(Main(table)), paths) && |compactEntries| == |paths|
      ensures r.Ok? <==> table.SnapshotForRef(MAIN).Some? && |Select(LiveEntries(Main(table)), paths)| == |paths|
      ensures r.Err? ==> r.error == if table.SnapshotForRef(MAIN).None? then NoCurrentSnapshot else FilesGone
    {
      table := catalog.LoadTable();
      if table.SnapshotForRef(MAIN).None? {
        return Err(NoCurrentSnapshot);
      }
      var alive := CollectAlive(Main(table));
      compactEntries := [];
      for i := 0 to |alive|
        invariant compactEntries == Select(alive[..i], paths)
        invariant table == catalog.table == old(Landed(catalog.table, catalog.Rivals(catalog.calls)))
        invariant catalog.calls == old(catalog.calls) + 1
      {
        SelectConcat(alive[..i], [alive[i]], paths);
        assert alive[..i + 1] == alive[..i] + [alive[i]];
        if alive[i].file.path in paths {
          compactEntries := compactEntries + [alive[i]];
        }
      }
      assert alive[..|alive|] == alive;
      r := if |compactEntries| == |paths| then Ok(()) else Err(FilesGone);
    }

    /** Submission `n` of `run`. */
    method Submit(catalog: Server, output: seq<DataFile>, ghost run: Run, ghost n: nat)
      returns (reply: Result<(), CommitError>, ghost parent: Metadata)
      requires run.catalog == catalog && run.Sound() && n <= MAX_COMMIT_RETRIES && run.Retried(n)
      requires catalog.calls == run.first + 2 * n && catalog.table == run.Rivals(2 * n)
      requires table == run.BaseOf(n) && compactEntries == run.TakenBy(n)
      modifies catalog
      ensures catalog.calls == old(catalog.calls) + 1 && parent == run.Rivals(2 * n + 1)
      ensures reply.Ok? ==> RewriteLanded(parent, catalog.table, PathsOf(run.chosen), output)
      ensures reply.Err? ==> catalog.table == parent
      ensures if reply == Err(Conflict) && n < MAX_COMMIT_RETRIES then run.MainMoved(n)
              else run.Answers(2 * n + 1, Final(reply))
    {
      parent := run.Rivals(2 * n + 1);
      SubmissionIsSound(run, n);
      reply := CommitRewrite(catalog, output);
      if reply.Ok? {
        SameRefSameManifests(table, parent, MAIN);
        LandedRewrite(table, parent, catalog.table, compactEntries, output, PathsOf(run.chosen));
      }
      AnswersAtSubmission(run, n, reply);
    }

    /** The reload between the submissions `n` and `n + 1` of `run`. */
    method Reload(catalog: Server, paths: set<Path>, ghost run: Run, ghost n: nat)
      returns (found: Result<(), CompactionError>)
      requires run.catalog == catalog && run.Sound() && paths == PathsOf(run.chosen)
      requires n < MAX_COMMIT_RETRIES && run.Retried(n) && run.MainMoved(n)
      requires catalog.calls == run.first + 2 * n + 1 && catalog.table == run.Rivals(2 * n + 1)
      modifies this, catalog
      ensures catalog.calls == old(catalog.calls) + 1 && catalog.table == run.Rivals(2 * n + 2)
      ensures table == run.BaseOf(n + 1)
      ensures if found.Ok? then run.Retried(n + 1) && compactEntries == run.TakenBy(n + 1)
              else run.Answers(2 * n + 2, found)
    {
      found := Recollect(catalog, paths);
      assert table == run.BaseOf(n + 1);
      RivalsLoad(run, 2 * n + 2);
      if found.Ok? {
        RetriedOnce(run, n);
      } else {
        AnswersAtReload(run, n, found.error);
      }
    }

    /**
     Commit `output` in place of the files `paths`, reloading after every
     conflict. `parent` is the table the rivals had made when the loop ended.
     */
    method CommitWithRetries(catalog: Server, paths: set<Path>, output: seq<DataFile>, ghost run: Run)
      returns (r: Result<(), CompactionError>, ghost parent: Metadata)
      requires run == Run(catalog, catalog.table, catalog.calls, table, compactEntries) && run.Sound()
      requires paths == PathsOf(compactEntries)
      modifies this, catalog
      ensures run.first < catalog.calls <= run.first + 7 && parent == run.Rivals(catalog.calls - run.first)
      ensures r.Ok? ==> RewriteLanded(parent, catalog.table, paths, output)
      ensures r.Err? ==> catalog.table == parent
      ensures run.Answers(catalog.calls - run.first, r)
    {
      parent := catalog.table;
      var attempt := 0;
      while true
        invariant attempt <= MAX_COMMIT_RETRIES && run.Retried(attempt)
        invariant catalog.calls == run.first + 2 * attempt && catalog.table == run.Rivals(2 * attempt)
        invariant table == run.BaseOf(attempt) && compactEntries == run.TakenBy(attempt)
        decreases MAX_COMMIT_RETRIES - attempt
      {
        var reply;
        reply, parent := Submit(catalog, output, run, attempt);
        if reply.Ok? {
          return Ok(()), parent;
        }
        if reply.error != Conflict || attempt == MAX_COMMIT_RETRIES {
          return Err(CommitFailed(reply.error)), parent;
        }
        var found := Reload(catalog, paths, run, attempt);
        parent := catalog.table;
        if found.Err? {
          return Err(found.error), parent;
        }
        attempt := attempt + 1;
      }
    }

    /** Take the live files of all partitions that have enough of them. */
    method ChooseFiles() returns (any: bool, partitions: nat)
      modifies this`compactEntries
      ensures Chooses(table, compactEntries, minFiles, any, partitions)
      ensures any ==> PathsOf(compactEntries) <= LivePaths(Main(table))
    {
      if table.SnapshotForRef(MAIN).None? {
        NoLiveEntries(table);
        return false, 0;
      }
      var alive := CollectAlive(Main(table));
      compactEntries, partitions := QualifyingEntries(alive, minFiles);
      any := compactEntries != [];
      NothingTaken(alive, compactEntries, minFiles);
      TakenIsLive(alive, compactEntries, minFiles);
    }

    /** Rewrite the chosen files and commit with retries. */
    method RewriteChosen(catalog: Server, rewriteFiles: seq<Entry> -> seq<DataFile>, partitions: nat, ghost run: Run)
      returns (r: Result<Outcome, CompactionError>, ghost parent: Metadata)
      requires run == Run(catalog, catalog.table, catalog.calls, table, compactEntries) && run.Sound()
      modifies this, catalog
      ensures run.first <= catalog.calls <= run.first + 7 && parent == run.Rivals(catalog.calls - run.first)
      ensures r.Ok? ==> if r.value.Rewritten?
                        then RewriteLanded(parent, catalog.table, PathsOf(run.chosen), rewriteFiles(run.chosen))
                        else catalog.calls == run.first
      ensures !(r.Ok? && r.value.Rewritten?) ==> catalog.table == parent
      ensures !(r.Ok? && r.value.NothingToDo?)
      ensures run.RewriteAnswers(partitions, rewriteFiles(run.chosen), catalog.calls - run.first, r)
    {
      parent := catalog.table;
      var chosen, filesRead := PathsOf(compactEntries), |compactEntries|;
      var newFiles := rewriteFiles(compactEntries);
      if newFiles == [] {
        return Ok(NothingWritten(filesRead, partitions)), parent;
      }
      var committed;
      committed, parent := CommitWithRetries(catalog, chosen, newFiles, run);
      r := match committed
        case Ok(_) => Ok(Rewritten(filesRead, |newFiles|, partitions))
        case Err(e) => Err(e);
    }

    /**
     Plan on the loaded table, rewrite the chosen files with `rewriteFiles`, then
     commit with retries.

     Whatever the other clients do: a reported rewrite was applied to the main
     snapshot that the rivals left, every chosen file was live there, and
     without a reported rewrite the table holds the rivals' work only. There is
     nothing to do exactly when no partition of main has enough files, nothing is
     written exactly when the rewrite yields no file, and otherwise what the
     rivals do decides the answer.
     */
    method Execute(catalog: Server, rewriteFiles: seq<Entry> -> seq<DataFile>)
      returns (r: Result<Outcome, CompactionError>, ghost parent: Metadata, ghost run: Run, ghost partitions: nat)
      requires LoadedBefore(table, catalog.table) && catalog.table.RefsResolve()
      modifies this, catalog
      ensures run.catalog == catalog && run.start == old(catalog.table) && run.first == old(catalog.calls)
      ensures run.planned == old(table)
      ensures run.first <= catalog.calls <= run.first + 7 && parent == run.Rivals(catalog.calls - run.first)
      ensures !(r.Ok? && r.value.Rewritten?) ==> catalog.table == parent
      ensures r.Ok? ==> if r.value.Rewritten?
                        then RewriteLanded(parent, catalog.table, PathsOf(run.chosen), rewriteFiles(run.chosen))
                        else catalog.calls == run.first
      ensures var chose := Chooses(run.planned, run.chosen, minFiles, r != Ok(NothingToDo), partitions);
              chose
      ensures var answered := run.RewriteAnswers(partitions, rewriteFiles(run.chosen), catalog.calls - run.first, r);
              answered || r == Ok(NothingToDo)
    {
      var any, big := ChooseFiles();
      run, parent, partitions := Run(catalog, catalog.table, catalog.calls, table, compactEntries), catalog.table, big;
      if !any {
        return Ok(NothingToDo), parent, run, partitions;
      }
      r, parent := RewriteChosen(catalog, rewriteFiles, big, run);
    }
  }

  lemma {:induction false} NoLiveEntries(table: Metadata)
    ensures table.SnapshotForRef(MAIN).None? ==> LiveEntries(Main(table)) == []
  {
  }

  lemma {:induction false} TakenIsLive(live: seq<Entry>, taken: seq<Entry>, minFiles: nat)
    requires multiset(taken) == multiset(Qualifying(live, minFiles))
    ensures PathsOf(taken) == PathsOf(Qualifying(live, minFiles)) <= PathsOf(live)
  {
    SameEntriesSamePaths(taken, Qualifying(live, minFiles));
    InPartitionsMembers(live, BigPartitions(live, minFiles));
  }

  lemma {:induction false} SameEntriesSamePaths(a: seq<Entry>, b: seq<Entry>)
    requires multiset(a) == multiset(b)
    ensures PathsOf(a) == PathsOf(b)
  {
    assert forall e :: e in a <==> e in multiset(a);
    assert forall e :: e in b <==> e in multiset(b);
  }
}
