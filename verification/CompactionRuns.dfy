/**
 Appends and any number of compactors working on one unpartitioned table at
 the same time: every interleaving of their catalog calls, lost replies and
 crashes included.
 */
module CompactionRuns {
  import opened Wrappers
  import opened Catalog
  import opened CatalogServer
  import opened Rewrite

  const MAX_COMMIT_RETRIES: nat := 3
  const UNPARTITIONED: Partition := 0

  /** Where one compaction is between two of its catalog calls. */
  datatype Phase =
    | Ready(base: Metadata, entries: seq<Entry>)  // table loaded, rewrite about to be submitted
    | Conflicted                                  // about to reload the table
    | Committed                                   // the catalog applied its rewrite
    | Stopped                                     // gave up, failed or crashed

  /** `paths` and `output` are fixed when the data has been read and rewritten. */
  datatype Worker = Worker(paths: set<Path>, output: seq<DataFile>, phase: Phase, submissions: nat) {
    predicate Pending() {
      phase.Ready? || phase.Conflicted?
    }
  }

  /**
   `used` holds every data file path ever written and `appended` the rows of
   all the appends the catalog accepted.
   */
  datatype State = State(
    table: Metadata,
    used: set<Path>,
    appended: multiset<Row>,
    workers: map<nat, Worker>)

  datatype Event =
    | AppendFiles(base: Metadata, files: seq<DataFile>, id: SnapshotId)
    | Plan(worker: nat, entries: seq<Entry>, minFiles: nat, output: seq<DataFile>)
    | Submit(worker: nat, id: SnapshotId)
    | Reload(worker: nat)
    | Crash(worker: nat)

  const INITIAL := State(EMPTY_TABLE, {}, multiset{}, map[])

  function Main(table: Metadata): seq<Manifest> {
    table.ManifestsOf(MAIN)
  }

  /** Data files get fresh names, and an unpartitioned table has one partition value. */
  ghost predicate FreshOutput(used: set<Path>, files: seq<DataFile>) {
    && DistinctFiles(files)
    && FilePaths(files) !! used
    && forall f <- files :: f.partition == UNPARTITIONED
  }

  ghost predicate Enabled(s: State, event: Event) {
    match event
    case AppendFiles(base, files, _) =>
      LoadedBefore(base, s.table) && FreshOutput(s.used, files)
    case Plan(w, entries, minFiles, output) =>
      && w !in s.workers
      && multiset(entries) == multiset(Qualifying(LiveEntries(Main(s.table)), minFiles))
      && FreshOutput(s.used, output)
      // without deduplication the output holds the rows the filtered scan read
      && FileRows(output) == RowsOf(Select(LiveEntries(Main(s.table)), PathsOf(entries)))
    case Submit(w, id) =>
      w in s.workers && s.workers[w].phase.Ready? && id !in s.workers[w].phase.base.snapshots
    case Reload(w) => w in s.workers && s.workers[w].phase.Conflicted?
    case Crash(w) => w in s.workers && s.workers[w].Pending()
  }

  function RewriteRequest(w: Worker, id: SnapshotId): Request
    requires w.phase.Ready?
  {
    AdvanceRequest(w.phase.base, MAIN, RewriteSnapshot(w.phase.base, w.phase.entries, w.output, id))
  }

  /** How the retry loop goes on after the answer to one submission. */
  function AfterReply(w: Worker, reply: Result<Metadata, CommitError>): Worker {
    var again := w.(submissions := w.submissions + 1);
    match reply
    case Ok(_) => again.(phase := Committed)
    case Err(Conflict) => again.(phase := if w.submissions < MAX_COMMIT_RETRIES then Conflicted else Stopped)
    case Err(Invalid) => again.(phase := Stopped)
  }

  /** On a retry the files are looked up again in the reloaded table, and counted. */
  function AfterReload(w: Worker, table: Metadata): Worker {
    var entries := Select(LiveEntries(Main(table)), w.paths);
    if MAIN !in table.refs || |entries| != |w.paths| then w.(phase := Stopped)
    else w.(phase := Ready(table, entries))
  }

  ghost function Step(s: State, event: Event): State
    requires Enabled(s, event)
  {
    match event
    case AppendFiles(base, files, id) =>
      var snapshot := AppendSnapshot(base, MAIN, files, id, None);
      var reply := Commit(s.table, AdvanceRequest(base, MAIN, snapshot));
      s.(table := After(s.table, AdvanceRequest(base, MAIN, snapshot)),
         used := s.used + FilePaths(files),
         appended := s.appended + if reply.Ok? then FileRows(files) else multiset{})
    case Plan(w, entries, minFiles, output) =>
      if MAIN !in s.table.refs || entries == [] || output == [] then s
      else s.(used := s.used + FilePaths(output),
              workers := s.workers[w := Worker(PathsOf(entries), output, Ready(s.table, entries), 0)])
    case Submit(w, id) =>
      var request := RewriteRequest(s.workers[w], id);
      s.(table := After(s.table, request),
         workers := s.workers[w := AfterReply(s.workers[w], Commit(s.table, request))])
    case Reload(w) =>
      s.(workers := s.workers[w := AfterReload(s.workers[w], s.table)])
    case Crash(w) =>
      s.(workers := s.workers[w := s.workers[w].(phase := Stopped)])
  }

  /** `trace` is a run: it starts empty and every state follows from the one before. */
  ghost predicate IsRun(trace: seq<State>, events: seq<Event>) {
    && |trace| == |events| + 1
    && trace[0] == INITIAL
    && forall i :: 0 <= i < |events| ==>
         Enabled(trace[i], events[i]) && trace[i + 1] == Step(trace[i], events[i])
  }

  // ------------------------------------------------------------------
  // The invariant
  // ------------------------------------------------------------------

  ghost predicate TableInv(main: seq<Manifest>, used: set<Path>, appended: multiset<Row>) {
    && DistinctPaths(LiveEntries(main))
    && LivePaths(main) <= used
    && (forall e <- LiveEntries(main) :: e.file.partition == UNPARTITIONED)
    && TableRows(main) == appended
  }

  ghost predicate WorkerInv(main: seq<Manifest>, used: set<Path>, w: Worker) {
    && w.paths <= used
    && w.submissions <= (if w.Pending() then MAX_COMMIT_RETRIES else MAX_COMMIT_RETRIES + 1)
    && (w.phase.Committed? ==> w.paths !! LivePaths(main))
    && (w.Pending() ==>
          && FilePaths(w.output) <= used
          && FilePaths(w.output) !! LivePaths(main)
          && DistinctFiles(w.output)
          && (forall f <- w.output :: f.partition == UNPARTITIONED)
          && NoMixing(main, w.paths)
          && (w.paths <= LivePaths(main) ==> RowsOf(Select(LiveEntries(main), w.paths)) == FileRows(w.output)))
  }

  ghost predicate BaseInv(table: Metadata, w: Worker) {
    w.phase.Ready? ==>
      && LoadedBefore(w.phase.base, table)
      && MAIN in w.phase.base.refs
      && PathsOf(w.phase.entries) == w.paths
      && w.paths <= LivePaths(Main(w.phase.base))
  }

  /** What `v` will add is in nobody's input, and no two rewrites share an input. */
  ghost predicate PairInv(v: Worker, w: Worker) {
    && (v.Pending() ==> FilePaths(v.output) !! w.paths)
    && (v.Pending() && w.Pending() ==> FilePaths(v.output) !! FilePaths(w.output))
    && (v.phase.Committed? && w.phase.Committed? ==> v.paths !! w.paths)
  }

  ghost predicate Inv(s: State) {
    && s.table.RefsResolve()
    && TableInv(Main(s.table), s.used, s.appended)
    && (forall w <- s.workers :: WorkerInv(Main(s.table), s.used, s.workers[w]) && BaseInv(s.table, s.workers[w]))
    && (forall v <- s.workers, w <- s.workers :: v != w ==> PairInv(s.workers[v], s.workers[w]))
    && (forall w <- s.workers :: s.workers[w].Pending() ==> FilePaths(s.workers[w].output) !! s.workers[w].paths)
  }

  // ------------------------------------------------------------------
  // Distinct paths and counting
  // ------------------------------------------------------------------

  lemma {:induction false} CountDistinct(entries: seq<Entry>)
    requires DistinctPaths(entries)
    ensures |PathsOf(entries)| == |entries|
  {
    if entries != [] {
      CountDistinct(entries[1..]);
      assert PathsOf(entries) == {entries[0].file.path} + PathsOf(entries[1..]) by {
        assert entries == [entries[0]] + entries[1..];
      }
    }
  }

  /**
   The reload's entry count: with one live entry per live path, as many
   entries as paths means that every path is there.
   */
  lemma {:induction false} CountFindsEveryPath(entries: seq<Entry>, paths: set<Path>)
    requires DistinctPaths(entries)
    ensures |Select(entries, paths)| == |paths| <==> paths <= PathsOf(entries)
    ensures |Select(entries, paths)| == |paths| ==> PathsOf(Select(entries, paths)) == paths
  {
    var found := PathsOf(Select(entries, paths));
    SelectDistinct(entries, paths);
    CountDistinct(Select(entries, paths));
    assert found <= paths;
    if |found| == |paths| && found != paths {
      assert !(paths <= found);
      var p :| p in paths && p !in found;
      SubsetCount(found, paths - {p});
    }
    if paths <= PathsOf(entries) {
      forall p <- paths ensures p in found {
        var e :| e in entries && e.file.path == p;
        SelectMember(entries, paths, e);
      }
      assert found == paths;
    }
  }

  lemma {:induction false} SubsetCount(a: set<Path>, b: set<Path>)
    requires a <= b
    ensures |a| <= |b|
  {
    if a != {} {
      var x :| x in a;
      SubsetCount(a - {x}, b - {x});
    }
  }

  lemma {:induction false} AddedDistinct(entries: seq<Entry>, files: seq<DataFile>, seqNum: nat)
    requires DistinctPaths(entries) && DistinctFiles(files) && PathsOf(entries) !! FilePaths(files)
    ensures DistinctPaths(entries + AddedEntries(files, seqNum))
  {
    AddedRows(files, seqNum);
    DistinctConcat(entries, AddedEntries(files, seqNum));
  }

  lemma {:induction false} SelectAfterReject(entries: seq<Entry>, gone: set<Path>, paths: set<Path>)
    requires gone !! paths
    ensures Select(Reject(entries, gone), paths) == Select(entries, paths)
  {
    if entries != [] {
      SelectAfterReject(entries[1..], gone, paths);
      if entries[0].file.path !in gone {
        assert Reject(entries, gone)[1..] == Reject(entries[1..], gone);
      }
    }
  }

  // ------------------------------------------------------------------
  // An append
  // ------------------------------------------------------------------

  lemma {:induction false} AppendKeepsTable(main: seq<Manifest>, used: set<Path>, appended: multiset<Row>,
                                            files: seq<DataFile>, seqNum: nat)
    requires TableInv(main, used, appended) && FreshOutput(used, files)
    ensures TableInv(AppendManifests(main, files, seqNum), used + FilePaths(files), appended + FileRows(files))
  {
    AppendLive(main, files, seqNum);
    AddedRows(files, seqNum);
    DistinctConcat(AddedEntries(files, seqNum), LiveEntries(main));
    forall e <- AddedEntries(files, seqNum) ensures e.file in files {
    }
  }

  /** A manifest of files outside `paths` mixes nothing. */
  lemma {:induction false} AddedIsNotMixed(files: seq<DataFile>, seqNum: nat, paths: set<Path>)
    requires FilePaths(files) !! paths
    ensures !Mixed(AddedManifest(files, seqNum), paths)
    ensures Select(AddedEntries(files, seqNum), paths) == []
  {
    var added := AddedEntries(files, seqNum);
    AddedRows(files, seqNum);
    SelectNone(added, paths);
    forall e <- added ensures e.file.path !in paths {
      assert e.file.path in PathsOf(added);
    }
  }

  lemma {:induction false} AppendMixesNothing(main: seq<Manifest>, files: seq<DataFile>, seqNum: nat, paths: set<Path>)
    requires NoMixing(main, paths) && FilePaths(files) !! paths
    ensures NoMixing(AppendManifests(main, files, seqNum), paths)
  {
    CarriedKeepsLive(main);
    AddedIsNotMixed(files, seqNum, paths);
    forall m <- AppendManifests(main, files, seqNum) ensures !Mixed(m, paths) {
      assert m == AddedManifest(files, seqNum) || m in Carried(main);
    }
  }

  lemma {:induction false} AppendSelects(main: seq<Manifest>, files: seq<DataFile>, seqNum: nat, paths: set<Path>)
    requires FilePaths(files) !! paths
    ensures Select(LiveEntries(AppendManifests(main, files, seqNum)), paths) == Select(LiveEntries(main), paths)
  {
    AppendLive(main, files, seqNum);
    AddedIsNotMixed(files, seqNum, paths);
    SelectConcat(AddedEntries(files, seqNum), LiveEntries(main), paths);
  }

  lemma {:induction false} AppendKeepsWorker(main: seq<Manifest>, used: set<Path>, files: seq<DataFile>, seqNum: nat,
                                             w: Worker)
    requires WorkerInv(main, used, w) && FreshOutput(used, files)
    ensures WorkerInv(AppendManifests(main, files, seqNum), used + FilePaths(files), w)
  {
    AppendLive(main, files, seqNum);
    if w.Pending() {
      AppendMixesNothing(main, files, seqNum, w.paths);
      AppendSelects(main, files, seqNum, w.paths);
      assert w.paths <= LivePaths(AppendManifests(main, files, seqNum)) ==> w.paths <= LivePaths(main);
    }
  }

  // ------------------------------------------------------------------
  // A rewrite
  // ------------------------------------------------------------------

  /** What is live after the rewrite of `j`, seen as one list. */
  lemma {:induction false} RewriteKeepsTable(main: seq<Manifest>, used: set<Path>, appended: multiset<Row>, j: Worker,
                          entries: seq<Entry>, seqNum: nat)
    requires TableInv(main, used, appended) && WorkerInv(main, used, j) && j.Pending()
    requires PathsOf(entries) == j.paths && j.paths <= LivePaths(main)
    ensures LiveEntries(RewriteManifests(main, entries, j.output, seqNum)) ==
            Reject(LiveEntries(main), j.paths) + AddedEntries(j.output, seqNum)
    ensures TableInv(RewriteManifests(main, entries, j.output, seqNum), used, appended)
  {
    RewriteLive(main, entries, j.output, seqNum);
    SurvivorsDropTheRest(main, j.paths);
    RewriteRows(main, entries, j.output, seqNum);
    RewriteLivePaths(main, entries, j.output, seqNum);
    var kept := Reject(LiveEntries(main), j.paths);
    SelectDistinct(LiveEntries(main), j.paths);
    assert PathsOf(kept) <= LivePaths(main);
    AddedDistinct(kept, j.output, seqNum);
  }

  lemma {:induction false} RewriteMixesNothing(main: seq<Manifest>, entries: seq<Entry>, files: seq<DataFile>,
                                               seqNum: nat, paths: set<Path>)
    requires NoMixing(main, paths) && FilePaths(files) !! paths
    ensures NoMixing(RewriteManifests(main, entries, files, seqNum), paths)
  {
    AddedIsNotMixed(files, seqNum, paths);
    forall m <- RewriteManifests(main, entries, files, seqNum) ensures !Mixed(m, paths) {
      SurvivorMember(main, PathsOf(entries), m);
      assert m in Survivors(main, PathsOf(entries)) || m == DeletedManifest(entries, seqNum)
          || m == AddedManifest(files, seqNum);
    }
  }

  lemma {:induction false} RewriteSelects(live: seq<Entry>, gone: set<Path>, files: seq<DataFile>, seqNum: nat,
                                          paths: set<Path>)
    requires FilePaths(files) !! paths && gone !! paths
    ensures Select(Reject(live, gone) + AddedEntries(files, seqNum), paths) == Select(live, paths)
  {
    AddedIsNotMixed(files, seqNum, paths);
    SelectConcat(Reject(live, gone), AddedEntries(files, seqNum), paths);
    SelectAfterReject(live, gone, paths);
  }

  /** A rewrite by `j` takes a rival's input away for good, or leaves it alone. */
  lemma {:induction false} RewriteKeepsWorker(main: seq<Manifest>, used: set<Path>, appended: multiset<Row>, j: Worker,
                           entries: seq<Entry>, seqNum: nat, w: Worker)
    requires TableInv(main, used, appended) && WorkerInv(main, used, j) && j.Pending()
    requires PathsOf(entries) == j.paths && j.paths <= LivePaths(main)
    requires WorkerInv(main, used, w) && PairInv(j, w)
    ensures WorkerInv(RewriteManifests(main, entries, j.output, seqNum), used, w)
    ensures w.phase.Committed? ==> w.paths !! j.paths
  {
    var child := RewriteManifests(main, entries, j.output, seqNum);
    SurvivorsDropTheRest(main, j.paths);
    RewriteLivePaths(main, entries, j.output, seqNum);
    if w.Pending() {
      RewriteMixesNothing(main, entries, j.output, seqNum, w.paths);
      if w.paths <= LivePaths(child) {
        assert w.paths !! j.paths;
        RewriteKeepsTable(main, used, appended, j, entries, seqNum);
        RewriteSelects(LiveEntries(main), j.paths, j.output, seqNum, w.paths);
      }
    }
  }

  // ------------------------------------------------------------------
  // Every event keeps the invariant
  // ------------------------------------------------------------------

  lemma {:induction false} AppendStep(s: State, event: Event)
    requires Inv(s) && event.AppendFiles? && Enabled(s, event)
    ensures Inv(Step(s, event))
  {
    var AppendFiles(base, files, id) := event;
    var snapshot := AppendSnapshot(base, MAIN, files, id, None);
    var next := Step(s, event);
    CommitOfAdvance(s.table, base, MAIN, snapshot);
    if Commit(s.table, AdvanceRequest(base, MAIN, snapshot)).Ok? {
      SameRefSameManifests(base, s.table, MAIN);
      AppendKeepsTable(Main(s.table), s.used, s.appended, files, base.NextSeqNum());
      forall w <- s.workers
        ensures WorkerInv(Main(next.table), next.used, s.workers[w]) && BaseInv(next.table, s.workers[w])
      {
        AppendKeepsWorker(Main(s.table), s.used, files, base.NextSeqNum(), s.workers[w]);
      }
    }
  }

  /** Grouping an unpartitioned table takes all of it or nothing. */
  lemma {:induction false} PlanTakesAll(main: seq<Manifest>, used: set<Path>, appended: multiset<Row>,
                                        entries: seq<Entry>, minFiles: nat)
    requires TableInv(main, used, appended) && entries != []
    requires multiset(entries) == multiset(Qualifying(LiveEntries(main), minFiles))
    ensures PathsOf(entries) == LivePaths(main)
  {
    var live := LiveEntries(main);
    QualifyingUnpartitioned(live, minFiles, UNPARTITIONED);
    assert entries[0] in multiset(entries);
    assert Qualifying(live, minFiles) == live;
    assert forall e :: e in entries <==> e in multiset(entries);
    assert forall e :: e in live <==> e in multiset(live);
  }

  lemma {:induction false} PlanKeepsOthers(s: State, main: seq<Manifest>, output: seq<DataFile>)
    requires main == Main(s.table) && forall v <- s.workers :: WorkerInv(main, s.used, s.workers[v])
    ensures forall v <- s.workers :: WorkerInv(main, s.used + FilePaths(output), s.workers[v])
  {
  }

  /** The new compaction's output is new to everybody, and everybody's output is new to it. */
  lemma {:induction false} PlanKeepsPairs(s: State, j: Worker, v: nat)
    requires v in s.workers && Inv(s) && j.phase.Ready? && j.paths == LivePaths(Main(s.table))
    requires FilePaths(j.output) !! s.used
    ensures PairInv(j, s.workers[v]) && PairInv(s.workers[v], j)
  {
    assert WorkerInv(Main(s.table), s.used, s.workers[v]);
  }

  lemma {:induction false} PlannedInv(s: State, w: nat, j: Worker)
    requires Inv(s) && w !in s.workers && j.phase.Ready? && j.paths == LivePaths(Main(s.table))
    requires FilePaths(j.output) !! s.used && FilePaths(j.output) !! j.paths
    requires WorkerInv(Main(s.table), s.used + FilePaths(j.output), j) && BaseInv(s.table, j)
    ensures Inv(s.(used := s.used + FilePaths(j.output), workers := s.workers[w := j]))
  {
    PlanKeepsOthers(s, Main(s.table), j.output);
    forall v <- s.workers ensures PairInv(j, s.workers[v]) && PairInv(s.workers[v], j) {
      PlanKeepsPairs(s, j, v);
    }
  }

  lemma {:induction false} PlanStep(s: State, event: Event)
    requires Inv(s) && event.Plan? && Enabled(s, event)
    ensures Inv(Step(s, event))
  {
    var Plan(w, entries, minFiles, output) := event;
    if MAIN in s.table.refs && entries != [] && output != [] {
      PlanTakesAll(Main(s.table), s.used, s.appended, entries, minFiles);
      PlannedWorker(Main(s.table), s.used, s.appended, PathsOf(entries), output, Ready(s.table, entries));
      PlannedInv(s, w, Worker(PathsOf(entries), output, Ready(s.table, entries), 0));
    }
  }

  lemma {:induction false} PlannedWorker(main: seq<Manifest>, used: set<Path>, appended: multiset<Row>,
                                         paths: set<Path>, output: seq<DataFile>, phase: Phase)
    requires TableInv(main, used, appended) && FreshOutput(used, output) && paths == LivePaths(main)
    requires FileRows(output) == RowsOf(Select(LiveEntries(main), paths)) && phase.Ready?
    ensures WorkerInv(main, used + FilePaths(output), Worker(paths, output, phase, 0))
  {
    forall m <- main, e <- m.entries | e.IsAlive() ensures e.file.path in paths {
      LiveMember(main, e);
    }
  }

  lemma {:induction false} SubmitCommitted(s: State, event: Event, child: seq<Manifest>, table: Metadata)
    requires Inv(s) && event.Submit? && Enabled(s, event)
    requires var j := s.workers[event.worker];
             && j.phase.base.Ref(MAIN) == s.table.Ref(MAIN)
             && child == RewriteManifests(Main(j.phase.base), j.phase.entries, j.output, j.phase.base.NextSeqNum())
             && Main(table) == child && LoadedBefore(s.table, table)
    ensures TableInv(child, s.used, s.appended)
    ensures forall w <- s.workers :: w != event.worker ==>
              WorkerInv(child, s.used, s.workers[w]) && BaseInv(table, s.workers[w])
    ensures forall w <- s.workers :: w != event.worker && s.workers[w].phase.Committed? ==>
              s.workers[w].paths !! s.workers[event.worker].paths
    ensures LivePaths(child) !! s.workers[event.worker].paths
  {
    var j := s.workers[event.worker];
    var base, entries := j.phase.base, j.phase.entries;
    var main := Main(s.table);
    SameRefSameManifests(base, s.table, MAIN);
    RewriteKeepsTable(main, s.used, s.appended, j, entries, base.NextSeqNum());
    RewriteLivePaths(main, entries, j.output, base.NextSeqNum());
    SurvivorsDropTheRest(main, j.paths);
    forall w <- s.workers | w != event.worker
      ensures WorkerInv(child, s.used, s.workers[w]) && BaseInv(table, s.workers[w])
      ensures s.workers[w].phase.Committed? ==> s.workers[w].paths !! j.paths
    {
      RewriteKeepsWorker(main, s.used, s.appended, j, entries, base.NextSeqNum(), s.workers[w]);
    }
  }

  /** A rewrite that is refused leaves the table, and its worker with one submission more. */
  lemma {:induction false} SubmitRefused(s: State, event: Event)
    requires Inv(s) && event.Submit? && Enabled(s, event)
    requires Commit(s.table, RewriteRequest(s.workers[event.worker], event.id)).Err?
    ensures Inv(Step(s, event))
  {
    var j := s.workers[event.worker];
    var next := Step(s, event);
    assert next.table == s.table && WorkerInv(Main(s.table), s.used, j);
    assert WorkerInv(Main(s.table), s.used, next.workers[event.worker]);
  }

  lemma {:induction false} SubmitAccepted(s: State, event: Event)
    requires Inv(s) && event.Submit? && Enabled(s, event)
    requires Commit(s.table, RewriteRequest(s.workers[event.worker], event.id)).Ok?
    ensures Inv(Step(s, event))
  {
    var j := s.workers[event.worker];
    var snapshot := RewriteSnapshot(j.phase.base, j.phase.entries, j.output, event.id);
    var next := Step(s, event);
    CommitOfAdvance(s.table, j.phase.base, MAIN, snapshot);
    assert WorkerInv(Main(s.table), s.used, j);
    assert Main(next.table) == snapshot.manifests && LoadedBefore(s.table, next.table);
    SubmitCommitted(s, event, snapshot.manifests, next.table);
  }

  lemma {:induction false} SubmitStep(s: State, event: Event)
    requires Inv(s) && event.Submit? && Enabled(s, event)
    ensures Inv(Step(s, event))
  {
    if Commit(s.table, RewriteRequest(s.workers[event.worker], event.id)).Ok? {
      SubmitAccepted(s, event);
    } else {
      SubmitRefused(s, event);
    }
  }

  lemma {:induction false} ReloadStep(s: State, event: Event)
    requires Inv(s) && event.Reload? && Enabled(s, event)
    ensures Inv(Step(s, event))
  {
    var w := s.workers[event.worker];
    assert WorkerInv(Main(s.table), s.used, w);
    CountFindsEveryPath(LiveEntries(Main(s.table)), w.paths);
    assert WorkerInv(Main(s.table), s.used, AfterReload(w, s.table)) && BaseInv(s.table, AfterReload(w, s.table));
  }

  lemma {:induction false} StepKeepsInv(s: State, event: Event)
    requires Inv(s) && Enabled(s, event)
    ensures Inv(Step(s, event))
  {
    match event
    case AppendFiles(_, _, _) => AppendStep(s, event);
    case Plan(_, _, _, _) => PlanStep(s, event);
    case Submit(_, _) => SubmitStep(s, event);
    case Reload(_) => ReloadStep(s, event);
    case Crash(_) =>
  }

  lemma {:induction false} RunKeepsInv(trace: seq<State>, events: seq<Event>)
    requires IsRun(trace, events)
    ensures Inv(trace[|events|])
  {
    if events != [] {
      var n := |events| - 1;
      RunKeepsInv(trace[..n + 1], events[..n]);
      StepKeepsInv(trace[n], events[n]);
    }
  }

  // ------------------------------------------------------------------
  // What holds in every run
  // ------------------------------------------------------------------

  /** Rows are conserved: main holds what the accepted appends put there, no more, no less. */
  lemma {:induction false} RowsAreConserved(trace: seq<State>, events: seq<Event>)
    requires IsRun(trace, events)
    ensures var s := trace[|events|];
            TableRows(Main(s.table)) == s.appended
  {
    RunKeepsInv(trace, events);
  }

  /** Two compactions that read a common file never both commit. */
  lemma {:induction false} NoInputCompactedTwice(trace: seq<State>, events: seq<Event>, v: nat, w: nat)
    requires IsRun(trace, events)
    requires v != w && v in trace[|events|].workers && w in trace[|events|].workers
    requires trace[|events|].workers[v].phase.Committed? && trace[|events|].workers[w].phase.Committed?
    ensures trace[|events|].workers[v].paths !! trace[|events|].workers[w].paths
  {
    RunKeepsInv(trace, events);
    assert PairInv(trace[|events|].workers[v], trace[|events|].workers[w]);
  }

  /** A compaction submits at most one rewrite and three retries. */
  lemma {:induction false} BoundedSubmissions(trace: seq<State>, events: seq<Event>, w: nat)
    requires IsRun(trace, events) && w in trace[|events|].workers
    ensures trace[|events|].workers[w].submissions <= 4
  {
    RunKeepsInv(trace, events);
  }

  /** A retry goes on exactly when every file of its input is still live. */
  lemma {:induction false} RetryExactlyWhenInputIsLive(trace: seq<State>, events: seq<Event>, w: nat)
    requires IsRun(trace, events) && w in trace[|events|].workers
    requires trace[|events|].workers[w].phase.Conflicted?
    requires MAIN in trace[|events|].table.refs
    ensures var s := trace[|events|];
            AfterReload(s.workers[w], s.table).phase.Ready? <==> s.workers[w].paths <= LivePaths(Main(s.table))
  {
    RunKeepsInv(trace, events);
    var s := trace[|events|];
    CountFindsEveryPath(LiveEntries(Main(s.table)), s.workers[w].paths);
  }

  /**
   No manifest of main ever mixes files that a compaction under way took with
   other live files, so that its rewrite makes live exactly what it should.
   */
  lemma {:induction false} RewritesAreExact(trace: seq<State>, events: seq<Event>, w: nat, taken: seq<Entry>)
    requires IsRun(trace, events) && w in trace[|events|].workers
    requires trace[|events|].workers[w].Pending() && PathsOf(taken) == trace[|events|].workers[w].paths
    ensures NoMixing(Main(trace[|events|].table), PathsOf(taken))
    ensures var main, output := Main(trace[|events|].table), trace[|events|].workers[w].output;
            PathsOf(taken) <= LivePaths(main) ==>
              LivePaths(RewriteManifests(main, taken, output, trace[|events|].table.NextSeqNum())) ==
              LivePaths(main) - PathsOf(taken) + FilePaths(output)
  {
    RunKeepsInv(trace, events);
    var s := trace[|events|];
    assert WorkerInv(Main(s.table), s.used, s.workers[w]);
    if PathsOf(taken) <= LivePaths(Main(s.table)) {
      RewriteLivePaths(Main(s.table), taken, s.workers[w].output, s.table.NextSeqNum());
    }
  }

  // ------------------------------------------------------------------
  // What becomes of a submission
  // ------------------------------------------------------------------

  /** Main names the snapshot that took the last sequence number. */
  predicate MainIsLatest(table: Metadata) {
    if MAIN in table.refs then
      table.refs[MAIN] in table.snapshots && table.snapshots[table.refs[MAIN]].seqNum == table.lastSeqNum
    else table.lastSeqNum == 0
  }

  ghost predicate LatestInv(s: State) {
    && MainIsLatest(s.table)
    && forall w <- s.workers :: s.workers[w].phase.Ready? ==> MainIsLatest(s.workers[w].phase.base)
  }

  lemma {:induction false} StepKeepsLatest(s: State, event: Event)
    requires LatestInv(s) && Enabled(s, event)
    ensures LatestInv(Step(s, event))
  {
    match event
    case AppendFiles(base, files, id) =>
      CommitOfAdvance(s.table, base, MAIN, AppendSnapshot(base, MAIN, files, id, None));
    case Submit(w, id) =>
      var j := s.workers[w];
      CommitOfAdvance(s.table, j.phase.base, MAIN, RewriteSnapshot(j.phase.base, j.phase.entries, j.output, id));
    case _ =>
  }

  lemma {:induction false} RunKeepsLatest(trace: seq<State>, events: seq<Event>)
    requires IsRun(trace, events)
    ensures LatestInv(trace[|events|])
  {
    if events != [] {
      var n := |events| - 1;
      RunKeepsLatest(trace[..n + 1], events[..n]);
      StepKeepsLatest(trace[n], events[n]);
    }
  }

  /** As long as main has not moved, nothing has happened to the table. */
  lemma {:induction false} UnmovedIsUnchanged(base: Metadata, table: Metadata)
    requires LoadedBefore(base, table) && MainIsLatest(base) && MainIsLatest(table)
    requires table.Ref(MAIN) == base.Ref(MAIN)
    ensures base.lastSeqNum == table.lastSeqNum && base.snapshots == table.snapshots
  {
    if MAIN in base.refs {
      assert base.refs[MAIN] in base.snapshots && table.refs[MAIN] == base.refs[MAIN];
    }
  }

  /**
   In every run a submission commits exactly when main is still what the
   rewrite was built on. Otherwise the compaction reloads the table, until the
   fourth submission ends it; no other reply is ever given.
   */
  lemma {:induction false} SubmissionExactly(trace: seq<State>, events: seq<Event>, w: nat, id: SnapshotId)
    requires IsRun(trace, events) && Enabled(trace[|events|], Submit(w, id))
    ensures var s, next := trace[|events|], Step(trace[|events|], Submit(w, id)).workers[w];
            var unmoved := s.table.Ref(MAIN) == s.workers[w].phase.base.Ref(MAIN);
            && next.submissions == s.workers[w].submissions + 1 && next.paths == s.workers[w].paths
            && (next.phase.Committed? <==> unmoved)
            && (next.phase.Conflicted? <==> !unmoved && next.submissions <= 3)
            && (next.phase.Stopped? <==> !unmoved && next.submissions == 4)
  {
    RunKeepsInv(trace, events);
    RunKeepsLatest(trace, events);
    var s := trace[|events|];
    var j := s.workers[w];
    assert WorkerInv(Main(s.table), s.used, j) && BaseInv(s.table, j);
    CommitOfAdvance(s.table, j.phase.base, MAIN, RewriteSnapshot(j.phase.base, j.phase.entries, j.output, id));
    if s.table.Ref(MAIN) == j.phase.base.Ref(MAIN) {
      UnmovedIsUnchanged(j.phase.base, s.table);
    }
  }

  /**
   In every run a compaction starts exactly when at least `minFiles` files are
   live, and some, and rewriting them yields files; it then takes all live files.
   */
  lemma {:induction false} PlanExactly(trace: seq<State>, events: seq<Event>, w: nat, entries: seq<Entry>,
                                       minFiles: nat, output: seq<DataFile>)
    requires IsRun(trace, events) && Enabled(trace[|events|], Plan(w, entries, minFiles, output))
    ensures var s := trace[|events|];
            var next, live := Step(s, Plan(w, entries, minFiles, output)).workers, LiveEntries(Main(s.table));
            && (w in next <==> live != [] && |live| >= minFiles && output != [])
            && (w in next ==> next[w] == Worker(LivePaths(Main(s.table)), output, Ready(s.table, entries), 0))
  {
    RunKeepsInv(trace, events);
    var s := trace[|events|];
    var live := LiveEntries(Main(s.table));
    QualifyingUnpartitioned(live, minFiles, UNPARTITIONED);
    assert |multiset(entries)| == |entries| && |multiset(Qualifying(live, minFiles))| == |Qualifying(live, minFiles)|;
    if entries != [] {
      PlanTakesAll(Main(s.table), s.used, s.appended, entries, minFiles);
    }
  }
}
