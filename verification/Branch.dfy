/**
 Branch operations as atomic catalog requests, and what any number of clients
 can do with them when each builds its requests from a table it loaded
 arbitrarily long ago.
 */
module Branch {
  import opened Wrappers
  import opened Catalog
  import opened CatalogServer
  import opened Rewrite

  datatype BranchError = ReservedName | EmptyName | NoDataFiles | NoSuchBranch

  function ValidateBranchName(name: string): Result<(), BranchError> {
    if name == MAIN then Err(ReservedName)
    else if name == "" then Err(EmptyName)
    else Ok(())
  }

  /** Branch off main; no request at all while the table has no snapshot. */
  function CreateBranch(table: Metadata, name: string): Result<Option<Request>, BranchError> {
    match ValidateBranchName(name)
    case Err(e) => Err(e)
    case Ok(_) =>
      match table.Ref(MAIN)
      case None => Ok(None)
      case Some(main) =>
        Ok(Some(Request([RefSnapshotIdMatch(name, None)], [SetSnapshotRef(name, main)])))
  }

  function CommitToBranch(table: Metadata, name: string, files: seq<DataFile>, wapId: string, id: SnapshotId)
    : Result<Request, BranchError>
  {
    match ValidateBranchName(name)
    case Err(e) => Err(e)
    case Ok(_) =>
      if files == [] then Err(NoDataFiles)
      else Ok(AdvanceRequest(table, name, AppendSnapshot(table, name, files, id, Some(wapId))))
  }

  /** Move main to the branch's snapshot and remove the branch; only main's id is pinned. */
  function PublishBranch(table: Metadata, name: string): Result<Request, BranchError> {
    match ValidateBranchName(name)
    case Err(e) => Err(e)
    case Ok(_) =>
      match table.Ref(name)
      case None => Err(NoSuchBranch)
      case Some(branch) =>
        Ok(Request([RefSnapshotIdMatch(MAIN, table.Ref(MAIN))],
                   [SetSnapshotRef(MAIN, branch), RemoveSnapshotRef(name)]))
  }

  function DeleteBranch(name: string): Result<Request, BranchError> {
    match ValidateBranchName(name)
    case Err(e) => Err(e)
    case Ok(_) => Ok(Request([], [RemoveSnapshotRef(name)]))
  }

  // ------------------------------------------------------------------
  // What the requests do
  // ------------------------------------------------------------------

  lemma {:induction false} OneUpdate(table: Metadata, update: Update)
    ensures ApplyUpdates(table, [update]) == ApplyUpdate(table, update)
  {
    assert [update][1..] == [];
  }

  lemma {:induction false} CommitOfCreate(table: Metadata, base: Metadata, name: string)
    requires LoadedBefore(base, table) && CreateBranch(base, name).Ok? && CreateBranch(base, name).value.Some?
    ensures Commit(table, CreateBranch(base, name).value.value) ==
            if name in table.refs then Err(Conflict)
            else Ok(table.(refs := table.refs[name := base.refs[MAIN]]))
  {
    var request := CreateBranch(base, name).value.value;
    assert request.requirements[0] in request.requirements;
    assert base.refs[MAIN] in base.snapshots;
    OneUpdate(table, request.updates[0]);
    assert request.updates == [request.updates[0]];
  }

  /** Publishing moves main and removes the branch in one step, or does nothing. */
  lemma {:induction false} CommitOfPublish(table: Metadata, base: Metadata, name: string)
    requires LoadedBefore(base, table) && PublishBranch(base, name).Ok?
    ensures Commit(table, PublishBranch(base, name).value) ==
            if table.Ref(MAIN) != base.Ref(MAIN) then Err(Conflict)
            else Ok(table.(refs := table.refs[MAIN := base.refs[name]] - {name}))
  {
    var request := PublishBranch(base, name).value;
    assert request.requirements[0] in request.requirements;
    assert base.refs[name] in base.snapshots;
    var moved := table.(refs := table.refs[MAIN := base.refs[name]]);
    assert request.updates[1..] == [RemoveSnapshotRef(name)];
    assert ApplyUpdates(moved, [RemoveSnapshotRef(name)]) ==
           ApplyUpdates(moved.(refs := moved.refs - {name}), []);
  }

  lemma {:induction false} CommitOfDelete(table: Metadata, name: string)
    requires DeleteBranch(name).Ok?
    ensures Commit(table, DeleteBranch(name).value) == Ok(table.(refs := table.refs - {name}))
  {
    OneUpdate(table, RemoveSnapshotRef(name));
  }

  // ------------------------------------------------------------------
  // Runs
  // ------------------------------------------------------------------

  datatype Action =
    | AppendToMain(files: seq<DataFile>, id: SnapshotId)
    | RewriteMain(taken: seq<Entry>, files: seq<DataFile>, id: SnapshotId)
    | Create(name: string)
    | Write(name: string, files: seq<DataFile>, wapId: string, id: SnapshotId)
    | Publish(name: string)
    | Delete(name: string)

  /** One client's action on the table it loaded when `loaded` events had happened. */
  datatype Event = Event(loaded: nat, action: Action)

  function FilesOfAction(action: Action): seq<DataFile> {
    match action
    case AppendToMain(files, _) => files
    case RewriteMain(_, files, _) => files
    case Write(_, files, _, _) => files
    case _ => []
  }

  /** The request a client sends; none when it fails or has nothing to do. */
  function RequestOf(base: Metadata, action: Action): Option<Request> {
    match action
    case AppendToMain(files, id) =>
      if files == [] then None else Some(AdvanceRequest(base, MAIN, AppendSnapshot(base, MAIN, files, id, None)))
    case RewriteMain(taken, files, id) =>
      if files == [] then None else Some(AdvanceRequest(base, MAIN, RewriteSnapshot(base, taken, files, id)))
    case Create(name) =>
      (match CreateBranch(base, name) case Ok(request) => request case Err(_) => None)
    case Write(name, files, wapId, id) =>
      (match CommitToBranch(base, name, files, wapId, id) case Ok(request) => Some(request) case Err(_) => None)
    case Publish(name) =>
      (match PublishBranch(base, name) case Ok(request) => Some(request) case Err(_) => None)
    case Delete(name) =>
      (match DeleteBranch(name) case Ok(request) => Some(request) case Err(_) => None)
  }

  function Next(table: Metadata, base: Metadata, action: Action): Metadata {
    match RequestOf(base, action)
    case None => table
    case Some(request) => After(table, request)
  }

  /** Data files get fresh names: no two events write the same path. */
  ghost predicate FreshFiles(events: seq<Event>) {
    forall i, j :: 0 <= i < j < |events| ==>
      FilePaths(FilesOfAction(events[i].action)) !! FilePaths(FilesOfAction(events[j].action))
  }

  ghost predicate IsRun(trace: seq<Metadata>, events: seq<Event>) {
    && |trace| == |events| + 1
    && trace[0] == EMPTY_TABLE
    && FreshFiles(events)
    && forall i :: 0 <= i < |events| ==>
         events[i].loaded <= i && trace[i + 1] == Next(trace[i], trace[events[i].loaded], events[i].action)
  }

  /** Every data file path the events have written. */
  ghost function Used(events: seq<Event>): set<Path> {
    set i, p | 0 <= i < |events| && p in FilePaths(FilesOfAction(events[i].action)) :: p
  }

  function LiveIn(table: Metadata, id: SnapshotId): set<Path> {
    if id in table.snapshots then LivePaths(table.snapshots[id].manifests) else {}
  }

  function MainPaths(table: Metadata): set<Path> {
    LivePaths(table.ManifestsOf(MAIN))
  }

  // ------------------------------------------------------------------
  // What is live in a new snapshot
  // ------------------------------------------------------------------

  /** The snapshot an action adds, and the ref it advances. */
  function SnapshotOf(base: Metadata, action: Action): Snapshot
    requires FilesOfAction(action) != []
  {
    match action
    case AppendToMain(files, id) => AppendSnapshot(base, MAIN, files, id, None)
    case RewriteMain(taken, files, id) => RewriteSnapshot(base, taken, files, id)
    case Write(name, files, wapId, id) => AppendSnapshot(base, name, files, id, Some(wapId))
  }

  function RefOf(action: Action): string
    requires FilesOfAction(action) != []
  {
    if action.Write? then action.name else MAIN
  }

  lemma {:induction false} NewSnapshotLive(base: Metadata, action: Action)
    requires FilesOfAction(action) != []
    ensures var s := SnapshotOf(base, action);
            var files := FilePaths(FilesOfAction(action));
            && files <= LivePaths(s.manifests) <= files + LivePaths(base.ManifestsOf(RefOf(action)))
            && (s.operation == Append ==> LivePaths(s.manifests) == files + LivePaths(base.ManifestsOf(RefOf(action))))
  {
    var parent := base.ManifestsOf(RefOf(action));
    var files := FilesOfAction(action);
    AddedRows(files, base.NextSeqNum());
    match action
    case AppendToMain(_, _) => AppendLive(parent, files, base.NextSeqNum());
    case Write(_, _, _, _) => AppendLive(parent, files, base.NextSeqNum());
    case RewriteMain(taken, _, _) =>
      RewriteLive(parent, taken, files, base.NextSeqNum());
      var kept := LiveEntries(Survivors(parent, PathsOf(taken)));
      assert PathsOf(kept + AddedEntries(files, base.NextSeqNum())) == PathsOf(kept) + FilePaths(files);
      forall e | e in kept ensures e.file.path in LivePaths(parent) {
        LiveMember(Survivors(parent, PathsOf(taken)), e);
        var m :| m in Survivors(parent, PathsOf(taken)) && e in m.entries && e.IsAlive();
        SurvivorMember(parent, PathsOf(taken), m);
        LiveMember(parent, e);
      }
  }

  /** How one event changes snapshots and refs. */
  lemma {:induction false} NextShape(table: Metadata, base: Metadata, action: Action)
    requires LoadedBefore(base, table) && table.RefsResolve()
    ensures var next := Next(table, base, action);
            || next == table
            || (&& FilesOfAction(action) != []
                && var s, name := SnapshotOf(base, action), RefOf(action);
                   && (action.Write? ==> name != MAIN)
                   && s.id !in table.snapshots && table.Ref(name) == base.Ref(name)
                   && next == Metadata(table.snapshots[s.id := s], table.refs[name := s.id], s.seqNum))
            || (&& action.Create? && action.name !in table.refs && MAIN in base.refs && action.name != MAIN
                && next == table.(refs := table.refs[action.name := base.refs[MAIN]]))
            || (&& action.Publish? && table.Ref(MAIN) == base.Ref(MAIN) && action.name in base.refs
                && action.name != MAIN
                && next == table.(refs := table.refs[MAIN := base.refs[action.name]] - {action.name}))
            || (action.Delete? && action.name != MAIN && next == table.(refs := table.refs - {action.name}))
  {
    if RequestOf(base, action).Some? {
      match action
      case Create(name) => CommitOfCreate(table, base, name);
      case Publish(name) => CommitOfPublish(table, base, name);
      case Delete(name) => CommitOfDelete(table, name);
      case _ => CommitOfAdvance(table, base, RefOf(action), SnapshotOf(base, action));
    }
  }

  lemma {:induction false} RunTables(trace: seq<Metadata>, events: seq<Event>)
    requires IsRun(trace, events)
    ensures forall i :: 0 <= i <= |events| ==> WellFormed(trace[i])
    ensures forall i, j :: 0 <= i <= j <= |events| ==> LoadedBefore(trace[i], trace[j])
  {
    if events != [] {
      var n := |events| - 1;
      RunTables(trace[..n + 1], events[..n]);
      assert forall i :: 0 <= i <= n ==> trace[..n + 1][i] == trace[i];
      var table, base, action := trace[n], trace[events[n].loaded], events[n].action;
      assert WellFormed(table) && WellFormed(base) && LoadedBefore(base, table);
      NextKeepsTables(table, base, action);
      forall i | 0 <= i <= n ensures LoadedBefore(trace[i], trace[n + 1]) {
        assert LoadedBefore(trace[i], table);
      }
    }
  }

  lemma {:induction false} NextKeepsTables(table: Metadata, base: Metadata, action: Action)
    requires WellFormed(table) && WellFormed(base) && LoadedBefore(base, table)
    ensures WellFormed(Next(table, base, action)) && LoadedBefore(table, Next(table, base, action))
  {
    var request := RequestOf(base, action);
    if request.Some? {
      CommitKeepsSnapshots(table, request.value);
      if FilesOfAction(action) != [] {
        AdvanceKeepsWellFormed(table, base, RefOf(action), SnapshotOf(base, action));
      } else {
        NextShape(table, base, action);
      }
    }
  }

  /** What one step of a run can rely on. */
  lemma {:induction false} StepTables(trace: seq<Metadata>, events: seq<Event>, n: nat)
    requires IsRun(trace, events) && n < |events|
    ensures WellFormed(trace[n]) && WellFormed(trace[n + 1]) && trace[n].RefsResolve()
    ensures LoadedBefore(trace[events[n].loaded], trace[n]) && LoadedBefore(trace[n], trace[n + 1])
  {
    RunTables(trace, events);
  }

  lemma {:induction false} UsedNext(events: seq<Event>, n: nat)
    requires n < |events|
    ensures Used(events[..n]) <= Used(events[..n + 1])
    ensures FilePaths(FilesOfAction(events[n].action)) <= Used(events[..n + 1])
  {
    assert events[..n + 1][..n] == events[..n] && events[..n + 1][n] == events[n];
    forall p | p in Used(events[..n]) ensures p in Used(events[..n + 1]) {
      var i :| 0 <= i < n && p in FilePaths(FilesOfAction(events[..n][i].action));
      assert events[..n + 1][i] == events[..n][i];
    }
  }

  /** Everything live in any snapshot was written by an earlier event. */
  lemma {:induction false} LiveIsUsed(trace: seq<Metadata>, events: seq<Event>, n: nat, id: SnapshotId)
    requires IsRun(trace, events) && n <= |events|
    ensures LiveIn(trace[n], id) <= Used(events[..n])
  {
    if n > 0 && id in trace[n].snapshots {
      StepTables(trace, events, n - 1);
      var table, base, action := trace[n - 1], trace[events[n - 1].loaded], events[n - 1].action;
      UsedNext(events, n - 1);
      NextShape(table, base, action);
      if id in table.snapshots {
        LiveIsUsed(trace, events, n - 1, id);
        assert trace[n].snapshots[id] == table.snapshots[id];
      } else {
        NewSnapshotLive(base, action);
        var name := RefOf(action);
        if name in table.refs {
          LiveIsUsed(trace, events, n - 1, table.refs[name]);
          SameRefSameManifests(base, table, name);
        }
      }
    }
  }

  /** A path is not live anywhere before the event that writes it. */
  lemma {:induction false} FreshPath(trace: seq<Metadata>, events: seq<Event>, i: nat, n: nat, id: SnapshotId, p: Path)
    requires IsRun(trace, events) && n <= i < |events| && p in FilePaths(FilesOfAction(events[i].action))
    ensures p !in LiveIn(trace[n], id)
  {
    LiveIsUsed(trace, events, n, id);
  }

  // ------------------------------------------------------------------
  // Audit branches stay off main until published
  // ------------------------------------------------------------------

  /** Event `k` published a branch on which `p` was live. */
  ghost predicate PublishedAt(trace: seq<Metadata>, events: seq<Event>, k: nat, p: Path)
    requires |trace| == |events| + 1 && k < |events| && events[k].loaded <= k
  {
    var base := trace[events[k].loaded];
    && events[k].action.Publish?
    && events[k].action.name in base.refs
    && p in LiveIn(base, base.refs[events[k].action.name])
    && trace[k + 1] == trace[k].(refs :=
         trace[k].refs[MAIN := base.refs[events[k].action.name]] - {events[k].action.name})
  }

  /**
   A file written to a branch by event `i` is live on main later only if some
   publish in between moved main to a branch snapshot that holds it.
   */
  lemma {:induction false} AuditIsolation(trace: seq<Metadata>, events: seq<Event>, i: nat, j: nat, p: Path)
    requires IsRun(trace, events) && i < j <= |events|
    requires events[i].action.Write? && p in FilePaths(events[i].action.files)
    requires p in MainPaths(trace[j])
    ensures exists k :: i < k < j && PublishedAt(trace, events, k, p)
    decreases j
  {
    if p in MainPaths(trace[j - 1]) {
      if i < j - 1 {
        AuditIsolation(trace, events, i, j - 1, p);
      } else {
        FreshPath(trace, events, i, i, trace[i].refs[MAIN], p);
      }
    } else {
      GainIsPublished(trace, events, i, j - 1, p);
    }
  }

  lemma {:induction false} GainIsPublished(trace: seq<Metadata>, events: seq<Event>, i: nat, k: nat, p: Path)
    requires IsRun(trace, events) && i <= k < |events|
    requires events[i].action.Write? && p in FilePaths(events[i].action.files)
    requires p !in MainPaths(trace[k]) && p in MainPaths(trace[k + 1])
    ensures i < k && PublishedAt(trace, events, k, p)
  {
    StepTables(trace, events, k);
    MainGains(trace[k], trace[events[k].loaded], events[k].action, p);
  }

  /** Main gains a path from an append or rewrite that wrote it, or from a publish. */
  lemma {:induction false} MainGains(table: Metadata, base: Metadata, action: Action, p: Path)
    requires LoadedBefore(base, table) && table.RefsResolve()
    requires p !in MainPaths(table) && p in MainPaths(Next(table, base, action))
    ensures || (!action.Write? && p in FilePaths(FilesOfAction(action)))
            || (&& action.Publish? && action.name in base.refs && p in LiveIn(base, base.refs[action.name])
                && Next(table, base, action) ==
                   table.(refs := table.refs[MAIN := base.refs[action.name]] - {action.name}))
  {
    NextShape(table, base, action);
    if FilesOfAction(action) != [] {
      NewSnapshotLive(base, action);
      SameRefSameManifests(base, table, MAIN);
    } else if action.Publish? {
      assert base.refs[action.name] in base.snapshots;
    }
  }

  // ------------------------------------------------------------------
  // Exactly when a publish keeps what is live on main
  // ------------------------------------------------------------------

  /** `a` is `x` or one of the snapshots before it. */
  ghost predicate Ancestor(table: Metadata, a: SnapshotId, x: SnapshotId)
    requires WellFormed(table) && x in table.snapshots
    decreases table.snapshots[x].seqNum
  {
    var s := table.snapshots[x];
    a == x || (s.parent.Some? && Ancestor(table, a, s.parent.value))
  }

  /** `a` comes before `x` with nothing but appends in between. */
  ghost predicate AppendsSince(table: Metadata, a: SnapshotId, x: SnapshotId)
    requires WellFormed(table) && x in table.snapshots
    decreases table.snapshots[x].seqNum
  {
    var s := table.snapshots[x];
    a == x || (s.operation == Append && s.parent.Some? && AppendsSince(table, a, s.parent.value))
  }

  /** The paths that a snapshot made live. */
  function OwnPaths(table: Metadata, id: SnapshotId): set<Path>
    requires id in table.snapshots
  {
    var s := table.snapshots[id];
    LivePaths(s.manifests) - match s.parent { case None => {} case Some(parent) => LiveIn(table, parent) }
  }

  ghost predicate OwnInv(table: Metadata) {
    && (forall x <- table.snapshots :: OwnPaths(table, x) != {})
    && (forall x <- table.snapshots, y <- table.snapshots :: x != y ==> OwnPaths(table, x) !! OwnPaths(table, y))
    && (forall x <- table.snapshots :: table.snapshots[x].operation == Append && table.snapshots[x].parent.Some? ==>
          LiveIn(table, table.snapshots[x].parent.value) <= LiveIn(table, x))
  }

  lemma {:induction false} OwnPathsOfNew(trace: seq<Metadata>, events: seq<Event>, n: nat)
    requires IsRun(trace, events) && n < |events| && FilesOfAction(events[n].action) != []
    requires var s := SnapshotOf(trace[events[n].loaded], events[n].action);
             && s.id !in trace[n].snapshots && s.id in trace[n + 1].snapshots && trace[n + 1].snapshots[s.id] == s
             && trace[n].Ref(RefOf(events[n].action)) == trace[events[n].loaded].Ref(RefOf(events[n].action))
    ensures var s := SnapshotOf(trace[events[n].loaded], events[n].action);
            && OwnPaths(trace[n + 1], s.id) == FilePaths(FilesOfAction(events[n].action))
            && (s.operation == Append && s.parent.Some? ==>
              LiveIn(trace[n + 1], s.parent.value) <= LiveIn(trace[n + 1], s.id))
  {
    RunTables(trace, events);
    var table, base, action := trace[n], trace[events[n].loaded], events[n].action;
    var s, name := SnapshotOf(base, action), RefOf(action);
    assert LoadedBefore(base, table) && LoadedBefore(table, trace[n + 1]);
    NewSnapshotLive(base, action);
    if name in base.refs {
      SameRefSameManifests(base, table, name);
      var parent := base.refs[name];
      assert parent in base.snapshots;
      assert trace[n + 1].snapshots[parent] == base.snapshots[parent];
      forall p | p in FilePaths(FilesOfAction(action)) ensures p !in LiveIn(trace[n], parent) {
        FreshPath(trace, events, n, n, parent, p);
      }
    }
  }

  /** Later tables say the same of a snapshot. */
  lemma {:induction false} OwnStays(table: Metadata, next: Metadata, x: SnapshotId)
    requires WellFormed(table) && LoadedBefore(table, next) && x in table.snapshots
    ensures x in next.snapshots && next.snapshots[x] == table.snapshots[x]
    ensures OwnPaths(next, x) == OwnPaths(table, x) && LiveIn(next, x) == LiveIn(table, x)
    ensures var s := table.snapshots[x];
            s.parent.Some? ==> LiveIn(next, s.parent.value) == LiveIn(table, s.parent.value)
  {
  }

  lemma {:induction false} NewOwnIsDisjoint(trace: seq<Metadata>, events: seq<Event>, n: nat, x: SnapshotId)
    requires IsRun(trace, events) && n < |events| && x in trace[n].snapshots
    ensures OwnPaths(trace[n], x) !! FilePaths(FilesOfAction(events[n].action))
  {
    forall p | p in FilePaths(FilesOfAction(events[n].action)) ensures p !in OwnPaths(trace[n], x) {
      FreshPath(trace, events, n, n, x, p);
    }
  }

  lemma {:induction false} OwnInvOfOld(table: Metadata, next: Metadata)
    requires WellFormed(table) && LoadedBefore(table, next) && next.snapshots == table.snapshots && OwnInv(table)
    ensures OwnInv(next)
  {
    forall x | x in table.snapshots
      ensures OwnPaths(next, x) == OwnPaths(table, x) && LiveIn(next, x) == LiveIn(table, x)
    {
      OwnStays(table, next, x);
    }
  }

  lemma {:induction false} OwnInvWithNew(table: Metadata, next: Metadata, id: SnapshotId)
    requires WellFormed(table) && LoadedBefore(table, next) && OwnInv(table)
    requires id in next.snapshots && next.snapshots.Keys == table.snapshots.Keys + {id} && OwnPaths(next, id) != {}
    requires forall x <- table.snapshots :: OwnPaths(table, x) !! OwnPaths(next, id)
    requires var s := next.snapshots[id];
             s.operation == Append && s.parent.Some? ==> LiveIn(next, s.parent.value) <= LiveIn(next, id)
    requires id !in table.snapshots
    ensures OwnInv(next)
  {
    forall x | x in table.snapshots
      ensures OwnPaths(next, x) == OwnPaths(table, x) && LiveIn(next, x) == LiveIn(table, x)
      ensures next.snapshots[x] == table.snapshots[x]
      ensures var s := table.snapshots[x];
              s.parent.Some? ==> LiveIn(next, s.parent.value) == LiveIn(table, s.parent.value)
    {
      OwnStays(table, next, x);
    }
  }

  lemma {:induction false} RunKeepsOwn(trace: seq<Metadata>, events: seq<Event>, n: nat)
    requires IsRun(trace, events) && n <= |events|
    ensures OwnInv(trace[n])
  {
    if n > 0 {
      RunKeepsOwn(trace, events, n - 1);
      StepKeepsOwn(trace, events, n - 1);
    }
  }

  lemma {:induction false} StepKeepsOwn(trace: seq<Metadata>, events: seq<Event>, n: nat)
    requires IsRun(trace, events) && n < |events| && OwnInv(trace[n])
    ensures OwnInv(trace[n + 1])
  {
    StepTables(trace, events, n);
    var table, next, base, action := trace[n], trace[n + 1], trace[events[n].loaded], events[n].action;
    NextShape(table, base, action);
    if next.snapshots == table.snapshots {
      OwnInvOfOld(table, next);
    } else {
      var s := SnapshotOf(base, action);
      OwnPathsOfNew(trace, events, n);
      assert FilesOfAction(action)[0].path in FilePaths(FilesOfAction(action));
      forall x | x in table.snapshots ensures OwnPaths(table, x) !! OwnPaths(next, s.id) {
        NewOwnIsDisjoint(trace, events, n, x);
      }
      OwnInvWithNew(table, next, s.id);
    }
  }

  /** A live path belongs to an ancestor. */
  lemma {:induction false} LiveBelongsToAncestor(table: Metadata, x: SnapshotId, p: Path) returns (owner: SnapshotId)
    requires WellFormed(table) && x in table.snapshots && p in LiveIn(table, x)
    ensures owner in table.snapshots && Ancestor(table, owner, x) && p in OwnPaths(table, owner)
    decreases table.snapshots[x].seqNum
  {
    var s := table.snapshots[x];
    if p in OwnPaths(table, x) {
      owner := x;
    } else {
      owner := LiveBelongsToAncestor(table, s.parent.value, p);
    }
  }

  lemma {:induction false} AppendsKeepLive(table: Metadata, a: SnapshotId, x: SnapshotId)
    requires WellFormed(table) && OwnInv(table) && x in table.snapshots && AppendsSince(table, a, x)
    ensures LiveIn(table, a) <= LiveIn(table, x)
    decreases table.snapshots[x].seqNum
  {
    if a != x {
      AppendsKeepLive(table, a, table.snapshots[x].parent.value);
    }
  }

  /** A snapshot that lost nothing of `m` descends from it. */
  lemma {:induction false} KeepingMeansDescending(table: Metadata, m: SnapshotId, x: SnapshotId)
    requires WellFormed(table) && OwnInv(table) && m in table.snapshots && x in table.snapshots
    requires LiveIn(table, m) <= LiveIn(table, x)
    ensures Ancestor(table, m, x)
  {
    var p :| p in OwnPaths(table, m);
    var owner := LiveBelongsToAncestor(table, x, p);
    assert owner == m;
  }

  /** Event `n` publishes a branch and the catalog accepts. */
  ghost predicate Publishes(trace: seq<Metadata>, events: seq<Event>, n: nat)
    requires IsRun(trace, events) && n < |events|
  {
    var base := trace[events[n].loaded];
    && events[n].action.Publish?
    && PublishBranch(base, events[n].action.name).Ok?
    && MAIN in trace[n].refs && trace[n].Ref(MAIN) == base.Ref(MAIN)
  }

  function PublishedId(trace: seq<Metadata>, events: seq<Event>, n: nat): SnapshotId
    requires IsRun(trace, events) && n < |events| && Publishes(trace, events, n)
  {
    trace[events[n].loaded].refs[events[n].action.name]
  }

  lemma {:induction false} PublishOutcome(trace: seq<Metadata>, events: seq<Event>, n: nat)
    requires IsRun(trace, events) && n < |events| && Publishes(trace, events, n)
    ensures var table, x := trace[n], PublishedId(trace, events, n);
            && WellFormed(table) && x in table.snapshots && table.refs[MAIN] in table.snapshots
            && trace[n + 1].Ref(MAIN) == Some(x) && events[n].action.name !in trace[n + 1].refs
            && MainPaths(table) == LiveIn(table, table.refs[MAIN]) && MainPaths(trace[n + 1]) == LiveIn(table, x)
  {
    StepTables(trace, events, n);
    var table, base, name := trace[n], trace[events[n].loaded], events[n].action.name;
    CommitOfPublish(table, base, name);
    assert base.refs[name] in base.snapshots && table.refs[MAIN] in table.snapshots;
  }

  /**
   A publish only checks that main has not moved since the table was loaded.
   It keeps every live file of main if the branch grew out of today's main by
   appends; and if it keeps them all, the branch did grow out of today's main.
   */
  lemma {:induction false} PublishKeepsMain(trace: seq<Metadata>, events: seq<Event>, n: nat)
    requires IsRun(trace, events) && n < |events| && Publishes(trace, events, n)
    ensures var table, x := trace[n], PublishedId(trace, events, n);
            && WellFormed(table) && x in table.snapshots
            && trace[n + 1].Ref(MAIN) == Some(x) && events[n].action.name !in trace[n + 1].refs
            && (AppendsSince(table, table.refs[MAIN], x) ==> MainPaths(table) <= MainPaths(trace[n + 1]))
            && (MainPaths(table) <= MainPaths(trace[n + 1]) ==> Ancestor(table, table.refs[MAIN], x))
  {
    PublishOutcome(trace, events, n);
    RunKeepsOwn(trace, events, n);
    var table := trace[n];
    var m, x := table.refs[MAIN], PublishedId(trace, events, n);
    if AppendsSince(table, m, x) {
      AppendsKeepLive(table, m, x);
    }
    if LiveIn(table, m) <= LiveIn(table, x) {
      KeepingMeansDescending(table, m, x);
    }
  }

  lemma {:induction false} AncestorIsOlder(table: Metadata, a: SnapshotId, x: SnapshotId)
    requires WellFormed(table) && x in table.snapshots && Ancestor(table, a, x)
    ensures a in table.snapshots && (a == x || table.snapshots[a].seqNum < table.snapshots[x].seqNum)
    decreases table.snapshots[x].seqNum
  {
    if a != x {
      AncestorIsOlder(table, a, table.snapshots[x].parent.value);
    }
  }

  lemma {:induction false} AncestorsChain(table: Metadata, a: SnapshotId, b: SnapshotId, x: SnapshotId)
    requires WellFormed(table) && x in table.snapshots && b in table.snapshots
    requires Ancestor(table, a, b) && Ancestor(table, b, x)
    ensures Ancestor(table, a, x)
    decreases table.snapshots[x].seqNum
  {
    if b != x {
      AncestorsChain(table, a, b, table.snapshots[x].parent.value);
    }
  }

  /** `y` comes after `m` on the way to `x`. */
  ghost predicate Between(table: Metadata, m: SnapshotId, y: SnapshotId, x: SnapshotId)
    requires WellFormed(table) && x in table.snapshots
  {
    y in table.snapshots && y != m && Ancestor(table, m, y) && Ancestor(table, y, x)
  }

  /** Snapshot `y` takes away a live file that is live at `m`. */
  ghost predicate Takes(table: Metadata, m: SnapshotId, y: SnapshotId)
    requires WellFormed(table) && y in table.snapshots
  {
    var parent := table.snapshots[y].parent;
    parent.Some? && exists p <- LiveIn(table, m) :: p in LiveIn(table, parent.value) && p !in LiveIn(table, y)
  }

  lemma {:induction false} NothingTakenOnTheWay(table: Metadata, m: SnapshotId, x: SnapshotId)
    requires WellFormed(table) && m in table.snapshots && x in table.snapshots && Ancestor(table, m, x)
    requires forall y <- table.snapshots :: Between(table, m, y, x) ==> !Takes(table, m, y)
    ensures LiveIn(table, m) <= LiveIn(table, x)
    decreases table.snapshots[x].seqNum
  {
    if m != x {
      var parent := table.snapshots[x].parent.value;
      forall y | y in table.snapshots && Between(table, m, y, parent) ensures Between(table, m, y, x) {
      }
      NothingTakenOnTheWay(table, m, parent);
      assert Between(table, m, x, x);
    }
  }

  /** A file that is gone stays gone, because only the snapshot that wrote it makes it live. */
  lemma {:induction false} StaysGone(table: Metadata, owner: SnapshotId, p: Path, y: SnapshotId, x: SnapshotId)
    requires WellFormed(table) && OwnInv(table) && owner in table.snapshots && y in table.snapshots
    requires x in table.snapshots && p in OwnPaths(table, owner) && Ancestor(table, y, x)
    requires table.snapshots[owner].seqNum < table.snapshots[y].seqNum && p !in LiveIn(table, y)
    ensures p !in LiveIn(table, x)
    decreases table.snapshots[x].seqNum
  {
    if y != x {
      StaysGone(table, owner, p, y, table.snapshots[x].parent.value);
      AncestorIsOlder(table, y, x);
      assert x != owner;
      assert p !in OwnPaths(table, x);
    }
  }

  lemma {:induction false} TakenIsLost(table: Metadata, m: SnapshotId, y: SnapshotId, x: SnapshotId)
    requires WellFormed(table) && OwnInv(table) && m in table.snapshots && x in table.snapshots
    requires Between(table, m, y, x) && Takes(table, m, y)
    ensures !(LiveIn(table, m) <= LiveIn(table, x))
  {
    var p :| p in LiveIn(table, m) && p !in LiveIn(table, y);
    var owner := LiveBelongsToAncestor(table, m, p);
    AncestorIsOlder(table, owner, m);
    AncestorIsOlder(table, m, y);
    StaysGone(table, owner, p, y, x);
  }

  /**
   A publish keeps every live file of main exactly when the branch descends
   from today's main and no compaction on the way took one of its files.
   */
  lemma {:induction false} PublishKeepsFilesExactly(trace: seq<Metadata>, events: seq<Event>, n: nat)
    requires IsRun(trace, events) && n < |events| && Publishes(trace, events, n)
    ensures var table, x := trace[n], PublishedId(trace, events, n);
            && WellFormed(table) && x in table.snapshots
            && (MainPaths(table) <= MainPaths(trace[n + 1]) <==>
                  && Ancestor(table, table.refs[MAIN], x)
                  && forall y <- table.snapshots :: Between(table, table.refs[MAIN], y, x) ==>
                       !Takes(table, table.refs[MAIN], y))
  {
    PublishOutcome(trace, events, n);
    RunKeepsOwn(trace, events, n);
    var table, x := trace[n], PublishedId(trace, events, n);
    var m := table.refs[MAIN];
    if LiveIn(table, m) <= LiveIn(table, x) {
      KeepingMeansDescending(table, m, x);
      forall y | y in table.snapshots && Between(table, m, y, x) ensures !Takes(table, m, y) {
        if Takes(table, m, y) {
          TakenIsLost(table, m, y, x);
        }
      }
    } else if Ancestor(table, m, x) && forall y <- table.snapshots :: Between(table, m, y, x) ==> !Takes(table, m, y) {
      NothingTakenOnTheWay(table, m, x);
    }
  }

  lemma {:induction false} NoRewriteNoReplace(trace: seq<Metadata>, events: seq<Event>, n: nat)
    requires IsRun(trace, events) && n <= |events|
    requires forall i :: 0 <= i < |events| ==> !events[i].action.RewriteMain?
    ensures forall x <- trace[n].snapshots :: trace[n].snapshots[x].operation == Append
  {
    if n > 0 {
      RunTables(trace, events);
      NoRewriteNoReplace(trace, events, n - 1);
      assert LoadedBefore(trace[events[n - 1].loaded], trace[n - 1]);
      NextShape(trace[n - 1], trace[events[n - 1].loaded], events[n - 1].action);
    }
  }

  lemma {:induction false} AppendAncestors(table: Metadata, a: SnapshotId, x: SnapshotId)
    requires WellFormed(table) && x in table.snapshots
    requires forall y <- table.snapshots :: table.snapshots[y].operation == Append
    ensures Ancestor(table, a, x) <==> AppendsSince(table, a, x)
    decreases table.snapshots[x].seqNum
  {
    if table.snapshots[x].parent.Some? {
      AppendAncestors(table, a, table.snapshots[x].parent.value);
    }
  }

  /** Without compactions: a publish loses no live file of main exactly when main is an ancestor of the branch. */
  lemma {:induction false} PublishLosesNothingExactlyWhenDescending(trace: seq<Metadata>, events: seq<Event>, n: nat)
    requires IsRun(trace, events) && n < |events| && Publishes(trace, events, n)
    requires forall i :: 0 <= i < |events| ==> !events[i].action.RewriteMain?
    ensures var table, x := trace[n], PublishedId(trace, events, n);
            && WellFormed(table) && x in table.snapshots
            && (MainPaths(table) <= MainPaths(trace[n + 1]) <==> Ancestor(table, table.refs[MAIN], x))
  {
    PublishKeepsMain(trace, events, n);
    NoRewriteNoReplace(trace, events, n);
    AppendAncestors(trace[n], trace[n].refs[MAIN], PublishedId(trace, events, n));
  }

  /**
   A branch made before main moved on: publishing it, even from a freshly
   loaded table, takes the files appended in between off main.
   */
  lemma {:induction false} PublishDropsLaterAppend(table: Metadata, name: string, files: seq<DataFile>, id: SnapshotId)
    requires WellFormed(table) && MAIN in table.refs && id !in table.snapshots && files != []
    requires name != MAIN && name != "" && table.Ref(name) == table.Ref(MAIN)
    requires FilePaths(files) !! MainPaths(table)
    ensures var appended := Next(table, table, AppendToMain(files, id));
            var published := Next(appended, appended, Publish(name));
            FilePaths(files) <= MainPaths(appended) && MainPaths(published) == MainPaths(table)
  {
    var action := AppendToMain(files, id);
    var appended := Next(table, table, action);
    CommitOfAdvance(table, table, MAIN, SnapshotOf(table, action));
    NewSnapshotLive(table, action);
    CommitOfPublish(appended, appended, name);
  }
}
