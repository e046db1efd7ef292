/**
 The write-audit-publish transaction: one client, one wap id, any number of
 crashes and restarts, other clients at work on the same table.
 */
module WapTransaction {
  import opened Wrappers
  import opened Catalog
  import opened CatalogServer
  import opened Branch

  datatype WapState = NotStarted | StaleBranch | WrittenNotPublished | AlreadyPublished

  function DetectWapState(wapIdFound: bool, branchExists: bool): WapState {
    match (wapIdFound, branchExists)
    case (false, false) => NotStarted
    case (false, true) => StaleBranch
    case (true, true) => WrittenNotPublished
    case (true, false) => AlreadyPublished
  }

  /** The snapshots that carry a wap id. */
  function Carriers(table: Metadata, wapId: string): set<SnapshotId> {
    set id <- table.snapshots | table.snapshots[id].wapId == Some(wapId)
  }

  predicate HasWapId(table: Metadata, wapId: string) {
    exists id <- table.snapshots :: table.snapshots[id].wapId == Some(wapId)
  }

  function StateOf(table: Metadata, wapId: string): WapState {
    DetectWapState(HasWapId(table, wapId), table.SnapshotForRef(wapId).Some?)
  }

  // ------------------------------------------------------------------
  // The transaction object
  // ------------------------------------------------------------------

  datatype Phase = Writer | Publisher | Complete

  datatype WapError = WapNotEnabled | Refused(branch: BranchError) | NotCommitted(catalog: CommitError) | WrongPhase

  /** The branch of `next` holds `files` on top of what the branch of `base` held, under the wap id. */
  predicate CommittedOn(base: Metadata, next: Metadata, wapId: string, files: seq<DataFile>) {
    match next.SnapshotForRef(wapId)
    case None => false
    case Some(s) =>
      && s.wapId == Some(wapId) && s.parent == base.Ref(wapId)
      && LivePaths(s.manifests) == FilePaths(files) + LivePaths(base.ManifestsOf(wapId))
  }

  // ------------------------------------------------------------------
  // What the rivals do decides the answers
  // ------------------------------------------------------------------

  /** A branch is not created when its name is taken by then; an empty table needs no request. */
  function CreateReply(name: string, base: Metadata, met: Metadata): Result<(), WapError> {
    if name == MAIN then Err(Refused(ReservedName))
    else if name == "" then Err(Refused(EmptyName))
    else if MAIN in base.refs && name in met.refs then Err(NotCommitted(Conflict))
    else Ok(())
  }

  /** A write conflicts when the branch has moved, and is invalid when its sequence number is taken. */
  function WriteReply(name: string, files: seq<DataFile>, base: Metadata, met: Metadata): Result<nat, WapError> {
    if name == MAIN then Err(Refused(ReservedName))
    else if name == "" then Err(Refused(EmptyName))
    else if files == [] then Err(Refused(NoDataFiles))
    else if met.Ref(name) != base.Ref(name) then Err(NotCommitted(Conflict))
    else if met.lastSeqNum > base.lastSeqNum then Err(NotCommitted(Invalid))
    else Ok(|files|)
  }

  /** A publish needs the branch when it loads the table and main unmoved until it commits. */
  function PublishReply(name: string, base: Metadata, met: Metadata): Result<(), WapError> {
    if name == MAIN then Err(Refused(ReservedName))
    else if name == "" then Err(Refused(EmptyName))
    else if name !in base.refs then Err(Refused(NoSuchBranch))
    else if met.Ref(MAIN) != base.Ref(MAIN) then Err(NotCommitted(Conflict))
    else Ok(())
  }

  lemma {:induction false} WriteRepliesSo(table: Metadata, base: Metadata, name: string, files: seq<DataFile>,
                                          wapId: string, id: SnapshotId)
    requires LoadedBefore(base, table) && id !in base.snapshots && CommitToBranch(base, name, files, wapId, id).Ok?
    ensures var commit := Commit(table, CommitToBranch(base, name, files, wapId, id).value);
            WriteReply(name, files, base, table) == if commit.Ok? then Ok(|files|) else Err(NotCommitted(commit.error))
  {
    CommitOfAdvance(table, base, name, AppendSnapshot(base, name, files, id, Some(wapId)));
  }

  class Transaction {
    var table: Metadata
    var phase: Phase
    const wapId: string

    constructor (loaded: Metadata, wapId: string)
      ensures table == loaded && phase == Complete && this.wapId == wapId
    {
      table, phase, this.wapId := loaded, Complete, wapId;
    }

    method Send(catalog: Server, request: Request) returns (r: Result<(), WapError>)
      modifies catalog
      ensures catalog.calls == old(catalog.calls) + 1
      ensures var before := Landed(old(catalog.table), catalog.Rivals(old(catalog.calls)));
              match Commit(before, request)
              case Ok(next) => r == Ok(()) && catalog.table == next
              case Err(e) => r == Err(NotCommitted(e)) && catalog.table == before
    {
      var reply := catalog.CommitTable(request);
      r := match reply case Ok(_) => Ok(()) case Err(e) => Err(NotCommitted(e));
    }

    /** Branch off the loaded table's main; nothing to send while the table is empty. */
    method CreateFresh(catalog: Server) returns (r: Result<(), WapError>)
      requires LoadedBefore(table, catalog.table) && catalog.table.RefsResolve()
      modifies this`phase, catalog
      ensures r == CreateReply(wapId, table, Landed(old(catalog.table), catalog.Rivals(old(catalog.calls))))
      ensures r.Ok? ==> phase == Writer && (MAIN in table.refs ==> catalog.table.Ref(wapId) == table.Ref(MAIN))
      ensures r.Err? ==> phase == old(phase)
      ensures old(catalog.calls) <= catalog.calls <= old(catalog.calls) + 1
      ensures r.Err? || MAIN !in table.refs ==>
                catalog.table == catalog.RivalsOnly(old(catalog.table), old(catalog.calls), catalog.calls)
    {
      match CreateBranch(table, wapId) {
        case Err(e) =>
          return Err(Refused(e));
        case Ok(None) =>
          phase := Writer;
          return Ok(());
        case Ok(Some(request)) =>
          LandedKeepsSnapshots(catalog.table, catalog.Rivals(catalog.calls));
          CommitOfCreate(Landed(catalog.table, catalog.Rivals(catalog.calls)), table, wapId);
          r := Send(catalog, request);
          if r.Ok? {
            phase := Writer;
          }
      }
    }

    /** The table with the branch gone. */
    function WithoutBranch(before: Metadata): Metadata {
      before.(refs := before.refs - {wapId})
    }

    /** Delete a stale branch and create it anew from the table as it is then. */
    method Recreate(catalog: Server) returns (r: Result<(), WapError>)
      requires catalog.table.RefsResolve()
      modifies this, catalog
      ensures catalog.calls == old(catalog.calls) ||
              old(catalog.calls) + 2 <= catalog.calls <= old(catalog.calls) + 3
      ensures var n := old(catalog.calls);
              var stale := WithoutBranch(Landed(old(catalog.table), catalog.Rivals(n)));
              && r == CreateReply(wapId, catalog.RivalsOnly(stale, n + 1, n + 2),
                                  catalog.RivalsOnly(stale, n + 1, n + 3))
              && (r.Err? || MAIN !in table.refs ==>
                    catalog.table == if catalog.calls <= n then old(catalog.table)
                                     else catalog.RivalsOnly(stale, n + 1, catalog.calls))
      ensures if r.Err? then phase == old(phase)
              else phase == Writer && (MAIN in table.refs ==> catalog.table.Ref(wapId) == table.Ref(MAIN))
    {
      match DeleteBranch(wapId) {
        case Err(e) =>
          return Err(Refused(e));
        case Ok(request) =>
          ghost var n, before := catalog.calls, Landed(catalog.table, catalog.Rivals(catalog.calls));
          LandedKeepsSnapshots(catalog.table, catalog.Rivals(n));
          CommitKeepsSnapshots(before, request);
          CommitOfDelete(before, wapId);
          r := Send(catalog, request);
          if r.Err? {
            return;
          }
          LandedKeepsSnapshots(catalog.table, catalog.Rivals(catalog.calls));
          table := catalog.LoadTable();
          assert catalog.table == catalog.RivalsOnly(WithoutBranch(before), n + 1, n + 2);
          r := CreateFresh(catalog);
          catalog.RivalsCompose(WithoutBranch(before), n + 1, n + 2, catalog.calls);
      }
    }

    /** Resume from wherever an earlier attempt left off. */
    method Begin(catalog: Server, wapEnabled: bool) returns (r: Result<(), WapError>)
      requires catalog.table.RefsResolve()
      modifies this, catalog
      ensures old(catalog.calls) < catalog.calls <= old(catalog.calls) + 4
      ensures var loaded := Landed(old(catalog.table), catalog.Rivals(old(catalog.calls)));
              if !wapEnabled then r == Err(WapNotEnabled) && catalog.table == loaded && phase == old(phase)
              else match StateOf(loaded, wapId)
                case WrittenNotPublished => r == Ok(()) && phase == Publisher && catalog.table == loaded
                case AlreadyPublished => r == Ok(()) && phase == Complete && catalog.table == loaded
                case _ => if r.Err? then phase == old(phase)
                          else phase == Writer && (MAIN in table.refs ==> catalog.table.Ref(wapId) == table.Ref(MAIN))
      ensures var first, start := old(catalog.calls), old(catalog.table);
              var loaded := Landed(start, catalog.Rivals(first));
              var stale := WithoutBranch(catalog.RivalsOnly(start, first, first + 2));
              wapEnabled ==>
                match StateOf(loaded, wapId)
                case NotStarted => r == CreateReply(wapId, loaded, catalog.RivalsOnly(start, first, first + 2))
                case StaleBranch =>
                  r == CreateReply(wapId, catalog.RivalsOnly(stale, first + 2, first + 3),
                                   catalog.RivalsOnly(stale, first + 2, first + 4))
                case _ => true
      // Unless a branch was created, nothing but the deletion of a stale one was done.
      ensures var first := old(catalog.calls);
              r.Err? || phase != Writer || MAIN !in table.refs ==>
                if catalog.calls <= first + 2 then
                  catalog.table == catalog.RivalsOnly(old(catalog.table), first, catalog.calls)
                else
                  && StateOf(Landed(old(catalog.table), catalog.Rivals(first)), wapId) == StaleBranch
                  && var stale := WithoutBranch(catalog.RivalsOnly(old(catalog.table), first, first + 2));
                     catalog.table == catalog.RivalsOnly(stale, first + 2, catalog.calls)
    {
      LandedKeepsSnapshots(catalog.table, catalog.Rivals(catalog.calls));
      ghost var first := catalog.calls;
      table := catalog.LoadTable();
      assert catalog.table == catalog.RivalsOnly(old(catalog.table), first, first + 1);
      if !wapEnabled {
        return Err(WapNotEnabled);
      }
      match StateOf(table, wapId) {
        case NotStarted =>
          r := CreateFresh(catalog);
          catalog.RivalsCompose(old(catalog.table), first, first + 1, catalog.calls);
        case StaleBranch =>
          assert Landed(catalog.table, catalog.Rivals(first + 1)) ==
                 catalog.RivalsOnly(old(catalog.table), first, first + 2);
          r := Recreate(catalog);
        case WrittenNotPublished =>
          phase := Publisher;
          return Ok(());
        case AlreadyPublished =>
          phase := Complete;
          return Ok(());
      }
    }

    /**
     Commit `files` to the audit branch. The phase is taken out while the write
     runs, so a failed write leaves the transaction Complete.
     */
    method Write(catalog: Server, batches: nat, files: seq<DataFile>) returns (r: Result<nat, WapError>)
      requires catalog.table.RefsResolve()
      modifies this, catalog
      ensures old(phase) != Writer ==>
                r == Err(WrongPhase) && phase == old(phase) && catalog.calls == old(catalog.calls)
      ensures old(phase) != Writer || batches == 0 ==> catalog.table == old(catalog.table)
      ensures old(phase) == Writer && batches == 0 ==> r == Ok(0) && phase == Publisher
      ensures old(catalog.calls) <= catalog.calls <= old(catalog.calls) + 2
      ensures old(phase) == Writer && batches > 0 ==>
                r == WriteReply(wapId, files,
                                catalog.RivalsOnly(old(catalog.table), old(catalog.calls), old(catalog.calls) + 1),
                                catalog.RivalsOnly(old(catalog.table), old(catalog.calls), old(catalog.calls) + 2))
      ensures old(phase) == Writer && batches > 0 && r.Err? ==>
                && phase == Complete
                && catalog.table == catalog.RivalsOnly(old(catalog.table), old(catalog.calls), catalog.calls)
      ensures old(phase) == Writer && batches > 0 && r.Ok? ==>
                && phase == Publisher && r.value == |files|
                && CommittedOn(table, catalog.table, wapId, files)
    {
      var previous := phase;
      phase := Complete;
      match previous {
        case Writer =>
          if batches == 0 {
            phase := Publisher;
            return Ok(0);
          }
          LandedKeepsSnapshots(catalog.table, catalog.Rivals(catalog.calls));
          table := catalog.LoadTable();
          var id := GenerateUniqueSnapshotId(table);
          assert catalog.table == catalog.RivalsOnly(old(catalog.table), old(catalog.calls), catalog.calls);
          match CommitToBranch(table, wapId, files, wapId, id) {
            case Err(e) =>
              return Err(Refused(e));
            case Ok(request) =>
              var s := AppendSnapshot(table, wapId, files, id, Some(wapId));
              LandedKeepsSnapshots(catalog.table, catalog.Rivals(catalog.calls));
              AppendLive(table.ManifestsOf(wapId), files, table.NextSeqNum());
              WriteRepliesSo(Landed(catalog.table, catalog.Rivals(catalog.calls)), table, wapId, files, wapId, id);
              CommitOfAdvance(Landed(catalog.table, catalog.Rivals(catalog.calls)), table, wapId, s);
              var reply := Send(catalog, request);
              if reply.Err? {
                return Err(reply.error);
              }
              phase := Publisher;
              return Ok(|files|);
          }
        case Publisher =>
          phase := Publisher;
          return Err(WrongPhase);
        case Complete =>
          return Err(WrongPhase);
      }
    }

    /** Publish the audit branch. A Complete transaction answers Ok without doing anything. */
    method Publish(catalog: Server) returns (r: Result<(), WapError>)
      requires catalog.table.RefsResolve()
      modifies this`table, catalog
      ensures phase == Writer ==> r == Err(WrongPhase) && catalog.table == old(catalog.table)
      ensures phase == Complete ==> r == Ok(()) && catalog.table == old(catalog.table)
      ensures old(catalog.calls) <= catalog.calls <= old(catalog.calls) + 2
      ensures phase == Publisher ==>
                r == PublishReply(wapId,
                                  catalog.RivalsOnly(old(catalog.table), old(catalog.calls), old(catalog.calls) + 1),
                                  catalog.RivalsOnly(old(catalog.table), old(catalog.calls), old(catalog.calls) + 2))
      ensures phase == Publisher && r.Err? ==>
                catalog.table == catalog.RivalsOnly(old(catalog.table), old(catalog.calls), catalog.calls)
      ensures phase == Publisher && r.Ok? ==>
                && table.Ref(wapId).Some?
                && catalog.table.Ref(MAIN) == table.Ref(wapId)
                && catalog.table.Ref(wapId) == None
    {
      match phase {
        case Writer =>
          return Err(WrongPhase);
        case Complete =>
          return Ok(());
        case Publisher =>
          LandedKeepsSnapshots(catalog.table, catalog.Rivals(catalog.calls));
          table := catalog.LoadTable();
          assert catalog.table == catalog.RivalsOnly(old(catalog.table), old(catalog.calls), catalog.calls);
          match PublishBranch(table, wapId) {
            case Err(e) =>
              return Err(Refused(e));
            case Ok(request) =>
              LandedKeepsSnapshots(catalog.table, catalog.Rivals(catalog.calls));
              CommitOfPublish(Landed(catalog.table, catalog.Rivals(catalog.calls)), table, wapId);
              r := Send(catalog, request);
          }
      }
    }
  }

  // ------------------------------------------------------------------
  // Crashes and restarts
  // ------------------------------------------------------------------

  /** Where the client is between two of its catalog calls. */
  datatype Client =
    | Down
    | Creating(base: Metadata)                           // begin: about to create the branch
    | Deleting(base: Metadata)                           // begin: about to delete a stale branch
    | Recreating                                         // begin: stale branch gone, about to reload
    | Writing                                            // transaction in its Writer phase
    | Committing(base: Metadata, files: seq<DataFile>)   // write: about to commit to the branch
    | Publishing                                         // transaction in its Publisher phase
    | Moving(base: Metadata)                             // publish: about to move main
    | Finished                                           // transaction Complete

  /** A request to the catalog, with the table it was built from. */
  datatype Call =
    | CreateCall(base: Metadata)
    | DeleteCall
    | CommitCall(base: Metadata, files: seq<DataFile>, id: SnapshotId)
    | PublishCall(base: Metadata)

  /**
   The catalog applies a request and the client hears so, or sees an error all
   the same; or the client stops waiting before the catalog has applied it.
   */
  datatype Delivery = Answered | Unheard | Late

  /**
   `everMain` collects every snapshot that main has ever named. `late` are the
   requests that nobody waits for any more, `open` says which of them are
   still on their way.
   */
  datatype State = State(
    table: Metadata,
    client: Client,
    everMain: set<SnapshotId>,
    late: seq<Call>,
    open: set<nat>)

  datatype Event =
    | Restart
    | DoCreate(how: Delivery)
    | DoDelete(how: Delivery)
    | ReloadForCreate
    | StartWrite(batches: nat, files: seq<DataFile>)
    | DoCommit(id: SnapshotId, how: Delivery)
    | StartPublish
    | DoPublish(how: Delivery)
    | Crash
    | Land(request: nat)
    | Vanish(request: nat)
    | Others(table: Metadata)

  function BeginOn(table: Metadata, wapId: string): Client {
    match StateOf(table, wapId)
    case NotStarted => Creating(table)
    case StaleBranch => Deleting(table)
    case WrittenNotPublished => Publishing
    case AlreadyPublished => Finished
  }

  /** What other clients may do: anything that keeps off this branch and this wap id. */
  ghost predicate OthersMay(wapId: string, table: Metadata, next: Metadata) {
    && next.RefsResolve() && LoadedBefore(table, next)
    && next.Ref(wapId) == table.Ref(wapId)
    && forall id <- next.snapshots :: id !in table.snapshots ==> next.snapshots[id].wapId != Some(wapId)
  }

  ghost predicate Enabled(wapId: string, s: State, event: Event) {
    match event
    case Restart => s.client.Down?
    case DoCreate(_) => s.client.Creating?
    case DoDelete(_) => s.client.Deleting?
    case ReloadForCreate => s.client.Recreating?
    case StartWrite(_, _) => s.client.Writing?
    case DoCommit(id, _) => s.client.Committing? && id !in s.client.base.snapshots
    case StartPublish => s.client.Publishing?
    case DoPublish(_) => s.client.Moving?
    case Crash => true
    case Land(i) => i in s.open && i < |s.late|
    case Vanish(i) => i in s.open
    case Others(next) => OthersMay(wapId, s.table, next)
  }

  function Asked(wapId: string, call: Call): Option<Request> {
    match call
    case CreateCall(base) =>
      (match CreateBranch(base, wapId) case Ok(request) => request case Err(_) => None)
    case DeleteCall =>
      (match DeleteBranch(wapId) case Ok(request) => Some(request) case Err(_) => None)
    case CommitCall(base, files, id) =>
      (match CommitToBranch(base, wapId, files, wapId, id) case Ok(request) => Some(request) case Err(_) => None)
    case PublishCall(base) =>
      (match PublishBranch(base, wapId) case Ok(request) => Some(request) case Err(_) => None)
  }

  /** The table once the catalog has dealt with a call. */
  function Landing(wapId: string, table: Metadata, call: Call): Metadata {
    match Asked(wapId, call)
    case None => table
    case Some(request) => After(table, request)
  }

  function MainIds(table: Metadata): set<SnapshotId> {
    if MAIN in table.refs then {table.refs[MAIN]} else {}
  }

  function WithTable(s: State, table: Metadata): State {
    s.(table := table, everMain := s.everMain + MainIds(table))
  }

  /** Make a call; the client goes on as `success`, or as `failure` when it sees an error. */
  function Make(wapId: string, s: State, call: Call, success: Client, failure: Client, how: Delivery): State {
    match Asked(wapId, call)
    case None => s.(client := failure)
    case Some(request) =>
      if how.Late? then s.(client := failure, late := s.late + [call], open := s.open + {|s.late|})
      else
        var heard := Commit(s.table, request).Ok? && how.Answered?;
        WithTable(s, Landing(wapId, s.table, call)).(client := if heard then success else failure)
  }

  function Step(wapId: string, s: State, event: Event): State
    requires s.client.Committing? || !event.DoCommit?
    requires s.client.Creating? || !event.DoCreate?
    requires s.client.Moving? || !event.DoPublish?
    requires event.Land? ==> event.request < |s.late|
  {
    match event
    case Restart => s.(client := BeginOn(s.table, wapId))
    case DoCreate(how) =>
      if CreateBranch(s.client.base, wapId) == Ok(None) then s.(client := Writing)
      else Make(wapId, s, CreateCall(s.client.base), Writing, Down, how)
    case DoDelete(how) => Make(wapId, s, DeleteCall, Recreating, Down, how)
    case ReloadForCreate => s.(client := Creating(s.table))
    case StartWrite(batches, files) => s.(client := if batches == 0 then Publishing else Committing(s.table, files))
    case DoCommit(id, how) =>
      Make(wapId, s, CommitCall(s.client.base, s.client.files, id), Publishing, Finished, how)
    case StartPublish => s.(client := Moving(s.table))
    case DoPublish(how) => Make(wapId, s, PublishCall(s.client.base), Finished, Down, how)
    case Crash => s.(client := Down)
    case Land(i) => WithTable(s, Landing(wapId, s.table, s.late[i])).(open := s.open - {i})
    case Vanish(i) => s.(open := s.open - {i})
    case Others(next) => WithTable(s, next)
  }

  /** A run starts with a table on which nobody has used the wap id or the branch name. */
  ghost predicate IsRun(wapId: string, trace: seq<State>, events: seq<Event>) {
    && |trace| == |events| + 1
    && trace[0].client.Down? && trace[0].table.RefsResolve()
    && !HasWapId(trace[0].table, wapId) && wapId !in trace[0].table.refs
    && trace[0].everMain == MainIds(trace[0].table)
    && trace[0].late == [] && trace[0].open == {}
    && forall i :: 0 <= i < |events| ==>
         Enabled(wapId, trace[i], events[i]) && trace[i + 1] == Step(wapId, trace[i], events[i])
  }

  // ------------------------------------------------------------------
  // What a call does when it lands, early or late
  // ------------------------------------------------------------------

  /** The call was built from an earlier table. */
  ghost predicate Known(table: Metadata, call: Call) {
    && (!call.DeleteCall? ==> LoadedBefore(call.base, table))
    && (call.CommitCall? ==> call.id !in call.base.snapshots)
  }

  lemma {:induction false} CreateLanding(wapId: string, table: Metadata, call: Call)
    requires call.CreateCall? && Known(table, call) && table.RefsResolve()
    ensures var next := Landing(wapId, table, call);
            || next == table
            || (wapId !in table.refs && MAIN in call.base.refs && call.base.refs[MAIN] in table.snapshots
                && next == table.(refs := table.refs[wapId := call.base.refs[MAIN]]))
    ensures Asked(wapId, call).Some? ==> MAIN in call.base.refs && wapId in Landing(wapId, table, call).refs
  {
    if Asked(wapId, call).Some? {
      CommitOfCreate(table, call.base, wapId);
    }
  }

  lemma {:induction false} DeleteLanding(wapId: string, table: Metadata)
    ensures Asked(wapId, DeleteCall).Some? ==>
              Landing(wapId, table, DeleteCall) == table.(refs := table.refs - {wapId})
  {
    if Asked(wapId, DeleteCall).Some? {
      CommitOfDelete(table, wapId);
    }
  }

  function WrittenBy(wapId: string, call: Call): Snapshot
    requires call.CommitCall?
  {
    AppendSnapshot(call.base, wapId, call.files, call.id, Some(wapId))
  }

  /** The catalog accepts the commit. */
  predicate Accepts(wapId: string, table: Metadata, call: Call)
    requires call.CommitCall?
  {
    && Asked(wapId, call).Some? && table.Ref(wapId) == call.base.Ref(wapId)
    && call.id !in table.snapshots && call.base.lastSeqNum >= table.lastSeqNum
  }

  lemma {:induction false} CommitLanding(wapId: string, table: Metadata, call: Call)
    requires call.CommitCall?
    ensures Landing(wapId, table, call) ==
            if Accepts(wapId, table, call) then
              Metadata(table.snapshots[call.id := WrittenBy(wapId, call)], table.refs[wapId := call.id],
                       call.base.NextSeqNum())
            else table
  {
    if Asked(wapId, call).Some? {
      CommitOfAdvance(table, call.base, wapId, WrittenBy(wapId, call));
    }
  }

  lemma {:induction false} PublishLanding(wapId: string, table: Metadata, call: Call)
    requires call.PublishCall? && Known(table, call)
    ensures Landing(wapId, table, call) ==
            if Asked(wapId, call).Some? && table.Ref(MAIN) == call.base.Ref(MAIN) then
              table.(refs := table.refs[MAIN := call.base.refs[wapId]] - {wapId})
            else table
    ensures Asked(wapId, call).Some? ==> wapId in call.base.refs && call.base.refs[wapId] in table.snapshots
  {
    if Asked(wapId, call).Some? {
      CommitOfPublish(table, call.base, wapId);
      assert call.base.refs[wapId] in call.base.snapshots;
    }
  }

  lemma {:induction false} LandingKeeps(wapId: string, table: Metadata, call: Call)
    requires table.RefsResolve()
    ensures Landing(wapId, table, call).RefsResolve() && LoadedBefore(table, Landing(wapId, table, call))
  {
    if Asked(wapId, call).Some? {
      CommitKeepsSnapshots(table, Asked(wapId, call).value);
    }
  }

  /** A call adds a carrier exactly when it is a commit that the catalog accepts. */
  lemma {:induction false} LandingCarriers(wapId: string, table: Metadata, call: Call)
    requires Known(table, call) && table.RefsResolve() && wapId != MAIN
    ensures Carriers(Landing(wapId, table, call), wapId) ==
            Carriers(table, wapId) + if call.CommitCall? && Accepts(wapId, table, call) then {call.id} else {}
  {
    match call
    case CreateCall(_) => CreateLanding(wapId, table, call);
    case DeleteCall => DeleteLanding(wapId, table);
    case CommitCall(_, _, _) => CommitLanding(wapId, table, call);
    case PublishCall(_) => PublishLanding(wapId, table, call);
  }

  // ------------------------------------------------------------------
  // Every event, seen from the table
  // ------------------------------------------------------------------

  /** The call that the client is about to make. */
  function ClientCall(s: State, event: Event): Option<Call> {
    match event
    case DoCreate(_) => if s.client.Creating? then Some(CreateCall(s.client.base)) else None
    case DoDelete(_) => Some(DeleteCall)
    case DoCommit(id, _) =>
      if s.client.Committing? then Some(CommitCall(s.client.base, s.client.files, id)) else None
    case DoPublish(_) => if s.client.Moving? then Some(PublishCall(s.client.base)) else None
    case _ => None
  }

  predicate IsLate(event: Event) {
    (event.DoCreate? || event.DoDelete? || event.DoCommit? || event.DoPublish?) && event.how.Late?
  }

  /** The call that the catalog deals with in this event. */
  function Applied(wapId: string, s: State, event: Event): Option<Call> {
    if event.Land? then (if event.request < |s.late| then Some(s.late[event.request]) else None)
    else
      match ClientCall(s, event)
      case None => None
      case Some(call) => if IsLate(event) || Asked(wapId, call).None? then None else Some(call)
  }

  function NextTable(wapId: string, s: State, event: Event): Metadata {
    if event.Others? then event.table
    else
      match Applied(wapId, s, event)
      case None => s.table
      case Some(call) => Landing(wapId, s.table, call)
  }

  lemma {:induction false} StepTable(wapId: string, s: State, event: Event)
    requires Enabled(wapId, s, event) && MainIds(s.table) <= s.everMain
    ensures var next := Step(wapId, s, event);
            && next.table == NextTable(wapId, s, event) && next.everMain == s.everMain + MainIds(next.table)
            && s.late <= next.late
  {
  }

  /** Every call under way was built from an earlier table. */
  ghost predicate CallsKnown(s: State) {
    && s.table.RefsResolve() && MainIds(s.table) <= s.everMain
    && (forall i :: 0 <= i < |s.late| ==> Known(s.table, s.late[i]))
    && (s.client.Creating? || s.client.Deleting? || s.client.Committing? || s.client.Moving? ==>
          LoadedBefore(s.client.base, s.table))
  }

  lemma {:induction false} KnownStays(table: Metadata, next: Metadata, call: Call)
    requires Known(table, call) && LoadedBefore(table, next)
    ensures Known(next, call)
  {
  }

  lemma {:induction false} NextTableKeeps(wapId: string, s: State, event: Event)
    requires CallsKnown(s) && Enabled(wapId, s, event)
    ensures NextTable(wapId, s, event).RefsResolve() && LoadedBefore(s.table, NextTable(wapId, s, event))
    ensures Applied(wapId, s, event).Some? ==> Known(s.table, Applied(wapId, s, event).value)
  {
    if Applied(wapId, s, event).Some? {
      LandingKeeps(wapId, s.table, Applied(wapId, s, event).value);
    }
  }

  lemma {:induction false} StepKeepsKnown(wapId: string, s: State, event: Event)
    requires CallsKnown(s) && Enabled(wapId, s, event)
    ensures CallsKnown(Step(wapId, s, event))
  {
    var next := Step(wapId, s, event);
    StepTable(wapId, s, event);
    NextTableKeeps(wapId, s, event);
    forall i | 0 <= i < |next.late| ensures Known(next.table, next.late[i]) {
      KnownStays(s.table, next.table, if i < |s.late| then s.late[i] else ClientCall(s, event).value);
    }
  }

  lemma {:induction false} RunKeepsKnown(wapId: string, trace: seq<State>, events: seq<Event>)
    requires IsRun(wapId, trace, events)
    ensures CallsKnown(trace[|events|])
  {
    if events != [] {
      var n := |events| - 1;
      RunKeepsKnown(wapId, trace[..n + 1], events[..n]);
      StepKeepsKnown(wapId, trace[n], events[n]);
    }
  }

  /** What the process does after an answer that it hears: `success` if the reply says so, `failure` otherwise. */
  ghost predicate Goes<T>(client: Client, reply: Result<T, WapError>, how: Delivery, success: Client, failure: Client) {
    client == if reply.Ok? && how.Answered? then success else failure
  }

  /**
   In every run the process goes on as the transaction's methods say: a call
   succeeds exactly when the reply to it would and is heard. A failed creation,
   deletion or publish ends it; a failed write leaves the transaction Complete.
   */
  lemma {:induction false} ClientFollowsReplies(wapId: string, trace: seq<State>, events: seq<Event>, event: Event)
    requires IsRun(wapId, trace, events) && Enabled(wapId, trace[|events|], event)
    ensures var s, client := trace[|events|], Step(wapId, trace[|events|], event).client;
            match event
            case Restart =>
              (match (HasWapId(s.table, wapId), wapId in s.table.refs)
               case (false, false) => client == Creating(s.table)
               case (false, true) => client == Deleting(s.table)
               case (true, true) => client == Publishing
               case (true, false) => client == Finished)
            case DoCreate(how) =>
              if MAIN !in s.client.base.refs && wapId != MAIN && wapId != "" then client == Writing
              else Goes(client, CreateReply(wapId, s.client.base, s.table), how, Writing, Down)
            case DoDelete(how) =>
              client == if wapId != MAIN && wapId != "" && how.Answered? then Recreating else Down
            case ReloadForCreate => client == Creating(s.table)
            case StartWrite(batches, files) =>
              client == if batches == 0 then Publishing else Committing(s.table, files)
            case DoCommit(id, how) =>
              Goes(client, WriteReply(wapId, s.client.files, s.client.base, s.table), how, Publishing, Finished)
            case StartPublish => client == Moving(s.table)
            case DoPublish(how) => Goes(client, PublishReply(wapId, s.client.base, s.table), how, Finished, Down)
            case Crash => client == Down
            case _ => client == s.client
  {
    RunKeepsKnown(wapId, trace, events);
    var s := trace[|events|];
    match event
    case Restart => assert wapId in s.table.refs <==> s.table.SnapshotForRef(wapId).Some?;
    case DoCreate(how) =>
      if Asked(wapId, CreateCall(s.client.base)).Some? {
        CommitOfCreate(s.table, s.client.base, wapId);
      }
    case DoDelete(how) =>
      if DeleteBranch(wapId).Ok? {
        CommitOfDelete(s.table, wapId);
      }
    case DoCommit(id, how) =>
      if CommitToBranch(s.client.base, wapId, s.client.files, wapId, id).Ok? {
        WriteRepliesSo(s.table, s.client.base, wapId, s.client.files, wapId, id);
      }
    case DoPublish(how) =>
      if PublishBranch(s.client.base, wapId).Ok? {
        CommitOfPublish(s.table, s.client.base, wapId);
      }
    case _ =>
  }

  // ------------------------------------------------------------------
  // When the data is written once
  // ------------------------------------------------------------------

  /**
   A commit that does not know the wap id was built before any snapshot with
   that id came in, so its sequence number is used up once one has.
   */
  ghost predicate Outdated(wapId: string, table: Metadata, base: Metadata) {
    HasWapId(table, wapId) && !HasWapId(base, wapId) ==> base.lastSeqNum < table.lastSeqNum
  }

  ghost predicate CommitsOutdated(wapId: string, s: State) {
    && (forall i :: 0 <= i < |s.late| && s.late[i].CommitCall? ==> Outdated(wapId, s.table, s.late[i].base))
    && (s.client.Committing? ==> Outdated(wapId, s.table, s.client.base))
  }

  /** A commit is accepted whose write loaded a table that had the wap id already. */
  ghost predicate Doubles(wapId: string, s: State, event: Event) {
    match Applied(wapId, s, event)
    case None => false
    case Some(call) => call.CommitCall? && Accepts(wapId, s.table, call) && HasWapId(call.base, wapId)
  }

  ghost predicate OneCarrier(wapId: string, table: Metadata) {
    forall a <- Carriers(table, wapId), b <- Carriers(table, wapId) :: a == b
  }

  lemma {:induction false} OthersCarriers(wapId: string, table: Metadata, next: Metadata)
    requires OthersMay(wapId, table, next)
    ensures Carriers(next, wapId) == Carriers(table, wapId)
    ensures HasWapId(next, wapId) <==> HasWapId(table, wapId)
  {
    forall id ensures id in Carriers(next, wapId) <==> id in Carriers(table, wapId) {
      assert id in table.snapshots ==> id in next.snapshots && next.snapshots[id] == table.snapshots[id];
    }
    HasCarrier(table, wapId);
    HasCarrier(next, wapId);
  }

  lemma {:induction false} HasCarrier(table: Metadata, wapId: string)
    ensures HasWapId(table, wapId) <==> exists c :: c in Carriers(table, wapId)
  {
    if c :| c in Carriers(table, wapId) {
      assert c in table.snapshots;
    }
    if c :| c in table.snapshots && table.snapshots[c].wapId == Some(wapId) {
      assert c in Carriers(table, wapId);
    }
  }

  lemma {:induction false} CarrierHasId(table: Metadata, wapId: string, c: SnapshotId)
    requires c in Carriers(table, wapId)
    ensures HasWapId(table, wapId)
  {
    assert c in table.snapshots;
  }

  /** How one event changes the set of carriers. */
  lemma {:induction false} StepCarriers(wapId: string, s: State, event: Event)
    requires wapId != MAIN && CallsKnown(s) && Enabled(wapId, s, event)
    ensures var applied, next := Applied(wapId, s, event), NextTable(wapId, s, event);
            if applied.Some? && applied.value.CommitCall? && Accepts(wapId, s.table, applied.value) then
              && Carriers(next, wapId) == Carriers(s.table, wapId) + {applied.value.id}
              && next.lastSeqNum > s.table.lastSeqNum && next.Ref(wapId) == Some(applied.value.id)
            else
              Carriers(next, wapId) == Carriers(s.table, wapId)
  {
    if event.Others? {
      OthersCarriers(wapId, s.table, event.table);
    } else if Applied(wapId, s, event).Some? {
      var call := Applied(wapId, s, event).value;
      NextTableKeeps(wapId, s, event);
      LandingCarriers(wapId, s.table, call);
      if call.CommitCall? {
        CommitLanding(wapId, s.table, call);
      }
    }
  }

  lemma {:induction false} OutdatedStays(wapId: string, s: State, event: Event, base: Metadata)
    requires wapId != MAIN && CallsKnown(s) && Enabled(wapId, s, event)
    requires LoadedBefore(base, s.table) && Outdated(wapId, s.table, base)
    ensures Outdated(wapId, NextTable(wapId, s, event), base)
  {
    StepCarriers(wapId, s, event);
    NextTableKeeps(wapId, s, event);
    HasCarrier(s.table, wapId);
    HasCarrier(NextTable(wapId, s, event), wapId);
  }

  lemma {:induction false} StepKeepsOutdated(wapId: string, s: State, event: Event)
    requires wapId != MAIN && CallsKnown(s) && CommitsOutdated(wapId, s) && Enabled(wapId, s, event)
    ensures CommitsOutdated(wapId, Step(wapId, s, event))
  {
    var next := Step(wapId, s, event);
    StepTable(wapId, s, event);
    forall i | 0 <= i < |next.late| && next.late[i].CommitCall? ensures Outdated(wapId, next.table, next.late[i].base) {
      if i < |s.late| {
        assert Known(s.table, s.late[i]);
        OutdatedStays(wapId, s, event, s.late[i].base);
      } else {
        OutdatedStays(wapId, s, event, s.client.base);
      }
    }
    if s.client.Committing? {
      OutdatedStays(wapId, s, event, s.client.base);
    }
  }

  lemma {:induction false} AppliedOutdated(wapId: string, s: State, event: Event)
    requires CommitsOutdated(wapId, s) && Enabled(wapId, s, event)
    requires Applied(wapId, s, event).Some? && Applied(wapId, s, event).value.CommitCall?
    ensures Outdated(wapId, s.table, Applied(wapId, s, event).value.base)
  {
  }

  lemma {:induction false} StepCarries(wapId: string, s: State, event: Event)
    requires wapId != MAIN && CallsKnown(s) && CommitsOutdated(wapId, s) && Enabled(wapId, s, event)
    ensures OneCarrier(wapId, Step(wapId, s, event).table) <==> OneCarrier(wapId, s.table) && !Doubles(wapId, s, event)
  {
    StepTable(wapId, s, event);
    StepCarriers(wapId, s, event);
    HasCarrier(s.table, wapId);
    var applied := Applied(wapId, s, event);
    if applied.Some? && applied.value.CommitCall? && Accepts(wapId, s.table, applied.value) {
      NextTableKeeps(wapId, s, event);
      AppliedOutdated(wapId, s, event);
      if HasWapId(applied.value.base, wapId) {
        var c :| c in applied.value.base.snapshots && applied.value.base.snapshots[c].wapId == Some(wapId);
        assert c in Carriers(s.table, wapId) && applied.value.id !in s.table.snapshots;
      }
    }
  }

  lemma {:induction false} OneCarrierCounts(wapId: string, table: Metadata)
    ensures OneCarrier(wapId, table) <==> |Carriers(table, wapId)| <= 1
  {
    var carriers := Carriers(table, wapId);
    if OneCarrier(wapId, table) {
      if c :| c in carriers {
        assert forall id :: id in carriers <==> id in {c};
        assert carriers == {c};
      } else {
        var none: set<SnapshotId> := {};
        assert forall id :: id in carriers <==> id in none;
        assert carriers == none;
      }
    } else {
      var a, b :| a in carriers && b in carriers && a != b;
      assert {a, b} <= carriers && |{a, b}| == 2;
      SubsetSize({a, b}, carriers);
    }
  }

  lemma {:induction false} SubsetSize(a: set<SnapshotId>, b: set<SnapshotId>)
    requires a <= b
    ensures |a| <= |b|
  {
    assert b == a + (b - a);
  }

  lemma {:induction false} RunCarries(wapId: string, trace: seq<State>, events: seq<Event>)
    requires wapId != MAIN && IsRun(wapId, trace, events)
    ensures CallsKnown(trace[|events|]) && CommitsOutdated(wapId, trace[|events|])
    ensures OneCarrier(wapId, trace[|events|].table) <==>
              forall i :: 0 <= i < |events| ==> !Doubles(wapId, trace[i], events[i])
  {
    RunKeepsKnown(wapId, trace, events);
    if events == [] {
      HasCarrier(trace[0].table, wapId);
    } else {
      var n := |events| - 1;
      RunCarries(wapId, trace[..n + 1], events[..n]);
      StepKeepsOutdated(wapId, trace[n], events[n]);
      StepCarries(wapId, trace[n], events[n]);
    }
  }

  /**
   However often the client crashes and restarts, and whenever its requests
   land: its data is committed at most once exactly when no commit is accepted
   that was built by a write on a table with the wap id, for which only `begin`
   looks.
   */
  lemma {:induction false} WrittenAtMostOnce(wapId: string, trace: seq<State>, events: seq<Event>)
    requires wapId != MAIN && IsRun(wapId, trace, events)
    ensures |Carriers(trace[|events|].table, wapId)| <= 1 <==>
              forall i :: 0 <= i < |events| ==> !Doubles(wapId, trace[i], events[i])
  {
    RunCarries(wapId, trace, events);
    OneCarrierCounts(wapId, trace[|events|].table);
  }

  // ------------------------------------------------------------------
  // When "already published" is true
  // ------------------------------------------------------------------

  /** A snapshot with the wap id has been put on main. */
  ghost predicate Published(wapId: string, s: State) {
    exists c <- Carriers(s.table, wapId) :: c in s.everMain
  }

  /** The branch names a snapshot with the wap id. */
  predicate NamesCarrier(wapId: string, table: Metadata) {
    wapId in table.refs && table.refs[wapId] in Carriers(table, wapId)
  }

  /**
   A deletion, or a publish of an earlier state of the branch, lands on a
   branch that holds the written data before that was ever on main.
   */
  ghost predicate Orphans(wapId: string, s: State, event: Event) {
    match Applied(wapId, s, event)
    case None => false
    case Some(call) =>
      && NamesCarrier(wapId, s.table) && !Published(wapId, s) && Asked(wapId, call).Some?
      && (|| call.DeleteCall?
          || (&& call.PublishCall? && s.table.Ref(MAIN) == call.base.Ref(MAIN) && wapId in call.base.refs
              && call.base.refs[wapId] !in Carriers(s.table, wapId)))
  }

  /** The written data is on the branch until it is on main. */
  ghost predicate Held(wapId: string, s: State) {
    HasWapId(s.table, wapId) && !Published(wapId, s) ==> NamesCarrier(wapId, s.table)
  }

  lemma {:induction false} PublishedStays(wapId: string, s: State, event: Event)
    requires wapId != MAIN && CallsKnown(s) && Enabled(wapId, s, event) && Published(wapId, s)
    ensures Published(wapId, Step(wapId, s, event))
  {
    StepTable(wapId, s, event);
    StepCarriers(wapId, s, event);
    var c :| c in Carriers(s.table, wapId) && c in s.everMain;
    assert c in Carriers(Step(wapId, s, event).table, wapId);
  }

  /** What a landing does to a branch that names the data while main never has. */
  lemma {:induction false} LandingHolds(wapId: string, s: State, event: Event)
    requires wapId != MAIN && CallsKnown(s) && Enabled(wapId, s, event) && !Published(wapId, s)
    requires NamesCarrier(wapId, s.table) && Applied(wapId, s, event).Some?
    ensures var next := Step(wapId, s, event);
            if Orphans(wapId, s, event) then wapId !in next.table.refs && !Published(wapId, next)
            else Published(wapId, next) || NamesCarrier(wapId, next.table)
  {
    var call := Applied(wapId, s, event).value;
    StepTable(wapId, s, event);
    StepCarriers(wapId, s, event);
    NextTableKeeps(wapId, s, event);
    match call
    case CreateCall(_) => CreateLanding(wapId, s.table, call);
    case DeleteCall => DeleteLanding(wapId, s.table);
    case CommitCall(_, _, _) => CommitLanding(wapId, s.table, call);
    case PublishCall(_) =>
      PublishLanding(wapId, s.table, call);
      var next := Step(wapId, s, event);
      if next.table != s.table && call.base.refs[wapId] in Carriers(s.table, wapId) {
        assert call.base.refs[wapId] in next.everMain;
      }
  }

  lemma {:induction false} StepHolds(wapId: string, s: State, event: Event)
    requires wapId != MAIN && CallsKnown(s) && Enabled(wapId, s, event) && Held(wapId, s)
    ensures Held(wapId, Step(wapId, s, event)) <==> !Orphans(wapId, s, event)
  {
    var next := Step(wapId, s, event);
    HasCarrier(s.table, wapId);
    HasCarrier(next.table, wapId);
    StepTable(wapId, s, event);
    StepCarriers(wapId, s, event);
    if Published(wapId, s) {
      PublishedStays(wapId, s, event);
    } else if NamesCarrier(wapId, s.table) {
      assert s.table.refs[wapId] in Carriers(next.table, wapId);
      if Applied(wapId, s, event).Some? {
        LandingHolds(wapId, s, event);
        CarrierHasId(next.table, wapId, s.table.refs[wapId]);
      } else if !event.Others? {
        assert next.table == s.table;
      }
    }
  }

  lemma {:induction false} HeldIsSound(wapId: string, s: State)
    requires s.table.RefsResolve()
    ensures Held(wapId, s) ==> BeginOn(s.table, wapId).Finished? ==> Published(wapId, s)
    ensures wapId !in s.table.refs && (BeginOn(s.table, wapId).Finished? ==> Published(wapId, s)) ==> Held(wapId, s)
  {
  }

  lemma {:induction false} OrphanedIsUnsound(wapId: string, s: State, event: Event)
    requires wapId != MAIN && CallsKnown(s) && Enabled(wapId, s, event) && Orphans(wapId, s, event)
    ensures var next := Step(wapId, s, event);
            BeginOn(next.table, wapId).Finished? && !Published(wapId, next)
  {
    LandingHolds(wapId, s, event);
    StepTable(wapId, s, event);
    StepCarriers(wapId, s, event);
    CarrierHasId(Step(wapId, s, event).table, wapId, s.table.refs[wapId]);
  }

  lemma {:induction false} RunHolds(wapId: string, trace: seq<State>, events: seq<Event>)
    requires wapId != MAIN && IsRun(wapId, trace, events)
    requires forall i :: 0 <= i < |events| ==> !Orphans(wapId, trace[i], events[i])
    ensures forall i :: 0 <= i <= |events| ==> Held(wapId, trace[i]) && trace[i].table.RefsResolve()
  {
    RunKeepsKnown(wapId, trace, events);
    if events != [] {
      var n := |events| - 1;
      RunHolds(wapId, trace[..n + 1], events[..n]);
      RunKeepsKnown(wapId, trace[..n + 1], events[..n]);
      assert forall i :: 0 <= i <= n ==> trace[..n + 1][i] == trace[i];
      StepHolds(wapId, trace[n], events[n]);
    }
  }

  /**
   Whenever `begin` would answer Complete, a snapshot with this wap id has been
   put on main: this holds throughout a run exactly when no deletion, and no
   publish of an earlier state of the branch, lands on the written data first.
   */
  lemma {:induction false} CompleteIsSound(wapId: string, trace: seq<State>, events: seq<Event>)
    requires wapId != MAIN && IsRun(wapId, trace, events)
    ensures (forall i :: 0 <= i <= |events| && BeginOn(trace[i].table, wapId).Finished? ==>
               Published(wapId, trace[i])) <==>
              forall i :: 0 <= i < |events| ==> !Orphans(wapId, trace[i], events[i])
  {
    if i :| 0 <= i < |events| && Orphans(wapId, trace[i], events[i]) {
      RunKeepsKnown(wapId, trace[..i + 1], events[..i]);
      OrphanedIsUnsound(wapId, trace[i], events[i]);
      assert !Published(wapId, trace[i + 1]);
    } else {
      RunHolds(wapId, trace, events);
      forall i | 0 <= i <= |events| && BeginOn(trace[i].table, wapId).Finished? ensures Published(wapId, trace[i]) {
        HeldIsSound(wapId, trace[i]);
      }
    }
  }

  // ------------------------------------------------------------------
  // When "written, not published" is true
  // ------------------------------------------------------------------

  /** A creation lands after the data was written and makes the branch name something else. */
  ghost predicate Misnames(wapId: string, s: State, event: Event) {
    match Applied(wapId, s, event)
    case None => false
    case Some(call) =>
      && call.CreateCall? && Asked(wapId, call).Some? && MAIN in call.base.refs
      && HasWapId(s.table, wapId) && wapId !in s.table.refs
      && call.base.refs[MAIN] !in Carriers(s.table, wapId)
  }

  ghost predicate WellNamed(wapId: string, table: Metadata) {
    HasWapId(table, wapId) && wapId in table.refs ==> NamesCarrier(wapId, table)
  }

  lemma {:induction false} StepNames(wapId: string, s: State, event: Event)
    requires wapId != MAIN && CallsKnown(s) && Enabled(wapId, s, event) && WellNamed(wapId, s.table)
    ensures WellNamed(wapId, Step(wapId, s, event).table) <==> !Misnames(wapId, s, event)
  {
    StepTable(wapId, s, event);
    StepCarriers(wapId, s, event);
    HasCarrier(s.table, wapId);
    HasCarrier(NextTable(wapId, s, event), wapId);
    if Applied(wapId, s, event).Some? && !event.Others? {
      var call := Applied(wapId, s, event).value;
      NextTableKeeps(wapId, s, event);
      match call
      case CreateCall(_) => CreateLanding(wapId, s.table, call);
      case DeleteCall => DeleteLanding(wapId, s.table);
      case CommitCall(_, _, _) => CommitLanding(wapId, s.table, call);
      case PublishCall(_) => PublishLanding(wapId, s.table, call);
    }
  }

  lemma {:induction false} RunNames(wapId: string, trace: seq<State>, events: seq<Event>)
    requires wapId != MAIN && IsRun(wapId, trace, events)
    ensures (forall i :: 0 <= i <= |events| ==> WellNamed(wapId, trace[i].table)) <==>
              forall i :: 0 <= i < |events| ==> !Misnames(wapId, trace[i], events[i])
  {
    if events != [] {
      var n := |events| - 1;
      RunNames(wapId, trace[..n + 1], events[..n]);
      RunKeepsKnown(wapId, trace[..n + 1], events[..n]);
      assert forall i :: 0 <= i <= n ==> trace[..n + 1][i] == trace[i];
      assert forall i :: 0 <= i < n ==> events[..n][i] == events[i];
      if WellNamed(wapId, trace[n].table) {
        StepNames(wapId, trace[n], events[n]);
        assert WellNamed(wapId, trace[n + 1].table) <==> !Misnames(wapId, trace[n], events[n]);
      }
    }
  }

  lemma {:induction false} WellNamedIsSound(wapId: string, table: Metadata)
    requires table.RefsResolve()
    ensures (BeginOn(table, wapId).Publishing? ==> NamesCarrier(wapId, table)) <==> WellNamed(wapId, table)
  {
  }

  /**
   Whenever `begin` would answer Publisher, the branch names a snapshot with
   this wap id: this holds throughout a run exactly when no creation lands on
   a table that has the id, from a main without it.
   */
  lemma {:induction false} PublisherIsSound(wapId: string, trace: seq<State>, events: seq<Event>)
    requires wapId != MAIN && IsRun(wapId, trace, events)
    ensures (forall i :: 0 <= i <= |events| && BeginOn(trace[i].table, wapId).Publishing? ==>
               NamesCarrier(wapId, trace[i].table)) <==>
              forall i :: 0 <= i < |events| ==> !Misnames(wapId, trace[i], events[i])
  {
    RunNames(wapId, trace, events);
    forall i | 0 <= i <= |events| ensures trace[i].table.RefsResolve() {
      RunKeepsKnown(wapId, trace[..i + 1], events[..i]);
    }
    forall i | 0 <= i <= |events|
      ensures (BeginOn(trace[i].table, wapId).Publishing? ==> NamesCarrier(wapId, trace[i].table)) <==>
              WellNamed(wapId, trace[i].table)
    {
      WellNamedIsSound(wapId, trace[i].table);
    }
  }

  // ------------------------------------------------------------------
  // Restarts that wait
  // ------------------------------------------------------------------

  /** No process starts while a request of an earlier one is still on its way. */
  ghost predicate QuietRestarts(trace: seq<State>, events: seq<Event>)
    requires |trace| == |events| + 1
  {
    forall i :: 0 <= i < |events| && events[i].Restart? ==> trace[i].open == {}
  }

  predicate BeforeTheWrite(client: Client) {
    client.Creating? || client.Deleting? || client.Recreating? || client.Writing? || client.Committing?
  }

  /** Nothing has happened to the branch since the call was built. */
  ghost predicate Pending(wapId: string, table: Metadata, call: Call) {
    && (!call.DeleteCall? ==> call.base.Ref(wapId) == table.Ref(wapId))
    && (!call.PublishCall? ==> !HasWapId(table, wapId))
  }

  /** Written data is on the branch, or the branch is gone and it was on main. */
  ghost predicate Placed(wapId: string, table: Metadata, everMain: set<SnapshotId>) {
    forall c <- Carriers(table, wapId) :: table.Ref(wapId) == Some(c) || (table.Ref(wapId) == None && c in everMain)
  }

  ghost predicate ClientInv(wapId: string, s: State) {
    && (s.client.Creating? || s.client.Deleting? || s.client.Committing? || s.client.Moving? ==>
          s.client.base.Ref(wapId) == s.table.Ref(wapId))
    && (BeforeTheWrite(s.client) ==> !HasWapId(s.table, wapId))
  }

  ghost predicate QuietInv(wapId: string, s: State) {
    && CallsKnown(s) && ClientInv(wapId, s)
    && OneCarrier(wapId, s.table) && Placed(wapId, s.table, s.everMain)
    && (forall i <- s.open ::
          i < |s.late| && (s.client.Down? || s.client.Finished?) && Pending(wapId, s.table, s.late[i]))
    && (forall i <- s.open, j <- s.open :: i == j)
  }

  lemma {:induction false} PendingLanding(wapId: string, table: Metadata, everMain: set<SnapshotId>, call: Call)
    requires wapId != MAIN && table.RefsResolve() && Known(table, call) && Pending(wapId, table, call)
    requires OneCarrier(wapId, table) && Placed(wapId, table, everMain)
    ensures var next := Landing(wapId, table, call);
            && OneCarrier(wapId, next) && Placed(wapId, next, everMain + MainIds(next))
            && (!call.CommitCall? ==> (HasWapId(next, wapId) <==> HasWapId(table, wapId)))
  {
    var next := Landing(wapId, table, call);
    LandingCarriers(wapId, table, call);
    HasCarrier(table, wapId);
    HasCarrier(next, wapId);
    match call
    case CreateCall(_) => CreateLanding(wapId, table, call);
    case DeleteCall => DeleteLanding(wapId, table);
    case CommitCall(_, _, _) => CommitLanding(wapId, table, call);
    case PublishCall(_) => PublishLanding(wapId, table, call);
  }

  lemma {:induction false} ClientCallIsPending(wapId: string, s: State, event: Event)
    requires QuietInv(wapId, s) && Enabled(wapId, s, event) && ClientCall(s, event).Some?
    ensures Known(s.table, ClientCall(s, event).value) && Pending(wapId, s.table, ClientCall(s, event).value)
    ensures s.open == {}
  {
    var none: set<nat> := {};
    assert forall i :: i in s.open <==> i in none;
  }

  lemma {:induction false} LateCallKeepsQuiet(wapId: string, s: State, event: Event)
    requires wapId != MAIN && QuietInv(wapId, s) && Enabled(wapId, s, event) && ClientCall(s, event).Some?
    requires Applied(wapId, s, event).None?
    ensures QuietInv(wapId, Step(wapId, s, event))
  {
    StepKeepsKnown(wapId, s, event);
    ClientCallIsPending(wapId, s, event);
  }

  lemma {:induction false} OwnCallKeepsQuiet(wapId: string, s: State, event: Event)
    requires wapId != MAIN && QuietInv(wapId, s) && Enabled(wapId, s, event)
    requires ClientCall(s, event).Some? && Applied(wapId, s, event).Some?
    ensures QuietInv(wapId, Step(wapId, s, event))
  {
    StepKeepsKnown(wapId, s, event);
    ClientCallIsPending(wapId, s, event);
    PendingLanding(wapId, s.table, s.everMain, ClientCall(s, event).value);
  }

  lemma {:induction false} LandKeepsQuiet(wapId: string, s: State, event: Event)
    requires wapId != MAIN && QuietInv(wapId, s) && Enabled(wapId, s, event) && event.Land?
    ensures QuietInv(wapId, Step(wapId, s, event))
  {
    StepKeepsKnown(wapId, s, event);
    PendingLanding(wapId, s.table, s.everMain, s.late[event.request]);
  }

  lemma {:induction false} OthersKeepQuiet(wapId: string, s: State, event: Event)
    requires wapId != MAIN && QuietInv(wapId, s) && Enabled(wapId, s, event) && event.Others?
    ensures QuietInv(wapId, Step(wapId, s, event))
  {
    StepKeepsKnown(wapId, s, event);
    OthersCarriers(wapId, s.table, event.table);
    forall i | i in s.open ensures Pending(wapId, event.table, s.late[i]) {
    }
  }

  lemma {:induction false} StepKeepsQuiet(wapId: string, s: State, event: Event)
    requires wapId != MAIN && QuietInv(wapId, s) && Enabled(wapId, s, event) && (event.Restart? ==> s.open == {})
    ensures QuietInv(wapId, Step(wapId, s, event))
  {
    if ClientCall(s, event).Some? && Applied(wapId, s, event).Some? {
      OwnCallKeepsQuiet(wapId, s, event);
    } else if ClientCall(s, event).Some? {
      LateCallKeepsQuiet(wapId, s, event);
    } else if event.Land? {
      LandKeepsQuiet(wapId, s, event);
    } else if event.Others? {
      OthersKeepQuiet(wapId, s, event);
    } else {
      StepKeepsKnown(wapId, s, event);
    }
  }

  lemma {:induction false} RunKeepsQuiet(wapId: string, trace: seq<State>, events: seq<Event>)
    requires wapId != MAIN && IsRun(wapId, trace, events) && QuietRestarts(trace, events)
    ensures QuietInv(wapId, trace[|events|])
  {
    RunKeepsKnown(wapId, trace, events);
    if events == [] {
      HasCarrier(trace[0].table, wapId);
    } else {
      var n := |events| - 1;
      assert forall i :: 0 <= i < n ==> events[..n][i] == events[i] && trace[..n + 1][i] == trace[i];
      RunKeepsQuiet(wapId, trace[..n + 1], events[..n]);
      StepKeepsQuiet(wapId, trace[n], events[n]);
    }
  }

  /**
   As long as no process starts before the requests of the earlier ones have
   landed or are lost: the data is written at most once, is on the branch when
   `begin` answers Publisher, and was on main when it answers Complete.
   */
  lemma {:induction false} QuietRestartsAreSafe(wapId: string, trace: seq<State>, events: seq<Event>)
    requires wapId != MAIN && IsRun(wapId, trace, events) && QuietRestarts(trace, events)
    ensures var s := trace[|events|];
            && |Carriers(s.table, wapId)| <= 1
            && (BeginOn(s.table, wapId).Finished? ==> Published(wapId, s))
            && (BeginOn(s.table, wapId).Publishing? ==> NamesCarrier(wapId, s.table))
  {
    RunKeepsQuiet(wapId, trace, events);
    OneCarrierCounts(wapId, trace[|events|].table);
    HasCarrier(trace[|events|].table, wapId);
  }

  // ------------------------------------------------------------------
  // Runs in which a late request lands
  // ------------------------------------------------------------------

  lemma {:induction false} Extend(wapId: string, trace: seq<State>, events: seq<Event>, event: Event)
      returns (longer: seq<State>, more: seq<Event>)
    requires IsRun(wapId, trace, events) && Enabled(wapId, trace[|events|], event)
    ensures IsRun(wapId, longer, more) && trace <= longer && more == events + [event]
    ensures longer[|more|] == Step(wapId, trace[|events|], event)
  {
    longer, more := trace + [Step(wapId, trace[|events|], event)], events + [event];
  }

  /** A table with data on main that nobody has used this wap id on, and two writes. */
  ghost predicate Ready(wapId: string, table: Metadata, files: seq<DataFile>, id: SnapshotId) {
    && wapId != MAIN && wapId != "" && table.RefsResolve() && MAIN in table.refs
    && !HasWapId(table, wapId) && wapId !in table.refs
    && files != [] && id !in table.snapshots
  }

  function Branched(wapId: string, table: Metadata): Metadata
    requires MAIN in table.refs
  {
    table.(refs := table.refs[wapId := table.refs[MAIN]])
  }

  function WrittenOn(wapId: string, table: Metadata, files: seq<DataFile>, id: SnapshotId): Metadata {
    Metadata(table.snapshots[id := AppendSnapshot(table, wapId, files, id, Some(wapId))], table.refs[wapId := id],
             table.NextSeqNum())
  }

  lemma {:induction false} CreatesOn(wapId: string, base: Metadata, table: Metadata)
    requires wapId != MAIN && wapId != "" && LoadedBefore(base, table) && MAIN in base.refs && wapId !in table.refs
    ensures CreateBranch(base, wapId).Ok? && CreateBranch(base, wapId).value.Some?
    ensures Asked(wapId, CreateCall(base)) == CreateBranch(base, wapId).value
    ensures Commit(table, Asked(wapId, CreateCall(base)).value).Ok?
    ensures Landing(wapId, table, CreateCall(base)) == table.(refs := table.refs[wapId := base.refs[MAIN]])
  {
    CommitOfCreate(table, base, wapId);
  }

  lemma {:induction false} WritesOn(wapId: string, table: Metadata, files: seq<DataFile>, id: SnapshotId)
    requires wapId != MAIN && wapId != "" && files != [] && id !in table.snapshots
    ensures Asked(wapId, CommitCall(table, files, id)).Some?
    ensures Commit(table, Asked(wapId, CommitCall(table, files, id)).value).Ok?
    ensures Landing(wapId, table, CommitCall(table, files, id)) == WrittenOn(wapId, table, files, id)
    ensures id in Carriers(WrittenOn(wapId, table, files, id), wapId)
  {
    CommitOfAdvance(table, table, wapId, AppendSnapshot(table, wapId, files, id, Some(wapId)));
  }

  lemma {:induction false} DeletesOn(wapId: string, table: Metadata)
    requires wapId != MAIN && wapId != ""
    ensures Asked(wapId, DeleteCall).Some? && Commit(table, Asked(wapId, DeleteCall).value).Ok?
    ensures Landing(wapId, table, DeleteCall) == table.(refs := table.refs - {wapId})
  {
    CommitOfDelete(table, wapId);
  }

  lemma {:induction false} PublishesOn(wapId: string, table: Metadata)
    requires wapId != MAIN && wapId != "" && table.RefsResolve() && wapId in table.refs
    ensures Asked(wapId, PublishCall(table)).Some? && Commit(table, Asked(wapId, PublishCall(table)).value).Ok?
    ensures Landing(wapId, table, PublishCall(table)) ==
            table.(refs := table.refs[MAIN := table.refs[wapId]] - {wapId})
  {
    CommitOfPublish(table, table, wapId);
  }

  /** The state after a first process created its branch and sent its commit, which has not landed. */
  function Abandoned(wapId: string, table: Metadata, files: seq<DataFile>, id: SnapshotId): State
    requires MAIN in table.refs
  {
    var branched := Branched(wapId, table);
    State(branched, Down, MainIds(table), [CommitCall(branched, files, id)], {0})
  }

  lemma {:induction false} CommitIsAbandoned(wapId: string, table: Metadata, files: seq<DataFile>, id: SnapshotId)
      returns (trace: seq<State>, events: seq<Event>)
    requires Ready(wapId, table, files, id)
    ensures IsRun(wapId, trace, events) && trace[0].table == table
    ensures trace[|events|] == Abandoned(wapId, table, files, id)
  {
    var branched := Branched(wapId, table);
    trace, events := [State(table, Down, MainIds(table), [], {})], [];
    trace, events := Extend(wapId, trace, events, Restart);
    CreatesOn(wapId, table, table);
    trace, events := Extend(wapId, trace, events, DoCreate(Answered));
    assert trace[2] == State(branched, Writing, MainIds(table), [], {});
    trace, events := Extend(wapId, trace, events, StartWrite(1, files));
    WritesOn(wapId, branched, files, id);
    trace, events := Extend(wapId, trace, events, DoCommit(id, Late));
    trace, events := Extend(wapId, trace, events, Crash);
  }

  /** The table after a late commit landed on the branch and a later process deleted that as stale. */
  function Orphaned(wapId: string, table: Metadata, files: seq<DataFile>, id: SnapshotId): Metadata
    requires MAIN in table.refs
  {
    var written := WrittenOn(wapId, Branched(wapId, table), files, id);
    written.(refs := written.refs - {wapId})
  }

  lemma {:induction false} OnlyNewCarrier(wapId: string, table: Metadata, files: seq<DataFile>, id: SnapshotId)
    requires !HasWapId(table, wapId)
    ensures Carriers(WrittenOn(wapId, table, files, id), wapId) == {id}
  {
    HasCarrier(table, wapId);
    var written := WrittenOn(wapId, table, files, id);
    forall c ensures c in Carriers(written, wapId) <==> c in {id} {
      assert c in Carriers(written, wapId) && c != id ==> c in Carriers(table, wapId);
    }
  }

  lemma {:induction false} CarriersAfterWrite(wapId: string, table: Metadata, files: seq<DataFile>, id: SnapshotId)
    requires Ready(wapId, table, files, id)
    ensures Carriers(WrittenOn(wapId, Branched(wapId, table), files, id), wapId) == {id}
    ensures Carriers(Orphaned(wapId, table, files, id), wapId) == {id}
    ensures StateOf(Branched(wapId, table), wapId) == StaleBranch
    ensures StateOf(Orphaned(wapId, table, files, id), wapId) == AlreadyPublished
  {
    OnlyNewCarrier(wapId, Branched(wapId, table), files, id);
    CarrierHasId(Orphaned(wapId, table, files, id), wapId, id);
  }

  /**
   A commit lands between the start of the next process, which has taken the
   branch for a stale one, and its deletion: `begin` then answers Complete
   although main has never had the data.
   */
  lemma {:induction false} LateCommitIsOrphaned(wapId: string, table: Metadata, files: seq<DataFile>, id: SnapshotId)
      returns (trace: seq<State>, events: seq<Event>)
    requires Ready(wapId, table, files, id)
    ensures IsRun(wapId, trace, events) && trace[0].table == table
    ensures var s := trace[|events|];
            && s.table == Orphaned(wapId, table, files, id) && s.client == Recreating
            && BeginOn(s.table, wapId).Finished? && !Published(wapId, s) && s.table.Ref(MAIN) == table.Ref(MAIN)
  {
    trace, events := CommitIsAbandoned(wapId, table, files, id);
    var branched := Branched(wapId, table);
    CarriersAfterWrite(wapId, table, files, id);
    WritesOn(wapId, branched, files, id);
    DeletesOn(wapId, WrittenOn(wapId, branched, files, id));
    trace, events := Extend(wapId, trace, events, Restart);
    trace, events := Extend(wapId, trace, events, Land(0));
    trace, events := Extend(wapId, trace, events, DoDelete(Answered));
    assert id !in MainIds(table) && MainIds(trace[|events|].table) == MainIds(table);
    assert trace[|events|].everMain == MainIds(table);
  }

  /** If that process goes on instead, it writes the data a second time. */
  lemma {:induction false} LateCommitIsDoubled(wapId: string, table: Metadata, files: seq<DataFile>, id: SnapshotId,
                                               again: seq<DataFile>, other: SnapshotId)
      returns (trace: seq<State>, events: seq<Event>)
    requires Ready(wapId, table, files, id) && again != [] && other !in table.snapshots && other != id
    ensures IsRun(wapId, trace, events) && trace[0].table == table
    ensures {id, other} <= Carriers(trace[|events|].table, wapId)
  {
    trace, events := LateCommitIsOrphaned(wapId, table, files, id);
    var orphaned := Orphaned(wapId, table, files, id);
    CarriersAfterWrite(wapId, table, files, id);
    trace, events := Extend(wapId, trace, events, ReloadForCreate);
    CreatesOn(wapId, orphaned, orphaned);
    trace, events := Extend(wapId, trace, events, DoCreate(Answered));
    var branched := Branched(wapId, orphaned);
    assert trace[|events|].table == branched && trace[|events|].client == Writing;
    trace, events := Extend(wapId, trace, events, StartWrite(1, again));
    WritesOn(wapId, branched, again, other);
    trace, events := Extend(wapId, trace, events, DoCommit(other, Answered));
    assert id in Carriers(orphaned, wapId);
    assert id in Carriers(WrittenOn(wapId, branched, again, other), wapId);
  }

  /** The table after the data was written and published. */
  function Moved(wapId: string, table: Metadata, files: seq<DataFile>, id: SnapshotId): Metadata
    requires MAIN in table.refs
  {
    var written := WrittenOn(wapId, Branched(wapId, table), files, id);
    written.(refs := written.refs[MAIN := id] - {wapId})
  }

  lemma {:induction false} CreatedAgain(wapId: string, table: Metadata)
      returns (trace: seq<State>, events: seq<Event>)
    requires wapId != MAIN && wapId != "" && table.RefsResolve() && MAIN in table.refs
    requires !HasWapId(table, wapId) && wapId !in table.refs
    ensures IsRun(wapId, trace, events) && trace[0].table == table
    ensures trace[|events|] == State(Branched(wapId, table), Writing, MainIds(table), [CreateCall(table)], {0})
  {
    trace, events := [State(table, Down, MainIds(table), [], {})], [];
    trace, events := Extend(wapId, trace, events, Restart);
    CreatesOn(wapId, table, table);
    trace, events := Extend(wapId, trace, events, DoCreate(Late));
    trace, events := Extend(wapId, trace, events, Restart);
    trace, events := Extend(wapId, trace, events, DoCreate(Answered));
  }

  lemma {:induction false} PublishedAfterLateCreate(wapId: string, table: Metadata, files: seq<DataFile>,
                                                    id: SnapshotId)
      returns (trace: seq<State>, events: seq<Event>)
    requires Ready(wapId, table, files, id)
    ensures IsRun(wapId, trace, events) && trace[0].table == table
    ensures trace[|events|] == State(Moved(wapId, table, files, id), Finished, MainIds(table) + {id},
                                     [CreateCall(table)], {0})
  {
    var branched := Branched(wapId, table);
    var written := WrittenOn(wapId, branched, files, id);
    trace, events := CreatedAgain(wapId, table);
    trace, events := Extend(wapId, trace, events, StartWrite(1, files));
    WritesOn(wapId, branched, files, id);
    trace, events := Extend(wapId, trace, events, DoCommit(id, Answered));
    assert trace[|events|] == State(written, Publishing, MainIds(table), [CreateCall(table)], {0});
    trace, events := Extend(wapId, trace, events, StartPublish);
    PublishesOn(wapId, written);
    trace, events := Extend(wapId, trace, events, DoPublish(Answered));
  }

  /** The table once the late creation has brought the branch back. */
  function BroughtBack(wapId: string, table: Metadata, files: seq<DataFile>, id: SnapshotId): Metadata
    requires MAIN in table.refs
  {
    var moved := Moved(wapId, table, files, id);
    moved.(refs := moved.refs[wapId := table.refs[MAIN]])
  }

  lemma {:induction false} MistakenForWritten(wapId: string, table: Metadata, files: seq<DataFile>, id: SnapshotId)
      returns (trace: seq<State>, events: seq<Event>)
    requires Ready(wapId, table, files, id)
    ensures IsRun(wapId, trace, events) && trace[0].table == table
    ensures trace[|events|].table == BroughtBack(wapId, table, files, id) && trace[|events|].client == Publishing
    ensures id in trace[|events|].everMain && id in Carriers(trace[|events|].table, wapId)
  {
    trace, events := PublishedAfterLateCreate(wapId, table, files, id);
    var back := BroughtBack(wapId, table, files, id);
    CarriersAfterWrite(wapId, table, files, id);
    CreatesOn(wapId, table, Moved(wapId, table, files, id));
    trace, events := Extend(wapId, trace, events, Land(0));
    assert trace[|events|].table == back;
    trace, events := Extend(wapId, trace, events, Crash);
    assert id in Carriers(back, wapId);
    CarrierHasId(back, wapId, id);
    trace, events := Extend(wapId, trace, events, Restart);
  }

  /**
   A creation lands after everything was published and brings the branch back
   at the main of before: the next process takes that for the written data,
   and its publish takes the data off main.
   */
  lemma {:induction false} LateCreateMovesMainBack(wapId: string, table: Metadata, files: seq<DataFile>,
                                                   id: SnapshotId)
      returns (trace: seq<State>, events: seq<Event>)
    requires Ready(wapId, table, files, id)
    ensures IsRun(wapId, trace, events) && trace[0].table == table
    ensures var s := trace[|events|];
            && s.client == Finished && Published(wapId, s) && s.table.Ref(MAIN) == table.Ref(MAIN)
            && s.table.Ref(MAIN) != Some(id)
  {
    trace, events := MistakenForWritten(wapId, table, files, id);
    trace, events := Extend(wapId, trace, events, StartPublish);
    PublishesOn(wapId, BroughtBack(wapId, table, files, id));
    trace, events := Extend(wapId, trace, events, DoPublish(Answered));
    assert id in Carriers(trace[|events|].table, wapId) && id in trace[|events|].everMain;
  }

  /** Clients of other branches do nothing that `OthersMay` rules out. */
  lemma {:induction false} OtherBranchesKeepOff(wapId: string, table: Metadata, base: Metadata, action: Action)
    requires wapId != MAIN && WellFormed(table) && WellFormed(base) && LoadedBefore(base, table)
    requires !action.AppendToMain? && !action.RewriteMain? ==> action.name != wapId
    requires action.Write? ==> action.wapId != wapId
    ensures OthersMay(wapId, table, Next(table, base, action))
  {
    NextKeepsTables(table, base, action);
    NextShape(table, base, action);
  }
}
