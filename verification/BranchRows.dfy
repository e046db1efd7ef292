/**
 Publishing a branch, counted in rows: with compactions on main files come and
 go, but the rows of a snapshot are those of the appends it descends from.
 */
module BranchRows {
  import opened Wrappers
  import opened Catalog
  import opened CatalogServer
  import opened Rewrite
  import opened Branch

  /** The rows that a snapshot holds. */
  function SnapshotRows(table: Metadata, id: SnapshotId): multiset<Row>
    requires id in table.snapshots
  {
    TableRows(table.snapshots[id].manifests)
  }

  /** The rows that an append brought in: those of the manifest it added. */
  function OwnRows(table: Metadata, id: SnapshotId): multiset<Row>
    requires id in table.snapshots
  {
    var s := table.snapshots[id];
    if s.operation == Append && s.manifests != [] then RowsOf(AliveOf(s.manifests[0].entries)) else multiset{}
  }

  function ParentRows(table: Metadata, id: SnapshotId): multiset<Row>
    requires WellFormed(table) && id in table.snapshots
  {
    match table.snapshots[id].parent
    case None => multiset{}
    case Some(parent) => SnapshotRows(table, parent)
  }

  /** The rows of all appends that a snapshot descends from, itself included. */
  function LineRows(table: Metadata, id: SnapshotId): multiset<Row>
    requires WellFormed(table) && id in table.snapshots
    decreases table.snapshots[id].seqNum
  {
    match table.snapshots[id].parent
    case None => OwnRows(table, id)
    case Some(parent) => OwnRows(table, id) + LineRows(table, parent)
  }

  // ------------------------------------------------------------------
  // Runs whose rewrites keep the rows
  // ------------------------------------------------------------------

  /** The rewrite puts back what it takes, and takes it from unmixed manifests. */
  ghost predicate KeepsRows(base: Metadata, action: Action) {
    action.RewriteMain? ==>
      var main := base.ManifestsOf(MAIN);
      && NoMixing(main, PathsOf(action.taken))
      && FileRows(action.files) == RowsOf(Select(LiveEntries(main), PathsOf(action.taken)))
  }

  ghost predicate RowPreserving(trace: seq<Metadata>, events: seq<Event>)
    requires IsRun(trace, events)
  {
    forall i :: 0 <= i < |events| ==> KeepsRows(trace[events[i].loaded], events[i].action)
  }

  ghost predicate RowsAddUp(table: Metadata) {
    WellFormed(table) &&
    forall x <- table.snapshots :: SnapshotRows(table, x) == OwnRows(table, x) + ParentRows(table, x)
  }

  lemma {:induction false} ManifestRows(files: seq<DataFile>, seqNum: nat)
    ensures RowsOf(AliveOf(AddedManifest(files, seqNum).entries)) == FileRows(files)
  {
    AllAlive(AddedEntries(files, seqNum));
    AddedRows(files, seqNum);
  }

  /** The rows of a new snapshot, against those of the ref it advances. */
  lemma {:induction false} NewSnapshotRows(base: Metadata, action: Action)
    requires FilesOfAction(action) != [] && KeepsRows(base, action)
    ensures var s := SnapshotOf(base, action);
            var parent := TableRows(base.ManifestsOf(RefOf(action)));
            if action.RewriteMain? then s.operation == Replace && TableRows(s.manifests) == parent
            else
              && s.operation == Append && s.manifests != []
              && RowsOf(AliveOf(s.manifests[0].entries)) == FileRows(FilesOfAction(action))
              && TableRows(s.manifests) == FileRows(FilesOfAction(action)) + parent
  {
    var parent, files := base.ManifestsOf(RefOf(action)), FilesOfAction(action);
    match action
    case RewriteMain(taken, _, _) => RewriteRows(parent, taken, files, base.NextSeqNum());
    case _ =>
      AppendLive(parent, files, base.NextSeqNum());
      ManifestRows(files, base.NextSeqNum());
  }

  lemma {:induction false} OldRowsStay(table: Metadata, next: Metadata, x: SnapshotId)
    requires WellFormed(table) && WellFormed(next) && LoadedBefore(table, next) && x in table.snapshots
    ensures x in next.snapshots && SnapshotRows(next, x) == SnapshotRows(table, x)
    ensures OwnRows(next, x) == OwnRows(table, x) && ParentRows(next, x) == ParentRows(table, x)
  {
  }

  lemma {:induction false} ParentIsThere(base: Metadata, table: Metadata, next: Metadata, name: string)
    requires LoadedBefore(base, table) && LoadedBefore(table, next) && name in base.refs
    ensures var parent := base.refs[name];
            && parent in base.snapshots && parent in next.snapshots
            && next.snapshots[parent].manifests == base.ManifestsOf(name)
  {
    var parent := base.refs[name];
    assert parent in base.snapshots;
    assert parent in table.snapshots && table.snapshots[parent] == base.snapshots[parent];
  }

  /** An append adds exactly the rows of its files, a rewrite none. */
  lemma {:induction false} NewRowsAddUp(base: Metadata, table: Metadata, next: Metadata, action: Action)
    requires LoadedBefore(base, table) && LoadedBefore(table, next) && WellFormed(next) && KeepsRows(base, action)
    requires FilesOfAction(action) != []
    requires var s := SnapshotOf(base, action); s.id in next.snapshots && next.snapshots[s.id] == s
    ensures var id := SnapshotOf(base, action).id;
            && OwnRows(next, id) == (if action.RewriteMain? then multiset{} else FileRows(FilesOfAction(action)))
            && SnapshotRows(next, id) == OwnRows(next, id) + ParentRows(next, id)
  {
    NewSnapshotRows(base, action);
    if RefOf(action) in base.refs {
      ParentIsThere(base, table, next, RefOf(action));
    }
  }

  lemma {:induction false} StepAddsUp(trace: seq<Metadata>, events: seq<Event>, n: nat)
    requires IsRun(trace, events) && RowPreserving(trace, events) && n < |events| && RowsAddUp(trace[n])
    ensures RowsAddUp(trace[n + 1])
  {
    StepTables(trace, events, n);
    var table, next := trace[n], trace[n + 1];
    var base, action := trace[events[n].loaded], events[n].action;
    NextShape(table, base, action);
    forall x | x in next.snapshots ensures SnapshotRows(next, x) == OwnRows(next, x) + ParentRows(next, x) {
      if x in table.snapshots {
        OldRowsStay(table, next, x);
      } else {
        NewRowsAddUp(base, table, next, action);
      }
    }
  }

  lemma {:induction false} RunAddsUp(trace: seq<Metadata>, events: seq<Event>, n: nat)
    requires IsRun(trace, events) && RowPreserving(trace, events) && n <= |events|
    ensures RowsAddUp(trace[n])
  {
    if n > 0 {
      RunAddsUp(trace, events, n - 1);
      StepAddsUp(trace, events, n - 1);
    }
  }

  /** A snapshot holds exactly the rows of the appends it descends from. */
  lemma {:induction false} RowsOfLine(table: Metadata, x: SnapshotId)
    requires RowsAddUp(table) && x in table.snapshots
    ensures SnapshotRows(table, x) == LineRows(table, x)
    decreases table.snapshots[x].seqNum
  {
    if table.snapshots[x].parent.Some? {
      RowsOfLine(table, table.snapshots[x].parent.value);
    }
  }

  // ------------------------------------------------------------------
  // Two lines
  // ------------------------------------------------------------------

  /** The rows of the appends that `x` descends from and `m` does not. */
  ghost function Beyond(table: Metadata, x: SnapshotId, m: SnapshotId): multiset<Row>
    requires WellFormed(table) && x in table.snapshots && m in table.snapshots
    decreases table.snapshots[x].seqNum
  {
    if Ancestor(table, x, m) then multiset{}
    else
      match table.snapshots[x].parent
      case None => OwnRows(table, x)
      case Some(parent) => OwnRows(table, x) + Beyond(table, parent, m)
  }

  /** The last snapshot that both descend from. */
  ghost function Join(table: Metadata, x: SnapshotId, m: SnapshotId): Option<SnapshotId>
    requires WellFormed(table) && x in table.snapshots && m in table.snapshots
    decreases table.snapshots[x].seqNum
  {
    if Ancestor(table, x, m) then Some(x)
    else
      match table.snapshots[x].parent
      case None => None
      case Some(parent) => Join(table, parent, m)
  }

  /** The join is the youngest common ancestor. */
  lemma {:induction false} JoinIsLast(table: Metadata, x: SnapshotId, m: SnapshotId)
    requires WellFormed(table) && x in table.snapshots && m in table.snapshots
    ensures match Join(table, x, m)
            case None => forall c :: !(Ancestor(table, c, x) && Ancestor(table, c, m))
            case Some(j) =>
              && j in table.snapshots && Ancestor(table, j, x) && Ancestor(table, j, m)
              && forall c :: Ancestor(table, c, x) && Ancestor(table, c, m) ==> Ancestor(table, c, j)
    decreases table.snapshots[x].seqNum
  {
    if !Ancestor(table, x, m) && table.snapshots[x].parent.Some? {
      JoinIsLast(table, table.snapshots[x].parent.value, m);
    }
  }

  lemma {:induction false} JoinIsSymmetric(table: Metadata, x: SnapshotId, m: SnapshotId)
    requires WellFormed(table) && x in table.snapshots && m in table.snapshots
    ensures Join(table, x, m) == Join(table, m, x)
  {
    JoinIsLast(table, x, m);
    JoinIsLast(table, m, x);
    match (Join(table, x, m), Join(table, m, x))
    case (Some(j), Some(k)) =>
      AncestorIsOlder(table, j, k);
      AncestorIsOlder(table, k, j);
    case _ =>
  }

  ghost function JoinRows(table: Metadata, x: SnapshotId, m: SnapshotId): multiset<Row>
    requires WellFormed(table) && x in table.snapshots && m in table.snapshots
  {
    match Join(table, x, m)
    case None => multiset{}
    case Some(j) => if j in table.snapshots then LineRows(table, j) else multiset{}
  }

  lemma {:induction false} LineSplits(table: Metadata, x: SnapshotId, m: SnapshotId)
    requires WellFormed(table) && x in table.snapshots && m in table.snapshots
    ensures LineRows(table, x) == Beyond(table, x, m) + JoinRows(table, x, m)
    decreases table.snapshots[x].seqNum
  {
    if !Ancestor(table, x, m) && table.snapshots[x].parent.Some? {
      LineSplits(table, table.snapshots[x].parent.value, m);
    }
  }

  /** What one line has beyond the other, and the other beyond it, make up the difference. */
  lemma {:induction false} LinesDiffer(table: Metadata, x: SnapshotId, m: SnapshotId)
    requires WellFormed(table) && x in table.snapshots && m in table.snapshots
    ensures LineRows(table, x) + Beyond(table, m, x) == LineRows(table, m) + Beyond(table, x, m)
  {
    LineSplits(table, x, m);
    LineSplits(table, m, x);
    JoinIsSymmetric(table, x, m);
  }

  /** Nothing lies beyond exactly when every append there is empty. */
  lemma {:induction false} NothingBeyond(table: Metadata, x: SnapshotId, m: SnapshotId)
    requires WellFormed(table) && x in table.snapshots && m in table.snapshots
    ensures Beyond(table, x, m) == multiset{} <==>
            forall y <- table.snapshots ::
              Ancestor(table, y, x) && !Ancestor(table, y, m) ==> OwnRows(table, y) == multiset{}
    decreases table.snapshots[x].seqNum
  {
    if Ancestor(table, x, m) {
      forall y | y in table.snapshots && Ancestor(table, y, x) ensures Ancestor(table, y, m) {
        AncestorsChain(table, y, x, m);
      }
    } else if table.snapshots[x].parent.Some? {
      NothingBeyond(table, table.snapshots[x].parent.value, m);
    }
  }

  // ------------------------------------------------------------------
  // A publish in rows
  // ------------------------------------------------------------------

  /**
   In every run whose rewrites keep the rows: a publish takes off main exactly
   the rows of the appends that main descends from and the branch does not,
   and adds those that only the branch descends from.
   */
  lemma {:induction false} PublishAccount(trace: seq<Metadata>, events: seq<Event>, n: nat)
    requires IsRun(trace, events) && RowPreserving(trace, events) && n < |events| && Publishes(trace, events, n)
    ensures var table, x := trace[n], PublishedId(trace, events, n);
            var m := table.refs[MAIN];
            && WellFormed(table) && x in table.snapshots && m in table.snapshots
            && TableRows(trace[n + 1].ManifestsOf(MAIN)) + Beyond(table, m, x) ==
               TableRows(table.ManifestsOf(MAIN)) + Beyond(table, x, m)
  {
    PublishOutcome(trace, events, n);
    StepTables(trace, events, n);
    RunAddsUp(trace, events, n);
    var table, x := trace[n], PublishedId(trace, events, n);
    var m := table.refs[MAIN];
    RowsOfLine(table, x);
    RowsOfLine(table, m);
    LinesDiffer(table, x, m);
    assert trace[n + 1].refs[MAIN] == x && trace[n + 1].snapshots[x] == table.snapshots[x];
  }

  /**
   So it takes nothing off main exactly when all appends of main that the
   branch does not descend from are empty; with an append of rows at main's
   snapshot that means that the branch descends from it.
   */
  lemma {:induction false} PublishTakesNothingExactly(trace: seq<Metadata>, events: seq<Event>, n: nat)
    requires IsRun(trace, events) && RowPreserving(trace, events) && n < |events| && Publishes(trace, events, n)
    ensures var table, x := trace[n], PublishedId(trace, events, n);
            && WellFormed(table) && x in table.snapshots && table.refs[MAIN] in table.snapshots
            && (Beyond(table, table.refs[MAIN], x) == multiset{} <==>
                  forall y <- table.snapshots :: Ancestor(table, y, table.refs[MAIN]) && !Ancestor(table, y, x) ==>
                    OwnRows(table, y) == multiset{})
            && (OwnRows(table, table.refs[MAIN]) != multiset{} ==>
                  (Beyond(table, table.refs[MAIN], x) == multiset{} <==> Ancestor(table, table.refs[MAIN], x)))
  {
    PublishOutcome(trace, events, n);
    NothingBeyond(trace[n], trace[n].refs[MAIN], PublishedId(trace, events, n));
  }
}
