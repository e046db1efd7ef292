/**
 The abstract Iceberg table catalog that every actor works on: snapshots with
 their manifest lists, named refs, and an atomic commit that first checks its
 requirements and then applies its updates.

 Object stores, Avro files and HTTP are left out: a data file is a path, a
 partition value and the multiset of rows it holds, and never changes.
 */
module Catalog {
  import opened Wrappers

  type Path = nat
  type Row = int
  type Partition = int
  type SnapshotId = int

  const MAIN := "main"

  datatype DataFile = DataFile(path: Path, partition: Partition, rows: multiset<Row>)

  datatype Status = Added | Existing | Deleted

  datatype Entry = Entry(status: Status, file: DataFile, seqNum: nat) {
    predicate IsAlive() {
      status != Deleted
    }
  }

  datatype Manifest = Manifest(seqNum: nat, entries: seq<Entry>)

  datatype Operation = Append | Replace

  datatype Snapshot = Snapshot(
    id: SnapshotId,
    parent: Option<SnapshotId>,
    seqNum: nat,
    operation: Operation,
    wapId: Option<string>,
    manifests: seq<Manifest>)

  datatype Metadata = Metadata(
    snapshots: map<SnapshotId, Snapshot>,
    refs: map<string, SnapshotId>,
    lastSeqNum: nat)
  {
    /** Refs always name existing snapshots. */
    predicate RefsResolve() {
      forall name <- refs :: refs[name] in snapshots
    }

    function Ref(name: string): Option<SnapshotId> {
      if name in refs then Some(refs[name]) else None
    }

    function SnapshotForRef(name: string): Option<Snapshot> {
      if name in refs && refs[name] in snapshots then Some(snapshots[refs[name]]) else None
    }

    /** The manifest list of the snapshot a ref names; nothing when there is no such ref. */
    function ManifestsOf(name: string): seq<Manifest> {
      match SnapshotForRef(name)
      case None => []
      case Some(s) => s.manifests
    }

    function NextSeqNum(): nat {
      lastSeqNum + 1
    }
  }

  const EMPTY_TABLE := Metadata(map[], map[], 0)

  /** Parents exist and are older than their children, so that walking parents ends. */
  ghost predicate WellFormed(table: Metadata) {
    && table.RefsResolve()
    && forall id <- table.snapshots ::
         var s := table.snapshots[id];
         && s.id == id
         && s.seqNum <= table.lastSeqNum
         && (s.parent.Some? ==>
               s.parent.value in table.snapshots && table.snapshots[s.parent.value].seqNum < s.seqNum)
  }

  // ------------------------------------------------------------------
  // Liveness, entry by entry
  // ------------------------------------------------------------------

  function AliveOf(entries: seq<Entry>): seq<Entry> {
    if entries == [] then []
    else if entries[0].IsAlive() then [entries[0]] + AliveOf(entries[1..])
    else AliveOf(entries[1..])
  }

  function LiveEntries(manifests: seq<Manifest>): seq<Entry> {
    if manifests == [] then []
    else AliveOf(manifests[0].entries) + LiveEntries(manifests[1..])
  }

  function PathsOf(entries: seq<Entry>): set<Path> {
    set e <- entries :: e.file.path
  }

  function FilePaths(files: seq<DataFile>): set<Path> {
    set f <- files :: f.path
  }

  function LivePaths(manifests: seq<Manifest>): set<Path> {
    PathsOf(LiveEntries(manifests))
  }

  function RowsOf(entries: seq<Entry>): multiset<Row> {
    if entries == [] then multiset{} else entries[0].file.rows + RowsOf(entries[1..])
  }

  function FileRows(files: seq<DataFile>): multiset<Row> {
    if files == [] then multiset{} else files[0].rows + FileRows(files[1..])
  }

  /** What a full scan of a manifest list returns. */
  function TableRows(manifests: seq<Manifest>): multiset<Row> {
    RowsOf(LiveEntries(manifests))
  }

  ghost predicate DistinctPaths(entries: seq<Entry>) {
    forall i, j :: 0 <= i < j < |entries| ==> entries[i].file.path != entries[j].file.path
  }

  ghost predicate DistinctFiles(files: seq<DataFile>) {
    forall i, j :: 0 <= i < j < |files| ==> files[i].path != files[j].path
  }

  // ------------------------------------------------------------------
  // Manifests that a writer produces
  // ------------------------------------------------------------------

  function AddedEntries(files: seq<DataFile>, seqNum: nat): (r: seq<Entry>) {
    seq(|files|, i requires 0 <= i < |files| => Entry(Added, files[i], seqNum))
  }

  function AddedManifest(files: seq<DataFile>, seqNum: nat): Manifest {
    Manifest(seqNum, AddedEntries(files, seqNum))
  }

  /** A delete entry keeps the sequence number of the entry it removes. */
  function DeletedManifest(entries: seq<Entry>, seqNum: nat): Manifest {
    Manifest(seqNum, seq(|entries|, i requires 0 <= i < |entries| =>
      Entry(Deleted, entries[i].file, entries[i].seqNum)))
  }

  /**
   The parent manifests an append carries forward verbatim: those that hold an
   added or an existing file, which is to say an alive entry.
   */
  function Carried(manifests: seq<Manifest>): seq<Manifest> {
    if manifests == [] then []
    else if AliveOf(manifests[0].entries) != [] then [manifests[0]] + Carried(manifests[1..])
    else Carried(manifests[1..])
  }

  function AppendManifests(parent: seq<Manifest>, files: seq<DataFile>, seqNum: nat): seq<Manifest> {
    [AddedManifest(files, seqNum)] + Carried(parent)
  }

  // ------------------------------------------------------------------
  // Atomic commits
  // ------------------------------------------------------------------

  datatype Requirement = RefSnapshotIdMatch(name: string, id: Option<SnapshotId>)

  datatype Update =
    | AddSnapshot(snapshot: Snapshot)
    | SetSnapshotRef(name: string, id: SnapshotId)
    | RemoveSnapshotRef(removed: string)

  datatype Request = Request(requirements: seq<Requirement>, updates: seq<Update>)

  datatype CommitError = Conflict | Invalid

  predicate Met(table: Metadata, requirement: Requirement) {
    table.Ref(requirement.name) == requirement.id
  }

  /**
   A snapshot id is never reused and sequence numbers only grow (Apache
   Iceberg Table Spec, section "Sequence Numbers"); a ref can only be set to a
   snapshot that exists.
   */
  function ApplyUpdate(table: Metadata, update: Update): Option<Metadata> {
    match update
    case AddSnapshot(s) =>
      if s.id in table.snapshots || s.seqNum <= table.lastSeqNum then None
      else Some(table.(snapshots := table.snapshots[s.id := s], lastSeqNum := s.seqNum))
    case SetSnapshotRef(name, id) =>
      if id !in table.snapshots then None else Some(table.(refs := table.refs[name := id]))
    case RemoveSnapshotRef(name) =>
      Some(table.(refs := table.refs - {name}))
  }

  function ApplyUpdates(table: Metadata, updates: seq<Update>): Option<Metadata>
    decreases |updates|
  {
    if updates == [] then Some(table)
    else match ApplyUpdate(table, updates[0])
      case None => None
      case Some(next) => ApplyUpdates(next, updates[1..])
  }

  function Commit(table: Metadata, request: Request): Result<Metadata, CommitError> {
    if exists r <- request.requirements :: !Met(table, r) then Err(Conflict)
    else match ApplyUpdates(table, request.updates)
      case None => Err(Invalid)
      case Some(next) => Ok(next)
  }

  /** The table after a request was answered: a refused request changes nothing. */
  function After(table: Metadata, request: Request): Metadata {
    match Commit(table, request)
    case Ok(next) => next
    case Err(_) => table
  }

  /** Every request that advances `name` from the snapshot `base` has there to `s`. */
  function AdvanceRequest(base: Metadata, name: string, s: Snapshot): Request {
    Request([RefSnapshotIdMatch(name, base.Ref(name))],
            [AddSnapshot(s), SetSnapshotRef(name, s.id)])
  }

  /** A fast append of `files` to the ref `name`, as a client that loaded `base` builds it. */
  function AppendSnapshot(base: Metadata, name: string, files: seq<DataFile>, id: SnapshotId,
                          wapId: Option<string>): Snapshot
  {
    Snapshot(id, base.Ref(name), base.NextSeqNum(), Append, wapId,
             AppendManifests(base.ManifestsOf(name), files, base.NextSeqNum()))
  }

  // ------------------------------------------------------------------
  // Lemmas
  // ------------------------------------------------------------------

  lemma {:induction false} CommitOfAdvance(table: Metadata, base: Metadata, name: string, s: Snapshot)
    ensures Commit(table, AdvanceRequest(base, name, s)) ==
            if table.Ref(name) != base.Ref(name) then Err(Conflict)
            else if s.id in table.snapshots || s.seqNum <= table.lastSeqNum then Err(Invalid)
            else Ok(Metadata(table.snapshots[s.id := s], table.refs[name := s.id], s.seqNum))
  {
    var request := AdvanceRequest(base, name, s);
    assert request.requirements[0] in request.requirements;
    if table.Ref(name) == base.Ref(name) {
      var added := ApplyUpdate(table, request.updates[0]);
      assert request.updates[1..] == [SetSnapshotRef(name, s.id)];
      if added.Some? {
        assert ApplyUpdates(added.value, [SetSnapshotRef(name, s.id)]) ==
               ApplyUpdates(added.value.(refs := table.refs[name := s.id]), []);
      }
    }
  }

  lemma {:induction false} AliveConcat(a: seq<Entry>, b: seq<Entry>)
    ensures AliveOf(a + b) == AliveOf(a) + AliveOf(b)
  {
    if a == [] {
      assert a + b == b;
    } else {
      assert (a + b)[1..] == a[1..] + b;
      AliveConcat(a[1..], b);
    }
  }

  lemma {:induction false} AliveMember(entries: seq<Entry>, e: Entry)
    ensures e in AliveOf(entries) <==> e in entries && e.IsAlive()
  {
    if entries != [] {
      AliveMember(entries[1..], e);
      assert entries == [entries[0]] + entries[1..];
    }
  }

  lemma {:induction false} LiveMember(manifests: seq<Manifest>, e: Entry)
    ensures e in LiveEntries(manifests) <==> exists m <- manifests :: e in m.entries && e.IsAlive()
  {
    if manifests != [] {
      LiveMember(manifests[1..], e);
      AliveMember(manifests[0].entries, e);
      assert forall m :: m in manifests <==> m == manifests[0] || m in manifests[1..];
    }
  }

  lemma {:induction false} LiveConcat(a: seq<Manifest>, b: seq<Manifest>)
    ensures LiveEntries(a + b) == LiveEntries(a) + LiveEntries(b)
  {
    if a == [] {
      assert a + b == b;
    } else {
      assert (a + b)[1..] == a[1..] + b;
      LiveConcat(a[1..], b);
    }
  }

  lemma {:induction false} RowsConcat(a: seq<Entry>, b: seq<Entry>)
    ensures RowsOf(a + b) == RowsOf(a) + RowsOf(b)
  {
    if a == [] {
      assert a + b == b;
    } else {
      assert (a + b)[1..] == a[1..] + b;
      RowsConcat(a[1..], b);
    }
  }

  lemma {:induction false} AllAlive(entries: seq<Entry>)
    requires forall e <- entries :: e.IsAlive()
    ensures AliveOf(entries) == entries
  {
    if entries != [] {
      AllAlive(entries[1..]);
    }
  }

  lemma {:induction false} NoneAlive(entries: seq<Entry>)
    requires forall e <- entries :: !e.IsAlive()
    ensures AliveOf(entries) == []
  {
    if entries != [] {
      NoneAlive(entries[1..]);
    }
  }

  lemma {:induction false} AddedRows(files: seq<DataFile>, seqNum: nat)
    ensures RowsOf(AddedEntries(files, seqNum)) == FileRows(files)
    ensures PathsOf(AddedEntries(files, seqNum)) == FilePaths(files)
  {
    if files != [] {
      AddedRows(files[1..], seqNum);
      assert AddedEntries(files, seqNum)[1..] == AddedEntries(files[1..], seqNum);
    }
    assert forall f :: f in files ==> Entry(Added, f, seqNum) in AddedEntries(files, seqNum) by {
      forall f | f in files ensures Entry(Added, f, seqNum) in AddedEntries(files, seqNum) {
        var i :| 0 <= i < |files| && files[i] == f;
        assert AddedEntries(files, seqNum)[i] == Entry(Added, f, seqNum);
      }
    }
  }

  lemma {:induction false} CarriedKeepsLive(manifests: seq<Manifest>)
    ensures LiveEntries(Carried(manifests)) == LiveEntries(manifests)
    ensures forall m <- Carried(manifests) :: m in manifests
  {
    if manifests != [] {
      CarriedKeepsLive(manifests[1..]);
      if AliveOf(manifests[0].entries) != [] {
        assert Carried(manifests)[1..] == Carried(manifests[1..]);
      } else {
        assert Carried(manifests) == Carried(manifests[1..]);
        assert LiveEntries(manifests) == LiveEntries(manifests[1..]);
      }
    }
  }

  /** An append puts exactly its own files in front of everything that was live. */
  lemma {:induction false} AppendLive(parent: seq<Manifest>, files: seq<DataFile>, seqNum: nat)
    ensures LiveEntries(AppendManifests(parent, files, seqNum)) == AddedEntries(files, seqNum) + LiveEntries(parent)
    ensures LivePaths(AppendManifests(parent, files, seqNum)) == FilePaths(files) + LivePaths(parent)
    ensures TableRows(AppendManifests(parent, files, seqNum)) == FileRows(files) + TableRows(parent)
  {
    var all := AppendManifests(parent, files, seqNum);
    AllAlive(AddedEntries(files, seqNum));
    CarriedKeepsLive(parent);
    assert all[1..] == Carried(parent);
    RowsConcat(AddedEntries(files, seqNum), LiveEntries(parent));
    AddedRows(files, seqNum);
  }
}
