/**
 A linear history of main: every snapshot is an append or a compaction rewrite
 of the one before it.
 */
module History {
  import opened Wrappers
  import opened Catalog
  import opened Rewrite

  datatype Change =
    | Appended(files: seq<DataFile>)
    | Rewrote(taken: seq<Entry>, files: seq<DataFile>)

  datatype History = History(snapshots: seq<Snapshot>, changes: seq<Change>)

  /** The manifest list that change number `i` started from. */
  function ParentOf(h: History, i: nat): seq<Manifest>
    requires i <= |h.snapshots|
  {
    if i == 0 then [] else h.snapshots[i - 1].manifests
  }

  function Applied(parent: seq<Manifest>, change: Change, seqNum: nat): seq<Manifest> {
    match change
    case Appended(files) => AppendManifests(parent, files, seqNum)
    case Rewrote(taken, files) => RewriteManifests(parent, taken, files, seqNum)
  }

  ghost predicate LinkAt(h: History, i: nat)
    requires i < |h.snapshots| == |h.changes|
  {
    var s := h.snapshots[i];
    && s.manifests == Applied(ParentOf(h, i), h.changes[i], s.seqNum)
    && s.operation == (if h.changes[i].Appended? then Append else Replace)
    && s.parent == (if i == 0 then None else Some(h.snapshots[i - 1].id))
    && DistinctFiles(h.changes[i].files)
  }

  /** Data files get fresh names: no two changes add the same path. */
  ghost predicate Linear(h: History) {
    && |h.snapshots| == |h.changes|
    && (forall i :: 0 <= i < |h.snapshots| ==> LinkAt(h, i))
    && (forall i, j :: 0 <= i < j < |h.snapshots| ==>
          h.snapshots[i].seqNum < h.snapshots[j].seqNum && h.snapshots[i].id != h.snapshots[j].id)
    && (forall i, j :: 0 <= i < j < |h.changes| ==> FilePaths(h.changes[i].files) !! FilePaths(h.changes[j].files))
  }

  /** No snapshot of the history has expired from the table. */
  ghost predicate Retains(table: Metadata, h: History) {
    forall i :: 0 <= i < |h.snapshots| ==>
      h.snapshots[i].id in table.snapshots && table.snapshots[h.snapshots[i].id] == h.snapshots[i]
  }

  ghost predicate AppendOnly(h: History) {
    forall i :: 0 <= i < |h.changes| ==> h.changes[i].Appended?
  }

  function Live(h: History, i: nat): seq<Entry>
    requires i < |h.snapshots|
  {
    LiveEntries(h.snapshots[i].manifests)
  }

  /** The paths that became live with snapshot `i`. */
  function NewAt(h: History, i: nat): set<Path>
    requires i < |h.snapshots|
  {
    PathsOf(Live(h, i)) - LivePaths(ParentOf(h, i))
  }

  // ------------------------------------------------------------------
  // Where manifests and live entries come from
  // ------------------------------------------------------------------

  /** Manifest `m` was written by change `k`. */
  ghost predicate WrittenBy(h: History, m: Manifest, k: nat)
    requires k < |h.snapshots| == |h.changes|
  {
    var seqNum := h.snapshots[k].seqNum;
    || m == AddedManifest(h.changes[k].files, seqNum)
    || (h.changes[k].Rewrote? && m == DeletedManifest(h.changes[k].taken, seqNum))
  }

  lemma {:induction false} ManifestOrigin(h: History, i: nat, m: Manifest) returns (k: nat)
    requires Linear(h) && i < |h.snapshots| && m in h.snapshots[i].manifests
    ensures k <= i && WrittenBy(h, m, k)
  {
    var parent := ParentOf(h, i);
    assert LinkAt(h, i);
    if WrittenBy(h, m, i) {
      k := i;
    } else {
      match h.changes[i]
      case Appended(files) =>
        CarriedKeepsLive(parent);
        assert m in Carried(parent);
        k := ManifestOrigin(h, i - 1, m);
      case Rewrote(taken, files) =>
        assert m in Survivors(parent, PathsOf(taken));
        SurvivorMember(parent, PathsOf(taken), m);
        k := ManifestOrigin(h, i - 1, m);
    }
  }

  /** A live entry sits in the manifest of added files of exactly one change. */
  lemma {:induction false} LiveOrigin(h: History, i: nat, e: Entry) returns (k: nat)
    requires Linear(h) && i < |h.snapshots| && e in Live(h, i)
    ensures k <= i && e.file in h.changes[k].files && e == Entry(Added, e.file, h.snapshots[k].seqNum)
    ensures AddedManifest(h.changes[k].files, h.snapshots[k].seqNum) in h.snapshots[i].manifests
    ensures forall j :: 0 <= j < |h.changes| && e.file.path in FilePaths(h.changes[j].files) ==> j == k
  {
    LiveMember(h.snapshots[i].manifests, e);
    var m :| m in h.snapshots[i].manifests && e in m.entries && e.IsAlive();
    k := ManifestOrigin(h, i, m);
    assert e.file.path in FilePaths(h.changes[k].files);
  }

  /** What a change adds was not live before. */
  lemma {:induction false} FreshInHistory(h: History, i: nat)
    requires Linear(h) && i < |h.snapshots|
    ensures FilePaths(h.changes[i].files) !! LivePaths(ParentOf(h, i))
  {
    forall p | p in LivePaths(ParentOf(h, i)) ensures p !in FilePaths(h.changes[i].files) {
      var e :| e in LiveEntries(ParentOf(h, i)) && e.file.path == p;
      var k := LiveOrigin(h, i - 1, e);
    }
  }

  lemma {:induction false} LiveDistinct(h: History, i: nat)
    requires Linear(h) && i < |h.snapshots|
    ensures DistinctPaths(Live(h, i))
    ensures forall e <- Live(h, i) :: exists k :: 0 <= k <= i && e.file in h.changes[k].files
  {
    forall e | e in Live(h, i) ensures exists k :: 0 <= k <= i && e.file in h.changes[k].files {
      var k := LiveOrigin(h, i, e);
    }
    if i > 0 {
      LiveDistinct(h, i - 1);
    }
    FreshInHistory(h, i);
    assert LinkAt(h, i);
    ChangeKeepsDistinct(ParentOf(h, i), h.changes[i], h.snapshots[i].seqNum);
  }

  lemma {:induction false} ChangeKeepsDistinct(parent: seq<Manifest>, change: Change, seqNum: nat)
    requires DistinctPaths(LiveEntries(parent)) && DistinctFiles(change.files)
    requires FilePaths(change.files) !! LivePaths(parent)
    ensures DistinctPaths(LiveEntries(Applied(parent, change, seqNum)))
  {
    AddedRows(change.files, seqNum);
    match change
    case Appended(files) =>
      AppendLive(parent, files, seqNum);
      DistinctConcat(AddedEntries(files, seqNum), LiveEntries(parent));
    case Rewrote(taken, files) =>
      RewriteLive(parent, taken, files, seqNum);
      SurvivorsDistinct(parent, PathsOf(taken));
      DistinctConcat(LiveEntries(Survivors(parent, PathsOf(taken))), AddedEntries(files, seqNum));
  }

  lemma {:induction false} SurvivorsDistinct(manifests: seq<Manifest>, paths: set<Path>)
    requires DistinctPaths(LiveEntries(manifests))
    ensures DistinctPaths(LiveEntries(Survivors(manifests, paths)))
    ensures PathsOf(LiveEntries(Survivors(manifests, paths))) <= LivePaths(manifests)
  {
    if manifests != [] {
      var first, rest := AliveOf(manifests[0].entries), LiveEntries(manifests[1..]);
      assert LiveEntries(manifests) == first + rest;
      assert DistinctPaths(rest) by {
        forall i, j | 0 <= i < j < |rest| ensures rest[i].file.path != rest[j].file.path {
          assert (first + rest)[|first| + i] == rest[i] && (first + rest)[|first| + j] == rest[j];
        }
      }
      SurvivorsDistinct(manifests[1..], paths);
      assert PathsOf(rest) <= PathsOf(first + rest);
      if !Dominated(manifests[0], paths) {
        assert DistinctPaths(first) by {
          forall i, j | 0 <= i < j < |first| ensures first[i].file.path != first[j].file.path {
            assert (first + rest)[i] == first[i] && (first + rest)[j] == first[j];
          }
        }
        assert PathsOf(first) !! PathsOf(rest) by {
          forall i, j | 0 <= i < |first| && 0 <= j < |rest| ensures first[i].file.path != rest[j].file.path {
            assert (first + rest)[i] == first[i] && (first + rest)[|first| + j] == rest[j];
          }
        }
        var kept := LiveEntries(Survivors(manifests[1..], paths));
        DistinctConcat(first, kept);
        assert Survivors(manifests, paths)[1..] == Survivors(manifests[1..], paths);
        assert LiveEntries(Survivors(manifests, paths)) == first + kept;
      }
    }
  }

  /** What an append or a rewrite makes live is what it wrote. */
  lemma {:induction false} NewAtIsWritten(h: History, i: nat)
    requires Linear(h) && i < |h.snapshots|
    ensures NewAt(h, i) == FilePaths(h.changes[i].files)
  {
    assert LinkAt(h, i);
    var parent, seqNum, files := ParentOf(h, i), h.snapshots[i].seqNum, h.changes[i].files;
    FreshInHistory(h, i);
    AddedRows(files, seqNum);
    match h.changes[i]
    case Appended(_) =>
      AppendLive(parent, files, seqNum);
    case Rewrote(taken, _) =>
      RewriteLive(parent, taken, files, seqNum);
      var kept := LiveEntries(Survivors(parent, PathsOf(taken)));
      assert PathsOf(kept + AddedEntries(files, seqNum)) == PathsOf(kept) + FilePaths(files);
      forall e | e in kept ensures e.file.path in LivePaths(parent) {
        LiveMember(Survivors(parent, PathsOf(taken)), e);
        var m :| m in Survivors(parent, PathsOf(taken)) && e in m.entries && e.IsAlive();
        SurvivorMember(parent, PathsOf(taken), m);
        LiveMember(parent, e);
      }
  }
}
