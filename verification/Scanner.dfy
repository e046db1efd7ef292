/** Incremental scans: the files added between two snapshots of a table. */
module Scanner {
  import opened Wrappers
  import opened Catalog
  import opened Rewrite
  import opened History

  datatype ScanError = CheckpointNotFound | UpperBoundNotFound | NoCurrentSnapshot

  /** How far a parent walk can still go. */
  function WalkMeasure(table: Metadata, at: Option<SnapshotId>): nat {
    if at.Some? && at.value in table.snapshots then table.snapshots[at.value].seqNum + 1 else 0
  }

  /** Sequence numbers of the Replace snapshots from `at` back to `after`, along parents. */
  ghost function ReplaceSeqNums(table: Metadata, at: Option<SnapshotId>, after: SnapshotId): set<nat>
    requires WellFormed(table)
    decreases WalkMeasure(table, at)
  {
    if at.None? || at.value == after || at.value !in table.snapshots then {}
    else
      var s := table.snapshots[at.value];
      (if s.operation == Replace then {s.seqNum} else {}) + ReplaceSeqNums(table, s.parent, after)
  }

  predicate InWindow(seqNum: nat, afterSeq: nat, toSeq: nat) {
    afterSeq < seqNum <= toSeq
  }

  /** Paths added by manifests of the window that no compaction wrote. */
  ghost function NewFilePaths(manifests: seq<Manifest>, afterSeq: nat, toSeq: nat, replaced: set<nat>): set<Path> {
    set m <- manifests, e <- m.entries |
      && InWindow(m.seqNum, afterSeq, toSeq) && m.seqNum !in replaced
      && e.status == Added && InWindow(e.seqNum, afterSeq, toSeq)
      :: e.file.path
  }

  ghost function UpperBound(table: Metadata, toId: Option<SnapshotId>): Result<Snapshot, ScanError> {
    match toId
    case Some(id) => if id in table.snapshots then Ok(table.snapshots[id]) else Err(UpperBoundNotFound)
    case None =>
      match table.SnapshotForRef(MAIN)
      case Some(s) => Ok(s)
      case None => Err(NoCurrentSnapshot)
  }

  /** What a range scan plans to read. */
  ghost function Planned(table: Metadata, afterId: SnapshotId, to: Snapshot): seq<Entry>
    requires WellFormed(table) && afterId in table.snapshots
  {
    var afterSeq := table.snapshots[afterId].seqNum;
    if to.seqNum <= afterSeq then []
    else Select(LiveEntries(to.manifests),
                NewFilePaths(to.manifests, afterSeq, to.seqNum, ReplaceSeqNums(table, Some(to.id), afterId)))
  }

  method ScanSnapshotRange(table: Metadata, afterId: SnapshotId, toId: Option<SnapshotId>)
    returns (r: Result<seq<Entry>, ScanError>)
    requires WellFormed(table)
    ensures afterId !in table.snapshots ==> r == Err(CheckpointNotFound)
    ensures afterId in table.snapshots ==>
              match UpperBound(table, toId)
              case Err(e) => r == Err(e)
              case Ok(to) => r == Ok(Planned(table, afterId, to))
    ensures r == Err(UpperBoundNotFound) <==>
              afterId in table.snapshots && toId.Some? && toId.value !in table.snapshots
    ensures r == Err(NoCurrentSnapshot) <==> afterId in table.snapshots && toId.None? && MAIN !in table.refs
    ensures forall h: History, a: nat, t: nat ::
              Window(table, h, a, t, afterId, toId) ==> r.Ok? && ExactPlan(h, a, t, r.value)
  {
    forall h: History, a: nat, t: nat | Window(table, h, a, t, afterId, toId)
      ensures UpperBound(table, toId) == Ok(h.snapshots[t])
      ensures ExactPlan(h, a, t, Planned(table, afterId, h.snapshots[t]))
    {
      WindowIsPlanned(table, h, a, t, afterId, toId);
    }
    if afterId !in table.snapshots {
      return Err(CheckpointNotFound);
    }
    var afterSeq := table.snapshots[afterId].seqNum;
    var to: Snapshot;
    match toId {
      case Some(id) =>
        if id !in table.snapshots {
          return Err(UpperBoundNotFound);
        }
        to := table.snapshots[id];
      case None =>
        var current := table.SnapshotForRef(MAIN);
        if current.None? {
          return Err(NoCurrentSnapshot);
        }
        to := current.value;
    }
    if to.seqNum <= afterSeq {
      return Ok([]);
    }
    var replaced := CollectReplaceSeqNums(table, to.id, afterId);
    var paths := CollectNewFilePaths(to.manifests, afterSeq, to.seqNum, replaced);
    r := Ok(Select(LiveEntries(to.manifests), paths));
  }

  /** The walk ends because parents are older. */
  method CollectReplaceSeqNums(table: Metadata, toId: SnapshotId, after: SnapshotId) returns (replaced: set<nat>)
    requires WellFormed(table)
    ensures replaced == ReplaceSeqNums(table, Some(toId), after)
  {
    replaced := {};
    var at := Some(toId);
    while at.Some?
      invariant replaced + ReplaceSeqNums(table, at, after) == ReplaceSeqNums(table, Some(toId), after)
      decreases at.Some?, WalkMeasure(table, at)
    {
      var id := at.value;
      if id == after {
        break;
      }
      if id in table.snapshots {
        var s := table.snapshots[id];
        if s.operation == Replace {
          replaced := replaced + {s.seqNum};
        }
        at := s.parent;
      } else {
        break;
      }
    }
  }

  method CollectNewFilePaths(manifests: seq<Manifest>, afterSeq: nat, toSeq: nat, replaced: set<nat>)
    returns (paths: set<Path>)
    ensures paths == NewFilePaths(manifests, afterSeq, toSeq, replaced)
  {
    paths := {};
    for i := 0 to |manifests|
      invariant paths == NewFilePaths(manifests[..i], afterSeq, toSeq, replaced)
    {
      var m := manifests[i];
      ghost var before := paths;
      NewFilePathsSnoc(manifests[..i], m, afterSeq, toSeq, replaced);
      assert manifests[..i + 1] == manifests[..i] + [m];
      if !InWindow(m.seqNum, afterSeq, toSeq) || m.seqNum in replaced {
        continue;
      }
      for j := 0 to |m.entries|
        invariant paths == before + (set e <- m.entries[..j] |
                    e.status == Added && InWindow(e.seqNum, afterSeq, toSeq) :: e.file.path)
      {
        var e := m.entries[j];
        assert m.entries[..j + 1] == m.entries[..j] + [e];
        if e.status != Added || !InWindow(e.seqNum, afterSeq, toSeq) {
          continue;
        }
        paths := paths + {e.file.path};
      }
      assert m.entries[..|m.entries|] == m.entries;
    }
    assert manifests[..|manifests|] == manifests;
  }

  lemma {:induction false} NewFilePathsSnoc(manifests: seq<Manifest>, m: Manifest, afterSeq: nat, toSeq: nat,
                                            replaced: set<nat>)
    ensures NewFilePaths(manifests + [m], afterSeq, toSeq, replaced) ==
            NewFilePaths(manifests, afterSeq, toSeq, replaced) +
            if InWindow(m.seqNum, afterSeq, toSeq) && m.seqNum !in replaced
            then set e <- m.entries | e.status == Added && InWindow(e.seqNum, afterSeq, toSeq) :: e.file.path
            else {}
  {
    assert forall x :: x in manifests + [m] <==> x in manifests || x == m;
  }

  // ------------------------------------------------------------------
  // Exactness on a linear history
  // ------------------------------------------------------------------

  /** `p` was added by an append in the window `(a, t]`. */
  ghost predicate AppendedIn(h: History, a: nat, t: nat, p: Path)
    requires Linear(h) && t < |h.snapshots|
  {
    exists k :: a < k <= t && h.changes[k].Appended? && p in NewAt(h, k)
  }

  lemma {:induction false} ReplaceSeqNumsOfHistory(table: Metadata, h: History, a: nat, t: nat)
    requires WellFormed(table) && Linear(h) && Retains(table, h) && a <= t < |h.snapshots|
    ensures ReplaceSeqNums(table, Some(h.snapshots[t].id), h.snapshots[a].id) ==
            set k | a < k <= t && h.changes[k].Rewrote? :: h.snapshots[k].seqNum
  {
    assert LinkAt(h, t);
    if a < t {
      assert h.snapshots[t].id != h.snapshots[a].id;
      ReplaceSeqNumsOfHistory(table, h, a, t - 1);
    }
  }

  /**
   A window returns precisely the files that an append of the window made live
   and that are still live at its end.
   */
  lemma {:induction false} RangeScanIsExact(table: Metadata, h: History, a: nat, t: nat)
    requires WellFormed(table) && Linear(h) && Retains(table, h) && a <= t < |h.snapshots|
    ensures forall p :: p in PathsOf(Planned(table, h.snapshots[a].id, h.snapshots[t])) <==>
                        AppendedIn(h, a, t, p) && p in PathsOf(Live(h, t))
  {
    var plan := Planned(table, h.snapshots[a].id, h.snapshots[t]);
    if a < t {
      forall p ensures p in PathsOf(plan) <==> AppendedIn(h, a, t, p) && p in PathsOf(Live(h, t)) {
        if p in PathsOf(Live(h, t)) {
          LivePathInPlan(table, h, a, t, p);
        }
      }
    }
  }

  /** `plan` holds live entries only, and exactly those of paths appended in the window. */
  ghost predicate ExactPlan(h: History, a: nat, t: nat, plan: seq<Entry>)
    requires Linear(h) && t < |h.snapshots|
  {
    && (forall e <- plan :: e in Live(h, t))
    && (forall p :: p in PathsOf(plan) <==> AppendedIn(h, a, t, p) && p in PathsOf(Live(h, t)))
  }

  lemma {:induction false} PlanIsExact(table: Metadata, h: History, a: nat, t: nat)
    requires WellFormed(table) && Linear(h) && Retains(table, h) && a <= t < |h.snapshots|
    ensures ExactPlan(h, a, t, Planned(table, h.snapshots[a].id, h.snapshots[t]))
  {
    RangeScanIsExact(table, h, a, t);
    var plan, to := Planned(table, h.snapshots[a].id, h.snapshots[t]), h.snapshots[t];
    forall e | e in plan ensures e in Live(h, t) {
      SelectMember(Live(h, t), NewFilePaths(to.manifests, h.snapshots[a].seqNum, to.seqNum,
                                            ReplaceSeqNums(table, Some(to.id), h.snapshots[a].id)), e);
    }
  }

  /** The scan goes from one snapshot of the history to another, or to main's. */
  ghost predicate Window(table: Metadata, h: History, a: nat, t: nat, afterId: SnapshotId, toId: Option<SnapshotId>) {
    && Linear(h) && Retains(table, h) && a <= t < |h.snapshots|
    && afterId == h.snapshots[a].id
    && (if toId.Some? then toId.value == h.snapshots[t].id else table.Ref(MAIN) == Some(h.snapshots[t].id))
  }

  lemma {:induction false} WindowIsPlanned(table: Metadata, h: History, a: nat, t: nat, afterId: SnapshotId,
                                           toId: Option<SnapshotId>)
    requires WellFormed(table) && Window(table, h, a, t, afterId, toId)
    ensures UpperBound(table, toId) == Ok(h.snapshots[t])
    ensures ExactPlan(h, a, t, Planned(table, afterId, h.snapshots[t]))
  {
    PlanIsExact(table, h, a, t);
  }

  lemma {:induction false} PlannedPath(table: Metadata, h: History, a: nat, t: nat, p: Path)
    requires WellFormed(table) && Linear(h) && Retains(table, h) && a < t < |h.snapshots|
    requires p in PathsOf(Live(h, t))
    ensures var to := h.snapshots[t];
            p in PathsOf(Planned(table, h.snapshots[a].id, to)) <==>
            p in NewFilePaths(to.manifests, h.snapshots[a].seqNum, to.seqNum,
                              ReplaceSeqNums(table, Some(to.id), h.snapshots[a].id))
  {
    var to := h.snapshots[t];
    var paths := NewFilePaths(to.manifests, h.snapshots[a].seqNum, to.seqNum,
                              ReplaceSeqNums(table, Some(to.id), h.snapshots[a].id));
    var e :| e in Live(h, t) && e.file.path == p;
    SelectMember(Live(h, t), paths, e);
  }

  lemma {:induction false} NewPathWasAppended(h: History, a: nat, t: nat, e: Entry, m: Manifest, x: Entry)
    requires Linear(h) && a < t < |h.snapshots| && e in Live(h, t)
    requires m in h.snapshots[t].manifests && x in m.entries && x.status == Added && x.file.path == e.file.path
    requires InWindow(m.seqNum, h.snapshots[a].seqNum, h.snapshots[t].seqNum)
    requires forall k :: a < k <= t && h.changes[k].Rewrote? ==> m.seqNum != h.snapshots[k].seqNum
    ensures AppendedIn(h, a, t, e.file.path)
  {
    var k := LiveOrigin(h, t, e);
    NewAtIsWritten(h, k);
    var j := ManifestOrigin(h, t, m);
    assert x.file in h.changes[j].files;
    assert j == k;
    OrderBySeqNum(h, a, j);
  }

  lemma {:induction false} AppendedPathIsNew(h: History, a: nat, t: nat, e: Entry) returns (m: Manifest)
    requires Linear(h) && a < t < |h.snapshots| && e in Live(h, t) && AppendedIn(h, a, t, e.file.path)
    ensures m in h.snapshots[t].manifests && e in m.entries && e.status == Added && e.seqNum == m.seqNum
    ensures InWindow(m.seqNum, h.snapshots[a].seqNum, h.snapshots[t].seqNum)
    ensures forall k :: a < k <= t && h.changes[k].Rewrote? ==> m.seqNum != h.snapshots[k].seqNum
  {
    var k := LiveOrigin(h, t, e);
    var i :| a < i <= t && h.changes[i].Appended? && e.file.path in NewAt(h, i);
    NewAtIsWritten(h, i);
    assert i == k;
    m := AddedManifest(h.changes[k].files, h.snapshots[k].seqNum);
    var n :| 0 <= n < |h.changes[k].files| && h.changes[k].files[n] == e.file;
    assert m.entries[n] == e;
    OrderBySeqNum(h, a, k);
    OrderBySeqNum(h, k, t);
  }

  lemma {:induction false} LivePathInPlan(table: Metadata, h: History, a: nat, t: nat, p: Path)
    requires WellFormed(table) && Linear(h) && Retains(table, h) && a < t < |h.snapshots|
    requires p in PathsOf(Live(h, t))
    ensures p in PathsOf(Planned(table, h.snapshots[a].id, h.snapshots[t])) <==> AppendedIn(h, a, t, p)
  {
    var to, after := h.snapshots[t], h.snapshots[a].seqNum;
    PlannedPath(table, h, a, t, p);
    ReplaceSeqNumsOfHistory(table, h, a, t);
    var replaced := ReplaceSeqNums(table, Some(to.id), h.snapshots[a].id);
    var e :| e in Live(h, t) && e.file.path == p;
    if p in NewFilePaths(to.manifests, after, to.seqNum, replaced) {
      var m, x :| m in to.manifests && x in m.entries
        && InWindow(m.seqNum, after, to.seqNum) && m.seqNum !in replaced && x.status == Added && x.file.path == p;
      NewPathWasAppended(h, a, t, e, m, x);
    }
    if AppendedIn(h, a, t, p) {
      var m := AppendedPathIsNew(h, a, t, e);
      assert m.seqNum !in replaced;
      assert m in to.manifests && e in m.entries && e.status == Added && e.file.path == p;
      assert InWindow(m.seqNum, after, to.seqNum) && InWindow(e.seqNum, after, to.seqNum);
    }
  }

  /** On a linear history sequence numbers order snapshots. */
  lemma {:induction false} OrderBySeqNum(h: History, i: nat, j: nat)
    requires Linear(h) && i < |h.snapshots| && j < |h.snapshots|
    ensures i < j <==> h.snapshots[i].seqNum < h.snapshots[j].seqNum
    ensures i == j <==> h.snapshots[i].seqNum == h.snapshots[j].seqNum
  {
    if j < i {
      assert h.snapshots[j].seqNum < h.snapshots[i].seqNum;
    }
  }

  lemma {:induction false} AppendedIsNotRewritten(h: History, a: nat, t: nat, k: nat, p: Path)
    requires Linear(h) && t < |h.snapshots| && k < |h.snapshots| && h.changes[k].Rewrote? && AppendedIn(h, a, t, p)
    ensures p !in NewAt(h, k)
  {
    var i :| a < i <= t && h.changes[i].Appended? && p in NewAt(h, i);
    NewAtIsWritten(h, i);
    NewAtIsWritten(h, k);
    assert FilePaths(h.changes[i].files) !! FilePaths(h.changes[k].files);
  }

  /** A range scan never delivers what a compaction wrote. */
  lemma {:induction false} NoCompactionOutput(table: Metadata, h: History, a: nat, t: nat, k: nat)
    requires WellFormed(table) && Linear(h) && Retains(table, h) && a <= t < |h.snapshots|
    requires k < |h.snapshots| && h.changes[k].Rewrote?
    ensures PathsOf(Planned(table, h.snapshots[a].id, h.snapshots[t])) !! NewAt(h, k)
  {
    RangeScanIsExact(table, h, a, t);
    forall p | AppendedIn(h, a, t, p) ensures p !in NewAt(h, k) {
      AppendedIsNotRewritten(h, a, t, k, p);
    }
  }

  lemma {:induction false} AppendsKeepEverything(h: History, k: nat, t: nat)
    requires Linear(h) && AppendOnly(h) && k <= t < |h.snapshots|
    ensures PathsOf(Live(h, k)) <= PathsOf(Live(h, t))
  {
    if k < t {
      AppendsKeepEverything(h, k, t - 1);
      assert LinkAt(h, t);
      AppendLive(ParentOf(h, t), h.changes[t].files, h.snapshots[t].seqNum);
    }
  }

  /** With appends only, a window returns everything appended in it. */
  lemma {:induction false} AppendOnlyScan(table: Metadata, h: History, a: nat, t: nat, p: Path)
    requires WellFormed(table) && Linear(h) && Retains(table, h) && AppendOnly(h) && a <= t < |h.snapshots|
    ensures p in PathsOf(Planned(table, h.snapshots[a].id, h.snapshots[t])) <==> AppendedIn(h, a, t, p)
  {
    RangeScanIsExact(table, h, a, t);
    if AppendedIn(h, a, t, p) {
      var k :| a < k <= t && h.changes[k].Appended? && p in NewAt(h, k);
      AppendsKeepEverything(h, k, t);
    }
  }

  /** With appends only, consecutive windows split a longer one. */
  lemma {:induction false} WindowsCompose(table: Metadata, h: History, a: nat, b: nat, c: nat)
    requires WellFormed(table) && Linear(h) && Retains(table, h) && AppendOnly(h) && a <= b <= c < |h.snapshots|
    ensures var whole := PathsOf(Planned(table, h.snapshots[a].id, h.snapshots[c]));
            var first := PathsOf(Planned(table, h.snapshots[a].id, h.snapshots[b]));
            var second := PathsOf(Planned(table, h.snapshots[b].id, h.snapshots[c]));
            whole == first + second && first !! second
  {
    var whole := PathsOf(Planned(table, h.snapshots[a].id, h.snapshots[c]));
    var first := PathsOf(Planned(table, h.snapshots[a].id, h.snapshots[b]));
    var second := PathsOf(Planned(table, h.snapshots[b].id, h.snapshots[c]));
    forall p ensures p in whole <==> p in first || p in second
             ensures !(p in first && p in second) {
      AppendOnlyScan(table, h, a, c, p);
      AppendOnlyScan(table, h, a, b, p);
      AppendOnlyScan(table, h, b, c, p);
      if AppendedIn(h, a, b, p) && AppendedIn(h, b, c, p) {
        var i :| a < i <= b && p in NewAt(h, i);
        var j :| b < j <= c && p in NewAt(h, j);
        NewAtIsWritten(h, i);
        NewAtIsWritten(h, j);
      }
    }
  }
}
