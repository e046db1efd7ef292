/** The snapshot poller: checkpoint, one outstanding stream, acknowledgements. */
module IcebergPoller {
  import opened Wrappers
  import opened Catalog
  import opened Rewrite
  import opened History
  import opened Scanner

  /** What the poller finds in the one-shot channel of the stream it sent. */
  datatype Signal = Waiting | Acked | Dropped

  datatype SendResult = Delivered | TimedOut | ReceiverGone

  datatype PollOutcome = Continue | ConsumerGone | Failed(error: PollError)
  datatype PollError = LoadFailed | ScanFailed(error: ScanError)

  datatype IcebergStream = IcebergStream(snapshotId: SnapshotId, files: seq<Entry>)

  class IcebergPollerServer {
    var table: Metadata
    var lastSnapshotId: Option<SnapshotId>
    var pendingAck: Option<SnapshotId>

    constructor (loaded: Metadata, startAfter: Option<SnapshotId>)
      ensures table == loaded && lastSnapshotId == startAfter && pendingAck == None
    {
      table, lastSnapshotId, pendingAck := loaded, startAfter, None;
    }

    /**
     One poll. `signal` is the state of the acknowledgement channel, `loaded`
     what the catalog answers, `send` how the bounded send ends.
     */
    method PollOnce(signal: Signal, loaded: Option<Metadata>, send: SendResult)
      returns (outcome: PollOutcome, sent: Option<IcebergStream>)
      requires loaded.Some? ==> WellFormed(loaded.value)
      modifies this
      ensures var before := Poller(old(lastSnapshotId), old(pendingAck));
              (Poller(lastSnapshotId, pendingAck), outcome, sent) == Poll(before, signal, loaded, send)
      ensures PollAnswers(Poller(old(lastSnapshotId), old(pendingAck)), signal, loaded, send,
                          Poller(lastSnapshotId, pendingAck), outcome, sent)
      ensures table == if loaded.Some? && !StillWaiting(Poller(old(lastSnapshotId), old(pendingAck)), signal)
                       then loaded.value else old(table)
    {
      PollAnswersExactly(Poller(lastSnapshotId, pendingAck), signal, loaded, send);
      sent := None;
      if pendingAck.Some? {
        match signal {
          case Acked =>
            lastSnapshotId := pendingAck;
            pendingAck := None;
          case Waiting =>
            return Continue, None;
          case Dropped =>
            pendingAck := None;
        }
      }
      if loaded.None? {
        return Failed(LoadFailed), None;
      }
      table := loaded.value;
      var current := table.SnapshotForRef(MAIN);
      if current.None? {
        return Continue, None;
      }
      var currentId := current.value.id;
      if lastSnapshotId == Some(currentId) {
        return Continue, None;
      }
      var files: seq<Entry>;
      if lastSnapshotId.Some? {
        var scan := ScanSnapshotRange(table, lastSnapshotId.value, None);
        if scan.Err? {
          return Failed(ScanFailed(scan.error)), None;
        }
        files := scan.value;
      } else {
        files := CollectAlive(current.value.manifests);
      }
      match send {
        case Delivered =>
          pendingAck := Some(currentId);
          return Continue, Some(IcebergStream(currentId, files));
        case ReceiverGone =>
          return ConsumerGone, None;
        case TimedOut =>
          return Continue, None;
      }
    }
  }

  // ------------------------------------------------------------------
  // One poll as a function
  // ------------------------------------------------------------------

  datatype Poller = Poller(last: Option<SnapshotId>, pending: Option<SnapshotId>)

  /** The poller once it has looked at the acknowledgement channel. */
  function Settled(p: Poller, signal: Signal): Poller {
    if p.pending.None? || signal == Waiting then p
    else if signal == Acked then Poller(p.pending, None)
    else Poller(p.last, None)
  }

  /** The files of the next stream for a poller at `last`; nothing when there is no news. */
  ghost function NextStream(last: Option<SnapshotId>, table: Metadata): Result<Option<IcebergStream>, ScanError>
    requires WellFormed(table)
  {
    match table.SnapshotForRef(MAIN)
    case None => Ok(None)
    case Some(current) =>
      if last == Some(current.id) then Ok(None)
      else if last.None? then Ok(Some(IcebergStream(current.id, LiveEntries(current.manifests))))
      else if last.value !in table.snapshots then Err(CheckpointNotFound)
      else Ok(Some(IcebergStream(current.id, Planned(table, last.value, current))))
  }

  ghost function Poll(p: Poller, signal: Signal, loaded: Option<Metadata>, send: SendResult)
    : (Poller, PollOutcome, Option<IcebergStream>)
    requires loaded.Some? ==> WellFormed(loaded.value)
  {
    var settled := Settled(p, signal);
    if settled.pending.Some? then (settled, Continue, None)
    else if loaded.None? then (settled, Failed(LoadFailed), None)
    else match NextStream(settled.last, loaded.value)
      case Err(e) => (settled, Failed(ScanFailed(e)), None)
      case Ok(None) => (settled, Continue, None)
      case Ok(Some(stream)) =>
        match send
        case Delivered => (settled.(pending := Some(stream.snapshotId)), Continue, Some(stream))
        case ReceiverGone => (settled, ConsumerGone, None)
        case TimedOut => (settled, Continue, None)
  }

  /** The checkpoint that a poll goes by: an acknowledgement it finds moves it. */
  function CheckpointAt(p: Poller, signal: Signal): Option<SnapshotId> {
    if p.pending.Some? && signal == Acked then p.pending else p.last
  }

  /** The stream sent last is neither acknowledged nor dropped, and the poll leaves it at that. */
  predicate StillWaiting(p: Poller, signal: Signal) {
    p.pending.Some? && signal == Waiting
  }

  /** Main names a snapshot other than the checkpoint. */
  predicate MainIsAhead(p: Poller, signal: Signal, loaded: Option<Metadata>) {
    && !StillWaiting(p, signal)
    && loaded.Some? && MAIN in loaded.value.refs && CheckpointAt(p, signal) != Some(loaded.value.refs[MAIN])
  }

  /** There is a checkpoint, and the table has dropped its snapshot. */
  predicate CheckpointGone(p: Poller, signal: Signal, table: Metadata) {
    CheckpointAt(p, signal).Some? && CheckpointAt(p, signal).value !in table.snapshots
  }

  /** The poll gets as far as sending. */
  predicate HasNews(p: Poller, signal: Signal, loaded: Option<Metadata>) {
    MainIsAhead(p, signal, loaded) && !CheckpointGone(p, signal, loaded.value)
  }

  /**
   What becomes of the poller and what the caller is told. A stream is sent, and
   is outstanding from then on, exactly when there is news and the consumer took
   it in time. A consumer that is gone or slow leaves the poller as it was.
   */
  ghost predicate PollAnswers(p: Poller, signal: Signal, loaded: Option<Metadata>, send: SendResult,
                              next: Poller, outcome: PollOutcome, sent: Option<IcebergStream>) {
    && next.last == CheckpointAt(p, signal)
    && (next.pending.Some? <==> StillWaiting(p, signal) || (HasNews(p, signal, loaded) && send == Delivered))
    && (StillWaiting(p, signal) ==> next == p)
    && (sent.Some? <==> HasNews(p, signal, loaded) && send == Delivered)
    && (sent.Some? ==> next.pending == Some(sent.value.snapshotId) && sent.value.snapshotId == loaded.value.refs[MAIN])
    && (outcome == ConsumerGone <==> HasNews(p, signal, loaded) && send == ReceiverGone)
    && (outcome == Failed(LoadFailed) <==> !StillWaiting(p, signal) && loaded.None?)
    && (outcome.Failed? && outcome.error.ScanFailed? <==>
          MainIsAhead(p, signal, loaded) && CheckpointGone(p, signal, loaded.value))
    && (outcome.Failed? && outcome.error.ScanFailed? ==> outcome.error.error == CheckpointNotFound)
  }

  lemma {:induction false} PollAnswersExactly(p: Poller, signal: Signal, loaded: Option<Metadata>, send: SendResult)
    requires loaded.Some? ==> WellFormed(loaded.value)
    ensures var (next, outcome, sent) := Poll(p, signal, loaded, send);
            PollAnswers(p, signal, loaded, send, next, outcome, sent)
  {
    if loaded.Some? && MAIN in loaded.value.refs {
      assert loaded.value.SnapshotForRef(MAIN).value.id == loaded.value.refs[MAIN];
    }
  }

  /** What a delivered stream leads to: one more poll moves the checkpoint if it was acknowledged, and only then. */
  lemma {:induction false} DeliveredThenAnswered(p: Poller, signal: Signal, loaded: Option<Metadata>,
                                                 answered: Signal, reloaded: Option<Metadata>, send: SendResult)
    requires loaded.Some? && WellFormed(loaded.value) && (reloaded.Some? ==> WellFormed(reloaded.value))
    requires HasNews(p, signal, loaded)
    ensures var (next, _, sent) := Poll(p, signal, loaded, Delivered);
            var (later, outcome, again) := Poll(next, answered, reloaded, send);
            && sent.Some?
            && later.last == (if answered == Acked then Some(loaded.value.refs[MAIN]) else CheckpointAt(p, signal))
            && (answered == Waiting ==> later == next && outcome == Continue && again == None)
            && (answered == Dropped && reloaded == loaded && send == Delivered ==> later == next && again == sent)
  {
    PollAnswersExactly(p, signal, loaded, Delivered);
    var next := Poll(p, signal, loaded, Delivered).0;
    PollAnswersExactly(next, answered, reloaded, send);
  }

  // ------------------------------------------------------------------
  // Row accounts of a history
  // ------------------------------------------------------------------

  /** Every rewrite of the history kept the rows: see `Rewrite.RewriteRows`. */
  ghost predicate RowPreserving(h: History)
    requires Linear(h)
  {
    forall i :: 0 <= i < |h.changes| && h.changes[i].Rewrote? ==>
      var paths := PathsOf(h.changes[i].taken);
      && NoMixing(ParentOf(h, i), paths)
      && FileRows(h.changes[i].files) == RowsOf(Select(LiveEntries(ParentOf(h, i)), paths))
  }

  function FilesAppendedBy(h: History, i: nat): seq<DataFile>
    requires i < |h.changes|
  {
    if h.changes[i].Appended? then h.changes[i].files else []
  }

  function RowsAppendedBy(h: History, i: nat): multiset<Row>
    requires i < |h.changes|
  {
    FileRows(FilesAppendedBy(h, i))
  }

  /** The files of all the appends among the first `n` changes. */
  function AppendedFiles(h: History, n: nat): seq<DataFile>
    requires n <= |h.changes|
  {
    if n == 0 then [] else AppendedFiles(h, n - 1) + FilesAppendedBy(h, n - 1)
  }

  function AppendedRows(h: History, n: nat): multiset<Row>
    requires n <= |h.changes|
  {
    FileRows(AppendedFiles(h, n))
  }

  /** The files of the appends among the changes numbered `a..t`. */
  function WindowFiles(h: History, a: nat, t: nat): seq<DataFile>
    requires a <= t <= |h.changes|
  {
    if a == t then []
    else WindowFiles(h, a, t - 1) + FilesAppendedBy(h, t - 1)
  }

  function Keep(files: seq<DataFile>, paths: set<Path>): seq<DataFile> {
    if files == [] then []
    else if files[0].path in paths then [files[0]] + Keep(files[1..], paths)
    else Keep(files[1..], paths)
  }

  function Drop(files: seq<DataFile>, paths: set<Path>): seq<DataFile> {
    if files == [] then []
    else if files[0].path in paths then Drop(files[1..], paths)
    else [files[0]] + Drop(files[1..], paths)
  }

  /** Rows appended in a window whose files are gone at its end. */
  function LostRows(h: History, a: nat, t: nat): multiset<Row>
    requires 0 < a <= t <= |h.changes| == |h.snapshots|
  {
    FileRows(Drop(WindowFiles(h, a, t), PathsOf(Live(h, t - 1))))
  }

  lemma {:induction false} FileRowsConcat(a: seq<DataFile>, b: seq<DataFile>)
    ensures FileRows(a + b) == FileRows(a) + FileRows(b)
  {
    if a == [] {
      assert a + b == b;
    } else {
      assert (a + b)[1..] == a[1..] + b;
      FileRowsConcat(a[1..], b);
    }
  }

  lemma {:induction false} KeepDropRows(files: seq<DataFile>, paths: set<Path>)
    ensures FileRows(files) == FileRows(Keep(files, paths)) + FileRows(Drop(files, paths))
  {
    if files != [] {
      KeepDropRows(files[1..], paths);
      if files[0].path in paths {
        assert Keep(files, paths)[1..] == Keep(files[1..], paths);
      } else {
        assert Drop(files, paths)[1..] == Drop(files[1..], paths);
      }
    }
  }

  lemma {:induction false} KeepMember(files: seq<DataFile>, paths: set<Path>, f: DataFile)
    ensures f in Keep(files, paths) <==> f in files && f.path in paths
    ensures f in Drop(files, paths) <==> f in files && f.path !in paths
  {
    if files != [] {
      KeepMember(files[1..], paths, f);
      assert files == [files[0]] + files[1..];
    }
  }

  lemma {:induction false} KeepDistinct(files: seq<DataFile>, paths: set<Path>)
    requires DistinctFiles(files)
    ensures DistinctFiles(Keep(files, paths))
  {
    if files != [] {
      KeepDistinct(files[1..], paths);
      forall f | f in Keep(files[1..], paths) ensures f.path != files[0].path {
        KeepMember(files[1..], paths, f);
        var i :| 0 <= i < |files[1..]| && files[1..][i] == f;
        assert files[i + 1] == f;
      }
    }
  }

  lemma {:induction false} RemoveFileRows(files: seq<DataFile>, i: nat)
    requires i < |files|
    ensures FileRows(files) == files[i].rows + FileRows(files[..i] + files[i + 1..])
  {
    FileRowsConcat(files[..i], files[i..]);
    FileRowsConcat(files[..i], files[i + 1..]);
    assert files == files[..i] + files[i..];
    assert files[i..][1..] == files[i + 1..];
  }

  lemma {:induction false} RemoveMultiset(files: seq<DataFile>, i: nat)
    requires i < |files|
    ensures multiset(files[..i] + files[i + 1..]) == multiset(files) - multiset{files[i]}
  {
    assert files == files[..i] + [files[i]] + files[i + 1..];
    assert multiset(files) == multiset(files[..i]) + multiset{files[i]} + multiset(files[i + 1..]);
  }

  /** Reordering files does not change their rows. */
  lemma {:induction false} RowsIgnoreOrder(a: seq<DataFile>, b: seq<DataFile>)
    requires multiset(a) == multiset(b)
    ensures FileRows(a) == FileRows(b)
  {
    if a == [] {
      assert |multiset(b)| == 0;
    } else {
      assert a[0] in multiset(b);
      var i :| 0 <= i < |b| && b[i] == a[0];
      RemoveMultiset(a, 0);
      RemoveMultiset(b, i);
      assert a[..0] + a[1..] == a[1..];
      RowsIgnoreOrder(a[1..], b[..i] + b[i + 1..]);
      RemoveFileRows(b, i);
    }
  }

  lemma {:induction false} DistinctMultiset(files: seq<DataFile>, f: DataFile)
    requires DistinctFiles(files)
    ensures multiset(files)[f] == if f in files then 1 else 0
  {
    if files != [] {
      DistinctMultiset(files[1..], f);
      assert files == [files[0]] + files[1..];
      assert multiset(files) == multiset{files[0]} + multiset(files[1..]);
      if f in files[1..] {
        var i :| 0 <= i < |files[1..]| && files[1..][i] == f;
        assert files[i + 1] == f && files[0].path != f.path;
      }
    }
  }

  lemma {:induction false} SameFilesSameRows(a: seq<DataFile>, b: seq<DataFile>)
    requires DistinctFiles(a) && DistinctFiles(b) && forall f :: f in a <==> f in b
    ensures FileRows(a) == FileRows(b)
  {
    forall f ensures multiset(a)[f] == multiset(b)[f] {
      DistinctMultiset(a, f);
      DistinctMultiset(b, f);
    }
    assert multiset(a) == multiset(b);
    RowsIgnoreOrder(a, b);
  }

  // ------------------------------------------------------------------
  // What one stream delivers
  // ------------------------------------------------------------------

  function FilesOf(entries: seq<Entry>): seq<DataFile> {
    seq(|entries|, i requires 0 <= i < |entries| => entries[i].file)
  }

  lemma {:induction false} FilesOfRows(entries: seq<Entry>)
    ensures FileRows(FilesOf(entries)) == RowsOf(entries)
  {
    if entries != [] {
      FilesOfRows(entries[1..]);
      assert FilesOf(entries)[1..] == FilesOf(entries[1..]);
    }
  }

  lemma {:induction false} FilesOfMember(entries: seq<Entry>, f: DataFile)
    ensures f in FilesOf(entries) <==> exists e <- entries :: e.file == f
  {
    if e :| e in entries && e.file == f {
      var i :| 0 <= i < |entries| && entries[i] == e;
      assert FilesOf(entries)[i] == f;
    }
    if f in FilesOf(entries) {
      var i :| 0 <= i < |entries| && FilesOf(entries)[i] == f;
      assert entries[i] in entries;
    }
  }

  /** A row-preserving change adds exactly what it appends. */
  lemma {:induction false} ChangeRows(h: History, n: nat)
    requires Linear(h) && RowPreserving(h) && n < |h.snapshots|
    ensures RowsOf(Live(h, n)) == TableRows(ParentOf(h, n)) + RowsAppendedBy(h, n)
  {
    assert LinkAt(h, n);
    match h.changes[n]
    case Appended(files) => AppendLive(ParentOf(h, n), files, h.snapshots[n].seqNum);
    case Rewrote(taken, files) => RewriteRows(ParentOf(h, n), taken, files, h.snapshots[n].seqNum);
  }

  lemma {:induction false} AppendedRowsNext(h: History, n: nat)
    requires 0 < n <= |h.changes|
    ensures AppendedRows(h, n) == AppendedRows(h, n - 1) + RowsAppendedBy(h, n - 1)
  {
    FileRowsConcat(AppendedFiles(h, n - 1), FilesAppendedBy(h, n - 1));
  }

  lemma {:induction false} NothingBeforeTheFirst(h: History)
    ensures TableRows(ParentOf(h, 0)) == multiset{} && AppendedRows(h, 0) == multiset{}
  {
  }

  lemma {:induction false} ParentHoldsAppended(h: History, n: nat)
    requires Linear(h) && 0 < n <= |h.snapshots|
    requires n > 1 ==> RowsOf(Live(h, n - 2)) == AppendedRows(h, n - 1)
    ensures TableRows(ParentOf(h, n - 1)) == AppendedRows(h, n - 1)
  {
    if n == 1 {
      NothingBeforeTheFirst(h);
    }
  }

  /** After row-preserving changes main holds all that was ever appended. */
  lemma {:induction false} FullScanRows(h: History, n: nat)
    requires Linear(h) && RowPreserving(h) && 0 < n <= |h.snapshots|
    ensures RowsOf(Live(h, n - 1)) == AppendedRows(h, n)
  {
    if n > 1 {
      FullScanRows(h, n - 1);
    }
    ParentHoldsAppended(h, n);
    ChangeRows(h, n - 1);
    AppendedRowsNext(h, n);
  }

  lemma {:induction false} WindowExtends(h: History, a: nat, t: nat)
    requires a <= t <= |h.changes|
    ensures AppendedFiles(h, a) + WindowFiles(h, a, t) == AppendedFiles(h, t)
  {
    if a < t {
      WindowExtends(h, a, t - 1);
    }
  }

  lemma {:induction false} WindowRows(h: History, a: nat, t: nat)
    requires a <= t <= |h.changes|
    ensures AppendedRows(h, a) + FileRows(WindowFiles(h, a, t)) == AppendedRows(h, t)
  {
    WindowExtends(h, a, t);
    FileRowsConcat(AppendedFiles(h, a), WindowFiles(h, a, t));
  }

  lemma {:induction false} WindowMember(h: History, a: nat, t: nat, f: DataFile)
    requires a <= t <= |h.changes|
    ensures f in WindowFiles(h, a, t) <==> exists k :: a <= k < t && h.changes[k].Appended? && f in h.changes[k].files
  {
    if a < t {
      WindowMember(h, a, t - 1, f);
    }
  }

  lemma {:induction false} WindowDistinct(h: History, a: nat, t: nat)
    requires Linear(h) && a <= t <= |h.changes|
    ensures DistinctFiles(WindowFiles(h, a, t))
  {
    if a < t {
      WindowDistinct(h, a, t - 1);
      assert LinkAt(h, t - 1);
      var before := WindowFiles(h, a, t - 1);
      if h.changes[t - 1].Appended? {
        var last := h.changes[t - 1].files;
        forall i, j | 0 <= i < |before| && 0 <= j < |last| ensures before[i].path != last[j].path {
          WindowMember(h, a, t - 1, before[i]);
          var k :| a <= k < t - 1 && before[i] in h.changes[k].files;
          assert before[i].path in FilePaths(h.changes[k].files) && last[j].path in FilePaths(h.changes[t - 1].files);
        }
      }
    }
  }

  /** The scan of a window reads the surviving files of its appends, and no others. */
  lemma {:induction false} PlannedFiles(table: Metadata, h: History, a: nat, t: nat, f: DataFile)
    requires WellFormed(table) && Linear(h) && Retains(table, h) && 0 < a <= t <= |h.snapshots|
    ensures f in FilesOf(Planned(table, h.snapshots[a - 1].id, h.snapshots[t - 1])) <==>
            f in Keep(WindowFiles(h, a, t), PathsOf(Live(h, t - 1)))
  {
    PlanIsExact(table, h, a - 1, t - 1);
    ExactPlanFiles(h, a, t, Planned(table, h.snapshots[a - 1].id, h.snapshots[t - 1]), f);
  }

  lemma {:induction false} ExactPlanFiles(h: History, a: nat, t: nat, plan: seq<Entry>, f: DataFile)
    requires Linear(h) && 0 < a <= t <= |h.snapshots| && ExactPlan(h, a - 1, t - 1, plan)
    ensures f in FilesOf(plan) <==> f in Keep(WindowFiles(h, a, t), PathsOf(Live(h, t - 1)))
  {
    FilesOfMember(plan, f);
    KeepMember(WindowFiles(h, a, t), PathsOf(Live(h, t - 1)), f);
    if e :| e in plan && e.file == f {
      PlannedIsKept(h, a, t, plan, e);
    }
    if f in WindowFiles(h, a, t) && f.path in PathsOf(Live(h, t - 1)) {
      KeptIsPlanned(h, a, t, plan, f);
    }
  }

  lemma {:induction false} PlannedIsKept(h: History, a: nat, t: nat, plan: seq<Entry>, e: Entry)
    requires Linear(h) && 0 < a <= t <= |h.snapshots| && ExactPlan(h, a - 1, t - 1, plan) && e in plan
    ensures e.file in WindowFiles(h, a, t) && e.file.path in PathsOf(Live(h, t - 1))
  {
    assert e.file.path in PathsOf(plan);
    var k := LiveOrigin(h, t - 1, e);
    var i :| a - 1 < i <= t - 1 && h.changes[i].Appended? && e.file.path in NewAt(h, i);
    NewAtIsWritten(h, i);
    assert i == k;
    WindowMember(h, a, t, e.file);
  }

  lemma {:induction false} WindowFileOrigin(h: History, a: nat, t: nat, f: DataFile) returns (k: nat)
    requires Linear(h) && 0 < a <= t <= |h.snapshots| && f in WindowFiles(h, a, t)
    ensures k < t && f in h.changes[k].files && AppendedIn(h, a - 1, t - 1, f.path)
  {
    WindowMember(h, a, t, f);
    k :| a <= k < t && h.changes[k].Appended? && f in h.changes[k].files;
    NewAtIsWritten(h, k);
    assert f.path in FilePaths(h.changes[k].files);
  }

  lemma {:induction false} LiveFileOfPath(h: History, i: nat, e: Entry, k: nat, f: DataFile)
    requires Linear(h) && i < |h.snapshots| && e in Live(h, i)
    requires k < |h.changes| && f in h.changes[k].files && e.file.path == f.path
    ensures e.file == f
  {
    var j := LiveOrigin(h, i, e);
    assert f.path in FilePaths(h.changes[k].files);
    assert LinkAt(h, k);
    SameFileByPath(h.changes[k].files, e.file, f);
  }

  lemma {:induction false} KeptIsPlanned(h: History, a: nat, t: nat, plan: seq<Entry>, f: DataFile)
    requires Linear(h) && 0 < a <= t <= |h.snapshots| && ExactPlan(h, a - 1, t - 1, plan)
    requires f in WindowFiles(h, a, t) && f.path in PathsOf(Live(h, t - 1))
    ensures exists e <- plan :: e.file == f
  {
    var k := WindowFileOrigin(h, a, t, f);
    assert f.path in PathsOf(plan);
    var e :| e in plan && e.file.path == f.path;
    LiveFileOfPath(h, t - 1, e, k, f);
  }

  lemma {:induction false} SameFileByPath(files: seq<DataFile>, f: DataFile, g: DataFile)
    requires DistinctFiles(files) && f in files && g in files && f.path == g.path
    ensures f == g
  {
    var i :| 0 <= i < |files| && files[i] == f;
    var j :| 0 <= j < |files| && files[j] == g;
  }

  /**
   The account of an incremental scan: what was appended before, plus what the
   scan delivers, plus what was rewritten away inside the window, is all that
   has been appended.
   */
  lemma {:induction false} ScanAccount(table: Metadata, h: History, a: nat, t: nat)
    requires WellFormed(table) && Linear(h) && Retains(table, h) && 0 < a <= t <= |h.snapshots|
    ensures AppendedRows(h, a) + RowsOf(Planned(table, h.snapshots[a - 1].id, h.snapshots[t - 1])) + LostRows(h, a, t)
            == AppendedRows(h, t)
  {
    var plan := Planned(table, h.snapshots[a - 1].id, h.snapshots[t - 1]);
    var live := PathsOf(Live(h, t - 1));
    var files := WindowFiles(h, a, t);
    WindowRows(h, a, t);
    KeepDropRows(files, live);
    WindowDistinct(h, a, t);
    KeepDistinct(files, live);
    LiveDistinct(h, t - 1);
    PlannedDistinct(table, h, a, t);
    forall f ensures f in FilesOf(plan) <==> f in Keep(files, live) {
      PlannedFiles(table, h, a, t, f);
    }
    SameFilesSameRows(FilesOf(plan), Keep(files, live));
    FilesOfRows(plan);
  }

  lemma {:induction false} PlannedDistinct(table: Metadata, h: History, a: nat, t: nat)
    requires WellFormed(table) && Linear(h) && Retains(table, h) && 0 < a <= t <= |h.snapshots|
    ensures DistinctFiles(FilesOf(Planned(table, h.snapshots[a - 1].id, h.snapshots[t - 1])))
  {
    LiveDistinct(h, t - 1);
    var plan := Planned(table, h.snapshots[a - 1].id, h.snapshots[t - 1]);
    if a < t {
      SelectDistinct(Live(h, t - 1), NewFilePaths(h.snapshots[t - 1].manifests, h.snapshots[a - 1].seqNum,
        h.snapshots[t - 1].seqNum, ReplaceSeqNums(table, Some(h.snapshots[t - 1].id), h.snapshots[a - 1].id)));
    }
    assert DistinctPaths(plan);
  }

  /** Nothing is lost exactly when every non-empty file appended in the window is still live at its end. */
  lemma {:induction false} NothingLost(h: History, a: nat, t: nat)
    requires Linear(h) && 0 < a <= t <= |h.snapshots|
    ensures LostRows(h, a, t) == multiset{} <==>
            forall f <- WindowFiles(h, a, t) :: f.rows == multiset{} || f.path in PathsOf(Live(h, t - 1))
  {
    var live := PathsOf(Live(h, t - 1));
    var gone := Drop(WindowFiles(h, a, t), live);
    NoRows(gone);
    forall f ensures f in gone <==> f in WindowFiles(h, a, t) && f.path !in live {
      KeepMember(WindowFiles(h, a, t), live, f);
    }
  }

  /** What a change of a row-preserving history does to the live paths. */
  lemma {:induction false} LiveAfterChange(h: History, k: nat)
    requires Linear(h) && RowPreserving(h) && k < |h.snapshots|
    ensures var gone := if h.changes[k].Rewrote? then PathsOf(h.changes[k].taken) else {};
            PathsOf(Live(h, k)) == LivePaths(ParentOf(h, k)) - gone + FilePaths(h.changes[k].files)
  {
    assert LinkAt(h, k);
    FreshInHistory(h, k);
    var parent, files, seqNum := ParentOf(h, k), h.changes[k].files, h.snapshots[k].seqNum;
    match h.changes[k]
    case Appended(_) => AppendLive(parent, files, seqNum);
    case Rewrote(taken, _) =>
      RewriteLive(parent, taken, files, seqNum);
      SurvivorsDropTheRest(parent, PathsOf(taken));
      AddedRows(files, seqNum);
      PathsOfConcat(Reject(LiveEntries(parent), PathsOf(taken)), AddedEntries(files, seqNum));
      PathsOfReject(LiveEntries(parent), PathsOf(taken));
  }

  lemma {:induction false} PathsOfConcat(a: seq<Entry>, b: seq<Entry>)
    ensures PathsOf(a + b) == PathsOf(a) + PathsOf(b)
  {
  }

  lemma {:induction false} PathsOfReject(entries: seq<Entry>, paths: set<Path>)
    ensures PathsOf(Reject(entries, paths)) == PathsOf(entries) - paths
  {
    if entries != [] {
      PathsOfReject(entries[1..], paths);
      PathsOfConcat([entries[0]], entries[1..]);
      assert entries == [entries[0]] + entries[1..];
      if entries[0].file.path !in paths {
        PathsOfConcat([entries[0]], Reject(entries[1..], paths));
      }
    }
  }

  /** A file is live until a rewrite takes it, and never again. */
  lemma {:induction false} LiveUntilTaken(h: History, i: nat, n: nat, p: Path)
    requires Linear(h) && RowPreserving(h) && i <= n < |h.snapshots| && p in FilePaths(h.changes[i].files)
    ensures p in PathsOf(Live(h, n)) <==>
              forall k :: i < k <= n && h.changes[k].Rewrote? ==> p !in PathsOf(h.changes[k].taken)
  {
    LiveAfterChange(h, n);
    if i < n {
      LiveUntilTaken(h, i, n - 1, p);
      assert p !in FilePaths(h.changes[n].files);
    }
  }

  /** A change of the window appended the file, and a later one of the window rewrote it. */
  ghost predicate TakenInWindow(h: History, a: nat, t: nat, f: DataFile)
    requires a <= t <= |h.changes|
  {
    exists i, k :: a <= i < k < t && h.changes[i].Appended? && f in h.changes[i].files
                   && h.changes[k].Rewrote? && f.path in PathsOf(h.changes[k].taken)
  }

  /** A file appended in the window is gone at its end exactly when a rewrite inside the window took it. */
  lemma {:induction false} GoneExactlyWhenTaken(h: History, a: nat, t: nat, f: DataFile)
    requires Linear(h) && RowPreserving(h) && 0 < a <= t <= |h.snapshots| && f in WindowFiles(h, a, t)
    ensures f.path !in PathsOf(Live(h, t - 1)) <==> TakenInWindow(h, a, t, f)
  {
    WindowMember(h, a, t, f);
    var i :| a <= i < t && h.changes[i].Appended? && f in h.changes[i].files;
    LiveUntilTaken(h, i, t - 1, f.path);
    forall j: nat | j < |h.changes| && f in h.changes[j].files ensures j == i {
      WrittenOnce(h, i, j, f);
    }
  }

  lemma {:induction false} WrittenOnce(h: History, i: nat, j: nat, f: DataFile)
    requires Linear(h) && i < |h.changes| && j < |h.changes| && f in h.changes[i].files && f in h.changes[j].files
    ensures i == j
  {
    assert f.path in FilePaths(h.changes[i].files) && f.path in FilePaths(h.changes[j].files);
  }

  /** So the window loses rows exactly when a rewrite inside it took a file with rows appended inside it. */
  lemma {:induction false} LostExactlyWhenTaken(h: History, a: nat, t: nat)
    requires Linear(h) && RowPreserving(h) && 0 < a <= t <= |h.snapshots|
    ensures LostRows(h, a, t) == multiset{} <==>
              forall f <- WindowFiles(h, a, t) :: f.rows == multiset{} || !TakenInWindow(h, a, t, f)
  {
    NothingLost(h, a, t);
    forall f | f in WindowFiles(h, a, t)
      ensures f.path !in PathsOf(Live(h, t - 1)) <==> TakenInWindow(h, a, t, f)
    {
      GoneExactlyWhenTaken(h, a, t, f);
    }
  }

  lemma {:induction false} NoRows(files: seq<DataFile>)
    ensures FileRows(files) == multiset{} <==> forall f <- files :: f.rows == multiset{}
  {
    if files != [] {
      NoRows(files[1..]);
      assert files == [files[0]] + files[1..];
    }
  }

  // ------------------------------------------------------------------
  // Poller runs
  // ------------------------------------------------------------------

  /** A sent stream: it covers the history up to change number `upTo`. */
  datatype Outstanding = Outstanding(upTo: nat, rows: multiset<Row>, signal: Signal)

  /**
   `checkpoint` counts the changes behind the poller's checkpoint (0 before any),
   `start` the ones before the configured starting snapshot; `acked` and `lost`
   are the rows of all acknowledged streams and the rows that no stream will
   ever deliver.
   */
  datatype State = State(
    history: History,
    table: Metadata,
    poller: Poller,
    start: nat,
    checkpoint: nat,
    outstanding: Option<Outstanding>,
    acked: multiset<Row>,
    lost: multiset<Row>)

  datatype Event =
    | Grow(change: Change, snapshot: Snapshot, table: Metadata)
    | Acknowledge
    | DropStream
    | PollEvent(loaded: bool, send: SendResult)

  /** The table holds the whole history, with its last snapshot on main. */
  ghost predicate Shows(table: Metadata, h: History) {
    && WellFormed(table) && Linear(h) && RowPreserving(h) && Retains(table, h)
    && table.Ref(MAIN) == if h.snapshots == [] then None else Some(h.snapshots[|h.snapshots| - 1].id)
  }

  function Extended(h: History, change: Change, snapshot: Snapshot): History {
    History(h.snapshots + [snapshot], h.changes + [change])
  }

  ghost predicate Initial(s: State) {
    && Shows(s.table, s.history)
    && s.start == s.checkpoint <= |s.history.snapshots|
    && s.poller == Poller(CheckpointId(s.history, s.start), None)
    && s.outstanding == None && s.acked == multiset{} && s.lost == multiset{}
  }

  function CheckpointId(h: History, n: nat): Option<SnapshotId>
    requires n <= |h.snapshots|
  {
    if n == 0 then None else Some(h.snapshots[n - 1].id)
  }

  ghost predicate Enabled(s: State, event: Event) {
    match event
    case Grow(change, snapshot, table) => Shows(table, Extended(s.history, change, snapshot))
    case Acknowledge => s.outstanding.Some? && s.outstanding.value.signal == Waiting
    case DropStream => s.outstanding.Some? && s.outstanding.value.signal == Waiting
    case PollEvent(_, _) => WellFormed(s.table)
  }

  /** What the consumer of the outstanding stream leaves unread for ever when it acknowledges it. */
  function LostBy(h: History, checkpoint: nat, upTo: nat): multiset<Row> {
    if 0 < checkpoint <= upTo <= |h.changes| == |h.snapshots| then LostRows(h, checkpoint, upTo) else multiset{}
  }

  function SignalOf(s: State): Signal {
    if s.outstanding.Some? then s.outstanding.value.signal else Waiting
  }

  /** The state once the poller has looked at the acknowledgement channel. */
  function SettledState(s: State): State {
    s.(poller := Settled(s.poller, SignalOf(s)),
       checkpoint := if SignalOf(s) == Acked then s.outstanding.value.upTo else s.checkpoint,
       outstanding := if SignalOf(s) == Waiting then s.outstanding else None)
  }

  ghost function Step(s: State, event: Event): State
    requires Enabled(s, event)
  {
    match event
    case Grow(change, snapshot, table) =>
      s.(history := Extended(s.history, change, snapshot), table := table)
    case Acknowledge =>
      var o := s.outstanding.value;
      s.(outstanding := Some(o.(signal := Acked)), acked := s.acked + o.rows,
         lost := s.lost + LostBy(s.history, s.checkpoint, o.upTo))
    case DropStream =>
      s.(outstanding := Some(s.outstanding.value.(signal := Dropped)))
    case PollEvent(loaded, send) =>
      var (next, _, sent) := Poll(s.poller, SignalOf(s), if loaded then Some(s.table) else None, send);
      var settled := SettledState(s);
      if sent.None? then settled
      else settled.(poller := next,
                    outstanding := Some(Outstanding(|s.history.snapshots|, RowsOf(sent.value.files), Waiting)))
  }

  ghost predicate IsRun(trace: seq<State>, events: seq<Event>) {
    && |trace| == |events| + 1
    && Initial(trace[0])
    && forall i :: 0 <= i < |events| ==> Enabled(trace[i], events[i]) && trace[i + 1] == Step(trace[i], events[i])
  }

  /** The changes whose rows have been acknowledged or lost. */
  function Consumed(s: State): nat {
    if SignalOf(s) == Acked then s.outstanding.value.upTo else s.checkpoint
  }

  ghost predicate Inv(s: State) {
    && Shows(s.table, s.history)
    && s.start <= s.checkpoint <= |s.history.snapshots|
    && s.poller.last == CheckpointId(s.history, s.checkpoint)
    && (s.poller.pending.Some? <==> s.outstanding.Some?)
    && (s.outstanding.Some? ==>
          var o := s.outstanding.value;
          && s.checkpoint < o.upTo <= |s.history.snapshots|
          && s.poller.pending == CheckpointId(s.history, o.upTo)
          && AppendedRows(s.history, s.checkpoint) + o.rows + LostBy(s.history, s.checkpoint, o.upTo)
             == AppendedRows(s.history, o.upTo))
    && AppendedRows(s.history, s.start) + s.acked + s.lost == AppendedRows(s.history, Consumed(s))
  }

  lemma {:induction false} PrefixRows(h: History, change: Change, snapshot: Snapshot, n: nat)
    requires n <= |h.changes|
    ensures AppendedFiles(Extended(h, change, snapshot), n) == AppendedFiles(h, n)
  {
    if n > 0 {
      PrefixRows(h, change, snapshot, n - 1);
    }
  }

  lemma {:induction false} PrefixWindow(h: History, change: Change, snapshot: Snapshot, a: nat, t: nat)
    requires a <= t <= |h.changes|
    ensures WindowFiles(Extended(h, change, snapshot), a, t) == WindowFiles(h, a, t)
  {
    if a < t {
      PrefixWindow(h, change, snapshot, a, t - 1);
    }
  }

  lemma {:induction false} GrowStep(s: State, event: Event)
    requires Inv(s) && Enabled(s, event) && event.Grow?
    ensures Inv(Step(s, event))
  {
    var h, longer := s.history, Extended(s.history, event.change, event.snapshot);
    PrefixRows(h, event.change, event.snapshot, s.start);
    PrefixRows(h, event.change, event.snapshot, s.checkpoint);
    if s.outstanding.Some? {
      var upTo := s.outstanding.value.upTo;
      PrefixRows(h, event.change, event.snapshot, upTo);
      PrefixWindow(h, event.change, event.snapshot, s.checkpoint, upTo);
      assert Live(longer, upTo - 1) == Live(h, upTo - 1);
      assert LostBy(longer, s.checkpoint, upTo) == LostBy(h, s.checkpoint, upTo);
    }
  }

  /** The next stream covers exactly the changes since the checkpoint. */
  lemma {:induction false} StreamAccount(table: Metadata, h: History, checkpoint: nat)
    requires Shows(table, h) && checkpoint <= |h.snapshots|
    ensures var n := |h.snapshots|;
            var next := NextStream(CheckpointId(h, checkpoint), table);
            && next.Ok?
            && (next.value.Some? <==> checkpoint < n)
            && (checkpoint < n ==>
                  && Some(next.value.value.snapshotId) == CheckpointId(h, n)
                  && AppendedRows(h, checkpoint) + RowsOf(next.value.value.files) + LostBy(h, checkpoint, n)
                     == AppendedRows(h, n))
  {
    var n := |h.snapshots|;
    if n > 0 {
      var current := h.snapshots[n - 1];
      assert table.SnapshotForRef(MAIN) == Some(current);
      if checkpoint == 0 {
        FullScanRows(h, n);
        assert AppendedRows(h, 0) == multiset{};
      } else if checkpoint < n {
        assert h.snapshots[checkpoint - 1].id != current.id;
        ScanAccount(table, h, checkpoint, n);
      }
    }
  }

  lemma {:induction false} SettleKeepsInv(s: State)
    requires Inv(s)
    ensures Inv(SettledState(s)) && Consumed(SettledState(s)) == Consumed(s)
  {
  }

  lemma {:induction false} SendKeepsInv(s: State, stream: IcebergStream)
    requires Inv(s) && s.outstanding.None? && NextStream(s.poller.last, s.table) == Ok(Some(stream))
    ensures Inv(s.(poller := s.poller.(pending := Some(stream.snapshotId)),
                   outstanding := Some(Outstanding(|s.history.snapshots|, RowsOf(stream.files), Waiting))))
  {
    StreamAccount(s.table, s.history, s.checkpoint);
  }

  lemma {:induction false} PollShape(p: Poller, signal: Signal, loaded: Option<Metadata>, send: SendResult)
    requires loaded.Some? ==> WellFormed(loaded.value)
    ensures var (next, _, sent) := Poll(p, signal, loaded, send);
            var settled := Settled(p, signal);
            if sent.None? then next == settled
            else
              && loaded.Some? && settled.pending.None?
              && NextStream(settled.last, loaded.value) == Ok(Some(sent.value))
              && next == settled.(pending := Some(sent.value.snapshotId))
  {
  }

  lemma {:induction false} PollStep(s: State, event: Event)
    requires Inv(s) && Enabled(s, event) && event.PollEvent?
    ensures Inv(Step(s, event))
  {
    var loaded := if event.loaded then Some(s.table) else None;
    SettleKeepsInv(s);
    PollShape(s.poller, SignalOf(s), loaded, event.send);
    var sent := Poll(s.poller, SignalOf(s), loaded, event.send).2;
    if sent.Some? {
      assert SettledState(s).outstanding.None?;
      SendKeepsInv(SettledState(s), sent.value);
    }
  }

  lemma {:induction false} StepKeepsInv(s: State, event: Event)
    requires Inv(s) && Enabled(s, event)
    ensures Inv(Step(s, event))
  {
    match event
    case Grow(_, _, _) => GrowStep(s, event);
    case PollEvent(_, _) => PollStep(s, event);
    case _ => AnswerStep(s, event);
  }

  /** An acknowledgement moves the outstanding rows to the acknowledged ones. */
  lemma {:induction false} AnswerStep(s: State, event: Event)
    requires Inv(s) && Enabled(s, event) && (event.Acknowledge? || event.DropStream?)
    ensures Inv(Step(s, event))
  {
    var o := s.outstanding.value;
    if event.Acknowledge? {
      var base, lost := AppendedRows(s.history, s.start), LostBy(s.history, s.checkpoint, o.upTo);
      assert base + (s.acked + o.rows) + (s.lost + lost) == (base + s.acked + s.lost) + o.rows + lost;
    }
  }

  lemma {:induction false} RunKeepsInv(trace: seq<State>, events: seq<Event>)
    requires IsRun(trace, events)
    ensures Inv(trace[|events|])
  {
    if events != [] {
      var n := |events| - 1;
      RunKeepsInv(trace[..n + 1], events[..n]);
      StepKeepsInv(trace[n], events[n]);
    }
  }

  /**
   In every run the acknowledged streams together with the lost rows are
   exactly what was appended since the start, up to the last acknowledged
   snapshot: nothing is acknowledged twice.
   */
  lemma {:induction false} AcknowledgedExactlyOnce(trace: seq<State>, events: seq<Event>)
    requires IsRun(trace, events)
    ensures var s := trace[|events|];
            Consumed(s) <= |s.history.changes| && s.start <= |s.history.changes| &&
            AppendedRows(s.history, s.start) + s.acked + s.lost == AppendedRows(s.history, Consumed(s))
  {
    RunKeepsInv(trace, events);
  }

  /** The poller's checkpoint is the snapshot up to which everything is accounted for. */
  lemma {:induction false} CheckpointIsConsumed(trace: seq<State>, events: seq<Event>)
    requires IsRun(trace, events)
    ensures var s := trace[|events|];
            && s.checkpoint <= |s.history.snapshots| && s.poller.last == CheckpointId(s.history, s.checkpoint)
            && (SignalOf(s) == Acked ==>
                  Consumed(s) <= |s.history.snapshots| && s.poller.pending == CheckpointId(s.history, Consumed(s)))
  {
    RunKeepsInv(trace, events);
  }

  /** No rewrite inside the outstanding window took a file with rows that was appended inside it. */
  ghost predicate NoRewriteOfUnread(s: State) {
    s.outstanding.Some? && 0 < s.checkpoint <= s.outstanding.value.upTo <= |s.history.changes| ==>
      var upTo := s.outstanding.value.upTo;
      forall f <- WindowFiles(s.history, s.checkpoint, upTo) ::
        f.rows == multiset{} || !TakenInWindow(s.history, s.checkpoint, upTo, f)
  }

  /**
   Rows are lost exactly by acknowledging a stream in whose window a rewrite
   took away a file appended in that same window.
   */
  lemma {:induction false} LossesComeFromUnreadRewrites(trace: seq<State>, events: seq<Event>, event: Event)
    requires IsRun(trace, events) && Enabled(trace[|events|], event)
    ensures var s := trace[|events|];
            Step(s, event).lost == s.lost <==> !event.Acknowledge? || NoRewriteOfUnread(s)
  {
    RunKeepsInv(trace, events);
    StepLoses(trace[|events|], event);
  }

  lemma {:induction false} StepLoses(s: State, event: Event)
    requires Inv(s) && Enabled(s, event)
    ensures Step(s, event).lost == s.lost <==> !event.Acknowledge? || NoRewriteOfUnread(s)
  {
    if event.Acknowledge? {
      AcknowledgeLoses(s);
    }
  }

  lemma {:induction false} AcknowledgeLoses(s: State)
    requires Linear(s.history) && RowPreserving(s.history) && s.outstanding.Some?
    requires s.checkpoint <= s.outstanding.value.upTo <= |s.history.snapshots|
    ensures s.lost + LostBy(s.history, s.checkpoint, s.outstanding.value.upTo) == s.lost <==> NoRewriteOfUnread(s)
  {
    var h, a, t := s.history, s.checkpoint, s.outstanding.value.upTo;
    SameSum(s.lost, LostBy(h, a, t));
    if a > 0 {
      assert LostBy(h, a, t) == LostRows(h, a, t);
      LostExactlyWhenTaken(h, a, t);
    } else {
      assert LostBy(h, a, t) == multiset{};
    }
  }

  lemma {:induction false} SameSum(a: multiset<Row>, b: multiset<Row>)
    ensures a + b == a <==> b == multiset{}
  {
    if a + b == a {
      forall x ensures b[x] == 0 {
        assert (a + b)[x] == a[x] + b[x];
      }
    }
  }

  /** A rewrite of everything leaves nothing live but its own output. */
  lemma {:induction false} FullRewriteLive(h: History, i: nat)
    requires Linear(h) && 0 < i < |h.snapshots| && h.changes[i].Rewrote?
    requires PathsOf(h.changes[i].taken) == LivePaths(ParentOf(h, i))
    ensures PathsOf(Live(h, i)) == FilePaths(h.changes[i].files)
  {
    var parent := ParentOf(h, i);
    assert LinkAt(h, i);
    FreshInHistory(h, i);
    forall m | m in parent ensures !Mixed(m, LivePaths(parent)) {
      forall e | e in m.entries && e.IsAlive() ensures e.file.path in LivePaths(parent) {
        LiveMember(parent, e);
      }
    }
    RewriteLivePaths(parent, h.changes[i].taken, h.changes[i].files, h.snapshots[i].seqNum);
  }

  /** When a compaction of the whole table ends the window, the stream is empty and all its appends are lost. */
  lemma {:induction false} FullRewriteHidesWindow(table: Metadata, h: History, a: nat, t: nat)
    requires WellFormed(table) && Linear(h) && Retains(table, h) && 0 < a < t <= |h.snapshots|
    requires h.changes[t - 1].Rewrote? && PathsOf(h.changes[t - 1].taken) == LivePaths(ParentOf(h, t - 1))
    ensures PathsOf(Planned(table, h.snapshots[a - 1].id, h.snapshots[t - 1])) == {}
    ensures AppendedRows(h, a) + LostRows(h, a, t) == AppendedRows(h, t)
  {
    var plan := Planned(table, h.snapshots[a - 1].id, h.snapshots[t - 1]);
    FullRewriteLive(h, t - 1);
    RangeScanIsExact(table, h, a - 1, t - 1);
    forall p ensures p !in PathsOf(plan) {
      if AppendedIn(h, a - 1, t - 1, p) {
        var k :| a - 1 < k <= t - 1 && h.changes[k].Appended? && p in NewAt(h, k);
        NewAtIsWritten(h, k);
      }
    }
    ScanAccount(table, h, a, t);
    FirstPath(plan);
  }

  lemma {:induction false} FirstPath(entries: seq<Entry>)
    ensures entries != [] ==> entries[0].file.path in PathsOf(entries)
  {
  }

  /** The poll sends a stream. */
  ghost predicate Sends(s: State, loaded: bool, send: SendResult) {
    && Enabled(s, PollEvent(loaded, send))
    && Poll(s.poller, SignalOf(s), if loaded then Some(s.table) else None, send).2.Some?
  }

  lemma {:induction false} SentStream(s: State, loaded: bool, send: SendResult)
    requires Inv(s) && Sends(s, loaded, send)
    ensures s.outstanding.Some? ==> s.outstanding.value.signal != Waiting
    ensures var next, n := Step(s, PollEvent(loaded, send)), |s.history.snapshots|;
            && next.outstanding.Some? && next.outstanding.value.upTo == n <= |s.history.changes|
            && next.checkpoint == Consumed(s) < n
            && AppendedRows(s.history, Consumed(s)) + next.outstanding.value.rows + LostBy(s.history, Consumed(s), n)
               == AppendedRows(s.history, n)
  {
    var table := if loaded then Some(s.table) else None;
    SettleKeepsInv(s);
    PollShape(s.poller, SignalOf(s), table, send);
    StreamAccount(s.table, s.history, Consumed(s));
  }

  /**
   In every run a stream is only sent once the one before it is settled; it
   starts where the acknowledged and lost rows end and reaches to the end of
   the history.
   */
  lemma {:induction false} StreamsFollowOneAnother(trace: seq<State>, events: seq<Event>, loaded: bool,
                                                   send: SendResult)
    requires IsRun(trace, events) && Sends(trace[|events|], loaded, send)
    ensures var s, next := trace[|events|], Step(trace[|events|], PollEvent(loaded, send));
            var n := |s.history.snapshots|;
            && (s.outstanding.Some? ==> s.outstanding.value.signal != Waiting)
            && next.outstanding.Some? && next.outstanding.value.upTo == n <= |s.history.changes|
            && next.checkpoint == Consumed(s) < n
            && AppendedRows(s.history, Consumed(s)) + next.outstanding.value.rows + LostBy(s.history, Consumed(s), n)
               == AppendedRows(s.history, n)
  {
    RunKeepsInv(trace, events);
    SentStream(trace[|events|], loaded, send);
  }
}
