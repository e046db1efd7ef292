/**
 Appenders, compactors and a poller on one unpartitioned table at the same
 time: main is always a linear, row-preserving history that the table retains,
 so that what the poller acknowledges can be held against what was appended.
 */
module PolledRuns {
  import opened Wrappers
  import opened Catalog
  import opened CatalogServer
  import opened Rewrite
  import opened History
  import P = IcebergPoller
  import R = CompactionRuns

  // ------------------------------------------------------------------
  // One more snapshot
  // ------------------------------------------------------------------

  /** `s` is what `change` makes of the main that `table` shows. */
  ghost predicate Follows(table: Metadata, h: History, change: Change, s: Snapshot) {
    && s.id !in table.snapshots && s.seqNum > table.lastSeqNum
    && s.parent == table.Ref(MAIN)
    && s.operation == (if change.Appended? then Append else Replace)
    && s.manifests == Applied(table.ManifestsOf(MAIN), change, s.seqNum)
    && DistinctFiles(change.files)
    && (forall i :: 0 <= i < |h.changes| ==> FilePaths(h.changes[i].files) !! FilePaths(change.files))
  }

  lemma {:induction false} ShownMain(table: Metadata, h: History)
    requires P.Shows(table, h)
    ensures table.ManifestsOf(MAIN) == ParentOf(h, |h.snapshots|)
    ensures table.Ref(MAIN) == if h.snapshots == [] then None else Some(h.snapshots[|h.snapshots| - 1].id)
  {
  }

  lemma {:induction false} ExtendedIsLinear(table: Metadata, h: History, change: Change, s: Snapshot)
    requires P.Shows(table, h) && Follows(table, h, change, s)
    ensures Linear(P.Extended(h, change, s))
  {
    var longer, n := P.Extended(h, change, s), |h.snapshots|;
    ShownMain(table, h);
    forall i | 0 <= i < |longer.snapshots| ensures LinkAt(longer, i) {
      if i < n {
        assert LinkAt(h, i) && ParentOf(longer, i) == ParentOf(h, i);
      } else {
        assert ParentOf(longer, n) == ParentOf(h, n);
      }
    }
    forall i | 0 <= i < n ensures h.snapshots[i].seqNum < s.seqNum && h.snapshots[i].id != s.id {
      assert h.snapshots[i].id in table.snapshots;
    }
  }

  /** What a rewrite needs for the rows to stay the same. */
  ghost predicate KeepsRows(main: seq<Manifest>, change: Change) {
    change.Rewrote? ==>
      && NoMixing(main, PathsOf(change.taken))
      && FileRows(change.files) == RowsOf(Select(LiveEntries(main), PathsOf(change.taken)))
  }

  lemma {:induction false} ExtendedKeepsRows(table: Metadata, h: History, change: Change, s: Snapshot)
    requires P.Shows(table, h) && Linear(P.Extended(h, change, s)) && KeepsRows(table.ManifestsOf(MAIN), change)
    ensures P.RowPreserving(P.Extended(h, change, s))
  {
    var longer := P.Extended(h, change, s);
    ShownMain(table, h);
    forall i | 0 <= i < |longer.changes| && longer.changes[i].Rewrote?
      ensures KeepsRows(ParentOf(longer, i), longer.changes[i])
    {
      assert ParentOf(longer, i) == ParentOf(h, i);
    }
  }

  function Advanced(table: Metadata, s: Snapshot): Metadata {
    Metadata(table.snapshots[s.id := s], table.refs[MAIN := s.id], s.seqNum)
  }

  lemma {:induction false} AdvancedIsWellFormed(table: Metadata, s: Snapshot)
    requires WellFormed(table) && s.id !in table.snapshots && s.seqNum > table.lastSeqNum && s.parent == table.Ref(MAIN)
    ensures WellFormed(Advanced(table, s))
  {
    if s.parent.Some? {
      var id := table.refs[MAIN];
      assert id in table.snapshots && table.snapshots[id].seqNum <= table.lastSeqNum;
      assert id != s.id;
    }
    forall id | id in table.snapshots && table.snapshots[id].parent.Some?
      ensures table.snapshots[id].parent.value in table.snapshots && table.snapshots[id].parent.value != s.id
    {
    }
  }

  lemma {:induction false} ExtendedIsShown(table: Metadata, h: History, change: Change, s: Snapshot)
    requires P.Shows(table, h) && Follows(table, h, change, s) && KeepsRows(table.ManifestsOf(MAIN), change)
    ensures P.Shows(Advanced(table, s), P.Extended(h, change, s))
  {
    ExtendedIsLinear(table, h, change, s);
    ExtendedKeepsRows(table, h, change, s);
    AdvancedIsWellFormed(table, s);
  }

  // ------------------------------------------------------------------
  // Every run builds a history
  // ------------------------------------------------------------------

  /** The table shows `h`; what compactions under way have written is not in it. */
  ghost predicate Tracks(s: R.State, h: History) {
    && P.Shows(s.table, h)
    && (forall i :: 0 <= i < |h.changes| ==> FilePaths(h.changes[i].files) <= s.used)
    && (forall w <- s.workers, i :: s.workers[w].Pending() && 0 <= i < |h.changes| ==>
          FilePaths(h.changes[i].files) !! FilePaths(s.workers[w].output))
  }

  /** The change that an event makes to main, if the catalog accepts it. */
  ghost function ChangeOf(s: R.State, event: R.Event): Option<(Change, Snapshot)>
    requires R.Enabled(s, event)
  {
    match event
    case AppendFiles(base, files, id) =>
      var snapshot := AppendSnapshot(base, MAIN, files, id, None);
      if Commit(s.table, AdvanceRequest(base, MAIN, snapshot)).Ok? then Some((Appended(files), snapshot)) else None
    case Submit(w, id) =>
      var j := s.workers[w];
      if Commit(s.table, R.RewriteRequest(j, id)).Ok? then
        Some((Rewrote(j.phase.entries, j.output), RewriteSnapshot(j.phase.base, j.phase.entries, j.output, id)))
      else
        None
    case _ => None
  }

  ghost function HistoryAfter(s: R.State, h: History, event: R.Event): History
    requires R.Enabled(s, event)
  {
    match ChangeOf(s, event)
    case None => h
    case Some(c) => P.Extended(h, c.0, c.1)
  }

  lemma {:induction false} AppendExtends(s: R.State, h: History, event: R.Event)
    requires R.Inv(s) && Tracks(s, h) && R.Enabled(s, event) && event.AppendFiles? && ChangeOf(s, event).Some?
    ensures Tracks(R.Step(s, event), HistoryAfter(s, h, event))
  {
    var AppendFiles(base, files, id) := event;
    var snapshot := AppendSnapshot(base, MAIN, files, id, None);
    CommitOfAdvance(s.table, base, MAIN, snapshot);
    SameRefSameManifests(base, s.table, MAIN);
    ExtendedIsShown(s.table, h, Appended(files), snapshot);
    forall w | w in s.workers && s.workers[w].Pending() ensures FilePaths(files) !! FilePaths(s.workers[w].output) {
      assert R.WorkerInv(R.Main(s.table), s.used, s.workers[w]);
    }
  }

  lemma {:induction false} SubmitFollows(s: R.State, h: History, event: R.Event)
    requires R.Inv(s) && Tracks(s, h) && R.Enabled(s, event) && event.Submit? && ChangeOf(s, event).Some?
    ensures var (change, snapshot) := ChangeOf(s, event).value;
            && Follows(s.table, h, change, snapshot) && KeepsRows(s.table.ManifestsOf(MAIN), change)
            && R.Step(s, event).table == Advanced(s.table, snapshot)
  {
    var j := s.workers[event.worker];
    var snapshot := RewriteSnapshot(j.phase.base, j.phase.entries, j.output, event.id);
    CommitOfAdvance(s.table, j.phase.base, MAIN, snapshot);
    SameRefSameManifests(j.phase.base, s.table, MAIN);
    assert R.WorkerInv(R.Main(s.table), s.used, j) && R.BaseInv(s.table, j);
  }

  lemma {:induction false} SubmittedOutput(s: R.State, event: R.Event)
    requires R.Inv(s) && R.Enabled(s, event) && event.Submit?
    ensures var output := s.workers[event.worker].output;
            && FilePaths(output) <= s.used
            && forall w <- s.workers :: w != event.worker && s.workers[w].Pending() ==>
                 FilePaths(output) !! FilePaths(s.workers[w].output)
  {
    var j := s.workers[event.worker];
    assert R.WorkerInv(R.Main(s.table), s.used, j);
    forall w | w in s.workers && w != event.worker && s.workers[w].Pending()
      ensures FilePaths(j.output) !! FilePaths(s.workers[w].output)
    {
      assert R.PairInv(j, s.workers[w]);
    }
  }

  lemma {:induction false} SubmitExtends(s: R.State, h: History, event: R.Event)
    requires R.Inv(s) && Tracks(s, h) && R.Enabled(s, event) && event.Submit? && ChangeOf(s, event).Some?
    ensures Tracks(R.Step(s, event), HistoryAfter(s, h, event))
  {
    var j := s.workers[event.worker];
    var (change, snapshot) := ChangeOf(s, event).value;
    SubmitFollows(s, h, event);
    ExtendedIsShown(s.table, h, change, snapshot);
    SubmittedOutput(s, event);
    assert FilePaths(change.files) == FilePaths(j.output);
  }

  lemma {:induction false} OtherEventsKeep(s: R.State, h: History, event: R.Event)
    requires R.Inv(s) && Tracks(s, h) && R.Enabled(s, event) && ChangeOf(s, event).None?
    ensures R.Step(s, event).table == s.table && Tracks(R.Step(s, event), h)
  {
  }

  lemma {:induction false} StepTracks(s: R.State, h: History, event: R.Event)
    requires R.Inv(s) && Tracks(s, h) && R.Enabled(s, event)
    ensures Tracks(R.Step(s, event), HistoryAfter(s, h, event))
  {
    if ChangeOf(s, event).None? {
      OtherEventsKeep(s, h, event);
    } else if event.AppendFiles? {
      AppendExtends(s, h, event);
    } else {
      SubmitExtends(s, h, event);
    }
  }

  // ------------------------------------------------------------------
  // Runs with a poller
  // ------------------------------------------------------------------

  datatype State = State(runs: R.State, poller: P.State)

  datatype Event =
    | OnTable(change: R.Event)
    | OnPoller(action: P.Event)

  const NOTHING := History([], [])

  const INITIAL :=
    State(R.INITIAL, P.State(NOTHING, EMPTY_TABLE, P.Poller(None, None), 0, 0, None, multiset{}, multiset{}))

  ghost predicate Enabled(s: State, event: Event) {
    match event
    case OnTable(e) => R.Enabled(s.runs, e)
    case OnPoller(e) => !e.Grow? && P.Enabled(s.poller, e)
  }

  ghost function Step(s: State, event: Event): State
    requires Enabled(s, event)
  {
    match event
    case OnTable(e) =>
      var next := R.Step(s.runs, e);
      State(next, s.poller.(history := HistoryAfter(s.runs, s.poller.history, e), table := next.table))
    case OnPoller(e) => s.(poller := P.Step(s.poller, e))
  }

  ghost predicate IsRun(trace: seq<State>, events: seq<Event>) {
    && |trace| == |events| + 1
    && trace[0] == INITIAL
    && forall i :: 0 <= i < |events| ==> Enabled(trace[i], events[i]) && trace[i + 1] == Step(trace[i], events[i])
  }

  ghost predicate Inv(s: State) {
    && R.Inv(s.runs) && P.Inv(s.poller)
    && s.poller.table == s.runs.table && s.poller.start == 0
    && Tracks(s.runs, s.poller.history)
  }

  lemma {:induction false} TableStep(s: State, event: R.Event)
    requires Inv(s) && R.Enabled(s.runs, event)
    ensures Inv(Step(s, OnTable(event)))
  {
    var next := Step(s, OnTable(event));
    R.StepKeepsInv(s.runs, event);
    StepTracks(s.runs, s.poller.history, event);
    match ChangeOf(s.runs, event)
    case None =>
      OtherEventsKeep(s.runs, s.poller.history, event);
      assert next.poller == s.poller;
    case Some(c) =>
      P.StepKeepsInv(s.poller, P.Grow(c.0, c.1, next.runs.table));
  }

  lemma {:induction false} PollerKeepsTable(s: P.State, event: P.Event)
    requires !event.Grow? && P.Enabled(s, event)
    ensures var next := P.Step(s, event);
            next.history == s.history && next.table == s.table && next.start == s.start
  {
  }

  lemma {:induction false} PollerStep(s: State, event: P.Event)
    requires Inv(s) && !event.Grow? && P.Enabled(s.poller, event)
    ensures Inv(Step(s, OnPoller(event)))
  {
    P.StepKeepsInv(s.poller, event);
    PollerKeepsTable(s.poller, event);
    var next := P.Step(s.poller, event);
    assert Step(s, OnPoller(event)) == State(s.runs, next);
  }

  lemma {:induction false} StartsWell()
    ensures Inv(INITIAL)
  {
    var s := INITIAL.poller;
    assert P.AppendedRows(s.history, 0) == multiset{};
  }

  lemma {:induction false} RunKeepsInv(trace: seq<State>, events: seq<Event>)
    requires IsRun(trace, events)
    ensures Inv(trace[|events|])
  {
    if events == [] {
      StartsWell();
    } else {
      var n := |events| - 1;
      RunKeepsInv(trace[..n + 1], events[..n]);
      match events[n]
      case OnTable(e) => TableStep(trace[n], e);
      case OnPoller(e) => PollerStep(trace[n], e);
    }
  }

  lemma {:induction false} ShownRows(table: Metadata, h: History)
    requires P.Shows(table, h)
    ensures TableRows(table.ManifestsOf(MAIN)) == P.AppendedRows(h, |h.changes|)
  {
    ShownMain(table, h);
    if |h.snapshots| > 0 {
      P.FullScanRows(h, |h.snapshots|);
    }
  }

  lemma {:induction false} PollerAccount(s: P.State)
    requires P.Inv(s) && s.start == 0
    ensures var h, seen := s.history, P.Consumed(s);
            && seen <= |h.changes|
            && s.acked + s.lost == P.AppendedRows(h, seen)
            && P.AppendedRows(h, seen) + FileRows(P.WindowFiles(h, seen, |h.changes|)) == P.AppendedRows(h, |h.changes|)
  {
    P.WindowRows(s.history, P.Consumed(s), |s.history.changes|);
    assert P.AppendedRows(s.history, 0) == multiset{};
  }

  /**
   In every interleaving of appends, compactions with their retries and
   crashes, polls and acknowledgements: what has been acknowledged and what
   was lost make up what was appended before the checkpoint, the rest of what
   was appended lies behind it, and a poller that has caught up has accounted
   for every row of the table.
   */
  lemma {:induction false} PolledRowsAreConserved(trace: seq<State>, events: seq<Event>)
    requires IsRun(trace, events)
    ensures var s := trace[|events|];
            var h, seen := s.poller.history, P.Consumed(s.poller);
            && seen <= |h.changes|
            && s.poller.acked + s.poller.lost == P.AppendedRows(h, seen)
            && TableRows(s.runs.table.ManifestsOf(MAIN)) == s.runs.appended == P.AppendedRows(h, |h.changes|)
            && s.poller.acked + s.poller.lost + FileRows(P.WindowFiles(h, seen, |h.changes|)) == s.runs.appended
  {
    RunKeepsInv(trace, events);
    var s := trace[|events|];
    ShownRows(s.runs.table, s.poller.history);
    assert R.TableInv(R.Main(s.runs.table), s.runs.used, s.runs.appended);
    PollerAccount(s.poller);
  }
}
