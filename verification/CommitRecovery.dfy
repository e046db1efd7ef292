/**
 The sink's pipelined commits and their crash recovery. Every commit first
 records its data files in a local manifest, then asks the catalog to append
 them in the background, and removes the manifest once the answer counts as
 committed. A restart asks the catalog again for every manifest it finds.

 A request that was sent may land at any later time unless the catalog refused
 it, whether or not anybody is left to hear the answer.
 */
module CommitRecovery {
  import opened Wrappers

  type Path = nat
  type CommitId = nat

  datatype Status = Open | Landed | Refused

  /** A request to the catalog to append `files`. */
  datatype Request = Request(files: set<Path>, status: Status)

  /** What the committing task hears. `OtherError` says nothing about whether the files landed. */
  datatype Answer = Committed | AlreadyReferenced | Conflict | OtherError

  datatype Task = Task(files: set<Path>, request: nat, recovery: bool, manifest: bool, answer: Option<Answer>)

  /** The request that a commit sent, and the process that sent it. */
  datatype Sent = Sent(request: nat, restarts: nat)

  /**
   `prepared`, `recorded`, `dropped`, `sent` and `heard` are history: all data
   files ever written, all those ever put in a manifest, those whose manifest
   was removed because of a conflict, what each commit sent and what its task
   was told. Ids of commits are never used twice.
   */
  datatype State = State(
    running: bool,
    disk: map<CommitId, set<Path>>,
    todo: set<CommitId>,
    tasks: map<CommitId, Task>,
    requests: seq<Request>,
    restarts: nat,
    prepared: set<Path>,
    recorded: set<Path>,
    dropped: set<Path>,
    sent: map<CommitId, Sent>,
    heard: map<CommitId, Answer>)

  const START := State(true, map[], {}, map[], [], 0, {}, {}, {}, map[], map[])

  datatype Event =
    /** Write `files`, record `kept` of them (all of them unless recording failed) and send the request. */
    | Prepare(id: CommitId, files: set<Path>, kept: set<Path>, recordFailed: bool)
    | Land(request: nat)
    | Reply(id: CommitId, answer: Answer)
    /** Handle a completed task; `removed` is false when reloading the table or removing the manifest failed. */
    | Complete(id: CommitId, removed: bool)
    | Panic(id: CommitId)
    | Stop
    | Restart
    | Recover(id: CommitId)

  /** The answers after which the manifest goes. */
  predicate TreatedAsCommitted(answer: Answer) {
    answer != OtherError
  }

  function Appended(s: State): set<Path> {
    set r, p | 0 <= r < |s.requests| && s.requests[r].status.Landed? && p in s.requests[r].files :: p
  }

  function OnDisk(s: State): set<Path> {
    set id, p | id in s.disk && p in s.disk[id] :: p
  }

  function Lost(s: State): set<Path> {
    s.recorded - Appended(s) - OnDisk(s)
  }

  /** How many requests ask for `p` to be appended. */
  function Asked(requests: seq<Request>, p: Path): nat {
    if requests == [] then 0
    else Asked(requests[..|requests| - 1], p) + if p in requests[|requests| - 1].files then 1 else 0
  }

  /** How often `p` has been appended to the table. */
  function Times(requests: seq<Request>, p: Path): nat {
    if requests == [] then 0
    else
      var r := requests[|requests| - 1];
      Times(requests[..|requests| - 1], p) + if p in r.files && r.status.Landed? then 1 else 0
  }

  ghost predicate Enabled(s: State, event: Event) {
    match event
    case Prepare(id, files, kept, recordFailed) =>
      && s.running && s.todo == {} && (forall t <- s.tasks :: !s.tasks[t].recovery)
      && id !in s.disk && id !in s.tasks && id !in s.sent
      && files !! s.prepared && kept <= files && (recordFailed || kept == files)
    case Land(r) => r < |s.requests| && s.requests[r].status.Open?
    case Reply(id, answer) =>
      && id in s.tasks && s.tasks[id].answer == None && s.tasks[id].request < |s.requests|
      && var t := s.tasks[id];
         (match answer
          case Committed => s.requests[t.request].status.Landed?
          // The duplicate check; recovery switches it off.
          case AlreadyReferenced => !t.recovery && exists p <- t.files :: p in Appended(s)
          case Conflict => s.requests[t.request].status.Open?
          case OtherError => true)
    case Complete(id, _) => id in s.tasks && s.tasks[id].answer.Some?
    case Panic(id) => id in s.tasks
    case Stop => true
    case Restart => !s.running
    // One manifest after the other, before anything else is done.
    case Recover(id) => s.running && id in s.todo && s.tasks == map[] && id in s.disk
  }

  ghost function Step(s: State, event: Event): State
    requires Enabled(s, event)
  {
    match event
    case Prepare(id, files, kept, recordFailed) =>
      s.(disk := if recordFailed && kept == {} then s.disk else s.disk[id := kept],
         tasks := s.tasks[id := Task(files, |s.requests|, false, !recordFailed, None)],
         requests := s.requests + [Request(files, Open)],
         prepared := s.prepared + files,
         recorded := s.recorded + kept,
         sent := s.sent[id := Sent(|s.requests|, s.restarts)])
    case Land(r) => s.(requests := s.requests[r := s.requests[r].(status := Landed)])
    case Reply(id, answer) =>
      var t := s.tasks[id];
      s.(tasks := s.tasks[id := t.(answer := Some(answer))],
         requests := if answer.Conflict? then s.requests[t.request := s.requests[t.request].(status := Refused)]
                     else s.requests,
         heard := if t.recovery then s.heard else s.heard[id := answer])
    case Complete(id, removed) =>
      var t := s.tasks[id];
      if TreatedAsCommitted(t.answer.value) && t.manifest && removed && id in s.disk then
        s.(tasks := s.tasks - {id}, disk := s.disk - {id},
           dropped := s.dropped + if t.answer == Some(Conflict) then s.disk[id] else {})
      else
        s.(tasks := s.tasks - {id})
    case Panic(id) => s.(tasks := s.tasks - {id})
    case Stop => s.(running := false, tasks := map[], todo := {})
    case Restart => s.(running := true, tasks := map[], todo := s.disk.Keys, restarts := s.restarts + 1)
    case Recover(id) =>
      s.(todo := s.todo - {id},
         tasks := map[id := Task(s.disk[id], |s.requests|, true, true, None)],
         requests := s.requests + [Request(s.disk[id], Open)])
  }

  ghost predicate IsRun(trace: seq<State>, events: seq<Event>) {
    && |trace| == |events| + 1
    && trace[0] == START
    && forall i :: 0 <= i < |events| ==> Enabled(trace[i], events[i]) && trace[i + 1] == Step(trace[i], events[i])
  }

  // ------------------------------------------------------------------
  // Invariants
  // ------------------------------------------------------------------

  /** Everything that names a file names one that was prepared. */
  ghost predicate InPrepared(s: State) {
    && s.recorded <= s.prepared
    && s.dropped <= s.recorded
    && (forall r :: 0 <= r < |s.requests| ==> s.requests[r].files <= s.prepared)
    && (forall id <- s.disk :: s.disk[id] <= s.recorded)
  }

  ghost predicate DiskDistinct(s: State) {
    && (forall a <- s.disk, b <- s.disk :: a != b ==> s.disk[a] !! s.disk[b])
    && (forall id <- s.disk :: s.disk[id] !! s.dropped)
  }

  ghost predicate TaskInv(s: State, id: CommitId)
    requires id in s.tasks
  {
    var t := s.tasks[id];
    && t.request < |s.requests| && s.requests[t.request].files == t.files
    && (id in s.disk ==> s.disk[id] <= t.files)
    && (!t.recovery ==> forall r :: 0 <= r < |s.requests| && r != t.request ==> s.requests[r].files !! t.files)
    && (t.answer == Some(Committed) || t.answer == Some(AlreadyReferenced) ==> s.requests[t.request].status.Landed?)
    && (t.answer == Some(Conflict) ==> s.requests[t.request].status.Refused?)
  }

  ghost predicate TasksInv(s: State) {
    && (forall id <- s.tasks :: TaskInv(s, id))
    && (forall a <- s.tasks, b <- s.disk :: a != b ==> s.tasks[a].files !! s.disk[b])
    && (forall a <- s.tasks, b <- s.tasks :: a != b ==> s.tasks[a].request != s.tasks[b].request)
    && (!s.running ==> s.tasks == map[] && s.todo == {})
  }

  ghost predicate Accounted(s: State) {
    s.recorded <= Appended(s) + OnDisk(s) + s.dropped
  }

  ghost predicate Inv(s: State) {
    InPrepared(s) && DiskDistinct(s) && TasksInv(s) && Accounted(s)
  }

  lemma {:induction false} AppendedGrows(s: State, next: State)
    requires |s.requests| <= |next.requests|
    requires forall r :: 0 <= r < |s.requests| && s.requests[r].status.Landed? ==> next.requests[r] == s.requests[r]
    ensures Appended(s) <= Appended(next)
  {
    forall p | p in Appended(s) ensures p in Appended(next) {
      var r :| 0 <= r < |s.requests| && s.requests[r].status.Landed? && p in s.requests[r].files;
      assert next.requests[r] == s.requests[r];
    }
  }

  lemma {:induction false} DiskGrows(s: State, next: State)
    requires forall id <- s.disk :: id in next.disk && next.disk[id] == s.disk[id]
    ensures OnDisk(s) <= OnDisk(next)
  {
  }

  /** A request with some file of a live, first-time task is that task's own. */
  lemma {:induction false} OwnRequestLanded(s: State, id: CommitId)
    requires id in s.tasks && TaskInv(s, id) && !s.tasks[id].recovery
    requires exists p <- s.tasks[id].files :: p in Appended(s)
    ensures s.requests[s.tasks[id].request].status.Landed?
  {
    var p :| p in s.tasks[id].files && p in Appended(s);
    var r :| 0 <= r < |s.requests| && s.requests[r].status.Landed? && p in s.requests[r].files;
  }

  lemma {:induction false} PrepareKeepsFiles(s: State, event: Event)
    requires InPrepared(s) && DiskDistinct(s) && Accounted(s) && event.Prepare? && Enabled(s, event)
    ensures InPrepared(Step(s, event)) && DiskDistinct(Step(s, event)) && Accounted(Step(s, event))
  {
    var next := Step(s, event);
    AppendedGrows(s, next);
    DiskGrows(s, next);
    forall p | p in event.kept ensures p in OnDisk(next) {
      assert event.id in next.disk && p in next.disk[event.id];
    }
  }

  lemma {:induction false} PrepareKeepsEachTask(s: State, event: Event, id: CommitId)
    requires InPrepared(s) && event.Prepare? && Enabled(s, event) && id in Step(s, event).tasks
    requires id in s.tasks ==> TaskInv(s, id)
    ensures TaskInv(Step(s, event), id)
  {
  }

  lemma {:induction false} PrepareKeepsTasks(s: State, event: Event)
    requires InPrepared(s) && TasksInv(s) && event.Prepare? && Enabled(s, event)
    ensures TasksInv(Step(s, event))
  {
    var next := Step(s, event);
    forall id | id in next.tasks ensures TaskInv(next, id) {
      PrepareKeepsEachTask(s, event, id);
    }
    forall a | a in s.tasks ensures s.tasks[a].files <= s.prepared && s.tasks[a].request < |s.requests| {
      assert TaskInv(s, a);
    }
    forall a, b | a in next.tasks && b in next.disk && a != b ensures next.tasks[a].files !! next.disk[b] {
      assert a != event.id ==> next.tasks[a] == s.tasks[a];
      assert b != event.id ==> next.disk[b] == s.disk[b];
    }
  }

  lemma {:induction false} LandStep(s: State, event: Event)
    requires Inv(s) && event.Land? && Enabled(s, event)
    ensures Inv(Step(s, event))
  {
    var next := Step(s, event);
    AppendedGrows(s, next);
    assert OnDisk(next) == OnDisk(s);
    forall id | id in next.tasks ensures TaskInv(next, id) {
      assert TaskInv(s, id);
    }
  }

  lemma {:induction false} ReplyKeepsTasks(s: State, event: Event)
    requires TasksInv(s) && event.Reply? && Enabled(s, event)
    ensures TasksInv(Step(s, event))
  {
    var next := Step(s, event);
    assert TaskInv(s, event.id);
    if event.answer.AlreadyReferenced? {
      OwnRequestLanded(s, event.id);
    }
    forall id | id in next.tasks ensures TaskInv(next, id) {
      assert TaskInv(s, id);
    }
  }

  lemma {:induction false} ReplyStep(s: State, event: Event)
    requires Inv(s) && event.Reply? && Enabled(s, event)
    ensures Inv(Step(s, event))
  {
    var next := Step(s, event);
    ReplyKeepsTasks(s, event);
    AppendedGrows(s, next);
    assert OnDisk(next) == OnDisk(s);
  }

  lemma {:induction false} CompleteKeepsTasks(s: State, event: Event)
    requires InPrepared(s) && DiskDistinct(s) && TasksInv(s) && event.Complete? && Enabled(s, event)
    ensures TasksInv(Step(s, event))
  {
    var next := Step(s, event);
    forall id | id in next.tasks ensures TaskInv(next, id) {
      assert TaskInv(s, id);
    }
  }

  lemma {:induction false} CompleteAccounts(s: State, event: Event)
    requires InPrepared(s) && TasksInv(s) && Accounted(s) && event.Complete? && Enabled(s, event)
    ensures Accounted(Step(s, event))
  {
    var next := Step(s, event);
    var t := s.tasks[event.id];
    assert TaskInv(s, event.id);
    AppendedGrows(s, next);
    assert forall id <- s.disk :: id != event.id ==> id in next.disk && next.disk[id] == s.disk[id];
    forall p | p in s.recorded ensures p in Appended(next) + OnDisk(next) + next.dropped {
      if p in OnDisk(s) && p !in OnDisk(next) {
        var id :| id in s.disk && p in s.disk[id];
        if t.answer != Some(Conflict) {
          assert s.requests[t.request].status.Landed? && p in s.requests[t.request].files;
        }
      }
    }
  }

  lemma {:induction false} CompleteStep(s: State, event: Event)
    requires Inv(s) && event.Complete? && Enabled(s, event)
    ensures Inv(Step(s, event))
  {
    assert TaskInv(s, event.id);
    CompleteAccounts(s, event);
    CompleteKeepsTasks(s, event);
  }

  lemma {:induction false} RecoverStep(s: State, event: Event)
    requires Inv(s) && event.Recover? && Enabled(s, event)
    ensures Inv(Step(s, event))
  {
    var next := Step(s, event);
    AppendedGrows(s, next);
    assert OnDisk(next) == OnDisk(s);
    assert TaskInv(next, event.id);
  }

  lemma {:induction false} StepKeepsInv(s: State, event: Event)
    requires Inv(s) && Enabled(s, event)
    ensures Inv(Step(s, event))
  {
    match event
    case Prepare(_, _, _, _) =>
      PrepareKeepsFiles(s, event);
      PrepareKeepsTasks(s, event);
    case Land(_) => LandStep(s, event);
    case Reply(_, _) => ReplyStep(s, event);
    case Complete(_, _) => CompleteStep(s, event);
    case Recover(_) => RecoverStep(s, event);
    case Panic(id) =>
      var next := Step(s, event);
      assert OnDisk(next) == OnDisk(s) && Appended(next) == Appended(s);
      forall other | other in next.tasks ensures TaskInv(next, other) {
        assert TaskInv(s, other);
      }
    case _ =>
      var next := Step(s, event);
      assert OnDisk(next) == OnDisk(s) && Appended(next) == Appended(s);
  }

  lemma {:induction false} RunKeepsInv(trace: seq<State>, events: seq<Event>)
    requires IsRun(trace, events)
    ensures Inv(trace[|events|])
  {
    if events != [] {
      var n := |events| - 1;
      RunKeepsInv(trace[..n + 1], events[..n]);
      StepKeepsInv(trace[n], events[n]);
    }
  }

  // ------------------------------------------------------------------
  // No recorded file is lost, except to a conflict
  // ------------------------------------------------------------------

  /**
   At every moment of every run, crashes included, the recorded files that
   are neither in the table nor in a manifest are exactly those whose manifest
   was removed after a conflict and that did not land in some other way.
   */
  lemma {:induction false} LostExactlyToConflicts(trace: seq<State>, events: seq<Event>)
    requires IsRun(trace, events)
    ensures var s := trace[|events|]; Lost(s) == s.dropped - Appended(s)
  {
    RunKeepsInv(trace, events);
    var s := trace[|events|];
    assert s.dropped !! OnDisk(s);
  }

  /** No manifest was removed because of a conflict, nor will be for an answer heard so far. */
  ghost predicate NoConflicts(s: State) {
    s.dropped == {} && forall id <- s.tasks :: s.tasks[id].answer != Some(Conflict)
  }

  lemma {:induction false} StepWithoutConflict(s: State, event: Event)
    requires NoConflicts(s) && Enabled(s, event) && !(event.Reply? && event.answer.Conflict?)
    ensures NoConflicts(Step(s, event))
  {
    var next := Step(s, event);
    assert next.dropped == {};
    forall id | id in next.tasks ensures next.tasks[id].answer != Some(Conflict) {
      assert id in s.tasks ==> s.tasks[id].answer != Some(Conflict);
    }
  }

  lemma {:induction false} DropsNeedConflicts(trace: seq<State>, events: seq<Event>)
    requires IsRun(trace, events)
    requires forall e <- events :: !(e.Reply? && e.answer.Conflict?)
    ensures NoConflicts(trace[|events|])
  {
    if events != [] {
      var n := |events| - 1;
      assert forall e <- events[..n] :: e in events;
      DropsNeedConflicts(trace[..n + 1], events[..n]);
      assert events[n] in events;
      StepWithoutConflict(trace[n], events[n]);
    }
  }

  /** At-least-once: as long as the catalog answers no conflict, nothing recorded is ever lost. */
  lemma {:induction false} NothingRecordedIsLost(trace: seq<State>, events: seq<Event>)
    requires IsRun(trace, events)
    requires forall e <- events :: !(e.Reply? && e.answer.Conflict?)
    ensures trace[|events|].recorded <= Appended(trace[|events|]) + OnDisk(trace[|events|])
  {
    RunKeepsInv(trace, events);
    DropsNeedConflicts(trace, events);
  }

  // ------------------------------------------------------------------
  // How often a file is appended
  // ------------------------------------------------------------------

  lemma {:induction false} TimesWithinAsked(requests: seq<Request>, p: Path)
    ensures Times(requests, p) <= Asked(requests, p)
  {
    if requests != [] {
      TimesWithinAsked(requests[..|requests| - 1], p);
    }
  }

  lemma {:induction false} AskedSameFiles(a: seq<Request>, b: seq<Request>, p: Path)
    requires |a| == |b| && forall r :: 0 <= r < |a| ==> a[r].files == b[r].files
    ensures Asked(a, p) == Asked(b, p)
  {
    if a != [] {
      AskedSameFiles(a[..|a| - 1], b[..|b| - 1], p);
    }
  }

  lemma {:induction false} AskedSnoc(requests: seq<Request>, r: Request, p: Path)
    ensures Asked(requests + [r], p) == Asked(requests, p) + if p in r.files then 1 else 0
  {
    assert (requests + [r])[..|requests|] == requests;
  }

  lemma {:induction false} NotAsked(requests: seq<Request>, p: Path)
    requires forall r :: 0 <= r < |requests| ==> p !in requests[r].files
    ensures Asked(requests, p) == 0
  {
    if requests != [] {
      NotAsked(requests[..|requests| - 1], p);
    }
  }

  /** In this process the manifests still to be recovered have not been asked for. */
  ghost predicate AskedInv(s: State) {
    && s.todo <= s.disk.Keys && s.todo !! s.tasks.Keys
    && forall p :: Asked(s.requests, p) <= 1 + s.restarts
         && (forall id <- s.todo :: id in s.disk && p in s.disk[id] ==> Asked(s.requests, p) <= s.restarts)
  }

  lemma {:induction false} AskedStep(s: State, event: Event, p: Path)
    requires InPrepared(s) && Enabled(s, event)
    ensures Asked(Step(s, event).requests, p) ==
            Asked(s.requests, p) + match event
                                   case Prepare(_, files, _, _) => if p in files then 1 else 0
                                   case Recover(id) => if p in s.disk[id] then 1 else 0
                                   case _ => 0
    ensures event.Prepare? && p in event.files ==> Asked(s.requests, p) == 0
  {
    match event
    case Prepare(_, files, _, _) =>
      AskedSnoc(s.requests, Request(files, Open), p);
      if p in files {
        NotAsked(s.requests, p);
      }
    case Recover(id) => AskedSnoc(s.requests, Request(s.disk[id], Open), p);
    case _ => AskedSameFiles(s.requests, Step(s, event).requests, p);
  }

  lemma {:induction false} StepKeepsAsked(s: State, event: Event)
    requires InPrepared(s) && DiskDistinct(s) && AskedInv(s) && Enabled(s, event)
    ensures AskedInv(Step(s, event))
  {
    var next := Step(s, event);
    forall p
      ensures Asked(next.requests, p) <= 1 + next.restarts
      ensures forall id <- next.todo :: id in next.disk && p in next.disk[id] ==>
                Asked(next.requests, p) <= next.restarts
    {
      AskedStep(s, event, p);
    }
  }

  lemma {:induction false} RunKeepsAsked(trace: seq<State>, events: seq<Event>)
    requires IsRun(trace, events)
    ensures AskedInv(trace[|events|])
  {
    if events != [] {
      var n := |events| - 1;
      RunKeepsAsked(trace[..n + 1], events[..n]);
      RunKeepsInv(trace[..n + 1], events[..n]);
      StepKeepsAsked(trace[n], events[n]);
    }
  }

  /** A file is appended at most once more than the sink was restarted. */
  lemma {:induction false} AppendsAreBoundedByRestarts(trace: seq<State>, events: seq<Event>, p: Path)
    requires IsRun(trace, events)
    ensures Times(trace[|events|].requests, p) <= 1 + trace[|events|].restarts
  {
    RunKeepsAsked(trace, events);
    TimesWithinAsked(trace[|events|].requests, p);
  }

  lemma {:induction false} LandedCounts(requests: seq<Request>, r: nat, p: Path)
    requires r < |requests| && requests[r].status.Landed? && p in requests[r].files
    ensures Times(requests, p) >= 1
  {
    if r < |requests| - 1 {
      LandedCounts(requests[..|requests| - 1], r, p);
    }
  }

  /** Without a crash a file goes into the table once, and exactly once when its task hears that it was committed. */
  lemma {:induction false} OnceWithoutCrash(trace: seq<State>, events: seq<Event>, id: CommitId, p: Path)
    requires IsRun(trace, events) && trace[|events|].restarts == 0
    requires var s := trace[|events|];
             id in s.tasks && s.tasks[id].answer in {Some(Committed), Some(AlreadyReferenced)} && p in s.tasks[id].files
    ensures Times(trace[|events|].requests, p) == 1
  {
    var s := trace[|events|];
    AppendsAreBoundedByRestarts(trace, events, p);
    RunKeepsInv(trace, events);
    assert TaskInv(s, id);
    LandedCounts(s.requests, s.tasks[id].request, p);
  }

  /** Once every manifest is gone and none went after a conflict, everything recorded is in the table. */
  lemma {:induction false} CleanDiskMeansAppended(trace: seq<State>, events: seq<Event>)
    requires IsRun(trace, events) && trace[|events|].disk == map[]
    requires forall e <- events :: !(e.Reply? && e.answer.Conflict?)
    ensures trace[|events|].recorded <= Appended(trace[|events|])
  {
    NothingRecordedIsLost(trace, events);
  }

  // ------------------------------------------------------------------
  // What an explicit commit that returned can rely on
  // ------------------------------------------------------------------

  /** No other request asks for any of its files. */
  ghost predicate Alone(requests: seq<Request>, r: nat) {
    r < |requests| && forall other :: 0 <= other < |requests| && other != r ==>
      requests[other].files !! requests[r].files
  }

  ghost predicate HeardInv(s: State, id: CommitId)
    requires id in s.heard
  {
    && id in s.sent && s.sent[id].request < |s.requests|
    && var status := s.requests[s.sent[id].request].status;
       match s.heard[id]
       case Committed => status.Landed?
       case AlreadyReferenced => status.Landed?
       case Conflict => status.Refused?
       case OtherError => true
  }

  ghost predicate SentInv(s: State) {
    && (forall id <- s.sent :: s.sent[id].request < |s.requests| && s.sent[id].restarts <= s.restarts)
    && (forall id <- s.sent :: s.sent[id].restarts == s.restarts ==>
          s.todo == {} && Alone(s.requests, s.sent[id].request))
    && (forall id <- s.tasks :: !s.tasks[id].recovery ==> id in s.sent && s.sent[id].request == s.tasks[id].request)
    && (forall id <- s.heard :: HeardInv(s, id))
  }

  lemma {:induction false} PrepareKeepsSent(s: State, event: Event)
    requires Inv(s) && SentInv(s) && Enabled(s, event) && event.Prepare?
    ensures SentInv(Step(s, event))
  {
    var next := Step(s, event);
    forall id | id in next.sent && next.sent[id].restarts == next.restarts
      ensures Alone(next.requests, next.sent[id].request)
    {
      if id != event.id {
        assert Alone(s.requests, s.sent[id].request);
      }
    }
    forall id | id in next.heard ensures HeardInv(next, id) {
      assert HeardInv(s, id);
    }
  }

  lemma {:induction false} ReplyKeepsSent(s: State, event: Event)
    requires Inv(s) && SentInv(s) && Enabled(s, event) && event.Reply?
    ensures SentInv(Step(s, event))
  {
    var next := Step(s, event);
    assert TaskInv(s, event.id);
    if event.answer.AlreadyReferenced? {
      OwnRequestLanded(s, event.id);
    }
    forall id | id in next.sent && next.sent[id].restarts == next.restarts
      ensures Alone(next.requests, next.sent[id].request)
    {
      assert Alone(s.requests, s.sent[id].request);
    }
    forall id | id in next.heard ensures HeardInv(next, id) {
      assert id in s.heard ==> HeardInv(s, id);
    }
  }

  lemma {:induction false} StepKeepsHeard(s: State, event: Event)
    requires SentInv(s) && Enabled(s, event) && !event.Prepare? && !event.Reply?
    ensures forall id <- Step(s, event).heard :: HeardInv(Step(s, event), id)
  {
    forall id | id in Step(s, event).heard ensures HeardInv(Step(s, event), id) {
      assert HeardInv(s, id);
    }
  }

  lemma {:induction false} StepKeepsSent(s: State, event: Event)
    requires Inv(s) && SentInv(s) && Enabled(s, event)
    ensures SentInv(Step(s, event))
  {
    match event
    case Prepare(_, _, _, _) => PrepareKeepsSent(s, event);
    case Reply(_, _) => ReplyKeepsSent(s, event);
    case Restart => StepKeepsHeard(s, event);
    case Recover(_) =>
      StepKeepsHeard(s, event);
      assert s.todo != {};
    case _ =>
      StepKeepsHeard(s, event);
      var next := Step(s, event);
      forall id | id in next.sent && next.sent[id].restarts == next.restarts
        ensures Alone(next.requests, next.sent[id].request)
      {
        assert Alone(s.requests, s.sent[id].request);
      }
  }

  lemma {:induction false} RunKeepsSent(trace: seq<State>, events: seq<Event>)
    requires IsRun(trace, events)
    ensures SentInv(trace[|events|])
  {
    if events != [] {
      var n := |events| - 1;
      RunKeepsSent(trace[..n + 1], events[..n]);
      RunKeepsInv(trace[..n + 1], events[..n]);
      StepKeepsSent(trace[n], events[n]);
    }
  }

  /** The explicit commit of `id` has waited for all tasks of its process and answers success. */
  ghost predicate Returned(s: State, id: CommitId) {
    s.running && id in s.sent && s.sent[id].restarts == s.restarts && s.tasks == map[]
  }

  function FilesOf(s: State, id: CommitId): set<Path>
    requires id in s.sent && s.sent[id].request < |s.requests|
  {
    s.requests[s.sent[id].request].files
  }

  /**
   When an explicit commit returns, its files are in the table exactly when its
   request has landed, all of them or none. That is certain if its task was
   told that it was committed or already referenced, ruled out if it was told
   of a conflict, and open if it was told of another error or panicked.
   */
  lemma {:induction false} ReturnedIsDurableExactly(trace: seq<State>, events: seq<Event>, id: CommitId)
    requires IsRun(trace, events) && Returned(trace[|events|], id)
    ensures var s := trace[|events|];
            && s.sent[id].request < |s.requests|
            && (forall p <- FilesOf(s, id) :: p in Appended(s) <==> s.requests[s.sent[id].request].status.Landed?)
            && (id in s.heard && s.heard[id] in {Committed, AlreadyReferenced} ==> FilesOf(s, id) <= Appended(s))
            && (id in s.heard && s.heard[id] == Conflict ==> FilesOf(s, id) !! Appended(s))
  {
    RunKeepsSent(trace, events);
    var s := trace[|events|];
    var r := s.sent[id].request;
    assert id in s.heard ==> HeardInv(s, id);
    forall p | p in FilesOf(s, id) ensures p in Appended(s) <==> s.requests[r].status.Landed? {
      if p in Appended(s) {
        var other :| 0 <= other < |s.requests| && s.requests[other].status.Landed? && p in s.requests[other].files;
        assert other == r;
      }
    }
  }

  /** In any process, and whatever came in between: files of a commit that was told so are in the table. */
  lemma {:induction false} HeardIsDurable(trace: seq<State>, events: seq<Event>, id: CommitId)
    requires IsRun(trace, events) && id in trace[|events|].heard
    requires trace[|events|].heard[id] in {Committed, AlreadyReferenced}
    ensures var s := trace[|events|];
            id in s.sent && s.sent[id].request < |s.requests| && FilesOf(s, id) <= Appended(s)
  {
    RunKeepsSent(trace, events);
    assert HeardInv(trace[|events|], id);
  }

  // ------------------------------------------------------------------
  // Where the code falls short of exactly-once
  // ------------------------------------------------------------------

  lemma {:induction false} Extend(trace: seq<State>, events: seq<Event>, event: Event)
    requires IsRun(trace, events) && Enabled(trace[|events|], event)
    ensures IsRun(trace + [Step(trace[|events|], event)], events + [event])
  {
  }

  /**
   A conflict refuses the append, yet counts as "already committed": the
   manifest goes and the file is neither in the table nor recoverable.
   */
  lemma {:induction false} ConflictLosesData() returns (trace: seq<State>, events: seq<Event>)
    ensures IsRun(trace, events) && trace[|events|].restarts == 0
    ensures Returned(trace[|events|], 1) && Lost(trace[|events|]) == {7}
  {
    trace, events := [START], [];
    var prepare := Prepare(1, {7}, {7}, false);
    Extend(trace, events, prepare);
    trace, events := trace + [Step(trace[0], prepare)], [prepare];
    assert trace[1].tasks[1].answer == None && trace[1].requests[0].status.Open?;
    var reply := Reply(1, Conflict);
    Extend(trace, events, reply);
    trace, events := trace + [Step(trace[1], reply)], events + [reply];
    assert trace[2].tasks[1].answer == Some(Conflict);
    var complete := Complete(1, true);
    Extend(trace, events, complete);
    trace, events := trace + [Step(trace[2], complete)], events + [complete];
    assert trace[3].disk == map[] && trace[3].dropped == {7};
    assert trace[3].requests == [Request({7}, Refused)];
    LostExactlyToConflicts(trace, events);
  }

  /** After an error that is no conflict the commit returns as well, with its file only in the manifest. */
  lemma {:induction false} ReturnsBeforeItIsDurable() returns (trace: seq<State>, events: seq<Event>)
    ensures IsRun(trace, events) && trace[|events|].restarts == 0
    ensures Returned(trace[|events|], 1) && 7 !in Appended(trace[|events|]) && 7 in OnDisk(trace[|events|])
  {
    trace, events := [START], [];
    var prepare := Prepare(1, {7}, {7}, false);
    Extend(trace, events, prepare);
    trace, events := trace + [Step(trace[0], prepare)], [prepare];
    assert trace[1].tasks[1].answer == None;
    var reply := Reply(1, OtherError);
    Extend(trace, events, reply);
    trace, events := trace + [Step(trace[1], reply)], events + [reply];
    assert trace[2].tasks[1].answer == Some(OtherError);
    var complete := Complete(1, true);
    Extend(trace, events, complete);
    trace, events := trace + [Step(trace[2], complete)], events + [complete];
    assert trace[3].requests == [Request({7}, Open)] && trace[3].disk == map[1 := {7}];
    assert 7 in trace[3].disk[1];
  }

  /**
   Recovery does not check for duplicates: whatever is in a manifest when the
   sink stops can be appended once more, even when it is in the table already.
   */
  lemma {:induction false} RecoveryAppendsAgain(trace: seq<State>, events: seq<Event>, id: CommitId)
      returns (longer: seq<State>, more: seq<Event>)
    requires IsRun(trace, events) && id in trace[|events|].disk
    ensures IsRun(longer, more) && longer[|more|].restarts == trace[|events|].restarts + 1
    ensures trace <= longer && events <= more
    ensures forall p <- trace[|events|].disk[id] ::
              Times(longer[|more|].requests, p) == Times(trace[|events|].requests, p) + 1
  {
    var s := trace[|events|];
    var stopped := Step(s, Stop);
    Extend(trace, events, Stop);
    longer, more := trace + [stopped], events + [Stop];
    var started := Step(stopped, Restart);
    Extend(longer, more, Restart);
    longer, more := longer + [started], more + [Restart];
    var recovering := Step(started, Recover(id));
    Extend(longer, more, Recover(id));
    longer, more := longer + [recovering], more + [Recover(id)];
    var request := |s.requests|;
    var landed := Step(recovering, Land(request));
    Extend(longer, more, Land(request));
    longer, more := longer + [landed], more + [Land(request)];
    assert landed.requests[..request] == s.requests;
  }

  // ------------------------------------------------------------------
  // Exactly which files can still be appended
  // ------------------------------------------------------------------

  /** The file is in a manifest, or in a request that may still land. */
  ghost predicate CanGrow(s: State, p: Path) {
    p in OnDisk(s) || exists r :: 0 <= r < |s.requests| && s.requests[r].status.Open? && p in s.requests[r].files
  }

  lemma {:induction false} TimesSame(a: seq<Request>, b: seq<Request>, p: Path)
    requires |a| <= |b|
    requires forall r :: 0 <= r < |a| ==>
               (p in a[r].files && a[r].status.Landed? <==> p in b[r].files && b[r].status.Landed?)
    requires forall r :: |a| <= r < |b| ==> !(p in b[r].files && b[r].status.Landed?)
    ensures Times(a, p) == Times(b, p)
    decreases |b|
  {
    if |a| == |b| {
      if a != [] {
        TimesSame(a[..|a| - 1], b[..|b| - 1], p);
      }
    } else {
      TimesSame(a, b[..|b| - 1], p);
    }
  }

  lemma {:induction false} LandingCounts(requests: seq<Request>, r: nat, p: Path)
    requires r < |requests| && requests[r].status.Open? && p in requests[r].files
    ensures Times(requests[r := requests[r].(status := Landed)], p) == Times(requests, p) + 1
  {
    var n := |requests| - 1;
    var landed := requests[r := requests[r].(status := Landed)];
    if r < n {
      LandingCounts(requests[..n], r, p);
      assert landed[..n] == requests[..n][r := requests[..n][r].(status := Landed)];
    } else {
      assert landed[..n] == requests[..n];
    }
  }

  lemma {:induction false} StepAddsNoManifest(s: State, event: Event, p: Path)
    requires Enabled(s, event) && p in s.prepared && p !in OnDisk(s)
    ensures p !in OnDisk(Step(s, event))
  {
    assert forall id <- s.disk :: p !in s.disk[id];
    assert event.Prepare? ==> p !in event.kept;
    assert forall id <- Step(s, event).disk :: p !in Step(s, event).disk[id];
  }

  lemma {:induction false} StepAddsNoRequest(s: State, event: Event, p: Path, r: nat)
    requires Enabled(s, event) && p in s.prepared && !CanGrow(s, p)
    requires r < |Step(s, event).requests| && p in Step(s, event).requests[r].files
    ensures r < |s.requests| && s.requests[r] == Step(s, event).requests[r]
  {
    if event.Recover? {
      assert p !in s.disk[event.id];
    }
  }

  lemma {:induction false} StepKeepsSettled(s: State, event: Event, p: Path)
    requires InPrepared(s) && TasksInv(s) && Enabled(s, event) && p in s.prepared && !CanGrow(s, p)
    ensures p in Step(s, event).prepared && !CanGrow(Step(s, event), p)
    ensures Times(Step(s, event).requests, p) == Times(s.requests, p)
  {
    var next := Step(s, event);
    StepAddsNoManifest(s, event, p);
    forall r: nat | r < |next.requests| && p in next.requests[r].files
      ensures r < |s.requests| && s.requests[r] == next.requests[r]
    {
      StepAddsNoRequest(s, event, p, r);
    }
    assert |s.requests| <= |next.requests|;
    assert forall r :: 0 <= r < |s.requests| ==> s.requests[r].files == next.requests[r].files;
    TimesSame(s.requests, next.requests, p);
  }

  lemma {:induction false} Settled(trace: seq<State>, events: seq<Event>, m: nat, p: Path)
    requires IsRun(trace, events) && m <= |events| && p in trace[m].prepared && !CanGrow(trace[m], p)
    ensures p in trace[|events|].prepared && !CanGrow(trace[|events|], p)
    ensures Times(trace[|events|].requests, p) == Times(trace[m].requests, p)
    decreases |events|
  {
    if m < |events| {
      var n := |events| - 1;
      Settled(trace[..n + 1], events[..n], m, p);
      RunKeepsInv(trace[..n + 1], events[..n]);
      StepKeepsSettled(trace[n], events[n], p);
    }
  }

  lemma {:induction false} GrowsOn(trace: seq<State>, events: seq<Event>, p: Path)
      returns (longer: seq<State>, more: seq<Event>)
    requires IsRun(trace, events) && CanGrow(trace[|events|], p)
    ensures IsRun(longer, more) && trace <= longer && events <= more
    ensures Times(longer[|more|].requests, p) == Times(trace[|events|].requests, p) + 1
  {
    var s := trace[|events|];
    if p in OnDisk(s) {
      var id :| id in s.disk && p in s.disk[id];
      longer, more := RecoveryAppendsAgain(trace, events, id);
    } else {
      var r: nat :| r < |s.requests| && s.requests[r].status.Open? && p in s.requests[r].files;
      Extend(trace, events, Land(r));
      longer, more := trace + [Step(s, Land(r))], events + [Land(r)];
      LandingCounts(s.requests, r, p);
    }
  }

  ghost predicate Continues(trace: seq<State>, events: seq<Event>, longer: seq<State>, more: seq<Event>) {
    IsRun(longer, more) && trace <= longer && events <= more
  }

  /**
   At every moment of every run, a file written so far can be appended once
   more by some continuation exactly when it is in a manifest or in a request
   that has neither landed nor been refused.
   */
  lemma {:induction false} AppendableExactly(trace: seq<State>, events: seq<Event>, p: Path)
    requires IsRun(trace, events) && p in trace[|events|].prepared
    ensures CanGrow(trace[|events|], p) <==>
              exists longer: seq<State>, more: seq<Event> ::
                Continues(trace, events, longer, more) &&
                Times(longer[|more|].requests, p) > Times(trace[|events|].requests, p)
  {
    if CanGrow(trace[|events|], p) {
      var longer, more := GrowsOn(trace, events, p);
      assert Continues(trace, events, longer, more);
    } else {
      forall longer: seq<State>, more: seq<Event> | Continues(trace, events, longer, more)
        ensures Times(longer[|more|].requests, p) == Times(trace[|events|].requests, p)
      {
        assert longer[|events|] == trace[|events|];
        Settled(longer, more, |events|, p);
      }
    }
  }

  // ------------------------------------------------------------------
  // What a completed task leaves behind
  // ------------------------------------------------------------------

  /**
   A completed task takes its manifest along exactly when there is one to
   remove, removing worked, and the catalog answered that the files are
   committed, referenced already, or in conflict.
   */
  lemma {:induction false} CompletedExactly(s: State, id: CommitId, removed: bool)
    requires Enabled(s, Complete(id, removed))
    ensures var next := Step(s, Complete(id, removed));
            && next.tasks == s.tasks - {id}
            && (id in next.disk <==>
                  id in s.disk && !(removed && s.tasks[id].manifest &&
                                    s.tasks[id].answer.value in {Committed, AlreadyReferenced, Conflict}))
            && forall other | other != id ::
                 (other in next.disk <==> other in s.disk) && (other in s.disk ==> next.disk[other] == s.disk[other])
  {
    var answer := s.tasks[id].answer.value;
    assert answer in {Committed, AlreadyReferenced, Conflict} <==> answer != OtherError;
  }

  /** The commit wrote its manifest without an error, or with one. */
  ghost predicate Prepared(events: seq<Event>, id: CommitId, recordFailed: bool) {
    exists k :: 0 <= k < |events| && events[k].Prepare? && events[k].id == id && events[k].recordFailed == recordFailed
  }

  lemma {:induction false} PreparedIsSent(trace: seq<State>, events: seq<Event>, k: nat)
    requires IsRun(trace, events) && k < |events| && events[k].Prepare?
    ensures events[k].id in trace[|events|].sent
  {
    var n := |events| - 1;
    if k < n {
      PreparedIsSent(trace[..n + 1], events[..n], k);
    }
  }

  lemma {:induction false} PreparedOnce(trace: seq<State>, events: seq<Event>, i: nat, j: nat)
    requires IsRun(trace, events) && i < |events| && j < |events| && events[i].Prepare? && events[j].Prepare?
    requires events[i].id == events[j].id
    ensures i == j
  {
    if i < j {
      PreparedIsSent(trace[..j + 1], events[..j], i);
    } else if j < i {
      PreparedIsSent(trace[..i + 1], events[..i], j);
    }
  }

  lemma {:induction false} TaskWasPrepared(trace: seq<State>, events: seq<Event>, id: CommitId)
    requires IsRun(trace, events) && id in trace[|events|].tasks
    ensures var t := trace[|events|].tasks[id]; if t.recovery then t.manifest else Prepared(events, id, !t.manifest)
  {
    var n := |events| - 1;
    var s, t := trace[n], trace[|events|].tasks[id];
    if id in s.tasks && s.tasks[id].manifest == t.manifest && s.tasks[id].recovery == t.recovery {
      TaskWasPrepared(trace[..n + 1], events[..n], id);
      if !t.recovery {
        var k :| 0 <= k < n && events[..n][k].Prepare? && events[..n][k].id == id &&
                 events[..n][k].recordFailed == !t.manifest;
        assert events[k] == events[..n][k];
      }
    } else {
      assert events[n].Recover? || (events[n].Prepare? && events[n].id == id);
    }
  }

  /**
   Over runs: a manifest goes with a completed task exactly when removing it
   works, the answer was one of the three, and the task is a recovery or its
   commit wrote the manifest without an error.
   */
  lemma {:induction false} ManifestGoesExactly(trace: seq<State>, events: seq<Event>, id: CommitId, removed: bool)
    requires IsRun(trace, events) && events != [] && events[|events| - 1] == Complete(id, removed)
    requires id in trace[|events| - 1].disk
    ensures var t := trace[|events| - 1].tasks[id];
            id !in trace[|events|].disk <==>
              && removed && t.answer.value in {Committed, AlreadyReferenced, Conflict}
              && (t.recovery || Prepared(events, id, false))
  {
    var n := |events| - 1;
    var t := trace[n].tasks[id];
    CompletedExactly(trace[n], id, removed);
    TaskWasPrepared(trace[..n + 1], events[..n], id);
    if !t.recovery {
      var k :| 0 <= k < n && events[..n][k].Prepare? && events[..n][k].id == id &&
               events[..n][k].recordFailed == !t.manifest;
      assert events[k] == events[..n][k];
      if j :| 0 <= j < |events| && events[j].Prepare? && events[j].id == id && events[j].recordFailed == false {
        PreparedOnce(trace, events, j, k);
      }
    }
  }

  lemma {:induction false} OnlyOneLanded(requests: seq<Request>, r: nat, p: Path)
    requires r < |requests| && requests[r].status.Landed? && p in requests[r].files
    requires forall other :: 0 <= other < |requests| && other != r ==> p !in requests[other].files
    ensures Times(requests, p) == 1
  {
    var n := |requests| - 1;
    if r < n {
      OnlyOneLanded(requests[..n], r, p);
    } else {
      NotAsked(requests[..n], p);
      TimesWithinAsked(requests[..n], p);
    }
  }

  /** After the last task of a file that committed it, only a manifest can bring the file back. */
  lemma {:induction false} AfterCommitted(s: State, id: CommitId, removed: bool, p: Path)
    requires Inv(s) && Enabled(s, Complete(id, removed)) && !s.tasks[id].recovery && s.tasks[id].manifest
    requires s.tasks[id].answer in {Some(Committed), Some(AlreadyReferenced)} && id in s.disk && p in s.disk[id]
    ensures var next := Step(s, Complete(id, removed));
            p in next.prepared && Times(next.requests, p) == 1 && (CanGrow(next, p) <==> !removed)
  {
    var next, t := Step(s, Complete(id, removed)), s.tasks[id];
    CompletedExactly(s, id, removed);
    assert TaskInv(s, id) && p in t.files;
    assert forall r :: 0 <= r < |s.requests| && r != t.request ==> s.requests[r].files !! t.files;
    OnlyOneLanded(s.requests, t.request, p);
    if removed {
      assert forall other <- next.disk :: other != id && next.disk[other] == s.disk[other] && t.files !! s.disk[other];
    } else {
      assert id in next.disk && p in next.disk[id];
    }
  }

  /**
   A file whose commit was confirmed stays in the table once and for all,
   whatever happens later, restarts included, exactly when its manifest went
   with the completed task.
   */
  lemma {:induction false} OnceForGoodExactly(trace: seq<State>, events: seq<Event>, id: CommitId, removed: bool,
                                              p: Path)
    requires IsRun(trace, events) && events != [] && events[|events| - 1] == Complete(id, removed)
    requires var s := trace[|events| - 1];
             && !s.tasks[id].recovery && s.tasks[id].manifest && id in s.disk && p in s.disk[id]
             && s.tasks[id].answer in {Some(Committed), Some(AlreadyReferenced)}
    ensures Times(trace[|events|].requests, p) == 1
    ensures removed <==>
              forall longer: seq<State>, more: seq<Event> | Continues(trace, events, longer, more) ::
                Times(longer[|more|].requests, p) == 1
  {
    var n := |events| - 1;
    RunKeepsInv(trace[..n + 1], events[..n]);
    AfterCommitted(trace[n], id, removed, p);
    AppendableExactly(trace, events, p);
    if removed {
      forall longer: seq<State>, more: seq<Event> | Continues(trace, events, longer, more)
        ensures Times(longer[|more|].requests, p) == 1
      {
        assert longer[|events|] == trace[|events|];
        Settled(longer, more, |events|, p);
      }
    }
  }

  // ------------------------------------------------------------------
  // Runs in which nothing goes wrong
  // ------------------------------------------------------------------

  /** No crash, no panic, and neither the disk nor the catalog ever fails. */
  predicate Smooth(event: Event) {
    match event
    case Prepare(_, _, _, recordFailed) => !recordFailed
    case Reply(_, answer) => answer == Committed || answer == AlreadyReferenced
    case Complete(_, removed) => removed
    case Land(_) => true
    case _ => false
  }

  /** Everything written is recorded, and a manifest is there as long as the task that brought it. */
  ghost predicate SmoothInv(s: State) {
    && s.running && s.todo == {} && s.restarts == 0 && s.recorded == s.prepared && s.dropped == {}
    && (forall id <- s.disk :: id in s.tasks)
    && (forall id <- s.tasks :: s.tasks[id].manifest &&
          s.tasks[id].answer in {None, Some(Committed), Some(AlreadyReferenced)})
  }

  lemma {:induction false} SmoothStep(s: State, event: Event)
    requires SmoothInv(s) && Enabled(s, event) && Smooth(event)
    ensures SmoothInv(Step(s, event))
  {
    if event.Complete? {
      CompletedExactly(s, event.id, event.removed);
    }
  }

  lemma {:induction false} SmoothRun(trace: seq<State>, events: seq<Event>)
    requires IsRun(trace, events) && forall e <- events :: Smooth(e)
    ensures SmoothInv(trace[|events|])
  {
    if events != [] {
      var n := |events| - 1;
      assert forall e <- events[..n] :: e in events;
      SmoothRun(trace[..n + 1], events[..n]);
      assert events[n] in events;
      SmoothStep(trace[n], events[n]);
    }
  }

  /**
   Where nothing goes wrong, every file written is in the table exactly once
   when the last task is done, and no manifest is left that could append it again.
   */
  lemma {:induction false} SmoothRunsAppendOnce(trace: seq<State>, events: seq<Event>, p: Path)
    requires IsRun(trace, events) && trace[|events|].tasks == map[] && forall e <- events :: Smooth(e)
    ensures trace[|events|].disk == map[]
    ensures Times(trace[|events|].requests, p) == if p in trace[|events|].prepared then 1 else 0
  {
    var s := trace[|events|];
    SmoothRun(trace, events);
    RunKeepsInv(trace, events);
    AppendsAreBoundedByRestarts(trace, events, p);
    assert s.disk == map[];
    if p in s.prepared {
      assert p in Appended(s);
      var r :| 0 <= r < |s.requests| && s.requests[r].status.Landed? && p in s.requests[r].files;
      LandedCounts(s.requests, r, p);
    } else {
      NotAsked(s.requests, p);
      TimesWithinAsked(s.requests, p);
    }
  }
}
