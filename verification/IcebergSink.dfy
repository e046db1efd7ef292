/**
 The Iceberg sink: rows are buffered, buffers are turned into staged batches,
 and a rotation hands all staged batches to a bounded pipeline of background
 commits. What the outside world does during a call is in its `World` argument.
 */
module IcebergSink {
  import opened Wrappers

  type Item = int
  type Millis = nat

  datatype Batch = Batch(items: seq<Item>, bytes: nat)

  /** Reloading the table or writing the data files may fail. */
  datatype Preparation = ReloadFails | WriteFails | Succeeds

  /** The clock when the call starts and when it looks again, and the commits that have finished by themselves. */
  datatype World = World(now: Millis, later: Millis, preparation: Preparation, finished: set<nat>)

  datatype Error = SerdeArrow | Unprepared

  /** What became of the rows that are no longer outstanding, latest last. */
  datatype Log =
    | Start
    | Enqueued(before: Log, items: seq<Item>)
    | RolledBack(before: Log, items: seq<Item>)

  function Flatten(batches: seq<Batch>): seq<Item> {
    if batches == [] then [] else Flatten(batches[..|batches| - 1]) + batches[|batches| - 1].items
  }

  function TotalBytes(batches: seq<Batch>): nat {
    if batches == [] then 0 else TotalBytes(batches[..|batches| - 1]) + batches[|batches| - 1].bytes
  }

  function ItemsOf(log: Log): seq<Item> {
    if log.Start? then [] else ItemsOf(log.before) + log.items
  }

  lemma {:induction false} FlattenSnoc(batches: seq<Batch>, b: Batch)
    ensures Flatten(batches + [b]) == Flatten(batches) + b.items
    ensures TotalBytes(batches + [b]) == TotalBytes(batches) + b.bytes
  {
    assert (batches + [b])[..|batches|] == batches;
  }

  datatype Message = Data(item: Item) | DataBatch(items: seq<Item>) | CommitAll | Discard | Tick

  function Rows(message: Message): seq<Item> {
    match message
    case Data(item) => [item]
    case DataBatch(items) => items
    case _ => []
  }

  /** The rows that clients sent. */
  function Received(messages: seq<Message>): seq<Item> {
    if messages == [] then [] else Received(messages[..|messages| - 1]) + Rows(messages[|messages| - 1])
  }

  lemma {:induction false} ReceivedNext(start: seq<Item>, messages: seq<Message>, n: nat)
    requires n < |messages|
    ensures start + Received(messages[..n + 1]) == start + Received(messages[..n]) + Rows(messages[n])
  {
    assert messages[..n + 1][..n] == messages[..n];
  }

  /** The log only grows, and without a rollback only by commits. */
  ghost predicate Grows(first: Log, last: Log, rollbacks: bool) {
    first == last || (!last.Start? && Grows(first, last.before, rollbacks) && (last.RolledBack? ==> rollbacks))
  }

  lemma {:induction false} GrowsOn(a: Log, b: Log, c: Log, rollbacks: bool, more: bool)
    requires Grows(a, b, rollbacks) && Grows(b, c, more) && (more ==> rollbacks)
    ensures Grows(a, c, rollbacks)
  {
    if b != c {
      GrowsOn(a, b, c.before, rollbacks, more);
    }
  }

  /** Background commits, numbered in the order they were enqueued. */
  class CommitPipeline {
    var tasks: set<nat>
    var enqueued: nat
    const maxPending: nat

    ghost predicate Valid()
      reads this
    {
      1 <= maxPending && |tasks| <= maxPending && forall t <- tasks :: t < enqueued
    }

    /** The sink's builder allows no limit below one. */
    constructor (max: nat)
      ensures Valid() && tasks == {} && enqueued == 0 && maxPending == if max < 1 then 1 else max
    {
      tasks, enqueued, maxPending := {}, 0, if max < 1 then 1 else max;
    }

    method Enqueue()
      requires Valid() && |tasks| < maxPending
      modifies this
      ensures Valid() && tasks == old(tasks) + {old(enqueued)} && enqueued == old(enqueued) + 1
    {
      tasks, enqueued := tasks + {enqueued}, enqueued + 1;
    }

    method DrainCompleted(finished: set<nat>)
      requires Valid()
      modifies this`tasks
      ensures Valid() && tasks == old(tasks) - finished
    {
      ghost var start := tasks;
      var done := tasks * finished;
      while done != {}
        invariant done <= tasks <= start && tasks - done == start - finished
        invariant |tasks| <= |start|
        decreases |done|
      {
        var t :| t in done;
        done, tasks := done - {t}, tasks - {t};
      }
    }

    method DrainAll()
      requires Valid()
      modifies this`tasks
      ensures Valid() && tasks == {}
    {
      while tasks != {}
        invariant Valid()
        decreases |tasks|
      {
        var t :| t in tasks;
        tasks := tasks - {t};
      }
    }

    /** Make room for one more commit, waiting for at most one. */
    method EnsureCapacity(finished: set<nat>)
      requires Valid()
      modifies this`tasks
      ensures Valid() && |tasks| < maxPending
      ensures tasks <= old(tasks) - finished
      ensures |old(tasks) - finished| < maxPending ==> tasks == old(tasks) - finished
      ensures |tasks| + 1 >= |old(tasks) - finished|
    {
      DrainCompleted(finished);
      if |tasks| >= maxPending {
        var t :| t in tasks;
        tasks := tasks - {t};
      }
    }

    /** Enqueue a commit once there is room for it. */
    method Add(finished: set<nat>)
      requires Valid()
      modifies this
      ensures Valid() && enqueued == old(enqueued) + 1
      ensures old(enqueued) in tasks && tasks - {old(enqueued)} <= old(tasks) - finished
    {
      EnsureCapacity(finished);
      Enqueue();
    }
  }

  class IcebergSink {
    var buffer: seq<Item>
    var stagedBatches: seq<Batch>
    var rowCount: nat
    var approximateSize: nat
    var createdAt: Option<Millis>
    const pipeline: CommitPipeline
    const batchSize: nat
    const maxRows: nat
    const maxSizeBytes: nat
    const rollTime: nat
    const autoCommit: bool
    const serializes: seq<Item> -> bool
    const sizeOf: seq<Item> -> nat
    ghost var accepted: seq<Item>
    ghost var log: Log

    /**
     Every accepted row is, in arrival order, in exactly one of: a commit
     handed over, a rollback, a staged batch, the buffer. As long as rows are
     outstanding the rotation clock runs.
     */
    ghost predicate Valid()
      reads this, pipeline
    {
      && pipeline.Valid()
      && rowCount == |Flatten(stagedBatches)|
      && approximateSize == TotalBytes(stagedBatches)
      && accepted == ItemsOf(log) + Outstanding()
      && (createdAt == None ==> buffer == [] && stagedBatches == [])
    }

    ghost function Outstanding(): seq<Item>
      reads this
    {
      Flatten(stagedBatches) + buffer
    }

    ghost predicate Unchanged(b: seq<Item>, s: seq<Batch>, l: Log)
      reads this
    {
      buffer == b && stagedBatches == s && log == l
    }

    constructor (batchSize: nat, maxRows: nat, maxSizeBytes: nat, rollTime: nat, maxPending: nat, autoCommit: bool,
                 serializes: seq<Item> -> bool, sizeOf: seq<Item> -> nat)
      ensures Valid() && fresh(pipeline) && Unchanged([], [], Start) && accepted == [] && createdAt == None
      ensures this.batchSize == batchSize && this.maxRows == maxRows && this.maxSizeBytes == maxSizeBytes
      ensures this.rollTime == rollTime && this.autoCommit == autoCommit
      ensures this.serializes == serializes && this.sizeOf == sizeOf
    {
      buffer, stagedBatches, rowCount, approximateSize, createdAt := [], [], 0, 0, None;
      pipeline := new CommitPipeline(maxPending);
      this.batchSize, this.maxRows, this.maxSizeBytes := batchSize, maxRows, maxSizeBytes;
      this.rollTime, this.autoCommit := rollTime, autoCommit;
      this.serializes, this.sizeOf := serializes, sizeOf;
      accepted, log := [], Start;
    }

    /** The staged batches once the buffer has been flushed. */
    ghost function FlushedBatches(): seq<Batch>
      reads this
    {
      if buffer == [] then stagedBatches else stagedBatches + [Batch(buffer, sizeOf(buffer))]
    }

    method FlushBuffer() returns (r: Result<(), Error>)
      requires Valid()
      modifies this`buffer, this`stagedBatches, this`rowCount, this`approximateSize
      ensures Valid()
      ensures r.Err? <==> old(buffer) != [] && !serializes(old(buffer))
      ensures r.Ok? ==> buffer == [] && stagedBatches == old(FlushedBatches())
      ensures r.Err? ==> r.error == SerdeArrow && Unchanged(old(buffer), old(stagedBatches), log)
      ensures Outstanding() == old(Outstanding())
    {
      if buffer == [] {
        return Ok(());
      }
      if !serializes(buffer) {
        return Err(SerdeArrow);
      }
      var batch := Batch(buffer, sizeOf(buffer));
      FlattenSnoc(stagedBatches, batch);
      rowCount := rowCount + |buffer|;
      approximateSize := approximateSize + batch.bytes;
      stagedBatches := stagedBatches + [batch];
      buffer := [];
      return Ok(());
    }

    /** Enough rows or bytes are staged, or the first row came long enough ago. */
    predicate Due(staged: seq<Batch>, created: Option<Millis>, later: Millis) {
      || |Flatten(staged)| >= maxRows
      || TotalBytes(staged) >= maxSizeBytes
      || (created.Some? && later >= created.value + rollTime)
    }

    predicate ShouldRotate(later: Millis)
      requires Valid()
      reads this, pipeline
      ensures ShouldRotate(later) <==> Due(stagedBatches, createdAt, later)
    {
      || rowCount >= maxRows
      || approximateSize >= maxSizeBytes
      || (createdAt.Some? && createdAt.value + rollTime <= later)
    }

    /**
     Hand everything outstanding to the pipeline. When preparing fails the
     staged batches and all counters are what they were just after the flush.
     */
    method PrepareAndEnqueue(world: World) returns (r: Result<bool, Error>)
      requires Valid()
      modifies this`buffer, this`stagedBatches, this`rowCount, this`approximateSize, this`createdAt, this`log, pipeline
      ensures Valid()
      ensures r == Err(SerdeArrow) <==> old(buffer) != [] && !serializes(old(buffer))
      ensures r == Err(SerdeArrow) ==> Unchanged(old(buffer), old(stagedBatches), old(log))
      ensures r == Err(Unprepared) <==>
                && (old(buffer) == [] || serializes(old(buffer)))
                && old(FlushedBatches()) != [] && world.preparation != Succeeds
      ensures r == Err(Unprepared) ==> Unchanged([], old(FlushedBatches()), old(log))
      ensures r.Err? ==> createdAt == old(createdAt) && pipeline.tasks == old(pipeline.tasks)
      ensures r.Err? ==> log == old(log) && Outstanding() == old(Outstanding())
      ensures r.Ok? ==> r.value == (old(FlushedBatches()) != []) && buffer == [] && stagedBatches == []
      ensures Grows(old(log), log, false)
      ensures r == Ok(true) ==> log == Enqueued(old(log), old(Outstanding())) && createdAt == None
      ensures r == Ok(true) ==> old(pipeline.enqueued) in pipeline.tasks
      ensures r == Ok(false) ==> log == old(log) && createdAt == old(createdAt) && pipeline.tasks == old(pipeline.tasks)
      ensures pipeline.enqueued == old(pipeline.enqueued) + if r == Ok(true) then 1 else 0
    {
      var flushed := FlushBuffer();
      if flushed.Err? {
        return Err(flushed.error);
      }
      assert Outstanding() == Flatten(stagedBatches);
      r := EnqueueStaged(world);
    }

    method EnqueueStaged(world: World) returns (r: Result<bool, Error>)
      requires Valid() && buffer == []
      modifies this`stagedBatches, this`rowCount, this`approximateSize, this`createdAt, this`log, pipeline
      ensures Valid() && Grows(old(log), log, false)
      ensures r.Err? <==> old(stagedBatches) != [] && world.preparation != Succeeds
      ensures r.Err? ==>
                && r.error == Unprepared && stagedBatches == old(stagedBatches) && log == old(log)
                && createdAt == old(createdAt) && pipeline.tasks == old(pipeline.tasks)
                && pipeline.enqueued == old(pipeline.enqueued)
      ensures r.Ok? ==> r.value == (old(stagedBatches) != []) && stagedBatches == []
      ensures r.Ok? && r.value ==>
                && log == Enqueued(old(log), Flatten(old(stagedBatches))) && createdAt == None
                && old(pipeline.enqueued) in pipeline.tasks && pipeline.enqueued == old(pipeline.enqueued) + 1
      ensures r.Ok? && !r.value ==>
                && log == old(log) && createdAt == old(createdAt)
                && pipeline.tasks == old(pipeline.tasks) && pipeline.enqueued == old(pipeline.enqueued)
    {
      var batches := stagedBatches;
      stagedBatches := [];
      if batches == [] {
        return Ok(false);
      }
      var savedRowCount, savedSize, savedCreatedAt := rowCount, approximateSize, createdAt;
      rowCount, approximateSize, createdAt := 0, 0, None;
      if world.preparation != Succeeds {
        stagedBatches := batches;
        rowCount, approximateSize, createdAt := savedRowCount, savedSize, savedCreatedAt;
        return Err(Unprepared);
      }
      pipeline.Add(world.finished);
      log := Enqueued(log, Flatten(batches));
      return Ok(true);
    }

    /** What the sink answers and holds once a rotation that is due has been done. */
    ghost predicate Rolled(rest: seq<Item>, staged: seq<Batch>, created: Option<Millis>, before: Log, world: World,
                           r: Result<(), Error>)
      reads this
    {
      if !autoCommit || !Due(staged, created, world.later) then
        r == Ok(()) && Unchanged(rest, staged, before) && createdAt == created
      else if rest == [] && staged == [] then r == Ok(()) && Unchanged([], [], before)
      else if rest != [] && !serializes(rest) then r == Err(SerdeArrow) && Unchanged(rest, staged, before)
      else if world.preparation != Succeeds then r == Err(Unprepared) && buffer == [] && log == before
      else r == Ok(()) && Unchanged([], [], Enqueued(before, Flatten(staged) + rest)) && createdAt == None
    }

    /** A sink that does not commit by itself only counts the rotation. */
    method MaybeRoll(world: World) returns (r: Result<(), Error>)
      requires Valid()
      modifies this`buffer, this`stagedBatches, this`rowCount, this`approximateSize, this`createdAt, this`log, pipeline
      ensures Valid() && Grows(old(log), log, false)
      ensures Rolled(old(buffer), old(stagedBatches), old(createdAt), old(log), world, r)
      ensures r.Err? ==> log == old(log) && Outstanding() == old(Outstanding()) && createdAt == old(createdAt)
      ensures r == Err(SerdeArrow) ==>
                Unchanged(old(buffer), old(stagedBatches), old(log)) && buffer != [] && !serializes(buffer)
    {
      if ShouldRotate(world.later) {
        if autoCommit {
          var prepared := PrepareAndEnqueue(world);
          assert prepared.Err? ==> prepared.error == SerdeArrow || prepared.error == Unprepared;
          if prepared.Err? {
            return Err(prepared.error);
          }
        }
      }
      return Ok(());
    }

    /** Start the rotation clock unless it runs, and put the rows in the buffer. */
    method Accept(items: seq<Item>, now: Millis)
      requires Valid()
      modifies this`buffer, this`createdAt, this`accepted
      ensures Valid() && createdAt == if old(createdAt).Some? then old(createdAt) else Some(now)
      ensures buffer == old(buffer) + items && accepted == old(accepted) + items
      ensures Outstanding() == old(Outstanding()) + items
    {
      if createdAt.None? {
        createdAt := Some(now);
      }
      buffer, accepted := buffer + items, accepted + items;
      assert Outstanding() == old(Outstanding()) + items;
    }

    /** What the sink answers and holds after taking in rows: a full buffer is staged, a due rotation done. */
    ghost predicate Wrote(rows: seq<Item>, staged: seq<Batch>, created: Option<Millis>, before: Log, world: World,
                          r: Result<(), Error>)
      reads this
    {
      var since := if created.Some? then created else Some(world.now);
      if |rows| < batchSize then Rolled(rows, staged, since, before, world, r)
      else if rows != [] && !serializes(rows) then r == Err(SerdeArrow) && Unchanged(rows, staged, before)
      else Rolled([], if rows == [] then staged else staged + [Batch(rows, sizeOf(rows))], since, before, world, r)
    }

    /**
     Take in `items`. The rows are accepted even when the call fails. With a
     batch size of zero the source's loop would never end.
     */
    method WriteItems(items: seq<Item>, world: World) returns (r: Result<(), Error>)
      requires Valid() && 1 <= batchSize
      modifies this, pipeline
      ensures Valid() && Grows(old(log), log, false)
      ensures accepted == old(accepted) + items
      ensures log == old(log) || (log == Enqueued(old(log), old(Outstanding()) + items) && Outstanding() == [])
      ensures log == old(log) ==> Outstanding() == old(Outstanding()) + items
      ensures r.Ok? ==> |buffer| < batchSize
      ensures Wrote(old(buffer) + items, old(stagedBatches), old(createdAt), old(log), world, r)
    {
      Accept(items, world.now);
      while |buffer| >= batchSize
        invariant Valid() && accepted == old(accepted) + items && log == old(log)
        invariant Outstanding() == old(Outstanding()) + items
        invariant buffer == [] || buffer == old(buffer) + items
        invariant createdAt == if old(createdAt).Some? then old(createdAt) else Some(world.now)
        invariant var rows := old(buffer) + items;
                  if buffer == rows then stagedBatches == old(stagedBatches)
                  else |rows| >= batchSize && rows != [] && serializes(rows) &&
                       stagedBatches == old(stagedBatches) + [Batch(rows, sizeOf(rows))]
        decreases |buffer|
      {
        r := FlushBuffer();
        if r.Err? {
          return;
        }
      }
      r := MaybeRoll(world);
    }

    method WriteItem(item: Item, world: World) returns (r: Result<(), Error>)
      requires Valid()
      modifies this, pipeline
      ensures Valid() && Grows(old(log), log, false)
      ensures accepted == old(accepted) + [item]
      ensures log == old(log) || (log == Enqueued(old(log), old(Outstanding()) + [item]) && Outstanding() == [])
      ensures log == old(log) ==> Outstanding() == old(Outstanding()) + [item]
      ensures r.Ok? && 1 <= batchSize ==> |buffer| < batchSize
      ensures Wrote(old(buffer) + [item], old(stagedBatches), old(createdAt), old(log), world, r)
    {
      Accept([item], world.now);
      if |buffer| >= batchSize {
        r := FlushBuffer();
        if r.Err? {
          return;
        }
      }
      r := MaybeRoll(world);
    }

    /** Hand over everything outstanding and wait until no commit is in flight any more. */
    method Commit(world: World) returns (r: Result<bool, Error>)
      requires Valid()
      modifies this`buffer, this`stagedBatches, this`rowCount, this`approximateSize, this`createdAt, this`log, pipeline
      ensures Valid() && Grows(old(log), log, false)
      ensures r == Ok(true) ==>
                Unchanged([], [], Enqueued(old(log), old(Outstanding()))) && pipeline.tasks == {}
      ensures r == Ok(false) ==> Unchanged([], [], old(log)) && old(Outstanding()) == []
      ensures r.Err? ==> log == old(log) && Outstanding() == old(Outstanding())
      ensures old(buffer) != [] || old(stagedBatches) != [] ==>
                r == if old(buffer) != [] && !serializes(old(buffer)) then Err(SerdeArrow)
                     else if world.preparation == Succeeds then Ok(true)
                     else Err(Unprepared)
      ensures old(buffer) == [] && old(stagedBatches) == [] ==> r == Ok(false)
    {
      r := PrepareAndEnqueue(world);
      assert r.Err? ==> r.error == SerdeArrow || r.error == Unprepared;
      assert r.Ok? ==> r.value || r == Ok(false);
      if r == Ok(true) {
        pipeline.DrainAll();
      }
    }

    /** Discard everything outstanding; commits already handed over go on. */
    method Rollback()
      requires Valid()
      modifies this`buffer, this`stagedBatches, this`rowCount, this`approximateSize, this`createdAt, this`log
      ensures Valid() && Grows(old(log), log, true)
      ensures Unchanged([], [], RolledBack(old(log), old(Outstanding()))) && createdAt == None
      ensures Outstanding() == []
    {
      ghost var gone := Outstanding();
      stagedBatches, buffer := [], [];
      rowCount, approximateSize, createdAt := 0, 0, None;
      assert Outstanding() == [];
      log := RolledBack(log, gone);
    }

    /**
     One turn of the event loop; a failed write or commit only fails its own
     reply, a failed timer rotation ends the sink. `reply` is what the sender of
     rows is told.
     */
    method Handle(message: Message, world: World) returns (r: Result<(), Error>, ghost reply: Result<(), Error>)
      requires Valid() && 1 <= batchSize
      modifies this, pipeline
      ensures Valid()
      ensures accepted == old(accepted) + Rows(message)
      ensures Grows(old(log), log, message.Discard?)
      ensures r.Err? ==> message.Tick?
      ensures match message
              case Tick => Rolled(old(buffer), old(stagedBatches), old(createdAt), old(log), world, r)
              case CommitAll =>
                (old(buffer) == [] || serializes(old(buffer))) && world.preparation == Succeeds ==>
                  if old(buffer) == [] && old(stagedBatches) == [] then Unchanged([], [], old(log))
                  else Unchanged([], [], Enqueued(old(log), old(Outstanding()))) && pipeline.tasks == {}
              case Discard => Unchanged([], [], RolledBack(old(log), old(Outstanding())))
              case _ =>
                Wrote(old(buffer) + Rows(message), old(stagedBatches), old(createdAt), old(log), world, reply)
    {
      pipeline.DrainCompleted(world.finished);
      r, reply := Ok(()), Ok(());
      match message {
        case Tick =>
          r := MaybeRoll(world);
        case Data(item) =>
          var written := WriteItem(item, world);
          reply := written;
        case DataBatch(items) =>
          var written := WriteItems(items, world);
          reply := written;
        case CommitAll =>
          var committed := Commit(world);
          assert committed.Ok? ==> committed.value || committed == Ok(false);
        case Discard =>
          Rollback();
      }
    }

    /** Flush what is left and wait for all commits; rows that cannot be prepared any more are left behind. */
    method Shutdown(last: World)
      requires Valid()
      modifies this, pipeline
      ensures Valid() && Grows(old(log), log, false) && pipeline.tasks == {} && accepted == old(accepted)
      ensures log == old(log) || (log == Enqueued(old(log), old(Outstanding())) && Outstanding() == [])
      ensures log == old(log) && old(Outstanding()) != [] ==> last.preparation != Succeeds || !serializes(buffer)
    {
      if buffer != [] || stagedBatches != [] {
        var reply := PrepareAndEnqueue(last);
        assert reply.Err? ==> reply.error == SerdeArrow || reply.error == Unprepared;
        assert reply.Ok? ==> reply.value || reply == Ok(false);
      }
      pipeline.DrainAll();
    }

    /** The whole life of the sink. Without a rollback every row of `accepted` ends in a commit or is left behind. */
    method Run(messages: seq<Message>, worlds: seq<World>, last: World) returns (r: Result<(), Error>, handled: nat)
      requires Valid() && 1 <= batchSize && |worlds| == |messages|
      modifies this, pipeline
      ensures Valid() && handled <= |messages|
      ensures accepted == old(accepted) + Received(messages[..handled])
      ensures r.Ok? ==> handled == |messages| && pipeline.tasks == {}
      ensures r.Err? ==> 0 < handled && messages[handled - 1].Tick?
      ensures Grows(old(log), log, exists m <- messages :: m.Discard?)
    {
      ghost var discards := exists m <- messages :: m.Discard?;
      handled := 0;
      while handled < |messages|
        invariant Valid() && handled <= |messages|
        invariant accepted == old(accepted) + Received(messages[..handled])
        invariant Grows(old(log), log, discards)
      {
        assert messages[handled].Discard? ==> discards;
        ghost var before := log;
        ghost var reply;
        r, reply := Handle(messages[handled], worlds[handled]);
        GrowsOn(old(log), before, log, discards, messages[handled].Discard?);
        ReceivedNext(old(accepted), messages, handled);
        handled := handled + 1;
        if r.Err? {
          return;
        }
      }
      assert messages[..handled] == messages;
      ghost var before := log;
      Shutdown(last);
      GrowsOn(old(log), before, log, discards, false);
      r := Ok(());
    }
  }
}
