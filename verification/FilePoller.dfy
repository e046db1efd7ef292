/**
 The file poller: list what lies behind a moving bound, queue what was not
 handed out before, hand it out one by one, and clean the table of processed
 files. A file's key contains its timestamp, so a file is its key.
 */
module FilePoller {
  import opened Wrappers

  type Time = int

  datatype File = File(id: nat, timestamp: Time)

  datatype Lookback = StartAfter(start: Time) | MaxLookback(duration: nat)

  datatype Config = Config(lookback: Lookback, offset: nat)

  /** No listing starts before this. */
  function Floor(config: Config, now: Time): Time {
    match config.lookback
    case StartAfter(start) => start
    case MaxLookback(duration) => now - duration
  }

  /** Where the next listing starts. */
  function After(config: Config, latest: Option<Time>, now: Time): (bound: Time)
    ensures config.lookback.StartAfter? ==> bound >= config.lookback.start
    ensures config.lookback.MaxLookback? ==> bound >= now - config.lookback.duration
    ensures latest.Some? ==> bound >= latest.value - config.offset
    ensures bound == (match config.lookback
                      case StartAfter(start) => start
                      case MaxLookback(duration) => now - duration) ||
            (latest.Some? && bound == latest.value - config.offset)
  {
    match config.lookback
    case StartAfter(start) =>
      (match latest
       case Some(t) => if t - config.offset > start then t - config.offset else start
       case None => start)
    case MaxLookback(duration) =>
      var earliest := now - duration;
      match latest
      case Some(t) => if t - config.offset > earliest then t - config.offset else earliest
      case None => earliest
  }

  function Listing(bucket: seq<File>, after: Time, before: Time): seq<File> {
    if bucket == [] then []
    else (if after < bucket[0].timestamp <= before then [bucket[0]] else []) + Listing(bucket[1..], after, before)
  }

  // ------------------------------------------------------------------
  // The server
  // ------------------------------------------------------------------

  /** The queue, the timestamp of the file queued last, and the live cache entries. */
  datatype Poller = Poller(queue: seq<File>, latest: Option<Time>, cache: set<File>)

  /** Queue the listed files that are neither cached nor recorded. */
  function Enqueue(p: Poller, records: seq<File>, files: seq<File>): Poller
    decreases |files|
  {
    if files == [] then p
    else
      var f := files[0];
      var next :=
        if f in p.cache then p
        else if f in records then p.(cache := p.cache + {f})
        else p.(queue := p.queue + [f], latest := Some(f.timestamp));
      Enqueue(next, records, files[1..])
  }

  /** One turn of the loop; with `checked` less than the listing's length it is cancelled on the way. */
  function NextFile(config: Config, p: Poller, records: seq<File>, bucket: seq<File>, now: Time, checked: nat)
    : (Poller, Option<File>)
  {
    if p.queue != [] then (p.(queue := p.queue[1..]), Some(p.queue[0]))
    else
      var files := Listing(bucket, After(config, p.latest, now), now);
      if checked < |files| then (Enqueue(p, records, files[..checked]), None)
      else
        var q := Enqueue(p, records, files);
        if q.queue == [] then (q, None) else (q.(queue := q.queue[1..]), Some(q.queue[0]))
  }

  class FilePollerServer {
    const config: Config
    var fileQueue: seq<File>
    var latestFileTimestamp: Option<Time>
    var cache: set<File>

    function Value(): Poller
      reads this
    {
      Poller(fileQueue, latestFileTimestamp, cache)
    }

    constructor (config: Config, latest: Option<Time>)
      ensures this.config == config && Value() == Poller([], latest, {})
    {
      this.config, fileQueue, latestFileTimestamp, cache := config, [], latest, {};
    }

    method IsAlreadyProcessed(records: seq<File>, f: File) returns (processed: bool)
      modifies this`cache
      ensures processed <==> f in old(cache) || f in records
      ensures cache == if f in records then old(cache) + {f} else old(cache)
    {
      if f in cache {
        return true;
      }
      processed := f in records;
      if processed {
        cache := cache + {f};
      }
    }

    /** `checked` files are looked at before the cleanup tick cancels the loop, if it does. */
    method GetNextFile(records: seq<File>, bucket: seq<File>, now: Time, checked: nat) returns (next: Option<File>)
      modifies this
      ensures (Value(), next) == NextFile(config, old(Value()), records, bucket, now, checked)
    {
      if fileQueue != [] {
        next := Some(fileQueue[0]);
        fileQueue := fileQueue[1..];
        return;
      }
      var after := After(config, latestFileTimestamp, now);
      var files := Listing(bucket, after, now);
      var cancelled := checked < |files|;
      if cancelled {
        files := files[..checked];
      }
      for i := 0 to |files|
        invariant Enqueue(old(Value()), records, files) == Enqueue(Value(), records, files[i..])
      {
        assert files[i..][0] == files[i] && files[i..][1..] == files[i + 1..];
        ghost var before := Value();
        var processed := IsAlreadyProcessed(records, files[i]);
        assert files[i] in before.cache ==> cache == before.cache;
        if !processed {
          latestFileTimestamp := Some(files[i].timestamp);
          fileQueue := fileQueue + [files[i]];
        }
      }
      if cancelled || fileQueue == [] {
        return None;
      }
      next := Some(fileQueue[0]);
      fileQueue := fileQueue[1..];
    }
  }

  // ------------------------------------------------------------------
  // The table of processed files
  // ------------------------------------------------------------------

  function InsertDescending(f: File, files: seq<File>): seq<File> {
    if files == [] || f.timestamp >= files[0].timestamp then [f] + files
    else [files[0]] + InsertDescending(f, files[1..])
  }

  /** Newest first. */
  function Descending(files: seq<File>): seq<File> {
    if files == [] then [] else InsertDescending(files[0], Descending(files[1..]))
  }

  function Since(files: seq<File>, limit: Time): seq<File> {
    if files == [] then []
    else if files[0].timestamp >= limit then [files[0]] + Since(files[1..], limit)
    else Since(files[1..], limit)
  }

  const KEPT := 100

  /** Skip the hundred newest records; delete what is older than both the next one and the bound. */
  function Clean(records: seq<File>, bound: Time): seq<File> {
    var sorted := Descending(records);
    if |sorted| <= KEPT then records
    else
      var t100 := sorted[KEPT].timestamp;
      Since(records, if t100 <= bound then t100 else bound)
  }

  lemma {:induction false} InsertCounts(f: File, files: seq<File>, limit: Time)
    ensures |Since(InsertDescending(f, files), limit)| == |Since(files, limit)| + if f.timestamp >= limit then 1 else 0
    ensures |InsertDescending(f, files)| == |files| + 1
  {
    if files != [] && f.timestamp < files[0].timestamp {
      InsertCounts(f, files[1..], limit);
      assert InsertDescending(f, files)[1..] == InsertDescending(f, files[1..]);
    } else {
      assert ([f] + files)[1..] == files;
    }
  }

  lemma {:induction false} DescendingCounts(files: seq<File>, limit: Time)
    ensures |Since(Descending(files), limit)| == |Since(files, limit)| && |Descending(files)| == |files|
  {
    if files != [] {
      DescendingCounts(files[1..], limit);
      InsertCounts(files[0], Descending(files[1..]), limit);
    }
  }

  ghost predicate NewestFirst(files: seq<File>) {
    forall i, j :: 0 <= i < j < |files| ==> files[i].timestamp >= files[j].timestamp
  }

  lemma {:induction false} InsertKeepsOrder(f: File, files: seq<File>)
    requires NewestFirst(files)
    ensures NewestFirst(InsertDescending(f, files))
    ensures forall g <- InsertDescending(f, files) :: g == f || g in files
  {
    if files != [] && f.timestamp < files[0].timestamp {
      InsertKeepsOrder(f, files[1..]);
      var rest := InsertDescending(f, files[1..]);
      forall i | 0 <= i < |rest| ensures files[0].timestamp >= rest[i].timestamp {
        assert rest[i] in rest;
      }
    }
  }

  lemma {:induction false} DescendingOrder(files: seq<File>)
    ensures NewestFirst(Descending(files))
  {
    if files != [] {
      DescendingOrder(files[1..]);
      InsertKeepsOrder(files[0], Descending(files[1..]));
    }
  }

  lemma {:induction false} FirstAreSince(files: seq<File>, n: nat, limit: Time)
    requires n <= |files| && forall i :: 0 <= i < n ==> files[i].timestamp >= limit
    ensures |Since(files, limit)| >= n
  {
    if n > 0 {
      FirstAreSince(files[1..], n - 1, limit);
    }
  }

  lemma {:induction false} SinceMembers(files: seq<File>, limit: Time)
    ensures forall f :: f in Since(files, limit) <==> f in files && f.timestamp >= limit
  {
    if files != [] {
      SinceMembers(files[1..], limit);
      assert files == [files[0]] + files[1..];
    }
  }

  /** Cleaning leaves more than a hundred records, or all, and removes none at or behind the bound. */
  lemma {:induction false} CleanKeeps(records: seq<File>, bound: Time)
    ensures forall f <- Clean(records, bound) :: f in records
    ensures forall f <- records :: f !in Clean(records, bound) ==> f.timestamp < bound
    ensures |Clean(records, bound)| > KEPT || Clean(records, bound) == records
  {
    var sorted := Descending(records);
    DescendingOrder(records);
    if |sorted| > KEPT {
      var t100 := sorted[KEPT].timestamp;
      var limit := if t100 <= bound then t100 else bound;
      SinceMembers(records, limit);
      FirstAreSince(sorted, KEPT + 1, limit);
      DescendingCounts(records, limit);
    }
  }

  lemma {:induction false} SinceOrdered(files: seq<File>, n: nat, limit: Time)
    requires NewestFirst(files) && n < |files| && files[n].timestamp < limit
    ensures |Since(files, limit)| <= n
  {
    if n == 0 {
      SinceNone(files, limit);
    } else {
      assert files[1..][n - 1] == files[n];
      SinceOrdered(files[1..], n - 1, limit);
    }
  }

  lemma {:induction false} SinceNone(files: seq<File>, limit: Time)
    requires forall i :: 0 <= i < |files| ==> files[i].timestamp < limit
    ensures Since(files, limit) == []
  {
    if files != [] {
      SinceNone(files[1..], limit);
    }
  }

  /** A record goes exactly when it is older than the bound and more than a hundred are younger than it. */
  lemma {:induction false} CleanRemovesExactly(records: seq<File>, bound: Time, f: File)
    requires f in records
    ensures f !in Clean(records, bound) <==> f.timestamp < bound && |Since(records, f.timestamp + 1)| > KEPT
  {
    var sorted := Descending(records);
    DescendingOrder(records);
    DescendingCounts(records, f.timestamp + 1);
    if |sorted| > KEPT {
      var t100 := sorted[KEPT].timestamp;
      SinceMembers(records, if t100 <= bound then t100 else bound);
      if f.timestamp < t100 {
        FirstAreSince(sorted, KEPT + 1, f.timestamp + 1);
      } else {
        SinceOrdered(sorted, KEPT, f.timestamp + 1);
      }
    } else {
      SinceAtMost(records, f.timestamp + 1);
    }
  }

  lemma {:induction false} SinceAtMost(files: seq<File>, limit: Time)
    ensures |Since(files, limit)| <= |files|
  {
    if files != [] {
      SinceAtMost(files[1..], limit);
    }
  }

  lemma {:induction false} ListingMembers(bucket: seq<File>, after: Time, before: Time)
    ensures forall f :: f in Listing(bucket, after, before) <==> f in bucket && after < f.timestamp <= before
  {
    if bucket != [] {
      ListingMembers(bucket[1..], after, before);
      assert bucket == [bucket[0]] + bucket[1..];
    }
  }

  /** Cleaning with the bound of the next listing deletes no record that this listing asks for. */
  lemma {:induction false} CleanIsSafeForItsBound(records: seq<File>, bucket: seq<File>, bound: Time, before: Time,
                                                  f: File)
    requires f in Listing(bucket, bound, before) && f in records
    ensures f in Clean(records, bound)
  {
    CleanKeeps(records, bound);
    ListingMembers(bucket, bound, before);
  }

  // ------------------------------------------------------------------
  // What a listing adds to the queue
  // ------------------------------------------------------------------

  /** The files known to neither the cache nor the table. */
  function Fresh(cache: set<File>, records: seq<File>, files: seq<File>): seq<File> {
    if files == [] then []
    else
      (if files[0] in cache || files[0] in records then [] else [files[0]]) + Fresh(cache, records, files[1..])
  }

  lemma {:induction false} FreshMembers(cache: set<File>, records: seq<File>, files: seq<File>)
    ensures forall f :: f in Fresh(cache, records, files) <==> f in files && f !in cache && f !in records
  {
    if files != [] {
      FreshMembers(cache, records, files[1..]);
      assert files == [files[0]] + files[1..];
    }
  }

  lemma {:induction false} FreshDistinct(cache: set<File>, records: seq<File>, files: seq<File>)
    requires Distinct(files)
    ensures Distinct(Fresh(cache, records, files))
  {
    if files != [] {
      FreshDistinct(cache, records, files[1..]);
      FreshMembers(cache, records, files[1..]);
    }
  }

  /** Caching a recorded file changes no answer. */
  lemma {:induction false} FreshAfterCaching(cache: set<File>, records: seq<File>, files: seq<File>, f: File)
    requires f in records
    ensures Fresh(cache + {f}, records, files) == Fresh(cache, records, files)
  {
    if files != [] {
      FreshAfterCaching(cache, records, files[1..], f);
    }
  }

  function Newest(latest: Option<Time>, queued: seq<File>): Option<Time> {
    if queued == [] then latest else Some(queued[|queued| - 1].timestamp)
  }

  /**
   Whatever the listing: a file that is looked at is queued, in order, exactly
   when neither the cache nor the table knows it, and the last one queued sets
   the latest timestamp.
   */
  lemma {:induction false} EnqueueExactly(p: Poller, records: seq<File>, files: seq<File>)
    ensures var q := Enqueue(p, records, files);
            && q.queue == p.queue + Fresh(p.cache, records, files)
            && q.latest == Newest(p.latest, Fresh(p.cache, records, files))
            && p.cache <= q.cache && forall f <- q.cache :: f in p.cache || f in records
    decreases |files|
  {
    if files != [] {
      var f, rest := files[0], files[1..];
      if f in p.cache {
        EnqueueExactly(p, records, rest);
      } else if f in records {
        EnqueueExactly(p.(cache := p.cache + {f}), records, rest);
        FreshAfterCaching(p.cache, records, rest, f);
      } else {
        EnqueueExactly(p.(queue := p.queue + [f], latest := Some(f.timestamp)), records, rest);
        var more := Fresh(p.cache, records, rest);
        assert p.queue + [f] + more == p.queue + ([f] + more);
      }
    } else {
      assert p.queue + [] == p.queue;
    }
  }

  /** The files looked at in one turn of the loop. */
  function Looked(config: Config, p: Poller, bucket: seq<File>, now: Time, checked: nat): seq<File> {
    if p.queue != [] then []
    else
      var files := Listing(bucket, After(config, p.latest, now), now);
      if checked < |files| then files[..checked] else files
  }

  /** The cleanup tick cuts the turn short before every listed file was looked at. */
  predicate Cancelled(config: Config, p: Poller, bucket: seq<File>, now: Time, checked: nat) {
    checked < |Listing(bucket, After(config, p.latest, now), now)|
  }

  function Taken(next: Option<File>): seq<File> {
    if next.None? then [] else [next.value]
  }

  lemma {:induction false} ListingDistinct(bucket: seq<File>, after: Time, before: Time)
    requires Distinct(bucket)
    ensures Distinct(Listing(bucket, after, before))
  {
    if bucket != [] {
      ListingDistinct(bucket[1..], after, before);
      ListingMembers(bucket[1..], after, before);
    }
  }

  lemma {:induction false} ListingShorter(bucket: seq<File>, after: Time, before: Time)
    ensures |Listing(bucket, after, before)| <= |bucket|
  {
    if bucket != [] {
      ListingShorter(bucket[1..], after, before);
    }
  }

  lemma {:induction false} LookedMembers(config: Config, p: Poller, bucket: seq<File>, now: Time, checked: nat)
    ensures forall f <- Looked(config, p, bucket, now, checked) ::
              f in bucket && After(config, p.latest, now) < f.timestamp <= now
    ensures p.queue == [] && checked >= |bucket| ==>
              forall f <- bucket :: After(config, p.latest, now) < f.timestamp <= now ==>
                f in Looked(config, p, bucket, now, checked)
    ensures Distinct(bucket) ==> Distinct(Looked(config, p, bucket, now, checked))
  {
    ListingShorter(bucket, After(config, p.latest, now), now);
    ListingMembers(bucket, After(config, p.latest, now), now);
    if Distinct(bucket) {
      ListingDistinct(bucket, After(config, p.latest, now), now);
    }
  }

  /**
   One turn takes the front of the queue or, if that is empty, queues exactly
   the unknown ones among the files it looks at. It hands out a file exactly when
   the queue held one, or the listing was looked at to its end with an unknown
   file in it; the file handed out is the first of those queued.
   */
  lemma {:induction false} NextFileExactly(config: Config, p: Poller, records: seq<File>, bucket: seq<File>, now: Time,
                                           checked: nat)
    ensures var (q, next) := NextFile(config, p, records, bucket, now, checked);
            var found := Fresh(p.cache, records, Looked(config, p, bucket, now, checked));
            && Taken(next) + q.queue == p.queue + found
            && q.latest == Newest(p.latest, found)
            && p.cache <= q.cache && (forall f <- q.cache :: f in p.cache || f in records)
            && (next.Some? <==> p.queue != [] || (found != [] && !Cancelled(config, p, bucket, now, checked)))
            && (next.Some? ==> next.value == (p.queue + found)[0])
  {
    if p.queue == [] {
      EnqueueExactly(p, records, Looked(config, p, bucket, now, checked));
    }
  }

  /**
   The bound falls exactly when it is set by the latest timestamp and the last
   file queued is older than that.
   */
  lemma {:induction false} BoundFallsExactly(config: Config, p: Poller, records: seq<File>, bucket: seq<File>,
                                             now: Time, checked: nat)
    ensures var q := NextFile(config, p, records, bucket, now, checked).0;
            var found := Fresh(p.cache, records, Looked(config, p, bucket, now, checked));
            After(config, q.latest, now) < After(config, p.latest, now) <==>
              && found != [] && p.latest.Some? && found[|found| - 1].timestamp < p.latest.value
              && Floor(config, now) < p.latest.value - config.offset
  {
    NextFileExactly(config, p, records, bucket, now, checked);
  }

  // ------------------------------------------------------------------
  // Runs
  // ------------------------------------------------------------------

  /**
   `handed` are the files of the records that the process started with and
   those handed out since; `cleaned` is the largest bound cleaned with.
   */
  datatype State = State(poller: Poller, records: seq<File>, handed: seq<File>, cleaned: Option<Time>, clock: Time)

  datatype Event =
    | Poll(bucket: seq<File>, now: Time, checked: nat)
    | Record(file: File)
    | Expire(entry: File)
    | CleanUp(now: Time)

  function Later(a: Option<Time>, b: Time): Option<Time> {
    if a == None || a.value < b then Some(b) else a
  }

  function Step(config: Config, s: State, event: Event): State {
    match event
    case Poll(bucket, now, checked) =>
      var (p, next) := NextFile(config, s.poller, s.records, bucket, now, checked);
      (match next
       case None => s.(poller := p, clock := now)
       case Some(f) => s.(poller := p.(cache := p.cache + {f}), handed := s.handed + [f], clock := now))
    case Record(f) => s.(records := s.records + [f])
    case Expire(f) => s.(poller := s.poller.(cache := s.poller.cache - {f}))
    case CleanUp(now) =>
      var bound := After(config, s.poller.latest, now);
      s.(records := Clean(s.records, bound), cleaned := Later(s.cleaned, bound), clock := now)
  }

  ghost predicate Distinct(files: seq<File>) {
    forall i, j :: 0 <= i < j < |files| ==> files[i] != files[j]
  }

  ghost predicate Enabled(s: State, event: Event) {
    match event
    case Poll(bucket, _, _) => Distinct(bucket)
    case Record(f) => f in s.handed && f !in s.records
    case _ => true
  }

  /** A process that starts on any table of records. */
  ghost predicate IsRun(config: Config, latest: Option<Time>, records: seq<File>, clock: Time, trace: seq<State>,
                        events: seq<Event>) {
    && |trace| == |events| + 1 && Distinct(records)
    && trace[0] == State(Poller([], latest, {}), records, records, None, clock)
    && forall i :: 0 <= i < |events| ==>
         Enabled(trace[i], events[i]) && trace[i + 1] == Step(config, trace[i], events[i])
  }

  // ------------------------------------------------------------------
  // What has been issued
  // ------------------------------------------------------------------

  /** Handed out or about to be. */
  function Issued(s: State): seq<File> {
    s.handed + s.poller.queue
  }

  function LookedAt(config: Config, s: State, event: Event): seq<File> {
    if event.Poll? then Looked(config, s.poller, event.bucket, event.now, event.checked) else []
  }

  lemma {:induction false} IssuedGrows(config: Config, s: State, event: Event)
    ensures Issued(Step(config, s, event)) ==
            Issued(s) + Fresh(s.poller.cache, s.records, LookedAt(config, s, event))
  {
    if event.Poll? {
      NextFileExactly(config, s.poller, s.records, event.bucket, event.now, event.checked);
      var (q, next) := NextFile(config, s.poller, s.records, event.bucket, event.now, event.checked);
      var found := Fresh(s.poller.cache, s.records, LookedAt(config, s, event));
      assert s.handed + (Taken(next) + q.queue) == s.handed + Taken(next) + q.queue;
      assert s.handed + (s.poller.queue + found) == s.handed + s.poller.queue + found;
    } else {
      assert Issued(s) + [] == Issued(s);
    }
  }

  // ------------------------------------------------------------------
  // What is queued is handed out
  // ------------------------------------------------------------------

  function Polls(events: seq<Event>): nat {
    if events == [] then 0
    else Polls(events[..|events| - 1]) + if events[|events| - 1].Poll? then 1 else 0
  }

  lemma {:induction false} PollHandsOut(config: Config, s: State, event: Event)
    ensures s.handed <= Step(config, s, event).handed
    ensures event.Poll? && s.poller.queue != [] ==> |Step(config, s, event).handed| == |s.handed| + 1
  {
    if event.Poll? {
      NextFileExactly(config, s.poller, s.records, event.bucket, event.now, event.checked);
    }
  }

  /** Either everything that was queued at event `m` has been handed out, or every turn since handed out a file. */
  lemma {:induction false} TurnsHandOut(config: Config, latest: Option<Time>, records: seq<File>, clock: Time,
                                        trace: seq<State>, events: seq<Event>, m: nat)
    requires IsRun(config, latest, records, clock, trace, events) && m <= |events|
    ensures var s, now := trace[m], trace[|events|];
            && Issued(s) <= Issued(now) && |s.handed| <= |now.handed|
            && (|now.handed| >= |Issued(s)| || |now.handed| >= |s.handed| + Polls(events[m..]))
    decreases |events|
  {
    if m < |events| {
      var n := |events| - 1;
      TurnsHandOut(config, latest, records, clock, trace[..n + 1], events[..n], m);
      assert events[m..][..n - m] == events[..n][m..];
      IssuedGrows(config, trace[n], events[n]);
      PollHandsOut(config, trace[n], events[n]);
      assert |Issued(trace[n])| == |trace[n].handed| + |trace[n].poller.queue|;
    }
  }

  /**
   Whatever happens in between, cleanups and cancelled turns included: after
   more than `i` further turns the file that was at place `i` of the queue has
   been handed out, in its place.
   */
  lemma {:induction false} QueuedIsHandedOut(config: Config, latest: Option<Time>, records: seq<File>, clock: Time,
                                             trace: seq<State>, events: seq<Event>, m: nat, i: nat)
    requires IsRun(config, latest, records, clock, trace, events) && m <= |events|
    requires i < |trace[m].poller.queue| && i < Polls(events[m..])
    ensures var s, now := trace[m], trace[|events|];
            |s.handed| + i < |now.handed| && now.handed[|s.handed| + i] == s.poller.queue[i]
  {
    TurnsHandOut(config, latest, records, clock, trace, events, m);
    var s, now := trace[m], trace[|events|];
    assert Issued(s)[|s.handed| + i] == s.poller.queue[i];
    assert Issued(now)[|s.handed| + i] == now.handed[|s.handed| + i];
  }

  // ------------------------------------------------------------------
  // When a file is issued twice
  // ------------------------------------------------------------------

  /** A file handed out before is looked at when its cache entry has expired and it has no record. */
  ghost predicate Reissues(config: Config, s: State, event: Event) {
    exists f :: f in LookedAt(config, s, event) && f in s.handed && f !in s.poller.cache && f !in s.records
  }

  lemma {:induction false} DistinctAppend(a: seq<File>, b: seq<File>)
    requires Distinct(b)
    ensures Distinct(a + b) <==> Distinct(a) && forall f <- b :: f !in a
  {
    var c := a + b;
    if Distinct(c) {
      forall i, j | 0 <= i < j < |a| ensures a[i] != a[j] {
        assert c[i] == a[i] && c[j] == a[j];
      }
      forall i, j | 0 <= i < |a| && 0 <= j < |b| ensures a[i] != b[j] {
        assert c[i] == a[i] && c[|a| + j] == b[j];
      }
    } else if Distinct(a) {
      var i, j :| 0 <= i < j < |c| && c[i] == c[j];
      assert i < |a| <= j;
      assert b[j - |a|] in b && a[i] in a;
    }
  }

  lemma {:induction false} StepIssues(config: Config, s: State, event: Event)
    requires Enabled(s, event)
    ensures Distinct(Issued(Step(config, s, event))) <==> Distinct(Issued(s)) && !Reissues(config, s, event)
  {
    var looked := LookedAt(config, s, event);
    var found := Fresh(s.poller.cache, s.records, looked);
    IssuedGrows(config, s, event);
    FreshMembers(s.poller.cache, s.records, looked);
    if event.Poll? {
      LookedMembers(config, s.poller, event.bucket, event.now, event.checked);
    }
    FreshDistinct(s.poller.cache, s.records, looked);
    DistinctAppend(Issued(s), found);
    if s.poller.queue == [] {
      assert Issued(s) == s.handed;
    }
  }

  /**
   In every run, from any table, cancelled listings included: some file is
   handed out or queued twice exactly when at some turn a file handed out
   before is looked at whose cache entry is gone and which has no record.
   */
  lemma {:induction false} IssuedTwiceExactly(config: Config, latest: Option<Time>, records: seq<File>, clock: Time,
                                              trace: seq<State>, events: seq<Event>)
    requires IsRun(config, latest, records, clock, trace, events)
    ensures Distinct(Issued(trace[|events|])) <==>
              forall i :: 0 <= i < |events| ==> !Reissues(config, trace[i], events[i])
  {
    if events == [] {
      assert Issued(trace[0]) == records;
    } else {
      var n := |events| - 1;
      IssuedTwiceExactly(config, latest, records, clock, trace[..n + 1], events[..n]);
      StepIssues(config, trace[n], events[n]);
    }
  }

  // ------------------------------------------------------------------
  // Each file once
  // ------------------------------------------------------------------

  /** Known to the cache or the table, or older than a bound already cleaned with. */
  ghost predicate Covered(s: State, f: File) {
    f in s.poller.cache || f in s.records || (s.cleaned.Some? && f.timestamp < s.cleaned.value)
  }

  /** A file this old cannot pull the bound below what was cleaned with. */
  predicate Ahead(config: Config, cleaned: Option<Time>, f: File, now: Time) {
    cleaned.Some? ==> f.timestamp - config.offset >= cleaned.value || Floor(config, now) >= cleaned.value
  }

  /**
   What is asked of the surroundings: the clock does not go back, a file is
   recorded before its cache entry expires, and a file that turns up after a
   cleanup is not older than the latest one was then.
   */
  ghost predicate OnTime(config: Config, s: State, event: Event) {
    match event
    case Expire(f) => f in s.handed ==> f in s.records || (s.cleaned.Some? && f.timestamp < s.cleaned.value)
    case Poll(_, now, _) =>
      now >= s.clock && forall f <- LookedAt(config, s, event) :: f !in s.handed ==> Ahead(config, s.cleaned, f, now)
    case CleanUp(now) => now >= s.clock
    case Record(_) => true
  }

  ghost predicate OnceInv(config: Config, s: State) {
    && (forall f <- s.handed :: Covered(s, f))
    && (s.cleaned.Some? ==> After(config, s.poller.latest, s.clock) >= s.cleaned.value)
  }

  lemma {:induction false} NothingReissued(config: Config, s: State, event: Event)
    requires OnceInv(config, s) && OnTime(config, s, event)
    ensures !Reissues(config, s, event)
  {
    if event.Poll? {
      LookedMembers(config, s.poller, event.bucket, event.now, event.checked);
      forall f | f in LookedAt(config, s, event) && f in s.handed ensures f in s.poller.cache || f in s.records {
        assert Covered(s, f);
      }
    }
  }

  lemma {:induction false} PollKeepsOnce(config: Config, s: State, event: Event)
    requires event.Poll? && OnceInv(config, s) && OnTime(config, s, event)
    ensures OnceInv(config, Step(config, s, event))
  {
    var next := Step(config, s, event);
    var looked := LookedAt(config, s, event);
    NothingReissued(config, s, event);
    NextFileExactly(config, s.poller, s.records, event.bucket, event.now, event.checked);
    FreshMembers(s.poller.cache, s.records, looked);
    var found := Fresh(s.poller.cache, s.records, looked);
    if found != [] {
      assert found[|found| - 1] in found;
      assert Ahead(config, s.cleaned, found[|found| - 1], event.now);
    }
    forall f | f in next.handed ensures Covered(next, f) {
      assert f in s.handed ==> Covered(s, f);
    }
  }

  lemma {:induction false} StepKeepsOnce(config: Config, s: State, event: Event)
    requires OnceInv(config, s) && OnTime(config, s, event)
    ensures OnceInv(config, Step(config, s, event))
  {
    var next := Step(config, s, event);
    match event
    case Poll(_, _, _) => PollKeepsOnce(config, s, event);
    case CleanUp(now) =>
      CleanKeeps(s.records, After(config, s.poller.latest, now));
      forall f | f in s.handed ensures Covered(next, f) {
        assert Covered(s, f);
      }
    case _ =>
      forall f | f in s.handed ensures Covered(next, f) {
        assert Covered(s, f);
      }
  }

  /** In every run whose surroundings are on time no file is handed out twice, nor one recorded before the start. */
  lemma {:induction false} HandedOutOnce(config: Config, latest: Option<Time>, records: seq<File>, clock: Time,
                                         trace: seq<State>, events: seq<Event>)
    requires IsRun(config, latest, records, clock, trace, events)
    requires forall i :: 0 <= i < |events| ==> OnTime(config, trace[i], events[i])
    ensures Distinct(Issued(trace[|events|])) && OnceInv(config, trace[|events|])
  {
    if events == [] {
      assert Issued(trace[0]) == records;
    } else {
      var n := |events| - 1;
      HandedOutOnce(config, latest, records, clock, trace[..n + 1], events[..n]);
      NothingReissued(config, trace[n], events[n]);
      StepIssues(config, trace[n], events[n]);
      StepKeepsOnce(config, trace[n], events[n]);
    }
  }

  // ------------------------------------------------------------------
  // The same, from what goes in
  // ------------------------------------------------------------------

  /** A time that the start or an earlier listing showed before event `j`. */
  ghost predicate Shown(latest: Option<Time>, events: seq<Event>, j: nat, t: Time)
    requires j <= |events|
  {
    latest == Some(t) || exists i, g :: 0 <= i < j && events[i].Poll? && g in events[i].bucket && g.timestamp == t
  }

  ghost predicate RecordedBefore(records: seq<File>, events: seq<Event>, k: nat, f: File)
    requires k <= |events|
  {
    f in records || Record(f) in events[..k]
  }

  /**
   The clock does not go back; a new file that is looked at is not older than
   anything that a listing had shown before some cleanup; cache entries expire
   after the file was recorded.
   */
  ghost predicate InOrder(config: Config, latest: Option<Time>, records: seq<File>, trace: seq<State>,
                          events: seq<Event>, k: nat)
    requires k < |events| < |trace|
  {
    match events[k]
    case Poll(_, now, _) =>
      && now >= trace[k].clock
      && forall f <- LookedAt(config, trace[k], events[k]), j, t ::
           f !in trace[k].handed && 0 <= j < k && events[j].CleanUp? && Shown(latest, events, j, t) ==>
             f.timestamp >= t
    case CleanUp(now) => now >= trace[k].clock
    case Expire(f) => f in trace[k].handed ==> RecordedBefore(records, events, k, f)
    case Record(_) => true
  }

  /** The bound comes from a cleanup, and the latest timestamp then from what had been shown. */
  ghost predicate BoundKnown(config: Config, latest: Option<Time>, trace: seq<State>, events: seq<Event>, n: nat)
    requires n <= |events| < |trace|
  {
    trace[n].cleaned.Some? ==>
      exists j :: 0 <= j < n && events[j].CleanUp? && events[j].now <= trace[n].clock &&
                  trace[n].cleaned == Some(After(config, trace[j].poller.latest, events[j].now)) &&
                  (trace[j].poller.latest.Some? ==> Shown(latest, events, j, trace[j].poller.latest.value))
  }

  ghost predicate LatestShown(latest: Option<Time>, trace: seq<State>, events: seq<Event>, n: nat)
    requires n <= |events| < |trace|
  {
    trace[n].poller.latest.Some? ==> Shown(latest, events, n, trace[n].poller.latest.value)
  }

  ghost predicate RecordsKnown(records: seq<File>, trace: seq<State>, events: seq<Event>, n: nat)
    requires n <= |events| < |trace|
  {
    forall f :: RecordedBefore(records, events, n, f) ==>
      f in trace[n].records || (trace[n].cleaned.Some? && f.timestamp < trace[n].cleaned.value)
  }

  lemma {:induction false} ShownLater(latest: Option<Time>, events: seq<Event>, i: nat, j: nat, t: Time)
    requires i <= j <= |events| && Shown(latest, events, i, t)
    ensures Shown(latest, events, j, t)
  {
  }

  lemma {:induction false} NextLatestShown(config: Config, latest: Option<Time>, trace: seq<State>,
                                           events: seq<Event>, n: nat)
    requires n < |events| < |trace| && LatestShown(latest, trace, events, n)
    requires trace[n + 1] == Step(config, trace[n], events[n])
    ensures LatestShown(latest, trace, events, n + 1)
  {
    var s, event := trace[n], events[n];
    if event.Poll? {
      NextFileExactly(config, s.poller, s.records, event.bucket, event.now, event.checked);
      var looked := LookedAt(config, s, event);
      var found := Fresh(s.poller.cache, s.records, looked);
      FreshMembers(s.poller.cache, s.records, looked);
      LookedMembers(config, s.poller, event.bucket, event.now, event.checked);
      if found != [] {
        var g := found[|found| - 1];
        assert g in found && g in event.bucket;
        assert Shown(latest, events, n + 1, g.timestamp);
      }
    }
    if s.poller.latest.Some? {
      ShownLater(latest, events, n, n + 1, s.poller.latest.value);
    }
  }

  lemma {:induction false} NextBoundKnown(config: Config, latest: Option<Time>, records: seq<File>,
                                          trace: seq<State>, events: seq<Event>, n: nat)
    requires n < |events| < |trace| && BoundKnown(config, latest, trace, events, n)
    requires LatestShown(latest, trace, events, n) && InOrder(config, latest, records, trace, events, n)
    requires trace[n + 1] == Step(config, trace[n], events[n])
    ensures BoundKnown(config, latest, trace, events, n + 1)
  {
    var s, next := trace[n], trace[n + 1];
    assert s.clock <= next.clock;
    if next.cleaned == s.cleaned {
      if s.cleaned.Some? {
        var j :| 0 <= j < n && events[j].CleanUp? && events[j].now <= s.clock &&
                 s.cleaned == Some(After(config, trace[j].poller.latest, events[j].now)) &&
                 (trace[j].poller.latest.Some? ==> Shown(latest, events, j, trace[j].poller.latest.value));
      }
    } else {
      assert events[n].CleanUp? && next.cleaned == Some(After(config, s.poller.latest, events[n].now));
    }
  }

  lemma {:induction false} NextRecordsKnown(config: Config, records: seq<File>, trace: seq<State>,
                                            events: seq<Event>, n: nat)
    requires n < |events| < |trace| && RecordsKnown(records, trace, events, n)
    requires trace[n + 1] == Step(config, trace[n], events[n])
    ensures RecordsKnown(records, trace, events, n + 1)
  {
    var s, next, event := trace[n], trace[n + 1], events[n];
    assert events[..n + 1] == events[..n] + [event];
    if event.CleanUp? {
      CleanKeeps(s.records, After(config, s.poller.latest, event.now));
    }
    forall f | RecordedBefore(records, events, n + 1, f)
      ensures f in next.records || (next.cleaned.Some? && f.timestamp < next.cleaned.value)
    {
      assert RecordedBefore(records, events, n, f) || event == Record(f);
    }
  }

  /** Whoever keeps this order is on time. */
  lemma {:induction false} InOrderIsOnTime(config: Config, latest: Option<Time>, records: seq<File>,
                                           trace: seq<State>, events: seq<Event>, n: nat)
    requires n < |events| < |trace| && InOrder(config, latest, records, trace, events, n)
    requires BoundKnown(config, latest, trace, events, n) && RecordsKnown(records, trace, events, n)
    ensures OnTime(config, trace[n], events[n])
  {
    var s, event := trace[n], events[n];
    if event.Poll? && s.cleaned.Some? {
      var j :| 0 <= j < n && events[j].CleanUp? && events[j].now <= s.clock &&
               s.cleaned == Some(After(config, trace[j].poller.latest, events[j].now)) &&
               (trace[j].poller.latest.Some? ==> Shown(latest, events, j, trace[j].poller.latest.value));
      forall f | f in LookedAt(config, s, event) && f !in s.handed ensures Ahead(config, s.cleaned, f, event.now) {
        assert trace[j].poller.latest.Some? ==> f.timestamp >= trace[j].poller.latest.value;
      }
    }
  }

  lemma {:induction false} OrderIsKept(config: Config, latest: Option<Time>, records: seq<File>, clock: Time,
                                       trace: seq<State>, events: seq<Event>, n: nat)
    requires IsRun(config, latest, records, clock, trace, events) && n <= |events|
    requires forall k :: 0 <= k < |events| ==> InOrder(config, latest, records, trace, events, k)
    ensures BoundKnown(config, latest, trace, events, n) && LatestShown(latest, trace, events, n)
    ensures RecordsKnown(records, trace, events, n)
  {
    if n > 0 {
      OrderIsKept(config, latest, records, clock, trace, events, n - 1);
      NextLatestShown(config, latest, trace, events, n - 1);
      NextBoundKnown(config, latest, records, trace, events, n - 1);
      NextRecordsKnown(config, records, trace, events, n - 1);
    }
  }

  /**
   In every run whose new files come in order with respect to the cleanups, and
   whose files are recorded before their cache entries expire, no file is
   handed out twice, nor one recorded before the start.
   */
  lemma {:induction false} HandedOutOnceInOrder(config: Config, latest: Option<Time>, records: seq<File>,
                                                clock: Time, trace: seq<State>, events: seq<Event>)
    requires IsRun(config, latest, records, clock, trace, events)
    requires forall k :: 0 <= k < |events| ==> InOrder(config, latest, records, trace, events, k)
    ensures Distinct(Issued(trace[|events|]))
  {
    forall k | 0 <= k < |events| ensures OnTime(config, trace[k], events[k]) {
      OrderIsKept(config, latest, records, clock, trace, events, k);
      InOrderIsOnTime(config, latest, records, trace, events, k);
    }
    HandedOutOnce(config, latest, records, clock, trace, events);
  }

  // ------------------------------------------------------------------
  // Two runs that are not on time
  // ------------------------------------------------------------------

  lemma {:induction false} PollOne(config: Config, s: State, f: File, now: Time)
    requires s.poller.queue == [] && After(config, s.poller.latest, now) < f.timestamp <= now
    requires f !in s.poller.cache && f !in s.records
    ensures Step(config, s, Poll([f], now, 1)) ==
            s.(poller := Poller([], Some(f.timestamp), s.poller.cache + {f}), handed := s.handed + [f], clock := now)
  {
    assert [f][1..] == [] && [f] + [] == [f];
    assert Listing([f], After(config, s.poller.latest, now), now) == [f];
    var queued := s.poller.(queue := s.poller.queue + [f], latest := Some(f.timestamp));
    assert Enqueue(s.poller, s.records, [f]) == Enqueue(queued, s.records, []);
    assert queued.queue == [f];
  }

  /** Without a record before the cache entry expires any file in the window is handed out again. */
  lemma {:induction false} ExpiredIsHandedOutAgain(config: Config, latest: Option<Time>, records: seq<File>,
                                                   clock: Time, f: File, now: Time) returns (trace: seq<State>)
    requires Distinct(records) && f !in records && config.offset > 0
    requires After(config, latest, now) < f.timestamp <= now
    ensures IsRun(config, latest, records, clock, trace, [Poll([f], now, 1), Expire(f), Poll([f], now, 1)])
    ensures trace[3].handed == records + [f, f]
  {
    var s0 := State(Poller([], latest, {}), records, records, None, clock);
    var s1, s2 := Step(config, s0, Poll([f], now, 1)), Step(config, Step(config, s0, Poll([f], now, 1)), Expire(f));
    PollOne(config, s0, f, now);
    PollOne(config, s2, f, now);
    trace := [s0, s1, s2, Step(config, s2, Poll([f], now, 1))];
    assert records + [f] + [f] == records + [f, f];
  }

  /** More than a hundred records of one time. */
  ghost predicate Plenty(records: seq<File>) {
    |records| > KEPT && Distinct(records) && forall k <- records :: k.timestamp == 1000 && k.id < 200
  }

  lemma {:induction false} SinceAll(files: seq<File>, limit: Time)
    requires forall k <- files :: k.timestamp >= limit
    ensures |Since(files, limit)| == |files|
  {
    if files != [] {
      SinceAll(files[1..], limit);
    }
  }

  lemma {:induction false} SinceConcat(a: seq<File>, b: seq<File>, limit: Time)
    ensures Since(a + b, limit) == Since(a, limit) + Since(b, limit)
  {
    if a == [] {
      assert a + b == b;
    } else {
      assert (a + b)[1..] == a[1..] + b;
      SinceConcat(a[1..], b, limit);
    }
  }

  /** The table and the poller once two files were handed out and recorded. */
  function Recorded(records: seq<File>, f: File, h: File): State {
    State(Poller([], Some(1010), {f, h}), records + [f, h], records + [f, h], None, 1010)
  }

  lemma {:induction false} BeforeTheCleanup(config: Config, records: seq<File>, f: File, h: File)
      returns (trace: seq<State>)
    requires Plenty(records) && f == File(200, 995) && h == File(201, 1010) && config == Config(StartAfter(0), 10)
    ensures |trace| == 5 && trace[4] == Recorded(records, f, h)
    ensures IsRun(config, Some(1000), records, 1000, trace,
                  [Poll([f], 1000, 1), Record(f), Poll([h], 1010, 1), Record(h)])
    ensures OnTime(config, trace[0], Poll([f], 1000, 1)) && OnTime(config, trace[2], Poll([h], 1010, 1))
  {
    var s0 := State(Poller([], Some(1000), {}), records, records, None, 1000);
    PollOne(config, s0, f, 1000);
    var s1 := State(Poller([], Some(995), {f}), records, records + [f], None, 1000);
    assert Step(config, s0, Poll([f], 1000, 1)) == s1;
    var s2 := s1.(records := records + [f]);
    PollOne(config, s2, h, 1010);
    assert records + [f] + [h] == records + [f, h];
    var s3 := State(Poller([], Some(1010), {f, h}), records + [f], records + [f, h], None, 1010);
    trace := [s0, s1, s2, s3, Recorded(records, f, h)];
  }

  lemma {:induction false} AfterTheCleanup(config: Config, records: seq<File>, f: File, g: File, h: File)
      returns (trace: seq<State>)
    requires Plenty(records) && f == File(200, 995) && h == File(201, 1010) && g == File(202, 1002)
    requires config == Config(StartAfter(0), 10)
    ensures |trace| == 5 && trace[0] == Recorded(records, f, h) && trace[4].handed == records + [f, h, g, f]
    ensures trace[1] == Step(config, trace[0], CleanUp(1010)) && trace[2] == Step(config, trace[1], Expire(f))
    ensures trace[3] == Step(config, trace[2], Poll([g], 1010, 1))
    ensures trace[4] == Step(config, trace[3], Poll([f], 1010, 1))
    ensures OnTime(config, trace[0], CleanUp(1010)) && OnTime(config, trace[1], Expire(f))
    ensures OnTime(config, trace[3], Poll([f], 1010, 1))
  {
    var s4 := Recorded(records, f, h);
    CleaningForgets(records, f, h);
    var s5 := s4.(records := Clean(records + [f, h], 1000), cleaned := Some(1000));
    var s6 := s5.(poller := Poller([], Some(1010), {h}));
    assert s5.poller.cache - {f} == {h};
    PollOne(config, s6, g, 1010);
    var s7 := s6.(poller := Poller([], Some(1002), {h, g}), handed := records + [f, h, g]);
    assert records + [f, h] + [g] == records + [f, h, g] && {h} + {g} == {h, g};
    PollOne(config, s7, f, 1010);
    assert records + [f, h, g] + [f] == records + [f, h, g, f];
    LookedMembers(config, s7.poller, [f], 1010, 1);
    assert (records + [f, h, g])[|records|] == f;
    trace := [s4, s5, s6, s7, Step(config, s7, Poll([f], 1010, 1))];
  }

  /**
   With an offset of ten, files five and eight late and every file recorded in
   time: the cleanup removes the record of the first, queueing the second pulls
   the bound back behind it, and the first is handed out again.
   */
  lemma {:induction false} CleanedIsHandedOutAgain(config: Config, records: seq<File>, f: File, g: File, h: File)
      returns (trace: seq<State>, events: seq<Event>)
    requires Plenty(records) && f == File(200, 995) && h == File(201, 1010) && g == File(202, 1002)
    requires config == Config(StartAfter(0), 10)
    ensures events == [Poll([f], 1000, 1), Record(f), Poll([h], 1010, 1), Record(h)]
                      + [CleanUp(1010), Expire(f), Poll([g], 1010, 1), Poll([f], 1010, 1)]
    ensures IsRun(config, Some(1000), records, 1000, trace, events) && trace[8].handed == records + [f, h, g, f]
    ensures forall i :: 0 <= i < 8 && i != 6 ==> OnTime(config, trace[i], events[i])
  {
    var head := BeforeTheCleanup(config, records, f, h);
    var tail := AfterTheCleanup(config, records, f, g, h);
    events := [Poll([f], 1000, 1), Record(f), Poll([h], 1010, 1), Record(h)]
              + [CleanUp(1010), Expire(f), Poll([g], 1010, 1), Poll([f], 1010, 1)];
    trace := head + tail[1..];
    assert forall i :: 0 <= i < 5 ==> trace[i] == head[i] && trace[4 + i] == tail[i];
  }

  lemma {:induction false} CleaningForgets(records: seq<File>, f: File, h: File)
    requires Plenty(records) && f == File(200, 995) && h == File(201, 1010)
    ensures f !in Clean(records + [f, h], 1000)
    ensures forall k <- Clean(records + [f, h], 1000) :: k.id != 202
  {
    var all := records + [f, h];
    assert f == all[|records|] && f in all;
    SinceConcat(records, [f, h], 996);
    SinceAll(records, 996);
    CleanRemovesExactly(all, 1000, f);
    CleanKeeps(all, 1000);
  }
}
