/**
 The catalog as one client sees it. Between any two of the client's calls an
 arbitrary list of other clients' requests is answered first; quantifying over
 that schedule quantifies over every interleaving.
 */
module CatalogServer {
  import opened Wrappers
  import opened Catalog

  /** The table after other clients' requests, in order. */
  function Landed(table: Metadata, requests: seq<Request>): Metadata
    decreases |requests|
  {
    if requests == [] then table else Landed(After(table, requests[0]), requests[1..])
  }

  class Server {
    var table: Metadata
    var calls: nat
    const schedule: seq<seq<Request>>

    constructor (initial: Metadata, rivals: seq<seq<Request>>)
      ensures table == initial && calls == 0 && schedule == rivals
    {
      table, calls, schedule := initial, 0, rivals;
    }

    /** What the other clients get done just before call number `call`. */
    function Rivals(call: nat): seq<Request> {
      if call < |schedule| then schedule[call] else []
    }

    /** The table after the rivals' requests before the calls numbered `first..last`. */
    function RivalsOnly(start: Metadata, first: nat, last: nat): Metadata
      requires first <= last
      decreases last
    {
      if first == last then start else Landed(RivalsOnly(start, first, last - 1), Rivals(last - 1))
    }

    lemma {:induction false} RivalsCompose(start: Metadata, a: nat, b: nat, c: nat)
      requires a <= b <= c
      ensures RivalsOnly(RivalsOnly(start, a, b), b, c) == RivalsOnly(start, a, c)
      decreases c
    {
      if b < c {
        RivalsCompose(start, a, b, c - 1);
      }
    }

    method LoadTable() returns (loaded: Metadata)
      modifies this
      ensures table == Landed(old(table), Rivals(old(calls))) && calls == old(calls) + 1
      ensures loaded == table
    {
      table := Landed(table, Rivals(calls));
      calls := calls + 1;
      loaded := table;
    }

    method CommitTable(request: Request) returns (reply: Result<(), CommitError>)
      modifies this
      ensures calls == old(calls) + 1
      ensures var before := Landed(old(table), Rivals(old(calls)));
              match Commit(before, request)
              case Ok(next) => reply == Ok(()) && table == next
              case Err(e) => reply == Err(e) && table == before
    {
      table := Landed(table, Rivals(calls));
      calls := calls + 1;
      match Commit(table, request) {
        case Ok(next) =>
          table := next;
          reply := Ok(());
        case Err(e) =>
          reply := Err(e);
      }
    }
  }

  /** A snapshot id that the loaded table does not know; the source draws random ones until it has one. */
  method GenerateUniqueSnapshotId(table: Metadata) returns (id: SnapshotId)
    ensures id !in table.snapshots
  {
    id := 0;
    ghost var tried: set<SnapshotId> := {};
    while id in table.snapshots
      invariant forall k <- tried :: k < id
      invariant tried <= table.snapshots.Keys
      decreases table.snapshots.Keys - tried
    {
      tried := tried + {id};
      id := id + 1;
    }
  }

  // ------------------------------------------------------------------
  // No request ever changes a snapshot
  // ------------------------------------------------------------------

  /**
   `base` is something a client may have loaded before the table became
   `table`. A snapshot that came since has taken a new sequence number.
   */
  ghost predicate LoadedBefore(base: Metadata, table: Metadata) {
    && base.RefsResolve()
    && base.lastSeqNum <= table.lastSeqNum
    && (base.lastSeqNum == table.lastSeqNum ==> base.snapshots == table.snapshots)
    && forall id <- base.snapshots :: id in table.snapshots && table.snapshots[id] == base.snapshots[id]
  }

  lemma {:induction false} UpdatesKeepSnapshots(table: Metadata, updates: seq<Update>)
    ensures var next := ApplyUpdates(table, updates);
            next.Some? ==>
              && table.lastSeqNum <= next.value.lastSeqNum
              && (table.lastSeqNum == next.value.lastSeqNum ==> table.snapshots == next.value.snapshots)
              && (table.RefsResolve() ==> next.value.RefsResolve())
              && forall id <- table.snapshots ::
                   id in next.value.snapshots && next.value.snapshots[id] == table.snapshots[id]
    decreases |updates|
  {
    if updates != [] {
      var next := ApplyUpdate(table, updates[0]);
      if next.Some? {
        UpdatesKeepSnapshots(next.value, updates[1..]);
      }
    }
  }

  lemma {:induction false} CommitKeepsSnapshots(table: Metadata, request: Request)
    requires table.RefsResolve()
    ensures After(table, request).RefsResolve() && LoadedBefore(table, After(table, request))
  {
    UpdatesKeepSnapshots(table, request.updates);
  }

  lemma {:induction false} LandedKeepsSnapshots(table: Metadata, requests: seq<Request>)
    requires table.RefsResolve()
    ensures Landed(table, requests).RefsResolve() && LoadedBefore(table, Landed(table, requests))
    decreases |requests|
  {
    if requests != [] {
      CommitKeepsSnapshots(table, requests[0]);
      LandedKeepsSnapshots(After(table, requests[0]), requests[1..]);
    }
  }

  /** A table loaded earlier shows today's snapshot of a ref as long as the ref has not moved. */
  lemma {:induction false} SameRefSameManifests(base: Metadata, table: Metadata, name: string)
    requires LoadedBefore(base, table) && table.Ref(name) == base.Ref(name)
    ensures base.SnapshotForRef(name) == table.SnapshotForRef(name)
  {
    if name in base.refs {
      assert base.refs[name] in base.snapshots && base.refs[name] == table.refs[name];
    }
  }

  /** A client that extends the snapshot it loaded keeps the table well formed. */
  lemma {:induction false} AdvanceKeepsWellFormed(table: Metadata, base: Metadata, name: string, s: Snapshot)
    requires WellFormed(table) && WellFormed(base) && LoadedBefore(base, table) && s.parent == base.Ref(name)
    ensures WellFormed(After(table, AdvanceRequest(base, name, s)))
  {
    CommitOfAdvance(table, base, name, s);
    CommitKeepsSnapshots(table, AdvanceRequest(base, name, s));
    if Commit(table, AdvanceRequest(base, name, s)).Ok? {
      assert table.Ref(name) == base.Ref(name);
      if s.parent.Some? {
        var id := table.refs[name];
        assert id in table.snapshots;
        assert table.snapshots[id].seqNum <= table.lastSeqNum;
        assert table.lastSeqNum < s.seqNum;
      }
    }
  }
}
