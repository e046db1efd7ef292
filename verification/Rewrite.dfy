/**
 One compaction rewrite: which entries a compaction takes, which parent
 manifests it carries forward, and what that does to the live files and rows.
 */
module Rewrite {
  import opened Wrappers
  import opened Catalog

  /** The entries whose file is in `paths`. */
  function Select(entries: seq<Entry>, paths: set<Path>): (r: seq<Entry>)
    ensures forall e <- r :: e in entries && e.file.path in paths
  {
    if entries == [] then []
    else if entries[0].file.path in paths then [entries[0]] + Select(entries[1..], paths)
    else Select(entries[1..], paths)
  }

  /** The entries whose file is not in `paths`. */
  function Reject(entries: seq<Entry>, paths: set<Path>): (r: seq<Entry>)
    ensures forall e <- r :: e in entries && e.file.path !in paths
  {
    if entries == [] then []
    else if entries[0].file.path in paths then Reject(entries[1..], paths)
    else [entries[0]] + Reject(entries[1..], paths)
  }

  /** A data manifest is dropped when every alive entry in it is being compacted. */
  predicate Dominated(m: Manifest, paths: set<Path>) {
    forall e <- m.entries :: !e.IsAlive() || e.file.path in paths
  }

  function Survivors(manifests: seq<Manifest>, paths: set<Path>): seq<Manifest> {
    if manifests == [] then []
    else if Dominated(manifests[0], paths) then Survivors(manifests[1..], paths)
    else [manifests[0]] + Survivors(manifests[1..], paths)
  }

  function RewriteManifests(parent: seq<Manifest>, taken: seq<Entry>, files: seq<DataFile>, seqNum: nat)
    : seq<Manifest>
  {
    Survivors(parent, PathsOf(taken)) + [DeletedManifest(taken, seqNum), AddedManifest(files, seqNum)]
  }

  /** A manifest that holds both a live file being compacted and one being kept. */
  predicate Mixed(m: Manifest, paths: set<Path>) {
    && (exists e <- m.entries :: e.IsAlive() && e.file.path in paths)
    && (exists e <- m.entries :: e.IsAlive() && e.file.path !in paths)
  }

  predicate NoMixing(manifests: seq<Manifest>, paths: set<Path>) {
    forall m <- manifests :: !Mixed(m, paths)
  }

  function RewriteSnapshot(base: Metadata, taken: seq<Entry>, files: seq<DataFile>, id: SnapshotId): Snapshot
  {
    Snapshot(id, base.Ref(MAIN), base.NextSeqNum(), Replace, None,
             RewriteManifests(base.ManifestsOf(MAIN), taken, files, base.NextSeqNum()))
  }

  // ------------------------------------------------------------------
  // Reading manifests, as loops over the manifest list
  // ------------------------------------------------------------------

  method CollectAlive(manifests: seq<Manifest>) returns (entries: seq<Entry>)
    ensures entries == LiveEntries(manifests)
  {
    entries := [];
    for i := 0 to |manifests|
      invariant entries == LiveEntries(manifests[..i])
    {
      var inManifest := manifests[i].entries;
      ghost var before := entries;
      for j := 0 to |inManifest|
        invariant entries == before + AliveOf(inManifest[..j])
      {
        AliveConcat(inManifest[..j], [inManifest[j]]);
        assert inManifest[..j + 1] == inManifest[..j] + [inManifest[j]];
        if inManifest[j].IsAlive() {
          entries := entries + [inManifest[j]];
        }
      }
      assert inManifest[..|inManifest|] == inManifest;
      LiveConcat(manifests[..i], [manifests[i]]);
      assert manifests[..i + 1] == manifests[..i] + [manifests[i]];
    }
    assert manifests[..|manifests|] == manifests;
  }

  method SurvivingManifests(manifests: seq<Manifest>, paths: set<Path>) returns (surviving: seq<Manifest>)
    ensures surviving == Survivors(manifests, paths)
  {
    surviving := [];
    for i := 0 to |manifests|
      invariant surviving == Survivors(manifests[..i], paths)
    {
      if !Dominated(manifests[i], paths) {
        surviving := surviving + [manifests[i]];
      }
      SurvivorsConcat(manifests[..i], [manifests[i]], paths);
      assert manifests[..i + 1] == manifests[..i] + [manifests[i]];
    }
    assert manifests[..|manifests|] == manifests;
  }

  // ------------------------------------------------------------------
  // Choosing what to compact
  // ------------------------------------------------------------------

  function InPartitions(entries: seq<Entry>, partitions: set<Partition>): (r: seq<Entry>)
    ensures forall e <- r :: e in entries && e.file.partition in partitions
  {
    if entries == [] then []
    else if entries[0].file.partition in partitions then [entries[0]] + InPartitions(entries[1..], partitions)
    else InPartitions(entries[1..], partitions)
  }

  function Partitions(entries: seq<Entry>): set<Partition> {
    set e <- entries :: e.file.partition
  }

  /** The partitions with at least `minFiles` files. */
  function BigPartitions(entries: seq<Entry>, minFiles: nat): set<Partition> {
    set p <- Partitions(entries) | |InPartitions(entries, {p})| >= minFiles
  }

  /** The files a compaction of these live entries takes. */
  function Qualifying(entries: seq<Entry>, minFiles: nat): seq<Entry> {
    InPartitions(entries, BigPartitions(entries, minFiles))
  }

  ghost predicate GroupedBy(entries: seq<Entry>, groups: map<Partition, seq<Entry>>) {
    && groups.Keys == Partitions(entries)
    && forall p <- groups :: groups[p] == InPartitions(entries, {p})
  }

  lemma {:induction false} GroupOneMore(entries: seq<Entry>, e: Entry, groups: map<Partition, seq<Entry>>)
    requires GroupedBy(entries, groups)
    ensures var p := e.file.partition;
            GroupedBy(entries + [e], groups[p := (if p in groups then groups[p] else []) + [e]])
  {
    var p := e.file.partition;
    var grown := groups[p := (if p in groups then groups[p] else []) + [e]];
    PartitionsNext(entries, e);
    if p !in groups {
      NoneInPartition(entries, p);
    }
    forall q | q in grown ensures grown[q] == InPartitions(entries + [e], {q}) {
      InPartitionsNext(entries, e, q);
    }
  }

  lemma {:induction false} InPartitionsNext(entries: seq<Entry>, e: Entry, q: Partition)
    ensures InPartitions(entries + [e], {q}) == InPartitions(entries, {q}) + if q == e.file.partition then [e] else []
  {
    InPartitionsConcat(entries, [e], {q});
    assert [e][1..] == [];
  }

  lemma {:induction false} PartitionsNext(entries: seq<Entry>, e: Entry)
    ensures Partitions(entries + [e]) == Partitions(entries) + {e.file.partition}
  {
    var all := entries + [e];
    assert e in all && forall x :: x in all <==> x in entries || x == e;
  }

  method PartitionGroups(entries: seq<Entry>) returns (groups: map<Partition, seq<Entry>>)
    ensures GroupedBy(entries, groups)
  {
    groups := map[];
    for i := 0 to |entries|
      invariant GroupedBy(entries[..i], groups)
    {
      assert entries[..i + 1] == entries[..i] + [entries[i]];
      GroupOneMore(entries[..i], entries[i], groups);
      var p := entries[i].file.partition;
      groups := groups[p := (if p in groups then groups[p] else []) + [entries[i]]];
    }
    assert entries[..|entries|] == entries;
  }

  /**
   Groups live entries by partition and takes the groups that are big enough.
   The groups come out of a hash map, so in no particular order.
   */
  method QualifyingEntries(entries: seq<Entry>, minFiles: nat) returns (taken: seq<Entry>, partitions: nat)
    ensures multiset(taken) == multiset(Qualifying(entries, minFiles))
    ensures partitions == |BigPartitions(entries, minFiles)|
  {
    var groups := PartitionGroups(entries);
    taken, partitions := [], 0;
    var todo := groups.Keys;
    NoPartition(entries);
    assert BigPartitions(entries, minFiles) - todo == {};
    while todo != {}
      invariant todo <= groups.Keys == Partitions(entries)
      invariant TakenBut(entries, minFiles, todo, taken, partitions)
      decreases todo
    {
      var p :| p in todo;
      TakeGroup(entries, minFiles, todo, p, taken, partitions);
      if |groups[p]| >= minFiles {
        partitions := partitions + 1;
        taken := taken + groups[p];
      }
      todo := todo - {p};
    }
    assert BigPartitions(entries, minFiles) - todo == BigPartitions(entries, minFiles);
  }

  /** Everything that qualifies is taken, apart from the groups still to do. */
  ghost predicate TakenBut(entries: seq<Entry>, minFiles: nat, todo: set<Partition>, taken: seq<Entry>,
                           partitions: nat) {
    var done := BigPartitions(entries, minFiles) - todo;
    multiset(taken) == multiset(InPartitions(entries, done)) && partitions == |done|
  }

  lemma {:induction false} TakeGroup(entries: seq<Entry>, minFiles: nat, todo: set<Partition>, p: Partition,
                  taken: seq<Entry>, partitions: nat)
    requires TakenBut(entries, minFiles, todo, taken, partitions) && p in todo && todo <= Partitions(entries)
    ensures var group := InPartitions(entries, {p});
            if |group| >= minFiles then TakenBut(entries, minFiles, todo - {p}, taken + group, partitions + 1)
            else TakenBut(entries, minFiles, todo - {p}, taken, partitions)
  {
    var big, group := BigPartitions(entries, minFiles), InPartitions(entries, {p});
    if |group| >= minFiles {
      assert p in big;
      assert big - (todo - {p}) == (big - todo) + {p};
      InPartitionsSplit(entries, big - todo, p);
      assert multiset(taken + group) == multiset(taken) + multiset(group);
    } else {
      assert big - (todo - {p}) == big - todo;
    }
  }

  lemma {:induction false} NoPartition(entries: seq<Entry>)
    ensures InPartitions(entries, {}) == []
  {
    if entries != [] {
      NoPartition(entries[1..]);
    }
  }

  lemma {:induction false} NoneInPartition(entries: seq<Entry>, p: Partition)
    requires p !in Partitions(entries)
    ensures InPartitions(entries, {p}) == []
  {
    if entries != [] {
      assert entries[0] in entries;
      assert Partitions(entries[1..]) <= Partitions(entries);
      NoneInPartition(entries[1..], p);
    }
  }

  lemma {:induction false} InPartitionsConcat(a: seq<Entry>, b: seq<Entry>, partitions: set<Partition>)
    ensures InPartitions(a + b, partitions) == InPartitions(a, partitions) + InPartitions(b, partitions)
  {
    if a == [] {
      assert a + b == b;
    } else {
      assert (a + b)[1..] == a[1..] + b;
      InPartitionsConcat(a[1..], b, partitions);
    }
  }

  lemma {:induction false} InPartitionsSplit(entries: seq<Entry>, partitions: set<Partition>, p: Partition)
    requires p !in partitions
    ensures multiset(InPartitions(entries, partitions + {p})) ==
            multiset(InPartitions(entries, partitions)) + multiset(InPartitions(entries, {p}))
  {
    if entries != [] {
      InPartitionsSplit(entries[1..], partitions, p);
    }
  }

  /** In an unpartitioned table a compaction takes every live file or none. */
  lemma {:induction false} QualifyingUnpartitioned(entries: seq<Entry>, minFiles: nat, p: Partition)
    requires forall e <- entries :: e.file.partition == p
    ensures Qualifying(entries, minFiles) == if |entries| >= minFiles then entries else []
  {
    AllInPartitions(entries, {p});
    if entries != [] {
      assert Partitions(entries) == {p} by {
        assert entries[0] in entries;
      }
      if |entries| >= minFiles {
        assert BigPartitions(entries, minFiles) == {p};
      } else {
        assert BigPartitions(entries, minFiles) == {};
        NoPartition(entries);
      }
    }
  }

  lemma {:induction false} AllInPartitions(entries: seq<Entry>, partitions: set<Partition>)
    requires forall e <- entries :: e.file.partition in partitions
    ensures InPartitions(entries, partitions) == entries
  {
    if entries != [] {
      AllInPartitions(entries[1..], partitions);
    }
  }

  // ------------------------------------------------------------------
  // What one rewrite does
  // ------------------------------------------------------------------

  lemma {:induction false} SurvivorsConcat(a: seq<Manifest>, b: seq<Manifest>, paths: set<Path>)
    ensures Survivors(a + b, paths) == Survivors(a, paths) + Survivors(b, paths)
  {
    if a == [] {
      assert a + b == b;
    } else {
      assert (a + b)[1..] == a[1..] + b;
      SurvivorsConcat(a[1..], b, paths);
    }
  }

  lemma {:induction false} SurvivorMember(manifests: seq<Manifest>, paths: set<Path>, m: Manifest)
    ensures m in Survivors(manifests, paths) <==> m in manifests && !Dominated(m, paths)
  {
    if manifests != [] {
      SurvivorMember(manifests[1..], paths, m);
      assert manifests == [manifests[0]] + manifests[1..];
    }
  }

  lemma {:induction false} SelectDistinct(entries: seq<Entry>, paths: set<Path>)
    requires DistinctPaths(entries)
    ensures DistinctPaths(Select(entries, paths)) && DistinctPaths(Reject(entries, paths))
  {
    if entries != [] {
      SelectDistinct(entries[1..], paths);
      assert forall e <- entries[1..] :: e.file.path != entries[0].file.path;
    }
  }

  lemma {:induction false} DistinctConcat(a: seq<Entry>, b: seq<Entry>)
    requires DistinctPaths(a) && DistinctPaths(b) && PathsOf(a) !! PathsOf(b)
    ensures DistinctPaths(a + b)
  {
    forall i, j | 0 <= i < |a| && 0 <= j < |b| ensures a[i].file.path != b[j].file.path {
      assert a[i].file.path in PathsOf(a) && b[j].file.path in PathsOf(b);
    }
  }

  lemma {:induction false} SelectConcat(a: seq<Entry>, b: seq<Entry>, paths: set<Path>)
    ensures Select(a + b, paths) == Select(a, paths) + Select(b, paths)
  {
    if a == [] {
      assert a + b == b;
    } else {
      assert (a + b)[1..] == a[1..] + b;
      SelectConcat(a[1..], b, paths);
    }
  }

  lemma {:induction false} RejectConcat(a: seq<Entry>, b: seq<Entry>, paths: set<Path>)
    ensures Reject(a + b, paths) == Reject(a, paths) + Reject(b, paths)
  {
    if a == [] {
      assert a + b == b;
    } else {
      assert (a + b)[1..] == a[1..] + b;
      RejectConcat(a[1..], b, paths);
    }
  }

  lemma {:induction false} SelectAll(entries: seq<Entry>, paths: set<Path>)
    requires PathsOf(entries) <= paths
    ensures Select(entries, paths) == entries && Reject(entries, paths) == []
  {
    if entries != [] {
      assert entries[0] in entries;
      assert PathsOf(entries[1..]) <= PathsOf(entries);
      SelectAll(entries[1..], paths);
    }
  }

  lemma {:induction false} SelectNone(entries: seq<Entry>, paths: set<Path>)
    requires PathsOf(entries) !! paths
    ensures Select(entries, paths) == [] && Reject(entries, paths) == entries
  {
    if entries != [] {
      assert entries[0] in entries;
      assert PathsOf(entries[1..]) <= PathsOf(entries);
      SelectNone(entries[1..], paths);
    }
  }

  lemma {:induction false} SelectMember(entries: seq<Entry>, paths: set<Path>, e: Entry)
    ensures e in Select(entries, paths) <==> e in entries && e.file.path in paths
    ensures e in Reject(entries, paths) <==> e in entries && e.file.path !in paths
  {
    if entries != [] {
      SelectMember(entries[1..], paths, e);
      assert entries == [entries[0]] + entries[1..];
    }
  }

  /** Splitting a list of entries by path loses no row. */
  lemma {:induction false} SplitRows(entries: seq<Entry>, paths: set<Path>)
    ensures RowsOf(entries) == RowsOf(Select(entries, paths)) + RowsOf(Reject(entries, paths))
  {
    if entries != [] {
      SplitRows(entries[1..], paths);
      if entries[0].file.path in paths {
        assert Select(entries, paths)[1..] == Select(entries[1..], paths);
        assert Reject(entries, paths) == Reject(entries[1..], paths);
      } else {
        assert Reject(entries, paths)[1..] == Reject(entries[1..], paths);
        assert Select(entries, paths) == Select(entries[1..], paths);
      }
    }
  }

  /** Every kept file survives, whatever the manifests look like. */
  lemma {:induction false} SurvivorsKeepTheRest(manifests: seq<Manifest>, paths: set<Path>)
    ensures Reject(LiveEntries(Survivors(manifests, paths)), paths) == Reject(LiveEntries(manifests), paths)
  {
    if manifests != [] {
      var m, rest := manifests[0], manifests[1..];
      SurvivorsKeepTheRest(rest, paths);
      RejectConcat(AliveOf(m.entries), LiveEntries(rest), paths);
      if Dominated(m, paths) {
        forall e <- AliveOf(m.entries) ensures e.file.path in paths {
          AliveMember(m.entries, e);
        }
        SelectAll(AliveOf(m.entries), paths);
        assert Survivors(manifests, paths) == Survivors(rest, paths);
      } else {
        assert Survivors(manifests, paths)[1..] == Survivors(rest, paths);
        RejectConcat(AliveOf(m.entries), LiveEntries(Survivors(rest, paths)), paths);
      }
    }
  }

  /** Without mixing, no compacted file survives either. */
  lemma {:induction false} SurvivorsDropTheRest(manifests: seq<Manifest>, paths: set<Path>)
    requires NoMixing(manifests, paths)
    ensures LiveEntries(Survivors(manifests, paths)) == Reject(LiveEntries(manifests), paths)
  {
    if manifests != [] {
      var m, rest := manifests[0], manifests[1..];
      SurvivorsDropTheRest(rest, paths);
      RejectConcat(AliveOf(m.entries), LiveEntries(rest), paths);
      assert !Mixed(m, paths);
      if Dominated(m, paths) {
        forall e <- AliveOf(m.entries) ensures e.file.path in paths {
          AliveMember(m.entries, e);
        }
        SelectAll(AliveOf(m.entries), paths);
        assert Reject(LiveEntries(manifests), paths) == [] + Reject(LiveEntries(rest), paths);
      } else {
        forall e <- AliveOf(m.entries) ensures e.file.path !in paths {
          AliveMember(m.entries, e);
        }
        SelectNone(AliveOf(m.entries), paths);
        assert Survivors(manifests, paths)[1..] == Survivors(rest, paths);
      }
    }
  }

  lemma {:induction false} RewriteLive(parent: seq<Manifest>, taken: seq<Entry>, files: seq<DataFile>, seqNum: nat)
    ensures LiveEntries(RewriteManifests(parent, taken, files, seqNum)) ==
            LiveEntries(Survivors(parent, PathsOf(taken))) + AddedEntries(files, seqNum)
  {
    var deleted, added := DeletedManifest(taken, seqNum), AddedManifest(files, seqNum);
    NoneAlive(deleted.entries);
    AllAlive(added.entries);
    LiveConcat(Survivors(parent, PathsOf(taken)), [deleted, added]);
    assert [deleted, added][1..] == [added];
    assert LiveEntries([added]) == added.entries + [] == added.entries;
  }

  /** Which files are live after a rewrite, and exactly when they are the intended ones. */
  lemma {:induction false} RewriteLivePaths(parent: seq<Manifest>, taken: seq<Entry>, files: seq<DataFile>, seqNum: nat)
    requires PathsOf(taken) <= LivePaths(parent)
    requires FilePaths(files) !! LivePaths(parent)
    ensures LivePaths(RewriteManifests(parent, taken, files, seqNum)) ==
            LivePaths(parent) - PathsOf(taken) + FilePaths(files)
            <==> NoMixing(parent, PathsOf(taken))
  {
    var paths := PathsOf(taken);
    var kept := LiveEntries(Survivors(parent, paths));
    RewriteLive(parent, taken, files, seqNum);
    AddedRows(files, seqNum);
    assert PathsOf(kept + AddedEntries(files, seqNum)) == PathsOf(kept) + FilePaths(files);
    if NoMixing(parent, paths) {
      SurvivorsDropTheRest(parent, paths);
      assert PathsOf(kept) == LivePaths(parent) - paths by {
        forall e | e in LiveEntries(parent) && e.file.path !in paths ensures e.file.path in PathsOf(kept) {
          SelectMember(LiveEntries(parent), paths, e);
        }
      }
    } else {
      var m :| m in parent && Mixed(m, paths);
      var e :| e in m.entries && e.IsAlive() && e.file.path in paths;
      SurvivorMember(parent, paths, m);
      LiveMember(Survivors(parent, paths), e);
      assert e.file.path in PathsOf(kept);
    }
  }

  /**
   The row account of a rewrite whose output holds the rows of its input: the
   table grows by exactly the rows of the compacted files that a surviving
   manifest keeps alive.
   */
  lemma {:induction false} RewriteRows(parent: seq<Manifest>, taken: seq<Entry>, files: seq<DataFile>, seqNum: nat)
    requires RowsOf(Select(LiveEntries(parent), PathsOf(taken))) == FileRows(files)
    ensures TableRows(RewriteManifests(parent, taken, files, seqNum)) ==
            TableRows(parent) + RowsOf(Select(LiveEntries(Survivors(parent, PathsOf(taken))), PathsOf(taken)))
    ensures NoMixing(parent, PathsOf(taken)) ==>
              TableRows(RewriteManifests(parent, taken, files, seqNum)) == TableRows(parent)
  {
    var paths := PathsOf(taken);
    var kept := LiveEntries(Survivors(parent, paths));
    RewriteLive(parent, taken, files, seqNum);
    RowsConcat(kept, AddedEntries(files, seqNum));
    AddedRows(files, seqNum);
    SplitRows(LiveEntries(parent), paths);
    SplitRows(kept, paths);
    SurvivorsKeepTheRest(parent, paths);
    if NoMixing(parent, paths) {
      SurvivorsDropTheRest(parent, paths);
      SelectNone(kept, paths);
    }
  }

  /**
   A partitioned table where one append wrote to two partitions and only one
   of them is compacted: the shared manifest survives, so the rows of file 2
   are read twice after the rewrite.
   */
  lemma {:induction false} MixedManifestDuplicatesRows(f1: DataFile, f2: DataFile, f3: DataFile, f4: DataFile)
    requires f1.path == 1 && f2.path == 2 && f3.path == 3
    requires f1.partition == f2.partition == 10 && f3.partition == 20
    requires f1.rows == multiset{100} && f2.rows == multiset{200} && f3.rows == multiset{300}
    requires f4.rows == multiset{100, 200}
    ensures
      var parent := ExampleTable(f1, f2, f3);
      var taken := Qualifying(LiveEntries(parent), 2);
      && RowsOf(Select(LiveEntries(parent), PathsOf(taken))) == FileRows([f4])
      && TableRows(parent) == multiset{100, 200, 300}
      && TableRows(RewriteManifests(parent, taken, [f4], 3)) == multiset{100, 200, 200, 300}
  {
    var e1, e2, e3 := Entry(Added, f1, 1), Entry(Added, f2, 2), Entry(Added, f3, 2);
    var parent := ExampleTable(f1, f2, f3);
    ExampleManifests(f1, f2, f3);
    ExampleCompaction(e1, e2, e3);
    ExampleRows(e1, e2, e3);
    var taken := Qualifying(LiveEntries(parent), 2);
    assert PathsOf(taken) == {1, 2} by {
      assert taken == [e2, e1];
      assert taken[0] == e2 && taken[1] == e1;
    }
    ExampleRewrite(parent, taken, [e2, e3, e1], [e2, e3], f4);
  }

  lemma {:induction false} ExampleRewrite(parent: seq<Manifest>, taken: seq<Entry>, live: seq<Entry>,
                                          kept: seq<Entry>, f4: DataFile)
    requires live == LiveEntries(parent) && kept == LiveEntries(Survivors(parent, {1, 2}))
    requires PathsOf(taken) == {1, 2} && f4.rows == multiset{100, 200}
    requires RowsOf(live) == multiset{100, 200, 300}
    requires RowsOf(Select(live, {1, 2})) == multiset{100, 200}
    requires RowsOf(Select(kept, {1, 2})) == multiset{200}
    ensures RowsOf(Select(LiveEntries(parent), PathsOf(taken))) == FileRows([f4])
    ensures TableRows(parent) == multiset{100, 200, 300}
    ensures TableRows(RewriteManifests(parent, taken, [f4], 3)) == multiset{100, 200, 200, 300}
  {
    assert FileRows([f4]) == f4.rows + FileRows([]);
    RewriteRows(parent, taken, [f4], 3);
  }

  function ExampleTable(f1: DataFile, f2: DataFile, f3: DataFile): seq<Manifest> {
    [AddedManifest([f2, f3], 2), AddedManifest([f1], 1)]
  }

  lemma {:induction false} ExampleManifests(f1: DataFile, f2: DataFile, f3: DataFile)
    requires f1.path == 1 && f2.path == 2 && f3.path == 3
    ensures var e1, e2, e3 := Entry(Added, f1, 1), Entry(Added, f2, 2), Entry(Added, f3, 2);
            var parent := ExampleTable(f1, f2, f3);
            LiveEntries(parent) == [e2, e3, e1] && LiveEntries(Survivors(parent, {1, 2})) == [e2, e3]
  {
    var e1, e2, e3 := Entry(Added, f1, 1), Entry(Added, f2, 2), Entry(Added, f3, 2);
    var m1, m2 := AddedManifest([f1], 1), AddedManifest([f2, f3], 2);
    assert m1.entries == [e1] && m2.entries == [e2, e3];
    AllAlive(m1.entries);
    AllAlive(m2.entries);
    assert LiveEntries([m1]) == AliveOf(m1.entries) + LiveEntries([]) == [e1];
    assert LiveEntries([m2]) == AliveOf(m2.entries) + LiveEntries([]) == [e2, e3];
    LiveConcat([m2], [m1]);
    assert [m2, m1] == [m2] + [m1] && [e2, e3] + [e1] == [e2, e3, e1];
    assert Dominated(m1, {1, 2});
    assert !Dominated(m2, {1, 2}) by {
      assert m2.entries[1] == e3;
    }
    SurvivorsConcat([m2], [m1], {1, 2});
    assert Survivors([m1], {1, 2}) == [] && Survivors([m2], {1, 2}) == [m2];
  }

  lemma {:induction false} ExampleCompaction(e1: Entry, e2: Entry, e3: Entry)
    requires e1.file.partition == e2.file.partition == 10 && e3.file.partition == 20
    ensures Qualifying([e2, e3, e1], 2) == [e2, e1]
  {
    var live := [e2, e3, e1];
    forall partitions: set<Partition>
      ensures InPartitions(live, partitions) ==
              InPartitions([e2], partitions) + InPartitions([e3], partitions) + InPartitions([e1], partitions)
    {
      InPartitionsConcat([e2], [e3], partitions);
      InPartitionsConcat([e2, e3], [e1], partitions);
      assert live == [e2] + [e3] + [e1];
    }
    assert InPartitions([e1], {10}) == [e1] && InPartitions([e2], {10}) == [e2] && InPartitions([e3], {10}) == [];
    assert InPartitions([e1], {20}) == [] && InPartitions([e2], {20}) == [] && InPartitions([e3], {20}) == [e3];
    assert |InPartitions(live, {10})| == 2 && |InPartitions(live, {20})| == 1;
    assert Partitions(live) == {10, 20} by {
      assert live[0] == e2 && live[1] == e3;
    }
    assert BigPartitions(live, 2) == {10};
  }

  lemma {:induction false} ExampleSelected(e1: Entry, e2: Entry, e3: Entry)
    requires e1.file.path == 1 && e2.file.path == 2 && e3.file.path == 3
    ensures Select([e2, e3], {1, 2}) == [e2] && Select([e2, e3, e1], {1, 2}) == [e2, e1]
  {
    assert Select([e1], {1, 2}) == [e1] && Select([e2], {1, 2}) == [e2] && Select([e3], {1, 2}) == [];
    SelectConcat([e2], [e3], {1, 2});
    SelectConcat([e2, e3], [e1], {1, 2});
    assert [e2, e3] == [e2] + [e3] && [e2, e3, e1] == [e2, e3] + [e1];
    assert [e2] + [] == [e2] && [e2] + [e1] == [e2, e1];
  }

  lemma {:induction false} ExampleRows(e1: Entry, e2: Entry, e3: Entry)
    requires e1.file.rows == multiset{100} && e2.file.rows == multiset{200} && e3.file.rows == multiset{300}
    requires e1.file.path == 1 && e2.file.path == 2 && e3.file.path == 3
    ensures RowsOf([e2, e3, e1]) == multiset{100, 200, 300}
    ensures RowsOf(Select([e2, e3, e1], {1, 2})) == multiset{100, 200}
    ensures RowsOf(Select([e2, e3], {1, 2})) == multiset{200}
  {
    ExampleSelected(e1, e2, e3);
    OneRow(e1);
    OneRow(e2);
    OneRow(e3);
    RowsConcat([e2], [e3]);
    RowsConcat([e2, e3], [e1]);
    RowsConcat([e2], [e1]);
    assert [e2, e3] == [e2] + [e3] && [e2, e3, e1] == [e2, e3] + [e1] && [e2] + [e1] == [e2, e1];
  }

  lemma {:induction false} OneRow(e: Entry)
    ensures RowsOf([e]) == e.file.rows
  {
    assert [e][1..] == [];
  }
}
