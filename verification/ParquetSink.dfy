/**
 The rotating Parquet file sink: rows are buffered, buffers are written to the
 active file, full files are closed into the target directory and staged until
 a commit queues them for upload or a rollback deletes them. Files are named
 after the millisecond in which they were opened, so a name can come up again.

 The upload server copies a queued file into the bucket, under its name, and
 removes it afterwards. Failures of the local file system are not part of this
 model.
 */
module ParquetSink {
  import opened Wrappers

  type Item = int
  type Millis = nat

  /** A file's name is its opening time. */
  type Path = Millis

  datatype Error = SerdeArrow | UploadRefused

  /** `written` are the rows handed to the file's writer. */
  datatype Active = Active(path: Path, written: seq<Item>, rowCount: nat, buffer: seq<Item>, createdAt: Millis,
                           approximateSize: nat)

  function ActiveRows(active: Option<Active>): seq<Item> {
    match active case None => [] case Some(a) => a.written + a.buffer
  }

  // ------------------------------------------------------------------
  // What a sink has done
  // ------------------------------------------------------------------

  /**
   The steps since the start of a process that found `left` in its target
   directory, in the order of `listing`. Sending and dropping close the active
   file first; copying and removing are what the upload server does.
   */
  datatype Log =
    | Found(left: map<Path, seq<Item>>, listing: seq<Path>)
    | Wrote(before: Log, item: Item, now: Millis)
    | Closed(before: Log)
    | Sent(before: Log)
    | Dropped(before: Log)
    | Copied(before: Log, path: Path)
    | Removed(before: Log, path: Path)

  datatype File = File(path: Path, rows: seq<Item>)

  datatype State = State(target: map<Path, seq<Item>>, bucket: map<Path, seq<Item>>, staged: seq<Path>,
                         file: Option<File>)

  function Close(s: State): State {
    match s.file
    case None => s
    case Some(file) => State(s.target[file.path := file.rows], s.bucket, s.staged + [file.path], None)
  }

  function Unstage(s: State): State {
    s.(target := map f <- s.target | f !in s.staged :: s.target[f], staged := [])
  }

  function After(log: Log): State {
    match log
    case Found(left, _) => State(left, map[], [], None)
    case Wrote(before, item, now) =>
      var s := After(before);
      s.(file := Some(if s.file.Some? then File(s.file.value.path, s.file.value.rows + [item]) else File(now, [item])))
    case Closed(before) => Close(After(before))
    case Sent(before) => Close(After(before)).(staged := [])
    case Dropped(before) => Unstage(Close(After(before)))
    case Copied(before, path) =>
      var s := After(before);
      if path in s.target then s.(bucket := s.bucket[path := s.target[path]]) else s
    case Removed(before, path) => After(before).(target := After(before).target - {path})
  }

  function OpenRows(log: Log): seq<Item> {
    if After(log).file.None? then [] else After(log).file.value.rows
  }

  predicate Distinct(files: seq<Path>) {
    files == [] || (files[0] !in files[1..] && Distinct(files[1..]))
  }

  /** The files found are the ones listed, none is empty, and only files that were copied are removed. */
  ghost predicate WellFound(log: Log) {
    match log
    case Found(left, listing) =>
      Distinct(listing) && (forall f :: f in listing <==> f in left) && forall f <- left :: left[f] != []
    case Wrote(before, _, _) => WellFound(before)
    case Closed(before) => WellFound(before)
    case Sent(before) => WellFound(before)
    case Dropped(before) => WellFound(before)
    case Copied(before, _) => WellFound(before)
    case Removed(before, path) => WellFound(before) && path in After(before).bucket
  }

  // ------------------------------------------------------------------
  // The account of files and rows
  // ------------------------------------------------------------------

  /**
   Files are numbered in the order in which they were closed; `names` and
   `contents` list them. `disk` and `bucket` say which file a name stands for.
   `pending` are the files closed since the last commit or rollback, `done`
   those committed; `since`, `sent` and `discarded` are the rows written since,
   committed and rolled back. `lost` are the files of which a replacement or
   removal took the last copy.
   */
  datatype Books = Books(
    names: seq<Path>,
    contents: seq<seq<Item>>,
    disk: map<Path, nat>,
    bucket: map<Path, nat>,
    pending: seq<nat>,
    done: seq<nat>,
    since: seq<Item>,
    sent: seq<Item>,
    discarded: seq<Item>,
    lost: set<nat>)

  function IndexOf(listing: seq<Path>, f: Path): nat {
    if listing == [] || listing[0] == f then 0 else 1 + IndexOf(listing[1..], f)
  }

  function ContentsOf(left: map<Path, seq<Item>>, listing: seq<Path>): seq<seq<Item>> {
    seq(|listing|, i requires 0 <= i < |listing| => if listing[i] in left then left[listing[i]] else [])
  }

  function FirstNumbers(n: nat): (r: seq<nat>)
    ensures |r| == n && forall i :: 0 <= i < n ==> r[i] == i
  {
    seq(n, i requires 0 <= i < n => i)
  }

  /** The file on disk under this name goes, and the bucket does not have it. */
  function LastCopy(b: Books, path: Path): set<nat> {
    if path in b.disk && !(path in b.bucket && b.bucket[path] == b.disk[path]) then {b.disk[path]} else {}
  }

  function Open(left: map<Path, seq<Item>>, listing: seq<Path>): Books {
    var contents := ContentsOf(left, listing);
    Books(listing, contents, map f <- left :: IndexOf(listing, f), map[], [], FirstNumbers(|listing|), [],
          RowsOf(contents, FirstNumbers(|listing|)), [], {})
  }

  function CloseBooks(b: Books, file: Option<File>): Books {
    match file
    case None => b
    case Some(File(path, rows)) =>
      b.(names := b.names + [path], contents := b.contents + [rows], disk := b.disk[path := |b.names|],
         pending := b.pending + [|b.names|], lost := b.lost + LastCopy(b, path))
  }

  function Commit(b: Books): Books {
    b.(pending := [], done := b.done + b.pending, since := [], sent := b.sent + b.since)
  }

  function Discard(b: Books, staged: seq<Path>): Books {
    b.(disk := map f <- b.disk | f !in staged :: b.disk[f], pending := [], since := [],
       discarded := b.discarded + b.since)
  }

  function Copy(b: Books, path: Path): Books {
    if path !in b.disk then b
    else
      b.(bucket := b.bucket[path := b.disk[path]],
         lost := b.lost + if path in b.bucket && b.bucket[path] != b.disk[path] then {b.bucket[path]} else {})
  }

  function Remove(b: Books, path: Path): Books {
    b.(disk := b.disk - {path}, lost := b.lost + LastCopy(b, path))
  }

  function BooksOf(log: Log): Books {
    match log
    case Found(left, listing) => Open(left, listing)
    case Wrote(before, item, _) => BooksOf(before).(since := BooksOf(before).since + [item])
    case Closed(before) => CloseBooks(BooksOf(before), After(before).file)
    case Sent(before) => Commit(CloseBooks(BooksOf(before), After(before).file))
    case Dropped(before) => Discard(CloseBooks(BooksOf(before), After(before).file), Close(After(before)).staged)
    case Copied(before, path) => Copy(BooksOf(before), path)
    case Removed(before, path) => Remove(BooksOf(before), path)
  }

  function RowsOf(contents: seq<seq<Item>>, files: seq<nat>): seq<Item> {
    if files == [] then []
    else (if files[0] < |contents| then contents[files[0]] else []) + RowsOf(contents, files[1..])
  }

  lemma {:induction false} RowsConcat(contents: seq<seq<Item>>, a: seq<nat>, b: seq<nat>)
    ensures RowsOf(contents, a + b) == RowsOf(contents, a) + RowsOf(contents, b)
  {
    if a == [] {
      assert a + b == b;
    } else {
      assert (a + b)[1..] == a[1..] + b;
      RowsConcat(contents, a[1..], b);
    }
  }

  lemma {:induction false} RowsLonger(contents: seq<seq<Item>>, more: seq<Item>, files: seq<nat>)
    requires forall i <- files :: i < |contents|
    ensures RowsOf(contents + [more], files) == RowsOf(contents, files)
  {
    if files != [] {
      assert files[0] in files;
      assert (contents + [more])[files[0]] == contents[files[0]];
      assert forall i <- files[1..] :: i in files;
      RowsLonger(contents, more, files[1..]);
    }
  }

  // ------------------------------------------------------------------
  // What the books say of the files
  // ------------------------------------------------------------------

  /** Some copy of the file is there. */
  predicate Present(b: Books, i: nat) {
    i < |b.names| && ((b.names[i] in b.disk && b.disk[b.names[i]] == i)
                      || (b.names[i] in b.bucket && b.bucket[b.names[i]] == i))
  }

  ghost predicate Numbered(b: Books, s: State) {
    && |b.names| == |b.contents| && (forall i :: 0 <= i < |b.contents| ==> b.contents[i] != [])
    && (forall p <- b.disk :: b.disk[p] < |b.names| && b.names[b.disk[p]] == p)
    && (forall p <- b.bucket :: b.bucket[p] < |b.names| && b.names[b.bucket[p]] == p)
    && (forall i <- b.pending :: i < |b.names|) && (forall i <- b.done :: i < |b.names|)
    && (forall i <- b.lost :: i < |b.names|)
    && |b.pending| == |s.staged| && (forall k :: 0 <= k < |b.pending| ==>
          b.pending[k] < |b.names| && b.names[b.pending[k]] == s.staged[k])
  }

  ghost predicate Stored(b: Books, s: State)
    requires Numbered(b, s)
  {
    && b.disk.Keys == s.target.Keys && (forall p <- b.disk :: s.target[p] == b.contents[b.disk[p]])
    && b.bucket.Keys == s.bucket.Keys && (forall p <- b.bucket :: s.bucket[p] == b.contents[b.bucket[p]])
  }

  /** Files on disk count, as pending under a staged name, and those that count are there unless they were lost. */
  ghost predicate Tracked(b: Books)
    requires forall i <- b.pending :: i < |b.names|
  {
    && (forall i <- b.pending :: i !in b.done && (b.names[i] in b.disk ==> b.disk[b.names[i]] in b.pending))
    && (forall p <- b.disk :: b.disk[p] in b.pending || b.disk[p] in b.done)
    && (forall i :: i in b.pending || i in b.done ==> (Present(b, i) <==> i !in b.lost))
    && (forall i <- b.lost :: !Present(b, i))
  }

  ghost predicate Summed(b: Books, openRows: seq<Item>) {
    && b.since == RowsOf(b.contents, b.pending) + openRows
    && b.sent == RowsOf(b.contents, b.done)
  }

  ghost predicate Balanced(b: Books, s: State, openRows: seq<Item>) {
    Numbered(b, s) && Stored(b, s) && Tracked(b) && Summed(b, openRows)
  }

  lemma {:induction false} IndexFinds(listing: seq<Path>, f: Path)
    requires f in listing
    ensures IndexOf(listing, f) < |listing| && listing[IndexOf(listing, f)] == f
  {
    if listing[0] != f {
      assert listing == [listing[0]] + listing[1..];
      IndexFinds(listing[1..], f);
    }
  }

  lemma {:induction false} IndexIsUnique(listing: seq<Path>, i: nat)
    requires Distinct(listing) && i < |listing|
    ensures IndexOf(listing, listing[i]) == i
  {
    if i > 0 {
      assert listing[i] == listing[1..][i - 1] && listing[i] in listing[1..];
      IndexIsUnique(listing[1..], i - 1);
    }
  }

  lemma {:induction false} OpeningNumbers(left: map<Path, seq<Item>>, listing: seq<Path>)
    requires WellFound(Found(left, listing))
    ensures Numbered(Open(left, listing), After(Found(left, listing)))
    ensures Stored(Open(left, listing), After(Found(left, listing)))
  {
    var b := Open(left, listing);
    forall f | f in left ensures b.disk[f] < |listing| && listing[b.disk[f]] == f {
      IndexFinds(listing, f);
    }
    forall i | i in b.done ensures i < |listing| {
      var k :| 0 <= k < |b.done| && b.done[k] == i;
    }
  }

  lemma {:induction false} OpeningBalances(left: map<Path, seq<Item>>, listing: seq<Path>)
    requires WellFound(Found(left, listing))
    ensures Balanced(Open(left, listing), After(Found(left, listing)), [])
  {
    var b := Open(left, listing);
    OpeningNumbers(left, listing);
    forall f | f in left ensures b.disk[f] in b.done {
      IndexFinds(listing, f);
      assert b.done[b.disk[f]] == b.disk[f];
    }
    forall i | i in b.done ensures i < |listing| && Present(b, i) {
      var k :| 0 <= k < |b.done| && b.done[k] == i;
      IndexIsUnique(listing, i);
      assert listing[i] in left;
    }
    assert RowsOf(b.contents, []) + [] == [];
  }

  lemma {:induction false} WritingBalances(b: Books, s: State, openRows: seq<Item>, file: Option<File>, item: Item)
    requires Balanced(b, s, openRows)
    ensures Balanced(b.(since := b.since + [item]), s.(file := file), openRows + [item])
  {
    assert RowsOf(b.contents, b.pending) + (openRows + [item]) == RowsOf(b.contents, b.pending) + openRows + [item];
  }

  lemma {:induction false} ClosingNumbers(b: Books, s: State, file: File)
    requires Numbered(b, s) && file.rows != []
    ensures Numbered(CloseBooks(b, Some(file)), Close(s.(file := Some(file))))
  {
    var next := CloseBooks(b, Some(file));
    forall i | 0 <= i < |b.names| ensures next.names[i] == b.names[i] && next.contents[i] == b.contents[i] {
    }
  }

  lemma {:induction false} ClosingStores(b: Books, s: State, file: File)
    requires Numbered(b, s) && Stored(b, s)
    requires Numbered(CloseBooks(b, Some(file)), Close(s.(file := Some(file))))
    ensures Stored(CloseBooks(b, Some(file)), Close(s.(file := Some(file))))
  {
    var next := CloseBooks(b, Some(file));
    assert next.contents[|b.names|] == file.rows;
    forall i | 0 <= i < |b.names| ensures next.contents[i] == b.contents[i] {
    }
  }

  lemma {:induction false} ClosingTracks(b: Books, s: State, file: File)
    requires Numbered(b, s) && Tracked(b)
    ensures Tracked(CloseBooks(b, Some(file)))
  {
    var next := CloseBooks(b, Some(file));
    var n := |b.names|;
    assert next.names[n] == file.path && Present(next, n);
    forall i | 0 <= i < n
      ensures Present(next, i) <==> Present(b, i) && i !in LastCopy(b, file.path)
    {
      assert next.names[i] == b.names[i];
    }
    forall i ensures i in next.pending <==> i in b.pending || i == n {
    }
  }

  lemma {:induction false} ClosingSums(b: Books, s: State, file: File)
    requires Numbered(b, s) && Summed(b, file.rows)
    ensures Summed(CloseBooks(b, Some(file)), [])
  {
    var n, contents := |b.contents|, b.contents + [file.rows];
    RowsLonger(b.contents, file.rows, b.pending);
    RowsLonger(b.contents, file.rows, b.done);
    RowsConcat(contents, b.pending, [n]);
    assert RowsOf(contents, [n]) == file.rows + RowsOf(contents, [][..]);
    assert RowsOf(contents, b.pending + [n]) + [] == RowsOf(contents, b.pending + [n]);
  }

  lemma {:induction false} ClosingBalances(b: Books, s: State)
    requires Balanced(b, s, if s.file.None? then [] else s.file.value.rows)
    requires s.file.Some? ==> s.file.value.rows != []
    ensures Balanced(CloseBooks(b, s.file), Close(s), [])
  {
    if s.file.Some? {
      assert s.(file := Some(s.file.value)) == s;
      ClosingNumbers(b, s, s.file.value);
      ClosingStores(b, s, s.file.value);
      ClosingTracks(b, s, s.file.value);
      ClosingSums(b, s, s.file.value);
    }
  }

  lemma {:induction false} CommitTracks(b: Books, s: State)
    requires Numbered(b, s) && Tracked(b)
    ensures Tracked(Commit(b))
  {
    assert forall i :: i in b.done + b.pending <==> i in b.done || i in b.pending;
    assert forall i :: Present(Commit(b), i) <==> Present(b, i);
  }

  lemma {:induction false} CommitBalances(b: Books, s: State)
    requires Balanced(b, s, [])
    ensures Balanced(Commit(b), s.(staged := []), [])
  {
    CommitTracks(b, s);
    RowsConcat(b.contents, b.done, b.pending);
    assert RowsOf(b.contents, b.pending) + [] == RowsOf(b.contents, b.pending);
    assert RowsOf(b.contents, []) + [] == [];
  }

  lemma {:induction false} DiscardTracks(b: Books, s: State)
    requires Numbered(b, s) && Tracked(b)
    ensures Tracked(Discard(b, s.staged))
  {
    var next := Discard(b, s.staged);
    forall i | i in b.pending && i < |b.names| ensures b.names[i] in s.staged {
      var k :| 0 <= k < |b.pending| && b.pending[k] == i;
    }
    forall i | i in b.done && Present(b, i) ensures Present(next, i) {
    }
    assert forall i :: Present(next, i) ==> Present(b, i);
  }

  lemma {:induction false} DiscardBalances(b: Books, s: State)
    requires Balanced(b, s, [])
    ensures Balanced(Discard(b, s.staged), Unstage(s), [])
  {
    DiscardTracks(b, s);
    assert RowsOf(b.contents, []) + [] == [];
  }

  lemma {:induction false} CopyTracks(b: Books, s: State, path: Path)
    requires Numbered(b, s) && Tracked(b)
    ensures Tracked(Copy(b, path))
  {
    var next := Copy(b, path);
    if path in b.disk {
      forall i ensures Present(next, i) <==> Present(b, i) && i !in next.lost - b.lost {
      }
    }
  }

  lemma {:induction false} CopyStores(b: Books, s: State, path: Path)
    requires Numbered(b, s) && Stored(b, s) && path in s.target
    ensures Numbered(Copy(b, path), s.(bucket := s.bucket[path := s.target[path]]))
    ensures Stored(Copy(b, path), s.(bucket := s.bucket[path := s.target[path]]))
  {
  }

  lemma {:induction false} CopyBalances(b: Books, s: State, path: Path, openRows: seq<Item>)
    requires Balanced(b, s, openRows)
    ensures Balanced(Copy(b, path),
                     if path in s.target then s.(bucket := s.bucket[path := s.target[path]]) else s, openRows)
  {
    CopyTracks(b, s, path);
    if path in s.target {
      CopyStores(b, s, path);
    }
  }

  lemma {:induction false} RemoveTracks(b: Books, s: State, path: Path)
    requires Numbered(b, s) && Tracked(b)
    ensures Tracked(Remove(b, path))
  {
    var next := Remove(b, path);
    forall i ensures Present(next, i) <==> Present(b, i) && i !in LastCopy(b, path) {
    }
  }

  lemma {:induction false} RemoveStores(b: Books, s: State, path: Path)
    requires Numbered(b, s) && Stored(b, s)
    ensures Numbered(Remove(b, path), s.(target := s.target - {path}))
    ensures Stored(Remove(b, path), s.(target := s.target - {path}))
  {
  }

  lemma {:induction false} RemoveBalances(b: Books, s: State, path: Path, openRows: seq<Item>)
    requires Balanced(b, s, openRows)
    ensures Balanced(Remove(b, path), s.(target := s.target - {path}), openRows)
  {
    RemoveTracks(b, s, path);
    RemoveStores(b, s, path);
  }

  /** The account is right after every run. */
  lemma {:induction false} LogBalances(log: Log)
    requires WellFound(log)
    ensures Balanced(BooksOf(log), After(log), OpenRows(log))
    ensures After(log).file.Some? ==> OpenRows(log) != []
  {
    match log
    case Found(left, listing) => OpeningBalances(left, listing);
    case Wrote(before, item, _) =>
      LogBalances(before);
      WritingBalances(BooksOf(before), After(before), OpenRows(before), After(log).file, item);
      assert [] + [item] == [item];
    case Closed(before) =>
      LogBalances(before);
      ClosingBalances(BooksOf(before), After(before));
    case Sent(before) =>
      LogBalances(before);
      ClosingBalances(BooksOf(before), After(before));
      CommitBalances(CloseBooks(BooksOf(before), After(before).file), Close(After(before)));
    case Dropped(before) =>
      LogBalances(before);
      ClosingBalances(BooksOf(before), After(before));
      DiscardBalances(CloseBooks(BooksOf(before), After(before).file), Close(After(before)));
    case Copied(before, path) =>
      LogBalances(before);
      CopyBalances(BooksOf(before), After(before), path, OpenRows(before));
    case Removed(before, path) =>
      LogBalances(before);
      RemoveBalances(BooksOf(before), After(before), path, OpenRows(before));
  }

  // ------------------------------------------------------------------
  // Every row is entered
  // ------------------------------------------------------------------

  /** The rows found at the start and those received since. */
  function Items(log: Log): seq<Item> {
    match log
    case Found(left, listing) => RowsOf(ContentsOf(left, listing), FirstNumbers(|listing|))
    case Wrote(before, item, _) => Items(before) + [item]
    case Closed(before) => Items(before)
    case Sent(before) => Items(before)
    case Dropped(before) => Items(before)
    case Copied(before, _) => Items(before)
    case Removed(before, _) => Items(before)
  }

  /** All rows that the books speak of. */
  function Total(b: Books): multiset<Item> {
    multiset(b.sent) + multiset(b.discarded) + multiset(b.since)
  }

  lemma {:induction false} TotalKept(b: Books, staged: seq<Path>)
    ensures Total(Commit(b)) == Total(b) && Total(Discard(b, staged)) == Total(b)
  {
    assert multiset(b.sent + b.since) == multiset(b.sent) + multiset(b.since);
    assert multiset(b.discarded + b.since) == multiset(b.discarded) + multiset(b.since);
  }

  lemma {:induction false} TotalGrows(b: Books, items: seq<Item>, item: Item)
    requires multiset(items) == Total(b)
    ensures multiset(items + [item]) == Total(b.(since := b.since + [item]))
  {
    assert multiset(b.since + [item]) == multiset(b.since) + multiset{item};
    assert multiset(items + [item]) == multiset(items) + multiset{item};
  }

  lemma {:induction false} TotalOnClosing(b: Books, file: Option<File>, staged: seq<Path>)
    ensures Total(CloseBooks(b, file)) == Total(b)
    ensures Total(Commit(CloseBooks(b, file))) == Total(b) && Total(Discard(CloseBooks(b, file), staged)) == Total(b)
  {
    TotalKept(CloseBooks(b, file), staged);
  }

  lemma {:induction false} OpeningTotal(left: map<Path, seq<Item>>, listing: seq<Path>)
    ensures multiset(RowsOf(ContentsOf(left, listing), FirstNumbers(|listing|))) == Total(Open(left, listing))
  {
  }

  lemma {:induction false} ServerTotal(b: Books, path: Path)
    ensures Total(Copy(b, path)) == Total(b) && Total(Remove(b, path)) == Total(b)
  {
  }

  ghost predicate Entered(log: Log) {
    multiset(Items(log)) == Total(BooksOf(log))
  }

  lemma {:induction false} WriteEnters(before: Log, item: Item, now: Millis)
    requires Entered(before)
    ensures Entered(Wrote(before, item, now))
  {
    TotalGrows(BooksOf(before), Items(before), item);
  }

  lemma {:induction false} CloseEnters(before: Log)
    requires Entered(before)
    ensures Entered(Closed(before))
  {
    TotalOnClosing(BooksOf(before), After(before).file, []);
  }

  lemma {:induction false} SendEnters(before: Log)
    requires Entered(before)
    ensures Entered(Sent(before))
  {
    TotalOnClosing(BooksOf(before), After(before).file, []);
    assert BooksOf(Sent(before)) == Commit(CloseBooks(BooksOf(before), After(before).file));
  }

  lemma {:induction false} DropEnters(before: Log)
    requires Entered(before)
    ensures Entered(Dropped(before))
  {
    var staged := Close(After(before)).staged;
    TotalOnClosing(BooksOf(before), After(before).file, staged);
    assert BooksOf(Dropped(before)) == Discard(CloseBooks(BooksOf(before), After(before).file), staged);
  }

  lemma {:induction false} ServerEnters(before: Log, path: Path)
    requires Entered(before)
    ensures Entered(Copied(before, path)) && Entered(Removed(before, path))
  {
    ServerTotal(BooksOf(before), path);
  }

  /** Every row received was committed, rolled back or written since. */
  lemma {:induction false} EveryRowIsEntered(log: Log)
    ensures multiset(Items(log)) == Total(BooksOf(log))
  {
    AllEntered(log);
  }

  lemma {:induction false} AllEntered(log: Log)
    ensures Entered(log)
  {
    match log
    case Found(left, listing) => OpeningTotal(left, listing);
    case Wrote(before, item, now) => AllEntered(before); WriteEnters(before, item, now);
    case Closed(before) => AllEntered(before); CloseEnters(before);
    case Sent(before) => AllEntered(before); SendEnters(before);
    case Dropped(before) => AllEntered(before); DropEnters(before);
    case Copied(before, path) => AllEntered(before); ServerEnters(before, path);
    case Removed(before, path) => AllEntered(before); ServerEnters(before, path);
  }

  // ------------------------------------------------------------------
  // When all rows are kept
  // ------------------------------------------------------------------

  /** The rows of the file where it is found, in the target directory or in the bucket. */
  function RowsAt(b: Books, s: State, i: nat): seq<Item> {
    if i >= |b.names| then []
    else
      var p := b.names[i];
      if p in b.disk && b.disk[p] == i && p in s.target then s.target[p]
      else if p in b.bucket && b.bucket[p] == i && p in s.bucket then s.bucket[p]
      else []
  }

  function RowsFound(b: Books, s: State, files: seq<nat>): seq<Item> {
    if files == [] then [] else RowsAt(b, s, files[0]) + RowsFound(b, s, files[1..])
  }

  lemma {:induction false} FoundWherePresent(b: Books, s: State, files: seq<nat>)
    requires Numbered(b, s) && Stored(b, s) && forall i <- files :: i < |b.names|
    ensures |RowsFound(b, s, files)| <= |RowsOf(b.contents, files)|
    ensures (forall i <- files :: Present(b, i)) ==> RowsFound(b, s, files) == RowsOf(b.contents, files)
    ensures (exists i <- files :: !Present(b, i)) ==> |RowsFound(b, s, files)| < |RowsOf(b.contents, files)|
  {
    if files != [] {
      assert files == [files[0]] + files[1..];
      assert files[0] in files && forall i <- files[1..] :: i in files;
      FoundWherePresent(b, s, files[1..]);
      assert |b.contents[files[0]]| > 0;
      assert (exists i <- files :: !Present(b, i)) ==>
        !Present(b, files[0]) || exists i <- files[1..] :: !Present(b, i);
      assert RowsAt(b, s, files[0]) == if Present(b, files[0]) then b.contents[files[0]] else [];
    }
  }

  /**
   Every row written is rolled back, committed and in a committed file, in a
   file closed since, or in the active file with its buffer, and each file
   counts once.
   */
  ghost predicate RowsKept(log: Log) {
    var b, s := BooksOf(log), After(log);
    b.since == RowsFound(b, s, b.pending) + OpenRows(log) && b.sent == RowsFound(b, s, b.done)
  }

  /** No file that counts has lost its last copy. */
  ghost predicate NoneLost(b: Books) {
    forall i <- b.lost :: i !in b.pending && i !in b.done
  }

  lemma {:induction false} FoundExactly(b: Books, s: State, files: seq<nat>)
    requires Numbered(b, s) && Stored(b, s) && Tracked(b) && forall i <- files :: i in b.pending || i in b.done
    ensures |RowsFound(b, s, files)| <= |RowsOf(b.contents, files)|
    ensures RowsFound(b, s, files) == RowsOf(b.contents, files) <==> forall i <- files :: i !in b.lost
    ensures |RowsFound(b, s, files)| == |RowsOf(b.contents, files)| ==>
              RowsFound(b, s, files) == RowsOf(b.contents, files)
  {
    FoundWherePresent(b, s, files);
    assert forall i <- files :: Present(b, i) <==> i !in b.lost;
  }

  lemma {:induction false} KeptExactly(b: Books, s: State, openRows: seq<Item>)
    requires Balanced(b, s, openRows)
    ensures b.since == RowsFound(b, s, b.pending) + openRows && b.sent == RowsFound(b, s, b.done) <==> NoneLost(b)
  {
    FoundExactly(b, s, b.pending);
    FoundExactly(b, s, b.done);
    if b.since == RowsFound(b, s, b.pending) + openRows {
      assert |b.since| == |RowsFound(b, s, b.pending)| + |openRows|;
      assert |b.since| == |RowsOf(b.contents, b.pending)| + |openRows|;
    }
  }

  /**
   No row is missing exactly when no file lost its last copy to another file of
   its name, or to the removal of another one, apart from files rolled back.
   */
  lemma {:induction false} RowsKeptExactly(log: Log)
    requires WellFound(log)
    ensures RowsKept(log) <==> NoneLost(BooksOf(log))
  {
    LogBalances(log);
    KeptExactly(BooksOf(log), After(log), OpenRows(log));
  }

  /** No file was opened under a name that is in the target directory or in the bucket. */
  predicate OwnNames(log: Log) {
    match log
    case Found(_, _) => true
    case Wrote(before, _, now) =>
      OwnNames(before) && (After(before).file.None? ==> now !in After(before).target && now !in After(before).bucket)
    case Closed(before) => OwnNames(before)
    case Sent(before) => OwnNames(before)
    case Dropped(before) => OwnNames(before)
    case Copied(before, _) => OwnNames(before)
    case Removed(before, _) => OwnNames(before)
  }

  /** A name stands for one file, and that of the active file for no other. */
  ghost predicate OneFileEach(b: Books, file: Option<File>) {
    && (forall p <- b.disk :: p in b.bucket ==> b.bucket[p] == b.disk[p])
    && (file.Some? ==> file.value.path !in b.disk && file.value.path !in b.bucket)
  }

  lemma {:induction false} ClosingStaysOne(b: Books, file: Option<File>)
    requires OneFileEach(b, file) && b.lost == {} && (forall p <- b.bucket :: b.bucket[p] < |b.names|)
    ensures OneFileEach(CloseBooks(b, file), None) && CloseBooks(b, file).lost == {}
  {
  }

  lemma {:induction false} OwnNamesLoseNothing(log: Log)
    requires WellFound(log) && OwnNames(log)
    ensures BooksOf(log).lost == {} && OneFileEach(BooksOf(log), After(log).file)
  {
    match log
    case Found(_, _) =>
    case Wrote(before, _, _) =>
      OwnNamesLoseNothing(before);
      LogBalances(before);
    case Closed(before) =>
      OwnNamesLoseNothing(before);
      LogBalances(before);
      ClosingStaysOne(BooksOf(before), After(before).file);
    case Sent(before) =>
      OwnNamesLoseNothing(before);
      LogBalances(before);
      ClosingStaysOne(BooksOf(before), After(before).file);
    case Dropped(before) =>
      OwnNamesLoseNothing(before);
      LogBalances(before);
      ClosingStaysOne(BooksOf(before), After(before).file);
    case Copied(before, _) => OwnNamesLoseNothing(before);
    case Removed(before, _) =>
      OwnNamesLoseNothing(before);
      LogBalances(before);
  }

  // ------------------------------------------------------------------
  // What a commit queues
  // ------------------------------------------------------------------

  /** The rows under these names. */
  function RowsUnder(target: map<Path, seq<Item>>, files: seq<Path>): seq<Item> {
    if files == [] then []
    else (if files[0] in target then target[files[0]] else []) + RowsUnder(target, files[1..])
  }

  lemma {:induction false} RowsUnderNames(b: Books, s: State, files: seq<nat>, staged: seq<Path>)
    requires Numbered(b, s) && Stored(b, s) && |files| == |staged|
    requires forall k :: 0 <= k < |files| ==> staged[k] in b.disk && b.disk[staged[k]] == files[k]
    ensures RowsUnder(s.target, staged) == RowsOf(b.contents, files)
  {
    if files != [] {
      assert staged[0] in b.disk && b.disk[staged[0]] == files[0];
      RowsUnderNames(b, s, files[1..], staged[1..]);
    }
  }

  /** All files to be committed are in the target directory. */
  ghost predicate AllOnDisk(b: Books) {
    forall i <- b.pending :: i < |b.names| && b.names[i] in b.disk && b.disk[b.names[i]] == i
  }

  lemma {:induction false} QueuedRows(b: Books, s: State)
    requires Balanced(b, s, []) && AllOnDisk(b)
    ensures RowsUnder(s.target, s.staged) == b.since
  {
    forall k | 0 <= k < |b.pending| ensures s.staged[k] in b.disk && b.disk[s.staged[k]] == b.pending[k] {
      assert b.pending[k] in b.pending;
    }
    RowsUnderNames(b, s, b.pending, s.staged);
    assert RowsOf(b.contents, b.pending) + [] == RowsOf(b.contents, b.pending);
  }

  lemma {:induction false} QueuedOnClosing(b: Books, s: State, openRows: seq<Item>)
    requires Balanced(b, s, openRows) && openRows == if s.file.None? then [] else s.file.value.rows
    requires s.file.Some? ==> s.file.value.rows != []
    requires AllOnDisk(CloseBooks(b, s.file))
    ensures RowsUnder(Close(s).target, Close(s).staged) == b.since
  {
    ClosingBalances(b, s);
    QueuedRows(CloseBooks(b, s.file), Close(s));
  }

  /**
   What a commit queues holds what was written since the last one, in order, if
   none of its files was replaced or has been fetched by the server before.
   */
  lemma {:induction false} CommitQueuesWhatWasWritten(log: Log)
    requires WellFound(log) && AllOnDisk(CloseBooks(BooksOf(log), After(log).file))
    ensures RowsUnder(Close(After(log)).target, Close(After(log)).staged) == BooksOf(log).since
  {
    LogBalances(log);
    QueuedOnClosing(BooksOf(log), After(log), OpenRows(log));
  }

  // ------------------------------------------------------------------
  // Names that come up again
  // ------------------------------------------------------------------

  lemma {:induction false} ClosingOverLoses(b: Books, since: seq<Item>, file: File)
    requires file.path in b.disk && LastCopy(b, file.path) == {b.disk[file.path]}
    requires b.disk[file.path] in b.pending || b.disk[file.path] in b.done
    ensures !NoneLost(CloseBooks(b.(since := since), Some(file)))
  {
    assert b.disk[file.path] in CloseBooks(b.(since := since), Some(file)).lost;
  }

  /** Whatever was done before, a file closed under the name of one that only the target directory holds replaces it. */
  lemma {:induction false} ReopenedNameLosesRows(log: Log, item: Item, now: Millis)
    requires WellFound(log) && After(log).file.None? && now in BooksOf(log).disk
    requires LastCopy(BooksOf(log), now) == {BooksOf(log).disk[now]}
    ensures !RowsKept(Closed(Wrote(log, item, now)))
  {
    LogBalances(log);
    var wrote := Wrote(log, item, now);
    assert After(wrote).file == Some(File(now, [item]));
    ClosingOverLoses(BooksOf(log), BooksOf(wrote).since, File(now, [item]));
    assert BooksOf(wrote) == BooksOf(log).(since := BooksOf(wrote).since);
    RowsKeptExactly(Closed(wrote));
  }

  /** A file copied over another one that counts replaces that in the bucket. */
  lemma {:induction false} CopiedOverLosesRows(log: Log, path: Path)
    requires WellFound(log) && path in BooksOf(log).disk && path in BooksOf(log).bucket
    requires var b := BooksOf(log);
             b.bucket[path] != b.disk[path] && (b.bucket[path] in b.pending || b.bucket[path] in b.done)
    ensures !RowsKept(Copied(log, path))
  {
    var b, next := BooksOf(log), BooksOf(Copied(log, path));
    var i := b.bucket[path];
    RowsKeptExactly(Copied(log, path));
    assert next == Copy(b, path);
    assert i in next.lost;
    assert i in next.pending || i in next.done;
  }

  lemma {:induction false} DiscardingSpares(b: Books, since: seq<Item>, file: File, staged: seq<Path>)
    requires NoneLost(b) && file.path !in b.disk
    ensures NoneLost(Discard(CloseBooks(b.(since := since), Some(file)), staged))
  {
  }

  /** A rollback spares a committed file that the server has moved, though the name came up again. */
  lemma {:induction false} RollbackSparesMovedFile(log: Log, item: Item, now: Millis)
    requires WellFound(log) && RowsKept(log) && After(log).file.None? && now !in After(log).target
    ensures RowsKept(Dropped(Wrote(log, item, now)))
  {
    LogBalances(log);
    RowsKeptExactly(log);
    var wrote := Wrote(log, item, now);
    assert After(wrote).file == Some(File(now, [item]));
    assert BooksOf(wrote) == BooksOf(log).(since := BooksOf(wrote).since);
    DiscardingSpares(BooksOf(log), BooksOf(wrote).since, File(now, [item]), Close(After(wrote)).staged);
    RowsKeptExactly(Dropped(wrote));
  }

  /**
   A name queued before lets the server fetch a file that is not committed yet:
   its rows are in the bucket although they are then rolled back.
   */
  lemma {:induction false} RolledBackRowsAreUploaded(log: Log, item: Item, now: Millis)
    requires WellFound(log) && After(log).file.None?
    ensures var rolled := Dropped(Copied(Closed(Wrote(log, item, now)), now));
            && now in After(rolled).bucket && After(rolled).bucket[now] == [item]
            && BooksOf(rolled).discarded == BooksOf(log).discarded + (BooksOf(log).since + [item])
  {
    var wrote := Wrote(log, item, now);
    assert After(wrote).file == Some(File(now, [item]));
    var closed, copied := Closed(wrote), Copied(Closed(wrote), now);
    assert After(closed) == Close(After(wrote));
    assert now in After(closed).target;
    assert After(closed).target[now] == File(now, [item]).rows;
    assert After(copied) == After(closed).(bucket := After(closed).bucket[now := [item]]);
    assert Close(After(copied)) == After(copied);
    assert BooksOf(copied).since == BooksOf(wrote).since == BooksOf(log).since + [item];
    assert BooksOf(copied).discarded == BooksOf(log).discarded;
    assert BooksOf(Dropped(copied)) == Discard(BooksOf(copied), After(copied).staged);
  }

  /** The clock shows every millisecond once, and none of a file that is there. */
  ghost predicate NewNames(times: seq<(Millis, Millis)>, s: State) {
    && (forall i, j :: 0 <= i < j < |times| ==> times[i].0 != times[j].0)
    && (forall i :: 0 <= i < |times| ==> times[i].0 !in s.target && times[i].0 !in s.bucket)
    && (s.file.Some? ==> forall i :: 0 <= i < |times| ==> times[i].0 != s.file.value.path)
  }

  /** A step after which the names used are those used before and the clock's reading. */
  ghost predicate UsesNames(s: State, t: State, now: Millis) {
    && (forall f :: f in t.target || f in t.bucket ==>
          f in s.target || f in s.bucket || f == now || (s.file.Some? && f == s.file.value.path))
    && (t.file.Some? ==> (t.file.value.path == now || (s.file.Some? && t.file.value.path == s.file.value.path)))
  }

  lemma {:induction false} NamesUsed(log: Log, item: Item, now: Millis)
    ensures UsesNames(After(log), After(log), now) && UsesNames(After(log), After(Closed(log)), now)
    ensures UsesNames(After(log), After(Sent(log)), now) && UsesNames(After(log), After(Sent(Closed(log))), now)
    ensures UsesNames(After(log), After(Dropped(log)), now)
    ensures UsesNames(After(log), After(Wrote(log, item, now)), now)
    ensures UsesNames(After(log), After(Closed(Wrote(log, item, now))), now)
    ensures UsesNames(After(log), After(Sent(Closed(Wrote(log, item, now)))), now)
  {
    var wrote := Wrote(log, item, now);
    assert After(wrote).file.value.path == now || After(wrote).file.value.path == After(log).file.value.path;
    assert After(Closed(wrote)) == Close(After(wrote));
    assert After(Sent(Closed(wrote))) == After(Closed(wrote)).(staged := []);
    assert After(Sent(Closed(log))) == After(Closed(log)).(staged := []);
  }

  lemma {:induction false} NamesUsedByServer(log: Log, path: Path, now: Millis)
    ensures UsesNames(After(log), After(Copied(log, path)), now)
    ensures UsesNames(After(log), After(Removed(log, path)), now)
  {
  }

  lemma {:induction false} NewNamesRemain(times: seq<(Millis, Millis)>, s: State, t: State)
    requires |times| > 0 && NewNames(times, s) && UsesNames(s, t, times[0].0)
    ensures NewNames(times[1..], t)
  {
    forall i | 0 <= i < |times[1..]|
      ensures times[1..][i].0 !in t.target && times[1..][i].0 !in t.bucket && times[1..][i].0 != times[0].0
    {
      assert times[1..][i] == times[i + 1];
    }
    forall i, j | 0 <= i < j < |times[1..]| ensures times[1..][i].0 != times[1..][j].0 {
      assert times[1..][i] == times[i + 1] && times[1..][j] == times[j + 1];
    }
  }

  // ------------------------------------------------------------------
  // The sink
  // ------------------------------------------------------------------

  /** What clients and the timer ask for, and what the upload server does in between. */
  datatype Request =
    | Data(item: Item)
    | Tick
    | CommitAll
    | RollbackAll
    | Fetch(path: Path)
    | Unlink(path: Path)

  function Received(requests: seq<Request>): seq<Item> {
    if requests == [] then []
    else
      var last := requests[|requests| - 1];
      Received(requests[..|requests| - 1]) + if last.Data? then [last.item] else []
  }

  function FileOf(active: Option<Active>): Option<File> {
    match active case None => None case Some(a) => Some(File(a.path, a.written + a.buffer))
  }

  class ParquetSink {
    var active: Option<Active>
    var stagedFiles: seq<Path>
    var target: map<Path, seq<Item>>
    var bucket: map<Path, seq<Item>>
    var uploads: seq<Path>
    const maxRows: nat
    const maxSizeBytes: nat
    const rollTime: nat
    const batchSize: nat
    const autoCommit: bool
    const serializes: seq<Item> -> bool
    const sizeOf: seq<Item> -> nat
    const refuses: Path -> bool
    ghost var log: Log
    /** The largest row count of a file closed so far. */
    ghost var longest: nat
    ghost var failed: bool

    /** The fields are what the log says. */
    ghost predicate Valid()
      reads this
    {
      && WellFound(log)
      && After(log) == State(target, bucket, stagedFiles, FileOf(active))
      && (active.Some? ==>
            && active.value.rowCount == |active.value.written| && ActiveRows(active) != []
            && active.value.createdAt == active.value.path)
    }

    /** Until a batch fails to serialize no file gets longer than one batch beyond the row limit. */
    ghost predicate Within()
      reads this
    {
      !failed && 1 <= maxRows && 1 <= batchSize ==>
        && (active.Some? ==> active.value.rowCount < maxRows && |active.value.buffer| < batchSize)
        && longest <= maxRows + batchSize - 1
    }

    /** The start of a process that finds `left` in its target directory, in the order of `listing`. */
    constructor (maxRows: nat, maxSizeBytes: nat, rollTime: nat, batchSize: nat, autoCommit: bool,
                 serializes: seq<Item> -> bool, sizeOf: seq<Item> -> nat, refuses: Path -> bool,
                 left: map<Path, seq<Item>>, listing: seq<Path>)
      requires WellFound(Found(left, listing))
      ensures Valid() && Within() && !failed && longest == 0
      ensures active == None && uploads == [] && bucket == map[] && log == Found(left, listing)
      ensures this.maxRows == maxRows && this.maxSizeBytes == maxSizeBytes && this.rollTime == rollTime
      ensures this.batchSize == batchSize && this.autoCommit == autoCommit
      ensures this.serializes == serializes && this.sizeOf == sizeOf && this.refuses == refuses
    {
      active, stagedFiles, target, bucket, uploads := None, [], left, map[], [];
      this.maxRows, this.maxSizeBytes, this.rollTime := maxRows, maxSizeBytes, rollTime;
      this.batchSize, this.autoCommit := batchSize, autoCommit;
      this.serializes, this.sizeOf, this.refuses := serializes, sizeOf, refuses;
      log, longest, failed := Found(left, listing), 0, false;
    }

    /** The buffer can be written, or there is nothing to write. */
    predicate Flushes()
      reads this
    {
      active.Some? && active.value.buffer != [] ==> serializes(active.value.buffer)
    }

    /** The file once its buffer has been written. */
    function Flushed(a: Active): Active {
      if a.buffer == [] then a
      else a.(written := a.written + a.buffer, rowCount := a.rowCount + |a.buffer|,
              approximateSize := a.approximateSize + sizeOf(a.buffer), buffer := [])
    }

    method FlushBuffer() returns (r: Result<(), Error>)
      requires Valid()
      modifies this`active, this`failed
      ensures Valid() && r.Ok? == old(Flushes()) && failed == (old(failed) || r.Err?)
      ensures r.Err? ==> active == old(active) && r.error == SerdeArrow
      ensures r.Ok? && old(active).Some? ==> active == Some(Flushed(old(active).value))
      ensures r.Ok? && old(active).None? ==> active == None
    {
      if active.None? || active.value.buffer == [] {
        return Ok(());
      }
      var a := active.value;
      if !serializes(a.buffer) {
        failed := true;
        return Err(SerdeArrow);
      }
      active := Some(a.(written := a.written + a.buffer, rowCount := a.rowCount + |a.buffer|,
                        approximateSize := a.approximateSize + sizeOf(a.buffer), buffer := []));
      assert (a.written + a.buffer) + [] == a.written + a.buffer;
      return Ok(());
    }

    /** Enough rows or bytes are written, or the file, which is named after its opening, is old enough. */
    predicate Due(a: Active, later: Millis) {
      |a.written| >= maxRows || a.approximateSize >= maxSizeBytes || later >= a.path + rollTime
    }

    predicate ShouldRotate(later: Millis)
      requires Valid()
      reads this
      ensures ShouldRotate(later) <==> active.Some? && Due(active.value, later)
    {
      active.Some? &&
      (|| active.value.rowCount >= maxRows
       || active.value.approximateSize >= maxSizeBytes
       || active.value.createdAt + rollTime <= later)
    }

    /** The file appears under its own name, replacing whatever has that name, and is staged. */
    method MaybeCloseActiveSink() returns (r: Result<(), Error>)
      requires Valid()
      modifies this`active, this`stagedFiles, this`target, this`failed, this`log, this`longest
      ensures Valid() && r.Ok? == old(Flushes()) && failed == (old(failed) || r.Err?)
      ensures r.Ok? ==> active == None && log == Closed(old(log))
      ensures r.Err? ==> active == old(active) && log == old(log) && r.error == SerdeArrow
      ensures longest == old(longest) ||
              (old(active).Some? && longest == |old(ActiveRows(active))| && longest > old(longest))
    {
      r := FlushBuffer();
      if r.Err? {
        return;
      }
      if active.Some? {
        var a := active.value;
        assert a.written == ActiveRows(active);
        active := None;
        target := target[a.path := a.written];
        stagedFiles := stagedFiles + [a.path];
        longest := if |a.written| > longest then |a.written| else longest;
      }
      log := Closed(log);
    }

    /** Close and queue everything. A refused upload leaves the rest unqueued, but nothing stays staged. */
    method Commit() returns (r: Result<seq<Path>, Error>)
      requires Valid() && Within()
      modifies this
      ensures Valid() && Within() && (r == Err(SerdeArrow) <==> !old(Flushes()))
      ensures failed == (old(failed) || r == Err(SerdeArrow))
      ensures r == Err(SerdeArrow) ==> active == old(active) && log == old(log) && uploads == old(uploads)
      ensures r != Err(SerdeArrow) ==> log == Sent(old(log))
      ensures r.Ok? ==> r.value == Close(After(old(log))).staged && uploads == old(uploads) + r.value
      ensures r.Err? && r.error != SerdeArrow ==> exists f <- Close(After(old(log))).staged :: refuses(f)
      ensures r.Ok? ==> forall f <- r.value :: !refuses(f)
    {
      var closed := MaybeCloseActiveSink();
      if closed.Err? {
        return Err(SerdeArrow);
      }
      var manifest := stagedFiles;
      stagedFiles, log := [], Sent(old(log));
      var queued := Queue(manifest);
      if !queued {
        return Err(UploadRefused);
      }
      return Ok(manifest);
    }

    /** Queue files for upload until one is refused. */
    method Queue(files: seq<Path>) returns (ok: bool)
      modifies this`uploads
      ensures ok <==> forall f <- files :: !refuses(f)
      ensures ok ==> uploads == old(uploads) + files
      ensures !ok ==> exists n :: 0 <= n < |files| && refuses(files[n]) && uploads == old(uploads) + files[..n]
    {
      for i := 0 to |files|
        invariant uploads == old(uploads) + files[..i]
        invariant forall k :: 0 <= k < i ==> !refuses(files[k])
      {
        if refuses(files[i]) {
          return false;
        }
        uploads := uploads + [files[i]];
        assert files[..i + 1] == files[..i] + [files[i]];
      }
      assert files[..|files|] == files;
      return true;
    }

    /** Close and delete everything staged. */
    method Rollback() returns (r: Result<seq<Path>, Error>)
      requires Valid() && Within()
      modifies this
      ensures Valid() && Within() && r.Ok? == old(Flushes())
      ensures uploads == old(uploads) && failed == (old(failed) || r.Err?)
      ensures r.Ok? ==> log == Dropped(old(log)) && r.value == Close(After(old(log))).staged
      ensures r.Err? ==> active == old(active) && log == old(log) && r.error == SerdeArrow
    {
      var closed := MaybeCloseActiveSink();
      if closed.Err? {
        return Err(closed.error);
      }
      var manifest := stagedFiles;
      stagedFiles := [];
      target := map f <- target | f !in manifest :: target[f];
      log := Dropped(old(log));
      return Ok(manifest);
    }

    /** Close the active file and, in auto-commit mode, queue everything staged. */
    method Rotate() returns (r: Result<(), Error>)
      requires Valid() && active.Some?
      requires !failed && 1 <= maxRows && 1 <= batchSize ==>
                 |ActiveRows(active)| <= maxRows + batchSize - 1 && longest <= maxRows + batchSize - 1
      modifies this
      ensures Valid() && Within() && (r == Err(SerdeArrow) <==> !old(Flushes()))
      ensures r == Err(SerdeArrow) ==> active == old(active) && log == old(log) && uploads == old(uploads)
      ensures r != Err(SerdeArrow) ==>
                && active == None && failed == old(failed)
                && log == if autoCommit then Sent(Closed(old(log))) else Closed(old(log))
      ensures r.Ok? ==>
                uploads == old(uploads) + if autoCommit then old(stagedFiles) + [old(active).value.path] else []
      ensures r == Err(UploadRefused) ==>
                autoCommit && exists f <- old(stagedFiles) + [old(active).value.path] :: refuses(f)
    {
      r := MaybeCloseActiveSink();
      if r.Err? {
        return;
      }
      if autoCommit {
        var committed := Commit();
        if committed.Err? {
          return Err(committed.error);
        }
      }
    }

    /** What a rotation answers and leaves open for the file `a`: it is closed exactly when that is due and works. */
    ghost predicate Rolled(a: Active, before: Log, later: Millis, r: Result<(), Error>)
      reads this
    {
      if !Due(a, later) then r == Ok(()) && active == Some(a) && log == before
      else if a.buffer != [] && !serializes(a.buffer) then r == Err(SerdeArrow) && active == Some(a) && log == before
      else active == None && r != Err(SerdeArrow) && log == if autoCommit then Sent(Closed(before)) else Closed(before)
    }

    /** The same after a row was put into the file: its buffer is written exactly when it is full. */
    ghost predicate Settled(a: Active, before: Log, later: Millis, r: Result<(), Error>)
      reads this
    {
      if |a.buffer| < batchSize || a.buffer == [] then Rolled(a, before, later, r)
      else if !serializes(a.buffer) then r == Err(SerdeArrow) && active == Some(a) && log == before
      else Rolled(Flushed(a), before, later, r)
    }

    /** The open file with one more row. */
    static function WithRow(active: Option<Active>, item: Item, now: Millis): Active {
      match active
      case None => Active(now, [], 0, [item], now, 0)
      case Some(a) => a.(buffer := a.buffer + [item])
    }

    /** Put one row in the buffer, opening a file first if none is open. */
    method Push(item: Item, now: Millis)
      requires Valid() && Within()
      modifies this`active, this`log
      ensures Valid() && active.Some? && log == Wrote(old(log), item, now)
      ensures active == Some(WithRow(old(active), item, now))
      ensures !failed && 1 <= maxRows && 1 <= batchSize ==>
                active.value.rowCount < maxRows && |active.value.buffer| <= batchSize
    {
      if active.None? {
        active := Some(Active(now, [], 0, [], now, 0));
      }
      var a := active.value;
      active, log := Some(a.(buffer := a.buffer + [item])), Wrote(log, item, now);
      assert [] + [item] == [item];
      assert a.written + (a.buffer + [item]) == a.written + a.buffer + [item];
      assert ActiveRows(old(active)) == [] ==> a.written + a.buffer + [item] == [item];
    }

    method Write(item: Item, now: Millis, later: Millis) returns (r: Result<(), Error>)
      requires Valid() && Within()
      modifies this
      ensures Valid() && Within()
      ensures active.Some? ==> log == Wrote(old(log), item, now) && uploads == old(uploads)
      ensures active.None? ==>
                var closed := Closed(Wrote(old(log), item, now)); log == if autoCommit then Sent(closed) else closed
      ensures r.Ok? && active.None? ==>
                uploads == old(uploads) + if autoCommit then After(Closed(Wrote(old(log), item, now))).staged else []
      ensures Settled(WithRow(old(active), item, now), Wrote(old(log), item, now), later, r)
    {
      Push(item, now);
      r := FlushAndRotate(later);
    }

    /** The rest of a write, once the row is in the buffer. */
    method FlushAndRotate(later: Millis) returns (r: Result<(), Error>)
      requires Valid() && active.Some?
      requires !failed && 1 <= maxRows && 1 <= batchSize ==>
                 && active.value.rowCount < maxRows && |active.value.buffer| <= batchSize
                 && longest <= maxRows + batchSize - 1
      modifies this
      ensures Valid() && Within()
      ensures active.Some? ==> log == old(log) && uploads == old(uploads)
      ensures active.None? ==> log == if autoCommit then Sent(Closed(old(log))) else Closed(old(log))
      ensures r.Ok? && active.None? ==>
                uploads == old(uploads) + if autoCommit then After(Closed(old(log))).staged else []
      ensures Settled(old(active).value, old(log), later, r)
    {
      if |active.value.buffer| >= batchSize {
        r := FlushBuffer();
        if r.Err? {
          return;
        }
      }
      if ShouldRotate(later) {
        r := Rotate();
      } else {
        r := Ok(());
      }
    }

    method MaybeRoll(later: Millis) returns (r: Result<(), Error>)
      requires Valid() && Within()
      modifies this
      ensures Valid() && Within()
      ensures if old(active).None? then r == Ok(()) && active == None && log == old(log)
              else Rolled(old(active).value, old(log), later, r)
      ensures log == old(log) ==> active == old(active) && uploads == old(uploads)
    {
      if ShouldRotate(later) {
        r := Rotate();
      } else {
        r := Ok(());
      }
    }

    /** The server puts a queued file into the bucket; one that is not there is ignored. */
    method CopyQueued(path: Path)
      requires Valid() && Within()
      modifies this`bucket, this`log
      ensures Valid() && Within() && log == if path in uploads then Copied(old(log), path) else old(log)
    {
      if path in uploads {
        if path in target {
          bucket := bucket[path := target[path]];
        }
        log := Copied(log, path);
      }
    }

    /** Once it has put a file there, the server removes what has its name in the target directory. */
    method RemoveCopied(path: Path)
      requires Valid() && Within()
      modifies this`target, this`log
      ensures Valid() && Within() && log == if path in bucket then Removed(old(log), path) else old(log)
    {
      if path in bucket {
        target := target - {path};
        log := Removed(log, path);
      }
    }

    /** One request of a client, the timer or the upload server; `reply` is what a write or a rotation answers. */
    method Serve(request: Request, now: Millis, later: Millis) returns (ghost reply: Result<(), Error>)
      requires Valid() && Within()
      modifies this
      ensures Valid() && Within()
      ensures Items(log) == Items(old(log)) + if request.Data? then [request.item] else []
      ensures UsesNames(After(old(log)), After(log), now)
      ensures OwnNames(old(log)) && (old(active).None? ==> now !in old(target) && now !in old(bucket)) ==> OwnNames(log)
      ensures match request
              case Data(item) =>
                Settled(WithRow(old(active), item, now), Wrote(old(log), item, now), later, reply)
              case Tick =>
                if old(active).None? then active == None && log == old(log)
                else Rolled(old(active).value, old(log), later, reply)
              case CommitAll =>
                if !old(Flushes()) then active == old(active) && log == old(log)
                else log == Sent(old(log)) && active == None &&
                     ((forall f <- Close(After(old(log))).staged :: !refuses(f)) ==>
                        uploads == old(uploads) + Close(After(old(log))).staged)
              case RollbackAll =>
                if old(Flushes()) then log == Dropped(old(log)) && active == None
                else active == old(active) && log == old(log)
              case Fetch(path) => log == if path in old(uploads) then Copied(old(log), path) else old(log)
              case Unlink(path) => log == if path in old(bucket) then Removed(old(log), path) else old(log)
    {
      ghost var before := log;
      reply := Ok(());
      match request
      case Data(item) =>
        var written := Write(item, now, later);
        reply := written;
        NamesUsed(before, item, now);
        assert Items(Wrote(before, item, now)) == Items(Closed(Wrote(before, item, now)));
      case Tick =>
        var rolled := MaybeRoll(later);
        reply := rolled;
        NamesUsed(before, 0, now);
        assert Items(Closed(before)) == Items(before) == Items(before) + [];
      case CommitAll =>
        var _ := Commit();
        NamesUsed(before, 0, now);
      case RollbackAll =>
        var _ := Rollback();
        NamesUsed(before, 0, now);
      case Fetch(path) =>
        CopyQueued(path);
        NamesUsed(before, 0, now);
        NamesUsedByServer(before, path, now);
      case Unlink(path) =>
        RemoveCopied(path);
        NamesUsed(before, 0, now);
        NamesUsedByServer(before, path, now);
    }

    /**
     One request after the other, with what the upload server does in between;
     `times` are the clock readings of each. All rows are kept exactly when no
     file that counts lost its last copy, and always if the clock shows every
     millisecond once.
     */
    method Run(requests: seq<Request>, times: seq<(Millis, Millis)>)
      requires Valid() && Within() && |times| == |requests|
      modifies this
      ensures Valid() && Within()
      ensures Items(log) == Items(old(log)) + Received(requests)
      ensures RowsKept(log) <==> NoneLost(BooksOf(log))
      ensures OwnNames(old(log)) && NewNames(times, After(old(log))) ==> OwnNames(log) && RowsKept(log)
    {
      for i := 0 to |requests|
        invariant Valid() && Within()
        invariant Items(log) == Items(old(log)) + Received(requests[..i])
        invariant OwnNames(old(log)) && NewNames(times, After(old(log))) ==>
                    OwnNames(log) && NewNames(times[i..], After(log))
      {
        ghost var s := After(log);
        assert requests[..i + 1][..i] == requests[..i];
        assert times[i] == times[i..][0] && times[i..][1..] == times[i + 1..];
        ghost var reply := Serve(requests[i], times[i].0, times[i].1);
        if OwnNames(old(log)) && NewNames(times, After(old(log))) {
          NewNamesRemain(times[i..], s, After(log));
        }
      }
      assert requests[..|requests|] == requests;
      RowsKeptExactly(log);
      if OwnNames(log) {
        OwnNamesLoseNothing(log);
      }
    }

    /** Queue every file whose upload is not refused. */
    method QueueEach(files: seq<Path>) returns (queued: seq<Path>)
      modifies this`uploads
      ensures uploads == old(uploads) + queued
      ensures forall f :: f in queued <==> f in files && !refuses(f)
    {
      queued := [];
      for i := 0 to |files|
        invariant forall f :: f in queued <==> f in files[..i] && !refuses(f)
      {
        assert files[..i + 1] == files[..i] + [files[i]];
        if !refuses(files[i]) {
          queued := queued + [files[i]];
        }
      }
      assert files[..|files|] == files;
      uploads := uploads + queued;
    }

    /**
     After a crash only the directories are left. Every completed file is
     queued again, committed or not. An incomplete file has no footer and can
     not be read: in auto-commit mode it is moved over whatever has its name
     and queued, otherwise it is deleted.
     */
    method RecoverFromCrash(completed: seq<Path>, incomplete: seq<Path>) returns (queued: seq<Path>)
      requires active == None && stagedFiles == []
      requires forall f :: f in completed <==> f in target
      modifies this`target, this`uploads
      ensures uploads == old(uploads) + queued
      ensures forall f :: f in target <==> f in old(target) && (autoCommit ==> f !in incomplete)
      ensures forall f <- target :: target[f] == old(target)[f]
      ensures forall f :: f in queued <==> (f in old(target) || (autoCommit && f in incomplete)) && !refuses(f)
    {
      queued := QueueEach(completed);
      if autoCommit {
        var more := QueueEach(incomplete);
        target := map f <- target | f !in incomplete :: target[f];
        queued := queued + more;
      }
    }
  }

  /** One row, then a commit. */
  method CommitOne(sink: ParquetSink, item: Item, now: Millis)
    requires sink.Valid() && sink.Within() && sink.active == None && sink.stagedFiles == []
    requires sink.serializes([item]) && !sink.refuses(now) && 2 <= sink.batchSize
    modifies sink
    ensures sink.Valid() && sink.Within() && sink.active == None && sink.stagedFiles == []
    ensures sink.log == Sent(Wrote(old(sink.log), item, now)) && sink.bucket == old(sink.bucket)
    ensures sink.uploads == old(sink.uploads) + [now] && sink.target == old(sink.target)[now := [item]]
  {
    ghost var before := sink.log;
    sink.Push(item, now);
    assert [] + [item] == [item] && After(sink.log).file == Some(File(now, [item]));
    assert Close(After(sink.log)) ==
           State(After(before).target[now := [item]], After(before).bucket, [] + [now], None);
    assert [] + [now] == [now] && sink.active.value.buffer == [item];
    var committed := sink.Commit();
    assert committed.Ok? && committed.value == [now];
    assert After(Sent(Wrote(before, item, now))).target == After(before).target[now := [item]];
  }

  /**
   Two commits in one millisecond: both answer success and queue the same
   name, and the file of that name holds only the second row.
   */
  method TwoCommitsOneName(sink: ParquetSink, first: Item, second: Item, now: Millis)
    requires sink.Valid() && sink.Within() && sink.log == Found(map[], []) && !sink.refuses(now)
    requires sink.serializes([first]) && sink.serializes([second]) && 2 <= sink.batchSize
    modifies sink
    ensures sink.uploads == old(sink.uploads) + [now, now] && sink.target == map[now := [second]]
    ensures sink.Valid() && BooksOf(sink.log).sent == [first, second] && !RowsKept(sink.log)
  {
    CommitOne(sink, first, now);
    ghost var committed := sink.log;
    CommitOne(sink, second, now);
    OneNameTwice(committed, first, second, now);
    assert map[now := [first]][now := [second]] == map[now := [second]];
  }

  /** The books after a first row was committed. */
  function OneCommitted(first: Item, now: Millis): Books {
    Books([now], [[first]], map[now := 0], map[], [], [0], [], [first], [], {})
  }

  lemma {:induction false} FirstCommit(first: Item, now: Millis)
    ensures BooksOf(Sent(Wrote(Found(map[], []), first, now))) == OneCommitted(first, now)
    ensures After(Sent(Wrote(Found(map[], []), first, now))) == State(map[now := [first]], map[], [], None)
  {
    var start, one := Found(map[], []), Wrote(Found(map[], []), first, now);
    assert BooksOf(start) == Books([], [], map[], map[], [], [], [], [], [], {});
    assert After(one) == State(map[], map[], [], Some(File(now, [first])));
    assert BooksOf(one) == Books([], [], map[], map[], [], [], [first], [], [], {});
    assert CloseBooks(BooksOf(one), After(one).file) ==
           Books([now], [[first]], map[now := 0], map[], [0], [], [first], [], [], {});
  }

  lemma {:induction false} OneNameTwice(committed: Log, first: Item, second: Item, now: Millis)
    requires committed == Sent(Wrote(Found(map[], []), first, now))
    ensures BooksOf(Sent(Wrote(committed, second, now))).sent == [first, second]
    ensures !RowsKept(Sent(Wrote(committed, second, now)))
  {
    assert WellFound(Wrote(Found(map[], []), first, now)) && WellFound(committed);
    FirstCommit(first, now);
    var two := Wrote(committed, second, now);
    assert After(two) == State(map[now := [first]], map[], [], Some(File(now, [second])));
    assert BooksOf(two) == OneCommitted(first, now).(since := [second]);
    var closed := CloseBooks(BooksOf(two), After(two).file);
    assert 0 in LastCopy(BooksOf(two), now) && 0 in closed.lost && closed.done == [0];
    assert closed.sent + closed.since == [first, second];
    RowsKeptExactly(Sent(two));
    assert 0 in BooksOf(Sent(two)).lost && 0 in BooksOf(Sent(two)).done;
  }
}
