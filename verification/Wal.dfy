/**
 The write-ahead log: numbered files, rotation by size, reading everything back,
 removal of old files. The log as a value with one function per operation, and
 what whole runs of operations keep; `WalLog` holds the log as an object.
 */
module Wal {
  import opened Common
  import opened WalNames
  import opened WalRecords

  /** Files by number; file n is called `FileName(n)`, from which n can be read back. */
  type Disk = map<nat, seq<Byte>>

  /** The open file: by number, or, once its name is removed, only through the handle. */
  datatype Handle = Linked(number: nat) | Unlinked(content: seq<Byte>)

  datatype State = State(disk: Disk, sequence: nat, open: Handle, maxSize: int)

  const DEFAULT_MAX_SIZE := 64 * 1024 * 1024

  /** A directory listing: every file once, in lexical order of the names. */
  ghost predicate Listing(files: seq<nat>, disk: Disk) {
    && (forall i, j :: 0 <= i < j < |files| ==> Less(FileName(files[i]), FileName(files[j])))
    && (forall i :: 0 <= i < |files| ==> files[i] in disk)
    && (forall n :: n in disk ==> n in files)
  }

  /** Opening a file creates it when it is missing and keeps its content otherwise. */
  function Created(disk: Disk, number: nat): Disk {
    if number in disk then disk else disk[number := []]
  }

  function Open(disk: Disk, files: seq<nat>): State {
    var last := if files == [] then 1 else files[|files| - 1];
    State(Created(disk, last), last, Linked(last), DEFAULT_MAX_SIZE)
  }

  function Content(s: State): seq<Byte> {
    match s.open
    case Linked(number) => if number in s.disk then s.disk[number] else []
    case Unlinked(content) => content
  }

  predicate Rotates(s: State, additional: nat) {
    |Content(s)| + additional > s.maxSize
  }

  function MaybeRotate(s: State, additional: nat): State {
    if !Rotates(s, additional) then s
    else s.(sequence := s.sequence + 1, disk := Created(s.disk, s.sequence + 1), open := Linked(s.sequence + 1))
  }

  /** Writing at the end of the open file. */
  function Written(s: State, bytes: seq<Byte>): State {
    match s.open
    case Linked(number) => s.(disk := s.disk[number := Content(s) + bytes])
    case Unlinked(content) => s.(open := Unlinked(content + bytes))
  }

  function Append(c: Codec, s: State, e: Entry): State {
    Written(MaybeRotate(s, |Frame(c, e)|), Frame(c, e))
  }

  function Truncate(s: State, before: int): State {
    s.(disk := map n | n in s.disk && n >= before :: s.disk[n],
       open := if s.open.Linked? && s.open.number < before then Unlinked(Content(s)) else s.open)
  }

  /** Removing files; a removed file that is open lives on behind the handle. */
  function Without(s: State, gone: set<nat>): State {
    s.(disk := s.disk - gone,
       open := if s.open.Linked? && s.open.number in gone then Unlinked(Content(s)) else s.open)
  }

  lemma WithoutTwice(s: State, gone: set<nat>, n: nat)
    ensures Without(Without(s, gone), {n}) == Without(s, gone + {n})
  {
    assert s.disk - gone - {n} == s.disk - (gone + {n});
  }

  /** Removing the files below `before` one by one is the removal of all of them. */
  lemma WithoutOlder(s: State, gone: set<nat>, before: int)
    requires s.open.Linked? ==> s.open.number in s.disk
    requires forall n :: n in gone <==> n in s.disk && n < before
    ensures Without(s, gone) == Truncate(s, before)
  {
  }

  function ReadAll(c: Codec, disk: Disk, files: seq<nat>): Option<seq<Entry>>
    requires forall i :: 0 <= i < |files| ==> files[i] in disk
  {
    if files == [] then Some([])
    else
      match Parse(c, disk[files[0]])
      case None => None
      case Some(es) => Prepended(es, ReadAll(c, disk, files[1..]))
  }

  // ---- what the files hold ----

  /** File `lo + i` holds the entries `files[i]`; with no file left, writes go to a removed file. */
  datatype Kept = Kept(lo: nat, files: seq<seq<Entry>>)

  function Flatten(files: seq<seq<Entry>>): seq<Entry> {
    if files == [] then [] else files[0] + Flatten(files[1..])
  }

  ghost predicate Stored(c: Codec, disk: Disk, k: Kept) {
    && (forall n :: n in disk <==> k.lo <= n < k.lo + |k.files|)
    && (forall n :: n in disk ==> disk[n] == Frames(c, k.files[n - k.lo]))
  }

  ghost predicate Holds(c: Codec, s: State, k: Kept) {
    && k.lo >= 1 && Stored(c, s.disk, k)
    && (if k.files == [] then s.open.Unlinked?
        else s.open == Linked(s.sequence) && s.sequence == k.lo + |k.files| - 1)
  }

  datatype Op = Log(entry: Entry) | Reopen(listing: seq<nat>) | SetMaxSize(size: int) | Drop(before: int)

  function Do(c: Codec, s: State, op: Op): State {
    match op
    case Log(e) => Append(c, s, e)
    case Reopen(files) => Open(s.disk, files)
    case SetMaxSize(size) => s.(maxSize := size)
    case Drop(before) => Truncate(s, before)
  }

  /** A reopening sees the directory as it is, and numbers have at most eight digits. */
  ghost predicate Allowed(s: State, op: Op) {
    s.sequence < LIMIT && (op.Reopen? ==> Listing(op.listing, s.disk))
  }

  /** The files from number `before` on. */
  function FilesFrom(k: Kept, before: int): seq<seq<Entry>> {
    if before <= k.lo then k.files
    else if before < k.lo + |k.files| then k.files[before - k.lo..]
    else []
  }

  function WithEntry(files: seq<seq<Entry>>, e: Entry): seq<seq<Entry>>
    requires files != []
  {
    files[..|files| - 1] + [files[|files| - 1] + [e]]
  }

  function KeptAfter(c: Codec, s: State, k: Kept, op: Op): Kept {
    match op
    case Log(e) =>
      if Rotates(s, |Frame(c, e)|) then Kept(if k.files == [] then s.sequence + 1 else k.lo, k.files + [[e]])
      else if k.files == [] then k
      else Kept(k.lo, WithEntry(k.files, e))
    case Reopen(_) => if k.files == [] then Kept(1, [[]]) else k
    case SetMaxSize(_) => k
    case Drop(before) => Kept(if before <= k.lo then k.lo else before, FilesFrom(k, before))
  }

  // ---- facts ----

  lemma {:induction false} FramesAppend(c: Codec, es: seq<Entry>, e: Entry)
    ensures Frames(c, es + [e]) == Frames(c, es) + Frame(c, e)
  {
    if es == [] {
      assert Frames(c, [e]) == Frame(c, e) + Frames(c, []);
    } else {
      assert (es + [e])[1..] == es[1..] + [e];
      FramesAppend(c, es[1..], e);
    }
  }

  lemma {:induction false} FlattenAppend(a: seq<seq<Entry>>, b: seq<seq<Entry>>)
    ensures Flatten(a + b) == Flatten(a) + Flatten(b)
  {
    if a == [] {
      assert a + b == b;
    } else {
      assert (a + b)[1..] == a[1..] + b;
      FlattenAppend(a[1..], b);
    }
  }

  /** While numbers have at most eight digits, a listing ascends. */
  lemma ListingAscends(files: seq<nat>, disk: Disk, i: nat, j: nat)
    requires Listing(files, disk) && i < j < |files| && files[i] < LIMIT && files[j] < LIMIT
    ensures files[i] < files[j]
  {
    ListedBefore(files[i], files[j]);
  }

  ghost predicate Ascending(files: seq<nat>) {
    forall i, j :: 0 <= i < j < |files| ==> files[i] < files[j]
  }

  ghost predicate IsRange(files: seq<nat>, lo: nat, n: nat) {
    && (forall i :: 0 <= i < |files| ==> lo <= files[i] < lo + n)
    && (forall x: nat :: lo <= x < lo + n ==> x in files)
  }

  lemma ListingOfRange(files: seq<nat>, disk: Disk, lo: nat, n: nat)
    requires Listing(files, disk) && lo + n <= LIMIT && forall x :: x in disk <==> lo <= x < lo + n
    ensures Ascending(files) && IsRange(files, lo, n)
  {
    forall i, j | 0 <= i < j < |files|
      ensures files[i] < files[j]
    {
      ListingAscends(files, disk, i, j);
    }
  }

  lemma RangeNotEmpty(files: seq<nat>, lo: nat, n: nat)
    requires IsRange(files, lo, n) && files != []
    ensures n > 0
  {
    assert lo <= files[0] < lo + n;
  }

  /** An ascending listing of the numbers from lo to lo + n is that very range. */
  lemma {:induction false} RangeIs(files: seq<nat>, lo: nat, n: nat)
    requires Ascending(files) && IsRange(files, lo, n)
    ensures |files| == n && forall i :: 0 <= i < n ==> files[i] == lo + i
  {
    if n == 0 {
      if files != [] {
        RangeNotEmpty(files, lo, n);
      }
    } else {
      assert lo in files;
      var rest := files[1..];
      assert files == [lo] + rest;
      forall x: nat | lo + 1 <= x < lo + 1 + (n - 1)
        ensures x in rest
      {
        assert x in files;
      }
      forall i | 0 <= i < |rest|
        ensures lo + 1 <= rest[i] < lo + 1 + (n - 1)
      {
        assert files[0] < files[i + 1];
      }
      RangeIs(rest, lo + 1, n - 1);
    }
  }

  lemma ListedAll(c: Codec, s: State, k: Kept, files: seq<nat>)
    requires Stored(c, s.disk, k) && Listing(files, s.disk) && k.lo + |k.files| <= LIMIT
    ensures |files| == |k.files| && forall i :: 0 <= i < |files| ==> files[i] == k.lo + i
  {
    ListingOfRange(files, s.disk, k.lo, |k.files|);
    RangeIs(files, k.lo, |k.files|);
  }

  lemma SomethingStored(files: seq<nat>, disk: Disk)
    requires Listing(files, disk) && files != []
    ensures files[0] in disk
  {
  }

  lemma NothingListed(c: Codec, s: State, k: Kept, files: seq<nat>)
    requires Stored(c, s.disk, k) && Listing(files, s.disk) && k.files == []
    ensures files == []
  {
    if files != [] {
      SomethingStored(files, s.disk);
    }
  }

  /** Reading files that hold these entries gives them in order. */
  lemma {:induction false} ReadsInOrder(c: Codec, disk: Disk, files: seq<nat>, held: seq<seq<Entry>>)
    requires Faithful(c, Flatten(held)) && |files| == |held|
    requires forall i :: 0 <= i < |files| ==> files[i] in disk && disk[files[i]] == Frames(c, held[i])
    ensures ReadAll(c, disk, files) == Some(Flatten(held))
  {
    if files != [] {
      assert forall e :: e in held[0] || e in Flatten(held[1..]) ==> e in Flatten(held);
      FileRoundTrip(c, held[0]);
      ReadsInOrder(c, disk, files[1..], held[1..]);
    }
  }

  /** What is read back is what the files hold. */
  lemma ReadBack(c: Codec, s: State, k: Kept, files: seq<nat>)
    requires Faithful(c, Flatten(k.files)) && Holds(c, s, k) && s.sequence < LIMIT && Listing(files, s.disk)
    ensures ReadAll(c, s.disk, files) == Some(Flatten(k.files))
  {
    if k.files == [] {
      NothingListed(c, s, k, files);
    } else {
      ListedAll(c, s, k, files);
      ReadsInOrder(c, s.disk, files, k.files);
    }
  }

  // ---- operations keep it ----

  /** A new, empty file after the last one. */
  lemma StoredMore(c: Codec, disk: Disk, more: Disk, k: Kept, lo: nat, next: nat)
    requires Stored(c, disk, k) && next !in disk && more == disk[next := []]
    requires if k.files == [] then lo == next else lo == k.lo && next == k.lo + |k.files|
    ensures Stored(c, more, Kept(lo, k.files + [[]]))
  {
    var files := k.files + [[]];
    forall n | n in more
      ensures lo <= n < lo + |files| && more[n] == Frames(c, files[n - lo])
    {
    }
  }

  lemma RotationHolds(c: Codec, s: State, k: Kept, additional: nat, lo: nat)
    requires Holds(c, s, k) && Rotates(s, additional) && lo == if k.files == [] then s.sequence + 1 else k.lo
    ensures Holds(c, MaybeRotate(s, additional), Kept(lo, k.files + [[]]))
  {
    var next := s.sequence + 1;
    assert k.files == [] ==> s.disk == map[];
    StoredMore(c, s.disk, Created(s.disk, next), k, lo, next);
  }

  /** The last file holds other entries. */
  lemma StoredLast(c: Codec, disk: Disk, k: Kept, content: seq<Byte>, last: seq<Entry>, at: nat, files: seq<seq<Entry>>)
    requires Stored(c, disk, k) && k.files != [] && at == k.lo + |k.files| - 1 && content == Frames(c, last)
    requires |files| == |k.files| && files[|files| - 1] == last
    requires forall i :: 0 <= i < |files| - 1 ==> files[i] == k.files[i]
    ensures Stored(c, disk[at := content], Kept(k.lo, files))
  {
    forall n | n in disk && n != at
      ensures disk[n] == Frames(c, files[n - k.lo])
    {
      assert files[n - k.lo] == k.files[n - k.lo];
    }
  }

  lemma BytesHold(c: Codec, s: State, k: Kept, bytes: seq<Byte>, last: seq<Entry>)
    requires Holds(c, s, k) && k.files != []
    requires Frames(c, last) == Frames(c, k.files[|k.files| - 1]) + bytes
    ensures Holds(c, Written(s, bytes), Kept(k.lo, k.files[..|k.files| - 1] + [last]))
  {
    assert s.disk[s.sequence] == Frames(c, k.files[|k.files| - 1]);
    StoredLast(c, s.disk, k, s.disk[s.sequence] + bytes, last, s.sequence, k.files[..|k.files| - 1] + [last]);
  }

  lemma WriteHolds(c: Codec, s: State, k: Kept, e: Entry)
    requires Holds(c, s, k) && k.files != []
    ensures Holds(c, Written(s, Frame(c, e)), Kept(k.lo, WithEntry(k.files, e)))
  {
    FramesAppend(c, k.files[|k.files| - 1], e);
    BytesHold(c, s, k, Frame(c, e), k.files[|k.files| - 1] + [e]);
  }

  lemma RotatedHolds(c: Codec, s: State, k: Kept, e: Entry, lo: nat)
    requires Holds(c, s, k) && Rotates(s, |Frame(c, e)|) && lo == if k.files == [] then s.sequence + 1 else k.lo
    ensures Holds(c, Append(c, s, e), Kept(lo, k.files + [[e]]))
  {
    var s1, k1 := MaybeRotate(s, |Frame(c, e)|), Kept(lo, k.files + [[]]);
    RotationHolds(c, s, k, |Frame(c, e)|, lo);
    WriteHolds(c, s1, k1, e);
    FreshFile(k.files, e);
  }

  lemma AppendHolds(c: Codec, s: State, k: Kept, e: Entry)
    requires Holds(c, s, k)
    ensures Holds(c, Append(c, s, e), KeptAfter(c, s, k, Log(e)))
  {
    if Rotates(s, |Frame(c, e)|) {
      RotatedHolds(c, s, k, e, if k.files == [] then s.sequence + 1 else k.lo);
    } else if k.files != [] {
      WriteHolds(c, s, k, e);
    }
  }

  lemma FreshFile(files: seq<seq<Entry>>, e: Entry)
    ensures WithEntry(files + [[]], e) == files + [[e]]
  {
    assert [] + [e] == [e];
    assert (files + [[]])[..|files|] == files;
  }

  lemma ReopenHolds(c: Codec, s: State, k: Kept, files: seq<nat>)
    requires Holds(c, s, k) && s.sequence < LIMIT && Listing(files, s.disk)
    ensures Holds(c, Open(s.disk, files), KeptAfter(c, s, k, Reopen(files)))
  {
    if k.files == [] {
      NothingListed(c, s, k, files);
    } else {
      ListedAll(c, s, k, files);
    }
  }

  lemma TruncateHolds(c: Codec, s: State, k: Kept, before: int)
    requires Holds(c, s, k)
    ensures Holds(c, Truncate(s, before), KeptAfter(c, s, k, Drop(before)))
  {
  }

  lemma OpHolds(c: Codec, s: State, k: Kept, op: Op)
    requires Holds(c, s, k) && Allowed(s, op)
    ensures Holds(c, Do(c, s, op), KeptAfter(c, s, k, op))
  {
    match op
    case Log(e) => AppendHolds(c, s, k, e);
    case Reopen(files) => ReopenHolds(c, s, k, files);
    case SetMaxSize(_) =>
    case Drop(before) => TruncateHolds(c, s, k, before);
  }

  // ---- whole runs ----

  function Run(c: Codec, s: State, ops: seq<Op>): State
    decreases |ops|
  {
    if ops == [] then s else Run(c, Do(c, s, ops[0]), ops[1..])
  }

  function RunKept(c: Codec, s: State, k: Kept, ops: seq<Op>): Kept
    decreases |ops|
  {
    if ops == [] then k else RunKept(c, Do(c, s, ops[0]), KeptAfter(c, s, k, ops[0]), ops[1..])
  }

  ghost predicate RunAllowed(c: Codec, s: State, ops: seq<Op>)
    decreases |ops|
  {
    if ops == [] then s.sequence < LIMIT else Allowed(s, ops[0]) && RunAllowed(c, Do(c, s, ops[0]), ops[1..])
  }

  lemma {:induction false} RunHolds(c: Codec, s: State, k: Kept, ops: seq<Op>)
    requires Holds(c, s, k) && RunAllowed(c, s, ops)
    ensures Holds(c, Run(c, s, ops), RunKept(c, s, k, ops)) && Run(c, s, ops).sequence < LIMIT
    decreases |ops|
  {
    if ops != [] {
      OpHolds(c, s, k, ops[0]);
      RunHolds(c, Do(c, s, ops[0]), KeptAfter(c, s, k, ops[0]), ops[1..]);
    }
  }

  /** A log opened in an empty directory. */
  function Fresh(): State {
    Open(map[], [])
  }

  lemma FreshHolds(c: Codec)
    ensures Holds(c, Fresh(), Kept(1, [[]]))
  {
  }

  function Adds(op: Op): seq<Entry> {
    if op.Log? then [op.entry] else []
  }

  /** The entries given to `Append`, in order. */
  function Logged(ops: seq<Op>): seq<Entry> {
    if ops == [] then [] else Adds(ops[0]) + Logged(ops[1..])
  }

  lemma FlattenWithEntry(files: seq<seq<Entry>>, e: Entry)
    requires files != []
    ensures Flatten(WithEntry(files, e)) == Flatten(files) + [e]
  {
    var front, last := files[..|files| - 1], files[|files| - 1];
    assert files == front + [last];
    FlattenAppend(front, [last]);
    FlattenAppend(front, [last + [e]]);
    assert Flatten([last]) == last && Flatten([last + [e]]) == last + [e];
  }

  lemma KeptGrows(c: Codec, s: State, k: Kept, op: Op)
    requires k.files != [] && !op.Drop?
    ensures KeptAfter(c, s, k, op).files != []
    ensures Flatten(KeptAfter(c, s, k, op).files) == Flatten(k.files) + Adds(op)
  {
    if op.Log? {
      var e := op.entry;
      if Rotates(s, |Frame(c, e)|) {
        FlattenAppend(k.files, [[e]]);
        assert Flatten([[e]]) == [e];
      } else {
        FlattenWithEntry(k.files, e);
      }
    }
  }

  lemma Regroup(a: seq<Entry>, b: seq<Entry>, rest: seq<Entry>)
    ensures a + b + rest == a + (b + rest)
  {
  }

  lemma {:induction false} RunKeptLogged(c: Codec, s: State, k: Kept, ops: seq<Op>)
    requires k.files != [] && forall i :: 0 <= i < |ops| ==> !ops[i].Drop?
    ensures Flatten(RunKept(c, s, k, ops).files) == Flatten(k.files) + Logged(ops)
    decreases |ops|
  {
    if ops != [] {
      var k1 := KeptAfter(c, s, k, ops[0]);
      KeptGrows(c, s, k, ops[0]);
      RunKeptLogged(c, Do(c, s, ops[0]), k1, ops[1..]);
      Regroup(Flatten(k.files), Adds(ops[0]), Logged(ops[1..]));
    }
  }

  /** Any appends, rotations and reopenings: everything appended is read back, entry for entry, in order. */
  lemma WalRoundTrip(c: Codec, ops: seq<Op>, files: seq<nat>)
    requires Faithful(c, Logged(ops)) && RunAllowed(c, Fresh(), ops) && forall i :: 0 <= i < |ops| ==> !ops[i].Drop?
    requires Listing(files, Run(c, Fresh(), ops).disk)
    ensures ReadAll(c, Run(c, Fresh(), ops).disk, files) == Some(Logged(ops))
  {
    var k := Kept(1, [[]]);
    FreshHolds(c);
    RunHolds(c, Fresh(), k, ops);
    RunKeptLogged(c, Fresh(), k, ops);
    assert Flatten([[]]) == [] && [] + Logged(ops) == Logged(ops);
    ReadBack(c, Run(c, Fresh(), ops), RunKept(c, Fresh(), k, ops), files);
  }

  /** After any run, removing the files below `before` leaves exactly the entries of the files from `before` on. */
  lemma TruncateLeavesSuffix(c: Codec, ops: seq<Op>, before: int, files: seq<nat>)
    requires Faithful(c, Flatten(FilesFrom(RunKept(c, Fresh(), Kept(1, [[]]), ops), before)))
    requires RunAllowed(c, Fresh(), ops)
    requires Listing(files, Truncate(Run(c, Fresh(), ops), before).disk)
    ensures ReadAll(c, Truncate(Run(c, Fresh(), ops), before).disk, files)
         == Some(Flatten(FilesFrom(RunKept(c, Fresh(), Kept(1, [[]]), ops), before)))
  {
    FreshHolds(c);
    RunHolds(c, Fresh(), Kept(1, [[]]), ops);
    TruncateHolds(c, Run(c, Fresh(), ops), RunKept(c, Fresh(), Kept(1, [[]]), ops), before);
    ReadBack(c, Truncate(Run(c, Fresh(), ops), before),
             KeptAfter(c, Run(c, Fresh(), ops), RunKept(c, Fresh(), Kept(1, [[]]), ops), Drop(before)), files);
  }

  lemma FilesFromIsSuffix(k: Kept, before: int) returns (gone: seq<seq<Entry>>)
    ensures k.files == gone + FilesFrom(k, before)
  {
    gone := k.files[..|k.files| - |FilesFrom(k, before)|];
  }

  /** Without an earlier removal, what is left is the end of everything that was appended. */
  lemma TruncateLeavesEndOfLog(c: Codec, ops: seq<Op>, before: int, files: seq<nat>) returns (gone: seq<Entry>)
    requires Faithful(c, Logged(ops)) && RunAllowed(c, Fresh(), ops) && forall i :: 0 <= i < |ops| ==> !ops[i].Drop?
    requires Listing(files, Truncate(Run(c, Fresh(), ops), before).disk)
    ensures var left := ReadAll(c, Truncate(Run(c, Fresh(), ops), before).disk, files);
            left.Some? && Logged(ops) == gone + left.value
    ensures before <= 1 ==> gone == []
  {
    var k := RunKept(c, Fresh(), Kept(1, [[]]), ops);
    RunKeptLogged(c, Fresh(), Kept(1, [[]]), ops);
    StillFirst(c, Fresh(), Kept(1, [[]]), ops);
    assert Flatten([[]]) == [];
    var front := FilesFromIsSuffix(k, before);
    FlattenAppend(front, FilesFrom(k, before));
    gone := Flatten(front);
    assert Logged(ops) == gone + Flatten(FilesFrom(k, before));
    TruncateLeavesSuffix(c, ops, before, files);
  }

  /** Without a removal the first file stays file 1. */
  lemma {:induction false} StillFirst(c: Codec, s: State, k: Kept, ops: seq<Op>)
    requires k.files != [] && k.lo == 1 && forall i :: 0 <= i < |ops| ==> !ops[i].Drop?
    ensures RunKept(c, s, k, ops).lo == 1
    decreases |ops|
  {
    if ops != [] {
      KeptGrows(c, s, k, ops[0]);
      StillFirst(c, Do(c, s, ops[0]), KeptAfter(c, s, k, ops[0]), ops[1..]);
    }
  }

  /** An entry appended to a named file is read back after everything else. */
  lemma AppendReads(c: Codec, s: State, k: Kept, e: Entry, files: seq<nat>)
    requires Faithful(c, Flatten(k.files) + [e]) && Holds(c, s, k) && k.files != []
    requires Append(c, s, e).sequence < LIMIT && Listing(files, Append(c, s, e).disk)
    ensures ReadAll(c, Append(c, s, e).disk, files) == Some(Flatten(k.files) + [e])
  {
    AppendHolds(c, s, k, e);
    KeptGrows(c, s, k, Log(e));
    ReadBack(c, Append(c, s, e), KeptAfter(c, s, k, Log(e)), files);
  }

  lemma SparedFiles(c: Codec, s: State, k: Kept, before: int) returns (k1: Kept)
    requires Holds(c, s, k) && k.files != [] && before <= s.sequence
    ensures Holds(c, Truncate(s, before), k1) && k1.files == FilesFrom(k, before) != []
  {
    TruncateHolds(c, s, k, before);
    k1 := KeptAfter(c, s, k, Drop(before));
  }

  /** The entry after a removal that spared the open file. */
  lemma AppendToSpared(c: Codec, s: State, k: Kept, before: int, s1: State, e: Entry, files: seq<nat>)
    requires Holds(c, s, k) && k.files != [] && before <= s.sequence && s1 == Truncate(s, before)
    requires Faithful(c, Flatten(FilesFrom(k, before)) + [e])
    requires Append(c, s1, e).sequence < LIMIT && Listing(files, Append(c, s1, e).disk)
    ensures ReadAll(c, Append(c, s1, e).disk, files) == Some(Flatten(FilesFrom(k, before)) + [e])
  {
    var k1 := SparedFiles(c, s, k, before);
    AppendReads(c, s1, k1, e, files);
  }

  lemma NothingSpared(c: Codec, s: State, k: Kept, before: int, s1: State)
    requires Holds(c, s, k) && k.files != [] && before > s.sequence && s1 == Truncate(s, before)
    ensures Holds(c, s1, Kept(before, []))
  {
    TruncateHolds(c, s, k, before);
  }

  /** An entry appended when every file is removed. */
  lemma AppendToNone(c: Codec, s: State, k: Kept, e: Entry, files: seq<nat>)
    requires Faithful(c, [e]) && Holds(c, s, k) && k.files == []
    requires Append(c, s, e).sequence < LIMIT && Listing(files, Append(c, s, e).disk)
    ensures ReadAll(c, Append(c, s, e).disk, files) == Some(if Rotates(s, |Frame(c, e)|) then [e] else [])
  {
    AppendHolds(c, s, k, e);
    assert k.files + [[e]] == [[e]] && Flatten([[e]]) == [e];
    ReadBack(c, Append(c, s, e), KeptAfter(c, s, k, Log(e)), files);
  }

  /** The entry after a removal of every file. */
  lemma AppendToRemoved(c: Codec, s: State, k: Kept, before: int, s1: State, e: Entry, files: seq<nat>)
    requires Faithful(c, [e]) && Holds(c, s, k) && k.files != [] && before > s.sequence && s1 == Truncate(s, before)
    requires Append(c, s1, e).sequence < LIMIT && Listing(files, Append(c, s1, e).disk)
    ensures ReadAll(c, Append(c, s1, e).disk, files) == Some(if Rotates(s1, |Frame(c, e)|) then [e] else [])
  {
    NothingSpared(c, s, k, before, s1);
    AppendToNone(c, s1, Kept(before, []), e, files);
  }

  /**
   The next entry after a removal is read back exactly when the removal spared
   the open file or the entry starts a new file; otherwise it goes to a file
   that has no name any more, and so does every later one until a rotation.
   */
  lemma AppendAfterTruncate(c: Codec, s: State, k: Kept, before: int, e: Entry, files: seq<nat>)
    requires Faithful(c, Flatten(FilesFrom(k, before)) + [e]) && Holds(c, s, k) && k.files != []
    requires var s' := Append(c, Truncate(s, before), e); s'.sequence < LIMIT && Listing(files, s'.disk)
    ensures ReadAll(c, Append(c, Truncate(s, before), e).disk, files) == Some(Flatten(FilesFrom(k, before)) + [e])
       <==> before <= s.sequence || Rotates(Truncate(s, before), |Frame(c, e)|)
  {
    if before <= s.sequence {
      AppendToSpared(c, s, k, before, Truncate(s, before), e, files);
    } else {
      AppendToRemoved(c, s, k, before, Truncate(s, before), e, files);
      assert Flatten([]) + [e] == [e];
    }
  }

  // ---- a torn append ----

  lemma {:induction false} FramesGrow(c: Codec, es: seq<Entry>, k: nat)
    requires k <= |es|
    ensures |Frames(c, es[..k])| <= |Frames(c, es)|
  {
    FramesPrefix(c, es, k);
  }

  /** No boundary lies inside the last record. */
  lemma InsideLastRecord(c: Codec, es: seq<Entry>, e: Entry, cut: nat)
    requires 0 < cut < |Frame(c, e)|
    ensures !AtBoundary(c, es + [e], |Frames(c, es)| + cut)
  {
    var all := es + [e];
    FramesAppend(c, es, e);
    forall k: nat | k <= |all|
      ensures |Frames(c, all[..k])| != |Frames(c, es)| + cut
    {
      if k <= |es| {
        assert all[..k] == es[..k];
        FramesGrow(c, es, k);
      } else {
        assert all[..k] == all;
      }
    }
  }

  lemma TornRecord(c: Codec, es: seq<Entry>, e: Entry, cut: nat)
    requires 0 < cut < |Frame(c, e)| && Faithful(c, es + [e])
    ensures Parse(c, Frames(c, es) + Frame(c, e)[..cut]) == None
  {
    FramesAppend(c, es, e);
    InsideLastRecord(c, es, e, cut);
    TornInside(c, es + [e], |Frames(c, es)| + cut);
    assert Frames(c, es + [e])[..|Frames(c, es)| + cut] == Frames(c, es) + Frame(c, e)[..cut];
  }

  /** One file that does not read fails the whole. */
  lemma {:induction false} OneFails(c: Codec, disk: Disk, files: seq<nat>, i: nat)
    requires i < |files| && forall j :: 0 <= j < |files| ==> files[j] in disk
    requires Parse(c, disk[files[i]]) == None
    ensures ReadAll(c, disk, files) == None
  {
    if i > 0 {
      OneFails(c, disk, files[1..], i - 1);
    }
  }

  lemma SameNames(files: seq<nat>, a: Disk, b: Disk)
    requires Listing(files, a) && a.Keys == b.Keys
    ensures Listing(files, b)
  {
    assert forall n :: n in a <==> n in a.Keys;
    assert forall n :: n in b <==> n in b.Keys;
  }

  /** When only part of a record has reached the open file, nothing reads any more. */
  lemma TornAppendFails(c: Codec, s: State, k: Kept, last: seq<Entry>, e: Entry, cut: nat, disk: Disk, files: seq<nat>)
    requires Holds(c, s, k) && k.files != [] && last == k.files[|k.files| - 1] && s.sequence < LIMIT
    requires 0 < cut < |Frame(c, e)| && Faithful(c, last + [e])
    requires disk == Written(s, Frame(c, e)[..cut]).disk && Listing(files, disk)
    ensures ReadAll(c, disk, files) == None
  {
    LastFileIs(c, s, k, last, Frame(c, e)[..cut]);
    SameNames(files, disk, s.disk);
    LastListed(c, s, k, files);
    TornRecord(c, last, e, cut);
    LastFails(c, disk, files, s.sequence);
  }

  lemma LastFails(c: Codec, disk: Disk, files: seq<nat>, at: nat)
    requires Listing(files, disk) && files != [] && files[|files| - 1] == at && at in disk
    requires Parse(c, disk[at]) == None
    ensures ReadAll(c, disk, files) == None
  {
    OneFails(c, disk, files, |files| - 1);
  }

  lemma LastListed(c: Codec, s: State, k: Kept, files: seq<nat>)
    requires Holds(c, s, k) && k.files != [] && s.sequence < LIMIT && Listing(files, s.disk)
    ensures files != [] && files[|files| - 1] == s.sequence
  {
    ListedAll(c, s, k, files);
  }

  lemma LastFileIs(c: Codec, s: State, k: Kept, last: seq<Entry>, bytes: seq<Byte>)
    requires Holds(c, s, k) && k.files != [] && last == k.files[|k.files| - 1]
    ensures Written(s, bytes).disk.Keys == s.disk.Keys && s.sequence in s.disk
    ensures Written(s, bytes).disk[s.sequence] == Frames(c, last) + bytes
  {
  }

  // ---- sizes of files ----

  /** A file is no longer than the limit, unless a single record is. */
  ghost predicate Bounded(c: Codec, files: seq<seq<Entry>>, limit: int) {
    forall i :: 0 <= i < |files| ==> |Frames(c, files[i])| <= limit || |files[i]| == 1
  }

  /** File i, if not the first, starts with a record that did not fit the file before it. */
  ghost predicate TightAt(c: Codec, files: seq<seq<Entry>>, limit: int, i: nat)
    requires i < |files|
  {
    i > 0 ==> files[i] != [] && |Frames(c, files[i - 1])| + |Frame(c, files[i][0])| > limit
  }

  ghost predicate Tight(c: Codec, files: seq<seq<Entry>>, limit: int) {
    forall i :: 0 <= i < |files| ==> TightAt(c, files, limit, i)
  }

  ghost predicate Sized(c: Codec, s: State, k: Kept) {
    && s.maxSize == 64 * 1024 * 1024
    && Bounded(c, k.files, 64 * 1024 * 1024) && Tight(c, k.files, 64 * 1024 * 1024)
  }

  lemma OneRecord(c: Codec, e: Entry)
    ensures Frames(c, [e]) == Frame(c, e)
  {
    assert Frames(c, [e][1..]) == [];
  }

  lemma TightMore(c: Codec, files: seq<seq<Entry>>, e: Entry, limit: int)
    requires Bounded(c, files, limit) && Tight(c, files, limit)
    requires files != [] ==> |Frames(c, files[|files| - 1])| + |Frame(c, e)| > limit
    ensures Bounded(c, files + [[e]], limit) && Tight(c, files + [[e]], limit)
  {
    forall i | 0 <= i < |files|
      ensures TightAt(c, files + [[e]], limit, i)
    {
      assert TightAt(c, files, limit, i);
    }
  }

  lemma TightLonger(c: Codec, files: seq<seq<Entry>>, more: seq<seq<Entry>>, e: Entry, limit: int)
    requires files != [] && Bounded(c, files, limit) && Tight(c, files, limit) && more == WithEntry(files, e)
    requires |Frames(c, files[|files| - 1])| + |Frame(c, e)| <= limit
    ensures Bounded(c, more, limit) && Tight(c, more, limit)
  {
    FramesAppend(c, files[|files| - 1], e);
    forall i | 0 <= i < |more|
      ensures TightAt(c, more, limit, i)
    {
      assert TightAt(c, files, limit, i);
    }
  }

  lemma TightSuffix(c: Codec, files: seq<seq<Entry>>, from: nat, limit: int)
    requires Bounded(c, files, limit) && Tight(c, files, limit) && from <= |files|
    ensures Bounded(c, files[from..], limit) && Tight(c, files[from..], limit)
  {
    forall i | 0 <= i < |files[from..]|
      ensures TightAt(c, files[from..], limit, i)
    {
      assert TightAt(c, files, limit, from + i);
    }
  }

  lemma OpenContent(c: Codec, s: State, k: Kept)
    requires Holds(c, s, k) && k.files != []
    ensures Content(s) == Frames(c, k.files[|k.files| - 1])
  {
  }

  lemma AppendSized(c: Codec, s: State, k: Kept, e: Entry)
    requires Holds(c, s, k) && Sized(c, s, k)
    ensures Sized(c, Append(c, s, e), KeptAfter(c, s, k, Log(e)))
  {
    if k.files != [] {
      OpenContent(c, s, k);
      if |Content(s)| + |Frame(c, e)| > 64 * 1024 * 1024 {
        TightMore(c, k.files, e, 64 * 1024 * 1024);
      } else {
        TightLonger(c, k.files, WithEntry(k.files, e), e, 64 * 1024 * 1024);
      }
    } else {
      TightMore(c, k.files, e, 64 * 1024 * 1024);
    }
  }

  lemma OpSized(c: Codec, s: State, k: Kept, op: Op)
    requires Holds(c, s, k) && Sized(c, s, k) && Allowed(s, op) && !op.SetMaxSize?
    ensures Sized(c, Do(c, s, op), KeptAfter(c, s, k, op))
  {
    match op
    case Log(e) => AppendSized(c, s, k, e);
    case Reopen(_) => EmptySized(c);
    case Drop(before) => DropSized(c, s, k, before);
  }

  lemma EmptySized(c: Codec)
    ensures Bounded(c, [[]], 64 * 1024 * 1024) && Tight(c, [[]], 64 * 1024 * 1024)
  {
    assert Frames(c, []) == [];
  }

  lemma DropSized(c: Codec, s: State, k: Kept, before: int)
    requires Sized(c, s, k)
    ensures Sized(c, Truncate(s, before), KeptAfter(c, s, k, Drop(before)))
  {
    var left := FilesFrom(k, before);
    TightSuffix(c, k.files, |k.files| - |left|, 64 * 1024 * 1024);
    assert left == k.files[|k.files| - |left|..];
  }

  lemma {:induction false} RunSized(c: Codec, s: State, k: Kept, ops: seq<Op>)
    requires Holds(c, s, k) && Sized(c, s, k) && RunAllowed(c, s, ops)
    requires forall i :: 0 <= i < |ops| ==> !ops[i].SetMaxSize?
    ensures Sized(c, Run(c, s, ops), RunKept(c, s, k, ops))
    decreases |ops|
  {
    if ops != [] {
      OpHolds(c, s, k, ops[0]);
      OpSized(c, s, k, ops[0]);
      RunSized(c, Do(c, s, ops[0]), KeptAfter(c, s, k, ops[0]), ops[1..]);
    }
  }

  /**
   Rotation happens exactly when it must: over any run at the program's maximum size
   a file stays within 64 MB unless it holds a single record, and the next one starts
   with a record that would have taken it over 64 MB.
   */
  lemma RotatesWhenFull(c: Codec, ops: seq<Op>, s: State, k: Kept, n: nat)
    requires RunAllowed(c, Fresh(), ops) && forall i :: 0 <= i < |ops| ==> !ops[i].SetMaxSize?
    requires s == Run(c, Fresh(), ops) && k == RunKept(c, Fresh(), Kept(1, [[]]), ops) && n in s.disk
    ensures k.lo <= n < k.lo + |k.files| && s.disk[n] == Frames(c, k.files[n - k.lo])
    ensures |s.disk[n]| <= 64 * 1024 * 1024 || |k.files[n - k.lo]| == 1
    ensures n + 1 in s.disk ==>
              && n + 1 < k.lo + |k.files| && k.files[n + 1 - k.lo] != []
              && |s.disk[n]| + |Frame(c, k.files[n + 1 - k.lo][0])| > 64 * 1024 * 1024
  {
    FreshHolds(c);
    RunHolds(c, Fresh(), Kept(1, [[]]), ops);
    EmptySized(c);
    RunSized(c, Fresh(), Kept(1, [[]]), ops);
    if n + 1 in s.disk {
      assert TightAt(c, k.files, 64 * 1024 * 1024, n + 1 - k.lo);
    }
  }
}
