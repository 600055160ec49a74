/**
 Allocation of a file's chunks: how many, how large, on which nodes; and the
 slices of the file that a client writes into them.
 */
module Placement {
  import opened Common
  import opened Replicas
  import opened Metadata

  const CHUNK_SIZE: nat := 64 * 1024 * 1024

  /** Even an empty file has one chunk. */
  function ChunkCount(fileSize: nat): (n: nat)
    ensures n >= 1
  {
    var n := (fileSize + CHUNK_SIZE - 1) / CHUNK_SIZE;
    if n == 0 then 1 else n
  }

  function SizeOf(fileSize: nat, i: nat): int {
    if i == ChunkCount(fileSize) - 1 then fileSize - i * CHUNK_SIZE else CHUNK_SIZE
  }

  /** The nodes of chunk i: consecutive ones, starting one further for every chunk. */
  function NodesOf(available: seq<string>, replicaCount: nat, i: nat): (r: seq<string>)
    requires replicaCount <= |available|
    ensures |r| == replicaCount
  {
    seq(replicaCount, j requires 0 <= j < replicaCount => available[(i + j) % |available|])
  }

  function ChunkOf(file: string, available: seq<string>, replicaCount: nat, fileSize: nat, i: nat, now: int): Chunk
    requires replicaCount <= |available|
  {
    Chunk(file, i, SizeOf(fileSize, i), "", NewReplicas(NodesOf(available, replicaCount, i), now), now)
  }

  /** Allocating chunk i is the replicated metadata's command of that name. */
  function CommandFor(file: string, available: seq<string>, replicaCount: nat, fileSize: nat, i: nat): Command
    requires replicaCount <= |available|
  {
    AllocChunk(ChunkName(file, i), file, i, SizeOf(fileSize, i), NodesOf(available, replicaCount, i))
  }

  /** Files and chunks after the first n chunks are allocated. */
  function AfterChunks(s: State, file: string, available: seq<string>, replicaCount: nat, fileSize: nat, now: int,
                       n: nat): State
    requires replicaCount <= |available|
  {
    if n == 0 then s
    else Changed(AfterChunks(s, file, available, replicaCount, fileSize, now, n - 1),
                 CommandFor(file, available, replicaCount, fileSize, n - 1), now)
  }

  /** What the client is told about a chunk: its nodes by address, the primary's first. */
  datatype Location = Location(chunk: string, index: nat, size: int, nodes: seq<string>, primary: string)

  function NodeAddress(d: DataNode): string {
    d.address + ":" + if d.port < 0 then "-" + Printed(-d.port) else Printed(d.port)
  }

  predicate AreKnown(ids: seq<string>, nodes: map<string, DataNode>) {
    forall i :: 0 <= i < |ids| ==> ids[i] in nodes
  }

  function Addresses(ids: seq<string>, nodes: map<string, DataNode>): (r: seq<string>)
    requires AreKnown(ids, nodes)
    ensures |r| == |ids|
  {
    seq(|ids|, i requires 0 <= i < |ids| => NodeAddress(nodes[ids[i]]))
  }

  function LocationOf(file: string, available: seq<string>, nodes: map<string, DataNode>, replicaCount: nat,
                      fileSize: nat, i: nat): Location
    requires replicaCount <= |available| && AreKnown(available, nodes)
  {
    var at := Addresses(NodesOf(available, replicaCount, i), nodes);
    Location(ChunkName(file, i), i, SizeOf(fileSize, i), at, if replicaCount == 0 then "" else at[0])
  }

  /** What the client is told about the first n chunks, in order. */
  function Locations(file: string, available: seq<string>, nodes: map<string, DataNode>, replicaCount: nat,
                     fileSize: nat, n: nat): (r: seq<Location>)
    requires replicaCount <= |available| && AreKnown(available, nodes)
    ensures |r| == n
  {
    seq(n, i requires 0 <= i < n => LocationOf(file, available, nodes, replicaCount, fileSize, i))
  }

  lemma OneMoreLocation(file: string, available: seq<string>, nodes: map<string, DataNode>, replicaCount: nat,
                        fileSize: nat, n: nat)
    requires replicaCount <= |available| && AreKnown(available, nodes)
    ensures Locations(file, available, nodes, replicaCount, fileSize, n + 1)
         == Locations(file, available, nodes, replicaCount, fileSize, n)
            + [LocationOf(file, available, nodes, replicaCount, fileSize, n)]
  {
  }

  ghost predicate Distinct(s: seq<string>) {
    forall i, j :: 0 <= i < j < |s| ==> s[i] != s[j]
  }

  /** Every online node once, in some order. */
  ghost predicate ListsOnline(available: seq<string>, nodes: map<string, DataNode>) {
    Distinct(available) && forall n :: n in available <==> n in nodes && nodes[n].online
  }

  // ---- the chunks tile the file ----

  lemma CountCovers(fileSize: nat)
    ensures (ChunkCount(fileSize) - 1) * CHUNK_SIZE <= fileSize <= ChunkCount(fileSize) * CHUNK_SIZE
    ensures fileSize > 0 ==> (ChunkCount(fileSize) - 1) * CHUNK_SIZE < fileSize
  {
  }

  /** What a client writes into chunk i. */
  function Slice<T>(data: seq<T>, i: nat, size: int): seq<T> {
    var start := i * CHUNK_SIZE;
    var end := if start + size > |data| then |data| else start + size;
    if start <= end then data[start..end] else []
  }

  function Slices<T>(data: seq<T>, n: nat): seq<T> {
    if n == 0 then [] else Slices(data, n - 1) + Slice(data, n - 1, SizeOf(|data|, n - 1))
  }

  lemma SliceIs<T>(data: seq<T>, i: nat)
    requires i < ChunkCount(|data|)
    ensures 0 <= SizeOf(|data|, i) <= CHUNK_SIZE && (|data| > 0 ==> SizeOf(|data|, i) > 0)
    ensures i * CHUNK_SIZE + SizeOf(|data|, i) <= |data|
    ensures Slice(data, i, SizeOf(|data|, i)) == data[i * CHUNK_SIZE..i * CHUNK_SIZE + SizeOf(|data|, i)]
  {
    CountCovers(|data|);
  }

  /** The first slices are that many full chunks of the file. */
  lemma {:induction false} SlicesAre<T>(data: seq<T>, n: nat)
    requires n < ChunkCount(|data|)
    ensures n * CHUNK_SIZE <= |data| && Slices(data, n) == data[..n * CHUNK_SIZE]
  {
    CountCovers(|data|);
    if n > 0 {
      SlicesAre(data, n - 1);
      SliceIs(data, n - 1);
      Adjacent(data, (n - 1) * CHUNK_SIZE, n * CHUNK_SIZE);
    }
  }

  lemma Adjacent<T>(data: seq<T>, a: nat, b: nat)
    requires a <= b <= |data|
    ensures data[..a] + data[a..b] == data[..b]
  {
  }

  lemma LastSize(fileSize: nat, last: nat)
    requires last == ChunkCount(fileSize) - 1
    ensures last * CHUNK_SIZE <= fileSize && SizeOf(fileSize, last) == fileSize - last * CHUNK_SIZE
  {
    CountCovers(fileSize);
  }

  lemma LastSlice<T>(data: seq<T>, last: nat)
    requires last == ChunkCount(|data|) - 1
    ensures last * CHUNK_SIZE <= |data|
    ensures Slice(data, last, SizeOf(|data|, last)) == data[last * CHUNK_SIZE..]
  {
    LastSize(|data|, last);
  }

  lemma OneMoreSlice<T>(data: seq<T>, n: nat)
    ensures Slices(data, n + 1) == Slices(data, n) + Slice(data, n, SizeOf(|data|, n))
  {
  }

  /** What the client writes, chunk after chunk, is the file. */
  lemma ChunksTileFile<T>(data: seq<T>, count: nat)
    requires count == ChunkCount(|data|)
    ensures Slices(data, count) == data
  {
    var last := count - 1;
    SlicesAre(data, last);
    LastSlice(data, last);
    OneMoreSlice(data, last);
    Halves(data, last * CHUNK_SIZE);
  }

  lemma Halves<T>(data: seq<T>, k: nat)
    requires k <= |data|
    ensures data[..k] + data[k..] == data
  {
  }

  /** Each slice is as long as its chunk: at most the chunk size, and not empty unless the file is. */
  lemma SliceFillsChunk<T>(data: seq<T>, i: nat)
    requires i < ChunkCount(|data|)
    ensures |Slice(data, i, SizeOf(|data|, i))| == SizeOf(|data|, i) <= CHUNK_SIZE
    ensures |data| > 0 ==> SizeOf(|data|, i) > 0
  {
    SliceIs(data, i);
  }

  // ---- what the master records ----

  function Names(file: string, n: nat): (r: seq<string>)
    ensures |r| == n
  {
    seq(n, i requires 0 <= i < n => ChunkName(file, i))
  }

  lemma OneMoreName(file: string, n: nat)
    ensures Names(file, n + 1) == Names(file, n) + [ChunkName(file, n)]
  {
  }

  /** Only the file's own list grows, by the names of its chunks in order. */
  lemma {:induction false} AllocationLists(s: State, s': State, file: string, available: seq<string>,
                                           replicaCount: nat, fileSize: nat, now: int, n: nat)
    requires replicaCount <= |available|
    requires s' == AfterChunks(s, file, available, replicaCount, fileSize, now, n)
    ensures s'.files == if file in s.files
                        then s.files[file := s.files[file].(chunkIds := s.files[file].chunkIds + Names(file, n))]
                        else s.files
    decreases n
  {
    if n == 0 {
      assert file in s.files ==> s.files[file].chunkIds + Names(file, 0) == s.files[file].chunkIds;
    } else {
      var s1 := AfterChunks(s, file, available, replicaCount, fileSize, now, n - 1);
      AllocationLists(s, s1, file, available, replicaCount, fileSize, now, n - 1);
      OneMoreName(file, n - 1);
      assert file in s.files ==> s1.files[file].chunkIds + [ChunkName(file, n - 1)]
                                 == s.files[file].chunkIds + Names(file, n);
    }
  }

  /** Each allocated chunk is found under its name. */
  lemma {:induction false} AllocationRecords(s: State, s': State, file: string, available: seq<string>,
                                             replicaCount: nat, fileSize: nat, now: int, n: nat, i: nat)
    requires replicaCount <= |available| && i < n
    requires s' == AfterChunks(s, file, available, replicaCount, fileSize, now, n)
    ensures ChunkName(file, i) in s'.chunks
    ensures s'.chunks[ChunkName(file, i)] == ChunkOf(file, available, replicaCount, fileSize, i, now)
    decreases n
  {
    if i < n - 1 {
      var s1 := AfterChunks(s, file, available, replicaCount, fileSize, now, n - 1);
      AllocationRecords(s, s1, file, available, replicaCount, fileSize, now, n - 1, i);
      if ChunkName(file, i) == ChunkName(file, n - 1) {
        ChunkNamesAreInjective(file, i, file, n - 1);
      }
    }
  }

  /** Every other chunk is as before. */
  lemma {:induction false} AllocationSpares(s: State, s': State, file: string, available: seq<string>,
                                            replicaCount: nat, fileSize: nat, now: int, n: nat, c: string)
    requires replicaCount <= |available| && c !in Names(file, n)
    requires s' == AfterChunks(s, file, available, replicaCount, fileSize, now, n)
    ensures c in s'.chunks <==> c in s.chunks
    ensures c in s.chunks ==> s'.chunks[c] == s.chunks[c]
    decreases n
  {
    if n > 0 {
      OneMoreName(file, n - 1);
      assert c !in Names(file, n - 1) && c != ChunkName(file, n - 1);
      var s1 := AfterChunks(s, file, available, replicaCount, fileSize, now, n - 1);
      AllocationSpares(s, s1, file, available, replicaCount, fileSize, now, n - 1, c);
    }
  }

  predicate AllIn(ids: seq<string>, chunks: map<string, Chunk>) {
    forall i :: 0 <= i < |ids| ==> ids[i] in chunks
  }

  /** What the client writes into the chunks of a list, one after the other. */
  function Written<T>(data: seq<T>, ids: seq<string>, chunks: map<string, Chunk>): seq<T>
    requires AllIn(ids, chunks)
  {
    if ids == [] then []
    else
      var last := chunks[ids[|ids| - 1]];
      Written(data, ids[..|ids| - 1], chunks) + Slice(data, last.index, last.size)
  }

  lemma {:induction false} WrittenAppends<T>(data: seq<T>, a: seq<string>, b: seq<string>, chunks: map<string, Chunk>)
    requires AllIn(a, chunks) && AllIn(b, chunks)
    ensures AllIn(a + b, chunks)
    ensures Written(data, a + b, chunks) == Written(data, a, chunks) + Written(data, b, chunks)
  {
    if b == [] {
      assert a + b == a;
    } else {
      var front, last := b[..|b| - 1], b[|b| - 1];
      WrittenAppends(data, a, front, chunks);
      WrittenStep(data, a, front, last, b, chunks);
    }
  }

  lemma WrittenStep<T>(data: seq<T>, a: seq<string>, front: seq<string>, last: string, b: seq<string>,
                       chunks: map<string, Chunk>)
    requires AllIn(a, chunks) && AllIn(front, chunks) && AllIn(a + front, chunks) && last in chunks
    requires b == front + [last]
    requires Written(data, a + front, chunks) == Written(data, a, chunks) + Written(data, front, chunks)
    ensures AllIn(b, chunks) && AllIn(a + b, chunks)
    ensures Written(data, a + b, chunks) == Written(data, a, chunks) + Written(data, b, chunks)
  {
    Associate(a, front, [last]);
    WrittenOneMore(data, front, last, b, chunks);
    WrittenOneMore(data, a + front, last, a + b, chunks);
    Associate(Written(data, a, chunks), Written(data, front, chunks),
              Slice(data, chunks[last].index, chunks[last].size));
  }

  lemma Associate<T>(x: seq<T>, y: seq<T>, z: seq<T>)
    ensures x + y + z == x + (y + z)
  {
  }

  lemma WrittenOneMore<T>(data: seq<T>, ids: seq<string>, id: string, all: seq<string>, chunks: map<string, Chunk>)
    requires AllIn(ids, chunks) && id in chunks && all == ids + [id]
    ensures AllIn(all, chunks)
    ensures Written(data, all, chunks) == Written(data, ids, chunks) + Slice(data, chunks[id].index, chunks[id].size)
  {
    assert all[..|ids|] == ids;
  }

  /** The named chunks, as they are allocated, take the first slices. */
  lemma {:induction false} NamedWritten<T>(data: seq<T>, file: string, chunks: map<string, Chunk>, n: nat)
    requires forall i: nat :: i < n ==> ChunkName(file, i) in chunks
    requires forall i: nat :: i < n ==> chunks[ChunkName(file, i)].index == i
    requires forall i: nat :: i < n ==> chunks[ChunkName(file, i)].size == SizeOf(|data|, i)
    ensures Written(data, Names(file, n), chunks) == Slices(data, n)
  {
    if n > 0 {
      assert Names(file, n)[..n - 1] == Names(file, n - 1);
      NamedWritten(data, file, chunks, n - 1);
    }
  }

  lemma {:induction false} NothingWritten<T>(data: seq<T>, ids: seq<string>, chunks: map<string, Chunk>)
    requires data == [] && AllIn(ids, chunks)
    ensures Written(data, ids, chunks) == []
  {
    if ids != [] {
      NothingWritten(data, ids[..|ids| - 1], chunks);
    }
  }

  /** A list that starts with the file's first chunk takes something of every file that is not empty. */
  lemma SomethingWritten<T>(data: seq<T>, ids: seq<string>, chunks: map<string, Chunk>)
    requires data != [] && ids != [] && AllIn(ids, chunks)
    requires chunks[ids[0]].index == 0 && chunks[ids[0]].size == SizeOf(|data|, 0)
    ensures Written(data, ids, chunks) != []
  {
    assert ids == ids[..1] + ids[1..];
    WrittenAppends(data, ids[..1], ids[1..], chunks);
    SliceFillsChunk(data, 0);
    assert Written(data, ids[..1], chunks) == Written(data, [], chunks) + Slice(data, 0, SizeOf(|data|, 0));
  }

  /**
   After an allocation the chunks that a known file lists, in order, take exactly
   the file, if and only if the file listed none before: allocating a second time
   lists every chunk again. Only for an empty file that does not matter.
   */
  lemma ListedChunksHoldFile<T>(s: State, s': State, file: string, available: seq<string>, replicaCount: nat,
                                data: seq<T>, now: int)
    requires replicaCount <= |available| && file in s.files
    requires s' == AfterChunks(s, file, available, replicaCount, |data|, now, ChunkCount(|data|))
    requires AllIn(s.files[file].chunkIds, s.chunks)
    requires s.files[file].chunkIds != [] ==> s.files[file].chunkIds[0] == ChunkName(file, 0)
    ensures file in s'.files && AllIn(s'.files[file].chunkIds, s'.chunks)
    ensures Written(data, s'.files[file].chunkIds, s'.chunks) == data <==> s.files[file].chunkIds == [] || data == []
  {
    var count, ids := ChunkCount(|data|), s.files[file].chunkIds;
    AllocationLists(s, s', file, available, replicaCount, |data|, now, count);
    forall i: nat | i < count
      ensures ChunkName(file, i) in s'.chunks
      ensures s'.chunks[ChunkName(file, i)] == ChunkOf(file, available, replicaCount, |data|, i, now)
    {
      AllocationRecords(s, s', file, available, replicaCount, |data|, now, count, i);
    }
    NamedWritten(data, file, s'.chunks, count);
    ChunksTileFile(data, count);
    forall i | 0 <= i < |ids|
      ensures ids[i] in s'.chunks
    {
      if ids[i] !in Names(file, count) {
        AllocationSpares(s, s', file, available, replicaCount, |data|, now, count, ids[i]);
      }
    }
    WrittenAppends(data, ids, Names(file, count), s'.chunks);
    if data == [] {
      NothingWritten(data, ids, s'.chunks);
    } else if ids != [] {
      SomethingWritten(data, ids, s'.chunks);
    }
  }

  /** Allocation for one file touches neither the list nor the chunks of any other, and keeps integrity. */
  lemma {:induction false} OtherFilesUntouched(s: State, s': State, file: string, available: seq<string>,
                                               replicaCount: nat, fileSize: nat, now: int, n: nat, g: string)
    requires replicaCount <= |available| && Integrity(s) && ChunksNamed(s) && g in s.files && g != file
    requires s' == AfterChunks(s, file, available, replicaCount, fileSize, now, n)
    ensures Integrity(s') && ChunksNamed(s')
    ensures g in s'.files && s'.files[g] == s.files[g]
    ensures forall c :: c in s.files[g].chunkIds ==> c in s'.chunks && s'.chunks[c] == s.chunks[c]
    decreases n
  {
    if n > 0 {
      var s1 := AfterChunks(s, file, available, replicaCount, fileSize, now, n - 1);
      OtherFilesUntouched(s, s1, file, available, replicaCount, fileSize, now, n - 1, g);
      CommandKeeps(s1, CommandFor(file, available, replicaCount, fileSize, n - 1), now);
      assert FileSound(s1.files, s1.chunks, g);
    } else {
      assert FileSound(s.files, s.chunks, g);
    }
  }

  // ---- the master over whole runs ----

  /** What changes the master's tables: a new file, an allocation, and news of a node. */
  datatype Event =
    | PutFile(id: string, name: string, path: string, size: int)
    | Allocation(file: string, fileSize: nat, available: seq<string>)
    | NodeNews(id: string, node: DataNode)

  function Served(s: State, e: Event, replicaCount: nat, now: int): State {
    match e
    case PutFile(id, name, path, size) => Changed(s, CreateFile(id, name, path, size), now)
    case Allocation(file, fileSize, available) =>
      if |available| < replicaCount then s
      else AfterChunks(s, file, available, replicaCount, fileSize, now, ChunkCount(fileSize))
    case NodeNews(id, node) => s.(nodes := s.nodes[id := node])
  }

  function MasterAfter(events: seq<(Event, int)>, replicaCount: nat): State {
    if events == [] then Empty()
    else
      Served(MasterAfter(events[..|events| - 1], replicaCount), events[|events| - 1].0, replicaCount,
             events[|events| - 1].1)
  }

  /** A list of chunks starts with the first one of its file. */
  ghost predicate StartsFirst(files: map<string, File>) {
    forall f :: f in files && files[f].chunkIds != [] ==> files[f].chunkIds[0] == ChunkName(f, 0)
  }

  lemma {:induction false} AllocationIsSound(s: State, s': State, file: string, available: seq<string>,
                                             replicaCount: nat, fileSize: nat, now: int, n: nat)
    requires replicaCount <= |available| && Integrity(s) && ChunksNamed(s)
    requires s' == AfterChunks(s, file, available, replicaCount, fileSize, now, n)
    ensures Integrity(s') && ChunksNamed(s')
    decreases n
  {
    if n > 0 {
      var s1 := AfterChunks(s, file, available, replicaCount, fileSize, now, n - 1);
      AllocationIsSound(s, s1, file, available, replicaCount, fileSize, now, n - 1);
      CommandKeeps(s1, CommandFor(file, available, replicaCount, fileSize, n - 1), now);
    }
  }

  lemma EventKeeps(s: State, e: Event, replicaCount: nat, now: int)
    requires Integrity(s) && ChunksNamed(s) && StartsFirst(s.files)
    ensures var s' := Served(s, e, replicaCount, now);
            Integrity(s') && ChunksNamed(s') && StartsFirst(s'.files)
  {
    match e
    case PutFile(id, name, path, size) => CommandKeeps(s, CreateFile(id, name, path, size), now);
    case Allocation(file, fileSize, available) =>
      if replicaCount <= |available| {
        var s' := Served(s, e, replicaCount, now);
        AllocationIsSound(s, s', file, available, replicaCount, fileSize, now, ChunkCount(fileSize));
        AllocationLists(s, s', file, available, replicaCount, fileSize, now, ChunkCount(fileSize));
        assert Names(file, ChunkCount(fileSize))[0] == ChunkName(file, 0);
      }
    case NodeNews(id, node) =>
      forall f | f in s.files
        ensures FileSound(s.files, s.chunks, f)
      {
      }
  }

  /** In every reachable state of the master, listed chunks exist and belong to their file, the first one first. */
  lemma {:induction false} MasterStaysSound(events: seq<(Event, int)>, replicaCount: nat)
    ensures var s := MasterAfter(events, replicaCount);
            Integrity(s) && ChunksNamed(s) && StartsFirst(s.files)
  {
    if events != [] {
      var front, last := events[..|events| - 1], events[|events| - 1];
      MasterStaysSound(front, replicaCount);
      EventKeeps(MasterAfter(front, replicaCount), last.0, replicaCount, last.1);
    }
  }

  /** So in every reachable state the chunks a file lists take it exactly when it listed none, or is empty. */
  lemma UploadFillsChunks<T>(events: seq<(Event, int)>, replicaCount: nat, file: string, available: seq<string>,
                             data: seq<T>, now: int)
    requires replicaCount <= |available| && file in MasterAfter(events, replicaCount).files
    ensures var s := MasterAfter(events, replicaCount);
            var s' := Served(s, Allocation(file, |data|, available), replicaCount, now);
            && file in s'.files && AllIn(s'.files[file].chunkIds, s'.chunks)
            && (Written(data, s'.files[file].chunkIds, s'.chunks) == data
                <==> s.files[file].chunkIds == [] || data == [])
  {
    var s := MasterAfter(events, replicaCount);
    MasterStaysSound(events, replicaCount);
    assert FileSound(s.files, s.chunks, file);
    ListedChunksHoldFile(s, Served(s, Allocation(file, |data|, available), replicaCount, now), file, available,
                         replicaCount, data, now);
  }

  // ---- placement ----

  lemma ShiftedApart(i: nat, j: nat, k: nat, n: nat)
    requires j < k < n
    ensures (i + j) % n != (i + k) % n
  {
    if (i + j) % n == (i + k) % n {
      var a, b := (i + j) / n, (i + k) / n;
      assert k - j == n * (b - a);
      NoMultipleBetween(n, b - a, k - j);
    }
  }

  lemma NoMultipleBetween(n: nat, q: int, d: int)
    requires 0 < d < n
    ensures d != n * q
  {
    if q >= 1 {
      assert n * q >= n;
    } else {
      assert n * q <= 0;
    }
  }

  /** Each chunk has exactly the wanted number of replicas, on different nodes, and only the first one is primary. */
  lemma ReplicasAreDistinct(file: string, available: seq<string>, replicaCount: nat, fileSize: nat, i: nat, now: int)
    requires replicaCount <= |available| && Distinct(available)
    ensures var r := ChunkOf(file, available, replicaCount, fileSize, i, now).replicas;
            && |r| == replicaCount
            && (forall j, k :: 0 <= j < k < |r| ==> r[j].node != r[k].node)
            && (forall j :: 0 <= j < |r| ==> r[j].node in available && (r[j].role == Primary <==> j == 0))
  {
    var nodes := NodesOf(available, replicaCount, i);
    forall j, k | 0 <= j < k < |nodes|
      ensures nodes[j] != nodes[k]
    {
      ShiftedApart(i, j, k, |available|);
    }
  }

  /** Chunk i starts at node i of the listing, and its replicas lie on the nodes that follow, around the end. */
  lemma NodesFollow(available: seq<string>, replicaCount: nat, i: nat, j: nat)
    requires i < |available| && j < replicaCount <= |available|
    ensures NodesOf(available, replicaCount, i)[j]
         == if i + j < |available| then available[i + j] else available[i + j - |available|]
  {
    if i + j < |available| {
      DivMod(i + j, |available|, 0, i + j);
    } else {
      DivMod(i + j, |available|, 1, i + j - |available|);
    }
  }

  /** The answer agrees with the record: same name, index and size, and the address of each replica's node in order. */
  lemma AnswerMatchesRecord(file: string, available: seq<string>, nodes: map<string, DataNode>, replicaCount: nat,
                            fileSize: nat, i: nat, now: int)
    requires replicaCount <= |available| && AreKnown(available, nodes)
    ensures var l, c := LocationOf(file, available, nodes, replicaCount, fileSize, i),
                        ChunkOf(file, available, replicaCount, fileSize, i, now);
            && l.chunk == ChunkName(c.file, c.index) && l.index == c.index && l.size == c.size
            && |l.nodes| == |c.replicas|
            && (forall j :: 0 <= j < |l.nodes| ==>
                  c.replicas[j].node in nodes && l.nodes[j] == NodeAddress(nodes[c.replicas[j].node])
                  && (c.replicas[j].role == Primary ==> l.primary == l.nodes[j]))
  {
  }

  /** In how many of the first n chunks a node is the replica at position j. */
  function Load(available: seq<string>, replicaCount: nat, j: nat, node: string, n: nat): nat
    requires j < replicaCount <= |available|
  {
    if n == 0 then 0
    else Load(available, replicaCount, j, node, n - 1)
         + if NodesOf(available, replicaCount, n - 1)[j] == node then 1 else 0
  }

  /** How many of the numbers from j to j + n - 1 leave remainder k. */
  function Hits(j: nat, n: nat, m: nat, k: nat): nat
    requires m > 0
  {
    if n == 0 then 0 else Hits(j, n - 1, m, k) + if (j + n - 1) % m == k then 1 else 0
  }

  /** How many of the numbers below x leave remainder k. */
  function HitsBelow(x: nat, m: nat, k: nat): nat
    requires m > 0
  {
    x / m + if k < x % m then 1 else 0
  }

  lemma OneMore(x: nat, m: nat, k: nat)
    requires k < m
    ensures HitsBelow(x + 1, m, k) == HitsBelow(x, m, k) + if x % m == k then 1 else 0
  {
    var q, r := x / m, x % m;
    assert x == m * q + r;
    if r + 1 < m {
      DivMod(x + 1, m, q, r + 1);
    } else {
      DivMod(x + 1, m, q + 1, 0);
    }
  }

  lemma Distribute(m: nat, a: nat, b: nat)
    ensures m * (a + b) == m * a + m * b
  {
  }

  lemma LargerProduct(m: nat, a: nat, b: nat)
    requires a < b
    ensures m * a + m <= m * b
  {
    Distribute(m, a, 1);
    Distribute(m, a + 1, b - a - 1);
  }

  lemma DivMod(x: nat, m: nat, q: nat, r: nat)
    requires m > 0 && r < m && x == m * q + r
    ensures x / m == q && x % m == r
  {
    QuotientIs(x, m, x / m, x % m, q, r);
  }

  lemma QuotientIs(x: nat, m: nat, k: nat, s: nat, q: nat, r: nat)
    requires r < m && s < m && x == m * q + r == m * k + s
    ensures k == q
  {
    if k < q {
      LargerProduct(m, k, q);
    } else if q < k {
      LargerProduct(m, q, k);
    }
  }

  lemma {:induction false} HitsAre(j: nat, n: nat, m: nat, k: nat)
    requires k < m
    ensures Hits(j, n, m, k) == HitsBelow(j + n, m, k) - HitsBelow(j, m, k)
  {
    if n > 0 {
      HitsAre(j, n - 1, m, k);
      OneMore(j + n - 1, m, k);
    }
  }

  lemma {:induction false} LoadIsHits(available: seq<string>, replicaCount: nat, j: nat, k: nat, n: nat)
    requires j < replicaCount <= |available| && Distinct(available) && k < |available|
    ensures Load(available, replicaCount, j, available[k], n) == Hits(j, n, |available|, k)
  {
    if n > 0 {
      LoadIsHits(available, replicaCount, j, k, n - 1);
    }
  }

  lemma SumParts(x: nat, n: nat, m: nat, a: nat, b: nat, q: nat, r: nat)
    requires x == m * a + b && n == m * q + r
    ensures x + n == m * (a + q) + (b + r) == m * (a + q + 1) + (b + r - m)
  {
    Distribute(m, a, q);
    Distribute(m, a + q, 1);
  }

  /** Quotient and remainder of a sum. */
  lemma SumOf(x: nat, n: nat, m: nat)
    requires m > 0
    ensures var (b, r) := (x % m, n % m);
            if b + r < m then (x + n) / m == x / m + n / m && (x + n) % m == b + r
            else (x + n) / m == x / m + n / m + 1 && (x + n) % m == b + r - m
  {
    var a, b, q, r := x / m, x % m, n / m, n % m;
    SumParts(x, n, m, a, b, q, r);
    if b + r < m {
      DivMod(x + n, m, a + q, b + r);
    } else {
      DivMod(x + n, m, a + q + 1, b + r - m);
    }
  }

  lemma Ceiling(n: nat, m: nat)
    requires m > 0
    ensures (n + m - 1) / m == n / m + if n % m > 0 then 1 else 0
  {
    DivMod(m - 1, m, 0, m - 1);
    SumOf(n, m - 1, m);
  }

  lemma Between(x: nat, n: nat, m: nat, k: nat)
    requires k < m
    ensures n / m <= HitsBelow(x + n, m, k) - HitsBelow(x, m, k) <= (n + m - 1) / m
  {
    SumOf(x, n, m);
    Ceiling(n, m);
  }

  /**
   Within one file, every node is primary of the floor or the ceiling of C / n
   of the C chunks, and likewise at every other replica position.
   */
  lemma PlacementIsBalanced(available: seq<string>, replicaCount: nat, fileSize: nat, j: nat, node: string)
    requires j < replicaCount <= |available| && Distinct(available) && node in available
    ensures var (c, n) := (ChunkCount(fileSize), |available|);
            c / n <= Load(available, replicaCount, j, node, c) <= (c + n - 1) / n
  {
    var k :| 0 <= k < |available| && available[k] == node;
    LoadIsHits(available, replicaCount, j, k, ChunkCount(fileSize));
    HitsAre(j, ChunkCount(fileSize), |available|, k);
    Between(j, ChunkCount(fileSize), |available|, k);
  }
}

/** The master as an object: its tables of files, chunks and data nodes. */
module MasterStore {
  import opened Common
  import opened Replicas
  import opened Metadata
  import opened Placement

  class Master {
    const replicaCount: nat

    var files: map<string, File>
    var chunks: map<string, Chunk>
    var datanodes: map<string, DataNode>

    ghost function View(): State
      reads this
    {
      State(files, chunks, datanodes, 0)
    }

    constructor (replicaCount: nat)
      ensures View() == Empty() && this.replicaCount == replicaCount
    {
      this.replicaCount := replicaCount;
      files, chunks, datanodes := map[], map[], map[];
    }

    /** A new file lists no chunk yet. Its name comes from the clock. */
    method PutFile(id: string, name: string, path: string, size: int, now: int)
      modifies this`files
      ensures View() == Changed(old(View()), CreateFile(id, name, path, size), now)
    {
      files := files[id := File(name, path, size, [], now, now)];
    }

    /** The online nodes, in whatever order the table yields them. */
    method OnlineNodes() returns (available: seq<string>)
      ensures ListsOnline(available, datanodes)
    {
      available := [];
      var rest := datanodes.Keys;
      while rest != {}
        invariant rest <= datanodes.Keys && Distinct(available)
        invariant forall n :: n in available <==> n in datanodes.Keys - rest && datanodes[n].online
        decreases rest
      {
        var n :| n in rest;
        rest := rest - {n};
        if datanodes[n].online {
          available := available + [n];
        }
      }
    }

    /** The replicas of chunk i and the addresses of their nodes. */
    method PlaceReplicas(available: seq<string>, i: nat, now: int) returns (nodes: seq<string>, replicas: seq<Replica>)
      requires replicaCount <= |available| && AreKnown(available, datanodes)
      ensures nodes == Addresses(NodesOf(available, replicaCount, i), datanodes)
      ensures replicas == NewReplicas(NodesOf(available, replicaCount, i), now)
    {
      ghost var picked := NodesOf(available, replicaCount, i);
      nodes, replicas := [], [];
      var j := 0;
      while j < replicaCount && j < |available|
        invariant 0 <= j <= replicaCount
        invariant AreKnown(picked, datanodes)
        invariant nodes == Addresses(picked[..j], datanodes) && replicas == NewReplicas(picked[..j], now)
      {
        var idx := (i + j) % |available|;
        assert picked[..j + 1] == picked[..j] + [available[idx]];
        nodes := nodes + [NodeAddress(datanodes[available[idx]])];
        replicas := replicas + [Replica(available[idx], if j == 0 then Primary else Secondary, 0, Healthy, now)];
        j := j + 1;
      }
      assert picked[..j] == picked;
    }

    /** One turn of the allocation loop. */
    method AllocateChunk(file: string, fileSize: nat, count: nat, online: seq<string>, i: nat, now: int)
      returns (location: Location)
      requires count == ChunkCount(fileSize) && replicaCount <= |online| && AreKnown(online, datanodes)
      modifies this`files, this`chunks
      ensures View() == Changed(old(View()), CommandFor(file, online, replicaCount, fileSize, i), now)
      ensures location == LocationOf(file, online, datanodes, replicaCount, fileSize, i)
    {
      var size: int := CHUNK_SIZE;
      if i == count - 1 {
        size := fileSize - i * CHUNK_SIZE;
      }
      var nodes, replicas := PlaceReplicas(online, i, now);
      var chunk := ChunkName(file, i);
      location := Location(chunk, i, size, nodes, if |nodes| > 0 then nodes[0] else "");
      chunks := chunks[chunk := Chunk(file, i, size, "", replicas, now)];
      if file in files {
        files := files[file := files[file].(chunkIds := files[file].chunkIds + [chunk])];
      }
    }

    /** The chunks of a file of the given size, or None when there are not enough nodes. */
    method AllocateChunks(file: string, fileSize: nat, now: int)
      returns (r: Option<seq<Location>>, ghost available: seq<string>)
      modifies this`files, this`chunks
      ensures ListsOnline(available, datanodes) && AreKnown(available, datanodes)
      ensures r.None? <==> |available| < replicaCount
      ensures r.None? ==> View() == old(View())
      ensures r.Some? ==>
                && View()
                   == AfterChunks(old(View()), file, available, replicaCount, fileSize, now, ChunkCount(fileSize))
                && r.value == Locations(file, available, datanodes, replicaCount, fileSize, ChunkCount(fileSize))
    {
      var count := (fileSize + CHUNK_SIZE - 1) / CHUNK_SIZE;
      if count == 0 {
        count := 1;
      }
      var online := OnlineNodes();
      if |online| < replicaCount {
        return None, online;
      }
      var locations := [];
      for i := 0 to count
        invariant locations == Locations(file, online, datanodes, replicaCount, fileSize, i)
        invariant View() == AfterChunks(old(View()), file, online, replicaCount, fileSize, now, i)
      {
        var location := AllocateChunk(file, fileSize, count, online, i, now);
        OneMoreLocation(file, online, datanodes, replicaCount, fileSize, i);
        locations := locations + [location];
      }
      return Some(locations), online;
    }
  }
}
