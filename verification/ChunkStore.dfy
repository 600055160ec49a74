/**
 Chunk files of a data node: writing at an offset, and what a whole log of writes
 leaves behind, byte by byte, whatever the files held before.
 */
module ChunkStore {
  import opened Common
  import opened WalRecords

  type Files = map<string, seq<Byte>>

  function Zeros(n: nat): (s: seq<Byte>)
    ensures |s| == n && forall i :: 0 <= i < n ==> s[i] == 0
  {
    seq(n, _ => 0)
  }

  /** Writing at `at`: a gap before it is filled with zeros; writing nothing changes nothing. */
  function Overwrite(was: seq<Byte>, data: seq<Byte>, at: nat): (r: seq<Byte>)
    ensures |r| == if data == [] || at + |data| <= |was| then |was| else at + |data|
    ensures forall p :: 0 <= p < |r| ==>
              r[p] == if at <= p < at + |data| then data[p - at] else if p < |was| then was[p] else 0
  {
    if data == [] then was
    else if at >= |was| then was + Zeros(at - |was|) + data
    else if at + |data| >= |was| then was[..at] + data
    else was[..at] + data + was[at + |data|..]
  }

  /** Only a positive offset is sought. */
  function Start(offset: int): nat {
    if offset > 0 then offset else 0
  }

  function Bytes(files: Files, chunk: string): seq<Byte> {
    if chunk in files then files[chunk] else []
  }

  function WriteChunk(files: Files, chunk: string, data: seq<Byte>, offset: int): Files {
    files[chunk := Overwrite(Bytes(files, chunk), data, Start(offset))]
  }

  /** Replaying one log entry; entries that are not writes are skipped. */
  function Store(files: Files, e: Entry): Files {
    if e.kind == Write then WriteChunk(files, e.chunk, e.data, e.offset) else files
  }

  function Replay(es: seq<Entry>, files: Files): Files {
    if es == [] then files else Store(Replay(es[..|es| - 1], files), es[|es| - 1])
  }

  /**
   Where a write lands: byte k of the data at `offset + k`, or at k if the offset is
   negative. Everything else is as it was, and a gap is zero; a write of no bytes
   leaves the bytes alone. The chunk exists afterwards and no other chunk changes.
   */
  lemma WriteLands(files: Files, chunk: string, data: seq<Byte>, offset: int, at: int)
    requires at == if offset < 0 then 0 else offset
    ensures var was, now := Bytes(files, chunk), Bytes(WriteChunk(files, chunk, data, offset), chunk);
            && |now| == (if data == [] || at + |data| <= |was| then |was| else at + |data|)
            && (forall k :: 0 <= k < |data| ==> now[at + k] == data[k])
            && (forall p :: 0 <= p < |now| && !(at <= p < at + |data|) ==> now[p] == if p < |was| then was[p] else 0)
    ensures chunk in WriteChunk(files, chunk, data, offset)
    ensures forall c :: c != chunk ==>
              && (c in WriteChunk(files, chunk, data, offset) <==> c in files)
              && Bytes(WriteChunk(files, chunk, data, offset), c) == Bytes(files, c)
  {
  }

  // ---- what a log says about one chunk ----

  predicate Writes(e: Entry, chunk: string) {
    e.kind == Write && e.chunk == chunk
  }

  predicate Touched(es: seq<Entry>, chunk: string) {
    exists i :: 0 <= i < |es| && Writes(es[i], chunk)
  }

  /** How far the writes of a log reach in a chunk. */
  function Reach(es: seq<Entry>, chunk: string): nat {
    if es == [] then 0
    else
      var before, e := Reach(es[..|es| - 1], chunk), es[|es| - 1];
      var end := if e.offset >= 0 then e.offset + |e.data| else |e.data|;
      if Writes(e, chunk) && e.data != [] && end > before then end else before
  }

  /** The entry's data lies over position p: from its offset on, or from the start if that is negative. */
  predicate Covers(e: Entry, chunk: string, p: nat) {
    Writes(e, chunk) && if e.offset >= 0 then e.offset <= p < e.offset + |e.data| else p < |e.data|
  }

  function Over(e: Entry, chunk: string, p: nat): Byte
    requires Covers(e, chunk, p)
  {
    if e.offset >= 0 then e.data[p - e.offset] else e.data[p]
  }

  /** The last byte written at a position. */
  function LastByte(es: seq<Entry>, chunk: string, p: nat): Option<Byte> {
    if es == [] then None
    else
      var e := es[|es| - 1];
      if Covers(e, chunk, p) then Some(Over(e, chunk, p)) else LastByte(es[..|es| - 1], chunk, p)
  }

  function Max(a: nat, b: nat): nat {
    if a >= b then a else b
  }

  /** The byte at a position after a replay over `old`. */
  function ByteAfter(es: seq<Entry>, chunk: string, was: seq<Byte>, p: nat): Byte {
    match LastByte(es, chunk, p)
    case Some(b) => b
    case None => if p < |was| then was[p] else 0
  }

  lemma TouchedLater(es: seq<Entry>, chunk: string)
    requires es != []
    ensures Touched(es, chunk) <==> Touched(es[..|es| - 1], chunk) || Writes(es[|es| - 1], chunk)
  {
    var front := es[..|es| - 1];
    if Touched(front, chunk) {
      var i :| 0 <= i < |front| && Writes(front[i], chunk);
      assert Writes(es[i], chunk);
    }
    if Touched(es, chunk) {
      var i :| 0 <= i < |es| && Writes(es[i], chunk);
      assert i < |front| ==> Writes(front[i], chunk);
    }
  }

  lemma StoreShape(files: Files, e: Entry, chunk: string)
    ensures chunk in Store(files, e) <==> chunk in files || Writes(e, chunk)
    ensures Bytes(Store(files, e), chunk)
         == if Writes(e, chunk) then Overwrite(Bytes(files, chunk), e.data, Start(e.offset)) else Bytes(files, chunk)
  {
  }

  /** One byte after one entry. */
  lemma StoreByte(files: Files, e: Entry, chunk: string, p: nat)
    requires p < |Bytes(Store(files, e), chunk)|
    ensures Bytes(Store(files, e), chunk)[p]
         == if Covers(e, chunk, p) then Over(e, chunk, p)
            else if p < |Bytes(files, chunk)| then Bytes(files, chunk)[p] else 0
  {
    StoreShape(files, e, chunk);
    if Writes(e, chunk) {
      OverwriteByte(Bytes(files, chunk), e.data, Start(e.offset), p);
    }
  }

  lemma OverwriteByte(was: seq<Byte>, data: seq<Byte>, at: nat, p: nat)
    requires p < |Overwrite(was, data, at)|
    ensures Overwrite(was, data, at)[p]
         == if at <= p < at + |data| then data[p - at] else if p < |was| then was[p] else 0
  {
  }

  /** A replay leaves the chunks that existed or were written, as long as the writes reach. */
  lemma {:induction false} ReplayLength(es: seq<Entry>, files: Files, chunk: string)
    ensures chunk in Replay(es, files) <==> chunk in files || Touched(es, chunk)
    ensures |Bytes(Replay(es, files), chunk)| == Max(|Bytes(files, chunk)|, Reach(es, chunk))
  {
    if es != [] {
      ReplayLength(es[..|es| - 1], files, chunk);
      TouchedLater(es, chunk);
      StoreShape(Replay(es[..|es| - 1], files), es[|es| - 1], chunk);
    }
  }

  /** Each byte after a replay is the last one written there, or else the old one. */
  lemma {:induction false} ReplayByte(es: seq<Entry>, files: Files, chunk: string, p: nat)
    requires p < |Bytes(Replay(es, files), chunk)|
    ensures Bytes(Replay(es, files), chunk)[p] == ByteAfter(es, chunk, Bytes(files, chunk), p)
  {
    if es != [] {
      var front, e := es[..|es| - 1], es[|es| - 1];
      var before := Replay(front, files);
      StoreByte(before, e, chunk, p);
      if !Covers(e, chunk, p) {
        if p < |Bytes(before, chunk)| {
          ReplayByte(front, files, chunk, p);
        } else {
          ReplayLength(front, files, chunk);
          BeyondReach(front, chunk, p);
        }
      }
    }
  }

  lemma ReplayShape(es: seq<Entry>, files: Files, chunk: string)
    ensures chunk in Replay(es, files) <==> chunk in files || Touched(es, chunk)
    ensures |Bytes(Replay(es, files), chunk)| == Max(|Bytes(files, chunk)|, Reach(es, chunk))
    ensures forall p: nat :: p < |Bytes(Replay(es, files), chunk)| ==>
              Bytes(Replay(es, files), chunk)[p] == ByteAfter(es, chunk, Bytes(files, chunk), p)
  {
    ReplayLength(es, files, chunk);
    forall p: nat | p < |Bytes(Replay(es, files), chunk)|
      ensures Bytes(Replay(es, files), chunk)[p] == ByteAfter(es, chunk, Bytes(files, chunk), p)
    {
      ReplayByte(es, files, chunk, p);
    }
  }

  /** Nothing is written at or beyond the reach. */
  lemma {:induction false} BeyondReach(es: seq<Entry>, chunk: string, p: nat)
    requires p >= Reach(es, chunk)
    ensures LastByte(es, chunk, p) == None
  {
    if es != [] {
      BeyondReach(es[..|es| - 1], chunk, p);
    }
  }

  // ---- when earlier contents do not matter ----

  /** The file holds nothing that the log would not account for. */
  predicate Accounted(es: seq<Entry>, chunk: string, bytes: seq<Byte>) {
    && Touched(es, chunk) && |bytes| <= Reach(es, chunk)
    && forall p: nat :: p < |bytes| && LastByte(es, chunk, p) == None ==> bytes[p] == 0
  }

  predicate Compatible(es: seq<Entry>, files: Files) {
    forall chunk :: chunk in files ==> Accounted(es, chunk, files[chunk])
  }

  lemma SameBytes(es: seq<Entry>, files: Files, chunk: string)
    requires chunk in files ==> Accounted(es, chunk, files[chunk])
    ensures chunk in Replay(es, files) <==> chunk in Replay(es, map[])
    ensures Bytes(Replay(es, files), chunk) == Bytes(Replay(es, map[]), chunk)
  {
    ReplayShape(es, files, chunk);
    ReplayShape(es, map[], chunk);
  }

  lemma AccountedIfSame(es: seq<Entry>, files: Files, chunk: string)
    requires Replay(es, files) == Replay(es, map[]) && chunk in files
    ensures Accounted(es, chunk, files[chunk])
  {
    ReplayShape(es, files, chunk);
    ReplayShape(es, map[], chunk);
    var bytes := files[chunk];
    forall p: nat | p < |bytes| && LastByte(es, chunk, p) == None
      ensures bytes[p] == 0
    {
      assert bytes[p] == ByteAfter(es, chunk, bytes, p) == Bytes(Replay(es, files), chunk)[p];
      assert ByteAfter(es, chunk, [], p) == 0;
    }
  }

  /** Replaying a log over old files gives what it gives over no files exactly when the old files are compatible. */
  lemma ReplayOverOld(es: seq<Entry>, files: Files)
    ensures Replay(es, files) == Replay(es, map[]) <==> Compatible(es, files)
  {
    if Compatible(es, files) {
      forall chunk
        ensures chunk in Replay(es, files) <==> chunk in Replay(es, map[])
        ensures Bytes(Replay(es, files), chunk) == Bytes(Replay(es, map[]), chunk)
      {
        SameBytes(es, files, chunk);
      }
      SameFiles(Replay(es, files), Replay(es, map[]));
    }
    if Replay(es, files) == Replay(es, map[]) {
      forall chunk | chunk in files
        ensures Accounted(es, chunk, files[chunk])
      {
        AccountedIfSame(es, files, chunk);
      }
    }
  }

  lemma SameFiles(a: Files, b: Files)
    requires forall chunk :: (chunk in a <==> chunk in b) && Bytes(a, chunk) == Bytes(b, chunk)
    ensures a == b
  {
    forall chunk | chunk in a
      ensures chunk in b && a[chunk] == b[chunk]
    {
      assert Bytes(a, chunk) == Bytes(b, chunk);
    }
    forall chunk | chunk in b
      ensures chunk in a
    {
      assert Bytes(a, chunk) == Bytes(b, chunk);
    }
  }

  // ---- torn writes ----

  /** A write of which only the first bytes arrived. */
  function Torn(files: Files, e: Entry, arrived: nat): Files {
    if e.kind == Write && arrived <= |e.data| then WriteChunk(files, e.chunk, e.data[..arrived], e.offset) else files
  }

  lemma {:induction false} MemberReaches(es: seq<Entry>, i: nat, chunk: string, p: nat)
    requires i < |es|
    ensures Writes(es[i], chunk) ==> Touched(es, chunk)
    ensures Writes(es[i], chunk) && es[i].data != [] ==>
              (if es[i].offset >= 0 then es[i].offset + |es[i].data| else |es[i].data|) <= Reach(es, chunk)
    ensures Covers(es[i], chunk, p) ==> LastByte(es, chunk, p) != None
  {
    if i < |es| - 1 {
      MemberReaches(es[..|es| - 1], i, chunk, p);
    }
  }

  /** Writing any part of a logged entry once more keeps the files compatible with the log. */
  lemma TornKeeps(es: seq<Entry>, files: Files, i: nat, arrived: nat)
    requires Compatible(es, files) && i < |es|
    ensures Compatible(es, Torn(files, es[i], arrived))
  {
    var e := es[i];
    if e.kind == Write && arrived <= |e.data| {
      var was, bytes := Bytes(files, e.chunk), Bytes(Torn(files, e, arrived), e.chunk);
      MemberReaches(es, i, e.chunk, 0);
      forall p: nat | p < |bytes| && LastByte(es, e.chunk, p) == None
        ensures bytes[p] == 0
      {
        MemberReaches(es, i, e.chunk, p);
      }
    }
  }

  lemma WholeIsTorn(files: Files, e: Entry)
    ensures Store(files, e) == Torn(files, e, |e.data|)
  {
    assert e.data[..|e.data|] == e.data;
  }

  /** A replay that stops anywhere keeps the files compatible with the whole log. */
  lemma {:induction false} PartialReplayKeeps(es: seq<Entry>, files: Files, n: nat)
    requires Compatible(es, files) && n <= |es|
    ensures Compatible(es, Replay(es[..n], files))
  {
    if n > 0 {
      PartialReplayKeeps(es, files, n - 1);
      assert es[..n][..n - 1] == es[..n - 1];
      TornKeeps(es, Replay(es[..n - 1], files), n - 1, |es[n - 1].data|);
      WholeIsTorn(Replay(es[..n - 1], files), es[n - 1]);
    }
  }

  /** Files compatible with a log stay compatible when the log grows. */
  lemma LogGrows(es: seq<Entry>, e: Entry, files: Files)
    requires Compatible(es, files)
    ensures Compatible(es + [e], files)
  {
    var longer := es + [e];
    assert longer[..|longer| - 1] == es;
    forall chunk | chunk in files
      ensures Accounted(longer, chunk, files[chunk])
    {
      TouchedLater(longer, chunk);
    }
  }
}
