/**
 Records of a log file: eight bytes of length, most significant first, then the
 encoded entry. The encoding of entries is a parameter.
 */
module WalRecords {
  import opened Common

  type Byte = b: int | 0 <= b < 256

  datatype EntryKind = Write | Delete | Sync

  datatype Entry = Entry(kind: EntryKind, chunk: string, data: seq<Byte>, offset: int, version: int,
                         checksum: string, timestamp: int)

  datatype Codec = Codec(encode: Entry -> seq<Byte>, decode: seq<Byte> -> Option<Entry>)

  const HEADER: nat := 8
  const LENGTHS: nat := 0x1_0000_0000_0000_0000

  /** Of these entries, decoding undoes encoding, and the length of the encoding fits its header. */
  ghost predicate Faithful(c: Codec, es: seq<Entry>) {
    forall e :: e in es ==> c.decode(c.encode(e)) == Some(e) && |c.encode(e)| < LENGTHS
  }

  /** The first position of an entry; the length when it does not occur. */
  function Position(es: seq<Entry>, e: Entry): (i: nat)
    ensures i <= |es| && (i < |es| ==> es[i] == e) && (e in es ==> i < |es|)
  {
    if es == [] || es[0] == e then 0 else 1 + Position(es[1..], e)
  }

  /** There is a faithful codec for any entries that a log can hold: one that encodes an entry by its position. */
  lemma SomeCodecIsFaithful(es: seq<Entry>) returns (c: Codec)
    requires |es| <= LENGTHS
    ensures Faithful(c, es)
  {
    c := Codec(e => seq(Position(es, e), _ => 0), bytes => if |bytes| < |es| then Some(es[|bytes|]) else None);
  }

  function BigEndian(n: nat, width: nat): (s: seq<Byte>)
    ensures |s| == width
  {
    if width == 0 then [] else BigEndian(n / 256, width - 1) + [n % 256]
  }

  function Number(s: seq<Byte>): nat {
    if s == [] then 0 else 256 * Number(s[..|s| - 1]) + s[|s| - 1]
  }

  function Pow256(w: nat): nat {
    if w == 0 then 1 else 256 * Pow256(w - 1)
  }

  lemma {:induction false} NumberReadsBack(n: nat, w: nat)
    requires n < Pow256(w)
    ensures Number(BigEndian(n, w)) == n
  {
    if w > 0 {
      NumberReadsBack(n / 256, w - 1);
      assert BigEndian(n, w)[..w - 1] == BigEndian(n / 256, w - 1);
    }
  }

  /** The byte of n that counts 256 to the power j. */
  function ByteOf(n: nat, j: nat): Byte {
    if j == 0 then n % 256 else ByteOf(n / 256, j - 1)
  }

  /** A header ends with the byte that counts ones, before it the byte that counts 256s, and so on. */
  lemma {:induction false} HeaderBytes(n: nat, w: nat, j: nat)
    requires j < w
    ensures BigEndian(n, w)[w - 1 - j] == ByteOf(n, j)
  {
    if j > 0 {
      HeaderBytes(n / 256, w - 1, j - 1);
    }
  }

  lemma EveryLengthFits(n: nat)
    requires n < LENGTHS
    ensures Number(BigEndian(n, HEADER)) == n
  {
    assert Pow256(4) == 0x1_0000_0000;
    NumberReadsBack(n, HEADER);
  }

  function Frame(c: Codec, e: Entry): seq<Byte> {
    BigEndian(|c.encode(e)|, HEADER) + c.encode(e)
  }

  /** The content of a file to which `es` were appended. */
  function Frames(c: Codec, es: seq<Entry>): seq<Byte> {
    if es == [] then [] else Frame(c, es[0]) + Frames(c, es[1..])
  }

  /** The first record of a file, with the bytes after it; None when it is cut short or does not decode. */
  function FirstRecord(c: Codec, bytes: seq<Byte>): (r: Option<(Entry, seq<Byte>)>)
    ensures r.Some? ==> |r.value.1| < |bytes|
  {
    if |bytes| < HEADER then None
    else
      var length := Number(bytes[..HEADER]);
      if |bytes| - HEADER < length then None
      else
        match c.decode(bytes[HEADER..HEADER + length])
        case None => None
        case Some(e) => Some((e, bytes[HEADER + length..]))
  }

  /** Reading a whole file: all its records, or an error. */
  function Parse(c: Codec, bytes: seq<Byte>): Option<seq<Entry>>
    decreases |bytes|
  {
    if bytes == [] then Some([])
    else
      match FirstRecord(c, bytes)
      case None => None
      case Some((e, rest)) =>
        Prepended([e], Parse(c, rest))
  }

  function Prepended(front: seq<Entry>, r: Option<seq<Entry>>): Option<seq<Entry>> {
    match r
    case None => None
    case Some(es) => Some(front + es)
  }

  lemma PrependedTwice(a: seq<Entry>, b: seq<Entry>, r: Option<seq<Entry>>)
    ensures Prepended(a, Prepended(b, r)) == Prepended(a + b, r)
    ensures Prepended([], r) == r
  {
    if r.Some? {
      assert a + (b + r.value) == a + b + r.value;
      assert [] + r.value == r.value;
    }
  }

  /** The read loop of a file: header, body, next record, until the end of the file. */
  method ReadFile(c: Codec, bytes: seq<Byte>) returns (r: Option<seq<Entry>>)
    ensures r == Parse(c, bytes)
  {
    var rest, entries := bytes, [];
    PrependedTwice([], [], Parse(c, bytes));
    while rest != []
      invariant Parse(c, bytes) == Prepended(entries, Parse(c, rest))
      decreases |rest|
    {
      if |rest| < HEADER {
        return None;
      }
      var length := Number(rest[..HEADER]);
      if |rest| - HEADER < length {
        return None;
      }
      var entry := c.decode(rest[HEADER..HEADER + length]);
      if entry == None {
        return None;
      }
      PrependedTwice(entries, [entry.value], Parse(c, rest[HEADER + length..]));
      entries := entries + [entry.value];
      rest := rest[HEADER + length..];
    }
    assert entries + [] == entries;
    return Some(entries);
  }

  // ---- round trip and torn files ----

  lemma WholeRecord(c: Codec, e: Entry, rest: seq<Byte>)
    requires Faithful(c, [e])
    ensures FirstRecord(c, Frame(c, e) + rest) == Some((e, rest))
  {
    var bytes, body := Frame(c, e) + rest, c.encode(e);
    assert e in [e];
    EveryLengthFits(|body|);
    assert bytes[..HEADER] == BigEndian(|body|, HEADER);
    assert bytes[HEADER..HEADER + |body|] == body;
    assert bytes[HEADER + |body|..] == rest;
  }

  lemma CutRecord(c: Codec, e: Entry, cut: nat)
    requires Faithful(c, [e]) && 0 < cut < |Frame(c, e)|
    ensures Parse(c, Frame(c, e)[..cut]) == None
  {
    var bytes, body := Frame(c, e)[..cut], c.encode(e);
    assert e in [e];
    EveryLengthFits(|body|);
    if cut >= HEADER {
      assert bytes[..HEADER] == BigEndian(|body|, HEADER);
    }
  }

  /** Appended entries are read back one for one, in order. */
  lemma {:induction false} FileRoundTrip(c: Codec, es: seq<Entry>)
    requires Faithful(c, es)
    ensures Parse(c, Frames(c, es)) == Some(es)
  {
    if es != [] {
      WholeRecord(c, es[0], Frames(c, es[1..]));
      FileRoundTrip(c, es[1..]);
      assert [es[0]] + es[1..] == es;
    }
  }

  /** The cut falls after the k-th record. */
  predicate Boundary(c: Codec, es: seq<Entry>, k: nat, cut: nat) {
    k <= |es| && cut == |Frames(c, es[..k])|
  }

  ghost predicate AtBoundary(c: Codec, es: seq<Entry>, cut: nat) {
    exists k: nat :: Boundary(c, es, k, cut)
  }

  /** A boundary of the later records is a boundary of the file. */
  lemma LaterBoundary(c: Codec, es: seq<Entry>, cut: nat)
    requires es != [] && cut >= |Frame(c, es[0])| && AtBoundary(c, es[1..], cut - |Frame(c, es[0])|)
    ensures AtBoundary(c, es, cut)
  {
    var rest, left := es[1..], cut - |Frame(c, es[0])|;
    var k: nat :| Boundary(c, rest, k, left);
    assert es[..k + 1] == [es[0]] + rest[..k];
    assert Boundary(c, es, k + 1, cut);
  }

  lemma CutFrames(c: Codec, es: seq<Entry>, cut: nat)
    requires es != [] && cut <= |Frames(c, es)|
    ensures var first := Frame(c, es[0]);
            Frames(c, es)[..cut] == if cut < |first| then first[..cut] else first + Frames(c, es[1..])[..cut - |first|]
  {
  }

  /** A file cut at a record boundary gives exactly the entries before the cut. */
  lemma {:induction false} TornAtBoundary(c: Codec, es: seq<Entry>, k: nat, cut: nat)
    requires Faithful(c, es) && Boundary(c, es, k, cut)
    ensures cut <= |Frames(c, es)| && Parse(c, Frames(c, es)[..cut]) == Some(es[..k])
  {
    FramesPrefix(c, es, k);
    assert Frames(c, es)[..cut] == Frames(c, es[..k]);
    FileRoundTrip(c, es[..k]);
  }

  lemma {:induction false} FramesPrefix(c: Codec, es: seq<Entry>, k: nat)
    requires k <= |es|
    ensures Frames(c, es[..k]) <= Frames(c, es)
  {
    if k > 0 {
      assert es[..k][1..] == es[1..][..k - 1];
      FramesPrefix(c, es[1..], k - 1);
    }
  }

  /** A file cut anywhere else does not read at all. */
  lemma {:induction false} TornInside(c: Codec, es: seq<Entry>, cut: nat)
    requires Faithful(c, es) && cut <= |Frames(c, es)| && !AtBoundary(c, es, cut)
    ensures Parse(c, Frames(c, es)[..cut]) == None
  {
    if es == [] || cut == 0 {
      assert Boundary(c, es, 0, 0);
    } else if cut < |Frame(c, es[0])| {
      CutFrames(c, es, cut);
      CutRecord(c, es[0], cut);
    } else {
      var first := Frame(c, es[0]);
      CutFrames(c, es, cut);
      if AtBoundary(c, es[1..], cut - |first|) {
        LaterBoundary(c, es, cut);
      }
      TornInside(c, es[1..], cut - |first|);
      WholeRecord(c, es[0], Frames(c, es[1..])[..cut - |first|]);
    }
  }

  /** A torn file reads exactly when it was cut at a record boundary, and then no entry is wrong or missing. */
  lemma TornFile(c: Codec, es: seq<Entry>, cut: nat)
    requires Faithful(c, es) && cut <= |Frames(c, es)|
    ensures Parse(c, Frames(c, es)[..cut]).Some? <==> AtBoundary(c, es, cut)
    ensures forall k: nat :: Boundary(c, es, k, cut) ==> Parse(c, Frames(c, es)[..cut]) == Some(es[..k])
  {
    forall k: nat | Boundary(c, es, k, cut)
      ensures Parse(c, Frames(c, es)[..cut]) == Some(es[..k])
    {
      TornAtBoundary(c, es, k, cut);
    }
    if !AtBoundary(c, es, cut) {
      TornInside(c, es, cut);
    }
  }
}
