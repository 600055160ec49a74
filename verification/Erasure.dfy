/**
 Striping with XOR parity. The shards of an encoding, and what decoding makes of
 any collection of possibly lost, damaged, repeated or reordered shards.
 */
module Erasure {
  import opened Common

  type Bytes = seq<bv8>
  type Hash = Bytes -> string

  datatype Shard = Shard(index: int, data: Bytes, checksum: string, isParity: bool)

  datatype Shape = Shape(dataShards: nat, parityShards: nat)

  /** An encoder exists only for at least one data shard. */
  type Config = c: Shape | c.dataShards >= 1 witness Shape(3, 1)

  function Zeros(n: nat): (s: Bytes)
    ensures |s| == n
  {
    seq(n, _ => 0)
  }

  // ---- the encoding as a value ----

  function ShardSize(c: Config, length: nat): nat {
    (length + c.dataShards - 1) / c.dataShards
  }

  lemma SizeSuffices(c: Config, length: nat)
    ensures length <= ShardSize(c, length) * c.dataShards
  {
  }

  function Padded(c: Config, data: Bytes): (p: Bytes)
    ensures |p| == ShardSize(c, |data|) * c.dataShards && data <= p
  {
    SizeSuffices(c, |data|);
    data + Zeros(ShardSize(c, |data|) * c.dataShards - |data|)
  }

  lemma StripeFits(i: nat, n: nat, size: nat)
    requires i < n
    ensures i * size + size <= n * size
  {
    assert (i + 1) * size <= n * size;
  }

  function Stripe(c: Config, data: Bytes, i: nat): (s: Bytes)
    requires i < c.dataShards
    ensures |s| == ShardSize(c, |data|)
  {
    var size := ShardSize(c, |data|);
    StripeFits(i, c.dataShards, size);
    Padded(c, data)[i * size..i * size + size]
  }

  function Stripes(c: Config, data: Bytes): (s: seq<Bytes>)
    ensures |s| == c.dataShards && Wide(s, ShardSize(c, |data|))
  {
    seq(c.dataShards, i requires 0 <= i < c.dataShards => Stripe(c, data, i))
  }

  predicate Wide(stripes: seq<Bytes>, size: nat) {
    forall i :: 0 <= i < |stripes| ==> |stripes[i]| == size
  }

  function At(bytes: Bytes, k: nat): bv8 {
    if k < |bytes| then bytes[k] else 0
  }

  /** The XOR of byte k of the first n stripes. */
  function Xor(stripes: seq<Bytes>, n: nat, k: nat): bv8
    requires n <= |stripes|
  {
    if n == 0 then 0 else Xor(stripes, n - 1, k) ^ At(stripes[n - 1], k)
  }

  function Parity(stripes: seq<Bytes>, size: nat): (p: Bytes)
    ensures |p| == size
  {
    seq(size, k requires 0 <= k < size => Xor(stripes, |stripes|, k))
  }

  function Encoded(c: Config, data: Bytes, hash: Hash, i: nat): Shard
    requires i < c.dataShards + c.parityShards
  {
    var bytes := if i < c.dataShards then Stripe(c, data, i) else Parity(Stripes(c, data), ShardSize(c, |data|));
    Shard(i, bytes, hash(bytes), i >= c.dataShards)
  }

  method XorInto(buffer: array<bv8>, stripe: Bytes)
    requires buffer.Length <= |stripe|
    modifies buffer
    ensures forall k :: 0 <= k < buffer.Length ==> buffer[k] == old(buffer[k]) ^ stripe[k]
  {
    for k := 0 to buffer.Length
      invariant forall l :: 0 <= l < k ==> buffer[l] == old(buffer[l]) ^ stripe[l]
      invariant forall l :: k <= l < buffer.Length ==> buffer[l] == old(buffer[l])
    {
      buffer[k] := buffer[k] ^ stripe[k];
    }
  }

  /** XORing one stripe after the other into a buffer of zeros. */
  method ParityBytes(stripes: seq<Bytes>, size: nat) returns (parity: Bytes)
    requires Wide(stripes, size)
    ensures parity == Parity(stripes, size)
  {
    var buffer := new bv8[size](_ => 0);
    for j := 0 to |stripes|
      invariant forall k :: 0 <= k < size ==> buffer[k] == Xor(stripes, j, k)
    {
      XorInto(buffer, stripes[j]);
    }
    parity := buffer[..];
  }

  method Encode(c: Config, data: Bytes, hash: Hash) returns (shards: seq<Shard>)
    ensures |shards| == c.dataShards + c.parityShards
    ensures forall i :: 0 <= i < |shards| ==> shards[i] == Encoded(c, data, hash, i)
  {
    var size := (|data| + c.dataShards - 1) / c.dataShards;
    var padded := Padded(c, data);
    var stripes: seq<Bytes> := [];
    shards := [];
    for i := 0 to c.dataShards
      invariant |stripes| == i && forall j :: 0 <= j < i ==> stripes[j] == Stripe(c, data, j)
      invariant |shards| == i && forall j :: 0 <= j < i ==> shards[j] == Encoded(c, data, hash, j)
    {
      StripeFits(i, c.dataShards, size);
      var stripe := padded[i * size..i * size + size];
      stripes := stripes + [stripe];
      shards := shards + [Shard(i, stripe, hash(stripe), false)];
    }
    assert stripes == Stripes(c, data);
    for i := 0 to c.parityShards
      invariant |shards| == c.dataShards + i && forall j :: 0 <= j < |shards| ==> shards[j] == Encoded(c, data, hash, j)
    {
      var parity := ParityBytes(stripes, size);
      shards := shards + [Shard(c.dataShards + i, parity, hash(parity), true)];
    }
  }

  // ---- decoding as a value ----

  predicate Verifies(s: Option<Shard>, hash: Hash) {
    s.Some? && hash(s.value.data) == s.value.checksum
  }

  function Valid(shards: seq<Option<Shard>>, hash: Hash): seq<Shard> {
    if shards == [] then []
    else
      var last := shards[|shards| - 1];
      Valid(shards[..|shards| - 1], hash) + if Verifies(last, hash) then [last.value] else []
  }

  /** The data shard that fills a slot: the last one with that index. */
  function Slot(valid: seq<Shard>, i: nat): Option<Bytes> {
    if valid == [] then None
    else
      var last := valid[|valid| - 1];
      if !last.isParity && last.index == i then Some(last.data) else Slot(valid[..|valid| - 1], i)
  }

  function Missing(valid: seq<Shard>, n: nat): (m: seq<nat>)
    ensures forall i :: 0 <= i < |m| ==> m[i] < n
  {
    if n == 0 then [] else Missing(valid, n - 1) + if Slot(valid, n - 1) == None then [n - 1] else []
  }

  function FirstParity(valid: seq<Shard>): Option<Bytes> {
    if valid == [] then None
    else if valid[0].isParity then Some(valid[0].data)
    else FirstParity(valid[1..])
  }

  function Join(stripes: seq<Bytes>): Bytes {
    if stripes == [] then [] else Join(stripes[..|stripes| - 1]) + stripes[|stripes| - 1]
  }

  /** The XOR of byte k of the first n stripes but one. */
  function XorBut(stripes: seq<Bytes>, n: nat, skip: nat, k: nat): bv8
    requires n <= |stripes|
  {
    if n == 0 then 0
    else XorBut(stripes, n - 1, skip, k) ^ if n - 1 == skip then 0 else At(stripes[n - 1], k)
  }

  function Rebuilt(stripes: seq<Bytes>, parity: Bytes, skip: nat): (r: Bytes)
    ensures |r| == |parity|
  {
    seq(|parity|, k requires 0 <= k < |parity| => parity[k] ^ XorBut(stripes, |stripes|, skip, k))
  }

  function Cut(bytes: Bytes, originalSize: int): Bytes {
    if 0 < originalSize < |bytes| then bytes[..originalSize] else bytes
  }

  /** The stripes found, with `filler` in the empty slots. */
  function Found(valid: seq<Shard>, n: nat, filler: Bytes): (s: seq<Bytes>)
    ensures |s| == n
  {
    seq(n, i requires 0 <= i < n => match Slot(valid, i) case Some(b) => b case None => filler)
  }

  /** Long enough to be XORed into a buffer of this size; a shorter one is an index out of range. */
  predicate LongEnough(stripes: seq<Bytes>, size: nat) {
    forall i :: 0 <= i < |stripes| ==> |stripes[i]| >= size
  }

  /** No data shard has an index below zero, where there is no slot. */
  predicate Indexed(valid: seq<Shard>) {
    forall i :: 0 <= i < |valid| && !valid[i].isParity ==> valid[i].index >= 0
  }

  /** A call returns a value, reports that too few shards are left, or runs into an index out of range. */
  datatype Outcome<+T> = Done(value: T) | TooFew | OutOfRange

  lemma {:induction false} SlotFrom(valid: seq<Shard>, i: nat)
    ensures Slot(valid, i).Some? <==> exists j :: 0 <= j < |valid| && !valid[j].isParity && valid[j].index == i
    ensures Slot(valid, i).Some? ==>
              exists j :: 0 <= j < |valid| && !valid[j].isParity && valid[j].index == i
                          && valid[j].data == Slot(valid, i).value
  {
    if valid != [] {
      var front := valid[..|valid| - 1];
      SlotFrom(front, i);
      assert forall j :: 0 <= j < |front| ==> front[j] == valid[j];
    }
  }

  lemma {:induction false} ParityFrom(valid: seq<Shard>)
    ensures FirstParity(valid).Some? <==> exists j :: 0 <= j < |valid| && valid[j].isParity
    ensures FirstParity(valid).Some? ==>
              exists j :: 0 <= j < |valid| && valid[j].isParity && valid[j].data == FirstParity(valid).value
  {
    if valid != [] && !valid[0].isParity {
      ParityFrom(valid[1..]);
      assert forall j :: 0 <= j < |valid| - 1 ==> valid[1..][j] == valid[j + 1];
      assert forall j :: 1 <= j < |valid| ==> valid[j] == valid[1..][j - 1];
    }
  }

  /** The data stripes after reconstruction: at most one is rebuilt, and only with a parity shard. */
  function Completed(c: Config, valid: seq<Shard>): (r: Outcome<seq<Bytes>>)
    ensures r.Done? ==> |r.value| == c.dataShards
  {
    var n := c.dataShards;
    var missing := Missing(valid, n);
    if !Indexed(valid) then OutOfRange
    else if missing == [] then Done(Found(valid, n, []))
    else if |missing| > c.parityShards || FirstParity(valid) == None || |missing| != 1 then TooFew
    else
      var parity := FirstParity(valid).value;
      var stripes := Found(valid, n, parity);
      if LongEnough(stripes, |parity|) then Done(stripes[missing[0] := Rebuilt(stripes, parity, missing[0])])
      else OutOfRange
  }

  function Decoded(c: Config, shards: seq<Option<Shard>>, originalSize: int, hash: Hash): Outcome<Bytes> {
    var valid := Valid(shards, hash);
    if |shards| < c.dataShards || |valid| < c.dataShards then TooFew
    else
      match Completed(c, valid)
      case TooFew => TooFew
      case OutOfRange => OutOfRange
      case Done(stripes) => Done(Cut(Join(stripes), originalSize))
  }

  // ---- decoding as a program ----

  method FilterValid(shards: seq<Option<Shard>>, hash: Hash) returns (valid: seq<Shard>)
    ensures valid == Valid(shards, hash)
  {
    valid := [];
    for i := 0 to |shards|
      invariant valid == Valid(shards[..i], hash)
    {
      assert shards[..i + 1][..i] == shards[..i];
      if shards[i].Some? && hash(shards[i].value.data) == shards[i].value.checksum {
        valid := valid + [shards[i].value];
      }
    }
    assert shards[..|shards|] == shards;
  }

  /** The parity shard and every data shard there is, XORed together; None when one of them is too short. */
  method RebuildBytes(slots: array<Option<Bytes>>, ghost stripes: seq<Bytes>, parity: Bytes, skip: nat)
    returns (rebuilt: Option<Bytes>)
    requires |stripes| == slots.Length && (skip < |stripes| ==> |stripes[skip]| >= |parity|)
    requires forall i :: 0 <= i < slots.Length && i != skip ==> slots[i] == Some(stripes[i])
    ensures rebuilt == if LongEnough(stripes, |parity|) then Some(Rebuilt(stripes, parity, skip)) else None
  {
    var size := |parity|;
    var buffer := new bv8[size](k requires 0 <= k < size => parity[k]);
    for i := 0 to slots.Length
      invariant LongEnough(stripes[..i], size)
      invariant forall k :: 0 <= k < size ==> buffer[k] == parity[k] ^ XorBut(stripes, i, skip, k)
    {
      if i != skip && slots[i] != None {
        if |slots[i].value| < size {
          assert |stripes[i]| < size;
          return None;
        }
        XorInto(buffer, slots[i].value);
      }
    }
    assert stripes[..slots.Length] == stripes;
    assert buffer[..] == Rebuilt(stripes, parity, skip);
    rebuilt := Some(buffer[..]);
  }

  /** The empty slot is filled, if there is one only and a parity shard is left. */
  method Reconstruct(c: Config, valid: seq<Shard>, slots: array<Option<Bytes>>, missing: seq<nat>)
    returns (outcome: Outcome<()>)
    requires Indexed(valid) && slots.Length == c.dataShards && missing == Missing(valid, c.dataShards) != []
    requires forall i :: 0 <= i < slots.Length ==> slots[i] == Slot(valid, i)
    modifies slots
    ensures match Completed(c, valid)
            case TooFew => outcome == TooFew
            case OutOfRange => outcome == OutOfRange
            case Done(stripes) => outcome == Done(()) && Filled(slots[..], stripes)
  {
    if |missing| > c.parityShards {
      return TooFew;
    }
    var first := FirstParity(valid);
    if first == None || |missing| != 1 {
      return TooFew;
    }
    var parity, skip := first.value, missing[0];
    OneIsMissing(valid, c.dataShards, skip);
    ghost var stripes := Found(valid, c.dataShards, parity);
    var rebuilt := RebuildBytes(slots, stripes, parity, skip);
    if rebuilt == None {
      return OutOfRange;
    }
    slots[skip] := Some(rebuilt.value);
    return Done(());
  }

  /** Every slot holds its stripe. */
  ghost predicate Filled(slots: seq<Option<Bytes>>, stripes: seq<Bytes>) {
    |slots| == |stripes| && forall i :: 0 <= i < |slots| ==> slots[i] == Some(stripes[i])
  }

  lemma {:induction false} MissingExactly(valid: seq<Shard>, n: nat, i: nat)
    ensures i in Missing(valid, n) <==> i < n && Slot(valid, i) == None
  {
    if n > 0 {
      MissingExactly(valid, n - 1, i);
    }
  }

  lemma OneIsMissing(valid: seq<Shard>, n: nat, m: nat)
    requires Missing(valid, n) == [m]
    ensures forall i :: 0 <= i < n ==> (Slot(valid, i) == None <==> i == m)
  {
    forall i | 0 <= i < n
      ensures Slot(valid, i) == None <==> i == m
    {
      MissingExactly(valid, n, i);
    }
  }

  /** The valid data shards in their slots, unless one has no slot. */
  method FillSlots(valid: seq<Shard>, n: nat) returns (slots: array<Option<Bytes>>, ok: bool)
    ensures fresh(slots) && slots.Length == n && (ok <==> Indexed(valid))
    ensures ok ==> forall i :: 0 <= i < n ==> slots[i] == Slot(valid, i)
  {
    slots := new Option<Bytes>[n](_ => None);
    for j := 0 to |valid|
      invariant Indexed(valid[..j])
      invariant forall i :: 0 <= i < slots.Length ==> slots[i] == Slot(valid[..j], i)
    {
      assert valid[..j + 1][..j] == valid[..j];
      if !valid[j].isParity && valid[j].index < n {
        if valid[j].index < 0 {
          return slots, false;
        }
        slots[valid[j].index] := Some(valid[j].data);
      }
    }
    assert valid[..|valid|] == valid;
    return slots, true;
  }

  method EmptySlots(valid: seq<Shard>, slots: array<Option<Bytes>>) returns (missing: seq<nat>)
    requires forall i :: 0 <= i < slots.Length ==> slots[i] == Slot(valid, i)
    ensures missing == Missing(valid, slots.Length)
  {
    missing := [];
    for i := 0 to slots.Length
      invariant missing == Missing(valid, i)
    {
      if slots[i] == None {
        missing := missing + [i];
      }
    }
  }

  method JoinSlots(slots: array<Option<Bytes>>, ghost stripes: seq<Bytes>) returns (result: Bytes)
    requires Filled(slots[..], stripes)
    ensures result == Join(stripes)
  {
    result := [];
    for i := 0 to slots.Length
      invariant result == Join(stripes[..i])
    {
      assert stripes[..i + 1][..i] == stripes[..i];
      assert slots[..][i] == slots[i];
      if slots[i] != None {
        result := result + slots[i].value;
      }
    }
    assert stripes[..|stripes|] == stripes;
  }

  /** The data stripes found among the valid shards, with a missing one filled in. */
  method CompleteSlots(c: Config, valid: seq<Shard>) returns (slots: array<Option<Bytes>>, outcome: Outcome<()>)
    ensures fresh(slots)
    ensures match Completed(c, valid)
            case TooFew => outcome == TooFew
            case OutOfRange => outcome == OutOfRange
            case Done(stripes) => outcome == Done(()) && Filled(slots[..], stripes)
  {
    var indexed;
    slots, indexed := FillSlots(valid, c.dataShards);
    if !indexed {
      return slots, OutOfRange;
    }
    var missing := EmptySlots(valid, slots);
    if |missing| > 0 {
      outcome := Reconstruct(c, valid, slots, missing);
    } else {
      NoneIsMissing(valid, c.dataShards);
      outcome := Done(());
    }
  }

  method Decode(c: Config, shards: seq<Option<Shard>>, originalSize: int, hash: Hash) returns (r: Outcome<Bytes>)
    ensures r == Decoded(c, shards, originalSize, hash)
  {
    if |shards| < c.dataShards {
      return TooFew;
    }
    var valid := FilterValid(shards, hash);
    if |valid| < c.dataShards {
      return TooFew;
    }
    var slots, outcome := CompleteSlots(c, valid);
    match outcome
    case TooFew => return TooFew;
    case OutOfRange => return OutOfRange;
    case Done(_) =>
      var result := JoinSlots(slots, Completed(c, valid).value);
      if 0 < originalSize < |result| {
        result := result[..originalSize];
      }
      return Done(result);
  }

  lemma NoneIsMissing(valid: seq<Shard>, n: nat)
    requires Missing(valid, n) == []
    ensures forall i :: 0 <= i < n ==> Slot(valid, i).Some?
  {
    forall i | 0 <= i < n
      ensures Slot(valid, i).Some?
    {
      MissingExactly(valid, n, i);
    }
  }

  // ---- exact tolerance ----

  /** Shards that were encoded, in any order and number; some lost, some with other bytes or another checksum. */
  ghost predicate Survivors(c: Config, data: Bytes, hash: Hash, shards: seq<Option<Shard>>) {
    forall j :: 0 <= j < |shards| && shards[j].Some? ==> Survivor(c, data, hash, shards[j].value)
  }

  /**
   Index and kind are as encoded, and of bytes and checksum at least one is.
   Damaged bytes do not happen to have the checksum of the original.
   */
  ghost predicate Survivor(c: Config, data: Bytes, hash: Hash, s: Shard) {
    && 0 <= s.index < c.dataShards + c.parityShards
    && var e := Encoded(c, data, hash, s.index);
       && s.isParity == e.isParity
       && (s.data == e.data || (s.checksum == e.checksum && hash(s.data) != hash(e.data)))
  }

  /** The shard is what was encoded. */
  ghost predicate IsEncoded(c: Config, data: Bytes, hash: Hash, s: Shard) {
    0 <= s.index < c.dataShards + c.parityShards && s == Encoded(c, data, hash, s.index)
  }

  ghost predicate Intact(c: Config, data: Bytes, hash: Hash, shards: seq<Option<Shard>>, i: nat)
    requires i < c.dataShards + c.parityShards
  {
    Some(Encoded(c, data, hash, i)) in shards
  }

  /** A survivor whose checksum verifies is what was encoded. */
  lemma {:induction false} ValidIsIntact(c: Config, data: Bytes, hash: Hash, shards: seq<Option<Shard>>, s: Shard)
    requires Survivors(c, data, hash, shards)
    ensures s in Valid(shards, hash) <==> IsEncoded(c, data, hash, s) && Intact(c, data, hash, shards, s.index)
  {
    if shards != [] {
      var front, last := shards[..|shards| - 1], shards[|shards| - 1];
      ValidIsIntact(c, data, hash, front, s);
      assert shards == front + [last];
      if last.Some? {
        assert Survivor(c, data, hash, last.value);
      }
    }
  }

  lemma AllIntact(c: Config, data: Bytes, hash: Hash, shards: seq<Option<Shard>>)
    requires Survivors(c, data, hash, shards)
    ensures forall j :: 0 <= j < |Valid(shards, hash)| ==>
              var s := Valid(shards, hash)[j];
              IsEncoded(c, data, hash, s) && Intact(c, data, hash, shards, s.index)
    ensures Indexed(Valid(shards, hash))
  {
    var valid := Valid(shards, hash);
    forall j | 0 <= j < |valid|
      ensures IsEncoded(c, data, hash, valid[j]) && Intact(c, data, hash, shards, valid[j].index)
    {
      ValidIsIntact(c, data, hash, shards, valid[j]);
    }
  }

  /** A slot is filled, with the right stripe, exactly when that data shard is intact somewhere. */
  lemma SlotIsIntact(c: Config, data: Bytes, hash: Hash, shards: seq<Option<Shard>>, i: nat)
    requires Survivors(c, data, hash, shards) && i < c.dataShards
    ensures Slot(Valid(shards, hash), i)
         == if Intact(c, data, hash, shards, i) then Some(Stripe(c, data, i)) else None
  {
    var valid := Valid(shards, hash);
    AllIntact(c, data, hash, shards);
    SlotFrom(valid, i);
    if Intact(c, data, hash, shards, i) {
      ValidIsIntact(c, data, hash, shards, Encoded(c, data, hash, i));
      var j :| 0 <= j < |valid| && valid[j] == Encoded(c, data, hash, i);
    }
  }

  ghost predicate ParityIntact(c: Config, data: Bytes, hash: Hash, shards: seq<Option<Shard>>) {
    exists q: nat :: c.dataShards <= q < c.dataShards + c.parityShards && Intact(c, data, hash, shards, q)
  }

  lemma ParityIsIntact(c: Config, data: Bytes, hash: Hash, shards: seq<Option<Shard>>)
    requires Survivors(c, data, hash, shards)
    ensures FirstParity(Valid(shards, hash))
         == if ParityIntact(c, data, hash, shards) then Some(Parity(Stripes(c, data), ShardSize(c, |data|))) else None
  {
    var valid := Valid(shards, hash);
    AllIntact(c, data, hash, shards);
    ParityFrom(valid);
    if ParityIntact(c, data, hash, shards) {
      var q: nat :| c.dataShards <= q < c.dataShards + c.parityShards && Intact(c, data, hash, shards, q);
      ValidIsIntact(c, data, hash, shards, Encoded(c, data, hash, q));
      var j :| 0 <= j < |valid| && valid[j] == Encoded(c, data, hash, q);
    }
  }

  // ---- XOR ----

  lemma {:induction false} XorWithout(stripes: seq<Bytes>, n: nat, skip: nat, k: nat)
    requires n <= |stripes|
    ensures Xor(stripes, n, k) == XorBut(stripes, n, skip, k) ^ if skip < n then At(stripes[skip], k) else 0
  {
    if n > 0 {
      XorWithout(stripes, n - 1, skip, k);
    }
  }

  lemma {:induction false} XorIgnores(a: seq<Bytes>, b: seq<Bytes>, n: nat, skip: nat, k: nat)
    requires n <= |a| == |b| && forall i :: 0 <= i < |a| && i != skip ==> a[i] == b[i]
    ensures XorBut(a, n, skip, k) == XorBut(b, n, skip, k)
  {
    if n > 0 {
      XorIgnores(a, b, n - 1, skip, k);
      assert n - 1 != skip ==> a[n - 1] == b[n - 1];
    }
  }

  lemma Cancels(x: bv8, y: bv8, whole: bv8)
    requires whole == x ^ y
    ensures whole ^ x == y
  {
  }

  lemma RebuiltAt(found: seq<Bytes>, parity: Bytes, m: nat, k: nat, x: bv8)
    requires k < |parity| && x == XorBut(found, |found|, m, k)
    ensures Rebuilt(found, parity, m)[k] == parity[k] ^ x
  {
  }

  lemma ParityAt(stripes: seq<Bytes>, size: nat, m: nat, k: nat, x: bv8)
    requires m < |stripes| && k < size && x == XorBut(stripes, |stripes|, m, k)
    ensures Parity(stripes, size)[k] == x ^ At(stripes[m], k)
  {
    XorWithout(stripes, |stripes|, m, k);
  }

  lemma RebuildsByte(found: seq<Bytes>, parity: Bytes, m: nat, k: nat, x: bv8, y: bv8)
    requires k < |parity| && x == XorBut(found, |found|, m, k) && parity[k] == x ^ y
    ensures Rebuilt(found, parity, m)[k] == y
  {
    RebuiltAt(found, parity, m, k, x);
    Cancels(x, y, parity[k]);
  }

  /** One missing stripe is the XOR of the parity and the others. */
  lemma RebuildsMissing(stripes: seq<Bytes>, found: seq<Bytes>, size: nat, parity: Bytes, m: nat)
    requires Wide(stripes, size) && |found| == |stripes| && m < |stripes|
    requires forall i :: 0 <= i < |stripes| && i != m ==> stripes[i] == found[i]
    requires parity == Parity(stripes, size)
    ensures Rebuilt(found, parity, m) == stripes[m]
  {
    forall k | 0 <= k < size
      ensures Rebuilt(found, parity, m)[k] == stripes[m][k]
    {
      var x := XorBut(stripes, |stripes|, m, k);
      ParityAt(stripes, size, m, k, x);
      XorIgnores(stripes, found, |stripes|, m, k);
      RebuildsByte(found, parity, m, k, x, stripes[m][k]);
    }
  }

  // ---- joining stripes ----

  lemma NextProduct(n: nat, size: nat)
    ensures (n + 1) * size == n * size + size
  {
  }

  lemma JoinOneMore(stripes: seq<Bytes>, n: nat)
    requires n < |stripes|
    ensures Join(stripes[..n + 1]) == Join(stripes[..n]) + stripes[n]
  {
    assert stripes[..n + 1][..n] == stripes[..n];
  }

  lemma TakeMore(bytes: Bytes, start: nat, end: nat)
    requires start <= end <= |bytes|
    ensures bytes[..start] + bytes[start..end] == bytes[..end]
  {
  }

  lemma StripeAt(c: Config, data: Bytes, n: nat, start: nat)
    requires n < c.dataShards && start == n * ShardSize(c, |data|)
    ensures start + ShardSize(c, |data|) <= |Padded(c, data)|
    ensures Stripes(c, data)[n] == Padded(c, data)[start..start + ShardSize(c, |data|)]
  {
    StripeFits(n, c.dataShards, ShardSize(c, |data|));
  }

  lemma JoinStep(stripes: seq<Bytes>, padded: Bytes, n: nat, start: nat, end: nat)
    requires n < |stripes| && start <= end <= |padded| && stripes[n] == padded[start..end]
    requires Join(stripes[..n]) == padded[..start]
    ensures Join(stripes[..n + 1]) == padded[..end]
  {
    JoinOneMore(stripes, n);
    TakeMore(padded, start, end);
  }

  /** The first stripes joined are that much of the padded data. */
  lemma {:induction false} JoinedStripes(c: Config, data: Bytes, n: nat, end: nat)
    requires n <= c.dataShards && end == n * ShardSize(c, |data|)
    ensures end <= |Padded(c, data)| && Join(Stripes(c, data)[..n]) == Padded(c, data)[..end]
  {
    if n > 0 {
      var size := ShardSize(c, |data|);
      NextProduct(n - 1, size);
      JoinedStripes(c, data, n - 1, end - size);
      StripeAt(c, data, n - 1, end - size);
      JoinStep(Stripes(c, data), Padded(c, data), n - 1, end - size, end);
    }
  }

  lemma JoinedAll(c: Config, data: Bytes, whole: nat)
    requires whole == c.dataShards * ShardSize(c, |data|)
    ensures |Padded(c, data)| == whole && Join(Stripes(c, data)) == Padded(c, data)
  {
    JoinedStripes(c, data, c.dataShards, whole);
    assert Stripes(c, data)[..c.dataShards] == Stripes(c, data);
    assert Padded(c, data)[..whole] == Padded(c, data);
  }

  lemma EmptyPadding(c: Config, data: Bytes)
    requires data == []
    ensures Padded(c, data) == []
  {
    assert ShardSize(c, 0) == 0;
  }

  lemma CutsPadding(padded: Bytes, data: Bytes)
    requires data <= padded && (data == [] ==> padded == [])
    ensures Cut(padded, |data|) == data
  {
  }

  /** The stripes joined and cut to the original size are the original data. */
  lemma JoinsToData(c: Config, data: Bytes)
    ensures Cut(Join(Stripes(c, data)), |data|) == data
  {
    JoinedAll(c, data, c.dataShards * ShardSize(c, |data|));
    if data == [] {
      EmptyPadding(c, data);
    }
    CutsPadding(Padded(c, data), data);
  }

  // ---- counting ----

  function Indices(valid: seq<Shard>): set<int> {
    set j | 0 <= j < |valid| :: valid[j].index
  }

  lemma {:induction false} FewIndices(valid: seq<Shard>)
    ensures |Indices(valid)| <= |valid|
  {
    if valid != [] {
      var front, last := valid[..|valid| - 1], valid[|valid| - 1];
      FewIndices(front);
      assert Indices(valid) == Indices(front) + {last.index} by {
        assert valid == front + [last];
      }
    }
  }

  function Below(n: nat): (s: set<int>)
    ensures |s| == n && forall x :: x in s <==> 0 <= x < n
  {
    if n == 0 then {} else Below(n - 1) + {n - 1}
  }

  /** Enough different shards are enough shards. */
  lemma EnoughValid(valid: seq<Shard>, n: nat, wanted: set<int>)
    requires wanted <= Indices(valid) && |wanted| == n
    ensures |valid| >= n
  {
    SubsetSize(wanted, Indices(valid));
    FewIndices(valid);
  }

  lemma {:induction false} ValidAreShards(shards: seq<Option<Shard>>, hash: Hash)
    ensures |Valid(shards, hash)| <= |shards|
  {
    if shards != [] {
      ValidAreShards(shards[..|shards| - 1], hash);
    }
  }

  lemma IntactIndex(c: Config, data: Bytes, hash: Hash, shards: seq<Option<Shard>>, i: nat)
    requires Survivors(c, data, hash, shards)
    requires i < c.dataShards + c.parityShards && Intact(c, data, hash, shards, i)
    ensures i in Indices(Valid(shards, hash))
  {
    var valid := Valid(shards, hash);
    ValidIsIntact(c, data, hash, shards, Encoded(c, data, hash, i));
    var j :| 0 <= j < |valid| && valid[j] == Encoded(c, data, hash, i);
    assert valid[j].index == i;
  }

  // ---- which slots are empty ----

  ghost predicate OnlyMissing(c: Config, data: Bytes, hash: Hash, shards: seq<Option<Shard>>, m: nat) {
    m < c.dataShards && forall i :: 0 <= i < c.dataShards ==> (Intact(c, data, hash, shards, i) <==> i != m)
  }

  ghost predicate AllData(c: Config, data: Bytes, hash: Hash, shards: seq<Option<Shard>>) {
    forall i :: 0 <= i < c.dataShards ==> Intact(c, data, hash, shards, i)
  }

  lemma {:induction false} MissingAscends(valid: seq<Shard>, n: nat)
    ensures forall i, j :: 0 <= i < j < |Missing(valid, n)| ==> Missing(valid, n)[i] < Missing(valid, n)[j]
  {
    if n > 0 {
      MissingAscends(valid, n - 1);
    }
  }

  lemma FirstTwo(s: seq<nat>)
    requires |s| >= 2 && forall i, j :: 0 <= i < j < |s| ==> s[i] < s[j]
    ensures s[0] in s && s[1] in s && s[0] != s[1]
  {
  }

  lemma Singleton(s: seq<nat>, m: nat)
    requires forall i, j :: 0 <= i < j < |s| ==> s[i] < s[j]
    ensures s == [m] <==> forall i: nat :: i in s <==> i == m
  {
    if s == [m] {
      assert forall i: nat :: i in [m] <==> i == m;
    } else if |s| >= 2 {
      FirstTwo(s);
    } else if |s| == 1 {
      assert s[0] in s;
    } else {
      assert m !in s;
    }
  }

  /** The empty slots are those of the data shards that are not intact. */
  lemma Listed(c: Config, data: Bytes, hash: Hash, shards: seq<Option<Shard>>, i: nat)
    requires Survivors(c, data, hash, shards)
    ensures i in Missing(Valid(shards, hash), c.dataShards) <==> i < c.dataShards && !Intact(c, data, hash, shards, i)
  {
    MissingExactly(Valid(shards, hash), c.dataShards, i);
    if i < c.dataShards {
      SlotIsIntact(c, data, hash, shards, i);
    }
  }

  /** One slot is listed as empty exactly when one data shard is not intact. */
  lemma OneListed(c: Config, data: Bytes, hash: Hash, shards: seq<Option<Shard>>, m: nat)
    requires Survivors(c, data, hash, shards)
    ensures Missing(Valid(shards, hash), c.dataShards) == [m] <==> OnlyMissing(c, data, hash, shards, m)
  {
    var missing := Missing(Valid(shards, hash), c.dataShards);
    forall i: nat
      ensures i in missing <==> i < c.dataShards && !Intact(c, data, hash, shards, i)
    {
      Listed(c, data, hash, shards, i);
    }
    MissingAscends(Valid(shards, hash), c.dataShards);
    Singleton(missing, m);
    if forall i: nat :: i in missing <==> i == m {
      assert m in missing;
      forall i | 0 <= i < c.dataShards
        ensures Intact(c, data, hash, shards, i) <==> i != m
      {
        assert i in missing <==> i == m;
      }
    }
  }

  lemma NoneListed(c: Config, data: Bytes, hash: Hash, shards: seq<Option<Shard>>)
    requires Survivors(c, data, hash, shards)
    ensures Missing(Valid(shards, hash), c.dataShards) == [] <==> AllData(c, data, hash, shards)
  {
    var missing := Missing(Valid(shards, hash), c.dataShards);
    forall i: nat
      ensures i in missing <==> i < c.dataShards && !Intact(c, data, hash, shards, i)
    {
      Listed(c, data, hash, shards, i);
    }
    if missing != [] {
      assert missing[0] in missing;
    }
  }

  // ---- the outcome of decoding ----

  lemma DecodesWhole(c: Config, data: Bytes, hash: Hash, shards: seq<Option<Shard>>, size: int)
    requires Survivors(c, data, hash, shards) && AllData(c, data, hash, shards)
    ensures Decoded(c, shards, size, hash) == Done(FirstBytes(Padded(c, data), size))
  {
    var valid := Valid(shards, hash);
    AllIntact(c, data, hash, shards);
    NoneListed(c, data, hash, shards);
    var wanted := Below(c.dataShards);
    forall i | i in wanted
      ensures i in Indices(valid)
    {
      IntactIndex(c, data, hash, shards, i);
    }
    EnoughValid(valid, c.dataShards, wanted);
    ValidAreShards(shards, hash);
    forall i | 0 <= i < c.dataShards
      ensures Found(valid, c.dataShards, [])[i] == Stripes(c, data)[i]
    {
      SlotIsIntact(c, data, hash, shards, i);
    }
    assert Found(valid, c.dataShards, []) == Stripes(c, data);
    JoinedAll(c, data, c.dataShards * ShardSize(c, |data|));
  }

  /** The stripes after reconstruction are the original ones. */
  lemma CompletesStripes(c: Config, data: Bytes, hash: Hash, shards: seq<Option<Shard>>, m: nat)
    requires Survivors(c, data, hash, shards) && c.parityShards >= 1
    requires OnlyMissing(c, data, hash, shards, m) && ParityIntact(c, data, hash, shards)
    ensures Completed(c, Valid(shards, hash)) == Done(Stripes(c, data))
  {
    var valid, stripes, size := Valid(shards, hash), Stripes(c, data), ShardSize(c, |data|);
    var parity := Parity(stripes, size);
    var found := Found(valid, c.dataShards, parity);
    FoundButOne(c, data, hash, shards, m, parity);
    AllIntact(c, data, hash, shards);
    OneListed(c, data, hash, shards, m);
    ParityIsIntact(c, data, hash, shards);
    RebuildsMissing(stripes, found, size, parity, m);
    assert found[m := Rebuilt(found, parity, m)] == stripes;
  }

  lemma FoundButOne(c: Config, data: Bytes, hash: Hash, shards: seq<Option<Shard>>, m: nat, filler: Bytes)
    requires Survivors(c, data, hash, shards) && OnlyMissing(c, data, hash, shards, m)
    requires |filler| == ShardSize(c, |data|)
    ensures var found := Found(Valid(shards, hash), c.dataShards, filler);
            && LongEnough(found, |filler|)
            && forall i :: 0 <= i < c.dataShards && i != m ==> Stripes(c, data)[i] == found[i]
  {
    var found := Found(Valid(shards, hash), c.dataShards, filler);
    forall i | 0 <= i < c.dataShards
      ensures |found[i]| >= |filler| && (i != m ==> Stripes(c, data)[i] == found[i])
    {
      SlotIsIntact(c, data, hash, shards, i);
    }
  }

  lemma DecodesRebuilt(c: Config, data: Bytes, hash: Hash, shards: seq<Option<Shard>>, m: nat, size: int)
    requires Survivors(c, data, hash, shards)
    requires OnlyMissing(c, data, hash, shards, m) && ParityIntact(c, data, hash, shards)
    ensures Decoded(c, shards, size, hash) == Done(FirstBytes(Padded(c, data), size))
  {
    AllIntact(c, data, hash, shards);
    EnoughWithParity(c, data, hash, shards, m);
    ValidAreShards(shards, hash);
    CompletesStripes(c, data, hash, shards, m);
    JoinedAll(c, data, c.dataShards * ShardSize(c, |data|));
  }

  lemma EnoughWithParity(c: Config, data: Bytes, hash: Hash, shards: seq<Option<Shard>>, m: nat)
    requires Survivors(c, data, hash, shards)
    requires OnlyMissing(c, data, hash, shards, m) && ParityIntact(c, data, hash, shards)
    ensures |Valid(shards, hash)| >= c.dataShards && c.parityShards >= 1
  {
    var q: nat :| c.dataShards <= q < c.dataShards + c.parityShards && Intact(c, data, hash, shards, q);
    var wanted := Below(c.dataShards) - {m} + {q};
    forall i | i in wanted
      ensures i in Indices(Valid(shards, hash))
    {
      IntactIndex(c, data, hash, shards, i);
    }
    EnoughValid(Valid(shards, hash), c.dataShards, wanted);
  }

  lemma DecodesNothing(c: Config, data: Bytes, hash: Hash, shards: seq<Option<Shard>>, size: int)
    requires Survivors(c, data, hash, shards)
    requires !AllData(c, data, hash, shards)
    requires !ParityIntact(c, data, hash, shards) || forall m: nat :: !OnlyMissing(c, data, hash, shards, m)
    ensures Decoded(c, shards, size, hash) == TooFew
  {
    AllIntact(c, data, hash, shards);
    NoneListed(c, data, hash, shards);
    ParityIsIntact(c, data, hash, shards);
    var missing := Missing(Valid(shards, hash), c.dataShards);
    if |missing| == 1 {
      OneListed(c, data, hash, shards, missing[0]);
    }
  }

  /** What survives is enough: all data shards, or all but one and some parity shard. */
  ghost predicate Recoverable(c: Config, data: Bytes, hash: Hash, shards: seq<Option<Shard>>) {
    || AllData(c, data, hash, shards)
    || (ParityIntact(c, data, hash, shards) && exists m: nat :: OnlyMissing(c, data, hash, shards, m))
  }

  /** A prefix of the given size, or everything if the size is not positive or too large. */
  function FirstBytes(bytes: Bytes, size: int): Bytes {
    if size <= 0 || size >= |bytes| then bytes else bytes[..size]
  }

  /** Whatever size is named, decoding succeeds exactly when enough survives, and gives so much of the padded data. */
  lemma DecodesAnySize(c: Config, data: Bytes, hash: Hash, shards: seq<Option<Shard>>, size: int)
    requires Survivors(c, data, hash, shards)
    ensures Decoded(c, shards, size, hash)
         == if Recoverable(c, data, hash, shards) then Done(FirstBytes(Padded(c, data), size)) else TooFew
  {
    if AllData(c, data, hash, shards) {
      DecodesWhole(c, data, hash, shards, size);
    } else if Recoverable(c, data, hash, shards) {
      var m: nat :| OnlyMissing(c, data, hash, shards, m);
      DecodesRebuilt(c, data, hash, shards, m, size);
    } else {
      DecodesNothing(c, data, hash, shards, size);
    }
  }

  /** Decoding succeeds exactly when enough survives, and then gives back the original data. */
  lemma ExactTolerance(c: Config, data: Bytes, hash: Hash, shards: seq<Option<Shard>>)
    requires Survivors(c, data, hash, shards)
    ensures Decoded(c, shards, |data|, hash) == if Recoverable(c, data, hash, shards) then Done(data) else TooFew
  {
    DecodesAnySize(c, data, hash, shards, |data|);
    if data == [] {
      EmptyPadding(c, data);
    }
    FirstBytesAre(Padded(c, data), data);
  }

  lemma FirstBytesAre(padded: Bytes, data: Bytes)
    requires data <= padded && (data == [] ==> padded == [])
    ensures FirstBytes(padded, |data|) == data
  {
  }

  // ---- where bytes and bits lie ----

  /** Stripe i holds the i-th run of the data, all runs of one length, and zeros behind the end. */
  lemma StripeHolds(c: Config, data: Bytes, i: nat, k: nat, at: nat)
    requires i < c.dataShards && k < |Stripe(c, data, i)| && at == i * |Stripe(c, data, i)| + k
    ensures Stripe(c, data, i)[k] == if at < |data| then data[at] else 0
    ensures |Stripe(c, data, i)| == if |data| % c.dataShards == 0 then |data| / c.dataShards
                                    else |data| / c.dataShards + 1
  {
    StripeFits(i, c.dataShards, ShardSize(c, |data|));
    SizeIsCeiling(|data|, c.dataShards);
  }

  lemma SizeIsCeiling(n: nat, m: nat)
    requires m >= 1
    ensures (n + m - 1) / m == if n % m == 0 then n / m else n / m + 1
  {
    var q, r := n / m, n % m;
    var x, t := (n + m - 1) / m, (n + m - 1) % m;
    assert n == q * m + r && n + m - 1 == x * m + t;
    if r == 0 {
      SameQuotient(m, x, q, t, m - 1);
    } else {
      NextProduct(q, m);
      SameQuotient(m, x, q + 1, t, r - 1);
    }
  }

  lemma SameQuotient(m: nat, x: nat, y: nat, s: nat, t: nat)
    requires s < m && t < m && x * m + s == y * m + t
    ensures x == y
  {
    if x < y {
      StripeFits(x, y, m);
    } else if y < x {
      StripeFits(y, x, m);
    }
  }

  predicate Bit(x: bv8, b: bv8) {
    x & b != 0
  }

  /** How many of the first n stripes have the bit set in byte k. */
  function Ones(stripes: seq<Bytes>, n: nat, k: nat, b: bv8): nat
    requires n <= |stripes|
  {
    if n == 0 then 0
    else Ones(stripes, n - 1, k, b) + if k < |stripes[n - 1]| && Bit(stripes[n - 1][k], b) then 1 else 0
  }

  lemma OneBit(x: bv8, y: bv8, b: bv8)
    requires b in {1, 2, 4, 8, 16, 32, 64, 128}
    ensures Bit(x ^ y, b) <==> (Bit(x, b) != Bit(y, b))
  {
  }

  /** A bit of the parity is set exactly when an odd number of stripes have it set. */
  lemma {:induction false} XorBit(stripes: seq<Bytes>, n: nat, k: nat, b: bv8)
    requires n <= |stripes| && b in {1, 2, 4, 8, 16, 32, 64, 128}
    ensures Bit(Xor(stripes, n, k), b) <==> Ones(stripes, n, k, b) % 2 == 1
  {
    if n > 0 {
      XorBit(stripes, n - 1, k, b);
      OneBit(Xor(stripes, n - 1, k), At(stripes[n - 1], k), b);
    }
  }

  lemma ParityBit(stripes: seq<Bytes>, size: nat, k: nat, b: bv8)
    requires k < size && b in {1, 2, 4, 8, 16, 32, 64, 128}
    ensures Bit(Parity(stripes, size)[k], b) <==> Ones(stripes, |stripes|, k, b) % 2 == 1
  {
    XorBit(stripes, |stripes|, k, b);
  }

  // ---- when decoding breaks off ----

  ghost predicate HasShard(valid: seq<Shard>, i: nat) {
    exists j :: 0 <= j < |valid| && !valid[j].isParity && valid[j].index == i
  }

  /** The parity shard that is used: the first valid one. */
  ghost predicate UsesParity(valid: seq<Shard>, q: nat) {
    q < |valid| && valid[q].isParity && forall j :: 0 <= j < q ==> !valid[j].isParity
  }

  /** The data shard that is used for a slot: the last valid one. */
  ghost predicate Uses(valid: seq<Shard>, i: nat, j: nat) {
    && j < |valid| && !valid[j].isParity && valid[j].index == i
    && forall l :: j < l < |valid| ==> valid[l].isParity || valid[l].index != i
  }

  /**
   Given enough valid shards, decoding breaks off exactly when a valid data shard has
   an index below zero, or one data shard is missing and a shard that is used to
   rebuild it is shorter than the parity that is used.
   */
  lemma BreaksOffIff(c: Config, shards: seq<Option<Shard>>, size: int, hash: Hash)
    requires |shards| >= c.dataShards && |Valid(shards, hash)| >= c.dataShards
    ensures var valid := Valid(shards, hash);
            Decoded(c, shards, size, hash) == OutOfRange <==>
              || (exists j :: 0 <= j < |valid| && !valid[j].isParity && valid[j].index < 0)
              || (c.parityShards >= 1 && exists m: nat, q: nat, i: nat, j: nat :: TooShort(c, valid, m, q, i, j))
  {
    var valid := Valid(shards, hash);
    if Indexed(valid) {
      if c.parityShards >= 1 {
        if m: nat, q: nat, i: nat, j: nat :| TooShort(c, valid, m, q, i, j) {
          ShortBreaks(c, valid, m, q, i, j);
        }
      }
      if Completed(c, valid) == OutOfRange {
        BreaksShort(c, valid);
      }
    }
  }

  ghost predicate TooShort(c: Config, valid: seq<Shard>, m: nat, q: nat, i: nat, j: nat) {
    && m < c.dataShards && (forall x: nat :: x < c.dataShards ==> (HasShard(valid, x) <==> x != m))
    && UsesParity(valid, q) && i < c.dataShards && Uses(valid, i, j) && |valid[j].data| < |valid[q].data|
  }

  lemma OnlyOneMissing(valid: seq<Shard>, n: nat, m: nat)
    requires m < n && forall x: nat :: x < n ==> (HasShard(valid, x) <==> x != m)
    ensures Missing(valid, n) == [m]
  {
    forall x: nat
      ensures x in Missing(valid, n) <==> x == m
    {
      MissingExactly(valid, n, x);
      SlotFrom(valid, x);
      assert HasShard(valid, x) <==> Slot(valid, x).Some?;
    }
    MissingAscends(valid, n);
    Singleton(Missing(valid, n), m);
  }

  lemma ShortBreaks(c: Config, valid: seq<Shard>, m: nat, q: nat, i: nat, j: nat)
    requires Indexed(valid) && TooShort(c, valid, m, q, i, j) && c.parityShards >= 1
    ensures Completed(c, valid) == OutOfRange
  {
    OnlyOneMissing(valid, c.dataShards, m);
    FirstUsed(valid, q);
    LastUsed(valid, i, j);
    assert Found(valid, c.dataShards, valid[q].data)[i] == valid[j].data;
  }

  lemma BreaksShort(c: Config, valid: seq<Shard>)
    requires Indexed(valid) && Completed(c, valid) == OutOfRange
    ensures c.parityShards >= 1 && exists m: nat, q: nat, i: nat, j: nat :: TooShort(c, valid, m, q, i, j)
  {
    var n := c.dataShards;
    var m := Missing(valid, n)[0];
    OneIsMissing(valid, n, m);
    var q := ParityUsed(valid);
    FirstUsed(valid, q);
    var found := Found(valid, n, valid[q].data);
    var i: nat :| i < n && |found[i]| < |valid[q].data|;
    var j := ShardUsed(valid, i);
    LastUsed(valid, i, j);
    forall x: nat | x < n
      ensures HasShard(valid, x) <==> x != m
    {
      SlotFrom(valid, x);
    }
    assert TooShort(c, valid, m, q, i, j);
  }

  lemma {:induction false} FirstUsed(valid: seq<Shard>, q: nat)
    requires UsesParity(valid, q)
    ensures FirstParity(valid) == Some(valid[q].data)
  {
    if q > 0 {
      FirstUsed(valid[1..], q - 1);
    }
  }

  lemma {:induction false} LastUsed(valid: seq<Shard>, i: nat, j: nat)
    requires Uses(valid, i, j)
    ensures Slot(valid, i) == Some(valid[j].data)
  {
    if j < |valid| - 1 {
      LastUsed(valid[..|valid| - 1], i, j);
    }
  }

  lemma {:induction false} ParityUsed(valid: seq<Shard>) returns (q: nat)
    requires FirstParity(valid).Some?
    ensures UsesParity(valid, q)
  {
    if valid[0].isParity {
      q := 0;
    } else {
      q := ParityUsed(valid[1..]);
      q := q + 1;
    }
  }

  lemma {:induction false} ShardUsed(valid: seq<Shard>, i: nat) returns (j: nat)
    requires Slot(valid, i).Some?
    ensures Uses(valid, i, j)
  {
    var last := valid[|valid| - 1];
    if !last.isParity && last.index == i {
      j := |valid| - 1;
    } else {
      j := ShardUsed(valid[..|valid| - 1], i);
    }
  }
}
