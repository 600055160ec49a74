/** The write-ahead log as an object. Each method ends in the state that `Wal` computes from the state before it. */
module WalLog {
  import opened Common
  import opened WalRecords
  import Spec = Wal

  /** A log on a directory; listings of the directory are parameters. */
  class WriteAheadLog {
    const codec: Codec
    var disk: Spec.Disk
    var sequence: nat
    var open: Spec.Handle
    var maxSize: int

    ghost function View(): Spec.State
      reads this
    {
      Spec.State(disk, sequence, open, maxSize)
    }

    /** An open file that still has a name is in the directory. */
    ghost predicate Valid()
      reads this
    {
      open.Linked? ==> open.number in disk
    }

    constructor (codec: Codec, disk: Spec.Disk, files: seq<nat>)
      requires Spec.Listing(files, disk)
      ensures Valid() && this.codec == codec && View() == Spec.Open(disk, files)
    {
      this.codec := codec;
      this.maxSize := Spec.DEFAULT_MAX_SIZE;
      var current := 1;
      if |files| > 0 {
        current := files[|files| - 1];
      }
      this.sequence := current;
      this.disk := Spec.Created(disk, current);
      this.open := Spec.Linked(current);
    }

    method MaybeRotate(additional: nat)
      requires Valid()
      modifies this
      ensures Valid()
      ensures View() == Spec.MaybeRotate(old(View()), additional)
    {
      if |Spec.Content(Spec.State(disk, sequence, open, maxSize))| + additional > maxSize {
        sequence := sequence + 1;
        disk := Spec.Created(disk, sequence);
        open := Spec.Linked(sequence);
      }
    }

    method Write(bytes: seq<Byte>)
      requires Valid()
      modifies this
      ensures Valid()
      ensures View() == Spec.Written(old(View()), bytes)
    {
      match open
      case Linked(number) =>
        disk := disk[number := (if number in disk then disk[number] else []) + bytes];
      case Unlinked(content) =>
        open := Spec.Unlinked(content + bytes);
    }

    /** The entry is stamped with the time, encoded, and written behind its length. */
    method Append(entry: Entry, now: int)
      requires Valid()
      modifies this
      ensures Valid()
      ensures View() == Spec.Append(codec, old(View()), entry.(timestamp := now))
    {
      var stamped := entry.(timestamp := now);
      var data := codec.encode(stamped);
      var header := BigEndian(|data|, HEADER);
      MaybeRotate(|data| + HEADER);
      ghost var rotated := View();
      Write(header);
      Write(data);
      assert Spec.Content(rotated) + header + data == Spec.Content(rotated) + (header + data);
    }

    /** Every file in the order of the listing; one file that does not read fails the whole. */
    method ReadAll(files: seq<nat>) returns (r: Option<seq<Entry>>)
      requires Spec.Listing(files, disk)
      ensures r == Spec.ReadAll(codec, disk, files)
    {
      var entries := [];
      PrependedTwice([], [], Spec.ReadAll(codec, disk, files));
      assert files[0..] == files;
      for i := 0 to |files|
        invariant Spec.ReadAll(codec, disk, files) == Prepended(entries, Spec.ReadAll(codec, disk, files[i..]))
      {
        var es := ReadFile(codec, disk[files[i]]);
        assert files[i..][0] == files[i] && files[i..][1..] == files[i + 1..];
        if es == None {
          return None;
        }
        PrependedTwice(entries, es.value, Spec.ReadAll(codec, disk, files[i + 1..]));
        entries := entries + es.value;
      }
      assert entries + [] == entries;
      return Some(entries);
    }

    method Remove(number: nat)
      requires Valid()
      modifies this
      ensures Valid()
      ensures View() == Spec.Without(old(View()), {number})
    {
      if open == Spec.Linked(number) {
        open := Spec.Unlinked(disk[number]);
      }
      disk := disk - {number};
    }

    method Truncate(before: int, files: seq<nat>)
      requires Valid() && Spec.Listing(files, disk)
      modifies this
      ensures Valid()
      ensures View() == Spec.Truncate(old(View()), before)
    {
      ghost var gone: set<nat> := {};
      for i := 0 to |files|
        invariant Valid() && View() == Spec.Without(old(View()), gone)
        invariant forall n :: n in gone <==> n in files[..i] && n < before
      {
        assert files[..i + 1] == files[..i] + [files[i]];
        if files[i] < before {
          Spec.WithoutTwice(old(View()), gone, files[i]);
          Remove(files[i]);
          gone := gone + {files[i]};
        }
      }
      assert files[..|files|] == files;
      Spec.WithoutOlder(old(View()), gone, before);
    }

    method SetMaxSize(size: int)
      requires Valid()
      modifies this
      ensures Valid()
      ensures View() == old(View()).(maxSize := size)
    {
      maxSize := size;
    }
  }
}
