/** The data node as an object: `Write` and `RecoverFromWal` end in the state that `Recovery` computes. */
module DataNodeStore {
  import opened Common
  import opened WalRecords
  import opened ChunkStore
  import opened Replicas
  import Spec = Recovery

  class DataNode {
    const env: Spec.Env
    var chunks: Spec.Chunks
    var log: seq<Entry>
    var files: Files

    ghost function View(): Spec.State
      reads this
    {
      Spec.State(Some(chunks), log, files)
    }

    /** A process that starts on the log and the files that are there, with nothing in memory. */
    constructor (env: Spec.Env, log: seq<Entry>, files: Files)
      ensures this.env == env && View() == Spec.State(Some(map[]), log, files)
    {
      this.env := env;
      this.chunks := map[];
      this.log := log;
      this.files := files;
    }

    /** Log, then file, then memory; a chunk that is not primary here is refused before the log. */
    method Write(req: Spec.Request, now: int) returns (resp: Spec.Response)
      modifies this
      ensures View() == Spec.Next(old(View()), Spec.Step.Write(req, now), env)
      ensures resp == if Spec.MayWrite(old(chunks), req.chunk, env)
                      then Spec.Accepted(Spec.Known(old(chunks), req.chunk, env).version + 1) else Spec.NotPrimary
    {
      var chunk := Spec.Chunk(Primary, 1, map[env.id := 1], 0, "");
      if req.chunk in chunks {
        chunk := chunks[req.chunk];
      }
      if chunk.role != Primary {
        return Spec.NotPrimary;
      }
      var nextVersion := chunk.version + 1;
      log := log + [Entry(EntryKind.Write, req.chunk, req.data, req.offset, nextVersion, req.checksum, now)];
      files := WriteChunk(files, req.chunk, req.data, req.offset);
      var clock := chunk.clock[env.id := Get(chunk.clock, env.id) + 1];
      chunks := chunks[req.chunk := Spec.Chunk(chunk.role, nextVersion, clock, |req.data|, env.hash(req.data))];
      return Spec.Accepted(nextVersion);
    }

    /** One log entry is written again and replaces what memory knows of its chunk. */
    method Reload(entry: Entry)
      modifies this`files, this`chunks
      ensures files == Store(old(files), entry) && chunks == Spec.Reloaded(old(chunks), entry, env)
    {
      if entry.kind == EntryKind.Write {
        files := WriteChunk(files, entry.chunk, entry.data, entry.offset);
        var chunk := Spec.Chunk(Primary, entry.version, map[env.id := 1], |entry.data|, entry.checksum);
        chunks := chunks[entry.chunk := chunk];
      }
    }

    method RecoverFromWal()
      requires chunks == map[]
      modifies this`files, this`chunks
      ensures View() == Spec.Next(old(View()).(chunks := None), Spec.Recover, env)
    {
      for i := 0 to |log|
        invariant files == Replay(log[..i], old(files)) && chunks == Spec.Recovered(log[..i], env)
      {
        assert log[..i + 1][..i] == log[..i];
        Reload(log[i]);
      }
      assert log[..|log|] == log;
    }

    method SetRole(id: string, role: Role)
      modifies this
      ensures View() == Spec.Next(old(View()), Spec.SetRole(id, role), env)
    {
      if id in chunks {
        chunks := chunks[id := chunks[id].(role := role)];
      }
    }
  }
}
