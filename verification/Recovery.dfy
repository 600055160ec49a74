/**
 A data node's durable writes: log first, then the chunk file, then memory. Runs
 with crashes at any point, torn file writes and interrupted recoveries.
 */
module Recovery {
  import opened Common
  import opened WalRecords
  import opened ChunkStore
  import opened Replicas
  import opened VectorClock

  /** `version` and `clock` are the logical version and the vector clock of the chunk's data version. */
  datatype Chunk = Chunk(role: Role, version: int, clock: Clock, size: nat, checksum: string)

  datatype Request = Request(chunk: string, data: seq<Byte>, offset: int, checksum: string)

  datatype Response = Accepted(version: int) | NotPrimary

  type Chunks = map<string, Chunk>

  /** A data node: memory, which a crash loses, and its log and files, which stay. */
  datatype State = State(chunks: Option<Chunks>, log: seq<Entry>, files: Files)

  /** What does not change during a node's life: its name and the hash it uses for checksums. */
  datatype Env = Env(id: string, hash: seq<Byte> -> string)

  /** A new data version counts one event of this node. */
  function NewClock(env: Env): Clock {
    map[env.id := 1]
  }

  /** A chunk written for the first time starts as primary at version 1. */
  function Known(chunks: Chunks, id: string, env: Env): Chunk {
    if id in chunks then chunks[id] else Chunk(Primary, 1, NewClock(env), 0, "")
  }

  function LogEntry(chunks: Chunks, req: Request, now: int, env: Env): Entry {
    Entry(EntryKind.Write, req.chunk, req.data, req.offset, Known(chunks, req.chunk, env).version + 1,
          req.checksum, now)
  }

  function Written(chunks: Chunks, req: Request, env: Env): Chunks {
    var c := Known(chunks, req.chunk, env);
    chunks[req.chunk :=
             Chunk(c.role, c.version + 1, Incremented(c.clock, env.id), |req.data|, env.hash(req.data))]
  }

  predicate MayWrite(chunks: Chunks, id: string, env: Env) {
    Known(chunks, id, env).role == Primary
  }

  /** What one log entry puts into memory during recovery. */
  function Reloaded(chunks: Chunks, e: Entry, env: Env): Chunks {
    if e.kind == EntryKind.Write
    then chunks[e.chunk := Chunk(Primary, e.version, NewClock(env), |e.data|, e.checksum)]
    else chunks
  }

  /** What recovery puts into memory, starting from nothing. */
  function Recovered(log: seq<Entry>, env: Env): Chunks {
    if log == [] then map[] else Reloaded(Recovered(log[..|log| - 1], env), log[|log| - 1], env)
  }

  datatype Step =
    | Write(req: Request, now: int)
    | SetRole(chunk: string, role: Role)
    | Crash
    | CrashInWrite(req: Request, now: int, arrived: nat)
    | Recover
    | CrashInRecovery(replayed: nat, arrived: nat)

  /** Only a running node serves, only a crashed one recovers. */
  predicate Enabled(s: State, step: Step) {
    match step
    case Recover => s.chunks.None?
    case CrashInRecovery(replayed, _) => s.chunks.None? && replayed < |s.log|
    case _ => s.chunks.Some?
  }

  function Next(s: State, step: Step, env: Env): State
    requires Enabled(s, step)
  {
    match step
    case Write(req, now) =>
      if !MayWrite(s.chunks.value, req.chunk, env) then s
      else
        var e := LogEntry(s.chunks.value, req, now, env);
        State(Some(Written(s.chunks.value, req, env)), s.log + [e], Store(s.files, e))
    case SetRole(id, role) =>
      if id in s.chunks.value then s.(chunks := Some(s.chunks.value[id := s.chunks.value[id].(role := role)])) else s
    case Crash => s.(chunks := None)
    case CrashInWrite(req, now, arrived) =>
      if !MayWrite(s.chunks.value, req.chunk, env) then s.(chunks := None)
      else
        var e := LogEntry(s.chunks.value, req, now, env);
        State(None, s.log + [e], Torn(s.files, e, arrived))
    case Recover => State(Some(Recovered(s.log, env)), s.log, Replay(s.log, s.files))
    case CrashInRecovery(replayed, arrived) =>
      s.(files := Torn(Replay(s.log[..replayed], s.files), s.log[replayed], arrived))
  }

  // ---- invariant ----

  function Count(log: seq<Entry>, id: string): nat {
    if log == [] then 0 else Count(log[..|log| - 1], id) + if log[|log| - 1].chunk == id then 1 else 0
  }

  /** Every entry is a write, and its version continues its chunk's count; the first one is version 2. */
  ghost predicate Numbered(log: seq<Entry>) {
    forall i :: 0 <= i < |log| ==> log[i].kind == EntryKind.Write && log[i].version == 2 + Count(log[..i], log[i].chunk)
  }

  /** The same chunks with the same versions and sizes. */
  ghost predicate SameMetadata(a: Chunks, b: Chunks) {
    a.Keys == b.Keys && forall id :: id in a ==> a[id].version == b[id].version && a[id].size == b[id].size
  }

  ghost predicate Inv(s: State, env: Env) {
    && Numbered(s.log)
    && Compatible(s.log, s.files)
    && (s.chunks.Some? ==> s.files == Replay(s.log, map[]) && SameMetadata(s.chunks.value, Recovered(s.log, env)))
  }

  lemma {:induction false} RecoveredVersion(log: seq<Entry>, id: string, env: Env)
    requires Numbered(log)
    ensures id in Recovered(log, env) <==> Count(log, id) > 0
    ensures id in Recovered(log, env) ==> Recovered(log, env)[id].version == 1 + Count(log, id)
  {
    if log != [] {
      var front := log[..|log| - 1];
      forall i | 0 <= i < |front|
        ensures front[i].version == 2 + Count(front[..i], front[i].chunk)
      {
        assert front[..i] == log[..i];
      }
      RecoveredVersion(front, id, env);
    }
  }

  /** A recovered chunk has the version, size and checksum of its last logged write, whatever role it had. */
  lemma {:induction false} RecoveredIsLast(log: seq<Entry>, id: string, i: nat, env: Env)
    requires i < |log| && Writes(log[i], id) && forall j :: i < j < |log| ==> !Writes(log[j], id)
    ensures id in Recovered(log, env)
    ensures Recovered(log, env)[id] == Chunk(Primary, log[i].version, NewClock(env), |log[i].data|, log[i].checksum)
  {
    if i < |log| - 1 {
      assert !Writes(log[|log| - 1], id);
      RecoveredIsLast(log[..|log| - 1], id, i, env);
    }
  }

  /** The next entry of a running node continues the numbering. */
  lemma NextIsNumbered(s: State, req: Request, now: int, env: Env)
    requires Inv(s, env) && s.chunks.Some?
    ensures Numbered(s.log + [LogEntry(s.chunks.value, req, now, env)])
  {
    var e := LogEntry(s.chunks.value, req, now, env);
    var longer := s.log + [e];
    RecoveredVersion(s.log, req.chunk, env);
    forall i | 0 <= i < |longer|
      ensures longer[i].kind == EntryKind.Write && longer[i].version == 2 + Count(longer[..i], longer[i].chunk)
    {
      assert longer[..i] == s.log[..i];
      assert i == |s.log| ==> s.log[..i] == s.log;
    }
  }

  lemma CurrentIsCompatible(log: seq<Entry>)
    ensures Compatible(log, Replay(log, map[]))
  {
    assert Compatible(log, map[]);
    PartialReplayKeeps(log, map[], |log|);
    assert log[..|log|] == log;
  }

  lemma WriteKeeps(s: State, req: Request, now: int, env: Env)
    requires Inv(s, env) && s.chunks.Some? && MayWrite(s.chunks.value, req.chunk, env)
    ensures Inv(Next(s, Step.Write(req, now), env), env)
  {
    var e := LogEntry(s.chunks.value, req, now, env);
    var longer := s.log + [e];
    assert longer[..|longer| - 1] == s.log;
    NextIsNumbered(s, req, now, env);
    CurrentIsCompatible(longer);
  }

  lemma TornWriteKeeps(s: State, req: Request, now: int, arrived: nat, env: Env)
    requires Inv(s, env) && s.chunks.Some?
    ensures var e := LogEntry(s.chunks.value, req, now, env);
            Numbered(s.log + [e]) && Compatible(s.log + [e], Torn(s.files, e, arrived))
  {
    var e := LogEntry(s.chunks.value, req, now, env);
    NextIsNumbered(s, req, now, env);
    LogGrows(s.log, e, s.files);
    TornKeeps(s.log + [e], s.files, |s.log|, arrived);
  }

  lemma InterruptedRecoveryKeeps(s: State, replayed: nat, arrived: nat, env: Env)
    requires Inv(s, env) && replayed < |s.log|
    ensures Compatible(s.log, Torn(Replay(s.log[..replayed], s.files), s.log[replayed], arrived))
  {
    PartialReplayKeeps(s.log, s.files, replayed);
    TornKeeps(s.log, Replay(s.log[..replayed], s.files), replayed, arrived);
  }

  lemma RecoverKeeps(s: State, env: Env)
    requires Inv(s, env)
    ensures Replay(s.log, s.files) == Replay(s.log, map[]) && Compatible(s.log, Replay(s.log, s.files))
  {
    ReplayOverOld(s.log, s.files);
    CurrentIsCompatible(s.log);
  }

  lemma StepKeeps(s: State, step: Step, env: Env)
    requires Inv(s, env) && Enabled(s, step)
    ensures Inv(Next(s, step, env), env)
  {
    match step
    case Write(req, now) =>
      if MayWrite(s.chunks.value, req.chunk, env) {
        WriteKeeps(s, req, now, env);
      }
    case CrashInWrite(req, now, arrived) => TornWriteKeeps(s, req, now, arrived, env);
    case Recover => RecoverKeeps(s, env);
    case CrashInRecovery(replayed, arrived) => InterruptedRecoveryKeeps(s, replayed, arrived, env);
    case _ =>
  }

  // ---- whole runs ----

  /** A node that has never run. */
  function New(): State {
    State(None, [], map[])
  }

  ghost predicate Possible(s: State, steps: seq<Step>, env: Env)
    decreases |steps|
  {
    steps != [] ==> Enabled(s, steps[0]) && Possible(Next(s, steps[0], env), steps[1..], env)
  }

  function After(s: State, steps: seq<Step>, env: Env): State
    requires Possible(s, steps, env)
    decreases |steps|
  {
    if steps == [] then s else After(Next(s, steps[0], env), steps[1..], env)
  }

  lemma {:induction false} RunKeeps(s: State, steps: seq<Step>, env: Env)
    requires Inv(s, env) && Possible(s, steps, env)
    ensures Inv(After(s, steps, env), env)
    decreases |steps|
  {
    if steps != [] {
      StepKeeps(s, steps[0], env);
      RunKeeps(Next(s, steps[0], env), steps[1..], env);
    }
  }

  /**
   After any run, however many crashes it had, recovery gives every chunk the
   bytes of all logged writes applied in order to an empty store, and the version
   and size of its last one.
   */
  lemma RecoveryRefinesReplay(steps: seq<Step>, env: Env)
    requires Possible(New(), steps, env) && After(New(), steps, env).chunks.None?
    ensures var s := After(New(), steps, env);
            var r := Next(s, Recover, env);
            && r.log == s.log && r.files == Replay(s.log, map[]) && r.chunks == Some(Recovered(s.log, env))
            && forall id :: id in r.chunks.value ==> r.chunks.value[id].version == 1 + Count(s.log, id)
  {
    var s := After(New(), steps, env);
    RunKeeps(New(), steps, env);
    RecoverKeeps(s, env);
    forall id | id in Recovered(s.log, env)
      ensures Recovered(s.log, env)[id].version == 1 + Count(s.log, id)
    {
      RecoveredVersion(s.log, id, env);
    }
  }

  /** A crash of a running node is invisible after recovery: same bytes, same chunks, same versions, same sizes. */
  lemma CrashIsInvisible(steps: seq<Step>, env: Env)
    requires Possible(New(), steps, env) && After(New(), steps, env).chunks.Some?
    ensures var s := After(New(), steps, env);
            var r := Next(Next(s, Crash, env), Recover, env);
            r.files == s.files && r.log == s.log && SameMetadata(s.chunks.value, r.chunks.value)
  {
    var s := After(New(), steps, env);
    RunKeeps(New(), steps, env);
    RecoverKeeps(s, env);
  }

  /** Logged versions of a chunk rise by exactly one from write to write, across restarts, starting at 2. */
  lemma VersionsRiseByOne(steps: seq<Step>, env: Env, i: nat)
    requires Possible(New(), steps, env) && i < |After(New(), steps, env).log|
    ensures var log := After(New(), steps, env).log;
            log[i].version == 2 + Count(log[..i], log[i].chunk)
  {
    RunKeeps(New(), steps, env);
  }

  /** The vector clock of a written chunk does not survive: recovery starts it anew, at one event of this node. */
  lemma ClockStartsAnew(steps: seq<Step>, env: Env, id: string)
    requires Possible(New(), steps, env) && After(New(), steps, env).chunks.None?
    requires id in Recovered(After(New(), steps, env).log, env)
    ensures var s := After(New(), steps, env);
            var r := Next(s, Recover, env).chunks.value;
            r[id].clock == NewClock(env) && Get(r[id].clock, env.id) < r[id].version
  {
    var s := After(New(), steps, env);
    RunKeeps(New(), steps, env);
    RecoveredVersion(s.log, id, env);
    RecoveredClock(s.log, id, env);
  }

  lemma {:induction false} RecoveredClock(log: seq<Entry>, id: string, env: Env)
    requires id in Recovered(log, env)
    ensures Recovered(log, env)[id].clock == NewClock(env)
  {
    var e := log[|log| - 1];
    if !(e.kind == EntryKind.Write && e.chunk == id) {
      RecoveredClock(log[..|log| - 1], id, env);
    }
  }

  /** Every write counts as one event of this node in the chunk's clock, as it does in its version, and as no other. */
  lemma WriteCounts(s: State, req: Request, now: int, env: Env)
    requires s.chunks.Some? && MayWrite(s.chunks.value, req.chunk, env)
    ensures var w := Next(s, Step.Write(req, now), env).chunks.value;
            var was := Known(s.chunks.value, req.chunk, env);
            && req.chunk in w && w[req.chunk].version == was.version + 1
            && Get(w[req.chunk].clock, env.id) == Get(was.clock, env.id) + 1
            && forall n :: n != env.id ==> Get(w[req.chunk].clock, n) == Get(was.clock, n)
  {
  }

  // ---- what one write does ----

  /** A write is taken exactly unless the chunk is known here as a secondary; what is not taken changes nothing. */
  lemma WriteTakenIff(s: State, req: Request, now: int, env: Env)
    requires s.chunks.Some?
    ensures var s' := Next(s, Step.Write(req, now), env);
            if req.chunk in s.chunks.value && s.chunks.value[req.chunk].role == Secondary
            then s' == s
            else && |s'.log| == |s.log| + 1 && s.log <= s'.log && s'.chunks.Some? && req.chunk in s'.chunks.value
                 && s'.chunks.value[req.chunk].role == Primary
  {
  }

  /** A role that was set decides whether the chunk's next write is taken. */
  lemma RoleDecides(s: State, id: string, role: Role, req: Request, now: int, env: Env)
    requires s.chunks.Some? && id in s.chunks.value && req.chunk == id
    ensures var s' := Next(s, SetRole(id, role), env);
            && s'.chunks.Some? && s'.log == s.log && s'.files == s.files
            && s'.chunks.value == s.chunks.value[id := s.chunks.value[id].(role := role)]
            && (Next(s', Step.Write(req, now), env) != s' <==> role == Primary)
  {
    var s' := Next(s, SetRole(id, role), env);
    WriteTakenIff(s', req, now, env);
  }

  /** An accepted write: what is logged is what was asked for, and its bytes land at the offset. */
  lemma WriteStored(s: State, req: Request, now: int, env: Env, at: int)
    requires s.chunks.Some? && (req.chunk in s.chunks.value ==> s.chunks.value[req.chunk].role == Primary)
    requires at == if req.offset < 0 then 0 else req.offset
    ensures var s' := Next(s, Step.Write(req, now), env);
            var was, bytes := Bytes(s.files, req.chunk), Bytes(s'.files, req.chunk);
            && s'.log[|s'.log| - 1] == Entry(EntryKind.Write, req.chunk, req.data, req.offset,
                                             s'.chunks.value[req.chunk].version, req.checksum, now)
            && |bytes| == (if req.data == [] || at + |req.data| <= |was| then |was| else at + |req.data|)
            && (forall k :: 0 <= k < |req.data| ==> bytes[at + k] == req.data[k])
            && (forall p :: 0 <= p < |bytes| && !(at <= p < at + |req.data|) ==>
                  bytes[p] == if p < |was| then was[p] else 0)
            && s'.chunks.value[req.chunk].size == |req.data|
            && forall c :: c != req.chunk ==>
                 && Bytes(s'.files, c) == Bytes(s.files, c)
                 && (c in s'.chunks.value <==> c in s.chunks.value)
                 && (c in s.chunks.value ==> s'.chunks.value[c] == s.chunks.value[c])
  {
    WriteLands(s.files, req.chunk, req.data, req.offset, at);
  }

  /** What was written is read back at its offset after a crash and a recovery. */
  lemma WriteSurvives(steps: seq<Step>, env: Env, req: Request, now: int, k: nat, at: int)
    requires Possible(New(), steps, env) && After(New(), steps, env).chunks.Some? && k < |req.data|
    requires var chunks := After(New(), steps, env).chunks.value;
             req.chunk in chunks ==> chunks[req.chunk].role == Primary
    requires at == if req.offset < 0 then 0 else req.offset
    ensures var w := Next(After(New(), steps, env), Step.Write(req, now), env);
            var r := Next(Next(w, Crash, env), Recover, env);
            at + k < |Bytes(r.files, req.chunk)| && Bytes(r.files, req.chunk)[at + k] == req.data[k]
  {
    RunKeeps(New(), steps, env);
    StoredIsRecovered(After(New(), steps, env), req, now, env, k, at);
  }

  lemma StoredIsRecovered(s: State, req: Request, now: int, env: Env, k: nat, at: int)
    requires Inv(s, env) && s.chunks.Some? && k < |req.data| && at == if req.offset < 0 then 0 else req.offset
    requires req.chunk in s.chunks.value ==> s.chunks.value[req.chunk].role == Primary
    ensures var r := Next(Next(Next(s, Step.Write(req, now), env), Crash, env), Recover, env);
            at + k < |Bytes(r.files, req.chunk)| && Bytes(r.files, req.chunk)[at + k] == req.data[k]
  {
    var w := Next(s, Step.Write(req, now), env);
    WriteStored(s, req, now, env, at);
    StepKeeps(s, Step.Write(req, now), env);
    RecoveredSame(w, env);
  }

  lemma RecoveredSame(w: State, env: Env)
    requires Inv(w, env) && w.chunks.Some?
    ensures Next(Next(w, Crash, env), Recover, env).files == w.files
  {
    RecoverKeeps(w, env);
  }

  /** Any byte after recovery: the last logged write over its position, by the offsets, or zero. */
  lemma RecoveredByte(steps: seq<Step>, env: Env, chunk: string, p: nat)
    requires Possible(New(), steps, env) && After(New(), steps, env).chunks.None?
    ensures var s := After(New(), steps, env);
            var bytes := Bytes(Next(s, Recover, env).files, chunk);
            && |bytes| == Reach(s.log, chunk)
            && (p < |bytes| ==> bytes[p] == match LastByte(s.log, chunk, p) case Some(b) => b case None => 0)
  {
    var s := After(New(), steps, env);
    RecoveryRefinesReplay(steps, env);
    ReplayShape(s.log, map[], chunk);
  }

  /** The checksum of a just written chunk survives a crash exactly when the client sent the hash of its data. */
  lemma ChecksumSurvives(s: State, req: Request, now: int, env: Env)
    requires s.chunks.Some? && MayWrite(s.chunks.value, req.chunk, env)
    ensures var w := Next(s, Step.Write(req, now), env);
            var r := Next(Next(w, Crash, env), Recover, env);
            && req.chunk in r.chunks.value && req.chunk in w.chunks.value
            && (r.chunks.value[req.chunk].checksum == w.chunks.value[req.chunk].checksum
                <==> req.checksum == env.hash(req.data))
  {
    var longer := s.log + [LogEntry(s.chunks.value, req, now, env)];
    assert longer[..|longer| - 1] == s.log;
  }
}
