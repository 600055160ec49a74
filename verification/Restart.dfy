/**
 One machine: memory, the files of the write-ahead log, and the chunk files. Runs
 of writes, crashes at any point and restarts that read the log back. As long as
 no append is cut in two, the machine does what `Recovery` says of a log that is
 a sequence of entries; a cut append makes the next restart come up with nothing.
 */
module Restart {
  import opened Common
  import opened ChunkStore
  import opened WalRecords
  import Replicas
  import Wal
  import WalNames
  import Node = Recovery

  /**
   `log` is every entry whose record is complete, and `kept` says which log file
   holds which of them. No step reads either.
   */
  datatype Machine = Machine(
    chunks: Option<Node.Chunks>, wal: Wal.State, files: Files, log: seq<Entry>, kept: Wal.Kept)

  /**
   A start lists the log files twice: `found` to take up the last one, and `listing`
   to read all. `cut` bytes of a record reach the log, `arrived` bytes of data the chunk file.
   */
  datatype Step =
    | Write(req: Node.Request, now: int)
    | SetRole(chunk: string, role: Replicas.Role)
    | Crash
    | CrashInAppend(req: Node.Request, now: int, cut: nat)
    | CrashInWrite(req: Node.Request, now: int, arrived: nat)
    | Restart(found: seq<nat>, listing: seq<nat>)
    | CrashInRestart(found: seq<nat>, listing: seq<nat>, replayed: nat, arrived: nat)

  /** A machine that has never run. */
  function New(): Machine {
    Machine(None, Wal.State(map[], 0, Wal.Unlinked([]), Wal.DEFAULT_MAX_SIZE), map[], [], Wal.Kept(1, []))
  }

  function Logged(m: Machine, req: Node.Request, now: int, env: Node.Env): Entry
    requires m.chunks.Some?
  {
    Node.LogEntry(m.chunks.value, req, now, env)
  }

  ghost predicate Lists(m: Machine, found: seq<nat>, listing: seq<nat>) {
    Wal.Listing(found, m.wal.disk) && Wal.Listing(listing, Wal.Open(m.wal.disk, found).disk)
  }

  function Read(c: Codec, m: Machine, found: seq<nat>, listing: seq<nat>): Option<seq<Entry>>
    requires forall i :: 0 <= i < |listing| ==> listing[i] in Wal.Open(m.wal.disk, found).disk
  {
    Wal.ReadAll(c, Wal.Open(m.wal.disk, found).disk, listing)
  }

  /** Only a running machine serves, and only one that is down starts; log files have at most eight digits. */
  ghost predicate Enabled(c: Codec, m: Machine, step: Step, env: Node.Env) {
    && m.wal.sequence < WalNames.LIMIT
    && match step
       case Restart(found, listing) => m.chunks.None? && Lists(m, found, listing)
       case CrashInRestart(found, listing, replayed, _) =>
         && m.chunks.None? && Lists(m, found, listing)
         && (Read(c, m, found, listing).Some? ==> replayed < |Read(c, m, found, listing).value|)
       case CrashInAppend(req, now, cut) => m.chunks.Some? && cut <= |Frame(c, Logged(m, req, now, env))|
       case _ => m.chunks.Some?
  }

  /** The complete record is in the log. */
  function Appended(c: Codec, m: Machine, e: Entry): Machine {
    m.(wal := Wal.Append(c, m.wal, e), log := m.log + [e], kept := Wal.KeptAfter(c, m.wal, m.kept, Wal.Log(e)))
  }

  /** Before the first byte of a record the log may move on to a new file. */
  function Rotated(c: Codec, m: Machine, e: Entry): Machine {
    m.(wal := Wal.MaybeRotate(m.wal, |Frame(c, e)|),
       kept := if Wal.Rotates(m.wal, |Frame(c, e)|) then Wal.Kept(m.kept.lo, m.kept.files + [[]]) else m.kept)
  }

  function Opened(c: Codec, m: Machine, found: seq<nat>): Machine {
    m.(wal := Wal.Open(m.wal.disk, found), kept := Wal.KeptAfter(c, m.wal, m.kept, Wal.Reopen(found)))
  }

  function Next(c: Codec, m: Machine, step: Step, env: Node.Env): Machine
    requires Enabled(c, m, step, env)
  {
    match step
    case Write(req, now) =>
      if !Node.MayWrite(m.chunks.value, req.chunk, env) then m
      else
        var e := Logged(m, req, now, env);
        Appended(c, m, e).(chunks := Some(Node.Written(m.chunks.value, req, env)), files := Store(m.files, e))
    case SetRole(id, role) =>
      if id in m.chunks.value then m.(chunks := Some(m.chunks.value[id := m.chunks.value[id].(role := role)])) else m
    case Crash => m.(chunks := None)
    case CrashInAppend(req, now, cut) =>
      var e := Logged(m, req, now, env);
      if !Node.MayWrite(m.chunks.value, req.chunk, env) then m.(chunks := None)
      else if cut == |Frame(c, e)| then Appended(c, m, e).(chunks := None)
      else if cut == 0 then Rotated(c, m, e).(chunks := None)
      else Rotated(c, m, e).(chunks := None, wal := Wal.Written(Rotated(c, m, e).wal, Frame(c, e)[..cut]))
    case CrashInWrite(req, now, arrived) =>
      if !Node.MayWrite(m.chunks.value, req.chunk, env) then m.(chunks := None)
      else
        var e := Logged(m, req, now, env);
        Appended(c, m, e).(chunks := None, files := Torn(m.files, e, arrived))
    case Restart(found, listing) =>
      // A log that does not read is reported, and the node starts with no chunk.
      (match Read(c, m, found, listing)
       case None => Opened(c, m, found).(chunks := Some(map[]))
       case Some(es) => Opened(c, m, found).(chunks := Some(Node.Recovered(es, env)), files := Replay(es, m.files)))
    case CrashInRestart(found, listing, replayed, arrived) =>
      (match Read(c, m, found, listing)
       case None => Opened(c, m, found)
       case Some(es) => Opened(c, m, found).(files := Torn(Replay(es[..replayed], m.files), es[replayed], arrived)))
  }

  /** A record reaches the log as a whole or not at all. */
  ghost predicate Whole(c: Codec, m: Machine, step: Step, env: Node.Env)
    requires Enabled(c, m, step, env)
  {
    step.CrashInAppend? && Node.MayWrite(m.chunks.value, step.req.chunk, env) ==>
      step.cut == 0 || step.cut == |Frame(c, Logged(m, step.req, step.now, env))|
  }

  // ---- the machine refines the node ----

  function View(m: Machine): Node.State {
    Node.State(m.chunks, m.log, m.files)
  }

  /** What a step of the machine is to the node. */
  function NodeStep(step: Step): Node.Step {
    match step
    case Write(req, now) => Node.Step.Write(req, now)
    case SetRole(id, role) => Node.SetRole(id, role)
    case Crash => Node.Crash
    case CrashInAppend(req, now, cut) =>
      if cut == 0 then Node.Crash else Node.CrashInWrite(req, now, |req.data| + 1)
    case CrashInWrite(req, now, arrived) => Node.CrashInWrite(req, now, arrived)
    case Restart(_, _) => Node.Recover
    case CrashInRestart(_, _, replayed, arrived) => Node.CrashInRecovery(replayed, arrived)
  }

  /** The log files hold the log, whatever they went through. */
  ghost predicate LogHeld(c: Codec, m: Machine) {
    && Wal.Holds(c, m.wal, m.kept) && Wal.Flatten(m.kept.files) == m.log
    && (m.kept.files == [] ==> m.kept.lo == 1 && m.chunks.None?)
  }

  ghost predicate Inv(c: Codec, m: Machine, env: Node.Env) {
    LogHeld(c, m) && Node.Inv(View(m), env)
  }

  lemma AppendedHeld(c: Codec, m: Machine, e: Entry)
    requires LogHeld(c, m) && m.kept.files != []
    ensures LogHeld(c, Appended(c, m, e)) && Appended(c, m, e).kept.files != []
  {
    Wal.AppendHolds(c, m.wal, m.kept, e);
    Wal.KeptGrows(c, m.wal, m.kept, Wal.Log(e));
  }

  lemma RotatedHeld(c: Codec, m: Machine, e: Entry)
    requires LogHeld(c, m) && m.kept.files != []
    ensures LogHeld(c, Rotated(c, m, e)) && Rotated(c, m, e).kept.files != []
  {
    if Wal.Rotates(m.wal, |Frame(c, e)|) {
      Wal.RotationHolds(c, m.wal, m.kept, |Frame(c, e)|, m.kept.lo);
      Wal.FlattenAppend(m.kept.files, [[]]);
      assert Wal.Flatten([[]]) == [];
    }
  }

  lemma OpenedHeld(c: Codec, m: Machine, found: seq<nat>)
    requires LogHeld(c, m) && m.wal.sequence < WalNames.LIMIT && Wal.Listing(found, m.wal.disk)
    ensures LogHeld(c, Opened(c, m, found)) && Opened(c, m, found).kept.files != []
    ensures Opened(c, m, found).wal.sequence < WalNames.LIMIT
  {
    Wal.ReopenHolds(c, m.wal, m.kept, found);
    assert Wal.Flatten([[]]) == [];
  }

  /** A start reads back exactly the log. */
  lemma StartReads(c: Codec, m: Machine, found: seq<nat>, listing: seq<nat>)
    requires LogHeld(c, m) && m.wal.sequence < WalNames.LIMIT && Lists(m, found, listing) && Faithful(c, m.log)
    ensures Read(c, m, found, listing) == Some(m.log)
  {
    OpenedHeld(c, m, found);
    Wal.ReadBack(c, Opened(c, m, found).wal, Opened(c, m, found).kept, listing);
  }

  lemma StepHeld(c: Codec, m: Machine, step: Step, env: Node.Env)
    requires LogHeld(c, m) && Enabled(c, m, step, env) && Whole(c, m, step, env)
    ensures LogHeld(c, Next(c, m, step, env))
  {
    match step
    case Write(req, now) => AppendedHeld(c, m, Logged(m, req, now, env));
    case CrashInWrite(req, now, _) => AppendedHeld(c, m, Logged(m, req, now, env));
    case CrashInAppend(req, now, _) =>
      AppendedHeld(c, m, Logged(m, req, now, env));
      RotatedHeld(c, m, Logged(m, req, now, env));
    case Restart(found, _) => OpenedHeld(c, m, found);
    case CrashInRestart(found, _, _, _) => OpenedHeld(c, m, found);
    case _ =>
  }

  /** Every step without a cut record is the node's step. */
  lemma StepRefines(c: Codec, m: Machine, step: Step, env: Node.Env)
    requires LogHeld(c, m) && Enabled(c, m, step, env) && Whole(c, m, step, env) && Faithful(c, m.log)
    ensures Node.Enabled(View(m), NodeStep(step))
    ensures View(Next(c, m, step, env)) == Node.Next(View(m), NodeStep(step), env)
  {
    match step
    case Restart(found, listing) => StartReads(c, m, found, listing);
    case CrashInRestart(found, listing, _, _) => StartReads(c, m, found, listing);
    case _ =>
  }

  lemma StepKeeps(c: Codec, m: Machine, step: Step, env: Node.Env)
    requires Inv(c, m, env) && Enabled(c, m, step, env) && Whole(c, m, step, env) && Faithful(c, m.log)
    ensures Inv(c, Next(c, m, step, env), env)
  {
    StepHeld(c, m, step, env);
    StepRefines(c, m, step, env);
    Node.StepKeeps(View(m), NodeStep(step), env);
  }

  // ---- whole runs ----

  /** The run is possible and cuts no record. */
  ghost predicate Possible(c: Codec, m: Machine, steps: seq<Step>, env: Node.Env)
    decreases |steps|
  {
    steps != [] ==>
      && Enabled(c, m, steps[0], env) && Whole(c, m, steps[0], env)
      && Possible(c, Next(c, m, steps[0], env), steps[1..], env)
  }

  function After(c: Codec, m: Machine, steps: seq<Step>, env: Node.Env): Machine
    requires Possible(c, m, steps, env)
    decreases |steps|
  {
    if steps == [] then m else After(c, Next(c, m, steps[0], env), steps[1..], env)
  }

  lemma {:induction false} LogOnlyGrows(c: Codec, m: Machine, steps: seq<Step>, env: Node.Env)
    requires Possible(c, m, steps, env)
    ensures m.log <= After(c, m, steps, env).log
    decreases |steps|
  {
    if steps != [] {
      LogOnlyGrows(c, Next(c, m, steps[0], env), steps[1..], env);
    }
  }

  lemma {:induction false} RunKeeps(c: Codec, m: Machine, steps: seq<Step>, env: Node.Env)
    requires Inv(c, m, env) && Possible(c, m, steps, env) && Faithful(c, After(c, m, steps, env).log)
    ensures Inv(c, After(c, m, steps, env), env)
    decreases |steps|
  {
    if steps != [] {
      LogOnlyGrows(c, m, steps, env);
      StepKeeps(c, m, steps[0], env);
      RunKeeps(c, Next(c, m, steps[0], env), steps[1..], env);
    }
  }

  lemma NewHolds(c: Codec, env: Node.Env)
    ensures Inv(c, New(), env)
  {
  }

  /**
   After any run that cuts no record, through rotations, crashes, torn chunk files
   and interrupted starts, a start reads back exactly what was logged: every chunk
   gets the bytes of all logged writes in order, and version, size and checksum of
   the last one.
   */
  lemma RestartRestores(c: Codec, steps: seq<Step>, env: Node.Env, found: seq<nat>, listing: seq<nat>)
    requires Possible(c, New(), steps, env) && Faithful(c, After(c, New(), steps, env).log)
    requires Enabled(c, After(c, New(), steps, env), Restart(found, listing), env)
    ensures var m := After(c, New(), steps, env);
            var r := Next(c, m, Restart(found, listing), env);
            && Read(c, m, found, listing) == Some(m.log) && r.log == m.log
            && r.chunks == Some(Node.Recovered(m.log, env)) && r.files == Replay(m.log, map[])
  {
    var m := After(c, New(), steps, env);
    NewHolds(c, env);
    RunKeeps(c, New(), steps, env);
    StartReads(c, m, found, listing);
    Node.RecoverKeeps(View(m), env);
  }

  /** A crash of a running machine is invisible after a start: same bytes, same chunks, same versions and sizes. */
  lemma MachineSurvivesCrash(c: Codec, steps: seq<Step>, env: Node.Env, found: seq<nat>, listing: seq<nat>)
    requires Possible(c, New(), steps, env) && Faithful(c, After(c, New(), steps, env).log)
    requires var m := After(c, New(), steps, env);
             m.chunks.Some? && Enabled(c, m.(chunks := None), Restart(found, listing), env)
    ensures var m := After(c, New(), steps, env);
            var r := Next(c, m.(chunks := None), Restart(found, listing), env);
            && r.log == m.log && r.files == m.files
            && r.chunks.Some? && Node.SameMetadata(m.chunks.value, r.chunks.value)
  {
    var m := After(c, New(), steps, env);
    NewHolds(c, env);
    RunKeeps(c, New(), steps, env);
    StartReads(c, m.(chunks := None), found, listing);
    Node.RecoverKeeps(View(m), env);
  }

  lemma {:induction false} LastFileIsLogged(files: seq<seq<Entry>>)
    requires files != []
    ensures forall e :: e in files[|files| - 1] ==> e in Wal.Flatten(files)
  {
    if |files| > 1 {
      LastFileIsLogged(files[1..]);
    }
  }

  /** After a cut record, a start reads nothing. */
  lemma CutRecordFails(c: Codec, m: Machine, e: Entry, cut: nat, m1: Machine, found: seq<nat>, listing: seq<nat>)
    requires LogHeld(c, m) && m.kept.files != [] && m.wal.sequence < WalNames.LIMIT
    requires 0 < cut < |Frame(c, e)| && Faithful(c, m.log + [e])
    requires m1.wal == Wal.Written(m.wal, Frame(c, e)[..cut]) && Lists(m1, found, listing)
    ensures Read(c, m1, found, listing) == None
  {
    var last := m.kept.files[|m.kept.files| - 1];
    Wal.LastFileIs(c, m.wal, m.kept, last, Frame(c, e)[..cut]);
    Wal.SameNames(found, m1.wal.disk, m.wal.disk);
    Wal.LastListed(c, m.wal, m.kept, found);
    NothingCreated(m1.wal.disk, found, m.wal.sequence);
    LastFileIsLogged(m.kept.files);
    Wal.TornAppendFails(c, m.wal, m.kept, last, e, cut, m1.wal.disk, listing);
  }

  lemma NothingCreated(disk: Wal.Disk, found: seq<nat>, last: nat)
    requires found != [] && found[|found| - 1] == last && last in disk
    ensures Wal.Open(disk, found).disk == disk
  {
  }

  /**
   A crash in the append of a record. If no byte or the whole record has reached
   the log, the next start restores all that is logged. If part of it has, the log
   does not read at all: the node comes up without any chunk, though every byte is
   still in the chunk files, and numbers the next write of each chunk 2 again.
   */
  lemma CrashInAppendIff(c: Codec, m: Machine, env: Node.Env, req: Node.Request, now: int, cut: nat, m1: Machine,
                         found: seq<nat>, listing: seq<nat>)
    requires Inv(c, m, env) && Enabled(c, m, CrashInAppend(req, now, cut), env)
    requires Node.MayWrite(m.chunks.value, req.chunk, env)
    requires Faithful(c, m.log + [Logged(m, req, now, env)])
    requires m1 == Next(c, m, CrashInAppend(req, now, cut), env) && Enabled(c, m1, Restart(found, listing), env)
    ensures var torn := 0 < cut < |Frame(c, Logged(m, req, now, env))|;
            var r := Next(c, m1, Restart(found, listing), env);
            && Read(c, m1, found, listing) == (if torn then None else Some(m1.log))
            && r.chunks == Some(if torn then map[] else Node.Recovered(m1.log, env))
            && r.files == Replay(m1.log, map[])
            && (torn ==> forall id :: Node.Known(r.chunks.value, id, env).version + 1 == 2)
  {
    var e := Logged(m, req, now, env);
    if 0 < cut < |Frame(c, e)| {
      RotatedHeld(c, m, e);
      CutRecordFails(c, Rotated(c, m, e), e, cut, m1, found, listing);
    } else {
      StepKeeps(c, m, CrashInAppend(req, now, cut), env);
      StartReads(c, m1, found, listing);
      Node.RecoverKeeps(View(m1), env);
    }
  }
}
