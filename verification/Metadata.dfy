/**
 The replicated metadata: commands on files, chunks and data nodes, the integrity
 of the references between files and chunks, and the agreement of replicas.
 */
module Metadata {
  import opened Common
  import opened Replicas
  import WalNames

  datatype File = File(name: string, path: string, size: int, chunkIds: seq<string>, created: int, modified: int)

  datatype Chunk = Chunk(file: string, index: nat, size: int, checksum: string, replicas: seq<Replica>, created: int)

  datatype DataNode = DataNode(address: string, port: int, total: int, used: int, chunks: int, online: bool, seen: int)

  datatype State = State(
    files: map<string, File>, chunks: map<string, Chunk>, nodes: map<string, DataNode>, version: nat)

  datatype Command =
    | RegisterNode(id: string, address: string, port: int, total: int, used: int)
    | UnregisterNode(id: string)
    | CreateFile(id: string, name: string, path: string, size: int)
    | DeleteFile(id: string)
    | AllocChunk(chunk: string, file: string, index: nat, size: int, replicas: seq<string>)
    | UpdateChunk(chunk: string, checksum: string, size: int)
    | Invalid

  function Empty(): State {
    State(map[], map[], map[], 0)
  }

  function Elements(s: seq<string>): set<string> {
    set x | x in s
  }

  /** What a command does to files and chunks and nodes, at the given time. */
  function Changed(s: State, cmd: Command, now: int): State {
    match cmd
    case RegisterNode(id, address, port, total, used) =>
      s.(nodes := s.nodes[id := DataNode(address, port, total, used, 0, true, now)])
    case UnregisterNode(id) =>
      if id in s.nodes then s.(nodes := s.nodes[id := s.nodes[id].(online := false)]) else s
    case CreateFile(id, name, path, size) =>
      s.(files := s.files[id := File(name, path, size, [], now, now)])
    case DeleteFile(id) =>
      if id in s.files then s.(files := s.files - {id}, chunks := s.chunks - Elements(s.files[id].chunkIds)) else s
    case AllocChunk(chunk, file, index, size, replicas) =>
      s.(chunks := s.chunks[chunk := Chunk(file, index, size, "", NewReplicas(replicas, now), now)],
         files := if file in s.files
                  then s.files[file := s.files[file].(chunkIds := s.files[file].chunkIds + [chunk])] else s.files)
    case UpdateChunk(chunk, checksum, size) =>
      if chunk in s.chunks
      then s.(chunks := s.chunks[chunk := s.chunks[chunk].(checksum := checksum, size := size)]) else s
    case Invalid => s
  }

  /** Every command counts, whether it is valid or not. */
  function Apply(s: State, cmd: Command, now: int): State {
    Changed(s, cmd, now).(version := s.version + 1)
  }

  // ---- names of chunks ----

  function Printed(n: nat): string {
    WalNames.Digits(n, WalNames.Width(n))
  }

  function ChunkName(file: string, index: nat): string {
    "chunk_" + file + "_" + Printed(index)
  }

  lemma {:induction false} DigitsHaveNoUnderscore(n: nat, w: nat)
    ensures '_' !in WalNames.Digits(n, w)
  {
    if w > 0 {
      DigitsHaveNoUnderscore(n / 10, w - 1);
    }
  }

  lemma SeparatorInside(a: string, b: string, x: string, y: string)
    requires a + "_" + x == b + "_" + y && |x| < |y|
    ensures '_' in y
  {
    assert (a + "_" + x)[|a|] == '_';
    assert (b + "_" + y)[|a|] == y[|a| - |b| - 1];
  }

  /** The last separator splits a string in one way only. */
  lemma SplitOnce(a: string, b: string, x: string, y: string)
    requires a + "_" + x == b + "_" + y && '_' !in x && '_' !in y
    ensures a == b && x == y
  {
    if |x| < |y| {
      SeparatorInside(a, b, x, y);
    } else if |y| < |x| {
      SeparatorInside(b, a, y, x);
    } else {
      var s := a + "_" + x;
      assert a == s[..|a|] == (b + "_" + y)[..|b|] == b;
      assert x == s[|a| + 1..] == (b + "_" + y)[|b| + 1..] == y;
    }
  }

  /** A chunk name determines its file and its index, even when file names contain underscores. */
  lemma ChunkNamesAreInjective(f: string, i: nat, g: string, j: nat)
    requires ChunkName(f, i) == ChunkName(g, j)
    ensures f == g && i == j
  {
    var x, y := Printed(i), Printed(j);
    DigitsHaveNoUnderscore(i, WalNames.Width(i));
    DigitsHaveNoUnderscore(j, WalNames.Width(j));
    SplitOnce("chunk_" + f, "chunk_" + g, x, y);
    assert f == ("chunk_" + f)[6..] == ("chunk_" + g)[6..] == g;
    WalNames.WidthSuffices(i);
    WalNames.WidthSuffices(j);
    WalNames.DigitsParse(i, WalNames.Width(i));
    WalNames.DigitsParse(j, WalNames.Width(j));
  }

  // ---- integrity ----

  /** Every chunk a file lists exists and names that file as its owner. */
  ghost predicate FileSound(files: map<string, File>, chunks: map<string, Chunk>, f: string)
    requires f in files
  {
    forall c :: c in files[f].chunkIds ==> c in chunks && chunks[c].file == f
  }

  ghost predicate Integrity(s: State) {
    forall f :: f in s.files ==> FileSound(s.files, s.chunks, f)
  }

  ghost predicate Listed(s: State, f: string, c: string) {
    f in s.files && c in s.files[f].chunkIds
  }

  /** Allocating a chunk keeps integrity exactly when no other file lists that chunk. */
  lemma AllocKeepsIff(s: State, cmd: Command, now: int)
    requires Integrity(s) && cmd.AllocChunk?
    ensures Integrity(Apply(s, cmd, now)) <==> forall g :: g != cmd.file ==> !Listed(s, g, cmd.chunk)
  {
    var s' := Apply(s, cmd, now);
    if forall g :: g != cmd.file ==> !Listed(s, g, cmd.chunk) {
      forall f | f in s'.files
        ensures FileSound(s'.files, s'.chunks, f)
      {
        assert FileSound(s.files, s.chunks, f);
        assert f != cmd.file ==> !Listed(s, f, cmd.chunk);
      }
    } else {
      var g :| g != cmd.file && Listed(s, g, cmd.chunk);
      assert cmd.chunk in s'.files[g].chunkIds && s'.chunks[cmd.chunk].file != g;
    }
  }

  /** No other command can break integrity. */
  lemma OthersKeep(s: State, cmd: Command, now: int)
    requires Integrity(s) && !cmd.AllocChunk?
    ensures Integrity(Apply(s, cmd, now))
  {
    var s' := Apply(s, cmd, now);
    forall f | f in s'.files
      ensures FileSound(s'.files, s'.chunks, f)
    {
      if f in s.files {
        assert FileSound(s.files, s.chunks, f);
      }
      if cmd.DeleteFile? && cmd.id in s.files {
        assert FileSound(s.files, s.chunks, cmd.id);
      }
    }
  }

  /** Allocations name the chunk after its file and index, as the master does. */
  predicate WellNamed(cmd: Command) {
    cmd.AllocChunk? ==> cmd.chunk == ChunkName(cmd.file, cmd.index)
  }

  ghost predicate ChunksNamed(s: State) {
    forall c :: c in s.chunks ==> c == ChunkName(s.chunks[c].file, s.chunks[c].index)
  }

  lemma CommandKeeps(s: State, cmd: Command, now: int)
    requires Integrity(s) && ChunksNamed(s) && WellNamed(cmd)
    ensures Integrity(Apply(s, cmd, now)) && ChunksNamed(Apply(s, cmd, now))
  {
    if cmd.AllocChunk? {
      forall g | g != cmd.file
        ensures !Listed(s, g, cmd.chunk)
      {
        if Listed(s, g, cmd.chunk) {
          assert FileSound(s.files, s.chunks, g);
          ChunkNamesAreInjective(cmd.file, cmd.index, g, s.chunks[cmd.chunk].index);
        }
      }
      AllocKeepsIff(s, cmd, now);
    } else {
      OthersKeep(s, cmd, now);
    }
  }

  // ---- what each command does ----

  /** Deleting a known file removes it and every chunk it lists, and nothing else. */
  lemma DeleteRemoves(s: State, id: string, now: int)
    requires id in s.files
    ensures var s' := Apply(s, Command.DeleteFile(id), now);
            && id !in s'.files && (forall f :: f in s'.files <==> f in s.files && f != id)
            && (forall f :: f in s'.files ==> s'.files[f] == s.files[f])
            && (forall c :: c in s.files[id].chunkIds ==> c !in s'.chunks)
            && (forall c :: c in s.chunks && c !in s.files[id].chunkIds ==>
                  c in s'.chunks && s'.chunks[c] == s.chunks[c])
            && s'.chunks.Keys <= s.chunks.Keys && s'.nodes == s.nodes
  {
  }

  /** A command about something unknown changes nothing but the count of commands. */
  lemma UnknownIsIgnored(s: State, cmd: Command, now: int)
    requires || cmd.Invalid? || (cmd.DeleteFile? && cmd.id !in s.files) || (cmd.UpdateChunk? && cmd.chunk !in s.chunks)
             || (cmd.UnregisterNode? && cmd.id !in s.nodes)
    ensures Apply(s, cmd, now) == State(s.files, s.chunks, s.nodes, s.version + 1)
  {
  }

  /** A created file is found under its name, has the given properties, and lists no chunk. */
  lemma CreateAdds(s: State, id: string, name: string, path: string, size: int, now: int)
    ensures var s' := Apply(s, Command.CreateFile(id, name, path, size), now);
            && id in s'.files && s'.files[id] == File(name, path, size, [], now, now)
            && (forall f :: f != id ==> (f in s'.files <==> f in s.files))
            && (forall f :: f != id && f in s.files ==> s'.files[f] == s.files[f])
            && s'.chunks == s.chunks && s'.nodes == s.nodes
  {
  }

  /** An updated chunk has the given checksum and size and is otherwise as it was. */
  lemma UpdateSets(s: State, chunk: string, checksum: string, size: int, now: int)
    requires chunk in s.chunks
    ensures var s' := Apply(s, Command.UpdateChunk(chunk, checksum, size), now);
            && s'.chunks.Keys == s.chunks.Keys && s'.chunks[chunk].checksum == checksum && s'.chunks[chunk].size == size
            && s'.chunks[chunk].file == s.chunks[chunk].file && s'.chunks[chunk].index == s.chunks[chunk].index
            && s'.chunks[chunk].replicas == s.chunks[chunk].replicas
            && s'.chunks[chunk].created == s.chunks[chunk].created
            && (forall c :: c in s.chunks && c != chunk ==> s'.chunks[c] == s.chunks[c])
            && s'.files == s.files && s'.nodes == s.nodes
  {
  }

  /** An allocated chunk has a healthy replica of version 0 on each named node in order, the first one primary. */
  lemma AllocAdds(s: State, cmd: Command, now: int)
    requires cmd.AllocChunk?
    ensures var s' := Apply(s, cmd, now);
            && cmd.chunk in s'.chunks
            && var c := s'.chunks[cmd.chunk];
               && c.file == cmd.file && c.index == cmd.index && c.size == cmd.size && c.checksum == ""
               && c.created == now
               && |c.replicas| == |cmd.replicas|
               && (forall i :: 0 <= i < |c.replicas| ==>
                     && c.replicas[i].node == cmd.replicas[i] && c.replicas[i].version == 0
                     && c.replicas[i].status == Healthy && (c.replicas[i].role == Primary <==> i == 0)
                     && c.replicas[i].updated == now)
    ensures var s' := Apply(s, cmd, now);
            && (forall c :: c != cmd.chunk ==> (c in s'.chunks <==> c in s.chunks))
            && (forall c :: c != cmd.chunk && c in s.chunks ==> s'.chunks[c] == s.chunks[c])
            && s'.files.Keys == s.files.Keys && s'.nodes == s.nodes
            && (forall f :: f in s.files && f != cmd.file ==> s'.files[f] == s.files[f])
            && (cmd.file in s.files ==> s'.files[cmd.file].chunkIds == s.files[cmd.file].chunkIds + [cmd.chunk])
  {
  }

  // ---- no chunk is left behind ----

  /** Every chunk on record is listed by the file it names, which exists. */
  ghost predicate NoOrphans(s: State) {
    forall c :: c in s.chunks ==> Listed(s, s.chunks[c].file, c)
  }

  /** An allocation names a known file, and no file that lists chunks is replaced by a new one. */
  predicate Careful(s: State, cmd: Command) {
    && (cmd.AllocChunk? ==> cmd.file in s.files)
    && (cmd.CreateFile? && cmd.id in s.files ==> s.files[cmd.id].chunkIds == [])
  }

  lemma CarefulKeeps(s: State, cmd: Command, now: int)
    requires NoOrphans(s) && Careful(s, cmd)
    ensures NoOrphans(Apply(s, cmd, now))
  {
    var s' := Apply(s, cmd, now);
    forall c | c in s'.chunks
      ensures Listed(s', s'.chunks[c].file, c)
    {
      if c in s.chunks {
        assert Listed(s, s.chunks[c].file, c);
      }
    }
  }

  /** Without care a chunk is left behind, on record but not listed by the file it names. */
  lemma CareIsNeeded(s: State, cmd: Command, now: int)
    requires NoOrphans(s) && Integrity(s)
    ensures NoOrphans(Apply(s, cmd, now)) <==> Careful(s, cmd)
  {
    var s' := Apply(s, cmd, now);
    if Careful(s, cmd) {
      CarefulKeeps(s, cmd, now);
    } else if cmd.AllocChunk? {
      assert cmd.chunk in s'.chunks && !Listed(s', s'.chunks[cmd.chunk].file, cmd.chunk);
    } else {
      var c := s.files[cmd.id].chunkIds[0];
      assert FileSound(s.files, s.chunks, cmd.id) && c in s.files[cmd.id].chunkIds;
      assert c in s'.chunks && !Listed(s', s'.chunks[c].file, c);
    }
  }

  ghost predicate CarefulRun(events: seq<Event>) {
    forall i :: 0 <= i < |events| && events[i].Replicated? ==> Careful(Run(events[..i]), events[i].cmd)
  }

  /** Over all careful runs the files and the chunks on record refer to each other, one for one. */
  lemma {:induction false} NothingLeftBehind(events: seq<Event>)
    requires CarefulRun(events)
    ensures NoOrphans(Run(events))
  {
    if events != [] {
      var front, last := events[..|events| - 1], events[|events| - 1];
      forall i | 0 <= i < |front|
        ensures front[..i] == events[..i]
      {
      }
      NothingLeftBehind(front);
      if last.Replicated? {
        CarefulKeeps(Run(front), last.cmd, last.now);
      } else {
        LocalOrphans(Run(front), last);
      }
    }
  }

  lemma LocalOrphans(s: State, e: Event)
    requires NoOrphans(s) && !e.Replicated?
    ensures NoOrphans(Step(s, e))
  {
    forall c | c in s.chunks
      ensures Listed(Step(s, e), s.chunks[c].file, c)
    {
      assert Listed(s, s.chunks[c].file, c);
    }
  }

  // ---- nodes ----

  predicate BringsOnline(e: Event, id: string) {
    match e
    case Replicated(cmd, _) => cmd.RegisterNode? && cmd.id == id
    case Heartbeat(node, _, _, _) => node == id
    case SetOffline(_) => false
  }

  predicate TakesOffline(e: Event, id: string) {
    match e
    case Replicated(cmd, _) => cmd.UnregisterNode? && cmd.id == id
    case Heartbeat(_, _, _, _) => false
    case SetOffline(node) => node == id
  }

  predicate Registers(e: Event, id: string) {
    e.Replicated? && e.cmd.RegisterNode? && e.cmd.id == id
  }

  /** A node is known once it was registered. */
  lemma {:induction false} KnownIff(events: seq<Event>, id: string)
    ensures id in Run(events).nodes <==> exists i :: 0 <= i < |events| && Registers(events[i], id)
  {
    if events != [] {
      var front, last := events[..|events| - 1], events[|events| - 1];
      KnownIff(front, id);
      StepKnows(Run(front), last, id);
      RegistersLater(events, front, last, id);
    }
  }

  lemma StepKnows(s: State, e: Event, id: string)
    ensures id in Step(s, e).nodes <==> id in s.nodes || Registers(e, id)
  {
  }

  lemma RegistersLater(events: seq<Event>, front: seq<Event>, last: Event, id: string)
    requires events == front + [last]
    ensures (exists i :: 0 <= i < |events| && Registers(events[i], id))
       <==> (exists i :: 0 <= i < |front| && Registers(front[i], id)) || Registers(last, id)
  {
    if Registers(last, id) {
      assert events[|front|] == last;
    }
    if i :| 0 <= i < |front| && Registers(front[i], id) {
      assert events[i] == front[i];
    }
  }

  /** What a registration and a heartbeat say of a node; no other node is concerned, nor any file or chunk. */
  lemma NodeReports(s: State, id: string, address: string, port: int, total: int, used: int, chunkCount: int, now: int)
    ensures var s' := Step(s, Replicated(RegisterNode(id, address, port, total, used), now));
            && id in s'.nodes && s'.nodes[id] == DataNode(address, port, total, used, 0, true, now)
            && (forall n :: n != id ==> (n in s'.nodes <==> n in s.nodes))
            && (forall n :: n != id && n in s.nodes ==> s'.nodes[n] == s.nodes[n])
            && s'.files == s.files && s'.chunks == s.chunks
    ensures var s' := Step(s, Heartbeat(id, chunkCount, used, now));
            && s'.nodes.Keys == s.nodes.Keys && s'.files == s.files && s'.chunks == s.chunks && s'.version == s.version
            && (id in s.nodes ==> s'.nodes[id]
                                  == s.nodes[id].(seen := now, chunks := chunkCount, used := used, online := true))
            && (forall n :: n != id && n in s.nodes ==> s'.nodes[n] == s.nodes[n])
  {
  }

  /** Every replicated command is counted once, known or not, and nothing else is. */
  lemma {:induction false} CommandsCounted(events: seq<Event>)
    ensures Run(events).version == |CommandsOf(events)|
  {
    if events != [] {
      CommandsCounted(events[..|events| - 1]);
    }
  }

  /** Event i brought the node online, when it was known, and no later one took it offline. */
  ghost predicate OnlineSince(events: seq<Event>, id: string, i: nat) {
    && i < |events| && BringsOnline(events[i], id)
    && (events[i].Heartbeat? ==> id in Run(events[..i]).nodes)
    && forall j :: i < j < |events| ==> !TakesOffline(events[j], id)
  }

  /** A node is online exactly when the last word on it brought it online. */
  lemma {:induction false} OnlineIff(events: seq<Event>, id: string)
    ensures id in Run(events).nodes && Run(events).nodes[id].online <==> exists i :: OnlineSince(events, id, i)
  {
    if events != [] {
      var front, last := events[..|events| - 1], events[|events| - 1];
      OnlineIff(front, id);
      if BringsOnline(last, id) && (last.Heartbeat? ==> id in Run(front).nodes) {
        assert OnlineSince(events, id, |front|);
      } else if TakesOffline(last, id) {
        assert forall i :: !OnlineSince(events, id, i);
      } else {
        forall i: nat
          ensures OnlineSince(events, id, i) <==> OnlineSince(front, id, i)
        {
          OnlineLonger(events, front, last, id, i);
        }
      }
    }
  }

  lemma OnlineLonger(events: seq<Event>, front: seq<Event>, last: Event, id: string, i: nat)
    requires events == front + [last] && !TakesOffline(last, id)
    requires !(BringsOnline(last, id) && (last.Heartbeat? ==> id in Run(front).nodes))
    ensures OnlineSince(events, id, i) <==> OnlineSince(front, id, i)
  {
    if i < |front| {
      assert front[..i] == events[..i] && front[i] == events[i];
      assert forall j :: i < j < |front| ==> front[j] == events[j];
      assert forall j :: i < j < |events| ==> j == |front| || events[j] == front[j];
    } else if i == |front| {
      assert events[..i] == front;
    }
  }

  // ---- replicas ----

  /** What happens at one replica: a replicated command, or an update of its own that is not replicated. */
  datatype Event =
    | Replicated(cmd: Command, now: int)
    | Heartbeat(node: string, chunkCount: int, usedSpace: int, now: int)
    | SetOffline(node: string)

  function Step(s: State, e: Event): State {
    match e
    case Replicated(cmd, now) => Apply(s, cmd, now)
    case Heartbeat(id, chunkCount, usedSpace, now) =>
      if id in s.nodes
      then s.(nodes := s.nodes[
                id := s.nodes[id].(seen := now, chunks := chunkCount, used := usedSpace, online := true)])
      else s
    case SetOffline(id) =>
      if id in s.nodes then s.(nodes := s.nodes[id := s.nodes[id].(online := false)]) else s
  }

  function Run(events: seq<Event>): State {
    if events == [] then Empty() else Step(Run(events[..|events| - 1]), events[|events| - 1])
  }

  function CommandsOf(events: seq<Event>): seq<Command> {
    if events == [] then []
    else CommandsOf(events[..|events| - 1])
         + if events[|events| - 1].Replicated? then [events[|events| - 1].cmd] else []
  }

  /** In every run whose allocations are named as the master names them, integrity holds. */
  lemma {:induction false} IntegrityHolds(events: seq<Event>)
    requires forall i :: 0 <= i < |CommandsOf(events)| ==> WellNamed(CommandsOf(events)[i])
    ensures Integrity(Run(events)) && ChunksNamed(Run(events))
  {
    if events != [] {
      var front, last := events[..|events| - 1], events[|events| - 1];
      assert CommandsOf(front) <= CommandsOf(events);
      assert last.Replicated? ==> CommandsOf(events)[|CommandsOf(front)|] == last.cmd;
      IntegrityHolds(front);
      if last.Replicated? {
        CommandKeeps(Run(front), last.cmd, last.now);
      } else {
        LocalKeeps(Run(front), last);
      }
    }
  }

  lemma LocalKeeps(s: State, e: Event)
    requires Integrity(s) && ChunksNamed(s) && !e.Replicated?
    ensures Integrity(Step(s, e)) && ChunksNamed(Step(s, e))
  {
    forall f | f in s.files
      ensures FileSound(Step(s, e).files, Step(s, e).chunks, f)
    {
      assert FileSound(s.files, s.chunks, f);
    }
  }

  function WithoutTimes(r: seq<Replica>): seq<Replica> {
    seq(|r|, i requires 0 <= i < |r| => r[i].(updated := 0))
  }

  predicate SameFile(a: File, b: File) {
    a.(created := 0, modified := 0) == b.(created := 0, modified := 0)
  }

  predicate SameChunk(a: Chunk, b: Chunk) {
    && a.(created := 0, replicas := []) == b.(created := 0, replicas := [])
    && WithoutTimes(a.replicas) == WithoutTimes(b.replicas)
  }

  /** The same files and chunks, apart from times. */
  ghost predicate Agree(s: State, t: State) {
    && s.files.Keys == t.files.Keys && s.chunks.Keys == t.chunks.Keys && s.version == t.version
    && (forall f :: f in s.files ==> SameFile(s.files[f], t.files[f]))
    && (forall c :: c in s.chunks ==> SameChunk(s.chunks[c], t.chunks[c]))
  }

  lemma AllocAgrees(s: State, t: State, cmd: Command, now: int, later: int)
    requires Agree(s, t) && cmd.AllocChunk?
    ensures Agree(Apply(s, cmd, now), Apply(t, cmd, later))
  {
    assert WithoutTimes(NewReplicas(cmd.replicas, now)) == WithoutTimes(NewReplicas(cmd.replicas, later));
    if cmd.file in s.files {
      assert SameFile(s.files[cmd.file], t.files[cmd.file]);
    }
  }

  lemma DeleteAgrees(s: State, t: State, cmd: Command, now: int, later: int)
    requires Agree(s, t) && cmd.DeleteFile?
    ensures Agree(Apply(s, cmd, now), Apply(t, cmd, later))
  {
    if cmd.id in s.files {
      assert SameFile(s.files[cmd.id], t.files[cmd.id]);
    }
  }

  lemma CommandAgrees(s: State, t: State, cmd: Command, now: int, later: int)
    requires Agree(s, t)
    ensures Agree(Apply(s, cmd, now), Apply(t, cmd, later))
  {
    if cmd.AllocChunk? {
      AllocAgrees(s, t, cmd, now, later);
    } else if cmd.DeleteFile? {
      DeleteAgrees(s, t, cmd, now, later);
    }
  }

  /** Replicas that applied the same commands agree, whenever they applied them and whatever heartbeats they saw. */
  lemma {:induction false} ReplicasAgree(a: seq<Event>, b: seq<Event>)
    requires CommandsOf(a) == CommandsOf(b)
    ensures Agree(Run(a), Run(b))
    decreases |a| + |b|
  {
    if a != [] && !a[|a| - 1].Replicated? {
      ReplicasAgree(a[..|a| - 1], b);
    } else if b != [] && !b[|b| - 1].Replicated? {
      ReplicasAgree(a, b[..|b| - 1]);
    } else if a != [] && b != [] {
      var x, y := a[|a| - 1], b[|b| - 1];
      LastCommand(a);
      LastCommand(b);
      ReplicasAgree(a[..|a| - 1], b[..|b| - 1]);
      CommandAgrees(Run(a[..|a| - 1]), Run(b[..|b| - 1]), x.cmd, x.now, y.now);
    }
  }

  lemma LastCommand(a: seq<Event>)
    requires a != [] && a[|a| - 1].Replicated?
    ensures var c := CommandsOf(a); |c| >= 1 && c[|c| - 1] == a[|a| - 1].cmd && c[..|c| - 1] == CommandsOf(a[..|a| - 1])
  {
  }
}

/** The state machine as an object whose maps its commands reassign. */
module MetadataStore {
  import opened Common
  import opened Replicas
  import Spec = Metadata

  class StateMachine {
    var files: map<string, Spec.File>
    var chunks: map<string, Spec.Chunk>
    var nodes: map<string, Spec.DataNode>
    var version: nat

    ghost function View(): Spec.State
      reads this
    {
      Spec.State(files, chunks, nodes, version)
    }

    constructor ()
      ensures View() == Spec.Empty()
    {
      files, chunks, nodes, version := map[], map[], map[], 0;
    }

    method Apply(cmd: Spec.Command, now: int) returns (known: bool)
      modifies this
      ensures View() == Spec.Apply(old(View()), cmd, now)
      ensures known <==> cmd != Spec.Invalid
    {
      version := version + 1;
      known := true;
      match cmd
      case RegisterNode(id, address, port, total, used) =>
        nodes := nodes[id := Spec.DataNode(address, port, total, used, 0, true, now)];
      case UnregisterNode(id) =>
        if id in nodes {
          nodes := nodes[id := nodes[id].(online := false)];
        }
      case CreateFile(id, name, path, size) =>
        files := files[id := Spec.File(name, path, size, [], now, now)];
      case DeleteFile(id) => DeleteFile(id);
      case AllocChunk(_, _, _, _, _) => AllocChunk(cmd, now);
      case UpdateChunk(chunk, checksum, size) =>
        if chunk in chunks {
          chunks := chunks[chunk := chunks[chunk].(checksum := checksum, size := size)];
        }
      case Invalid => known := false;
    }

    /** The listed chunks go one by one, then the file. */
    method DeleteFile(id: string)
      modifies this`files, this`chunks
      ensures View() == Spec.Changed(old(View()), Spec.Command.DeleteFile(id), 0)
    {
      if id in files {
        var ids := files[id].chunkIds;
        for i := 0 to |ids|
          invariant files == old(files) && chunks == old(chunks) - Spec.Elements(ids[..i])
        {
          assert Spec.Elements(ids[..i + 1]) == Spec.Elements(ids[..i]) + {ids[i]};
          chunks := chunks - {ids[i]};
        }
        assert ids[..|ids|] == ids;
        files := files - {id};
      }
    }

    /** The first replica is the primary. */
    method AllocChunk(cmd: Spec.Command, now: int)
      requires cmd.AllocChunk?
      modifies this`files, this`chunks
      ensures View() == Spec.Changed(old(View()), cmd, now)
    {
      var replicas := [];
      for i := 0 to |cmd.replicas|
        invariant |replicas| == i && forall j :: 0 <= j < i ==> replicas[j] == NewReplicas(cmd.replicas, now)[j]
      {
        replicas := replicas + [Replica(cmd.replicas[i], if i == 0 then Primary else Secondary, 0, Healthy, now)];
      }
      assert replicas == NewReplicas(cmd.replicas, now);
      chunks := chunks[cmd.chunk := Spec.Chunk(cmd.file, cmd.index, cmd.size, "", replicas, now)];
      if cmd.file in files {
        files := files[cmd.file := files[cmd.file].(chunkIds := files[cmd.file].chunkIds + [cmd.chunk])];
      }
    }
  }
}
