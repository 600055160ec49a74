/** Values shared by the whole project. */
module Common {
  datatype Option<+T> = None | Some(value: T)

  /** What a Go map of numbers answers for a missing key. */
  function Get<K>(m: map<K, nat>, k: K): nat {
    if k in m then m[k] else 0
  }

  lemma SubsetSize<T>(a: set<T>, b: set<T>)
    requires a <= b
    ensures |a| <= |b|
  {
    assert b == a + (b - a);
  }

  /** The map that sends each of `keys` to `v`. */
  function Fill<K>(keys: set<K>, v: nat): map<K, nat> {
    map k | k in keys :: v
  }
}

/** Messages and log entries of the consensus layer. */
module RaftTypes {
  import opened Common

  /** A node's configured name. */
  datatype NodeId = NodeId(name: string)

  datatype Role = Follower | Candidate | Leader

  datatype Command = Command(kind: string, key: string, value: string, timestamp: int)

  datatype Entry = Entry(index: nat, term: nat, command: Option<Command>)

  const SENTINEL := Entry(0, 0, None)

  /** Position 0 always holds an entry: a node starts with the sentinel. */
  type Log = l: seq<Entry> | |l| >= 1 witness [SENTINEL]

  datatype VoteRequest = VoteRequest(term: nat, candidate: NodeId, lastLogIndex: nat, lastLogTerm: nat)

  datatype VoteResponse = VoteResponse(term: nat, granted: bool)

  datatype AppendRequest = AppendRequest(
    term: nat, leader: NodeId, prevLogIndex: nat, prevLogTerm: nat, entries: seq<Entry>, leaderCommit: nat)

  datatype AppendResponse = AppendResponse(term: nat, success: bool, conflictIndex: nat, conflictTerm: nat)

  function LastIndex(log: Log): nat {
    |log| - 1
  }

  function LastTerm(log: Log): nat {
    log[|log| - 1].term
  }

  function TermAt(log: Log, index: nat): nat {
    if index < |log| then log[index].term else 0
  }

  /** The vote test: a log ending in (term, index) is at least as up to date as `log`. */
  predicate UpToDate(term: nat, index: nat, log: Log) {
    term > LastTerm(log) || (term == LastTerm(log) && index >= LastIndex(log))
  }
}

/**
 One node as a value, and each handler as a function from the state before to
 the state after. `RaftServer` holds the imperative handlers and proves that
 each one computes the function given here.
 */
module RaftNode {
  import opened Common
  import opened RaftTypes

  /**
   `inHand` is the entry the apply loop has taken from its channel and not yet
   accounted for; `applied` lists the entries whose commands were handed to the
   state machine.
   */
  datatype Node = Node(
    id: NodeId,
    peers: set<NodeId>,
    currentTerm: nat,
    votedFor: NodeId,
    log: Log,
    role: Role,
    commitIndex: nat,
    lastApplied: nat,
    nextIndex: map<NodeId, nat>,
    matchIndex: map<NodeId, nat>,
    leaderId: NodeId,
    applyQueue: seq<Entry>,
    inHand: Option<Entry>,
    applied: seq<Entry>)

  const NOBODY := NodeId("")
  const QUEUE_CAPACITY: nat := 1000
  const MAX_UINT64: nat := 0xFFFF_FFFF_FFFF_FFFF

  function NewNode(id: NodeId, peers: set<NodeId>): Node {
    Node(id, peers, 0, NOBODY, [SENTINEL], Follower, 0, 0, map[], map[], NOBODY, [], None, [])
  }

  function Majority(nd: Node): nat {
    (|nd.peers| + 1) / 2 + 1
  }

  // ---- elections ----

  function StepDown(nd: Node, term: nat): Node {
    nd.(currentTerm := term, role := Follower, votedFor := NOBODY)
  }

  function BeginElection(nd: Node): (Node, VoteRequest) {
    (nd.(role := Candidate, currentTerm := nd.currentTerm + 1, votedFor := nd.id),
     VoteRequest(nd.currentTerm + 1, nd.id, LastIndex(nd.log), LastTerm(nd.log)))
  }

  /** The state after one vote reply, and whether the reply counts as a vote. */
  function HandleVoteReply(nd: Node, resp: VoteResponse): (Node, bool) {
    if resp.term > nd.currentTerm then (StepDown(nd, resp.term), false) else (nd, resp.granted)
  }

  function BecomeLeader(nd: Node): Node {
    nd.(role := Leader,
        leaderId := nd.id,
        nextIndex := nd.nextIndex + Fill(nd.peers, LastIndex(nd.log) + 1),
        matchIndex := nd.matchIndex + Fill(nd.peers, 0))
  }

  predicate WinsElection(nd: Node, electionTerm: nat, votes: nat) {
    nd.role == Candidate && nd.currentTerm == electionTerm && votes >= Majority(nd)
  }

  function FinishElection(nd: Node, electionTerm: nat, votes: nat): Node {
    if WinsElection(nd, electionTerm, votes) then BecomeLeader(nd) else nd
  }

  function HandleRequestVote(nd: Node, req: VoteRequest): (Node, VoteResponse) {
    var nd1 := if req.term > nd.currentTerm then StepDown(nd, req.term) else nd;
    // The answer carries the term read before stepping down.
    if && req.term >= nd1.currentTerm
       && (nd1.votedFor == NOBODY || nd1.votedFor == req.candidate)
       && UpToDate(req.lastLogTerm, req.lastLogIndex, nd1.log)
    then (nd1.(votedFor := req.candidate), VoteResponse(nd.currentTerm, true))
    else (nd1, VoteResponse(nd.currentTerm, false))
  }

  // ---- replication ----

  /** The node after a proposal; a node that does not lead refuses it. */
  function Propose(nd: Node, cmd: Command): (Node, bool) {
    if nd.role != Leader then (nd, false)
    else (nd.(log := nd.log + [Entry(LastIndex(nd.log) + 1, nd.currentTerm, Some(cmd))]), true)
  }

  /**
   The request to `peer`. Term and commit index were read in an earlier locked
   section; subtraction wraps as it does on 64-bit unsigned words.
   */
  function Snapshot(nd: Node, peer: NodeId, term: nat, commit: nat): AppendRequest {
    var next := Get(nd.nextIndex, peer);
    var prev := if next == 0 then MAX_UINT64 else next - 1;
    AppendRequest(term, nd.id, prev, TermAt(nd.log, prev),
                  if next <= LastIndex(nd.log) then nd.log[next..] else [],
                  commit)
  }

  /** The request when nothing happens between the two sections. */
  function Latest(nd: Node, peer: NodeId): AppendRequest {
    Snapshot(nd, peer, nd.currentTerm, nd.commitIndex)
  }

  /** Walking down from `i`, one past the first entry whose term is not `term`; 0 when there is none. */
  function ScanConflict(log: Log, i: nat, term: nat): (r: nat)
    requires i < |log|
    ensures r <= i + 1
    ensures r > 0 ==> r > 1 && log[r - 1].term != term
    ensures forall k :: 1 <= k <= i && r <= k ==> log[k].term == term
  {
    if i == 0 then 0
    else if log[i].term != term then i + 1
    else ScanConflict(log, i - 1, term)
  }

  /** How many of the shipped entries, from the k-th on, the log already holds. */
  function Shared(log: Log, prev: nat, entries: seq<Entry>, k: nat): (r: nat)
    requires k <= |entries|
    ensures k <= r <= |entries|
    ensures r > k ==> prev + r < |log|
    ensures forall j :: k <= j < r ==> prev + 1 + j < |log| && log[prev + 1 + j].term == entries[j].term
    ensures r < |entries| ==> prev + 1 + r >= |log| || log[prev + 1 + r].term != entries[r].term
    decreases |entries| - k
  {
    if k < |entries| && prev + 1 + k < |log| && log[prev + 1 + k].term == entries[k].term
    then Shared(log, prev, entries, k + 1)
    else k
  }

  /** The log after the append loop: cut at the first disagreement, or unchanged when there is none. */
  function Merge(log: Log, prev: nat, entries: seq<Entry>): (r: Log)
    requires prev < |log|
    ensures |r| > prev + |entries|
  {
    var k := Shared(log, prev, entries, 0);
    if k == |entries| then log else log[..prev + 1 + k] + entries[k..]
  }

  /** Offering entries to the apply channel: what does not fit is dropped. */
  function Offer(queue: seq<Entry>, span: seq<Entry>): seq<Entry> {
    if |queue| + |span| <= QUEUE_CAPACITY then queue + span
    else if |queue| >= QUEUE_CAPACITY then queue
    else queue + span[..QUEUE_CAPACITY - |queue|]
  }

  /** The entries a commit loop offers. */
  function Pending(log: Log, lastApplied: nat, commitIndex: nat): seq<Entry>
    requires commitIndex < |log|
  {
    if lastApplied < commitIndex then log[lastApplied + 1..commitIndex + 1] else []
  }

  predicate Consistent(log: Log, req: AppendRequest) {
    req.prevLogIndex > 0 ==> req.prevLogIndex < |log| && log[req.prevLogIndex].term == req.prevLogTerm
  }

  /** The refusal sent back for a request that does not fit the log. */
  function Refusal(log: Log, term: nat, req: AppendRequest): AppendResponse
    requires !Consistent(log, req)
  {
    if req.prevLogIndex >= |log| then AppendResponse(term, false, |log|, 0)
    else
      var conflictTerm := log[req.prevLogIndex].term;
      AppendResponse(term, false, ScanConflict(log, req.prevLogIndex - 1, conflictTerm), conflictTerm)
  }

  function Accept(nd: Node, req: AppendRequest): Node
    requires Consistent(nd.log, req)
  {
    var log := Merge(nd.log, req.prevLogIndex, req.entries);
    var lastNew := req.prevLogIndex + |req.entries|;
    if req.leaderCommit > nd.commitIndex then
      var commit := if req.leaderCommit < lastNew then req.leaderCommit else lastNew;
      nd.(log := log, commitIndex := commit, applyQueue := Offer(nd.applyQueue, Pending(log, nd.lastApplied, commit)))
    else nd.(log := log)
  }

  function HandleAppendEntries(nd: Node, req: AppendRequest): (Node, AppendResponse) {
    if req.term < nd.currentTerm then (nd, AppendResponse(nd.currentTerm, false, 0, 0))
    else
      var nd1 := (if req.term > nd.currentTerm then StepDown(nd, req.term) else nd).(leaderId := req.leader);
      // The answer carries the term read before stepping down.
      if !Consistent(nd1.log, req) then (nd1, Refusal(nd1.log, nd.currentTerm, req))
      else (Accept(nd1, req), AppendResponse(nd.currentTerm, true, 0, 0))
  }

  // ---- commit ----

  /** The peers known to hold the log up to `index`. */
  function Holders(matchIndex: map<NodeId, nat>, index: nat): set<NodeId> {
    set p | p in matchIndex && matchIndex[p] >= index
  }

  predicate Committable(nd: Node, index: nat)
    requires index < |nd.log|
  {
    nd.log[index].term == nd.currentTerm && 1 + |Holders(nd.matchIndex, index)| >= Majority(nd)
  }

  /** The highest committable index from `i` down to the commit index. */
  function ScanCommit(nd: Node, i: nat): (r: nat)
    requires i < |nd.log|
    ensures nd.commitIndex <= r
    ensures r > nd.commitIndex ==> r <= i && Committable(nd, r)
    ensures forall k :: r < k <= i ==> !Committable(nd, k)
  {
    if i <= nd.commitIndex then nd.commitIndex
    else if Committable(nd, i) then i
    else ScanCommit(nd, i - 1)
  }

  function UpdateCommitIndex(nd: Node): Node {
    var commit := ScanCommit(nd, LastIndex(nd.log));
    if commit == nd.commitIndex then nd
    else nd.(commitIndex := commit, applyQueue := Offer(nd.applyQueue, Pending(nd.log, nd.lastApplied, commit)))
  }

  function HandleAppendReply(nd: Node, peer: NodeId, req: AppendRequest, resp: AppendResponse): Node {
    if resp.term > nd.currentTerm then StepDown(nd, resp.term)
    else if resp.success then
      if |req.entries| == 0 then nd
      else
        var last := req.entries[|req.entries| - 1].index;
        UpdateCommitIndex(nd.(nextIndex := nd.nextIndex[peer := last + 1], matchIndex := nd.matchIndex[peer := last]))
    else if resp.conflictIndex > 0 then nd.(nextIndex := nd.nextIndex[peer := resp.conflictIndex])
    else if Get(nd.nextIndex, peer) > 1 then nd.(nextIndex := nd.nextIndex[peer := nd.nextIndex[peer] - 1])
    else nd
  }

  /** Half a turn of the apply loop: an entry is taken and applied, or the one in hand becomes the last applied one. */
  function ApplyTurn(nd: Node): Node {
    if nd.inHand.Some? then nd.(lastApplied := nd.inHand.value.index, inHand := None)
    else if nd.applyQueue == [] then nd
    else
      var entry := nd.applyQueue[0];
      nd.(applyQueue := nd.applyQueue[1..],
          inHand := Some(entry),
          applied := if entry.command.Some? then nd.applied + [entry] else nd.applied)
  }
}
