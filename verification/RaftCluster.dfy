/**
 A cluster: its nodes, every message ever sent, and a history that no handler
 reads. A message that was sent may be delivered at any later time, any number
 of times, or never, which covers loss, delay, reordering and duplication.
 Timers are nondeterministic steps.
 */
module RaftCluster {
  import opened Common
  import opened RaftTypes
  import opened RaftNode

  datatype VoteReply = VoteReply(voter: NodeId, req: VoteRequest, resp: VoteResponse)

  datatype AppendMsg = AppendMsg(to: NodeId, req: AppendRequest)

  datatype AppendReply = AppendReply(from: NodeId, req: AppendRequest, resp: AppendResponse)

  datatype Network = Network(
    voteReqs: set<VoteRequest>,
    voteReplies: set<VoteReply>,
    appends: set<AppendMsg>,
    appendReplies: set<AppendReply>)

  /** A vote: for whom, the voter's log at that moment, and the end of log the candidate declared. */
  datatype Grant = Grant(candidate: NodeId, voterLog: Log, lastIndex: nat, lastTerm: nat)

  /** A won election: the winner, the nodes that voted for it, and its log at that moment. */
  datatype Reign = Reign(leader: NodeId, quorum: set<NodeId>, initial: Log)

  /** A commit decided by counting replicas: the counting node's term, the index, the nodes counted. */
  datatype Commit = Commit(term: nat, index: nat, quorum: set<NodeId>)

  /**
   History. `canon[t]` is the log of the leader of term t as it last stood in that
   term. `acks[(n, t)]` is the highest index up to which n accepted the log of the
   leader of term t while in that term. `queued` holds every entry ever put on an
   apply channel, with the node.
   */
  datatype History = History(
    grants: map<(NodeId, nat), Grant>,
    reigns: map<nat, Reign>,
    canon: map<nat, Log>,
    acks: map<(NodeId, nat), nat>,
    commits: set<Commit>,
    queued: set<(NodeId, Entry)>)

  /** `rounds[(n, t)]` holds the peers whose votes n has counted in its election of term t. */
  datatype Cluster = Cluster(
    nodes: map<NodeId, Node>,
    rounds: map<(NodeId, nat), set<NodeId>>,
    net: Network,
    hist: History)

  datatype Step =
    | Timeout(node: NodeId)
    | DeliverVoteRequest(node: NodeId, voteReq: VoteRequest)
    | DeliverVoteReply(voteReply: VoteReply)
    | CloseElection(node: NodeId, term: nat)
    | Submit(node: NodeId, cmd: Command)
    | Heartbeat(node: NodeId, peer: NodeId, commit: nat)
    | DeliverAppend(msg: AppendMsg)
    | DeliverAppendReply(appendReply: AppendReply)
    | ApplyNext(node: NodeId)

  function Init(ids: set<NodeId>): Cluster {
    Cluster(map id | id in ids :: NewNode(id, ids - {id}),
            map[],
            Network({}, {}, {}, {}),
            History(map[], map[], map[], map[], {}, {}))
  }

  predicate Enabled(s: Cluster, step: Step) {
    match step
    case Timeout(n) => n in s.nodes
    case DeliverVoteRequest(n, req) => n in s.nodes && req in s.net.voteReqs && req.candidate != n
    case DeliverVoteReply(r) => r in s.net.voteReplies && r.req.candidate in s.nodes
    case CloseElection(n, t) => n in s.nodes && (n, t) in s.rounds
    case Submit(n, _) => n in s.nodes
    case Heartbeat(n, p, commit) =>
      n in s.nodes && p in s.nodes[n].peers && s.nodes[n].role == Leader && commit <= s.nodes[n].commitIndex
    case DeliverAppend(m) => m in s.net.appends && m.to in s.nodes
    case DeliverAppendReply(r) => r in s.net.appendReplies && r.req.leader in s.nodes
    case ApplyNext(n) => n in s.nodes
  }

  function On(n: NodeId, queue: seq<Entry>): set<(NodeId, Entry)> {
    set e | e in queue :: (n, e)
  }

  /** Replacing one node; what its apply channel now holds is remembered. */
  function Put(s: Cluster, n: NodeId, nd: Node): Cluster {
    s.(nodes := s.nodes[n := nd],
       hist := s.hist.(queued := s.hist.queued + On(n, nd.applyQueue)))
  }

  function NextTimeout(s: Cluster, n: NodeId): Cluster
    requires n in s.nodes
  {
    var (nd, req) := BeginElection(s.nodes[n]);
    var s1 := Put(s, n, nd);
    s1.(rounds := s.rounds[(n, nd.currentTerm) := {}],
        net := s.net.(voteReqs := s.net.voteReqs + {req}),
        hist := s1.hist.(grants := s.hist.grants[
                           (n, nd.currentTerm) := Grant(n, nd.log, req.lastLogIndex, req.lastLogTerm)]))
  }

  function NextVoteRequest(s: Cluster, n: NodeId, req: VoteRequest): Cluster
    requires n in s.nodes
  {
    var (nd, resp) := HandleRequestVote(s.nodes[n], req);
    var s1 := Put(s, n, nd);
    s1.(net := s.net.(voteReplies := s.net.voteReplies + {VoteReply(n, req, resp)}),
        hist := s1.hist.(grants :=
                           if resp.granted && (n, req.term) !in s.hist.grants
                           then s.hist.grants[(n, req.term) :=
                                                Grant(req.candidate, nd.log, req.lastLogIndex, req.lastLogTerm)]
                           else s.hist.grants))
  }

  function NextVoteReply(s: Cluster, r: VoteReply): Cluster
    requires r.req.candidate in s.nodes
  {
    var n := r.req.candidate;
    var (nd, counted) := HandleVoteReply(s.nodes[n], r.resp);
    var key := (n, r.req.term);
    Put(s, n, nd).(rounds := if counted && key in s.rounds
                             then s.rounds[key := s.rounds[key] + {r.voter}] else s.rounds)
  }

  function NextClose(s: Cluster, n: NodeId, t: nat): Cluster
    requires n in s.nodes && (n, t) in s.rounds
  {
    var votes := 1 + |s.rounds[(n, t)]|;
    var nd := FinishElection(s.nodes[n], t, votes);
    var s1 := Put(s, n, nd);
    if !WinsElection(s.nodes[n], t, votes) then s1
    else s1.(hist := s1.hist.(reigns := s.hist.reigns[t := Reign(n, {n} + s.rounds[(n, t)], nd.log)],
                              canon := s.hist.canon[t := nd.log],
                              acks := s.hist.acks[(n, t) := LastIndex(nd.log)]))
  }

  function NextSubmit(s: Cluster, n: NodeId, cmd: Command): Cluster
    requires n in s.nodes
  {
    var (nd, ok) := Propose(s.nodes[n], cmd);
    var s1 := Put(s, n, nd);
    if !ok then s1
    else s1.(hist := s1.hist.(canon := s.hist.canon[nd.currentTerm := nd.log],
                              acks := s.hist.acks[(n, nd.currentTerm) := LastIndex(nd.log)]))
  }

  /** The commit index may have been read at any earlier moment of the leader's term, so it may be a smaller one. */
  function NextHeartbeat(s: Cluster, n: NodeId, p: NodeId, commit: nat): Cluster
    requires n in s.nodes
  {
    var req := Snapshot(s.nodes[n], p, s.nodes[n].currentTerm, commit);
    s.(net := s.net.(appends := s.net.appends + {AppendMsg(p, req)}))
  }

  function NextAppend(s: Cluster, m: AppendMsg): Cluster
    requires m.to in s.nodes
  {
    var (nd, resp) := HandleAppendEntries(s.nodes[m.to], m.req);
    var s1 := Put(s, m.to, nd);
    var key := (m.to, m.req.term);
    var upTo := m.req.prevLogIndex + |m.req.entries|;
    s1.(net := s.net.(appendReplies := s.net.appendReplies + {AppendReply(m.to, m.req, resp)}),
        hist := s1.hist.(acks := if resp.success && Get(s.hist.acks, key) <= upTo
                                 then s.hist.acks[key := upTo] else s.hist.acks))
  }

  function NextAppendReply(s: Cluster, r: AppendReply): Cluster
    requires r.req.leader in s.nodes
  {
    var n := r.req.leader;
    var nd := HandleAppendReply(s.nodes[n], r.from, r.req, r.resp);
    var s1 := Put(s, n, nd);
    if nd.commitIndex == s.nodes[n].commitIndex then s1
    else s1.(hist := s1.hist.(commits := s.hist.commits + {
                                Commit(nd.currentTerm, nd.commitIndex, {n} + Holders(nd.matchIndex, nd.commitIndex))}))
  }

  function NextApply(s: Cluster, n: NodeId): Cluster
    requires n in s.nodes
  {
    Put(s, n, ApplyTurn(s.nodes[n]))
  }

  function Next(s: Cluster, step: Step): Cluster
    requires Enabled(s, step)
  {
    match step
    case Timeout(n) => NextTimeout(s, n)
    case DeliverVoteRequest(n, req) => NextVoteRequest(s, n, req)
    case DeliverVoteReply(r) => NextVoteReply(s, r)
    case CloseElection(n, t) => NextClose(s, n, t)
    case Submit(n, cmd) => NextSubmit(s, n, cmd)
    case Heartbeat(n, p, commit) => NextHeartbeat(s, n, p, commit)
    case DeliverAppend(m) => NextAppend(s, m)
    case DeliverAppendReply(r) => NextAppendReply(s, r)
    case ApplyNext(n) => NextApply(s, n)
  }

  /** Every node has a non-empty name and knows exactly the others. */
  predicate ClusterIds(ids: set<NodeId>) {
    ids != {} && NOBODY !in ids
  }

  predicate IsMajority(q: set<NodeId>, ids: set<NodeId>) {
    q <= ids && 2 * |q| > |ids|
  }

  /** Two majorities share a node. */
  lemma MajoritiesMeet(q1: set<NodeId>, q2: set<NodeId>, ids: set<NodeId>) returns (v: NodeId)
    requires IsMajority(q1, ids) && IsMajority(q2, ids)
    ensures v in q1 && v in q2
  {
    if q1 * q2 == {} {
      SubsetSize(q1 + q2, ids);
      assert false;
    }
    v :| v in q1 * q2;
  }
}
