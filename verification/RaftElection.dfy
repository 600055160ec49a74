/** Election safety: what every step keeps about votes, and why a term has at most one leader. */
module RaftElection {
  import opened Common
  import opened RaftTypes
  import opened RaftNode
  import opened RaftCluster

  type Nodes = map<NodeId, Node>
  type Grants = map<(NodeId, nat), Grant>
  type Rounds = map<(NodeId, nat), set<NodeId>>

  ghost predicate Fixed(nodes: Nodes, ids: set<NodeId>) {
    && nodes.Keys == ids
    && forall n :: n in nodes ==> nodes[n].id == n && nodes[n].peers == ids - {n}
  }

  ghost predicate Granted(grants: Grants, v: NodeId, t: nat, c: NodeId) {
    (v, t) in grants && grants[(v, t)].candidate == c
  }

  /** A node's vote of its current term is the recorded one, and it has not voted in any later term. */
  ghost predicate VoteRecorded(nd: Node, grants: Grants) {
    && (nd.votedFor != NOBODY ==> Granted(grants, nd.id, nd.currentTerm, nd.votedFor))
    && ((nd.id, nd.currentTerm) in grants ==> nd.votedFor == grants[(nd.id, nd.currentTerm)].candidate)
    && (forall t :: (nd.id, t) in grants ==> t <= nd.currentTerm && grants[(nd.id, t)].candidate != NOBODY)
  }

  ghost predicate VotesRecorded(nodes: Nodes, grants: Grants) {
    forall n :: n in nodes ==> VoteRecorded(nodes[n], grants)
  }

  /** A node that runs or leads has voted for itself. */
  ghost predicate SelfVoted(nodes: Nodes) {
    forall n :: n in nodes && nodes[n].role != Follower ==> nodes[n].votedFor == n
  }

  /** Every request and every positive answer in the network is backed by an election and a recorded vote. */
  ghost predicate AnswersRecorded(reqs: set<VoteRequest>, replies: set<VoteReply>, grants: Grants, rounds: Rounds,
                                  ids: set<NodeId>) {
    && (forall q :: q in reqs ==> q.candidate in ids && (q.candidate, q.term) in rounds)
    && (forall r :: r in replies ==>
          r.voter in ids && r.voter != r.req.candidate && r.req in reqs
          && (r.resp.granted ==> Granted(grants, r.voter, r.req.term, r.req.candidate)))
  }

  ghost predicate RoundRecorded(grants: Grants, n: NodeId, t: nat, votes: set<NodeId>, ids: set<NodeId>) {
    forall v :: v in votes ==> v in ids && v != n && Granted(grants, v, t, n)
  }

  /** Every counted vote is a recorded vote. */
  ghost predicate CountsRecorded(grants: Grants, rounds: Rounds, ids: set<NodeId>) {
    forall k :: k in rounds ==> RoundRecorded(grants, k.0, k.1, rounds[k], ids)
  }

  /** A reign rests on the votes of a majority, and its leader leads until its term moves on. */
  ghost predicate ReignElected(nodes: Nodes, grants: Grants, ids: set<NodeId>, t: nat, r: Reign) {
    && r.leader in nodes && IsMajority(r.quorum, ids) && r.leader in r.quorum
    && (forall v :: v in r.quorum ==> Granted(grants, v, t, r.leader))
    && nodes[r.leader].currentTerm >= t
    && (nodes[r.leader].currentTerm == t ==> nodes[r.leader].role == Leader)
  }

  ghost predicate ReignsElected(nodes: Nodes, grants: Grants, reigns: map<nat, Reign>, ids: set<NodeId>) {
    forall t :: t in reigns ==> ReignElected(nodes, grants, ids, t, reigns[t])
  }

  ghost predicate LeadersReign(nodes: Nodes, reigns: map<nat, Reign>) {
    forall n :: n in nodes && nodes[n].role == Leader ==>
      nodes[n].currentTerm in reigns && reigns[nodes[n].currentTerm].leader == n
  }

  ghost predicate ElectionInv(s: Cluster, ids: set<NodeId>) {
    match s
    case Cluster(nodes, rounds, net, hist) =>
      && ClusterIds(ids)
      && Fixed(nodes, ids)
      && VotesRecorded(nodes, hist.grants)
      && SelfVoted(nodes)
      && AnswersRecorded(net.voteReqs, net.voteReplies, hist.grants, rounds, ids)
      && CountsRecorded(hist.grants, rounds, ids)
      && ReignsElected(nodes, hist.grants, hist.reigns, ids)
      && LeadersReign(nodes, hist.reigns)
  }

  lemma InitElection(ids: set<NodeId>)
    requires ClusterIds(ids)
    ensures ElectionInv(Init(ids), ids)
  {
  }

  /** A move that leaves the ballot alone, or steps down into a later term. */
  ghost predicate Quiet(a: Node, b: Node) {
    && b.id == a.id && b.peers == a.peers
    && (|| (b.currentTerm == a.currentTerm && b.votedFor == a.votedFor && b.role == a.role)
        || (b.currentTerm > a.currentTerm && b.votedFor == NOBODY && b.role == Follower))
  }

  /** Moving one node on leaves the reigns standing, unless it gives up a term it leads. */
  lemma ReignsStand(nodes: Nodes, grants: Grants, reigns: map<nat, Reign>, ids: set<NodeId>, n: NodeId, nd: Node)
    requires ReignsElected(nodes, grants, reigns, ids) && n in nodes
    requires nd.currentTerm > nodes[n].currentTerm
          || (nd.currentTerm == nodes[n].currentTerm && (nodes[n].role == Leader ==> nd.role == Leader))
    ensures ReignsElected(nodes[n := nd], grants, reigns, ids)
  {
    forall t | t in reigns
      ensures ReignElected(nodes[n := nd], grants, ids, t, reigns[t])
    {
      assert ReignElected(nodes, grants, ids, t, reigns[t]);
    }
  }

  lemma LeadersStand(nodes: Nodes, reigns: map<nat, Reign>, n: NodeId, nd: Node)
    requires LeadersReign(nodes, reigns) && n in nodes
    requires nd.role == Leader ==> nodes[n].role == Leader && nd.currentTerm == nodes[n].currentTerm
    ensures LeadersReign(nodes[n := nd], reigns)
  {
  }

  lemma VotesStand(nodes: Nodes, grants: Grants, n: NodeId, nd: Node)
    requires VotesRecorded(nodes, grants) && SelfVoted(nodes) && n in nodes && Quiet(nodes[n], nd)
    ensures VotesRecorded(nodes[n := nd], grants)
    ensures SelfVoted(nodes[n := nd])
  {
    forall v | v in nodes
      ensures VoteRecorded(nodes[n := nd][v], grants)
    {
      assert VoteRecorded(nodes[v], grants);
    }
  }

  /** One node moves quietly, and nothing else that matters to elections changes. */
  ghost predicate QuietMove(s: Cluster, s': Cluster, n: NodeId) {
    && n in s.nodes && n in s'.nodes
    && s'.nodes == s.nodes[n := s'.nodes[n]] && Quiet(s.nodes[n], s'.nodes[n])
    && s'.hist.grants == s.hist.grants && s'.hist.reigns == s.hist.reigns && s'.rounds == s.rounds
    && s'.net.voteReqs == s.net.voteReqs && s'.net.voteReplies == s.net.voteReplies
  }

  lemma QuietKeeps(s: Cluster, s': Cluster, ids: set<NodeId>, n: NodeId)
    requires ElectionInv(s, ids) && QuietMove(s, s', n)
    ensures ElectionInv(s', ids)
  {
    VotesStand(s.nodes, s.hist.grants, n, s'.nodes[n]);
    LeadersStand(s.nodes, s.hist.reigns, n, s'.nodes[n]);
    ReignsStand(s.nodes, s.hist.grants, s.hist.reigns, ids, n, s'.nodes[n]);
  }

  ghost predicate Extends(grants: Grants, grants': Grants) {
    forall k :: k in grants ==> k in grants' && grants'[k] == grants[k]
  }

  lemma AnswersStand(reqs: set<VoteRequest>, replies: set<VoteReply>, grants: Grants, grants': Grants,
                     rounds: Rounds, ids: set<NodeId>)
    requires AnswersRecorded(reqs, replies, grants, rounds, ids) && Extends(grants, grants')
    ensures AnswersRecorded(reqs, replies, grants', rounds, ids)
  {
  }

  lemma CountsStand(grants: Grants, grants': Grants, rounds: Rounds, ids: set<NodeId>)
    requires CountsRecorded(grants, rounds, ids) && Extends(grants, grants')
    ensures CountsRecorded(grants', rounds, ids)
  {
    forall k | k in rounds
      ensures RoundRecorded(grants', k.0, k.1, rounds[k], ids)
    {
      assert RoundRecorded(grants, k.0, k.1, rounds[k], ids);
    }
  }

  lemma QuorumsStand(nodes: Nodes, grants: Grants, grants': Grants, reigns: map<nat, Reign>, ids: set<NodeId>)
    requires ReignsElected(nodes, grants, reigns, ids) && Extends(grants, grants')
    ensures ReignsElected(nodes, grants', reigns, ids)
  {
    forall t | t in reigns
      ensures ReignElected(nodes, grants', ids, t, reigns[t])
    {
      assert ReignElected(nodes, grants, ids, t, reigns[t]);
    }
  }

  /** A recorded vote never changes, so everything that rests on votes stands. */
  lemma GrantsOnlyGrow(s: Cluster, grants: Grants, ids: set<NodeId>)
    requires ElectionInv(s, ids) && Extends(s.hist.grants, grants)
    ensures AnswersRecorded(s.net.voteReqs, s.net.voteReplies, grants, s.rounds, ids)
    ensures CountsRecorded(grants, s.rounds, ids)
    ensures ReignsElected(s.nodes, grants, s.hist.reigns, ids)
  {
    AnswersStand(s.net.voteReqs, s.net.voteReplies, s.hist.grants, grants, s.rounds, ids);
    CountsStand(s.hist.grants, grants, s.rounds, ids);
    QuorumsStand(s.nodes, s.hist.grants, grants, s.hist.reigns, ids);
  }

  /** One node takes up a vote in a term it has not voted in. */
  lemma VoteTaken(nodes: Nodes, grants: Grants, ids: set<NodeId>, n: NodeId, nd: Node, g: Grant)
    requires Fixed(nodes, ids) && VotesRecorded(nodes, grants) && n in nodes
    requires nd.id == n && nd.currentTerm >= nodes[n].currentTerm && (n, nd.currentTerm) !in grants
    requires nd.votedFor == g.candidate != NOBODY
    ensures VotesRecorded(nodes[n := nd], grants[(n, nd.currentTerm) := g])
  {
    var grants' := grants[(n, nd.currentTerm) := g];
    assert VoteRecorded(nodes[n], grants);
    assert VoteRecorded(nd, grants');
    forall v | v in nodes && v != n
      ensures VoteRecorded(nodes[v], grants')
    {
      assert VoteRecorded(nodes[v], grants);
    }
  }

  /** A follower without a vote votes. */
  lemma CastKeeps(s: Cluster, s': Cluster, ids: set<NodeId>, n: NodeId, g: Grant)
    requires ElectionInv(s, ids) && n in s.nodes && s.nodes[n].votedFor == NOBODY && g.candidate != NOBODY
    requires s'.nodes == s.nodes[n := s.nodes[n].(votedFor := g.candidate)]
    requires s'.hist.grants == s.hist.grants[(n, s.nodes[n].currentTerm) := g]
    requires s'.hist.reigns == s.hist.reigns && s'.rounds == s.rounds && s'.net == s.net
    ensures ElectionInv(s', ids)
  {
    var nd := s.nodes[n].(votedFor := g.candidate);
    assert nd.role == Follower;
    assert VoteRecorded(s.nodes[n], s.hist.grants);
    VoteTaken(s.nodes, s.hist.grants, ids, n, nd, g);
    GrantsOnlyGrow(s, s'.hist.grants, ids);
    LeadersStand(s.nodes, s.hist.reigns, n, nd);
    ReignsStand(s.nodes, s'.hist.grants, s.hist.reigns, ids, n, nd);
  }

  lemma NewVoteKeeps(s: Cluster, s': Cluster, ids: set<NodeId>, n: NodeId, nd: Node, g: Grant)
    requires ElectionInv(s, ids) && n in s.nodes && g.candidate != NOBODY
    requires Quiet(s.nodes[n], nd) && nd.votedFor == NOBODY
    requires s'.nodes == s.nodes[n := nd.(votedFor := g.candidate)]
    requires s'.hist.grants == s.hist.grants[(n, nd.currentTerm) := g]
    requires s'.hist.reigns == s.hist.reigns && s'.rounds == s.rounds && s'.net == s.net
    ensures ElectionInv(s', ids)
  {
    var s1 := s.(nodes := s.nodes[n := nd]);
    QuietKeeps(s, s1, ids, n);
    CastKeeps(s1, s', ids, n, g);
  }

  /** How a vote request moves the voter: quietly, and then perhaps to a vote. */
  lemma VoteRequestMoves(nd: Node, req: VoteRequest) returns (nd1: Node)
    ensures Quiet(nd, nd1)
    ensures var (nd', resp) := HandleRequestVote(nd, req);
            if resp.granted
            then nd' == nd1.(votedFor := req.candidate) && nd1.votedFor in {NOBODY, req.candidate}
                 && nd1.currentTerm == req.term && UpToDate(req.lastLogTerm, req.lastLogIndex, nd.log)
            else nd' == nd1
  {
    nd1 := if req.term > nd.currentTerm then StepDown(nd, req.term) else nd;
  }

  lemma VoteRequestKeeps(s: Cluster, ids: set<NodeId>, n: NodeId, req: VoteRequest)
    requires ElectionInv(s, ids) && n in s.nodes && req in s.net.voteReqs && req.candidate != n
    ensures ElectionInv(NextVoteRequest(s, n, req), ids)
  {
    var s' := NextVoteRequest(s, n, req);
    var (nd, resp) := HandleRequestVote(s.nodes[n], req);
    var nd1 := VoteRequestMoves(s.nodes[n], req);
    var s1 := s'.(net := s.net);
    if resp.granted && nd1.votedFor == NOBODY {
      var g := Grant(req.candidate, nd.log, req.lastLogIndex, req.lastLogTerm);
      NothingYet(s, ids, n, nd1);
      NewVoteKeeps(s, s1, ids, n, nd1, g);
    } else {
      OldVote(s, ids, n, nd1);
      QuietKeeps(s, s1, ids, n);
    }
    AnswerKeeps(s1, s', ids, VoteReply(n, req, resp));
  }

  lemma NothingYet(s: Cluster, ids: set<NodeId>, n: NodeId, nd: Node)
    requires ElectionInv(s, ids) && n in s.nodes && Quiet(s.nodes[n], nd) && nd.votedFor == NOBODY
    ensures (n, nd.currentTerm) !in s.hist.grants
  {
    assert VoteRecorded(s.nodes[n], s.hist.grants);
  }

  lemma OldVote(s: Cluster, ids: set<NodeId>, n: NodeId, nd: Node)
    requires ElectionInv(s, ids) && n in s.nodes && Quiet(s.nodes[n], nd)
    ensures nd.votedFor != NOBODY ==> Granted(s.hist.grants, n, nd.currentTerm, nd.votedFor)
  {
    assert VoteRecorded(s.nodes[n], s.hist.grants);
  }

  /** An answer that is backed by a recorded vote may enter the network. */
  lemma AnswerKeeps(s: Cluster, s': Cluster, ids: set<NodeId>, r: VoteReply)
    requires ElectionInv(s, ids)
    requires r.voter in ids && r.voter != r.req.candidate && r.req in s.net.voteReqs
    requires r.resp.granted ==> Granted(s.hist.grants, r.voter, r.req.term, r.req.candidate)
    requires s'.nodes == s.nodes && s'.rounds == s.rounds
    requires s'.hist.grants == s.hist.grants && s'.hist.reigns == s.hist.reigns
    requires s'.net == s.net.(voteReplies := s.net.voteReplies + {r})
    ensures ElectionInv(s', ids)
  {
  }

  lemma TimeoutKeeps(s: Cluster, ids: set<NodeId>, n: NodeId)
    requires ElectionInv(s, ids) && n in s.nodes
    ensures ElectionInv(NextTimeout(s, n), ids)
  {
    var s' := NextTimeout(s, n);
    var nd := BeginElection(s.nodes[n]).0;
    CandidacyKeeps(s, s', ids, n, nd, s'.hist.grants[(n, nd.currentTerm)], BeginElection(s.nodes[n]).1);
  }

  /** A node that runs votes for itself in a term it has not voted in, and opens a round. */
  lemma CandidacyKeeps(s: Cluster, s': Cluster, ids: set<NodeId>, n: NodeId, nd: Node, g: Grant, req: VoteRequest)
    requires ElectionInv(s, ids) && n in s.nodes && (nd, req) == BeginElection(s.nodes[n]) && g.candidate == n
    requires s'.nodes == s.nodes[n := nd] && s'.rounds == s.rounds[(n, nd.currentTerm) := {}]
    requires s'.net == s.net.(voteReqs := s.net.voteReqs + {req})
    requires s'.hist.grants == s.hist.grants[(n, nd.currentTerm) := g] && s'.hist.reigns == s.hist.reigns
    ensures ElectionInv(s', ids)
  {
    assert VoteRecorded(s.nodes[n], s.hist.grants);
    VoteTaken(s.nodes, s.hist.grants, ids, n, nd, g);
    GrantsOnlyGrow(s, s'.hist.grants, ids);
    LeadersStand(s.nodes, s.hist.reigns, n, nd);
    ReignsStand(s.nodes, s'.hist.grants, s.hist.reigns, ids, n, nd);
    CandidateVoted(s.nodes, ids, n, nd);
    RoundOpened(s, s'.hist.grants, ids, n, nd.currentTerm, req);
  }

  lemma CandidateVoted(nodes: Nodes, ids: set<NodeId>, n: NodeId, nd: Node)
    requires Fixed(nodes, ids) && SelfVoted(nodes) && n in nodes && nd == BeginElection(nodes[n]).0
    ensures Fixed(nodes[n := nd], ids) && SelfVoted(nodes[n := nd])
  {
  }

  lemma RoundOpened(s: Cluster, grants: Grants, ids: set<NodeId>, n: NodeId, t: nat, req: VoteRequest)
    requires CountsRecorded(grants, s.rounds, ids) && req.candidate == n && req.term == t && n in ids
    requires AnswersRecorded(s.net.voteReqs, s.net.voteReplies, grants, s.rounds, ids)
    ensures CountsRecorded(grants, s.rounds[(n, t) := {}], ids)
    ensures AnswersRecorded(s.net.voteReqs + {req}, s.net.voteReplies, grants, s.rounds[(n, t) := {}], ids)
  {
  }

  lemma VoteReplyKeeps(s: Cluster, ids: set<NodeId>, r: VoteReply)
    requires ElectionInv(s, ids) && r in s.net.voteReplies && r.req.candidate in s.nodes
    ensures ElectionInv(NextVoteReply(s, r), ids)
  {
    var s' := NextVoteReply(s, r);
    var n := r.req.candidate;
    QuietKeeps(s, s'.(rounds := s.rounds), ids, n);
    if s'.rounds != s.rounds {
      VoteCounted(s.hist.grants, s.rounds, ids, n, r.req.term, r.voter);
    }
  }

  lemma VoteCounted(grants: Grants, rounds: Rounds, ids: set<NodeId>, n: NodeId, t: nat, v: NodeId)
    requires CountsRecorded(grants, rounds, ids) && (n, t) in rounds && v in ids && v != n && Granted(grants, v, t, n)
    ensures CountsRecorded(grants, rounds[(n, t) := rounds[(n, t)] + {v}], ids)
  {
    assert RoundRecorded(grants, n, t, rounds[(n, t)], ids);
    assert RoundRecorded(grants, n, t, rounds[(n, t)] + {v}, ids);
  }

  /** Reaching the threshold of the code means having a majority of the cluster. */
  lemma EnoughVotes(n: NodeId, others: set<NodeId>, ids: set<NodeId>)
    requires n in ids && others <= ids - {n} && 1 + |others| >= (|ids - {n}| + 1) / 2 + 1
    ensures IsMajority({n} + others, ids)
  {
    assert ids == {n} + (ids - {n});
    assert |ids| == 1 + |ids - {n}|;
    assert |{n} + others| == 1 + |others|;
  }

  /** The votes behind a won election come from a majority, and the term had no leader. */
  lemma WonByMajority(s: Cluster, ids: set<NodeId>, n: NodeId, t: nat)
    requires ElectionInv(s, ids) && n in s.nodes && (n, t) in s.rounds
    requires WinsElection(s.nodes[n], t, 1 + |s.rounds[(n, t)]|)
    ensures IsMajority({n} + s.rounds[(n, t)], ids)
    ensures forall v :: v in {n} + s.rounds[(n, t)] ==> Granted(s.hist.grants, v, t, n)
    ensures t !in s.hist.reigns
  {
    var q := s.rounds[(n, t)];
    assert VoteRecorded(s.nodes[n], s.hist.grants);
    assert RoundRecorded(s.hist.grants, n, t, q, ids);
    EnoughVotes(n, q, ids);
    if t in s.hist.reigns {
      assert ReignElected(s.nodes, s.hist.grants, ids, t, s.hist.reigns[t]);
      var v := MajoritiesMeet({n} + q, s.hist.reigns[t].quorum, ids);
      assert false;
    }
  }

  lemma ReignBegins(nodes: Nodes, grants: Grants, reigns: map<nat, Reign>, ids: set<NodeId>, t: nat, r: Reign)
    requires ReignsElected(nodes, grants, reigns, ids) && ReignElected(nodes, grants, ids, t, r)
    ensures ReignsElected(nodes, grants, reigns[t := r], ids)
  {
  }

  lemma CloseKeeps(s: Cluster, ids: set<NodeId>, n: NodeId, t: nat)
    requires ElectionInv(s, ids) && n in s.nodes && (n, t) in s.rounds
    ensures ElectionInv(NextClose(s, n, t), ids)
  {
    var s' := NextClose(s, n, t);
    if WinsElection(s.nodes[n], t, 1 + |s.rounds[(n, t)]|) {
      WonByMajority(s, ids, n, t);
      CrownKeeps(s, ids, n, s'.nodes[n], s'.hist.reigns[t]);
    } else {
      QuietKeeps(s, s', ids, n);
    }
  }

  /** A candidate that starts to reign. */
  lemma CrownKeeps(s: Cluster, ids: set<NodeId>, n: NodeId, nd: Node, r: Reign)
    requires ElectionInv(s, ids) && n in s.nodes && s.nodes[n].role == Candidate
    requires nd == BecomeLeader(s.nodes[n]) && r.leader == n && n in r.quorum && IsMajority(r.quorum, ids)
    requires nd.currentTerm !in s.hist.reigns
    requires forall v :: v in r.quorum ==> Granted(s.hist.grants, v, nd.currentTerm, n)
    ensures Fixed(s.nodes[n := nd], ids)
    ensures VotesRecorded(s.nodes[n := nd], s.hist.grants)
    ensures SelfVoted(s.nodes[n := nd])
    ensures ReignsElected(s.nodes[n := nd], s.hist.grants, s.hist.reigns[nd.currentTerm := r], ids)
    ensures LeadersReign(s.nodes[n := nd], s.hist.reigns[nd.currentTerm := r])
  {
    ReignsStand(s.nodes, s.hist.grants, s.hist.reigns, ids, n, nd);
    ReignBegins(s.nodes[n := nd], s.hist.grants, s.hist.reigns, ids, nd.currentTerm, r);
    BallotKept(s.nodes, s.hist.grants, ids, n, nd);
    LeaderCrowned(s.nodes, s.hist.reigns, n, nd, r);
  }

  lemma LeaderCrowned(nodes: Nodes, reigns: map<nat, Reign>, n: NodeId, nd: Node, r: Reign)
    requires LeadersReign(nodes, reigns) && nd.currentTerm !in reigns && r.leader == n
    ensures LeadersReign(nodes[n := nd], reigns[nd.currentTerm := r])
  {
  }

  /** Votes depend on a node's name, term and vote only. */
  lemma BallotKept(nodes: Nodes, grants: Grants, ids: set<NodeId>, n: NodeId, nd: Node)
    requires Fixed(nodes, ids) && VotesRecorded(nodes, grants) && SelfVoted(nodes) && n in nodes
    requires nd.id == n && nd.peers == nodes[n].peers && nd.currentTerm == nodes[n].currentTerm
    requires nd.votedFor == nodes[n].votedFor == n
    ensures Fixed(nodes[n := nd], ids)
    ensures VotesRecorded(nodes[n := nd], grants)
    ensures SelfVoted(nodes[n := nd])
  {
    forall v | v in nodes
      ensures VoteRecorded(nodes[n := nd][v], grants)
    {
      assert VoteRecorded(nodes[v], grants);
    }
  }

  lemma AppendIsQuiet(nd: Node, req: AppendRequest)
    ensures Quiet(nd, HandleAppendEntries(nd, req).0)
  {
  }

  lemma AppendReplyIsQuiet(s: Cluster, r: AppendReply)
    requires r.req.leader in s.nodes
    ensures QuietMove(s, NextAppendReply(s, r), r.req.leader)
  {
    assert Quiet(s.nodes[r.req.leader], HandleAppendReply(s.nodes[r.req.leader], r.from, r.req, r.resp));
  }

  lemma SubmitIsQuiet(s: Cluster, n: NodeId, cmd: Command)
    requires n in s.nodes
    ensures QuietMove(s, NextSubmit(s, n, cmd), n)
  {
  }

  lemma SubmitKeeps(s: Cluster, ids: set<NodeId>, n: NodeId, cmd: Command)
    requires ElectionInv(s, ids) && n in s.nodes
    ensures ElectionInv(NextSubmit(s, n, cmd), ids)
  {
    SubmitIsQuiet(s, n, cmd);
    QuietKeeps(s, NextSubmit(s, n, cmd), ids, n);
  }

  lemma AppendKeeps(s: Cluster, ids: set<NodeId>, m: AppendMsg)
    requires ElectionInv(s, ids) && m.to in s.nodes
    ensures ElectionInv(NextAppend(s, m), ids)
  {
    AppendIsQuiet(s.nodes[m.to], m.req);
    QuietKeeps(s, NextAppend(s, m), ids, m.to);
  }

  lemma AppendReplyKeeps(s: Cluster, ids: set<NodeId>, r: AppendReply)
    requires ElectionInv(s, ids) && r.req.leader in s.nodes
    ensures ElectionInv(NextAppendReply(s, r), ids)
  {
    AppendReplyIsQuiet(s, r);
    QuietKeeps(s, NextAppendReply(s, r), ids, r.req.leader);
  }

  lemma ApplyKeeps(s: Cluster, ids: set<NodeId>, n: NodeId)
    requires ElectionInv(s, ids) && n in s.nodes
    ensures ElectionInv(NextApply(s, n), ids)
  {
    QuietKeeps(s, NextApply(s, n), ids, n);
  }

  lemma StepKeepsElection(s: Cluster, ids: set<NodeId>, step: Step)
    requires ElectionInv(s, ids) && Enabled(s, step)
    ensures ElectionInv(Next(s, step), ids)
  {
    match step
    case Timeout(n) => TimeoutKeeps(s, ids, n);
    case DeliverVoteRequest(n, req) => VoteRequestKeeps(s, ids, n, req);
    case DeliverVoteReply(r) => VoteReplyKeeps(s, ids, r);
    case CloseElection(n, t) => CloseKeeps(s, ids, n, t);
    case Submit(n, cmd) => SubmitKeeps(s, ids, n, cmd);
    case Heartbeat(_, _, _) =>
    case DeliverAppend(m) => AppendKeeps(s, ids, m);
    case DeliverAppendReply(r) => AppendReplyKeeps(s, ids, r);
    case ApplyNext(n) => ApplyKeeps(s, ids, n);
  }
}
