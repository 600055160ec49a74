/**
 When a vote must be given. Every answer to a vote request is explained by what the
 voter knew, and a candidate that a majority can still vote for can be elected.
 */
module RaftVotes {
  import opened Common
  import opened RaftTypes
  import opened RaftNode
  import opened RaftCluster
  import opened RaftElection
  import opened RaftLog
  import opened RaftAcks
  import opened RaftSafety
  import opened RaftDurability

  // ---- every answer is explained ----

  /** The recorded vote of v in the term of the request went to another candidate. */
  ghost predicate VotedForAnother(grants: Grants, v: NodeId, req: VoteRequest) {
    (v, req.term) in grants && grants[(v, req.term)].candidate != req.candidate
  }

  /** What may stand in the way of a vote, and nothing else may. */
  ghost predicate MustRefuse(s: Cluster, v: NodeId, req: VoteRequest)
    requires v in s.nodes
  {
    || s.nodes[v].currentTerm > req.term
    || VotedForAnother(s.hist.grants, v, req)
    || Ahead(s.nodes[v].log, req.lastLogTerm, req.lastLogIndex)
  }

  lemma VoteIff(nd: Node, grants: Grants, req: VoteRequest)
    requires VoteRecorded(nd, grants) && req.candidate != NOBODY
    ensures HandleRequestVote(nd, req).1.granted
       <==> !(nd.currentTerm > req.term || VotedForAnother(grants, nd.id, req)
              || Ahead(nd.log, req.lastLogTerm, req.lastLogIndex))
  {
  }

  /** What a voter does besides: it steps into a later term, and a vote it gives is its vote of that term. */
  lemma VoterMoves(nd: Node, req: VoteRequest)
    ensures var (nd', resp) := HandleRequestVote(nd, req);
            && resp.term == nd.currentTerm
            && nd'.currentTerm == (if req.term > nd.currentTerm then req.term else nd.currentTerm)
            && (req.term > nd.currentTerm ==> nd'.role == Follower)
            && (req.term <= nd.currentTerm ==> nd'.role == nd.role)
            && nd'.votedFor == (if resp.granted then req.candidate
                                else if req.term > nd.currentTerm then NOBODY else nd.votedFor)
            && nd' == nd.(currentTerm := nd'.currentTerm, role := nd'.role, votedFor := nd'.votedFor)
  {
  }

  /** An answer is on record, given exactly when nothing stood in its way. */
  ghost predicate Answered(s: Cluster, r: VoteReply) {
    && r.voter in s.nodes && r.resp.term == s.nodes[r.voter].currentTerm
    && (r.resp.granted <==> !MustRefuse(s, r.voter, r.req))
  }

  lemma StepAnswers(s: Cluster, ids: set<NodeId>, step: Step, s': Cluster, r: VoteReply)
    requires ElectionInv(s, ids) && Enabled(s, step) && s' == Next(s, step)
    requires r in s'.net.voteReplies && r !in s.net.voteReplies
    ensures step == DeliverVoteRequest(r.voter, r.req) && Answered(s, r)
  {
    OnlyVotersAnswer(s, step, s', r);
    CandidatesNamed(s, ids, r.req);
    assert VoteRecorded(s.nodes[r.voter], s.hist.grants);
    VoteIff(s.nodes[r.voter], s.hist.grants, r.req);
  }

  lemma OnlyVotersAnswer(s: Cluster, step: Step, s': Cluster, r: VoteReply)
    requires Enabled(s, step) && s' == Next(s, step) && r in s'.net.voteReplies && r !in s.net.voteReplies
    ensures step == DeliverVoteRequest(r.voter, r.req) && r.resp == HandleRequestVote(s.nodes[r.voter], r.req).1
  {
  }

  lemma CandidatesNamed(s: Cluster, ids: set<NodeId>, req: VoteRequest)
    requires ElectionInv(s, ids) && req in s.net.voteReqs
    ensures req.candidate != NOBODY
  {
  }

  /** Every answer ever sent was given or refused for what the voter knew when it was asked. */
  lemma {:induction false} EveryAnswerExplained(run: Run, ids: set<NodeId>, j: nat, r: VoteReply) returns (k: nat)
    requires RunOf(run, ids) && j < |run.states| && r in run.states[j].net.voteReplies
    ensures k < j && run.steps[k] == DeliverVoteRequest(r.voter, r.req) && Answered(run.states[k], r)
  {
    if j == 0 {
      assert false;
    } else if r in run.states[j - 1].net.voteReplies {
      k := EveryAnswerExplained(run, ids, j - 1, r);
    } else {
      k := j - 1;
      AnsweredNext(run, ids, j, run.states[k], run.states[j], r);
    }
  }

  lemma AnsweredNext(run: Run, ids: set<NodeId>, j: nat, s: Cluster, s': Cluster, r: VoteReply)
    requires RunOf(run, ids) && 0 < j < |run.states| && s == run.states[j - 1] && s' == run.states[j]
    requires r in s'.net.voteReplies && r !in s.net.voteReplies
    ensures run.steps[j - 1] == DeliverVoteRequest(r.voter, r.req) && Answered(s, r)
  {
    ReachedAs(run, ids, j - 1, s);
    FollowsAt(run, ids, j, s, s');
    StepAnswers(s, ids, run.steps[j - 1], s', r);
  }

  // ---- later terms ----

  /** A follower of that term without a vote; all but term, role and vote is as before. */
  predicate FollowsIn(nd: Node, nd': Node, t: nat) {
    nd' == nd.(currentTerm := t, role := Follower, votedFor := NOBODY)
  }

  /** An answer that names a later term makes the node a follower of that term, and does nothing else. */
  lemma LaterAnswersStepDown(nd: Node, vote: VoteResponse, peer: NodeId, req: AppendRequest, resp: AppendResponse)
    ensures vote.term > nd.currentTerm ==>
              FollowsIn(nd, HandleVoteReply(nd, vote).0, vote.term) && !HandleVoteReply(nd, vote).1
    ensures vote.term <= nd.currentTerm ==>
              HandleVoteReply(nd, vote).0 == nd && (HandleVoteReply(nd, vote).1 <==> vote.granted)
    ensures resp.term > nd.currentTerm ==> FollowsIn(nd, HandleAppendReply(nd, peer, req, resp), resp.term)
    ensures resp.term <= nd.currentTerm && resp.success && req.entries == [] ==>
              HandleAppendReply(nd, peer, req, resp) == nd
  {
  }

  // ---- a candidate asks ----

  ghost predicate Asking(s: Cluster, n: NodeId, req: VoteRequest) {
    req in s.net.voteReqs && n in s.nodes && req.candidate == n && req.term == s.nodes[n].currentTerm
  }

  /** A candidate has an open round and a request in the network. */
  ghost predicate CandidatesAsk(s: Cluster) {
    forall n :: n in s.nodes && s.nodes[n].role == Candidate ==>
      (n, s.nodes[n].currentTerm) in s.rounds && exists req :: Asking(s, n, req)
  }

  /** Nobody becomes a candidate but by running. */
  lemma NewCandidateRuns(s: Cluster, step: Step, s': Cluster, n: NodeId)
    requires Enabled(s, step) && s' == Next(s, step) && n in s'.nodes && s'.nodes[n].role == Candidate
    ensures n in s.nodes
    ensures || step == Timeout(n)
            || (s.nodes[n].role == Candidate && s'.nodes[n].currentTerm == s.nodes[n].currentTerm)
  {
    NoNodeIsNew(s, step, n);
    if n != RaftCommit.Mover(step) {
      RaftCommit.OthersRest(s, step, n);
    } else if step.DeliverAppendReply? {
      AppendReplyIsQuiet(s, step.appendReply);
    }
  }

  lemma AskingIsRemembered(s: Cluster, step: Step)
    requires Enabled(s, step)
    ensures s.net.voteReqs <= Next(s, step).net.voteReqs && s.rounds.Keys <= Next(s, step).rounds.Keys
  {
  }

  lemma NoNodeIsNew(s: Cluster, step: Step, n: NodeId)
    requires Enabled(s, step) && n in Next(s, step).nodes
    ensures n in s.nodes
  {
  }

  lemma StepAsks(s: Cluster, ids: set<NodeId>, step: Step, s': Cluster)
    requires ElectionInv(s, ids) && CandidatesAsk(s) && Enabled(s, step) && s' == Next(s, step)
    ensures CandidatesAsk(s')
  {
    AskingIsRemembered(s, step);
    forall n | n in s'.nodes && s'.nodes[n].role == Candidate
      ensures (n, s'.nodes[n].currentTerm) in s'.rounds && exists req :: Asking(s', n, req)
    {
      NewCandidateRuns(s, step, s', n);
      if step == Timeout(n) {
        assert s.nodes[n].id == n;
        assert Asking(s', n, BeginElection(s.nodes[n]).1);
      } else {
        var req :| Asking(s, n, req);
        assert Asking(s', n, req);
      }
    }
  }

  lemma InitAsks(ids: set<NodeId>)
    ensures CandidatesAsk(Init(ids))
  {
  }

  lemma AsksNext(run: Run, ids: set<NodeId>, i: nat, s: Cluster, s': Cluster)
    requires RunOf(run, ids) && 0 < i < |run.states| && s == run.states[i - 1] && s' == run.states[i]
    requires CandidatesAsk(s)
    ensures CandidatesAsk(s')
  {
    ReachedAs(run, ids, i - 1, s);
    FollowsAt(run, ids, i, s, s');
    StepAsks(s, ids, run.steps[i - 1], s');
  }

  lemma {:induction false} ReachedAsking(run: Run, ids: set<NodeId>, i: nat)
    requires RunOf(run, ids) && i < |run.states|
    ensures CandidatesAsk(run.states[i])
  {
    if i == 0 {
      InitAsks(ids);
    } else {
      ReachedAsking(run, ids, i - 1);
      AsksNext(run, ids, i, run.states[i - 1], run.states[i]);
    }
  }

  // ---- a candidate can be elected ----

  /** Node v has not voted for another in term t, is in no later term, and its log is not ahead of the candidate's. */
  ghost predicate MayVote(s: Cluster, v: NodeId, c: NodeId)
    requires v in s.nodes && c in s.nodes
  {
    var t := s.nodes[c].currentTerm;
    && s.nodes[v].currentTerm <= t
    && ((v, t) in s.hist.grants ==> s.hist.grants[(v, t)].candidate == c)
    && !Ahead(s.nodes[v].log, LastTerm(s.nodes[c].log), LastIndex(s.nodes[c].log))
  }

  /** A candidate whose term a majority can still vote for: the term has no leader. */
  lemma NoLeaderYet(s: Cluster, ids: set<NodeId>, c: NodeId, q: set<NodeId>)
    requires ElectionInv(s, ids) && c in s.nodes && s.nodes[c].role == Candidate && IsMajority(q, ids)
    requires forall v :: v in q && (v, s.nodes[c].currentTerm) in s.hist.grants ==>
               s.hist.grants[(v, s.nodes[c].currentTerm)].candidate == c
    ensures s.nodes[c].currentTerm !in s.hist.reigns
  {
    var t := s.nodes[c].currentTerm;
    if t in s.hist.reigns {
      assert ReignElected(s.nodes, s.hist.grants, ids, t, s.hist.reigns[t]);
      var v := MajoritiesMeet(q, s.hist.reigns[t].quorum, ids);
      assert false;
    }
  }

  /** So its request declares its log as it is. */
  lemma RequestIsCurrent(s: Cluster, ids: set<NodeId>, c: NodeId, req: VoteRequest)
    requires LogInv(s, ids) && Asking(s, c, req) && req.term !in s.hist.reigns
    ensures req.lastLogIndex == LastIndex(s.nodes[c].log) && req.lastLogTerm == LastTerm(s.nodes[c].log)
  {
    assert Declared(s.nodes, s.hist.reigns, req.candidate, req.term, req.lastLogIndex, req.lastLogTerm);
  }

  lemma VoterIsWilling(s: Cluster, ids: set<NodeId>, c: NodeId, v: NodeId, req: VoteRequest)
    requires ElectionInv(s, ids) && Asking(s, c, req) && v in s.nodes && MayVote(s, v, c)
    requires req.lastLogIndex == LastIndex(s.nodes[c].log) && req.lastLogTerm == LastTerm(s.nodes[c].log)
    ensures Willing(s.nodes[v], req)
  {
    assert VoteRecorded(s.nodes[v], s.hist.grants);
  }

  /** Asked, the voters elect it. */
  lemma Elects(run: Run, ids: set<NodeId>, c: NodeId, req: VoteRequest, voters: set<NodeId>) returns (next: Run)
    requires RunOf(run, ids) && Asking(Last(run), c, req) && (c, req.term) in Last(run).rounds
    requires Last(run).nodes[c].role == Candidate && Last(run).nodes[c].peers == ids - {c} && c in ids
    requires c !in voters && voters <= Last(run).nodes.Keys && 2 * (|voters| + 1) > |ids|
    requires forall v :: v in voters ==> Willing(Last(run).nodes[v], req)
    ensures Continues(run, next, ids) && Leads(Last(next), c, req.term)
  {
    var asked := AsksAll(run, run, ids, c, req, voters);
    SubsetSize(voters, Last(asked).rounds[(c, req.term)]);
    assert |ids - {c}| == |ids| - 1;
    next := Goes(run, asked, ids, CloseElection(c, req.term));
  }

  lemma WithoutOne(q: set<NodeId>, c: NodeId)
    ensures |q - {c}| + 1 >= |q|
  {
    SubsetSize(q, q - {c} + {c});
  }

  /**
   A candidate is elected in some continuation if a majority of nodes is in no later
   term, has not voted for another in its term, and has logs that are not ahead of its own.
   */
  lemma CandidateCanWin(run: Run, ids: set<NodeId>, s: Cluster, c: NodeId, q: set<NodeId>)
    requires RunOf(run, ids) && s == Last(run) && c in s.nodes && s.nodes[c].role == Candidate && IsMajority(q, ids)
    requires forall v :: v in q ==> v in s.nodes && MayVote(s, v, c)
    ensures exists next :: Continues(run, next, ids) && Leads(Last(next), c, s.nodes[c].currentTerm)
  {
    ReachedAs(run, ids, |run.steps|, s);
    ReachedAsking(run, ids, |run.steps|);
    NoLeaderYet(s, ids, c, q);
    NamesOf(s, ids);
    var req :| Asking(s, c, req);
    RequestIsCurrent(s, ids, c, req);
    forall v | v in q - {c}
      ensures Willing(s.nodes[v], req)
    {
      VoterIsWilling(s, ids, c, v, req);
    }
    WithoutOne(q, c);
    var next := Elects(run, ids, c, req, q - {c});
  }
}
