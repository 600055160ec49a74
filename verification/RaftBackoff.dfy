/**
 Conflict back-off: a leader and one follower exchange one request at a time.
 Every refusal lowers the next index, so a success follows, and it leaves the
 follower with the leader's whole log.
 */
module RaftBackoff {
  import opened Common
  import opened RaftTypes
  import opened RaftNode
  import opened RaftCluster
  import opened RaftLog
  import opened RaftAcks
  import opened RaftSafety

  datatype Pair = Pair(leader: Node, follower: Node)

  /** One heartbeat to the follower and its answer; the flag says whether the follower took it. */
  function Exchange(p: Pair): (Pair, bool) {
    var req := Latest(p.leader, p.follower.id);
    var (follower, resp) := HandleAppendEntries(p.follower, req);
    (Pair(HandleAppendReply(p.leader, p.follower.id, req, resp), follower), resp.success)
  }

  function After(p: Pair, rounds: nat): Pair
    decreases rounds
  {
    if rounds == 0 then p else After(Exchange(p).0, rounds - 1)
  }

  function NextIndex(p: Pair): nat {
    Get(p.leader.nextIndex, p.follower.id)
  }

  ghost predicate Matching(a: Log, b: Log) {
    forall k :: 0 <= k < |a| && k < |b| && a[k].term == b[k].term ==> a[..k + 1] == b[..k + 1]
  }

  /** A leader and a follower that is not ahead of it in terms. */
  ghost predicate Ready(p: Pair) {
    && p.leader.role == Leader && p.follower.currentTerm <= p.leader.currentTerm
    && p.follower.id in p.leader.nextIndex && NextIndex(p) >= 1
    && LogOk(p.leader.log) && LogOk(p.follower.log) && Matching(p.leader.log, p.follower.log)
  }

  /** In every reachable state a leader and any other node that is not ahead of it are such a pair. */
  lemma ReachableReady(run: Run, ids: set<NodeId>, i: nat, l: NodeId, f: NodeId)
    requires RunOf(run, ids) && i < |run.states| && l in ids && f in ids && l != f
    requires l in run.states[i].nodes && f in run.states[i].nodes
    requires run.states[i].nodes[l].role == Leader
    requires run.states[i].nodes[f].currentTerm <= run.states[i].nodes[l].currentTerm
    ensures Ready(Pair(run.states[i].nodes[l], run.states[i].nodes[f]))
  {
    var s := run.states[i];
    forall k | 0 <= k < |s.nodes[l].log| && k < |s.nodes[f].log| && s.nodes[l].log[k].term == s.nodes[f].log[k].term
      ensures s.nodes[l].log[..k + 1] == s.nodes[f].log[..k + 1]
    {
      LogMatching(run, ids, i, i, l, f, k);
    }
    Reached(run, ids, i);
    NodeKnown(s, ids, l);
    NodeKnown(s, ids, f);
    LeaderAndPeer(s.nodes[l], s.nodes[f], ids, s.hist.canon);
  }

  lemma NodeKnown(s: Cluster, ids: set<NodeId>, n: NodeId)
    requires LogsSafe(s, ids) && n in s.nodes
    ensures NodeFits(s.nodes[n], s.hist.canon) && s.nodes[n].id == n && s.nodes[n].peers == ids - {n}
  {
  }

  lemma LeaderAndPeer(l: Node, f: Node, ids: set<NodeId>, canon: Canon)
    requires NodeFits(l, canon) && NodeFits(f, canon) && l.role == Leader && l.peers == ids - {l.id}
    requires f.id in ids && f.id != l.id
    ensures LogOk(l.log) && LogOk(f.log) && f.id in l.nextIndex && l.nextIndex[f.id] >= 1
  {
  }

  /** A refusal lowers the next index, which stays at least 1, and moves no log. */
  lemma RefusalLowers(p: Pair)
    requires Ready(p) && !Exchange(p).1
    ensures var q := Exchange(p).0;
            Ready(q) && NextIndex(q) < NextIndex(p) && q.leader.log == p.leader.log && q.follower.log == p.follower.log
    ensures Exchange(p).0.leader.currentTerm == p.leader.currentTerm
  {
  }

  /** What a follower does with a request that fits: it ends up with the whole log. */
  lemma FollowerCopies(log: Log, c: Log, prev: nat, entries: seq<Entry>)
    requires LogOk(log) && LogOk(c) && Matching(c, log)
    requires prev < |log| && prev < |c| && log[prev].term == c[prev].term && entries == c[prev + 1..]
    ensures c <= Merge(log, prev, entries)
  {
    var k := Shared(log, prev, entries, 0);
    if k > 0 {
      assert log[prev + 1 + (k - 1)].term == entries[k - 1].term;
    }
    assert c[..prev + k + 1] == log[..prev + k + 1];
    MergeResult(log, c, prev, entries);
    assert c[..prev + |entries| + 1] == c;
  }

  /** A request that fits the follower's log starts within the leader's log. */
  lemma FittingRequest(p: Pair)
    requires Ready(p) && Consistent(p.follower.log, Latest(p.leader, p.follower.id))
    ensures var (req, c) := (Latest(p.leader, p.follower.id), p.leader.log);
            && req.prevLogIndex == NextIndex(p) - 1 < |c| && req.prevLogIndex < |p.follower.log|
            && p.follower.log[req.prevLogIndex].term == c[req.prevLogIndex].term
            && req.entries == c[req.prevLogIndex + 1..]
  {
  }

  lemma FollowerTakes(p: Pair)
    requires Ready(p) && Exchange(p).1
    ensures p.leader.log <= Exchange(p).0.follower.log
    ensures Exchange(p).0.follower.currentTerm == p.leader.currentTerm
    ensures Consistent(p.follower.log, Latest(p.leader, p.follower.id))
  {
    var req := Latest(p.leader, p.follower.id);
    AppendHasShape(p.follower, req);
    FittingRequest(p);
    FollowerCopies(p.follower.log, p.leader.log, req.prevLogIndex, req.entries);
  }

  lemma LeaderLearns(nd: Node, peer: NodeId, req: AppendRequest, resp: AppendResponse)
    requires resp.success && resp.term <= nd.currentTerm && LogOk(nd.log)
    requires req.prevLogIndex < |nd.log| && req.entries == nd.log[req.prevLogIndex + 1..]
    ensures var nd' := HandleAppendReply(nd, peer, req, resp);
            && nd'.log == nd.log && nd'.currentTerm == nd.currentTerm
            && (|req.entries| > 0 ==>
                  Get(nd'.nextIndex, peer) == |nd.log| && Get(nd'.matchIndex, peer) == LastIndex(nd.log))
  {
    if |req.entries| > 0 {
      assert req.entries[|req.entries| - 1] == nd.log[LastIndex(nd.log)];
    }
  }

  /** A success hands over the whole log, and the leader learns of it if there was something to hand over. */
  lemma SuccessCopies(p: Pair)
    requires Ready(p) && Exchange(p).1
    ensures var q := Exchange(p).0;
            && q.leader.log == p.leader.log <= q.follower.log
            && q.follower.currentTerm == q.leader.currentTerm == p.leader.currentTerm
            && (NextIndex(p) < |p.leader.log| ==>
                  && Get(q.leader.nextIndex, p.follower.id) == |p.leader.log|
                  && Get(q.leader.matchIndex, p.follower.id) == LastIndex(p.leader.log))
  {
    var req := Latest(p.leader, p.follower.id);
    FollowerTakes(p);
    FittingRequest(p);
    LeaderLearns(p.leader, p.follower.id, req, HandleAppendEntries(p.follower, req).1);
  }

  /** Round j of the exchange is refused and lowers the next index. */
  ghost predicate Refused(p: Pair, j: nat) {
    !Exchange(After(p, j)).1 && 1 <= NextIndex(After(p, j + 1)) < NextIndex(After(p, j))
  }

  lemma RefusedLater(p: Pair, j: nat)
    requires Refused(Exchange(p).0, j)
    ensures Refused(p, j + 1)
  {
    assert After(p, j + 1) == After(Exchange(p).0, j);
    assert After(p, j + 2) == After(Exchange(p).0, j + 1);
  }

  lemma FirstRefusal(p: Pair)
    requires Ready(p) && !Exchange(p).1
    ensures Refused(p, 0)
  {
    RefusalLowers(p);
    assert After(p, 1) == After(Exchange(p).0, 0);
  }

  /** After exactly k refusals, each lower than the one before, the follower takes the leader's whole log. */
  ghost predicate ConvergesAfter(p: Pair, k: nat) {
    && k < NextIndex(p) && (forall j :: 0 <= j < k ==> Refused(p, j))
    && Exchange(After(p, k)).1
    && p.leader.log == After(p, k + 1).leader.log <= After(p, k + 1).follower.log
  }

  lemma ConvergesOneLater(p: Pair, k: nat)
    requires Refused(p, 0) && Exchange(p).0.leader.log == p.leader.log && ConvergesAfter(Exchange(p).0, k)
    ensures ConvergesAfter(p, k + 1)
  {
    var q := Exchange(p).0;
    assert After(p, 1) == After(q, 0);
    forall j | 0 < j < k + 1
      ensures Refused(p, j)
    {
      RefusedLater(p, j - 1);
    }
    assert After(p, k + 1) == After(q, k);
    assert After(p, k + 2) == After(q, k + 1);
  }

  lemma ConvergesNow(p: Pair)
    requires Ready(p) && Exchange(p).1
    ensures ConvergesAfter(p, 0)
  {
    SuccessCopies(p);
    assert After(p, 1) == After(Exchange(p).0, 0);
  }

  /** The back-off terminates: at most nextIndex - 1 refusals precede a success. */
  lemma {:induction false} BackoffConverges(p: Pair) returns (refusals: nat)
    requires Ready(p)
    ensures ConvergesAfter(p, refusals)
    decreases NextIndex(p)
  {
    if Exchange(p).1 {
      ConvergesNow(p);
      refusals := 0;
    } else {
      FirstRefusal(p);
      RefusalLowers(p);
      refusals := BackoffConverges(Exchange(p).0);
      ConvergesOneLater(p, refusals);
      refusals := refusals + 1;
    }
  }

  // ---- what the messages say ----

  /** The first request of a new leader asks each peer about the end of the leader's log, and ships nothing. */
  lemma NewLeaderProbes(nd: Node, peer: NodeId)
    requires peer in nd.peers
    ensures var first := Latest(BecomeLeader(nd), peer);
            && first.entries == [] && first.prevLogIndex == |nd.log| - 1
            && first.prevLogTerm == nd.log[|nd.log| - 1].term
            && first.term == nd.currentTerm && first.leader == nd.id && first.leaderCommit == nd.commitIndex
            && BecomeLeader(nd).role == Leader && BecomeLeader(nd).leaderId == nd.id
  {
  }

  /** After a success the follower regards as committed all that the leader does. */
  lemma SuccessCommits(p: Pair)
    requires Ready(p) && Exchange(p).1 && p.leader.commitIndex < |p.leader.log|
    ensures var q := Exchange(p).0;
            && q.follower.commitIndex == (if p.leader.commitIndex > p.follower.commitIndex then p.leader.commitIndex
                                          else p.follower.commitIndex)
            && q.follower.leaderId == p.leader.id
  {
    FollowerTakes(p);
    FittingRequest(p);
    CommitArrives(p.follower, Latest(p.leader, p.follower.id));
  }

  lemma CommitArrives(nd: Node, req: AppendRequest)
    requires HandleAppendEntries(nd, req).1.success && req.leaderCommit <= req.prevLogIndex + |req.entries|
    ensures HandleAppendEntries(nd, req).0.commitIndex
         == if req.leaderCommit > nd.commitIndex then req.leaderCommit else nd.commitIndex
    ensures HandleAppendEntries(nd, req).0.leaderId == req.leader
  {
  }

  /**
   What a refusal of a request of the present term or later says: a log that is too
   short reports its length; otherwise the term that disagrees is reported, with one
   past the last entry before it of another term, or nothing if there is none.
   */
  lemma RefusalReports(nd: Node, req: AppendRequest)
    requires req.term >= nd.currentTerm && req.prevLogIndex > 0
    requires req.prevLogIndex >= |nd.log| || nd.log[req.prevLogIndex].term != req.prevLogTerm
    ensures var (nd', resp) := HandleAppendEntries(nd, req);
            && !resp.success && resp.term == nd.currentTerm && nd'.log == nd.log && nd'.commitIndex == nd.commitIndex
            && (if req.prevLogIndex >= |nd.log| then resp.conflictIndex == |nd.log| && resp.conflictTerm == 0
                else && resp.conflictTerm == nd.log[req.prevLogIndex].term
                     && resp.conflictIndex <= req.prevLogIndex
                     && (forall k :: 1 <= k < req.prevLogIndex && resp.conflictIndex <= k ==>
                           nd.log[k].term == resp.conflictTerm)
                     && (resp.conflictIndex > 0 ==>
                           resp.conflictIndex > 1 && nd.log[resp.conflictIndex - 1].term != resp.conflictTerm))
  {
  }

  /** What it makes the leader do next: start at the reported index, or one entry earlier. */
  lemma RefusalMovesBack(p: Pair)
    requires Ready(p) && !Exchange(p).1
    ensures var (next, prev, log) := (NextIndex(Exchange(p).0), NextIndex(p) - 1, p.follower.log);
            if prev >= |log| then next == |log|
            else && 1 <= next <= prev
                 && (forall k :: next <= k <= prev ==> log[k].term == log[prev].term)
                 && (if exists k :: 1 <= k < prev && log[k].term != log[prev].term
                     then log[next - 1].term != log[prev].term else next == prev)
  {
    var req := Latest(p.leader, p.follower.id);
    RefusedFor(p, req);
    RefusalReports(p.follower, req);
    LeaderMovesBack(p.leader, p.follower.id, req, HandleAppendEntries(p.follower, req).1);
  }

  /** Why a request was refused. */
  lemma RefusedFor(p: Pair, req: AppendRequest)
    requires Ready(p) && !Exchange(p).1 && req == Latest(p.leader, p.follower.id)
    ensures req.prevLogIndex == NextIndex(p) - 1 > 0 && req.term >= p.follower.currentTerm
    ensures req.prevLogIndex >= |p.follower.log| || p.follower.log[req.prevLogIndex].term != req.prevLogTerm
  {
  }

  lemma LeaderMovesBack(nd: Node, peer: NodeId, req: AppendRequest, resp: AppendResponse)
    requires !resp.success && resp.term <= nd.currentTerm && Get(nd.nextIndex, peer) > 1
    ensures Get(HandleAppendReply(nd, peer, req, resp).nextIndex, peer)
         == if resp.conflictIndex > 0 then resp.conflictIndex else Get(nd.nextIndex, peer) - 1
  {
  }

  /** A request changes term, role and vote only if it is of a later term; then the node follows, without a vote. */
  lemma RequestMovesTerm(nd: Node, req: AppendRequest)
    ensures var (nd', resp) := HandleAppendEntries(nd, req);
            && resp.term == nd.currentTerm
            && (req.term > nd.currentTerm ==>
                  nd'.currentTerm == req.term && nd'.role == Follower && nd'.votedFor == NOBODY)
            && (req.term <= nd.currentTerm ==>
                  nd'.currentTerm == nd.currentTerm && nd'.role == nd.role && nd'.votedFor == nd.votedFor)
            && (req.term < nd.currentTerm ==> nd' == nd && !resp.success)
            && (req.term >= nd.currentTerm ==> nd'.leaderId == req.leader)
            && nd'.nextIndex == nd.nextIndex && nd'.matchIndex == nd.matchIndex && nd'.peers == nd.peers
  {
  }
}
