/**
 When an entry is safe for ever. While no later term has a leader, what the leader
 of a term wrote in that term can still be missing from a later leader exactly when
 fewer than half of the nodes hold it. No premise on replies is needed.
 */
module RaftDurability {
  import opened Common
  import opened RaftTypes
  import opened RaftNode
  import opened RaftCluster
  import opened RaftElection
  import opened RaftLog
  import opened RaftAcks
  import opened RaftCommit
  import opened RaftSafety

  // ---- what a node holds it has acknowledged ----

  ghost predicate Outlived(reigns: Reigns, t: nat) {
    exists u :: u in reigns && u > t
  }

  /** An entry in a node's log is acknowledged in its term, as long as no later term has had a leader. */
  ghost predicate NodeHeld(nd: Node, v: NodeId, acks: Acks, reigns: Reigns) {
    forall i :: 1 <= i < |nd.log| ==> Acked(acks, v, nd.log[i].term, i) || Outlived(reigns, nd.log[i].term)
  }

  ghost predicate HeldAcked(s: Cluster) {
    forall v :: v in s.nodes ==> NodeHeld(s.nodes[v], v, s.hist.acks, s.hist.reigns)
  }

  lemma NodeHeldGrows(nd: Node, nd': Node, v: NodeId, h: History, h': History)
    requires NodeHeld(nd, v, h.acks, h.reigns) && AcksGrow(h.acks, h'.acks) && Kept(h.reigns, h'.reigns)
    requires nd'.log == nd.log
    ensures NodeHeld(nd', v, h'.acks, h'.reigns)
  {
    forall i | 1 <= i < |nd'.log|
      ensures Acked(h'.acks, v, nd'.log[i].term, i) || Outlived(h'.reigns, nd'.log[i].term)
    {
      if Acked(h.acks, v, nd.log[i].term, i) {
        assert (v, nd.log[i].term) in h.acks;
      } else {
        var u :| u in h.reigns && u > nd.log[i].term;
      }
    }
  }

  lemma HeldStands(s: Cluster, s': Cluster, n: NodeId, nd: Node)
    requires HeldAcked(s) && s'.nodes == s.nodes[n := nd] && HistoryGrows(s.hist, s'.hist)
    requires NodeHeld(nd, n, s'.hist.acks, s'.hist.reigns)
    ensures HeldAcked(s')
  {
    forall v | v in s'.nodes && v != n
      ensures NodeHeld(s'.nodes[v], v, s'.hist.acks, s'.hist.reigns)
    {
      NodeHeldGrows(s.nodes[v], s'.nodes[v], v, s.hist, s'.hist);
    }
  }

  /** A step that moves one node and leaves its log alone. */
  lemma SameLogHeld(s: Cluster, s': Cluster, n: NodeId, nd: Node)
    requires HeldAcked(s) && n in s.nodes && s'.nodes == s.nodes[n := nd] && HistoryGrows(s.hist, s'.hist)
    requires nd.log == s.nodes[n].log
    ensures HeldAcked(s')
  {
    NodeHeldGrows(s.nodes[n], nd, n, s.hist, s'.hist);
    HeldStands(s, s', n, nd);
  }

  lemma ExtendedHeld(s: Cluster, s': Cluster, n: NodeId, u: nat, e: Entry)
    requires HeldAcked(s) && Extended(s, s', n, u, e) && e.term == u && HistoryGrows(s.hist, s'.hist)
    ensures HeldAcked(s')
  {
    var nd := s.nodes[n];
    NodeHeldGrows(nd, nd, n, s.hist, s'.hist);
    HeldStands(s, s', n, nd.(log := nd.log + [e]));
  }

  lemma AcceptedHeld(s: Cluster, s': Cluster, n: NodeId, u: nat, upTo: nat)
    requires HeldAcked(s) && Accepted(s, s', n, u, upTo) && HistoryGrows(s.hist, s'.hist)
    requires Acked(s'.hist.acks, n, u, upTo) && TermsUpTo(s.hist.canon[u], u)
    ensures HeldAcked(s')
  {
    var nd := s'.nodes[n];
    NodeHeldGrows(s.nodes[n], s.nodes[n], n, s.hist, s'.hist);
    if nd.log != s.nodes[n].log {
      forall i | 1 <= i < |nd.log|
        ensures Acked(s'.hist.acks, n, nd.log[i].term, i) || Outlived(s'.hist.reigns, nd.log[i].term)
      {
        assert nd.log[i] == s.hist.canon[u][i] && s.hist.canon[u][i].term <= u;
        assert u in s'.hist.reigns;
      }
    }
    HeldStands(s, s', n, nd);
  }

  lemma AppendHeld(s: Cluster, ids: set<NodeId>, m: AppendMsg, s': Cluster, resp: AppendResponse)
    requires LogInv(s, ids) && HeldAcked(s) && m in s.net.appends && m.to in s.nodes
    requires Received(s, s', m, resp) && HistoryGrows(s.hist, s'.hist)
    ensures HeldAcked(s')
  {
    if resp.success {
      RequestOfNetwork(s, ids, m);
      SuccessHeld(s, m, s', resp);
    } else {
      SameLogHeld(s, s', m.to, s'.nodes[m.to]);
    }
  }

  lemma SuccessHeld(s: Cluster, m: AppendMsg, s': Cluster, resp: AppendResponse)
    requires HeldAcked(s) && Received(s, s', m, resp) && resp.success && HistoryGrows(s.hist, s'.hist)
    requires m.req.term in s.hist.canon && m.req.term in s.hist.reigns
    requires ReignFits(m.req.term, s.hist.reigns[m.req.term], s.hist.canon[m.req.term], s.hist.canon)
    requires NodeFits(s.nodes[m.to], s.hist.canon) && RequestFits(m.req, s.hist.canon)
    ensures HeldAcked(s')
  {
    ReceivedIsAccepted(s, s', m, resp);
    AckRecorded(s, s', m, resp);
    AcceptedHeld(s, s', m.to, m.req.term, m.req.prevLogIndex + |m.req.entries|);
  }

  lemma AckRecorded(s: Cluster, s': Cluster, m: AppendMsg, resp: AppendResponse)
    requires Received(s, s', m, resp) && resp.success
    ensures Acked(s'.hist.acks, m.to, m.req.term, m.req.prevLogIndex + |m.req.entries|)
  {
  }

  lemma SubmitHeld(s: Cluster, ids: set<NodeId>, n: NodeId, cmd: Command)
    requires ElectionInv(s, ids) && LogInv(s, ids) && HeldAcked(s) && n in s.nodes
    requires HistoryGrows(s.hist, NextSubmit(s, n, cmd).hist)
    ensures HeldAcked(NextSubmit(s, n, cmd))
  {
    if s.nodes[n].role == Leader {
      LeaderLog(s, ids, n);
      SubmitExtends(s, n, cmd);
      ExtendedHeld(s, NextSubmit(s, n, cmd), n, s.nodes[n].currentTerm,
                   Entry(|s.nodes[n].log|, s.nodes[n].currentTerm, Some(cmd)));
    } else {
      SameLogHeld(s, NextSubmit(s, n, cmd), n, s.nodes[n]);
    }
  }

  /** The node a step moves, with its log, when the step neither proposes nor delivers a request. */
  lemma LogUntouched(s: Cluster, step: Step) returns (nd: Node)
    requires Enabled(s, step) && !step.Submit? && !step.DeliverAppend?
    ensures Mover(step) in s.nodes && Next(s, step).nodes == s.nodes[Mover(step) := nd]
    ensures nd.log == s.nodes[Mover(step)].log
  {
    nd := Next(s, step).nodes[Mover(step)];
    if step.DeliverAppendReply? {
      var r := step.appendReply;
      AppendReplyKeepsLog(s.nodes[r.req.leader], r.from, r.req, r.resp);
    } else if step.Heartbeat? {
      assert s.nodes == s.nodes[step.node := nd];
    }
  }

  lemma StepKeepsHeld(s: Cluster, ids: set<NodeId>, step: Step)
    requires LogsSafe(s, ids) && HeldAcked(s) && Enabled(s, step)
    ensures HeldAcked(Next(s, step))
  {
    StepGrows(s, ids, step);
    if step.Submit? {
      SubmitHeld(s, ids, step.node, step.cmd);
    } else if step.DeliverAppend? {
      DeliveryHeld(s, ids, step.msg);
    } else {
      var nd := LogUntouched(s, step);
      SameLogHeld(s, Next(s, step), Mover(step), nd);
    }
  }

  lemma DeliveryHeld(s: Cluster, ids: set<NodeId>, m: AppendMsg)
    requires LogInv(s, ids) && HeldAcked(s) && m in s.net.appends && m.to in s.nodes
    requires HistoryGrows(s.hist, NextAppend(s, m).hist)
    ensures HeldAcked(NextAppend(s, m))
  {
    AppendIsReceived(s, m);
    AppendHeld(s, ids, m, NextAppend(s, m), HandleAppendEntries(s.nodes[m.to], m.req).1);
  }

  lemma HeldNext(run: Run, ids: set<NodeId>, i: nat, s: Cluster, t: Cluster)
    requires RunOf(run, ids) && 0 < i < |run.states| && s == run.states[i - 1] && t == run.states[i] && HeldAcked(s)
    ensures HeldAcked(t)
  {
    ReachedAs(run, ids, i - 1, s);
    FollowsAt(run, ids, i, s, t);
    StepKeepsHeld(s, ids, run.steps[i - 1]);
  }

  lemma InitHeld(ids: set<NodeId>)
    ensures HeldAcked(Init(ids))
  {
  }

  lemma {:induction false} ReachedHeld(run: Run, ids: set<NodeId>, i: nat)
    requires RunOf(run, ids) && i < |run.states|
    ensures HeldAcked(run.states[i])
  {
    if i == 0 {
      InitHeld(ids);
    } else {
      ReachedHeld(run, ids, i - 1);
      HeldNext(run, ids, i, run.states[i - 1], run.states[i]);
    }
  }

  // ---- continuations ----

  /** A step that consumes no reply to a request, and no election starts at a node that leads. */
  ghost predicate Plain(s: Cluster, step: Step) {
    !step.DeliverAppendReply? && (step.Timeout? && step.node in s.nodes ==> s.nodes[step.node].role != Leader)
  }

  /** `next` goes on from where `run` ends, by plain steps only. */
  ghost predicate Continues(run: Run, next: Run, ids: set<NodeId>) {
    && RunOf(run, ids) && RunOf(next, ids) && run.states <= next.states && run.steps <= next.steps
    && forall k :: |run.steps| <= k < |next.steps| ==> Plain(next.states[k], next.steps[k])
  }

  /** Some continuation has a leader of a later term whose log does not start with `p`. */
  ghost predicate MayLose(run: Run, ids: set<NodeId>, t: nat, p: seq<Entry>) {
    exists next, n, u :: Continues(run, next, ids) && Lacks(Last(next), n, u, t, p)
  }

  ghost predicate Lacks(s: Cluster, n: NodeId, u: nat, t: nat, p: seq<Entry>) {
    Leads(s, n, u) && u > t && !(p <= s.nodes[n].log)
  }

  /** The nodes whose logs start with `p`. */
  function Holding(s: Cluster, p: seq<Entry>): set<NodeId> {
    set v | v in s.nodes && p <= s.nodes[v].log
  }

  function Lacking(s: Cluster, p: seq<Entry>): set<NodeId> {
    set v | v in s.nodes && !(p <= s.nodes[v].log)
  }

  lemma HoldingOrLacking(s: Cluster, p: seq<Entry>)
    ensures |Holding(s, p)| + |Lacking(s, p)| == |s.nodes.Keys|
  {
    assert s.nodes.Keys == Holding(s, p) + Lacking(s, p);
    assert Holding(s, p) !! Lacking(s, p);
  }

  // ---- half of the nodes are enough ----

  /** While no later term has a leader, to hold an own entry is to have acknowledged it. */
  lemma HoldersAcked(s: Cluster, ids: set<NodeId>, t: nat, i: nat, v: NodeId)
    requires HeldAcked(s) && Own(s.hist.canon, t, i) && !Outlived(s.hist.reigns, t)
    requires v in Holding(s, s.hist.canon[t][..i + 1])
    ensures Acked(s.hist.acks, v, t, i)
  {
    assert s.nodes[v].log[i] == s.hist.canon[t][..i + 1][i] == s.hist.canon[t][i];
    assert NodeHeld(s.nodes[v], v, s.hist.acks, s.hist.reigns);
  }

  lemma HalfMeetsMajority(h: set<NodeId>, q: set<NodeId>, ids: set<NodeId>) returns (v: NodeId)
    requires h <= ids && 2 * |h| >= |ids| && IsMajority(q, ids)
    ensures v in h && v in q
  {
    if h * q == {} {
      SubsetSize(h + q, ids);
      assert false;
    }
    v :| v in h * q;
  }

  /** What half of the nodes have acknowledged can never be blocked. */
  lemma HalfNotBlocked(s: Cluster, ids: set<NodeId>, acks: Acks, holders: set<NodeId>, t: nat, i: nat)
    requires ElectionInv(s, ids) && holders <= ids && 2 * |holders| >= |ids| && AcksGrow(acks, s.hist.acks)
    requires forall v :: v in holders ==> Acked(acks, v, t, i)
    ensures !Blocked(s.hist.reigns, s.hist.acks, t, i)
  {
    forall w | w in s.hist.reigns && w > t
      ensures !RaftAcks.BlockedBy(s.hist.reigns, s.hist.acks, w, t, i)
    {
      assert ReignElected(s.nodes, s.hist.grants, ids, w, s.hist.reigns[w]);
      var v := HalfMeetsMajority(holders, s.hist.reigns[w].quorum, ids);
      assert Acked(acks, v, t, i) && (v, t) in acks;
    }
  }

  lemma LaterLeaderHolds(s: Cluster, ids: set<NodeId>, t: nat, i: nat, n: NodeId, u: nat)
    requires LogsSafe(s, ids) && Own(s.hist.canon, t, i) && !Blocked(s.hist.reigns, s.hist.acks, t, i)
    requires Leads(s, n, u) && u > t
    ensures s.hist.canon[t][..i + 1] <= s.nodes[n].log
  {
    LeaderReigns(s, ids, n, u);
    assert StartHolds(u, s.hist.reigns[u].initial, s.hist.canon, s.hist.reigns, s.hist.acks);
    assert Holds(s.hist.reigns[u].initial, s.hist.canon, s.hist.reigns, s.hist.acks, t, i);
    assert ReignFits(u, s.hist.reigns[u], s.hist.canon[u], s.hist.canon);
  }

  lemma SameOwn(canon: Canon, canon': Canon, t: nat, i: nat)
    requires Own(canon, t, i) && Grows(canon, canon')
    ensures Own(canon', t, i) && canon'[t][..i + 1] == canon[t][..i + 1]
  {
  }

  lemma HeldIsKept(run: Run, ids: set<NodeId>, next: Run, s: Cluster, t: nat, i: nat, n: NodeId, u: nat)
    requires Continues(run, next, ids) && s == Last(run) && Own(s.hist.canon, t, i) && !Outlived(s.hist.reigns, t)
    requires 2 * |Holding(s, s.hist.canon[t][..i + 1])| >= |ids|
    requires Leads(Last(next), n, u) && u > t
    ensures s.hist.canon[t][..i + 1] <= Last(next).nodes[n].log
  {
    ContinuationGrows(run, ids, next, s, Last(next));
    ReachedHeld(run, ids, |run.steps|);
    HalfIsKept(s, Last(next), ids, t, i, n, u);
  }

  lemma ContinuationGrows(run: Run, ids: set<NodeId>, next: Run, s: Cluster, s': Cluster)
    requires Continues(run, next, ids) && s == Last(run) && s' == Last(next)
    ensures LogsSafe(s', ids) && HistoryGrows(s.hist, s'.hist) && s.nodes.Keys == ids
  {
    assert next.states[|run.steps|] == s;
    HistoryKept(next, ids, |run.steps|, |next.steps|);
    ReachedAs(next, ids, |next.steps|, s');
    NodesOf(run, ids, s);
  }

  lemma NodesOf(run: Run, ids: set<NodeId>, s: Cluster)
    requires RunOf(run, ids) && s == Last(run)
    ensures s.nodes.Keys == ids
  {
    ReachedAs(run, ids, |run.steps|, s);
  }

  lemma HalfIsKept(s: Cluster, s': Cluster, ids: set<NodeId>, t: nat, i: nat, n: NodeId, u: nat)
    requires HeldAcked(s) && Own(s.hist.canon, t, i) && !Outlived(s.hist.reigns, t) && s.nodes.Keys == ids
    requires 2 * |Holding(s, s.hist.canon[t][..i + 1])| >= |ids|
    requires LogsSafe(s', ids) && HistoryGrows(s.hist, s'.hist) && Leads(s', n, u) && u > t
    ensures s.hist.canon[t][..i + 1] <= s'.nodes[n].log
  {
    var p := s.hist.canon[t][..i + 1];
    forall v | v in Holding(s, p)
      ensures Acked(s.hist.acks, v, t, i)
    {
      HoldersAcked(s, ids, t, i, v);
    }
    HalfNotBlocked(s', ids, s.hist.acks, Holding(s, p), t, i);
    SameOwn(s.hist.canon, s'.hist.canon, t, i);
    LaterLeaderHolds(s', ids, t, i, n, u);
  }

  // ---- fewer are not ----

  lemma Goes(run: Run, mid: Run, ids: set<NodeId>, step: Step) returns (next: Run)
    requires Continues(run, mid, ids) && Enabled(Last(mid), step) && Plain(Last(mid), step)
    ensures Continues(run, next, ids) && Last(next) == Next(Last(mid), step)
  {
    next := Run(mid.states + [Next(Last(mid), step)], mid.steps + [step]);
    forall k | 0 <= k < |next.steps|
      ensures Follows(next, k)
    {
      assert k < |mid.steps| ==> Follows(mid, k);
    }
    forall k | |run.steps| <= k < |next.steps|
      ensures Plain(next.states[k], next.steps[k])
    {
      assert k < |mid.steps| ==> Plain(mid.states[k], mid.steps[k]);
    }
  }

  function Running(nd: Node, t: nat): Node {
    nd.(currentTerm := t, role := Candidate, votedFor := nd.id)
  }

  function RequestIn(nd: Node, t: nat): VoteRequest {
    VoteRequest(t, nd.id, LastIndex(nd.log), LastTerm(nd.log))
  }

  /** A node that does not lead runs until its term is `target`. */
  lemma {:induction false} Campaigns(run: Run, mid: Run, ids: set<NodeId>, w: NodeId, target: nat) returns (next: Run)
    requires Continues(run, mid, ids) && w in Last(mid).nodes && Last(mid).nodes[w].id == w
    requires Last(mid).nodes[w].role != Leader && Last(mid).nodes[w].currentTerm < target
    ensures Continues(run, next, ids)
    ensures var (s, s') := (Last(mid), Last(next));
            && s'.nodes == s.nodes[w := Running(s.nodes[w], target)]
            && RequestIn(s.nodes[w], target) in s'.net.voteReqs
            && (w, target) in s'.rounds && s'.rounds[(w, target)] == {}
    decreases target - Last(mid).nodes[w].currentTerm
  {
    next := Goes(run, mid, ids, Timeout(w));
    if Last(next).nodes[w].currentTerm < target {
      next := Campaigns(run, next, ids, w, target);
    }
  }

  /** A log that ends further than (term, index). */
  predicate Ahead(log: Log, term: nat, index: nat) {
    log[|log| - 1].term > term || (log[|log| - 1].term == term && |log| - 1 > index)
  }

  /** In no later term, without a vote for another in the request's term, and with a log that is not ahead. */
  predicate Willing(nd: Node, req: VoteRequest) {
    && nd.currentTerm <= req.term
    && (nd.currentTerm == req.term ==> nd.votedFor == NOBODY || nd.votedFor == req.candidate)
    && !Ahead(nd.log, req.lastLogTerm, req.lastLogIndex)
  }

  /** One more voter is asked, and its answer is counted. */
  lemma AsksOne(run: Run, mid: Run, ids: set<NodeId>, w: NodeId, req: VoteRequest, v: NodeId) returns (next: Run)
    requires Continues(run, mid, ids) && w in Last(mid).nodes && v in Last(mid).nodes && v != w
    requires req in Last(mid).net.voteReqs && req.candidate == w && (w, req.term) in Last(mid).rounds
    requires Last(mid).nodes[w].currentTerm == req.term && Willing(Last(mid).nodes[v], req)
    ensures Continues(run, next, ids)
    ensures var (s, s', k) := (Last(mid), Last(next), (w, req.term));
            && s'.nodes == s.nodes[v := HandleRequestVote(s.nodes[v], req).0]
            && req in s'.net.voteReqs && k in s'.rounds && s'.rounds[k] == s.rounds[k] + {v}
  {
    var s := Last(mid);
    var resp := VoteResponse(s.nodes[v].currentTerm, true);
    var asked := Goes(run, mid, ids, DeliverVoteRequest(v, req));
    assert HandleRequestVote(s.nodes[v], req).1 == resp;
    next := Goes(run, asked, ids, DeliverVoteReply(VoteReply(v, req, resp)));
    assert Last(next).nodes == s.nodes[v := Last(asked).nodes[v]];
  }

  /** All of them are asked; everybody else stays as it is. */
  lemma {:induction false} AsksAll(run: Run, mid: Run, ids: set<NodeId>, w: NodeId, req: VoteRequest,
                                   voters: set<NodeId>) returns (next: Run)
    requires Continues(run, mid, ids) && w in Last(mid).nodes && w !in voters && voters <= Last(mid).nodes.Keys
    requires req in Last(mid).net.voteReqs && req.candidate == w && (w, req.term) in Last(mid).rounds
    requires Last(mid).nodes[w].currentTerm == req.term
    requires forall v :: v in voters ==> Willing(Last(mid).nodes[v], req)
    ensures Continues(run, next, ids)
    ensures w in Last(next).nodes && Last(next).nodes[w] == Last(mid).nodes[w]
    ensures (w, req.term) in Last(next).rounds
    ensures Last(next).rounds[(w, req.term)] == Last(mid).rounds[(w, req.term)] + voters
    decreases voters
  {
    if voters == {} {
      next := mid;
    } else {
      var v :| v in voters;
      var asked := AsksOne(run, mid, ids, w, req, v);
      next := AsksAll(run, asked, ids, w, req, voters - {v});
    }
  }

  /** A candidate with a majority of willing voters is elected, with the log it has. */
  lemma WinsWith(run: Run, mid: Run, ids: set<NodeId>, w: NodeId, target: nat, voters: set<NodeId>) returns (next: Run)
    requires Continues(run, mid, ids) && w in voters && IsMajority(voters, ids)
    requires Last(mid).nodes.Keys == ids && Last(mid).nodes[w].id == w && Last(mid).nodes[w].peers == ids - {w}
    requires Last(mid).nodes[w].role != Leader && Last(mid).nodes[w].currentTerm < target
    requires forall v :: v in voters && v != w ==> Willing(Last(mid).nodes[v], RequestIn(Last(mid).nodes[w], target))
    ensures Continues(run, next, ids) && Leads(Last(next), w, target)
    ensures Last(next).nodes[w].log == Last(mid).nodes[w].log
  {
    var s := Last(mid);
    var ran := Campaigns(run, mid, ids, w, target);
    var asked := AsksAll(run, ran, ids, w, RequestIn(s.nodes[w], target), voters - {w});
    assert |voters - {w}| == |voters| - 1 && |ids - {w}| == |ids| - 1;
    next := Goes(run, asked, ids, CloseElection(w, target));
  }

  /** A term that no node has reached. */
  lemma {:induction false} BeyondAll(nodes: Nodes, of: set<NodeId>, t: nat) returns (target: nat)
    requires of <= nodes.Keys
    ensures target > t && forall v :: v in of ==> nodes[v].currentTerm < target
    decreases of
  {
    if of == {} {
      target := t + 1;
    } else {
      var v :| v in of;
      target := BeyondAll(nodes, of - {v}, t);
      if target <= nodes[v].currentTerm {
        target := nodes[v].currentTerm + 1;
      }
    }
  }

  predicate AtLeast(a: Log, b: Log) {
    UpToDate(LastTerm(a), LastIndex(a), b)
  }

  /** One of them has a log that is at least as up to date as all of theirs. */
  lemma {:induction false} MostUpToDate(nodes: Nodes, of: set<NodeId>) returns (w: NodeId)
    requires of != {} && of <= nodes.Keys
    ensures w in of && forall v :: v in of ==> AtLeast(nodes[w].log, nodes[v].log)
    decreases of
  {
    var v :| v in of;
    w := v;
    if of != {v} {
      assert of == of - {v} + {v};
      var best := MostUpToDate(nodes, of - {v});
      if !AtLeast(nodes[v].log, nodes[best].log) {
        w := best;
      }
    }
  }

  /** Among nodes that lack an entry of the last leader's term, one does not lead: it has reached that leader's term. */
  lemma OneDoesNotLead(s: Cluster, ids: set<NodeId>, t: nat, i: nat) returns (x: NodeId)
    requires LogsSafe(s, ids) && Own(s.hist.canon, t, i) && !Outlived(s.hist.reigns, t)
    requires IsMajority(Lacking(s, s.hist.canon[t][..i + 1]), ids)
    ensures x in Lacking(s, s.hist.canon[t][..i + 1]) && s.nodes[x].role != Leader
  {
    TermReigns(s, ids, t);
    x := ElectorAmong(s, ids, t, Lacking(s, s.hist.canon[t][..i + 1]));
    if s.nodes[x].role == Leader {
      LeaderReigns(s, ids, x, s.nodes[x].currentTerm);
      LackerIsNotIt(s, t, s.hist.canon[t][..i + 1], x);
    }
  }

  lemma TermReigns(s: Cluster, ids: set<NodeId>, t: nat)
    requires LogInv(s, ids) && t in s.hist.canon
    ensures t in s.hist.reigns
  {
  }

  /** A node that lacks the entry does not lead that term or a later one. */
  lemma LackerIsNotIt(s: Cluster, t: nat, p: seq<Entry>, x: NodeId)
    requires !Outlived(s.hist.reigns, t) && t in s.hist.canon && p <= s.hist.canon[t]
    requires x in Lacking(s, p) && s.nodes[x].currentTerm >= t
    requires s.nodes[x].currentTerm in s.hist.canon && s.hist.canon[s.nodes[x].currentTerm] == s.nodes[x].log
    ensures s.nodes[x].currentTerm !in s.hist.reigns
  {
  }

  /** A majority contains a node that elected the leader of the term, and so has reached it. */
  lemma ElectorAmong(s: Cluster, ids: set<NodeId>, t: nat, q: set<NodeId>) returns (x: NodeId)
    requires ElectionInv(s, ids) && t in s.hist.reigns && IsMajority(q, ids)
    ensures x in q && x in s.nodes && s.nodes[x].currentTerm >= t
  {
    assert ReignElected(s.nodes, s.hist.grants, ids, t, s.hist.reigns[t]);
    x := MajoritiesMeet(q, s.hist.reigns[t].quorum, ids);
    ElectorsReached(s, ids, t, x);
  }

  /** A node that leads an old term steps aside when another one runs; no log changes and no term passes `target`. */
  lemma StepsAside(run: Run, ids: set<NodeId>, w: NodeId, x: NodeId, target: nat) returns (next: Run)
    requires RunOf(run, ids) && w in Last(run).nodes && x in Last(run).nodes && w != x
    requires Last(run).nodes[x].id == x && Last(run).nodes[x].role != Leader
    requires Last(run).nodes[x].currentTerm < target && Last(run).nodes[w].currentTerm < target
    ensures Continues(run, next, ids) && Last(next).nodes.Keys == Last(run).nodes.Keys
    ensures Last(next).nodes[w].role == Follower
    ensures forall v :: v in Last(run).nodes ==>
              && SameButBallot(Last(run).nodes[v], Last(next).nodes[v])
              && (v != w && v != x ==> Last(next).nodes[v] == Last(run).nodes[v])
              && (v == w || v == x ==> Last(next).nodes[v].currentTerm == target)
  {
    var ran := Campaigns(run, run, ids, x, target);
    next := Goes(run, ran, ids, DeliverVoteRequest(w, RequestIn(Last(run).nodes[x], target)));
  }

  predicate SameButBallot(a: Node, b: Node) {
    b.id == a.id && b.peers == a.peers && b.log == a.log
  }

  /** The candidate does not lead, possibly after another node made it step aside. */
  lemma Readied(run: Run, ids: set<NodeId>, w: NodeId, x: NodeId, t: nat) returns (next: Run, target: nat)
    requires RunOf(run, ids) && w in Last(run).nodes && x in Last(run).nodes
    requires Last(run).nodes[x].id == x && Last(run).nodes[x].role != Leader
    ensures Continues(run, next, ids) && Last(next).nodes.Keys == Last(run).nodes.Keys
    ensures Last(next).nodes[w].role != Leader && target > t
    ensures forall v :: v in Last(run).nodes ==>
              SameButBallot(Last(run).nodes[v], Last(next).nodes[v]) && Last(next).nodes[v].currentTerm < target
  {
    var s := Last(run);
    target := BeyondAll(s.nodes, s.nodes.Keys, t);
    if s.nodes[w].role == Leader {
      next := StepsAside(run, ids, w, x, target);
      target := target + 1;
    } else {
      next := run;
    }
  }

  lemma LackIsLost(run: Run, ids: set<NodeId>, t: nat, i: nat, s: Cluster, p: seq<Entry>)
    requires RunOf(run, ids) && s == Last(run) && Own(s.hist.canon, t, i) && !Outlived(s.hist.reigns, t)
    requires p == s.hist.canon[t][..i + 1] && IsMajority(Lacking(s, p), ids)
    ensures MayLose(run, ids, t, p)
  {
    ReachedAs(run, ids, |run.steps|, s);
    NamesOf(s, ids);
    var x := OneDoesNotLead(s, ids, t, i);
    LackersElect(run, ids, t, s, p, x);
  }

  lemma NamesOf(s: Cluster, ids: set<NodeId>)
    requires LogsSafe(s, ids)
    ensures s.nodes.Keys == ids && forall v :: v in ids ==> s.nodes[v].id == v && s.nodes[v].peers == ids - {v}
  {
  }

  /** The most up to date of the nodes that lack the entry is elected by the others. */
  lemma LackersElect(run: Run, ids: set<NodeId>, t: nat, s: Cluster, p: seq<Entry>, x: NodeId)
    requires RunOf(run, ids) && s == Last(run) && s.nodes.Keys == ids && IsMajority(Lacking(s, p), ids)
    requires forall v :: v in ids ==> s.nodes[v].id == v && s.nodes[v].peers == ids - {v}
    requires x in s.nodes && s.nodes[x].role != Leader
    ensures MayLose(run, ids, t, p)
  {
    var w := MostUpToDate(s.nodes, Lacking(s, p));
    var mid, target := Readied(run, ids, w, x, t);
    var req := RequestIn(Last(mid).nodes[w], target);
    forall v | v in Lacking(s, p) && v != w
      ensures Willing(Last(mid).nodes[v], req)
    {
      assert AtLeast(s.nodes[w].log, s.nodes[v].log);
    }
    var next := WinsWith(run, mid, ids, w, target, Lacking(s, p));
    assert Lacks(Last(next), w, target, t, p);
  }

  // ---- exactly ----

  /**
   As long as no later term has a leader, index i of term t can still be missing
   from the log of a later leader exactly when fewer than half of the nodes hold it.
   */
  lemma LosableIff(run: Run, ids: set<NodeId>, s: Cluster, t: nat, i: nat)
    requires RunOf(run, ids) && s == Last(run) && Own(s.hist.canon, t, i) && !Outlived(s.hist.reigns, t)
    ensures var p := s.hist.canon[t][..i + 1];
            MayLose(run, ids, t, p) <==> 2 * |Holding(s, p)| < |ids|
  {
    var p := s.hist.canon[t][..i + 1];
    NodesOf(run, ids, s);
    HoldingOrLacking(s, p);
    if 2 * |Holding(s, p)| < |ids| {
      LackIsLost(run, ids, t, i, s, p);
    } else if MayLose(run, ids, t, p) {
      var next, n, u :| Continues(run, next, ids) && Lacks(Last(next), n, u, t, p);
      HeldIsKept(run, ids, next, s, t, i, n, u);
      assert false;
    }
  }

  /** What a leader commits by counting was written in its own term. */
  lemma CommittedIsOwn(s: Cluster, ids: set<NodeId>, r: AppendReply, s': Cluster)
    requires LogsSafe(s, ids) && r.req.leader in s.nodes && s.nodes[r.req.leader].role == Leader
    requires s' == NextAppendReply(s, r)
    requires s'.nodes[r.req.leader].commitIndex > s.nodes[r.req.leader].commitIndex
    ensures var (nd, nd') := (s.nodes[r.req.leader], s'.nodes[r.req.leader]);
            && nd'.log == nd.log && nd'.commitIndex < |nd'.log| && s'.hist.reigns == s.hist.reigns
            && Own(s'.hist.canon, nd.currentTerm, nd'.commitIndex)
            && s'.hist.canon[nd.currentTerm] == nd'.log
  {
    var nd := s.nodes[r.req.leader];
    LeaderReigns(s, ids, r.req.leader, nd.currentTerm);
    ReplyMoves(nd, r.from, r.req, r.resp);
    CommitScanned(Recorded(nd, r.from, LastShipped(r.req)));
  }

  /** The run ends with a reply that makes a leader commit; no later term has had a leader. */
  ghost predicate CommitsLast(run: Run, ids: set<NodeId>, r: AppendReply, next: Run, nd: Node, nd': Node) {
    && RunOf(run, ids) && Enabled(Last(run), DeliverAppendReply(r))
    && next == Run(run.states + [Next(Last(run), DeliverAppendReply(r))], run.steps + [DeliverAppendReply(r)])
    && nd == Last(run).nodes[r.req.leader] && nd' == HandleAppendReply(nd, r.from, r.req, r.resp)
    && nd.role == Leader && nd'.commitIndex > nd.commitIndex && !Outlived(Last(run).hist.reigns, nd.currentTerm)
  }

  /**
   A commit that a leader decides by counting a reply, the reply premise or not,
   can be lost exactly when fewer than half of the nodes hold what it covers.
   */
  lemma CountedCommitLosableIff(run: Run, ids: set<NodeId>, r: AppendReply, next: Run, nd: Node, nd': Node, k: nat)
    requires CommitsLast(run, ids, r, next, nd, nd') && k == nd'.commitIndex
    ensures |next.states| == |next.steps| + 1 && k < |nd'.log|
    ensures MayLose(next, ids, nd.currentTerm, nd'.log[..k + 1])
       <==> 2 * |Holding(Last(next), nd'.log[..k + 1])| < |ids|
  {
    var s, s' := Last(run), Last(next);
    OneStepMore(run, ids, s, DeliverAppendReply(r), next, s');
    OwnAfterCounting(run, ids, s, r, s', nd.currentTerm, k);
    LosableIff(next, ids, s', nd.currentTerm, k);
  }

  lemma OwnAfterCounting(run: Run, ids: set<NodeId>, s: Cluster, r: AppendReply, s': Cluster, t: nat, k: nat)
    requires RunOf(run, ids) && s == Last(run) && r.req.leader in s.nodes && s.nodes[r.req.leader].role == Leader
    requires s' == NextAppendReply(s, r)
    requires t == s.nodes[r.req.leader].currentTerm
    requires k == s'.nodes[r.req.leader].commitIndex > s.nodes[r.req.leader].commitIndex
    ensures Own(s'.hist.canon, t, k) && s'.hist.canon[t] == s'.nodes[r.req.leader].log
    ensures s'.hist.reigns == s.hist.reigns
  {
    ReachedAs(run, ids, |run.steps|, s);
    CommittedIsOwn(s, ids, r, s');
  }

  lemma OneStepMore(run: Run, ids: set<NodeId>, s: Cluster, step: Step, next: Run, s': Cluster)
    requires RunOf(run, ids) && s == Last(run) && Enabled(s, step) && s' == Next(s, step)
    requires next == Run(run.states + [s'], run.steps + [step])
    ensures RunOf(next, ids) && Last(next) == s'
  {
    forall k | 0 <= k < |next.steps|
      ensures Follows(next, k)
    {
      assert k < |run.steps| ==> Follows(run, k);
    }
  }

  // ---- one late reply ----

  /** Whoever acknowledged an own entry of a term that has not been outlived holds it. */
  lemma AckerHolds(s: Cluster, t: nat, i: nat, v: NodeId)
    requires AckInv(s) && Own(s.hist.canon, t, i) && !Outlived(s.hist.reigns, t) && Acked(s.hist.acks, v, t, i)
    ensures v in s.nodes && s.hist.canon[t][..i + 1] <= s.nodes[v].log
  {
    assert (v, t) in s.hist.acks && (v, t).0 in s.nodes;
    assert HoldsAcked(s.nodes[v].log, v, s.nodes[v].currentTerm + 1, s.hist.canon, s.hist.reigns, s.hist.acks);
    assert Holds(s.nodes[v].log, s.hist.canon, s.hist.reigns, s.hist.acks, t, i);
  }

  /** Of the nodes that a leader counts, all but the sender of the new reply hold what it commits. */
  lemma CountedHold(s: Cluster, nd: Node, peer: NodeId, last: nat, k: nat, h: set<NodeId>)
    requires AckInv(s) && nd.id in s.nodes && s.nodes[nd.id] == nd && nd.role == Leader && CountsBacked(nd, s.hist.acks)
    requires Own(s.hist.canon, nd.currentTerm, k) && s.hist.canon[nd.currentTerm] == nd.log
    requires !Outlived(s.hist.reigns, nd.currentTerm)
    requires h == Holders(Recorded(nd, peer, last).matchIndex, k) - {peer}
    ensures forall v :: v in h + {nd.id} ==> v in Holding(s, nd.log[..k + 1])
  {
    forall v | v in h
      ensures v in Holding(s, nd.log[..k + 1])
    {
      assert CountedFor(nd, v, nd.matchIndex[v], s.hist.acks) && OwnSoon(nd, k);
      AckerHolds(s, nd.currentTerm, k, v);
    }
  }

  lemma AllButOne(holders: set<NodeId>, n: NodeId, peer: NodeId, peers: set<NodeId>, ids: set<NodeId>,
                  holding: set<NodeId>)
    requires n in ids && peers == ids - {n} && holders <= peers && 1 + |holders| >= (|peers| + 1) / 2 + 1
    requires holders - {peer} + {n} <= holding
    ensures |holding| >= |ids| / 2
  {
    assert |peers| == |ids| - 1;
    assert holders <= (holders - {peer}) + {peer};
    SubsetSize(holders, holders - {peer} + {peer});
    SubsetSize(holders - {peer} + {n}, holding);
  }

  /** A leader, its place in the cluster, and what backs its counts. */
  ghost predicate Leading(s: Cluster, ids: set<NodeId>, nd: Node) {
    && nd.id in s.nodes && s.nodes[nd.id] == nd && nd.role == Leader
    && nd.id in ids && nd.peers == ids - {nd.id} && CountsBacked(nd, s.hist.acks)
    && nd.currentTerm in s.hist.canon && s.hist.canon[nd.currentTerm] == nd.log
  }

  lemma LeaderIsLeading(s: Cluster, ids: set<NodeId>, n: NodeId)
    requires LogsSafe(s, ids) && CommitInv(s, ids) && n in s.nodes && s.nodes[n].role == Leader
    ensures Leading(s, ids, s.nodes[n]) && s.nodes[n].id == n && AckInv(s)
  {
    LeaderFacts(s, ids, n);
    LeaderReigns(s, ids, n, s.nodes[n].currentTerm);
  }

  lemma NearlyHalfHold(s: Cluster, ids: set<NodeId>, nd: Node, peer: NodeId, last: nat, k: nat, p: seq<Entry>)
    requires Leading(s, ids, nd) && AckInv(s) && peer in nd.peers && Own(s.hist.canon, nd.currentTerm, k)
    requires !Outlived(s.hist.reigns, nd.currentTerm) && Committable(Recorded(nd, peer, last), k)
    requires p == nd.log[..k + 1]
    ensures |Holding(s, p)| >= |ids| / 2
  {
    var holders := Holders(Recorded(nd, peer, last).matchIndex, k);
    CountedHold(s, nd, peer, last, k, holders - {peer});
    AllButOne(holders, nd.id, peer, nd.peers, ids, Holding(s, p));
  }

  lemma SameHolding(s: Cluster, s': Cluster, n: NodeId, p: seq<Entry>)
    requires n in s.nodes && n in s'.nodes && s'.nodes == s.nodes[n := s'.nodes[n]]
    requires s'.nodes[n].log == s.nodes[n].log
    ensures Holding(s', p) == Holding(s, p)
  {
  }

  lemma CommittableThen(nd: Node, r: AppendReply, nd': Node)
    requires nd' == HandleAppendReply(nd, r.from, r.req, r.resp) && nd'.commitIndex > nd.commitIndex
    ensures Counts(nd, r.req, r.resp) && nd'.commitIndex < |nd.log| && nd'.log == nd.log
    ensures Committable(Recorded(nd, r.from, LastShipped(r.req)), nd'.commitIndex)
  {
    ReplyMoves(nd, r.from, r.req, r.resp);
    CommitScanned(Recorded(nd, r.from, LastShipped(r.req)));
  }

  lemma ReplyFromPeer(s: Cluster, ids: set<NodeId>, r: AppendReply, nd: Node)
    requires LogsSafe(s, ids) && CommitInv(s, ids) && r in s.net.appendReplies && Counts(nd, r.req, r.resp)
    requires nd.peers == ids - {r.req.leader}
    ensures r.from in nd.peers
  {
    ReplyReports(s, ids, r);
  }

  lemma HalfHold(s: Cluster, ids: set<NodeId>, r: AppendReply, nd: Node, nd': Node, k: nat)
    requires Safe(s, ids) && r in s.net.appendReplies && r.req.leader in s.nodes && nd == s.nodes[r.req.leader]
    requires nd.role == Leader && nd' == HandleAppendReply(nd, r.from, r.req, r.resp)
    requires k == nd'.commitIndex > nd.commitIndex
    requires !Outlived(s.hist.reigns, nd.currentTerm) && Own(s.hist.canon, nd.currentTerm, k)
    ensures k < |nd.log| && |Holding(s, nd.log[..k + 1])| >= |ids| / 2
  {
    LeaderIsLeading(s, ids, r.req.leader);
    CommittableThen(nd, r, nd');
    ReplyFromPeer(s, ids, r, nd);
    NearlyHalfHold(s, ids, nd, r.from, LastShipped(r.req), k, nd.log[..k + 1]);
  }

  lemma ReplyStep(s: Cluster, ids: set<NodeId>, r: AppendReply, s': Cluster, nd: Node, nd': Node)
    requires LogsSafe(s, ids) && r.req.leader in s.nodes && s' == NextAppendReply(s, r)
    requires nd == s.nodes[r.req.leader] && nd' == s'.nodes[r.req.leader]
    requires nd.role == Leader && nd'.commitIndex > nd.commitIndex
    ensures nd' == HandleAppendReply(nd, r.from, r.req, r.resp) && nd'.log == nd.log
    ensures s'.nodes == s.nodes[r.req.leader := nd'] && Own(s.hist.canon, nd.currentTerm, nd'.commitIndex)
  {
    CommittedIsOwn(s, ids, r, s');
  }

  lemma HalfHoldAfter(s: Cluster, ids: set<NodeId>, r: AppendReply, s': Cluster, nd: Node, nd': Node, k: nat)
    requires Safe(s, ids) && r in s.net.appendReplies && r.req.leader in s.nodes && nd == s.nodes[r.req.leader]
    requires nd' == HandleAppendReply(nd, r.from, r.req, r.resp) && nd'.log == nd.log
    requires s'.nodes == s.nodes[r.req.leader := nd'] && Own(s.hist.canon, nd.currentTerm, k)
    requires nd.role == Leader && k == nd'.commitIndex > nd.commitIndex && !Outlived(s.hist.reigns, nd.currentTerm)
    ensures k < |nd'.log| && |Holding(s', nd'.log[..k + 1])| >= |ids| / 2
  {
    HalfHold(s, ids, r, nd, nd', k);
    SameHolding(s, s', r.req.leader, nd'.log[..k + 1]);
  }

  lemma NearlyHalf(held: nat, size: nat)
    requires held >= size / 2
    ensures 2 * held < size <==> size % 2 == 1 && held == size / 2
  {
  }

  lemma HeldByHalf(s: Cluster, ids: set<NodeId>, r: AppendReply, s': Cluster, nd: Node, nd': Node, k: nat)
    requires Safe(s, ids) && r in s.net.appendReplies && r.req.leader in s.nodes && s' == NextAppendReply(s, r)
    requires nd == s.nodes[r.req.leader] && nd' == s'.nodes[r.req.leader]
    requires nd.role == Leader && k == nd'.commitIndex > nd.commitIndex && !Outlived(s.hist.reigns, nd.currentTerm)
    ensures k < |nd'.log| && |Holding(s', nd'.log[..k + 1])| >= |ids| / 2
  {
    ReplyStep(s, ids, r, s', nd, nd');
    HalfHoldAfter(s, ids, r, s', nd, nd', k);
  }

  lemma HeldByHalfLast(run: Run, ids: set<NodeId>, r: AppendReply, next: Run, nd: Node, nd': Node, k: nat)
    requires GuardedRun(run) && CommitsLast(run, ids, r, next, nd, nd') && k == nd'.commitIndex
    ensures |next.states| == |next.steps| + 1 && k < |nd'.log|
    ensures |Holding(Last(next), nd'.log[..k + 1])| >= |ids| / 2
  {
    var s, s' := Last(run), Last(next);
    EndGuarded(run, ids, s);
    LastStep(run, ids, r, next, nd, nd', s, s');
    HeldByHalf(s, ids, r, s', nd, nd', k);
  }

  lemma EndGuarded(run: Run, ids: set<NodeId>, s: Cluster)
    requires RunOf(run, ids) && GuardedRun(run) && s == Last(run)
    ensures Safe(s, ids)
  {
    ReachedGuarded(run, ids, |run.steps|);
  }

  lemma LastStep(run: Run, ids: set<NodeId>, r: AppendReply, next: Run, nd: Node, nd': Node, s: Cluster, s': Cluster)
    requires CommitsLast(run, ids, r, next, nd, nd') && s == Last(run)
    requires s' == next.states[|next.states| - 1]
    ensures r in s.net.appendReplies && r.req.leader in s.nodes && s' == NextAppendReply(s, r)
    ensures nd == s.nodes[r.req.leader] && nd' == s'.nodes[r.req.leader]
  {
  }

  /**
   After a run that met the reply premise, the commit that one further reply brings
   about, whether it meets the premise or not, can be lost exactly in a cluster of
   odd size of which less than half hold it: one late reply cannot do that to a
   cluster of even size, whose majorities have a node to spare.
   */
  lemma OneLateReplyIff(run: Run, ids: set<NodeId>, r: AppendReply, next: Run, nd: Node, nd': Node, k: nat)
    requires GuardedRun(run) && CommitsLast(run, ids, r, next, nd, nd') && k == nd'.commitIndex
    ensures |next.states| == |next.steps| + 1 && k < |nd'.log|
    ensures MayLose(next, ids, nd.currentTerm, nd'.log[..k + 1])
       <==> |ids| % 2 == 1 && |Holding(Last(next), nd'.log[..k + 1])| == |ids| / 2
  {
    HeldByHalfLast(run, ids, r, next, nd, nd', k);
    CountedCommitLosableIff(run, ids, r, next, nd, nd', k);
    NearlyHalf(|Holding(Last(next), nd'.log[..k + 1])|, |ids|);
  }
}
