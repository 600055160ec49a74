/**
 Log matching. Every prefix of a log that ends in an entry of term t is a prefix
 of `canon[t]`, the log of the leader of term t.
 */
module RaftLog {
  import opened Common
  import opened RaftTypes
  import opened RaftNode
  import opened RaftCluster
  import opened RaftElection

  type Canon = map<nat, Log>
  type Reigns = map<nat, Reign>

  /** Positions are indices, and only the sentinel has term 0. */
  ghost predicate LogOk(log: Log) {
    && log[0] == SENTINEL
    && (forall i :: 0 <= i < |log| ==> log[i].index == i)
    && (forall i :: 1 <= i < |log| ==> log[i].term >= 1)
  }

  ghost predicate TermsUpTo(log: Log, bound: nat) {
    forall i :: 0 <= i < |log| ==> log[i].term <= bound
  }

  ghost predicate OnCanon(log: Log, canon: Canon) {
    forall i :: 1 <= i < |log| ==> log[i].term in canon && log[..i + 1] <= canon[log[i].term]
  }

  ghost predicate Fits(log: Log, canon: Canon, bound: nat) {
    LogOk(log) && OnCanon(log, canon) && TermsUpTo(log, bound)
  }

  ghost predicate NodeFits(nd: Node, canon: Canon) {
    && Fits(nd.log, canon, nd.currentTerm)
    && (nd.role != Follower ==> nd.currentTerm >= 1)
    && (forall p :: p in nd.nextIndex ==> nd.nextIndex[p] >= 1)
    && (nd.role == Leader ==> nd.peers <= nd.nextIndex.Keys)
  }

  ghost predicate NodesFit(nodes: Nodes, canon: Canon) {
    forall n :: n in nodes ==> NodeFits(nodes[n], canon)
  }

  /** The log of a reign: what the leader started with, of earlier terms, then entries of its own term. */
  ghost predicate ReignLog(t: nat, r: Reign, log: Log) {
    && r.initial <= log && t >= 1 && TermsUpTo(r.initial, t - 1)
    && forall i :: |r.initial| <= i < |log| ==> log[i].term == t
  }

  ghost predicate ReignFits(t: nat, r: Reign, log: Log, canon: Canon) {
    Fits(log, canon, t) && ReignLog(t, r, log)
  }

  ghost predicate LogsOfReigns(reigns: Reigns, canon: Canon) {
    && canon.Keys == reigns.Keys
    && (forall t :: t in canon ==> ReignFits(t, reigns[t], canon[t], canon))
  }

  /** While a leader stays in the term of its reign, its log is the log of the reign. */
  ghost predicate CanonFits(nodes: Nodes, reigns: Reigns, canon: Canon) {
    && LogsOfReigns(reigns, canon)
    && (forall t :: t in canon && reigns[t].leader in nodes && nodes[reigns[t].leader].currentTerm == t ==>
          nodes[reigns[t].leader].log == canon[t])
  }

  /** A request carries a slice of its leader's log, or nothing after a position beyond that log. */
  ghost predicate RequestFits(req: AppendRequest, canon: Canon) {
    && req.term in canon
    && (if req.prevLogIndex > 0 && req.prevLogTerm == 0 then req.entries == []
        else && req.prevLogIndex + |req.entries| < |canon[req.term]|
             && req.prevLogTerm == canon[req.term][req.prevLogIndex].term
             && req.entries == canon[req.term][req.prevLogIndex + 1..req.prevLogIndex + |req.entries| + 1])
  }

  ghost predicate AppendsFit(appends: set<AppendMsg>, reigns: Reigns, canon: Canon, ids: set<NodeId>) {
    forall m :: m in appends ==>
      && RequestFits(m.req, canon) && m.req.term in reigns
      && m.to in ids && m.req.leader == reigns[m.req.term].leader && m.to != m.req.leader
  }

  /** What a candidate declared about its log stays true until its term has a leader or is over. */
  ghost predicate Declared(nodes: Nodes, reigns: Reigns, c: NodeId, t: nat, lastIndex: nat, lastTerm: nat) {
    c in nodes && t <= nodes[c].currentTerm
    && (t < nodes[c].currentTerm || t in reigns
        || (LastIndex(nodes[c].log) == lastIndex && LastTerm(nodes[c].log) == lastTerm))
  }

  ghost predicate VoteReqsDeclared(reqs: set<VoteRequest>, nodes: Nodes, reigns: Reigns) {
    forall q :: q in reqs ==> Declared(nodes, reigns, q.candidate, q.term, q.lastLogIndex, q.lastLogTerm)
  }

  ghost predicate GrantFits(g: Grant, t: nat, nodes: Nodes, reigns: Reigns, canon: Canon) {
    && Fits(g.voterLog, canon, t)
    && UpToDate(g.lastTerm, g.lastIndex, g.voterLog)
    && Declared(nodes, reigns, g.candidate, t, g.lastIndex, g.lastTerm)
  }

  ghost predicate GrantsFit(grants: Grants, nodes: Nodes, reigns: Reigns, canon: Canon) {
    forall k :: k in grants ==> GrantFits(grants[k], k.1, nodes, reigns, canon)
  }

  ghost predicate LogInv(s: Cluster, ids: set<NodeId>) {
    match s
    case Cluster(nodes, _, net, hist) =>
      && NodesFit(nodes, hist.canon)
      && CanonFits(nodes, hist.reigns, hist.canon)
      && AppendsFit(net.appends, hist.reigns, hist.canon, ids)
      && VoteReqsDeclared(net.voteReqs, nodes, hist.reigns)
      && GrantsFit(hist.grants, nodes, hist.reigns, hist.canon)
  }

  // ---- facts about logs ----

  /** Two logs with an entry of the same index and term agree up to that index. */
  lemma Agree(a: Log, b: Log, canon: Canon, i: nat)
    requires LogOk(a) && LogOk(b) && OnCanon(a, canon) && OnCanon(b, canon)
    requires i < |a| && i < |b| && a[i].term == b[i].term
    ensures a[..i + 1] == b[..i + 1]
  {
    if i == 0 {
      assert a[..1] == [SENTINEL] == b[..1];
    } else {
      var c := canon[a[i].term];
      assert a[..i + 1] == c[..i + 1] == b[..i + 1];
    }
  }

  /** The append loop on a log that agrees with `c` as far as the shared entries go. */
  lemma MergeResult(log: Log, c: Log, prev: nat, entries: seq<Entry>)
    requires prev < |log| && prev + |entries| < |c|
    requires entries == c[prev + 1..prev + |entries| + 1]
    requires var k := Shared(log, prev, entries, 0); log[..prev + k + 1] == c[..prev + k + 1]
    ensures Merge(log, prev, entries) ==
            if c[..prev + |entries| + 1] <= log then log else c[..prev + |entries| + 1]
  {
    var k := Shared(log, prev, entries, 0);
    var whole := c[..prev + |entries| + 1];
    if k < |entries| {
      assert whole[prev + 1 + k] == entries[k];
      assert log[..prev + 1 + k] + entries[k..] == whole;
    }
  }

  /** What the append loop leaves behind when the shipped entries continue a log it agrees with. */
  lemma MergeOutcome(log: Log, c: Log, canon: Canon, prev: nat, entries: seq<Entry>)
    requires LogOk(log) && LogOk(c) && OnCanon(log, canon) && OnCanon(c, canon)
    requires prev < |log| && prev + |entries| < |c| && log[prev].term == c[prev].term
    requires entries == c[prev + 1..prev + |entries| + 1]
    ensures Merge(log, prev, entries) ==
            if c[..prev + |entries| + 1] <= log then log else c[..prev + |entries| + 1]
  {
    var k := Shared(log, prev, entries, 0);
    if k > 0 {
      assert log[prev + 1 + (k - 1)].term == entries[k - 1].term;
    }
    Agree(log, c, canon, prev + k);
    MergeResult(log, c, prev, entries);
  }

  /** The append loop keeps every prefix shared with the log it copies from. */
  lemma MergeKeepsShared(log: Log, c: Log, m: nat, p: seq<Entry>)
    requires m < |c| && p <= log && p <= c
    ensures p <= if c[..m + 1] <= log then log else c[..m + 1]
  {
    if m + 1 < |p| {
      assert c[..m + 1] == p[..m + 1] == log[..m + 1];
    }
  }

  lemma PrefixFits(log: Log, p: Log, canon: Canon, bound: nat)
    requires Fits(log, canon, bound) && p <= log
    ensures Fits(p, canon, bound)
  {
    forall i | 1 <= i < |p|
      ensures p[i].term in canon && p[..i + 1] <= canon[p[i].term]
    {
      assert p[..i + 1] == log[..i + 1];
    }
  }

  ghost predicate Grows(canon: Canon, canon': Canon) {
    forall t :: t in canon ==> t in canon' && canon[t] <= canon'[t]
  }

  lemma FitsGrows(log: Log, canon: Canon, canon': Canon, bound: nat)
    requires Fits(log, canon, bound) && Grows(canon, canon')
    ensures Fits(log, canon', bound)
  {
  }

  // ---- one node moves ----

  /** The log of a term without a leader does not change. */
  ghost predicate LogMove(a: Node, b: Node, reigns: Reigns) {
    || b.currentTerm > a.currentTerm
    || (b.currentTerm == a.currentTerm && (b.log == a.log || b.currentTerm in reigns))
  }

  lemma DeclarationStands(nodes: Nodes, reigns: Reigns, n: NodeId, nd: Node, c: NodeId, t: nat, li: nat, lt: nat)
    requires Declared(nodes, reigns, c, t, li, lt) && n in nodes && LogMove(nodes[n], nd, reigns)
    ensures Declared(nodes[n := nd], reigns, c, t, li, lt)
  {
  }

  lemma DeclarationsStand(reqs: set<VoteRequest>, nodes: Nodes, reigns: Reigns, n: NodeId, nd: Node)
    requires VoteReqsDeclared(reqs, nodes, reigns) && n in nodes && LogMove(nodes[n], nd, reigns)
    ensures VoteReqsDeclared(reqs, nodes[n := nd], reigns)
  {
    forall q | q in reqs
      ensures Declared(nodes[n := nd], reigns, q.candidate, q.term, q.lastLogIndex, q.lastLogTerm)
    {
      DeclarationStands(nodes, reigns, n, nd, q.candidate, q.term, q.lastLogIndex, q.lastLogTerm);
    }
  }

  lemma GrantsStand(grants: Grants, nodes: Nodes, reigns: Reigns, canon: Canon, n: NodeId, nd: Node)
    requires GrantsFit(grants, nodes, reigns, canon) && n in nodes && LogMove(nodes[n], nd, reigns)
    ensures GrantsFit(grants, nodes[n := nd], reigns, canon)
  {
    forall k | k in grants
      ensures GrantFits(grants[k], k.1, nodes[n := nd], reigns, canon)
    {
      assert GrantFits(grants[k], k.1, nodes, reigns, canon);
      DeclarationStands(nodes, reigns, n, nd, grants[k].candidate, k.1, grants[k].lastIndex, grants[k].lastTerm);
    }
  }

  lemma NodesStand(nodes: Nodes, canon: Canon, n: NodeId, nd: Node)
    requires NodesFit(nodes, canon) && NodeFits(nd, canon)
    ensures NodesFit(nodes[n := nd], canon)
  {
  }

  lemma CanonStands(nodes: Nodes, reigns: Reigns, canon: Canon, n: NodeId, nd: Node)
    requires CanonFits(nodes, reigns, canon) && n in nodes && nd.currentTerm >= nodes[n].currentTerm
    requires forall t :: t in reigns && reigns[t].leader == n ==> t <= nodes[n].currentTerm
    requires nd.currentTerm == nodes[n].currentTerm
             && nd.currentTerm in reigns && reigns[nd.currentTerm].leader == n ==>
               nd.log == nodes[n].log
    ensures CanonFits(nodes[n := nd], reigns, canon)
  {
    forall t | t in canon && reigns[t].leader in nodes && nodes[n := nd][reigns[t].leader].currentTerm == t
      ensures nodes[n := nd][reigns[t].leader].log == canon[t]
    {
      assert reigns[t].leader == n ==> t <= nodes[n].currentTerm;
    }
  }

  /** A leader never reigned in a term beyond its own. */
  lemma ReignsPast(nodes: Nodes, grants: Grants, reigns: Reigns, ids: set<NodeId>, n: NodeId)
    requires ReignsElected(nodes, grants, reigns, ids) && n in nodes
    ensures forall t :: t in reigns && reigns[t].leader == n ==> t <= nodes[n].currentTerm
  {
    forall t | t in reigns && reigns[t].leader == n
      ensures t <= nodes[n].currentTerm
    {
      assert ReignElected(nodes, grants, ids, t, reigns[t]);
    }
  }

  /** One node changes; votes, reigns, leader logs and requests stay as they are. */
  ghost predicate Moved(s: Cluster, s': Cluster, n: NodeId) {
    && n in s.nodes && n in s'.nodes && s'.nodes == s.nodes[n := s'.nodes[n]]
    && s'.hist.canon == s.hist.canon && s'.hist.reigns == s.hist.reigns && s'.hist.grants == s.hist.grants
    && s'.net.voteReqs == s.net.voteReqs && s'.net.appends == s.net.appends
  }

  ghost predicate Reigning(nd: Node, reigns: Reigns) {
    nd.currentTerm in reigns && reigns[nd.currentTerm].leader == nd.id
  }

  /** The shared part of every step: one node moves, nothing else that matters here changes. */
  lemma MoveKeeps(s: Cluster, s': Cluster, ids: set<NodeId>, n: NodeId)
    requires ElectionInv(s, ids) && LogInv(s, ids) && Moved(s, s', n) && s'.nodes[n].id == n
    requires NodeFits(s'.nodes[n], s.hist.canon) && LogMove(s.nodes[n], s'.nodes[n], s.hist.reigns)
    requires !Reigning(s'.nodes[n], s.hist.reigns) || s'.nodes[n].currentTerm > s.nodes[n].currentTerm
             || s'.nodes[n].log == s.nodes[n].log
    ensures LogInv(s', ids)
  {
    var nd := s'.nodes[n];
    NodesStand(s.nodes, s.hist.canon, n, nd);
    ReignsPast(s.nodes, s.hist.grants, s.hist.reigns, ids, n);
    CanonStands(s.nodes, s.hist.reigns, s.hist.canon, n, nd);
    DeclarationsStand(s.net.voteReqs, s.nodes, s.hist.reigns, n, nd);
    GrantsStand(s.hist.grants, s.nodes, s.hist.reigns, s.hist.canon, n, nd);
  }

  // ---- handlers on one node ----

  /** What a handler that leaves the log alone may do. */
  ghost predicate KeepsLog(a: Node, b: Node) {
    && b.id == a.id && b.peers == a.peers && b.log == a.log && b.currentTerm >= a.currentTerm
    && b.role in {Follower, a.role}
    && a.nextIndex.Keys <= b.nextIndex.Keys
    && ((forall p :: p in a.nextIndex ==> a.nextIndex[p] >= 1) ==> forall p :: p in b.nextIndex ==> b.nextIndex[p] >= 1)
  }

  lemma KeepsLogFits(a: Node, b: Node, canon: Canon)
    requires NodeFits(a, canon) && KeepsLog(a, b)
    ensures NodeFits(b, canon)
  {
  }

  lemma VoteRequestKeepsLog(nd: Node, req: VoteRequest)
    ensures KeepsLog(nd, HandleRequestVote(nd, req).0)
  {
  }

  lemma VoteReplyKeepsLog(nd: Node, resp: VoteResponse)
    ensures KeepsLog(nd, HandleVoteReply(nd, resp).0)
  {
  }

  lemma AppendReplyKeepsLog(nd: Node, peer: NodeId, req: AppendRequest, resp: AppendResponse)
    ensures KeepsLog(nd, HandleAppendReply(nd, peer, req, resp))
  {
  }

  lemma ApplyKeepsLog(nd: Node)
    ensures KeepsLog(nd, ApplyTurn(nd))
  {
  }

  lemma KeepsLogMove(s: Cluster, s': Cluster, ids: set<NodeId>, n: NodeId)
    requires ElectionInv(s, ids) && LogInv(s, ids) && Moved(s, s', n) && KeepsLog(s.nodes[n], s'.nodes[n])
    ensures LogInv(s', ids)
  {
    KeepsLogFits(s.nodes[n], s'.nodes[n], s.hist.canon);
    MoveKeeps(s, s', ids, n);
  }

  /** The outcome of an append request as far as terms and logs go. */
  ghost predicate AppendShape(nd: Node, req: AppendRequest, nd': Node, resp: AppendResponse) {
    && nd'.id == nd.id && nd'.peers == nd.peers && nd'.nextIndex == nd.nextIndex && nd'.matchIndex == nd.matchIndex
    && nd'.lastApplied == nd.lastApplied
    && nd'.role in {Follower, nd.role}
    && (nd'.role != Follower ==> nd'.currentTerm == nd.currentTerm)
    && (if req.term < nd.currentTerm then !resp.success && nd' == nd
        else nd'.currentTerm == req.term
             && resp.success == Consistent(nd.log, req)
             && if resp.success then nd'.log == Merge(nd.log, req.prevLogIndex, req.entries)
                else nd'.log == nd.log && nd'.commitIndex == nd.commitIndex && nd'.applyQueue == nd.applyQueue)
  }

  lemma AppendHasShape(nd: Node, req: AppendRequest)
    ensures AppendShape(nd, req, HandleAppendEntries(nd, req).0, HandleAppendEntries(nd, req).1)
  {
  }

  /** The prefix a request vouches for. */
  function Shipped(req: AppendRequest, canon: Canon): Log
    requires req.term in canon && req.prevLogIndex + |req.entries| < |canon[req.term]|
  {
    canon[req.term][..req.prevLogIndex + |req.entries| + 1]
  }

  /** A request that fits the log of the receiver is a slice of the leader's log. */
  lemma ConsistentSlice(log: Log, req: AppendRequest, canon: Canon)
    requires LogOk(log) && RequestFits(req, canon) && Consistent(log, req)
    requires Fits(canon[req.term], canon, req.term)
    ensures !(req.prevLogIndex > 0 && req.prevLogTerm == 0)
    ensures log[req.prevLogIndex].term == canon[req.term][req.prevLogIndex].term
  {
  }

  lemma SliceMerges(log: Log, req: AppendRequest, canon: Canon)
    requires LogOk(log) && OnCanon(log, canon) && RequestFits(req, canon) && Consistent(log, req)
    requires Fits(canon[req.term], canon, req.term)
    ensures !(req.prevLogIndex > 0 && req.prevLogTerm == 0) && req.prevLogIndex < |log|
    ensures Merge(log, req.prevLogIndex, req.entries) == if Shipped(req, canon) <= log then log else Shipped(req, canon)
  {
    ConsistentSlice(log, req, canon);
    MergeOutcome(log, canon[req.term], canon, req.prevLogIndex, req.entries);
  }

  /** The receiver of a request that fits holds the shipped prefix afterwards. */
  lemma AppendOutcome(nd: Node, req: AppendRequest, nd': Node, resp: AppendResponse, canon: Canon)
    requires NodeFits(nd, canon) && RequestFits(req, canon) && Fits(canon[req.term], canon, req.term)
    requires AppendShape(nd, req, nd', resp) && resp.success
    ensures !(req.prevLogIndex > 0 && req.prevLogTerm == 0)
    ensures nd'.log == if Shipped(req, canon) <= nd.log then nd.log else Shipped(req, canon)
  {
    SliceMerges(nd.log, req, canon);
  }

  lemma AppendFits(nd: Node, req: AppendRequest, nd': Node, resp: AppendResponse, canon: Canon)
    requires NodeFits(nd, canon) && RequestFits(req, canon) && Fits(canon[req.term], canon, req.term)
    requires AppendShape(nd, req, nd', resp)
    ensures NodeFits(nd', canon)
  {
    if resp.success {
      AppendOutcome(nd, req, nd', resp, canon);
      PrefixFits(canon[req.term], Shipped(req, canon), canon, req.term);
    }
  }

  lemma SnapshotFits(nd: Node, p: NodeId, commit: nat, canon: Canon)
    requires NodeFits(nd, canon) && nd.currentTerm in canon && canon[nd.currentTerm] == nd.log
    requires p in nd.nextIndex
    ensures RequestFits(Snapshot(nd, p, nd.currentTerm, commit), canon)
  {
  }

  // ---- steps ----

  lemma VoteReqAdded(reqs: set<VoteRequest>, nodes: Nodes, reigns: Reigns, q: VoteRequest)
    requires VoteReqsDeclared(reqs, nodes, reigns)
    requires Declared(nodes, reigns, q.candidate, q.term, q.lastLogIndex, q.lastLogTerm)
    ensures VoteReqsDeclared(reqs + {q}, nodes, reigns)
  {
  }

  lemma GrantAdded(grants: Grants, nodes: Nodes, reigns: Reigns, canon: Canon, k: (NodeId, nat), g: Grant)
    requires GrantsFit(grants, nodes, reigns, canon) && GrantFits(g, k.1, nodes, reigns, canon)
    ensures GrantsFit(grants[k := g], nodes, reigns, canon)
  {
  }

  lemma TimeoutKeepsLog(s: Cluster, ids: set<NodeId>, n: NodeId)
    requires ElectionInv(s, ids) && LogInv(s, ids) && n in s.nodes
    ensures LogInv(NextTimeout(s, n), ids)
  {
    var s' := NextTimeout(s, n);
    var (nd, req) := BeginElection(s.nodes[n]);
    MoveKeeps(s, s'.(net := s.net, hist := s.hist), ids, n);
    VoteReqAdded(s.net.voteReqs, s'.nodes, s.hist.reigns, req);
    GrantAdded(s.hist.grants, s'.nodes, s.hist.reigns, s.hist.canon, (n, nd.currentTerm),
               Grant(n, nd.log, req.lastLogIndex, req.lastLogTerm));
  }

  lemma VoteRequestKeepsInv(s: Cluster, ids: set<NodeId>, n: NodeId, req: VoteRequest)
    requires ElectionInv(s, ids) && LogInv(s, ids) && n in s.nodes && req in s.net.voteReqs && req.candidate != n
    ensures LogInv(NextVoteRequest(s, n, req), ids)
  {
    var s' := NextVoteRequest(s, n, req);
    VoteRequestKeepsLog(s.nodes[n], req);
    KeepsLogMove(s, s'.(hist := s.hist), ids, n);
    if s'.hist.grants != s.hist.grants {
      var _ := VoteRequestMoves(s.nodes[n], req);
      VoteRecordFits(s, ids, n, s'.nodes[n], req);
      GrantAdded(s.hist.grants, s'.nodes, s.hist.reigns, s.hist.canon, (n, req.term), s'.hist.grants[(n, req.term)]);
    }
  }

  /** The record made of a new vote. */
  lemma VoteRecordFits(s: Cluster, ids: set<NodeId>, n: NodeId, nd: Node, req: VoteRequest)
    requires LogInv(s, ids) && n in s.nodes && req in s.net.voteReqs
    requires KeepsLog(s.nodes[n], nd) && nd.currentTerm == req.term
    requires UpToDate(req.lastLogTerm, req.lastLogIndex, nd.log)
    ensures GrantFits(Grant(req.candidate, nd.log, req.lastLogIndex, req.lastLogTerm), req.term,
                      s.nodes[n := nd], s.hist.reigns, s.hist.canon)
  {
    KeepsLogFits(s.nodes[n], nd, s.hist.canon);
    DeclarationStands(s.nodes, s.hist.reigns, n, nd, req.candidate, req.term, req.lastLogIndex, req.lastLogTerm);
  }

  lemma VoteReplyKeepsInv(s: Cluster, ids: set<NodeId>, r: VoteReply)
    requires ElectionInv(s, ids) && LogInv(s, ids) && r.req.candidate in s.nodes
    ensures LogInv(NextVoteReply(s, r), ids)
  {
    VoteReplyKeepsLog(s.nodes[r.req.candidate], r.resp);
    KeepsLogMove(s, NextVoteReply(s, r), ids, r.req.candidate);
  }

  lemma AppendReplyKeepsInv(s: Cluster, ids: set<NodeId>, r: AppendReply)
    requires ElectionInv(s, ids) && LogInv(s, ids) && r.req.leader in s.nodes
    ensures LogInv(NextAppendReply(s, r), ids)
  {
    AppendReplyMoves(s, r);
    KeepsLogMove(s, NextAppendReply(s, r), ids, r.req.leader);
  }

  lemma AppendReplyMoves(s: Cluster, r: AppendReply)
    requires r.req.leader in s.nodes
    ensures Moved(s, NextAppendReply(s, r), r.req.leader)
    ensures KeepsLog(s.nodes[r.req.leader], NextAppendReply(s, r).nodes[r.req.leader])
  {
    AppendReplyKeepsLog(s.nodes[r.req.leader], r.from, r.req, r.resp);
  }

  lemma ApplyKeepsInv(s: Cluster, ids: set<NodeId>, n: NodeId)
    requires ElectionInv(s, ids) && LogInv(s, ids) && n in s.nodes
    ensures LogInv(NextApply(s, n), ids)
  {
    ApplyKeepsLog(s.nodes[n]);
    KeepsLogMove(s, NextApply(s, n), ids, n);
  }

  lemma AppendKeepsInv(s: Cluster, ids: set<NodeId>, m: AppendMsg)
    requires ElectionInv(s, ids) && LogInv(s, ids) && m in s.net.appends && m.to in s.nodes
    ensures LogInv(NextAppend(s, m), ids)
  {
    var s' := NextAppend(s, m);
    var nd := s.nodes[m.to];
    var (nd', resp) := HandleAppendEntries(nd, m.req);
    AppendHasShape(nd, m.req);
    AppendFits(nd, m.req, nd', resp, s.hist.canon);
    assert nd.id == m.to != s.hist.reigns[m.req.term].leader;
    MoveKeeps(s, s', ids, m.to);
  }

  lemma AppendAdded(appends: set<AppendMsg>, reigns: Reigns, canon: Canon, ids: set<NodeId>, m: AppendMsg)
    requires AppendsFit(appends, reigns, canon, ids)
    requires RequestFits(m.req, canon) && m.req.term in reigns
    requires m.to in ids && m.req.leader == reigns[m.req.term].leader && m.to != m.req.leader
    ensures AppendsFit(appends + {m}, reigns, canon, ids)
  {
  }

  /** A leader's log is the log of its reign. */
  lemma LeaderLog(s: Cluster, ids: set<NodeId>, n: NodeId)
    requires ElectionInv(s, ids) && LogInv(s, ids) && n in s.nodes && s.nodes[n].role == Leader
    ensures s.nodes[n].currentTerm in s.hist.canon && s.hist.canon[s.nodes[n].currentTerm] == s.nodes[n].log
    ensures s.nodes[n].currentTerm in s.hist.reigns && s.hist.reigns[s.nodes[n].currentTerm].leader == n
  {
  }

  lemma HeartbeatKeepsInv(s: Cluster, ids: set<NodeId>, n: NodeId, p: NodeId, commit: nat)
    requires ElectionInv(s, ids) && LogInv(s, ids) && n in s.nodes && p in s.nodes[n].peers && s.nodes[n].role == Leader
    ensures LogInv(NextHeartbeat(s, n, p, commit), ids)
  {
    var nd := s.nodes[n];
    LeaderLog(s, ids, n);
    assert NodeFits(nd, s.hist.canon);
    SnapshotFits(nd, p, commit, s.hist.canon);
    AppendAdded(s.net.appends, s.hist.reigns, s.hist.canon, ids,
                AppendMsg(p, Snapshot(nd, p, nd.currentTerm, commit)));
  }

  // ---- leader logs grow ----

  lemma GrowthKeepsNodes(nodes: Nodes, canon: Canon, canon': Canon)
    requires NodesFit(nodes, canon) && Grows(canon, canon')
    ensures NodesFit(nodes, canon')
  {
    forall n | n in nodes
      ensures NodeFits(nodes[n], canon')
    {
      FitsGrows(nodes[n].log, canon, canon', nodes[n].currentTerm);
    }
  }

  lemma RequestGrows(req: AppendRequest, canon: Canon, canon': Canon)
    requires RequestFits(req, canon) && Grows(canon, canon')
    ensures RequestFits(req, canon')
  {
    if !(req.prevLogIndex > 0 && req.prevLogTerm == 0) {
      var c, c', last := canon[req.term], canon'[req.term], req.prevLogIndex + |req.entries|;
      assert c[req.prevLogIndex + 1..last + 1] == c'[req.prevLogIndex + 1..last + 1];
    }
  }

  lemma GrowthKeepsAppends(appends: set<AppendMsg>, reigns: Reigns, reigns': Reigns, canon: Canon, canon': Canon,
                           ids: set<NodeId>)
    requires AppendsFit(appends, reigns, canon, ids) && Grows(canon, canon')
    requires forall t :: t in reigns ==> t in reigns' && reigns'[t] == reigns[t]
    ensures AppendsFit(appends, reigns', canon', ids)
  {
    forall m | m in appends
      ensures RequestFits(m.req, canon')
    {
      RequestGrows(m.req, canon, canon');
    }
  }

  lemma GrowthKeepsGrants(grants: Grants, nodes: Nodes, reigns: Reigns, reigns': Reigns, canon: Canon, canon': Canon)
    requires GrantsFit(grants, nodes, reigns, canon) && Grows(canon, canon') && reigns.Keys <= reigns'.Keys
    ensures GrantsFit(grants, nodes, reigns', canon')
  {
    forall k | k in grants
      ensures GrantFits(grants[k], k.1, nodes, reigns', canon')
    {
      assert GrantFits(grants[k], k.1, nodes, reigns, canon);
      FitsGrows(grants[k].voterLog, canon, canon', k.1);
    }
  }

  lemma ReignFitsGrows(t: nat, r: Reign, log: Log, canon: Canon, canon': Canon)
    requires ReignFits(t, r, log, canon) && Grows(canon, canon')
    ensures ReignFits(t, r, log, canon')
  {
    FitsGrows(log, canon, canon', t);
  }

  /** A new log of a reign, of which every log so far is a part. */
  lemma CanonSet(reigns: Reigns, canon: Canon, t: nat, r: Reign, log: Log)
    requires LogsOfReigns(reigns, canon) && Grows(canon, canon[t := log])
    requires ReignFits(t, r, log, canon[t := log])
    ensures LogsOfReigns(reigns[t := r], canon[t := log])
  {
    var canon' := canon[t := log];
    forall u | u in canon && u != t
      ensures ReignFits(u, reigns[u], canon[u], canon')
    {
      ReignFitsGrows(u, reigns[u], canon[u], canon, canon');
    }
  }

  /** The leader of term t moves, and its log is the log of the reign. */
  lemma LeaderMoves(nodes: Nodes, reigns: Reigns, canon: Canon, n: NodeId, nd: Node, r: Reign)
    requires CanonFits(nodes, reigns, canon) && n in nodes && nd.currentTerm == nodes[n].currentTerm
    requires r.leader == n && (nd.currentTerm in reigns ==> reigns[nd.currentTerm].leader == n)
    requires forall t :: t in reigns && reigns[t].leader == n ==> t <= nodes[n].currentTerm
    requires LogsOfReigns(reigns[nd.currentTerm := r], canon[nd.currentTerm := nd.log])
    ensures CanonFits(nodes[n := nd], reigns[nd.currentTerm := r], canon[nd.currentTerm := nd.log])
  {
  }

  lemma LeaderKeepsVotes(grants: Grants, reqs: set<VoteRequest>, nodes: Nodes, reigns: Reigns, reigns': Reigns,
                         canon: Canon, canon': Canon, n: NodeId, nd: Node)
    requires GrantsFit(grants, nodes, reigns, canon) && VoteReqsDeclared(reqs, nodes, reigns)
    requires Grows(canon, canon') && reigns.Keys <= reigns'.Keys && n in nodes && LogMove(nodes[n], nd, reigns')
    ensures GrantsFit(grants, nodes[n := nd], reigns', canon')
    ensures VoteReqsDeclared(reqs, nodes[n := nd], reigns')
  {
    GrowthKeepsGrants(grants, nodes, reigns, reigns', canon, canon');
    GrantsStand(grants, nodes, reigns', canon', n, nd);
    ReignsGrow(reqs, nodes, reigns, reigns');
    DeclarationsStand(reqs, nodes, reigns', n, nd);
  }

  lemma LeaderKeepsLogs(nodes: Nodes, reigns: Reigns, canon: Canon, n: NodeId, nd: Node, r: Reign)
    requires NodesFit(nodes, canon) && CanonFits(nodes, reigns, canon) && n in nodes
    requires nd.currentTerm == nodes[n].currentTerm && r.leader == n
    requires nd.currentTerm in reigns ==> reigns[nd.currentTerm] == r
    requires forall t :: t in reigns && reigns[t].leader == n ==> t <= nodes[n].currentTerm
    requires Grows(canon, canon[nd.currentTerm := nd.log])
    requires NodeFits(nd, canon[nd.currentTerm := nd.log]) && ReignLog(nd.currentTerm, r, nd.log)
    ensures NodesFit(nodes[n := nd], canon[nd.currentTerm := nd.log])
    ensures CanonFits(nodes[n := nd], reigns[nd.currentTerm := r], canon[nd.currentTerm := nd.log])
  {
    GrowthKeepsNodes(nodes, canon, canon[nd.currentTerm := nd.log]);
    NodesStand(nodes, canon[nd.currentTerm := nd.log], n, nd);
    CanonSet(reigns, canon, nd.currentTerm, r, nd.log);
    LeaderMoves(nodes, reigns, canon, n, nd, r);
  }

  /** How a leader's own moves keep the invariant: being elected and appending. */
  lemma LeaderKeeps(s: Cluster, s': Cluster, ids: set<NodeId>, n: NodeId, nd: Node, r: Reign)
    requires n in s.nodes && s'.nodes == s.nodes[n := nd] && s'.net == s.net && s'.hist.grants == s.hist.grants
    requires s'.hist.reigns == s.hist.reigns[nd.currentTerm := r]
    requires s'.hist.canon == s.hist.canon[nd.currentTerm := nd.log]
    requires nd.currentTerm == s.nodes[n].currentTerm && r.leader == n
    requires nd.currentTerm in s.hist.reigns ==> s.hist.reigns[nd.currentTerm] == r
    requires Grows(s.hist.canon, s'.hist.canon)
    requires NodeFits(nd, s'.hist.canon) && ReignLog(nd.currentTerm, r, nd.log)
    requires LogInv(s, ids)
    requires forall t :: t in s.hist.reigns && s.hist.reigns[t].leader == n ==> t <= s.nodes[n].currentTerm
    ensures LogInv(s', ids)
  {
    LeaderKeepsLogs(s.nodes, s.hist.reigns, s.hist.canon, n, nd, r);
    GrowthKeepsAppends(s.net.appends, s.hist.reigns, s'.hist.reigns, s.hist.canon, s'.hist.canon, ids);
    LeaderKeepsVotes(s.hist.grants, s.net.voteReqs, s.nodes, s.hist.reigns, s'.hist.reigns,
                     s.hist.canon, s'.hist.canon, n, nd);
  }

  lemma ReignsGrow(reqs: set<VoteRequest>, nodes: Nodes, reigns: Reigns, reigns': Reigns)
    requires VoteReqsDeclared(reqs, nodes, reigns) && reigns.Keys <= reigns'.Keys
    ensures VoteReqsDeclared(reqs, nodes, reigns')
  {
  }

  lemma CloseKeepsInv(s: Cluster, ids: set<NodeId>, n: NodeId, t: nat)
    requires ElectionInv(s, ids) && LogInv(s, ids) && n in s.nodes && (n, t) in s.rounds
    ensures LogInv(NextClose(s, n, t), ids)
  {
    var s' := NextClose(s, n, t);
    if WinsElection(s.nodes[n], t, 1 + |s.rounds[(n, t)]|) {
      WonByMajority(s, ids, n, t);
      assert NodeFits(s.nodes[n], s.hist.canon);
      CrownFits(s.nodes[n], s.hist.canon);
      ReignsPast(s.nodes, s.hist.grants, s.hist.reigns, ids, n);
      LeaderKeeps(s, s', ids, n, s'.nodes[n], s'.hist.reigns[t]);
    } else {
      KeepsLogMove(s, s', ids, n);
    }
  }

  /** A log without entries of the node's own term. */
  lemma OlderTerms(log: Log, canon: Canon, t: nat)
    requires Fits(log, canon, t) && t !in canon && t >= 1
    ensures TermsUpTo(log, t - 1)
  {
    forall i | 1 <= i < |log|
      ensures log[i].term < t
    {
      assert log[i].term in canon;
    }
  }

  /** What a winner's state looks like to the invariant. */
  lemma CrownFits(nd: Node, canon: Canon)
    requires NodeFits(nd, canon) && nd.role == Candidate && nd.currentTerm !in canon
    ensures NodeFits(BecomeLeader(nd), canon[nd.currentTerm := nd.log])
    ensures nd.currentTerm >= 1 && TermsUpTo(nd.log, nd.currentTerm - 1)
    ensures Grows(canon, canon[nd.currentTerm := nd.log])
  {
    OlderTerms(nd.log, canon, nd.currentTerm);
    FitsGrows(nd.log, canon, canon[nd.currentTerm := nd.log], nd.currentTerm);
    BecomesLeader(nd, canon[nd.currentTerm := nd.log]);
  }

  lemma BecomesLeader(nd: Node, canon: Canon)
    requires NodeFits(nd, canon) && nd.role == Candidate
    ensures NodeFits(BecomeLeader(nd), canon)
  {
  }

  /** The state after a leader appended one entry to its log. */
  ghost predicate Extended(s: Cluster, s': Cluster, n: NodeId, u: nat, e: Entry) {
    && n in s.nodes && u in s.hist.canon && s.hist.canon[u] == s.nodes[n].log
    && s.nodes[n].currentTerm == u
    && s'.nodes == s.nodes[n := s.nodes[n].(log := s.nodes[n].log + [e])] && s'.net == s.net
    && s'.hist.canon == s.hist.canon[u := s.hist.canon[u] + [e]] && s'.hist.reigns == s.hist.reigns
    && s'.hist.acks == s.hist.acks[(n, u) := |s.hist.canon[u]|] && s'.hist.grants == s.hist.grants
    && s'.hist.commits == s.hist.commits && s'.hist.queued == s.hist.queued + On(n, s.nodes[n].applyQueue)
  }

  lemma SubmitExtends(s: Cluster, n: NodeId, cmd: Command)
    requires n in s.nodes && s.nodes[n].role == Leader && s.nodes[n].currentTerm in s.hist.canon
    requires s.hist.canon[s.nodes[n].currentTerm] == s.nodes[n].log
    ensures Extended(s, NextSubmit(s, n, cmd), n, s.nodes[n].currentTerm,
                     Entry(|s.nodes[n].log|, s.nodes[n].currentTerm, Some(cmd)))
  {
  }

  lemma ExtendedKeepsLog(s: Cluster, s': Cluster, ids: set<NodeId>, n: NodeId, u: nat, e: Entry)
    requires Extended(s, s', n, u, e) && e.index == |s.nodes[n].log| && e.term == u
    requires u in s.hist.reigns && s.hist.reigns[u].leader == n && s.nodes[n].role == Leader
    requires forall t :: t in s.hist.reigns && s.hist.reigns[t].leader == n ==> t <= u
    requires LogInv(s, ids)
    ensures LogInv(s', ids)
  {
    assert NodeFits(s.nodes[n], s.hist.canon);
    SubmitFits(s.nodes[n], s.hist.canon, s.hist.reigns, e);
    assert s.hist.reigns[u := s.hist.reigns[u]] == s.hist.reigns;
    LeaderKeeps(s, s', ids, n, s'.nodes[n], s.hist.reigns[u]);
  }

  lemma SubmitKeepsInv(s: Cluster, ids: set<NodeId>, n: NodeId, cmd: Command)
    requires ElectionInv(s, ids) && LogInv(s, ids) && n in s.nodes
    ensures LogInv(NextSubmit(s, n, cmd), ids)
  {
    if s.nodes[n].role == Leader {
      var u := s.nodes[n].currentTerm;
      LeaderLog(s, ids, n);
      ReignsPast(s.nodes, s.hist.grants, s.hist.reigns, ids, n);
      SubmitExtends(s, n, cmd);
      ExtendedKeepsLog(s, NextSubmit(s, n, cmd), ids, n, u, Entry(|s.nodes[n].log|, u, Some(cmd)));
    } else {
      KeepsLogMove(s, NextSubmit(s, n, cmd), ids, n);
    }
  }

  /** A leader's own entry continues the log of its reign. */
  lemma ExtendFits(log: Log, canon: Canon, t: nat, e: Entry)
    requires Fits(log, canon, t) && t in canon && canon[t] == log && t >= 1 && e.index == |log| && e.term == t
    ensures Fits(log + [e], canon[t := log + [e]], t)
    ensures Grows(canon, canon[t := log + [e]])
  {
    var canon' := canon[t := log + [e]];
    FitsGrows(log, canon, canon', t);
    forall i | 1 <= i < |log + [e]|
      ensures (log + [e])[i].term in canon' && (log + [e])[..i + 1] <= canon'[(log + [e])[i].term]
    {
      if i < |log| {
        assert (log + [e])[..i + 1] == log[..i + 1];
      } else {
        assert (log + [e])[..i + 1] == log + [e];
      }
    }
  }

  /** Only the log of a node that fits has changed, and the new one fits. */
  lemma NewLogFits(nd: Node, log: Log, canon: Canon, canon': Canon)
    requires NodeFits(nd, canon) && Fits(log, canon', nd.currentTerm)
    ensures NodeFits(nd.(log := log), canon')
  {
  }

  lemma ReignExtends(t: nat, r: Reign, log: Log, e: Entry)
    requires ReignLog(t, r, log) && e.term == t
    ensures ReignLog(t, r, log + [e])
  {
  }

  lemma SubmitFits(nd: Node, canon: Canon, reigns: Reigns, e: Entry)
    requires NodeFits(nd, canon) && nd.role == Leader && LogsOfReigns(reigns, canon)
    requires nd.currentTerm in canon && canon[nd.currentTerm] == nd.log
    requires e.index == |nd.log| && e.term == nd.currentTerm
    ensures NodeFits(nd.(log := nd.log + [e]), canon[nd.currentTerm := nd.log + [e]])
    ensures ReignLog(nd.currentTerm, reigns[nd.currentTerm], nd.log + [e])
    ensures Grows(canon, canon[nd.currentTerm := nd.log + [e]])
  {
    assert ReignFits(nd.currentTerm, reigns[nd.currentTerm], nd.log, canon);
    ReignExtends(nd.currentTerm, reigns[nd.currentTerm], nd.log, e);
    ExtendFits(nd.log, canon, nd.currentTerm, e);
    NewLogFits(nd, nd.log + [e], canon, canon[nd.currentTerm := nd.log + [e]]);
  }

  lemma InitLog(ids: set<NodeId>)
    requires ClusterIds(ids)
    ensures LogInv(Init(ids), ids)
  {
  }

  lemma StepKeepsLog(s: Cluster, ids: set<NodeId>, step: Step)
    requires ElectionInv(s, ids) && LogInv(s, ids) && Enabled(s, step)
    ensures LogInv(Next(s, step), ids)
  {
    match step
    case Timeout(n) => TimeoutKeepsLog(s, ids, n);
    case DeliverVoteRequest(n, req) => VoteRequestKeepsInv(s, ids, n, req);
    case DeliverVoteReply(r) => VoteReplyKeepsInv(s, ids, r);
    case CloseElection(n, t) => CloseKeepsInv(s, ids, n, t);
    case Submit(n, cmd) => SubmitKeepsInv(s, ids, n, cmd);
    case Heartbeat(n, p, commit) => HeartbeatKeepsInv(s, ids, n, p, commit);
    case DeliverAppend(m) => AppendKeepsInv(s, ids, m);
    case DeliverAppendReply(r) => AppendReplyKeepsInv(s, ids, r);
    case ApplyNext(n) => ApplyKeepsInv(s, ids, n);
  }
}
