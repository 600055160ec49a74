/**
 Commits. A commit is decided by counting match indices, and the reply handler
 trusts every positive reply. Under the premise that a reply is counted only
 where `MayCount` holds, every commit rests on acknowledgements of one majority,
 and what is committed stays.
 */
module RaftCommit {
  import opened Common
  import opened RaftTypes
  import opened RaftNode
  import opened RaftCluster
  import opened RaftElection
  import opened RaftLog
  import opened RaftAcks

  type Commits = set<Commit>

  function LastShipped(req: AppendRequest): nat
    requires |req.entries| > 0
  {
    req.entries[|req.entries| - 1].index
  }

  /** Only a positive reply with entries that is not from the future is counted. */
  predicate Counts(nd: Node, req: AppendRequest, resp: AppendResponse) {
    resp.success && |req.entries| > 0 && resp.term <= nd.currentTerm
  }

  /**
   Where counting a reply is sound. A leader: the request is of its present term,
   or reaches only older entries of its log, which are never committed by counting.
   Any other node: there is nothing that counting could commit.
   */
  predicate MayCount(nd: Node, req: AppendRequest)
    requires |req.entries| > 0
  {
    if nd.role == Leader
    then || nd.currentTerm == req.term
         || (LastShipped(req) < |nd.log| && nd.log[LastShipped(req)].term < nd.currentTerm)
    else LastTerm(nd.log) < nd.currentTerm || LastIndex(nd.log) <= nd.commitIndex
  }

  /** The premise on steps: a reply that is counted may be counted. */
  predicate Guarded(s: Cluster, step: Step) {
    step.DeliverAppendReply? && step.appendReply.req.leader in s.nodes ==>
      var r := step.appendReply;
      Counts(s.nodes[r.req.leader], r.req, r.resp) ==> MayCount(s.nodes[r.req.leader], r.req)
  }

  /** A simpler premise that implies it: a reply that is counted reaches the leader of the request's term. */
  predicate Timely(s: Cluster, step: Step) {
    step.DeliverAppendReply? && step.appendReply.req.leader in s.nodes ==>
      var r := step.appendReply;
      var nd := s.nodes[r.req.leader];
      Counts(nd, r.req, r.resp) ==> nd.role == Leader && nd.currentTerm == r.req.term
  }

  /** A commit names an own entry of its term, acknowledged by a majority. */
  ghost predicate CommitBacked(c: Commit, canon: Canon, acks: Acks, ids: set<NodeId>) {
    && Own(canon, c.term, c.index)
    && IsMajority(c.quorum, ids)
    && forall v :: v in c.quorum ==> Acked(acks, v, c.term, c.index)
  }

  ghost predicate CommitsBacked(commits: Commits, canon: Canon, acks: Acks, ids: set<NodeId>) {
    forall c :: c in commits ==> CommitBacked(c, canon, acks, ids)
  }

  ghost predicate BackedBy(p: seq<Entry>, c: Commit, bound: nat, canon: Canon) {
    c.term <= bound && c.term in canon && |p| <= c.index + 1 && p <= canon[c.term]
  }

  /** The prefix is part of what some commit of a term up to `bound` covers. */
  ghost predicate Backed(p: seq<Entry>, bound: nat, commits: Commits, canon: Canon) {
    |p| <= 1 || exists c :: c in commits && BackedBy(p, c, bound, canon)
  }

  ghost predicate NodeBacked(nd: Node, commits: Commits, canon: Canon) {
    nd.commitIndex < |nd.log| && Backed(nd.log[..nd.commitIndex + 1], nd.currentTerm, commits, canon)
  }

  ghost predicate NodesBacked(nodes: Nodes, commits: Commits, canon: Canon) {
    forall n :: n in nodes ==> NodeBacked(nodes[n], commits, canon)
  }

  /** The commit index of a request covers entries that the request reaches, and they are committed. */
  ghost predicate RequestBacked(req: AppendRequest, commits: Commits, canon: Canon) {
    && req.term in canon && req.leaderCommit < |canon[req.term]|
    && req.leaderCommit <= req.prevLogIndex + |req.entries|
    && Backed(canon[req.term][..req.leaderCommit + 1], req.term, commits, canon)
  }

  ghost predicate RequestsBacked(appends: set<AppendMsg>, commits: Commits, canon: Canon) {
    forall m :: m in appends ==> RequestBacked(m.req, commits, canon)
  }

  /** A positive reply is backed by an acknowledgement. */
  ghost predicate ReplyBacked(r: AppendReply, appends: set<AppendMsg>, acks: Acks) {
    && AppendMsg(r.from, r.req) in appends
    && (r.resp.success ==>
          !(r.req.prevLogIndex > 0 && r.req.prevLogTerm == 0)
          && Acked(acks, r.from, r.req.term, r.req.prevLogIndex + |r.req.entries|))
  }

  ghost predicate RepliesBacked(replies: set<AppendReply>, appends: set<AppendMsg>, acks: Acks) {
    forall r :: r in replies ==> ReplyBacked(r, appends, acks)
  }

  /** Index k of a leader's log is of its own term, now or as soon as it proposes that far. */
  predicate OwnSoon(nd: Node, k: nat) {
    k >= 1 && (k < |nd.log| ==> nd.log[k].term == nd.currentTerm)
  }

  /** Counting p up to m counts it for no own-term index that it has not acknowledged in this term. */
  ghost predicate CountedFor(nd: Node, p: NodeId, m: nat, acks: Acks) {
    forall k: nat :: OwnSoon(nd, k) && k <= m ==> Acked(acks, p, nd.currentTerm, k)
  }

  /** A leader counts itself for its whole log, and each peer for nothing that the peer did not acknowledge. */
  ghost predicate CountsBacked(nd: Node, acks: Acks) {
    && nd.matchIndex.Keys <= nd.peers
    && (nd.role == Leader ==>
          Acked(acks, nd.id, nd.currentTerm, LastIndex(nd.log))
          && forall p :: p in nd.matchIndex ==> CountedFor(nd, p, nd.matchIndex[p], acks))
  }

  ghost predicate LeadersBacked(nodes: Nodes, acks: Acks) {
    forall n :: n in nodes ==> CountsBacked(nodes[n], acks)
  }

  ghost predicate EntryBacked(e: Entry, commits: Commits, canon: Canon) {
    exists c :: c in commits && EntryBackedBy(e, c, canon)
  }

  ghost predicate EntryBackedBy(e: Entry, c: Commit, canon: Canon) {
    c.term in canon && 1 <= e.index <= c.index < |canon[c.term]| && canon[c.term][e.index] == e
  }

  /** Everything ever put on an apply channel is committed, and everything applied was on the channel. */
  ghost predicate QueuesBacked(nodes: Nodes, queued: set<(NodeId, Entry)>, commits: Commits, canon: Canon) {
    && (forall q :: q in queued ==> EntryBacked(q.1, commits, canon))
    && (forall n, e :: n in nodes && (e in nodes[n].applyQueue || e in nodes[n].applied) ==> (n, e) in queued)
  }

  ghost predicate CommitInv(s: Cluster, ids: set<NodeId>) {
    match s
    case Cluster(nodes, _, net, hist) =>
      && CommitsBacked(hist.commits, hist.canon, hist.acks, ids)
      && NodesBacked(nodes, hist.commits, hist.canon)
      && RequestsBacked(net.appends, hist.commits, hist.canon)
      && RepliesBacked(net.appendReplies, net.appends, hist.acks)
      && LeadersBacked(nodes, hist.acks)
      && QueuesBacked(nodes, hist.queued, hist.commits, hist.canon)
  }

  // ---- what a commit means ----

  /** A committed entry is never blocked. */
  lemma CommittedNotBlocked(c: Commit, canon: Canon, acks: Acks, nodes: Nodes, grants: Grants, reigns: Reigns,
                            ids: set<NodeId>)
    requires CommitBacked(c, canon, acks, ids) && ReignsElected(nodes, grants, reigns, ids)
    ensures !Blocked(reigns, acks, c.term, c.index)
  {
    forall w | w in reigns && w > c.term
      ensures !RaftAcks.BlockedBy(reigns, acks, w, c.term, c.index)
    {
      assert ReignElected(nodes, grants, ids, w, reigns[w]);
      var v := MajoritiesMeet(c.quorum, reigns[w].quorum, ids);
      assert Acked(acks, v, c.term, c.index);
    }
  }

  /** Every leader of a later term started with all that is committed. */
  lemma CommitCarried(nodes: Nodes, grants: Grants, reigns: Reigns, canon: Canon, acks: Acks, ids: set<NodeId>,
                      c: Commit, u: nat)
    requires ReignsElected(nodes, grants, reigns, ids) && LogsOfReigns(reigns, canon) && StartsHold(canon, reigns, acks)
    requires CommitBacked(c, canon, acks, ids) && u in reigns && u > c.term
    ensures canon[c.term][..c.index + 1] <= reigns[u].initial <= canon[u]
  {
    CommittedNotBlocked(c, canon, acks, nodes, grants, reigns, ids);
    assert StartHolds(u, reigns[u].initial, canon, reigns, acks);
    assert Holds(reigns[u].initial, canon, reigns, acks, c.term, c.index);
    assert ReignFits(u, reigns[u], canon[u], canon);
  }

  /** Every leader log of a commit's term or later holds what is committed. */
  ghost predicate CommitsCarried(commits: Commits, canon: Canon) {
    forall c, u :: c in commits && u in canon && u >= c.term ==>
      c.term in canon && c.index < |canon[c.term]| && canon[c.term][..c.index + 1] <= canon[u]
  }

  lemma CarryAll(nodes: Nodes, grants: Grants, reigns: Reigns, canon: Canon, acks: Acks, commits: Commits,
                 ids: set<NodeId>)
    requires ReignsElected(nodes, grants, reigns, ids) && LogsOfReigns(reigns, canon) && StartsHold(canon, reigns, acks)
    requires CommitsBacked(commits, canon, acks, ids)
    ensures CommitsCarried(commits, canon)
  {
    forall c, u | c in commits && u in canon && u >= c.term
      ensures c.term in canon && c.index < |canon[c.term]| && canon[c.term][..c.index + 1] <= canon[u]
    {
      assert CommitBacked(c, canon, acks, ids);
      if u > c.term {
        CommitCarried(nodes, grants, reigns, canon, acks, ids, c, u);
      }
    }
  }

  lemma AllCommitsCarried(s: Cluster, ids: set<NodeId>)
    requires ElectionInv(s, ids) && LogInv(s, ids) && AckInv(s) && CommitInv(s, ids)
    ensures CommitsCarried(s.hist.commits, s.hist.canon)
  {
    CarryAll(s.nodes, s.hist.grants, s.hist.reigns, s.hist.canon, s.hist.acks, s.hist.commits, ids);
  }

  /** A backed prefix is part of every leader log of its term or later. */
  lemma BackedCarried(p: seq<Entry>, bound: nat, commits: Commits, canon: Canon, u: nat)
    requires Backed(p, bound, commits, canon) && CommitsCarried(commits, canon)
    requires u in canon && u >= bound && (|p| >= 1 ==> p[0] == canon[u][0])
    ensures p <= canon[u]
  {
    if |p| > 1 {
      var c :| c in commits && BackedBy(p, c, bound, canon);
      assert p <= canon[c.term][..c.index + 1] <= canon[u];
    }
  }

  // ---- history grows ----

  ghost predicate AcksGrow(acks: Acks, acks': Acks) {
    forall k :: k in acks ==> k in acks' && acks[k] <= acks'[k]
  }

  lemma BackedGrows(p: seq<Entry>, bound: nat, bound': nat, commits: Commits, commits': Commits,
                    canon: Canon, canon': Canon)
    requires Backed(p, bound, commits, canon) && bound <= bound' && commits <= commits' && Grows(canon, canon')
    ensures Backed(p, bound', commits', canon')
  {
    if |p| > 1 {
      var c :| c in commits && BackedBy(p, c, bound, canon);
      assert BackedBy(p, c, bound', canon');
    }
  }

  lemma CommitGrows(c: Commit, canon: Canon, canon': Canon, acks: Acks, acks': Acks, ids: set<NodeId>)
    requires CommitBacked(c, canon, acks, ids) && Grows(canon, canon') && AcksGrow(acks, acks')
    ensures CommitBacked(c, canon', acks', ids)
  {
    forall v | v in c.quorum
      ensures Acked(acks', v, c.term, c.index)
    {
      assert Acked(acks, v, c.term, c.index);
    }
  }

  lemma CommitsGrow(commits: Commits, canon: Canon, canon': Canon, acks: Acks, acks': Acks, ids: set<NodeId>)
    requires CommitsBacked(commits, canon, acks, ids) && Grows(canon, canon') && AcksGrow(acks, acks')
    ensures CommitsBacked(commits, canon', acks', ids)
  {
    forall c | c in commits
      ensures CommitBacked(c, canon', acks', ids)
    {
      CommitGrows(c, canon, canon', acks, acks', ids);
    }
  }

  lemma RequestsGrow(appends: set<AppendMsg>, commits: Commits, commits': Commits, canon: Canon, canon': Canon)
    requires RequestsBacked(appends, commits, canon) && commits <= commits' && Grows(canon, canon')
    ensures RequestsBacked(appends, commits', canon')
  {
    forall m | m in appends
      ensures RequestBacked(m.req, commits', canon')
    {
      var p := canon[m.req.term][..m.req.leaderCommit + 1];
      assert canon'[m.req.term][..m.req.leaderCommit + 1] == p;
      BackedGrows(p, m.req.term, m.req.term, commits, commits', canon, canon');
    }
  }

  lemma RepliesGrow(replies: set<AppendReply>, appends: set<AppendMsg>, acks: Acks, acks': Acks)
    requires RepliesBacked(replies, appends, acks) && AcksGrow(acks, acks')
    ensures RepliesBacked(replies, appends, acks')
  {
    forall r | r in replies
      ensures ReplyBacked(r, appends, acks')
    {
      assert ReplyBacked(r, appends, acks);
    }
  }

  lemma EntryGrows(e: Entry, commits: Commits, commits': Commits, canon: Canon, canon': Canon)
    requires EntryBacked(e, commits, canon) && commits <= commits' && Grows(canon, canon')
    ensures EntryBacked(e, commits', canon')
  {
    var c :| c in commits && EntryBackedBy(e, c, canon);
    assert EntryBackedBy(e, c, canon');
  }

  lemma NodesGrow(nodes: Nodes, commits: Commits, commits': Commits, canon: Canon, canon': Canon, n: NodeId, nd: Node)
    requires NodesBacked(nodes, commits, canon) && commits <= commits' && Grows(canon, canon')
    requires NodeBacked(nd, commits', canon')
    ensures NodesBacked(nodes[n := nd], commits', canon')
  {
    forall v | v in nodes && v != n
      ensures NodeBacked(nodes[v], commits', canon')
    {
      assert NodeBacked(nodes[v], commits, canon);
      BackedGrows(nodes[v].log[..nodes[v].commitIndex + 1], nodes[v].currentTerm, nodes[v].currentTerm,
                  commits, commits', canon, canon');
    }
  }

  lemma CountedForGrows(nd: Node, p: NodeId, m: nat, acks: Acks, acks': Acks)
    requires CountedFor(nd, p, m, acks) && AcksGrow(acks, acks')
    ensures CountedFor(nd, p, m, acks')
  {
    forall k: nat | OwnSoon(nd, k) && k <= m
      ensures Acked(acks', p, nd.currentTerm, k)
    {
      assert Acked(acks, p, nd.currentTerm, k);
    }
  }

  /** A leader's counts stay backed while its log only grows. */
  lemma CountsKept(a: Node, b: Node, acks: Acks, acks': Acks)
    requires CountsBacked(a, acks) && AcksGrow(acks, acks') && b.peers == a.peers && b.matchIndex == a.matchIndex
    requires b.role == Leader ==> a.role == Leader && b.currentTerm == a.currentTerm && a.log <= b.log
    requires b.role == Leader ==> Acked(acks', b.id, b.currentTerm, LastIndex(b.log))
    ensures CountsBacked(b, acks')
  {
    if b.role == Leader {
      forall p | p in b.matchIndex
        ensures CountedFor(b, p, b.matchIndex[p], acks')
      {
        CountedForGrows(a, p, a.matchIndex[p], acks, acks');
        assert forall k: nat :: OwnSoon(b, k) ==> OwnSoon(a, k);
      }
    }
  }

  lemma CountsGrow(nd: Node, acks: Acks, acks': Acks)
    requires CountsBacked(nd, acks) && AcksGrow(acks, acks')
    ensures CountsBacked(nd, acks')
  {
    forall p | p in nd.matchIndex && nd.role == Leader
      ensures CountedFor(nd, p, nd.matchIndex[p], acks')
    {
      CountedForGrows(nd, p, nd.matchIndex[p], acks, acks');
    }
  }

  lemma LeadersGrow(nodes: Nodes, acks: Acks, acks': Acks, n: NodeId, nd: Node)
    requires LeadersBacked(nodes, acks) && AcksGrow(acks, acks') && CountsBacked(nd, acks')
    ensures LeadersBacked(nodes[n := nd], acks')
  {
    forall v | v in nodes && v != n
      ensures CountsBacked(nodes[v], acks')
    {
      CountsGrow(nodes[v], acks, acks');
    }
  }

  /** The node's channel and applied entries come from what was queued before and from newly committed entries. */
  lemma QueuesGrow(nodes: Nodes, queued: set<(NodeId, Entry)>, commits: Commits, commits': Commits,
                   canon: Canon, canon': Canon, n: NodeId, nd: Node)
    requires QueuesBacked(nodes, queued, commits, canon) && n in nodes
    requires commits <= commits' && Grows(canon, canon')
    requires forall e :: e in nd.applyQueue ==> e in nodes[n].applyQueue || EntryBacked(e, commits', canon')
    requires forall e :: e in nd.applied ==> e in nodes[n].applied || e in nodes[n].applyQueue
    ensures QueuesBacked(nodes[n := nd], queued + On(n, nd.applyQueue), commits', canon')
  {
    forall q | q in queued + On(n, nd.applyQueue)
      ensures EntryBacked(q.1, commits', canon')
    {
      if q in queued || q.1 in nodes[n].applyQueue {
        assert q in queued || (n, q.1) in queued;
        EntryGrows(q.1, commits, commits', canon, canon');
      }
    }
  }

  // ---- one node moves ----

  ghost predicate HistoryGrows(h: History, h': History) {
    && Grows(h.canon, h'.canon) && AcksGrow(h.acks, h'.acks) && Kept(h.reigns, h'.reigns)
    && h.commits <= h'.commits && h.queued <= h'.queued
  }

  /** One node moves and history grows; nothing enters the network. */
  ghost predicate CommitMove(s: Cluster, s': Cluster, n: NodeId) {
    && n in s.nodes && n in s'.nodes && s'.nodes == s.nodes[n := s'.nodes[n]]
    && s'.net.appends == s.net.appends && s'.net.appendReplies == s.net.appendReplies
    && s'.hist.queued == s.hist.queued + On(n, s'.nodes[n].applyQueue)
    && HistoryGrows(s.hist, s'.hist)
  }

  /** What the moved node must satisfy. */
  ghost predicate MoverBacked(a: Node, b: Node, h: History) {
    && NodeBacked(b, h.commits, h.canon) && CountsBacked(b, h.acks)
    && (forall e :: e in b.applyQueue ==> e in a.applyQueue || EntryBacked(e, h.commits, h.canon))
    && (forall e :: e in b.applied ==> e in a.applied || e in a.applyQueue)
  }

  lemma MoveKeepsCommits(s: Cluster, s': Cluster, ids: set<NodeId>, n: NodeId)
    requires CommitMove(s, s', n) && MoverBacked(s.nodes[n], s'.nodes[n], s'.hist)
    requires CommitsBacked(s'.hist.commits, s'.hist.canon, s'.hist.acks, ids)
    requires CommitInv(s, ids)
    ensures CommitInv(s', ids)
  {
    var h, h' := s.hist, s'.hist;
    NodesGrow(s.nodes, h.commits, h'.commits, h.canon, h'.canon, n, s'.nodes[n]);
    RequestsGrow(s.net.appends, h.commits, h'.commits, h.canon, h'.canon);
    RepliesGrow(s.net.appendReplies, s.net.appends, h.acks, h'.acks);
    LeadersGrow(s.nodes, h.acks, h'.acks, n, s'.nodes[n]);
    QueuesGrow(s.nodes, h.queued, h.commits, h'.commits, h.canon, h'.canon, n, s'.nodes[n]);
  }

  /** A move that touches neither log, commit index, match indices nor channel, and makes nobody leader. */
  ghost predicate Idle(a: Node, b: Node) {
    && b.id == a.id && b.peers == a.peers && b.log == a.log && b.commitIndex == a.commitIndex
    && b.matchIndex == a.matchIndex && b.applyQueue == a.applyQueue && b.applied == a.applied
    && b.currentTerm >= a.currentTerm
    && (b.role == Leader ==> a.role == Leader && b.currentTerm == a.currentTerm)
  }

  lemma IdleBacked(a: Node, b: Node, h: History)
    requires Idle(a, b) && NodeBacked(a, h.commits, h.canon) && CountsBacked(a, h.acks)
    ensures MoverBacked(a, b, h)
  {
    BackedGrows(a.log[..a.commitIndex + 1], a.currentTerm, b.currentTerm, h.commits, h.commits, h.canon, h.canon);
  }

  lemma IdleKeeps(s: Cluster, s': Cluster, ids: set<NodeId>, n: NodeId)
    requires CommitMove(s, s', n) && Idle(s.nodes[n], s'.nodes[n])
    requires s'.hist.canon == s.hist.canon && s'.hist.acks == s.hist.acks && s'.hist.commits == s.hist.commits
    requires CommitInv(s, ids)
    ensures CommitInv(s', ids)
  {
    IdleBacked(s.nodes[n], s'.nodes[n], s'.hist);
    MoveKeepsCommits(s, s', ids, n);
  }

  lemma TimeoutKeepsCommits(s: Cluster, ids: set<NodeId>, n: NodeId)
    requires n in s.nodes && CommitInv(s, ids)
    ensures CommitInv(NextTimeout(s, n), ids)
  {
    IdleKeeps(s, NextTimeout(s, n), ids, n);
  }

  lemma VoteRequestKeepsCommits(s: Cluster, ids: set<NodeId>, n: NodeId, req: VoteRequest)
    requires n in s.nodes && CommitInv(s, ids)
    ensures CommitInv(NextVoteRequest(s, n, req), ids)
  {
    IdleKeeps(s, NextVoteRequest(s, n, req), ids, n);
  }

  lemma VoteReplyKeepsCommits(s: Cluster, ids: set<NodeId>, r: VoteReply)
    requires r.req.candidate in s.nodes && CommitInv(s, ids)
    ensures CommitInv(NextVoteReply(s, r), ids)
  {
    IdleKeeps(s, NextVoteReply(s, r), ids, r.req.candidate);
  }

  lemma ApplyKeepsCommits(s: Cluster, ids: set<NodeId>, n: NodeId)
    requires n in s.nodes && CommitInv(s, ids)
    ensures CommitInv(NextApply(s, n), ids)
  {
    var s' := NextApply(s, n);
    assert NodeBacked(s.nodes[n], s.hist.commits, s.hist.canon) && CountsBacked(s.nodes[n], s.hist.acks);
    ApplyBacked(s.nodes[n], s.hist);
    MoveKeepsCommits(s, s', ids, n);
  }

  lemma ApplyBacked(nd: Node, h: History)
    requires NodeBacked(nd, h.commits, h.canon) && CountsBacked(nd, h.acks)
    ensures MoverBacked(nd, ApplyTurn(nd), h)
  {
  }

  // ---- leaders move ----

  lemma CrownBacked(nd: Node, h: History, h': History)
    requires NodeBacked(nd, h.commits, h.canon) && CountsBacked(nd, h.acks)
    requires HistoryGrows(h, h') && Acked(h'.acks, nd.id, nd.currentTerm, LastIndex(nd.log))
    ensures MoverBacked(nd, BecomeLeader(nd), h')
  {
    BackedGrows(nd.log[..nd.commitIndex + 1], nd.currentTerm, nd.currentTerm, h.commits, h'.commits, h.canon, h'.canon);
  }

  lemma ExtendBacked(nd: Node, e: Entry, h: History, h': History)
    requires NodeBacked(nd, h.commits, h.canon) && CountsBacked(nd, h.acks)
    requires HistoryGrows(h, h') && Acked(h'.acks, nd.id, nd.currentTerm, |nd.log|)
    ensures MoverBacked(nd, nd.(log := nd.log + [e]), h')
  {
    var p := nd.log[..nd.commitIndex + 1];
    CountsKept(nd, nd.(log := nd.log + [e]), h.acks, h'.acks);
    assert (nd.log + [e])[..nd.commitIndex + 1] == p;
    BackedGrows(p, nd.currentTerm, nd.currentTerm, h.commits, h'.commits, h.canon, h'.canon);
  }

  lemma FirstAck(nodes: Nodes, canon: Canon, acks: Acks, n: NodeId, t: nat, x: nat)
    requires AcksFit(nodes, canon, acks) && t !in canon
    ensures AcksGrow(acks, acks[(n, t) := x])
  {
    assert (n, t) in acks ==> (n, t).1 in canon;
  }

  /** The state after a won election. */
  ghost predicate Crowned(s: Cluster, s': Cluster, n: NodeId, t: nat) {
    && n in s.nodes && t == s.nodes[n].currentTerm && t !in s.hist.canon && t !in s.hist.reigns && t in s'.hist.reigns
    && s'.nodes == s.nodes[n := BecomeLeader(s.nodes[n])] && s'.net == s.net
    && s'.hist.canon == s.hist.canon[t := s.nodes[n].log]
    && s'.hist.reigns == s.hist.reigns[t := s'.hist.reigns[t]]
    && s'.hist.acks == s.hist.acks[(n, t) := LastIndex(s.nodes[n].log)]
    && s'.hist.commits == s.hist.commits && s'.hist.queued == s.hist.queued + On(n, s.nodes[n].applyQueue)
  }

  lemma CrownedKeepsCommits(s: Cluster, s': Cluster, ids: set<NodeId>, n: NodeId, t: nat)
    requires Crowned(s, s', n, t) && AcksFit(s.nodes, s.hist.canon, s.hist.acks) && s.nodes[n].id == n
    requires CommitInv(s, ids)
    ensures CommitInv(s', ids)
  {
    FirstAck(s.nodes, s.hist.canon, s.hist.acks, n, t, LastIndex(s.nodes[n].log));
    assert NodeBacked(s.nodes[n], s.hist.commits, s.hist.canon) && CountsBacked(s.nodes[n], s.hist.acks);
    CrownBacked(s.nodes[n], s.hist, s'.hist);
    CommitsGrow(s.hist.commits, s.hist.canon, s'.hist.canon, s.hist.acks, s'.hist.acks, ids);
    MoveKeepsCommits(s, s', ids, n);
  }

  lemma CloseKeepsCommits(s: Cluster, ids: set<NodeId>, n: NodeId, t: nat)
    requires n in s.nodes && (n, t) in s.rounds
    requires ElectionInv(s, ids) && LogInv(s, ids) && AckInv(s) && CommitInv(s, ids)
    ensures CommitInv(NextClose(s, n, t), ids)
  {
    if WinsElection(s.nodes[n], t, 1 + |s.rounds[(n, t)]|) {
      WonByMajority(s, ids, n, t);
      CrownedKeepsCommits(s, NextClose(s, n, t), ids, n, t);
    } else {
      IdleKeeps(s, NextClose(s, n, t), ids, n);
    }
  }

  lemma ExtendedKeepsCommits(s: Cluster, s': Cluster, ids: set<NodeId>, n: NodeId, u: nat, e: Entry)
    requires Extended(s, s', n, u, e) && AcksFit(s.nodes, s.hist.canon, s.hist.acks) && s.nodes[n].id == n
    requires CommitInv(s, ids)
    ensures CommitInv(s', ids)
  {
    assert (n, u) in s.hist.acks ==> s.hist.acks[(n, u)] < |s.hist.canon[(n, u).1]|;
    assert NodeBacked(s.nodes[n], s.hist.commits, s.hist.canon) && CountsBacked(s.nodes[n], s.hist.acks);
    ExtendBacked(s.nodes[n], e, s.hist, s'.hist);
    CommitsGrow(s.hist.commits, s.hist.canon, s'.hist.canon, s.hist.acks, s'.hist.acks, ids);
    MoveKeepsCommits(s, s', ids, n);
  }

  lemma SubmitKeepsCommits(s: Cluster, ids: set<NodeId>, n: NodeId, cmd: Command)
    requires n in s.nodes
    requires ElectionInv(s, ids) && LogInv(s, ids) && AckInv(s) && CommitInv(s, ids)
    ensures CommitInv(NextSubmit(s, n, cmd), ids)
  {
    if s.nodes[n].role == Leader {
      LeaderLog(s, ids, n);
      SubmitExtends(s, n, cmd);
      ExtendedKeepsCommits(s, NextSubmit(s, n, cmd), ids, n, s.nodes[n].currentTerm,
                           Entry(|s.nodes[n].log|, s.nodes[n].currentTerm, Some(cmd)));
    } else {
      IdleKeeps(s, NextSubmit(s, n, cmd), ids, n);
    }
  }

  // ---- heartbeats ----

  lemma BackedPrefix(p: seq<Entry>, q: seq<Entry>, bound: nat, commits: Commits, canon: Canon)
    requires Backed(q, bound, commits, canon) && p <= q
    ensures Backed(p, bound, commits, canon)
  {
    if |p| > 1 {
      var c :| c in commits && BackedBy(q, c, bound, canon);
      assert BackedBy(p, c, bound, canon);
    }
  }

  lemma SnapshotBacked(nd: Node, p: NodeId, commit: nat, commits: Commits, canon: Canon)
    requires NodeBacked(nd, commits, canon) && nd.currentTerm in canon && canon[nd.currentTerm] == nd.log
    requires p in nd.nextIndex && nd.nextIndex[p] >= 1 && commit <= nd.commitIndex
    ensures RequestBacked(Snapshot(nd, p, nd.currentTerm, commit), commits, canon)
  {
    BackedPrefix(nd.log[..commit + 1], nd.log[..nd.commitIndex + 1], nd.currentTerm, commits, canon);
  }

  lemma RequestAdded(replies: set<AppendReply>, appends: set<AppendMsg>, acks: Acks, commits: Commits, canon: Canon,
                     m: AppendMsg)
    requires RequestsBacked(appends, commits, canon) && RepliesBacked(replies, appends, acks)
    requires RequestBacked(m.req, commits, canon)
    ensures RequestsBacked(appends + {m}, commits, canon) && RepliesBacked(replies, appends + {m}, acks)
  {
    forall r | r in replies
      ensures ReplyBacked(r, appends + {m}, acks)
    {
      assert ReplyBacked(r, appends, acks);
    }
  }

  lemma HeartbeatKeepsCommits(s: Cluster, ids: set<NodeId>, n: NodeId, p: NodeId, commit: nat)
    requires n in s.nodes && p in s.nodes[n].peers && s.nodes[n].role == Leader && commit <= s.nodes[n].commitIndex
    requires ElectionInv(s, ids) && LogInv(s, ids) && CommitInv(s, ids)
    ensures CommitInv(NextHeartbeat(s, n, p, commit), ids)
  {
    LeaderLog(s, ids, n);
    assert NodeFits(s.nodes[n], s.hist.canon) && NodeBacked(s.nodes[n], s.hist.commits, s.hist.canon);
    SnapshotBacked(s.nodes[n], p, commit, s.hist.commits, s.hist.canon);
    RequestAdded(s.net.appendReplies, s.net.appends, s.hist.acks, s.hist.commits, s.hist.canon,
                 AppendMsg(p, Snapshot(s.nodes[n], p, s.nodes[n].currentTerm, commit)));
  }

  // ---- followers accept ----

  /** Entries of a backed prefix are backed. */
  lemma PendingBacked(log: Log, lastApplied: nat, commitIndex: nat, bound: nat, commits: Commits, canon: Canon)
    requires LogOk(log) && commitIndex < |log| && Backed(log[..commitIndex + 1], bound, commits, canon)
    requires CommitsCarried(commits, canon)
    ensures forall e :: e in Pending(log, lastApplied, commitIndex) ==> EntryBacked(e, commits, canon)
  {
    if commitIndex > 0 {
      var p := log[..commitIndex + 1];
      var c :| c in commits && BackedBy(p, c, bound, canon);
      forall e | e in Pending(log, lastApplied, commitIndex)
        ensures EntryBacked(e, commits, canon)
      {
        assert e == p[e.index] == canon[c.term][e.index];
        assert EntryBackedBy(e, c, canon);
      }
    }
  }

  lemma OfferFrom(queue: seq<Entry>, span: seq<Entry>, e: Entry)
    requires e in Offer(queue, span)
    ensures e in queue || e in span
  {
  }

  /** The commit side of an accepted request. */
  ghost predicate AcceptShape(nd: Node, req: AppendRequest, nd': Node) {
    && nd'.id == nd.id && nd'.peers == nd.peers && nd'.matchIndex == nd.matchIndex && nd'.applied == nd.applied
    && nd'.currentTerm >= nd.currentTerm
    && (nd'.role == Leader ==> nd.role == Leader && nd'.currentTerm == nd.currentTerm)
    && req.prevLogIndex + |req.entries| < |nd'.log|
    && (if req.leaderCommit > nd.commitIndex
        then && nd'.commitIndex == (if req.leaderCommit < req.prevLogIndex + |req.entries|
                                    then req.leaderCommit else req.prevLogIndex + |req.entries|)
             && nd'.applyQueue == Offer(nd.applyQueue, Pending(nd'.log, nd.lastApplied, nd'.commitIndex))
        else nd'.commitIndex == nd.commitIndex && nd'.applyQueue == nd.applyQueue)
  }

  lemma AppendHasAcceptShape(nd: Node, req: AppendRequest)
    ensures var (nd', resp) := HandleAppendEntries(nd, req);
            if resp.success then AcceptShape(nd, req, nd') else Idle(nd, nd')
  {
  }

  /** The receiver's committed prefix stays, and what the request commits is committed. */
  lemma AcceptBacked(nd: Node, req: AppendRequest, nd': Node, commits: Commits, canon: Canon)
    requires AcceptShape(nd, req, nd') && nd'.currentTerm == req.term
    requires NodeBacked(nd, commits, canon) && RequestBacked(req, commits, canon) && CommitsCarried(commits, canon)
    requires req.prevLogIndex + |req.entries| < |canon[req.term]|
    requires LogOk(nd.log) && LogOk(canon[req.term])
    requires nd'.log == if Shipped(req, canon) <= nd.log then nd.log else Shipped(req, canon)
    ensures NodeBacked(nd', commits, canon)
    ensures nd.log[..nd.commitIndex + 1] <= nd'.log && nd.commitIndex <= nd'.commitIndex
  {
    var p, log := nd.log[..nd.commitIndex + 1], Shipped(req, canon);
    BackedCarried(p, nd.currentTerm, commits, canon, req.term);
    MergeKeepsShared(nd.log, canon[req.term], req.prevLogIndex + |req.entries|, p);
    if req.leaderCommit > nd.commitIndex {
      AcceptCommits(req, nd', log, commits, canon);
    } else {
      SamePrefix(nd'.log, p, |p|);
      BackedGrows(p, nd.currentTerm, nd'.currentTerm, commits, commits, canon, canon);
    }
  }

  lemma AcceptCommits(req: AppendRequest, nd': Node, shipped: Log, commits: Commits, canon: Canon)
    requires RequestBacked(req, commits, canon) && nd'.currentTerm == req.term
    requires req.prevLogIndex + |req.entries| < |canon[req.term]| && shipped == Shipped(req, canon)
    requires shipped <= nd'.log && nd'.commitIndex == req.leaderCommit
    ensures NodeBacked(nd', commits, canon)
  {
    SamePrefix(nd'.log, shipped, nd'.commitIndex + 1);
    SamePrefix(canon[req.term], shipped, nd'.commitIndex + 1);
  }

  lemma SamePrefix(a: seq<Entry>, p: seq<Entry>, k: nat)
    requires p <= a && k <= |p|
    ensures a[..k] == p[..k]
  {
  }

  lemma AcceptMoves(nd: Node, req: AppendRequest, nd': Node, h: History, h': History)
    requires AcceptShape(nd, req, nd') && NodeBacked(nd', h'.commits, h'.canon) && LogOk(nd'.log)
    requires CommitsCarried(h'.commits, h'.canon) && HistoryGrows(h, h')
    requires CountsBacked(nd, h.acks) && (nd'.role == Leader ==> nd'.log == nd.log)
    ensures MoverBacked(nd, nd', h')
  {
    CountsKept(nd, nd', h.acks, h'.acks);
    PendingBacked(nd'.log, nd.lastApplied, nd'.commitIndex, nd'.currentTerm, h'.commits, h'.canon);
    forall e | e in nd'.applyQueue
      ensures e in nd.applyQueue || EntryBacked(e, h'.commits, h'.canon)
    {
      if nd'.commitIndex != nd.commitIndex {
        OfferFrom(nd.applyQueue, Pending(nd'.log, nd.lastApplied, nd'.commitIndex), e);
      }
    }
  }

  /** A node that leads a term is not addressed by requests of that term. */
  lemma LeaderNotAddressed(s: Cluster, ids: set<NodeId>, m: AppendMsg)
    requires ElectionInv(s, ids) && LogInv(s, ids) && m in s.net.appends && m.to in s.nodes
    ensures s.nodes[m.to].role == Leader ==> s.nodes[m.to].currentTerm != m.req.term
  {
  }

  /** An accepted request, before its answer enters the network. */
  lemma AcceptedKeepsCommits(s: Cluster, s': Cluster, ids: set<NodeId>, m: AppendMsg)
    requires Accepted(s, s', m.to, m.req.term, m.req.prevLogIndex + |m.req.entries|) && CommitMove(s, s', m.to)
    requires AcceptShape(s.nodes[m.to], m.req, s'.nodes[m.to]) && s'.nodes[m.to].role != Leader
    requires s'.hist.commits == s.hist.commits
    requires LogOk(s.nodes[m.to].log) && LogOk(s.hist.canon[m.req.term]) && LogOk(s'.nodes[m.to].log)
    requires CommitsCarried(s.hist.commits, s.hist.canon) && m in s.net.appends
    requires CommitInv(s, ids)
    ensures CommitInv(s', ids)
  {
    var nd, nd', h, h' := s.nodes[m.to], s'.nodes[m.to], s.hist, s'.hist;
    assert NodeBacked(nd, h.commits, h.canon) && CountsBacked(nd, h.acks);
    assert RequestBacked(m.req, h.commits, h.canon);
    AcceptedMoves(nd, m.req, nd', h, h');
    CommitsGrow(h.commits, h.canon, h'.canon, h.acks, h'.acks, ids);
    MoveKeepsCommits(s, s', ids, m.to);
  }

  lemma AcceptedMoves(nd: Node, req: AppendRequest, nd': Node, h: History, h': History)
    requires AcceptShape(nd, req, nd') && nd'.currentTerm == req.term && nd'.role != Leader
    requires NodeBacked(nd, h.commits, h.canon) && CountsBacked(nd, h.acks)
    requires RequestBacked(req, h.commits, h.canon) && CommitsCarried(h.commits, h.canon)
    requires req.prevLogIndex + |req.entries| < |h.canon[req.term]|
    requires LogOk(nd.log) && LogOk(h.canon[req.term]) && LogOk(nd'.log)
    requires nd'.log == if Shipped(req, h.canon) <= nd.log then nd.log else Shipped(req, h.canon)
    requires HistoryGrows(h, h') && h'.canon == h.canon && h'.commits == h.commits
    ensures MoverBacked(nd, nd', h')
  {
    AcceptBacked(nd, req, nd', h.commits, h.canon);
    AcceptMoves(nd, req, nd', h, h');
  }

  lemma ReplyAdded(s: Cluster, s': Cluster, ids: set<NodeId>, r: AppendReply)
    requires CommitInv(s, ids) && ReplyBacked(r, s.net.appends, s.hist.acks)
    requires s'.nodes == s.nodes && s'.hist == s.hist
    requires s'.net == s.net.(appendReplies := s.net.appendReplies + {r})
    ensures CommitInv(s', ids)
  {
  }

  lemma SuccessBacked(s: Cluster, s': Cluster, m: AppendMsg, resp: AppendResponse)
    requires Received(s, s', m, resp) && resp.success
    requires m in s.net.appends && m.req.term in s.hist.canon && m.req.term in s.hist.reigns
    requires ReignFits(m.req.term, s.hist.reigns[m.req.term], s.hist.canon[m.req.term], s.hist.canon)
    requires NodeFits(s.nodes[m.to], s.hist.canon) && RequestFits(m.req, s.hist.canon)
    ensures ReplyBacked(AppendReply(m.to, m.req, resp), s.net.appends, s'.hist.acks)
    ensures AcksGrow(s.hist.acks, s'.hist.acks)
  {
    AppendOutcome(s.nodes[m.to], m.req, s'.nodes[m.to], resp, s.hist.canon);
  }

  lemma AppendKeepsCommits(s: Cluster, ids: set<NodeId>, m: AppendMsg)
    requires m in s.net.appends && m.to in s.nodes
    requires ElectionInv(s, ids) && LogInv(s, ids) && AckInv(s) && CommitInv(s, ids)
    ensures CommitInv(NextAppend(s, m), ids)
  {
    var s', resp := NextAppend(s, m), HandleAppendEntries(s.nodes[m.to], m.req).1;
    AppendIsReceived(s, m);
    AppendHasAcceptShape(s.nodes[m.to], m.req);
    if resp.success {
      RequestOfNetwork(s, ids, m);
      SuccessBacked(s, s', m, resp);
      AnswerKeepsCommits(s, s', s'.(net := s.net), ids, m, resp);
    } else {
      IdleKeeps(s, s'.(net := s.net), ids, m.to);
    }
    ReplyAdded(s'.(net := s.net), s', ids, AppendReply(m.to, m.req, resp));
  }

  lemma AnswerAccepted(s: Cluster, s': Cluster, ids: set<NodeId>, m: AppendMsg, resp: AppendResponse)
    requires m in s.net.appends && Received(s, s', m, resp) && resp.success
    requires ElectionInv(s, ids) && LogInv(s, ids)
    ensures Accepted(s, s', m.to, m.req.term, m.req.prevLogIndex + |m.req.entries|)
    ensures LogOk(s.nodes[m.to].log) && LogOk(s.hist.canon[m.req.term]) && LogOk(s'.nodes[m.to].log)
    ensures s'.nodes[m.to].role != Leader
  {
    RequestOfNetwork(s, ids, m);
    ReceivedIsAccepted(s, s', m, resp);
    AppendFits(s.nodes[m.to], m.req, s'.nodes[m.to], resp, s.hist.canon);
    LeaderNotAddressed(s, ids, m);
  }

  lemma AnswerKeepsCommits(s: Cluster, s': Cluster, s0: Cluster, ids: set<NodeId>, m: AppendMsg, resp: AppendResponse)
    requires m in s.net.appends && Received(s, s', m, resp) && resp.success
    requires AcceptShape(s.nodes[m.to], m.req, s'.nodes[m.to]) && AcksGrow(s.hist.acks, s'.hist.acks)
    requires s'.hist.commits == s.hist.commits && s'.hist.queued == s.hist.queued + On(m.to, s'.nodes[m.to].applyQueue)
    requires s0 == s'.(net := s.net)
    requires ElectionInv(s, ids) && LogInv(s, ids) && AckInv(s) && CommitInv(s, ids)
    ensures CommitInv(s0, ids)
  {
    AnswerAccepted(s, s', ids, m, resp);
    AnswerMoves(s, s', s0, m, resp);
    AllCommitsCarried(s, ids);
    AcceptedKeepsCommits(s, s0, ids, m);
  }

  lemma AnswerMoves(s: Cluster, s': Cluster, s0: Cluster, m: AppendMsg, resp: AppendResponse)
    requires Received(s, s', m, resp) && resp.success && AcksGrow(s.hist.acks, s'.hist.acks)
    requires Accepted(s, s', m.to, m.req.term, m.req.prevLogIndex + |m.req.entries|)
    requires s'.hist.commits == s.hist.commits && s'.hist.queued == s.hist.queued + On(m.to, s'.nodes[m.to].applyQueue)
    requires s0 == s'.(net := s.net)
    ensures Accepted(s, s0, m.to, m.req.term, m.req.prevLogIndex + |m.req.entries|) && CommitMove(s, s0, m.to)
  {
  }

  // ---- replies are counted ----

  lemma ReplyFrom(net: Network, hist: History, ids: set<NodeId>, r: AppendReply)
    requires RepliesBacked(net.appendReplies, net.appends, hist.acks)
    requires AppendsFit(net.appends, hist.reigns, hist.canon, ids) && LogsOfReigns(hist.reigns, hist.canon)
    requires r in net.appendReplies && r.resp.success && |r.req.entries| > 0
    ensures r.from in ids && r.from != r.req.leader && LastShipped(r.req) >= 1
    ensures Acked(hist.acks, r.from, r.req.term, LastShipped(r.req))
  {
    assert ReplyBacked(r, net.appends, hist.acks);
    assert AppendMsg(r.from, r.req).req == r.req && RequestFits(r.req, hist.canon);
    LastEntryIndex(r.req, hist.canon, hist.reigns);
  }

  /** What a positive reply with entries reports: its sender acknowledged the last of them in the request's term. */
  lemma ReplyReports(s: Cluster, ids: set<NodeId>, r: AppendReply)
    requires LogInv(s, ids) && CommitInv(s, ids)
    requires r in s.net.appendReplies && r.resp.success && |r.req.entries| > 0
    ensures r.from in ids && r.from != r.req.leader && LastShipped(r.req) >= 1
    ensures Acked(s.hist.acks, r.from, r.req.term, LastShipped(r.req))
  {
    ReplyFrom(s.net, s.hist, ids, r);
  }

  lemma LastEntryIndex(req: AppendRequest, canon: Canon, reigns: Reigns)
    requires RequestFits(req, canon) && LogsOfReigns(reigns, canon) && |req.entries| > 0
    ensures LastShipped(req) == req.prevLogIndex + |req.entries|
  {
    var c := canon[req.term];
    assert ReignFits(req.term, reigns[req.term], c, canon);
    assert req.entries[|req.entries| - 1] == c[req.prevLogIndex + |req.entries|];
  }

  /** The leader after it recorded one reply. */
  function Recorded(nd: Node, peer: NodeId, last: nat): Node {
    nd.(nextIndex := nd.nextIndex[peer := last + 1], matchIndex := nd.matchIndex[peer := last])
  }

  lemma RecordBacked(nd: Node, peer: NodeId, last: nat, acks: Acks)
    requires CountsBacked(nd, acks) && nd.role == Leader && peer in nd.peers
    requires CountedFor(nd, peer, last, acks)
    ensures CountsBacked(Recorded(nd, peer, last), acks)
  {
    forall p | p in Recorded(nd, peer, last).matchIndex
      ensures CountedFor(Recorded(nd, peer, last), p, Recorded(nd, peer, last).matchIndex[p], acks)
    {
      assert p != peer ==> CountedFor(nd, p, nd.matchIndex[p], acks);
    }
  }

  /** Below an entry of an earlier term a leader's log holds no entry of its own term. */
  lemma NoneOwnBelow(nd: Node, r: Reign, m: nat)
    requires ReignLog(nd.currentTerm, r, nd.log) && m < |nd.log| && nd.log[m].term < nd.currentTerm
    ensures forall k: nat :: k <= m ==> !OwnSoon(nd, k)
  {
    assert m < |r.initial|;
    forall k: nat | k <= m
      ensures !OwnSoon(nd, k)
    {
      assert nd.log[k] == r.initial[k];
    }
  }

  /** Recording a reply makes a leader count the sender for nothing unacknowledged exactly when it may count it. */
  lemma CountedForIff(nd: Node, r: Reign, req: AppendRequest, peer: NodeId, acks: Acks)
    requires nd.role == Leader && |req.entries| > 0 && LastShipped(req) >= 1
    requires ReignLog(nd.currentTerm, r, nd.log) && TermsUpTo(nd.log, nd.currentTerm)
    requires Acked(acks, peer, req.term, LastShipped(req))
    ensures CountedFor(nd, peer, LastShipped(req), acks) <==>
            MayCount(nd, req) || Acked(acks, peer, nd.currentTerm, LastShipped(req))
  {
    var last := LastShipped(req);
    if nd.currentTerm != req.term && last < |nd.log| && nd.log[last].term < nd.currentTerm {
      NoneOwnBelow(nd, r, last);
    } else if !MayCount(nd, req) {
      assert OwnSoon(nd, last);
    }
  }

  /** The commit rule: an entry of the leader's own term, counted on a majority. */
  lemma CommittableBacked(nd: Node, index: nat, canon: Canon, acks: Acks, ids: set<NodeId>)
    requires nd.id in ids && nd.peers == ids - {nd.id} && nd.role == Leader && CountsBacked(nd, acks)
    requires 1 <= index < |nd.log| && Committable(nd, index)
    requires nd.currentTerm in canon && canon[nd.currentTerm] == nd.log
    ensures CommitBacked(Commit(nd.currentTerm, index, {nd.id} + Holders(nd.matchIndex, index)), canon, acks, ids)
  {
    EnoughVotes(nd.id, Holders(nd.matchIndex, index), ids);
    forall p | p in Holders(nd.matchIndex, index)
      ensures Acked(acks, p, nd.currentTerm, index)
    {
      assert CountedFor(nd, p, nd.matchIndex[p], acks) && OwnSoon(nd, index);
    }
  }

  lemma CommitAdded(commits: Commits, canon: Canon, acks: Acks, ids: set<NodeId>, c: Commit)
    requires CommitsBacked(commits, canon, acks, ids) && CommitBacked(c, canon, acks, ids)
    ensures CommitsBacked(commits + {c}, canon, acks, ids)
  {
  }

  lemma ReplyMoves(nd: Node, peer: NodeId, req: AppendRequest, resp: AppendResponse)
    ensures var nd' := HandleAppendReply(nd, peer, req, resp);
            if Counts(nd, req, resp)
            then nd' == UpdateCommitIndex(Recorded(nd, peer, LastShipped(req)))
            else Idle(nd, nd')
  {
  }

  lemma CommitScanned(nd: Node)
    ensures var nd' := UpdateCommitIndex(nd);
            || nd' == nd
            || (&& nd.commitIndex < nd'.commitIndex < |nd.log| && Committable(nd, nd'.commitIndex)
                && nd' == nd.(commitIndex := nd'.commitIndex,
                              applyQueue := Offer(nd.applyQueue, Pending(nd.log, nd.lastApplied, nd'.commitIndex))))
  {
  }

  /** A leader commits up to `index`: its whole prefix becomes part of the new commit. */
  lemma CommitMoves(nd: Node, nd': Node, index: nat, h: History, c: Commit)
    requires index < |nd.log| && LogOk(nd.log) && c in h.commits && CommitsCarried(h.commits, h.canon)
    requires c.term == nd.currentTerm && c.index == index && c.term in h.canon && h.canon[c.term] == nd.log
    requires nd' == nd.(commitIndex := index,
                        applyQueue := Offer(nd.applyQueue, Pending(nd.log, nd.lastApplied, index)))
    requires CountsBacked(nd, h.acks)
    ensures MoverBacked(nd, nd', h)
  {
    assert BackedBy(nd.log[..index + 1], c, nd.currentTerm, h.canon);
    PendingBacked(nd.log, nd.lastApplied, index, nd.currentTerm, h.commits, h.canon);
    forall e | e in nd'.applyQueue
      ensures e in nd.applyQueue || EntryBacked(e, h.commits, h.canon)
    {
      OfferFrom(nd.applyQueue, Pending(nd.log, nd.lastApplied, index), e);
    }
  }

  /** The state after a leader counted a reply. */
  ghost predicate Counted(s: Cluster, s': Cluster, n: NodeId, nd1: Node) {
    && n in s.nodes && s'.nodes == s.nodes[n := UpdateCommitIndex(nd1)] && s'.net == s.net
    && nd1 == s.nodes[n].(nextIndex := nd1.nextIndex, matchIndex := nd1.matchIndex)
    && s'.hist.canon == s.hist.canon && s'.hist.acks == s.hist.acks && s'.hist.reigns == s.hist.reigns
    && s'.hist.grants == s.hist.grants
    && s'.hist.queued == s.hist.queued + On(n, s'.nodes[n].applyQueue)
    && s'.hist.commits ==
       (if s'.nodes[n].commitIndex == nd1.commitIndex then s.hist.commits
        else s.hist.commits + {Commit(nd1.currentTerm, s'.nodes[n].commitIndex,
                                      {n} + Holders(nd1.matchIndex, s'.nodes[n].commitIndex))})
  }

  lemma ReplyIsCounted(s: Cluster, r: AppendReply)
    requires r.req.leader in s.nodes && Counts(s.nodes[r.req.leader], r.req, r.resp)
    ensures Counted(s, NextAppendReply(s, r), r.req.leader,
                    Recorded(s.nodes[r.req.leader], r.from, LastShipped(r.req)))
  {
    ReplyMoves(s.nodes[r.req.leader], r.from, r.req, r.resp);
    CommitScanned(Recorded(s.nodes[r.req.leader], r.from, LastShipped(r.req)));
  }

  lemma CountedKeepsCommits(s: Cluster, s': Cluster, ids: set<NodeId>, n: NodeId, nd1: Node)
    requires Counted(s, s', n, nd1) && nd1.role == Leader && CountsBacked(nd1, s.hist.acks)
    requires nd1.id == n && n in ids && nd1.peers == ids - {n}
    requires nd1.currentTerm in s.hist.canon && s.hist.canon[nd1.currentTerm] == nd1.log && LogOk(nd1.log)
    requires ReignsElected(s.nodes, s.hist.grants, s.hist.reigns, ids)
    requires LogsOfReigns(s.hist.reigns, s.hist.canon) && StartsHold(s.hist.canon, s.hist.reigns, s.hist.acks)
    requires CommitInv(s, ids)
    ensures CommitInv(s', ids)
  {
    assert NodeBacked(s.nodes[n], s.hist.commits, s.hist.canon);
    CountedIsMove(s, s', n, nd1);
    CountedMoves(s, s', ids, n, nd1);
    MoveKeepsCommits(s, s', ids, n);
  }

  lemma CountedIsMove(s: Cluster, s': Cluster, n: NodeId, nd1: Node)
    requires Counted(s, s', n, nd1)
    ensures CommitMove(s, s', n)
  {
  }

  lemma CountedMoves(s: Cluster, s': Cluster, ids: set<NodeId>, n: NodeId, nd1: Node)
    requires Counted(s, s', n, nd1) && nd1.role == Leader && CountsBacked(nd1, s.hist.acks)
    requires nd1.id == n && n in ids && nd1.peers == ids - {n}
    requires nd1.currentTerm in s.hist.canon && s.hist.canon[nd1.currentTerm] == nd1.log && LogOk(nd1.log)
    requires ReignsElected(s.nodes, s.hist.grants, s.hist.reigns, ids)
    requires LogsOfReigns(s.hist.reigns, s.hist.canon) && StartsHold(s.hist.canon, s.hist.reigns, s.hist.acks)
    requires NodeBacked(s.nodes[n], s.hist.commits, s.hist.canon)
    requires CommitsBacked(s.hist.commits, s.hist.canon, s.hist.acks, ids)
    ensures MoverBacked(s.nodes[n], s'.nodes[n], s'.hist)
    ensures CommitsBacked(s'.hist.commits, s'.hist.canon, s'.hist.acks, ids)
  {
    CommitScanned(nd1);
    var k := s'.nodes[n].commitIndex;
    if k != nd1.commitIndex {
      var c := Commit(nd1.currentTerm, k, {n} + Holders(nd1.matchIndex, k));
      CommittableBacked(nd1, k, s.hist.canon, s.hist.acks, ids);
      NewCommitMoves(s, ids, nd1, s'.nodes[n], k, s'.hist, c);
    }
  }

  lemma NewCommitMoves(s: Cluster, ids: set<NodeId>, nd1: Node, nd': Node, k: nat, h': History, c: Commit)
    requires CommitsBacked(s.hist.commits, s.hist.canon, s.hist.acks, ids)
    requires CommitBacked(c, s.hist.canon, s.hist.acks, ids)
    requires ReignsElected(s.nodes, s.hist.grants, s.hist.reigns, ids)
    requires LogsOfReigns(s.hist.reigns, s.hist.canon) && StartsHold(s.hist.canon, s.hist.reigns, s.hist.acks)
    requires k < |nd1.log| && LogOk(nd1.log) && CountsBacked(nd1, s.hist.acks)
    requires c.term == nd1.currentTerm && c.index == k && c.term in s.hist.canon && s.hist.canon[c.term] == nd1.log
    requires nd' == nd1.(commitIndex := k, applyQueue := Offer(nd1.applyQueue, Pending(nd1.log, nd1.lastApplied, k)))
    requires h'.canon == s.hist.canon && h'.acks == s.hist.acks && h'.commits == s.hist.commits + {c}
    ensures MoverBacked(nd1, nd', h') && CommitsBacked(h'.commits, h'.canon, h'.acks, ids)
  {
    CommitAdded(s.hist.commits, s.hist.canon, s.hist.acks, ids, c);
    CarryAll(s.nodes, s.hist.grants, s.hist.reigns, s.hist.canon, s.hist.acks, h'.commits, ids);
    CommitMoves(nd1, nd', k, h', c);
  }

  lemma LeaderFacts(s: Cluster, ids: set<NodeId>, n: NodeId)
    requires ElectionInv(s, ids) && LogInv(s, ids) && CommitInv(s, ids) && n in s.nodes
    ensures s.nodes[n].id == n && s.nodes[n].peers == ids - {n}
    ensures CountsBacked(s.nodes[n], s.hist.acks) && LogOk(s.nodes[n].log)
  {
    assert NodeFits(s.nodes[n], s.hist.canon);
  }

  /** The log of a leader is that of its reign. */
  lemma LeaderReign(s: Cluster, ids: set<NodeId>, nd: Node)
    requires ElectionInv(s, ids) && LogInv(s, ids) && nd.id in s.nodes && nd == s.nodes[nd.id] && nd.role == Leader
    ensures nd.currentTerm in s.hist.reigns && ReignLog(nd.currentTerm, s.hist.reigns[nd.currentTerm], nd.log)
    ensures TermsUpTo(nd.log, nd.currentTerm)
  {
    LeaderLog(s, ids, nd.id);
    var t := nd.currentTerm;
    assert ReignFits(t, s.hist.reigns[t], s.hist.canon[t], s.hist.canon);
  }

  lemma LeaderCounts(s: Cluster, ids: set<NodeId>, r: AppendReply, nd: Node)
    requires r in s.net.appendReplies && r.req.leader in s.nodes && r.resp.success && |r.req.entries| > 0
    requires nd == s.nodes[r.req.leader] && nd.id == r.req.leader && nd.role == Leader
    requires ElectionInv(s, ids) && LogInv(s, ids) && CommitInv(s, ids)
    ensures r.from in ids && r.from != nd.id
    ensures CountedFor(nd, r.from, LastShipped(r.req), s.hist.acks) <==>
            MayCount(nd, r.req) || Acked(s.hist.acks, r.from, nd.currentTerm, LastShipped(r.req))
  {
    ReplyReports(s, ids, r);
    LeaderReign(s, ids, nd);
    CountedForIff(nd, s.hist.reigns[nd.currentTerm], r.req, r.from, s.hist.acks);
  }

  lemma LeaderRecords(s: Cluster, ids: set<NodeId>, r: AppendReply, nd: Node, last: nat)
    requires r in s.net.appendReplies && r.req.leader in s.nodes && r.resp.success && |r.req.entries| > 0
    requires nd == s.nodes[r.req.leader] && nd.id == r.req.leader && nd.role == Leader && MayCount(nd, r.req)
    requires last == LastShipped(r.req) && nd.peers == ids - {nd.id}
    requires ElectionInv(s, ids) && LogInv(s, ids) && CommitInv(s, ids)
    ensures r.from in nd.peers && CountedFor(nd, r.from, last, s.hist.acks)
  {
    LeaderCounts(s, ids, r, nd);
  }

  lemma LeaderReplyKeepsCommits(s: Cluster, ids: set<NodeId>, r: AppendReply, nd: Node, last: nat)
    requires r in s.net.appendReplies && r.req.leader in s.nodes && Counts(s.nodes[r.req.leader], r.req, r.resp)
    requires nd == s.nodes[r.req.leader] && nd.role == Leader && MayCount(nd, r.req) && last == LastShipped(r.req)
    requires ElectionInv(s, ids) && LogInv(s, ids) && AckInv(s) && CommitInv(s, ids)
    ensures CommitInv(NextAppendReply(s, r), ids)
  {
    LeaderFacts(s, ids, r.req.leader);
    LeaderLog(s, ids, r.req.leader);
    LeaderRecords(s, ids, r, nd, last);
    RecordBacked(nd, r.from, last, s.hist.acks);
    ReplyIsCounted(s, r);
    CountedKeepsCommits(s, NextAppendReply(s, r), ids, r.req.leader, Recorded(nd, r.from, last));
  }

  // ---- nodes that do not lead count too ----

  /** A log without an entry of the node's term beyond its commit index leaves nothing to commit by counting. */
  lemma NothingToCommit(nd: Node, canon: Canon, reigns: Reigns)
    requires Fits(nd.log, canon, nd.currentTerm) && LogsOfReigns(reigns, canon)
    requires LastTerm(nd.log) < nd.currentTerm || LastIndex(nd.log) <= nd.commitIndex
    ensures UpdateCommitIndex(nd) == nd
  {
    CommitScanned(nd);
    var k := UpdateCommitIndex(nd).commitIndex;
    if k != nd.commitIndex {
      Rising(nd.log, canon, reigns, nd.currentTerm, k);
    }
  }

  lemma EveryoneHolds(nd: Node, m: map<NodeId, nat>, index: nat)
    requires m == Fill(nd.peers, index)
    ensures Holders(m, index) == nd.peers
  {
  }

  /** If its log does end beyond the commit index in its own term, some match indices would commit it. */
  lemma SomethingToCommit(nd: Node) returns (m: map<NodeId, nat>)
    requires LastTerm(nd.log) == nd.currentTerm && LastIndex(nd.log) > nd.commitIndex
    ensures m.Keys <= nd.peers && UpdateCommitIndex(nd.(matchIndex := m)).commitIndex > nd.commitIndex
  {
    m := Fill(nd.peers, LastIndex(nd.log));
    EveryoneHolds(nd, m, LastIndex(nd.log));
    assert Committable(nd.(matchIndex := m), LastIndex(nd.log));
  }

  /** A node that does not lead moves only its progress records when it counts a reply it may count. */
  lemma FollowerCounts(nd: Node, peer: NodeId, last: nat, h: History)
    requires nd.role != Leader && NodeBacked(nd, h.commits, h.canon) && CountsBacked(nd, h.acks) && peer in nd.peers
    ensures MoverBacked(nd, Recorded(nd, peer, last), h)
  {
  }

  lemma FollowerLog(s: Cluster, ids: set<NodeId>, n: NodeId)
    requires LogInv(s, ids) && CommitInv(s, ids) && n in s.nodes
    ensures Fits(s.nodes[n].log, s.hist.canon, s.nodes[n].currentTerm) && LogsOfReigns(s.hist.reigns, s.hist.canon)
    ensures NodeBacked(s.nodes[n], s.hist.commits, s.hist.canon)
  {
    assert NodeFits(s.nodes[n], s.hist.canon);
  }

  lemma RecordedKeepsCommits(s: Cluster, s': Cluster, ids: set<NodeId>, n: NodeId, nd1: Node)
    requires n in s.nodes && s'.nodes == s.nodes[n := nd1] && MoverBacked(s.nodes[n], nd1, s.hist)
    requires s'.net == s.net && s'.hist == s.hist.(queued := s.hist.queued + On(n, nd1.applyQueue))
    requires CommitInv(s, ids)
    ensures CommitInv(s', ids)
  {
    MoveKeepsCommits(s, s', ids, n);
  }

  lemma FollowerMoves(s: Cluster, ids: set<NodeId>, r: AppendReply, nd: Node, last: nat)
    requires r.req.leader in s.nodes && nd == s.nodes[r.req.leader] && nd.role != Leader
    requires r.from in ids && r.from != r.req.leader
    requires ElectionInv(s, ids) && LogInv(s, ids) && CommitInv(s, ids)
    ensures MoverBacked(nd, Recorded(nd, r.from, last), s.hist)
  {
    LeaderFacts(s, ids, r.req.leader);
    FollowerLog(s, ids, r.req.leader);
    FollowerCounts(nd, r.from, last, s.hist);
  }

  lemma FollowerStays(s: Cluster, ids: set<NodeId>, r: AppendReply, nd: Node, nd1: Node)
    requires r.req.leader in s.nodes && nd == s.nodes[r.req.leader] && Counts(nd, r.req, r.resp)
    requires nd.role != Leader && MayCount(nd, r.req) && nd1 == Recorded(nd, r.from, LastShipped(r.req))
    requires LogInv(s, ids) && CommitInv(s, ids)
    ensures HandleAppendReply(nd, r.from, r.req, r.resp) == nd1
  {
    ReplyMoves(nd, r.from, r.req, r.resp);
    FollowerLog(s, ids, r.req.leader);
    NothingToCommit(nd1, s.hist.canon, s.hist.reigns);
  }

  lemma FollowerReplyKeepsCommits(s: Cluster, ids: set<NodeId>, r: AppendReply, nd: Node)
    requires r in s.net.appendReplies && r.req.leader in s.nodes && Counts(s.nodes[r.req.leader], r.req, r.resp)
    requires nd == s.nodes[r.req.leader] && nd.role != Leader && MayCount(nd, r.req)
    requires ElectionInv(s, ids) && LogInv(s, ids) && AckInv(s) && CommitInv(s, ids)
    ensures CommitInv(NextAppendReply(s, r), ids)
  {
    var nd1 := Recorded(nd, r.from, LastShipped(r.req));
    ReplyReports(s, ids, r);
    FollowerStays(s, ids, r, nd, nd1);
    FollowerMoves(s, ids, r, nd, LastShipped(r.req));
    RecordedKeepsCommits(s, NextAppendReply(s, r), ids, r.req.leader, nd1);
  }

  lemma AppendReplyKeepsCommits(s: Cluster, ids: set<NodeId>, r: AppendReply)
    requires r in s.net.appendReplies && r.req.leader in s.nodes && Guarded(s, DeliverAppendReply(r))
    requires ElectionInv(s, ids) && LogInv(s, ids) && AckInv(s) && CommitInv(s, ids)
    ensures CommitInv(NextAppendReply(s, r), ids)
  {
    if !Counts(s.nodes[r.req.leader], r.req, r.resp) {
      ReplyMoves(s.nodes[r.req.leader], r.from, r.req, r.resp);
      IdleKeeps(s, NextAppendReply(s, r), ids, r.req.leader);
    } else if s.nodes[r.req.leader].role == Leader {
      LeaderReplyKeepsCommits(s, ids, r, s.nodes[r.req.leader], LastShipped(r.req));
    } else {
      FollowerReplyKeepsCommits(s, ids, r, s.nodes[r.req.leader]);
    }
  }

  // ---- the guard is exact ----

  /**
   For a leader, in every state these invariants allow: after the handler it
   counts the sender for no own-term index, present or yet to be proposed, that
   the sender has not acknowledged in this term, exactly when it may count the
   reply or the sender has acknowledged that much again.
   */
  lemma LeaderGuardIsExact(s: Cluster, ids: set<NodeId>, r: AppendReply)
    requires ElectionInv(s, ids) && LogInv(s, ids) && AckInv(s) && CommitInv(s, ids)
    requires r in s.net.appendReplies && r.req.leader in s.nodes && s.nodes[r.req.leader].role == Leader
    requires Counts(s.nodes[r.req.leader], r.req, r.resp)
    ensures var nd, acks := s.nodes[r.req.leader], s.hist.acks;
            var nd' := HandleAppendReply(nd, r.from, r.req, r.resp);
            && r.from in nd'.matchIndex
            && (CountedFor(nd', r.from, nd'.matchIndex[r.from], acks) <==>
                  MayCount(nd, r.req) || Acked(acks, r.from, nd.currentTerm, LastShipped(r.req)))
  {
    var nd := s.nodes[r.req.leader];
    LeaderFacts(s, ids, r.req.leader);
    LeaderCounts(s, ids, r, nd);
    ReplyMoves(nd, r.from, r.req, r.resp);
    CommitScanned(Recorded(nd, r.from, LastShipped(r.req)));
    SameCounts(nd, HandleAppendReply(nd, r.from, r.req, r.resp), r.from, LastShipped(r.req), s.hist.acks);
  }

  lemma SameCounts(a: Node, b: Node, p: NodeId, m: nat, acks: Acks)
    requires b.log == a.log && b.currentTerm == a.currentTerm
    ensures CountedFor(b, p, m, acks) <==> CountedFor(a, p, m, acks)
  {
    assert forall k: nat :: OwnSoon(b, k) <==> OwnSoon(a, k);
  }

  /** For any other node: no match indices whatever would make counting commit anything, exactly when it may count. */
  lemma FollowerGuardIsExact(s: Cluster, ids: set<NodeId>, n: NodeId, req: AppendRequest)
    requires LogInv(s, ids) && CommitInv(s, ids) && n in s.nodes && s.nodes[n].role != Leader && |req.entries| > 0
    ensures MayCount(s.nodes[n], req) <==>
            forall m: map<NodeId, nat> :: m.Keys <= s.nodes[n].peers ==>
              UpdateCommitIndex(s.nodes[n].(matchIndex := m)).commitIndex == s.nodes[n].commitIndex
  {
    var nd := s.nodes[n];
    FollowerLog(s, ids, n);
    if MayCount(nd, req) {
      forall m: map<NodeId, nat>
        ensures UpdateCommitIndex(nd.(matchIndex := m)).commitIndex == nd.commitIndex
      {
        NothingToCommit(nd.(matchIndex := m), s.hist.canon, s.hist.reigns);
      }
    } else {
      var m := SomethingToCommit(nd);
    }
  }

  lemma TimelyIsGuarded(s: Cluster, step: Step)
    requires Timely(s, step)
    ensures Guarded(s, step)
  {
  }

  lemma InitCommits(ids: set<NodeId>)
    ensures CommitInv(Init(ids), ids)
  {
  }

  lemma StepKeepsCommits(s: Cluster, ids: set<NodeId>, step: Step)
    requires Enabled(s, step) && Guarded(s, step)
    requires ElectionInv(s, ids) && LogInv(s, ids) && AckInv(s) && CommitInv(s, ids)
    ensures CommitInv(Next(s, step), ids)
  {
    if step.Timeout? || step.DeliverVoteRequest? || step.DeliverVoteReply? || step.CloseElection? {
      ElectionStepKeepsCommits(s, ids, step);
    } else {
      LogStepKeepsCommits(s, ids, step);
    }
  }

  lemma ElectionStepKeepsCommits(s: Cluster, ids: set<NodeId>, step: Step)
    requires step.Timeout? || step.DeliverVoteRequest? || step.DeliverVoteReply? || step.CloseElection?
    requires Enabled(s, step)
    requires ElectionInv(s, ids) && LogInv(s, ids) && AckInv(s) && CommitInv(s, ids)
    ensures CommitInv(Next(s, step), ids)
  {
    match step
    case Timeout(n) => TimeoutKeepsCommits(s, ids, n);
    case DeliverVoteRequest(n, req) => VoteRequestKeepsCommits(s, ids, n, req);
    case DeliverVoteReply(r) => VoteReplyKeepsCommits(s, ids, r);
    case CloseElection(n, t) => CloseKeepsCommits(s, ids, n, t);
  }

  lemma LogStepKeepsCommits(s: Cluster, ids: set<NodeId>, step: Step)
    requires step.Submit? || step.Heartbeat? || step.DeliverAppend? || step.DeliverAppendReply? || step.ApplyNext?
    requires Enabled(s, step) && Guarded(s, step)
    requires ElectionInv(s, ids) && LogInv(s, ids) && AckInv(s) && CommitInv(s, ids)
    ensures CommitInv(Next(s, step), ids)
  {
    match step
    case Submit(n, cmd) => SubmitKeepsCommits(s, ids, n, cmd);
    case Heartbeat(n, p, commit) => HeartbeatKeepsCommits(s, ids, n, p, commit);
    case DeliverAppend(m) => AppendKeepsCommits(s, ids, m);
    case DeliverAppendReply(r) => AppendReplyKeepsCommits(s, ids, r);
    case ApplyNext(n) => ApplyKeepsCommits(s, ids, n);
  }

  // ---- what no step undoes ----

  lemma AppendGrows(s: Cluster, m: AppendMsg)
    requires m.to in s.nodes
    ensures HistoryGrows(s.hist, NextAppend(s, m).hist)
  {
  }

  lemma CrownedGrows(s: Cluster, s': Cluster, n: NodeId, t: nat)
    requires Crowned(s, s', n, t) && AcksFit(s.nodes, s.hist.canon, s.hist.acks)
    ensures HistoryGrows(s.hist, s'.hist)
  {
    FirstAck(s.nodes, s.hist.canon, s.hist.acks, n, t, LastIndex(s.nodes[n].log));
  }

  lemma ExtendedGrows(s: Cluster, s': Cluster, n: NodeId, u: nat, e: Entry)
    requires Extended(s, s', n, u, e) && AcksFit(s.nodes, s.hist.canon, s.hist.acks)
    ensures HistoryGrows(s.hist, s'.hist)
  {
    assert (n, u) in s.hist.acks ==> s.hist.acks[(n, u)] < |s.hist.canon[(n, u).1]|;
  }

  lemma CloseGrows(s: Cluster, ids: set<NodeId>, n: NodeId, t: nat)
    requires ElectionInv(s, ids) && LogInv(s, ids) && AckInv(s) && n in s.nodes && (n, t) in s.rounds
    ensures HistoryGrows(s.hist, NextClose(s, n, t).hist)
  {
    if WinsElection(s.nodes[n], t, 1 + |s.rounds[(n, t)]|) {
      WonByMajority(s, ids, n, t);
      CrownedGrows(s, NextClose(s, n, t), n, t);
    } else {
      HistoryStays(s.hist, NextClose(s, n, t).hist);
    }
  }

  lemma SubmitGrows(s: Cluster, ids: set<NodeId>, n: NodeId, cmd: Command)
    requires ElectionInv(s, ids) && LogInv(s, ids) && AckInv(s) && n in s.nodes
    ensures HistoryGrows(s.hist, NextSubmit(s, n, cmd).hist)
  {
    if s.nodes[n].role == Leader {
      LeaderLog(s, ids, n);
      SubmitExtends(s, n, cmd);
      ExtendedGrows(s, NextSubmit(s, n, cmd), n, s.nodes[n].currentTerm,
                    Entry(|s.nodes[n].log|, s.nodes[n].currentTerm, Some(cmd)));
    } else {
      HistoryStays(s.hist, NextSubmit(s, n, cmd).hist);
    }
  }

  lemma HistoryStays(h: History, h': History)
    requires h'.canon == h.canon && h'.acks == h.acks && h'.reigns == h.reigns
    requires h.commits <= h'.commits && h.queued <= h'.queued
    ensures HistoryGrows(h, h')
  {
  }

  lemma OtherGrows(s: Cluster, step: Step)
    requires Enabled(s, step) && !step.CloseElection? && !step.Submit? && !step.DeliverAppend?
    ensures HistoryGrows(s.hist, Next(s, step).hist)
  {
    HistoryStays(s.hist, Next(s, step).hist);
  }

  /** Leader logs, acknowledgements, reigns, commits and queued entries are never lost. */
  lemma StepGrows(s: Cluster, ids: set<NodeId>, step: Step)
    requires Enabled(s, step)
    requires ElectionInv(s, ids) && LogInv(s, ids) && AckInv(s)
    ensures HistoryGrows(s.hist, Next(s, step).hist)
  {
    if step.CloseElection? {
      CloseGrows(s, ids, step.node, step.term);
    } else if step.Submit? {
      SubmitGrows(s, ids, step.node, step.cmd);
    } else if step.DeliverAppend? {
      AppendGrows(s, step.msg);
    } else {
      OtherGrows(s, step);
    }
  }

  /** The commit index does not fall and what it covers stays in the log. */
  ghost predicate CommittedStays(a: Node, b: Node) {
    a.commitIndex <= b.commitIndex < |b.log| && a.commitIndex < |a.log| && a.log[..a.commitIndex + 1] <= b.log
  }

  lemma IdleStays(a: Node, b: Node)
    requires Idle(a, b) && a.commitIndex < |a.log|
    ensures CommittedStays(a, b)
  {
  }

  lemma AppendStays(s: Cluster, ids: set<NodeId>, m: AppendMsg)
    requires m in s.net.appends && m.to in s.nodes
    requires ElectionInv(s, ids) && LogInv(s, ids) && AckInv(s) && CommitInv(s, ids)
    ensures CommittedStays(s.nodes[m.to], HandleAppendEntries(s.nodes[m.to], m.req).0)
  {
    var nd := s.nodes[m.to];
    var (nd', resp) := HandleAppendEntries(nd, m.req);
    AppendHasAcceptShape(nd, m.req);
    assert NodeBacked(nd, s.hist.commits, s.hist.canon);
    if resp.success {
      AcceptStays(s, ids, m, nd', resp);
    } else {
      IdleStays(nd, nd');
    }
  }

  lemma AcceptStays(s: Cluster, ids: set<NodeId>, m: AppendMsg, nd': Node, resp: AppendResponse)
    requires m in s.net.appends && m.to in s.nodes
    requires (nd', resp) == HandleAppendEntries(s.nodes[m.to], m.req) && resp.success
    requires ElectionInv(s, ids) && LogInv(s, ids) && AckInv(s) && CommitInv(s, ids)
    ensures CommittedStays(s.nodes[m.to], nd')
  {
    RequestOfNetwork(s, ids, m);
    AllCommitsCarried(s, ids);
    MemberBacked(s, ids, m);
    AcceptedStays(s.nodes[m.to], m.req, s.hist.reigns, s.hist.commits, s.hist.canon);
  }

  lemma MemberBacked(s: Cluster, ids: set<NodeId>, m: AppendMsg)
    requires m in s.net.appends && m.to in s.nodes && CommitInv(s, ids)
    ensures NodeBacked(s.nodes[m.to], s.hist.commits, s.hist.canon)
    ensures RequestBacked(m.req, s.hist.commits, s.hist.canon)
  {
  }

  lemma AcceptedStays(nd: Node, req: AppendRequest, reigns: Reigns, commits: Commits, canon: Canon)
    requires NodeBacked(nd, commits, canon) && RequestBacked(req, commits, canon) && CommitsCarried(commits, canon)
    requires NodeFits(nd, canon) && RequestFits(req, canon) && req.term in reigns
    requires ReignFits(req.term, reigns[req.term], canon[req.term], canon)
    requires HandleAppendEntries(nd, req).1.success
    ensures CommittedStays(nd, HandleAppendEntries(nd, req).0)
  {
    var (nd', resp) := HandleAppendEntries(nd, req);
    AppendHasShape(nd, req);
    AppendHasAcceptShape(nd, req);
    AppendOutcome(nd, req, nd', resp, canon);
    AcceptBacked(nd, req, nd', commits, canon);
  }

  lemma ReplyStays(nd: Node, peer: NodeId, req: AppendRequest, resp: AppendResponse)
    requires nd.commitIndex < |nd.log|
    ensures CommittedStays(nd, HandleAppendReply(nd, peer, req, resp))
  {
    ReplyMoves(nd, peer, req, resp);
    if Counts(nd, req, resp) {
      CommitScanned(Recorded(nd, peer, req.entries[|req.entries| - 1].index));
    }
  }

  lemma HandlerStays(nd: Node)
    requires nd.commitIndex < |nd.log|
    ensures CommittedStays(nd, nd) && CommittedStays(nd, BeginElection(nd).0) && CommittedStays(nd, BecomeLeader(nd))
    ensures CommittedStays(nd, ApplyTurn(nd))
    ensures forall req :: CommittedStays(nd, HandleRequestVote(nd, req).0)
    ensures forall resp :: CommittedStays(nd, HandleVoteReply(nd, resp).0)
    ensures forall cmd :: CommittedStays(nd, Propose(nd, cmd).0)
  {
  }

  lemma OtherStays(s: Cluster, step: Step, n: NodeId)
    requires Enabled(s, step) && n in s.nodes && s.nodes[n].commitIndex < |s.nodes[n].log|
    requires !step.DeliverAppend? || step.msg.to != n
    ensures n in Next(s, step).nodes && CommittedStays(s.nodes[n], Next(s, step).nodes[n])
  {
    if n == Mover(step) {
      MoverStays(s, step);
    } else {
      OthersRest(s, step, n);
    }
  }

  /** The node that a step moves. */
  function Mover(step: Step): NodeId {
    match step
    case DeliverVoteReply(r) => r.req.candidate
    case DeliverAppend(m) => m.to
    case DeliverAppendReply(r) => r.req.leader
    case _ => step.node
  }

  lemma OthersRest(s: Cluster, step: Step, n: NodeId)
    requires Enabled(s, step) && n in s.nodes && n != Mover(step)
    ensures n in Next(s, step).nodes && Next(s, step).nodes[n] == s.nodes[n]
  {
  }

  lemma MoverStays(s: Cluster, step: Step)
    requires Enabled(s, step) && !step.DeliverAppend?
    requires s.nodes[Mover(step)].commitIndex < |s.nodes[Mover(step)].log|
    ensures Mover(step) in Next(s, step).nodes
    ensures CommittedStays(s.nodes[Mover(step)], Next(s, step).nodes[Mover(step)])
  {
    if step.DeliverAppendReply? {
      var r := step.appendReply;
      ReplyStays(s.nodes[r.req.leader], r.from, r.req, r.resp);
    } else {
      HandlerStays(s.nodes[Mover(step)]);
    }
  }

  /** No step lowers a commit index or removes what it covers. */
  lemma StepKeepsCommitted(s: Cluster, ids: set<NodeId>, step: Step, n: NodeId)
    requires Enabled(s, step) && n in s.nodes
    requires ElectionInv(s, ids) && LogInv(s, ids) && AckInv(s) && CommitInv(s, ids)
    ensures n in Next(s, step).nodes && CommittedStays(s.nodes[n], Next(s, step).nodes[n])
  {
    if step.DeliverAppend? && step.msg.to == n {
      AppendStays(s, ids, step.msg);
    } else {
      assert NodeBacked(s.nodes[n], s.hist.commits, s.hist.canon);
      OtherStays(s, step, n);
    }
  }
}
