/**
 Leader completeness, before any commit is decided. An entry that the leader of
 term T wrote in its own term is either part of what every later leader started
 with, or it is blocked: some later leader was elected by a majority none of
 which had acknowledged it, so it can never be acknowledged by a majority.
 */
module RaftAcks {
  import opened Common
  import opened RaftTypes
  import opened RaftNode
  import opened RaftCluster
  import opened RaftElection
  import opened RaftLog

  type Acks = map<(NodeId, nat), nat>

  ghost predicate Acked(acks: Acks, v: NodeId, t: nat, i: nat) {
    (v, t) in acks && acks[(v, t)] >= i
  }

  /** The majority that elected the leader of term w had not acknowledged index i of term t. */
  ghost predicate BlockedBy(reigns: Reigns, acks: Acks, w: nat, t: nat, i: nat) {
    w in reigns && w > t && forall v :: v in reigns[w].quorum ==> !Acked(acks, v, t, i)
  }

  ghost predicate Blocked(reigns: Reigns, acks: Acks, t: nat, i: nat) {
    exists w :: BlockedBy(reigns, acks, w, t, i)
  }

  /** Index i of the log of the leader of term t was written in term t. */
  ghost predicate Own(canon: Canon, t: nat, i: nat) {
    t in canon && 1 <= i < |canon[t]| && canon[t][i].term == t
  }

  ghost predicate Holds(log: Log, canon: Canon, reigns: Reigns, acks: Acks, t: nat, i: nat)
    requires Own(canon, t, i)
  {
    canon[t][..i + 1] <= log || Blocked(reigns, acks, t, i)
  }

  /** The log holds whatever v acknowledged in a term below `bound`, unless it is blocked. */
  ghost predicate HoldsAcked(log: Log, v: NodeId, bound: nat, canon: Canon, reigns: Reigns, acks: Acks) {
    forall t: nat, i: nat :: Own(canon, t, i) && t < bound && Acked(acks, v, t, i) ==>
      Holds(log, canon, reigns, acks, t, i)
  }

  /** An acknowledgement is about a reign's log, and its author has reached that term. */
  ghost predicate AcksFit(nodes: Nodes, canon: Canon, acks: Acks) {
    forall k :: k in acks ==>
      k.0 in nodes && k.1 in canon && acks[k] < |canon[k.1]| && k.1 <= nodes[k.0].currentTerm
  }

  ghost predicate NodesHold(nodes: Nodes, canon: Canon, reigns: Reigns, acks: Acks) {
    forall v :: v in nodes ==> HoldsAcked(nodes[v].log, v, nodes[v].currentTerm + 1, canon, reigns, acks)
  }

  ghost predicate GrantsHold(grants: Grants, canon: Canon, reigns: Reigns, acks: Acks) {
    forall k :: k in grants ==> HoldsAcked(grants[k].voterLog, k.0, k.1, canon, reigns, acks)
  }

  /** What a leader started with holds every own entry of every earlier leader that is not blocked. */
  ghost predicate StartHolds(u: nat, start: Log, canon: Canon, reigns: Reigns, acks: Acks) {
    forall t: nat, i: nat :: Own(canon, t, i) && t < u ==> Holds(start, canon, reigns, acks, t, i)
  }

  ghost predicate StartsHold(canon: Canon, reigns: Reigns, acks: Acks) {
    forall u :: u in reigns ==> StartHolds(u, reigns[u].initial, canon, reigns, acks)
  }

  ghost predicate AckInv(s: Cluster) {
    match s
    case Cluster(nodes, _, _, hist) =>
      && AcksFit(nodes, hist.canon, hist.acks)
      && NodesHold(nodes, hist.canon, hist.reigns, hist.acks)
      && GrantsHold(hist.grants, hist.canon, hist.reigns, hist.acks)
      && StartsHold(hist.canon, hist.reigns, hist.acks)
  }

  // ---- facts about logs ----

  /** Terms never fall along a log. */
  lemma Rising(log: Log, canon: Canon, reigns: Reigns, bound: nat, i: nat)
    requires Fits(log, canon, bound) && LogsOfReigns(reigns, canon) && i < |log|
    ensures log[i].term <= LastTerm(log)
  {
    if i >= 1 {
      var t := LastTerm(log);
      assert log[..|log| - 1 + 1] == log;
      assert ReignFits(t, reigns[t], canon[t], canon);
      assert log[i] == canon[t][i];
    }
  }

  /** A log that ends in term w contains all that the leader of term w started with. */
  lemma ContainsStart(log: Log, canon: Canon, reigns: Reigns, bound: nat)
    requires Fits(log, canon, bound) && LogsOfReigns(reigns, canon) && |log| > 1
    ensures LastTerm(log) in reigns && reigns[LastTerm(log)].initial <= log
  {
    var w := LastTerm(log);
    assert log[..|log| - 1 + 1] == log;
    assert ReignFits(w, reigns[w], canon[w], canon);
  }

  /** Of two logs that end in the same term, the shorter is a prefix of the longer. */
  lemma SameLastTerm(a: Log, b: Log, canon: Canon, bound: nat)
    requires Fits(a, canon, bound) && Fits(b, canon, bound) && LastTerm(a) == LastTerm(b) && 1 < |a| <= |b|
    ensures a <= b
  {
    assert a[..|a| - 1 + 1] == a && b[..|b| - 1 + 1] == b;
  }

  /**
   The up-to-date test at work: a candidate log that passes it against a voter
   log holding an own entry of term t holds that entry too, or it is blocked.
   */
  lemma VoteCarries(candidate: Log, voter: Log, canon: Canon, reigns: Reigns, acks: Acks, u: nat, t: nat, i: nat)
    requires Fits(candidate, canon, u) && Fits(voter, canon, u) && LogsOfReigns(reigns, canon) && u !in canon
    requires StartsHold(canon, reigns, acks) && Own(canon, t, i)
    requires UpToDate(LastTerm(candidate), LastIndex(candidate), voter)
    requires canon[t][..i + 1] <= voter
    ensures Holds(candidate, canon, reigns, acks, t, i)
  {
    assert voter[i].term == t >= 1;
    Rising(voter, canon, reigns, u, i);
    if LastTerm(candidate) == LastTerm(voter) {
      SameLastTerm(voter, candidate, canon, u);
    } else {
      var w := LastTerm(candidate);
      ContainsStart(candidate, canon, reigns, u);
      assert StartHolds(w, reigns[w].initial, canon, reigns, acks);
    }
  }

  // ---- history grows ----

  /** Acknowledgements of a term are final for the nodes that elected a later leader. */
  ghost predicate Frozen(reigns: Reigns, acks: Acks, acks': Acks) {
    forall w, v, t :: w in reigns && v in reigns[w].quorum && t < w && (v, t) in acks' ==>
      (v, t) in acks && acks'[(v, t)] == acks[(v, t)]
  }

  ghost predicate Kept(reigns: Reigns, reigns': Reigns) {
    forall t :: t in reigns ==> t in reigns' && reigns'[t] == reigns[t]
  }

  lemma BlockedStands(reigns: Reigns, reigns': Reigns, acks: Acks, acks': Acks, t: nat, i: nat)
    requires Blocked(reigns, acks, t, i) && Kept(reigns, reigns') && Frozen(reigns, acks, acks')
    ensures Blocked(reigns', acks', t, i)
  {
    var w :| BlockedBy(reigns, acks, w, t, i);
    forall v | v in reigns[w].quorum
      ensures !Acked(acks', v, t, i)
    {
      assert !Acked(acks, v, t, i);
    }
    assert BlockedBy(reigns', acks', w, t, i);
  }

  /** Nothing about older own entries changes: the same ones exist, acknowledged by v below the bound as before. */
  ghost predicate SameBelow(canon: Canon, canon': Canon, acks: Acks, acks': Acks, v: NodeId, bound: nat) {
    forall t: nat, i: nat :: Own(canon', t, i) && t < bound && Acked(acks', v, t, i) ==>
      Own(canon, t, i) && Acked(acks, v, t, i) && canon'[t][..i + 1] == canon[t][..i + 1]
  }

  lemma HoldsAckedStands(log: Log, v: NodeId, bound: nat, canon: Canon, canon': Canon, reigns: Reigns, reigns': Reigns,
                         acks: Acks, acks': Acks)
    requires HoldsAcked(log, v, bound, canon, reigns, acks)
    requires SameBelow(canon, canon', acks, acks', v, bound)
    requires Kept(reigns, reigns') && Frozen(reigns, acks, acks')
    ensures HoldsAcked(log, v, bound, canon', reigns', acks')
  {
    forall t: nat, i: nat | Own(canon', t, i) && t < bound && Acked(acks', v, t, i)
      ensures Holds(log, canon', reigns', acks', t, i)
    {
      assert Holds(log, canon, reigns, acks, t, i);
      if Blocked(reigns, acks, t, i) {
        BlockedStands(reigns, reigns', acks, acks', t, i);
      }
    }
  }

  lemma GrantsHoldStands(grants: Grants, canon: Canon, canon': Canon, reigns: Reigns, reigns': Reigns,
                         acks: Acks, acks': Acks)
    requires GrantsHold(grants, canon, reigns, acks)
    requires forall k :: k in grants ==> SameBelow(canon, canon', acks, acks', k.0, k.1)
    requires Kept(reigns, reigns') && Frozen(reigns, acks, acks')
    ensures GrantsHold(grants, canon', reigns', acks')
  {
    forall k | k in grants
      ensures HoldsAcked(grants[k].voterLog, k.0, k.1, canon', reigns', acks')
    {
      HoldsAckedStands(grants[k].voterLog, k.0, k.1, canon, canon', reigns, reigns', acks, acks');
    }
  }

  /** Every log but that of node n still holds what its owner acknowledged. */
  lemma NodesHoldStands(nodes: Nodes, canon: Canon, canon': Canon, reigns: Reigns, reigns': Reigns,
                        acks: Acks, acks': Acks, n: NodeId, nd: Node)
    requires NodesHold(nodes, canon, reigns, acks)
    requires forall v :: v in nodes && v != n ==> SameBelow(canon, canon', acks, acks', v, nodes[v].currentTerm + 1)
    requires Kept(reigns, reigns') && Frozen(reigns, acks, acks')
    requires HoldsAcked(nd.log, n, nd.currentTerm + 1, canon', reigns', acks')
    ensures NodesHold(nodes[n := nd], canon', reigns', acks')
  {
    forall v | v in nodes && v != n
      ensures HoldsAcked(nodes[v].log, v, nodes[v].currentTerm + 1, canon', reigns', acks')
    {
      HoldsAckedStands(nodes[v].log, v, nodes[v].currentTerm + 1, canon, canon', reigns, reigns', acks, acks');
    }
  }

  // ---- steps that leave logs alone ----

  /** One node's log stays, its term does not fall; leader logs, reigns and acknowledgements stay. */
  ghost predicate LogStays(s: Cluster, s': Cluster, n: NodeId) {
    && n in s.nodes && n in s'.nodes && s'.nodes == s.nodes[n := s'.nodes[n]]
    && s'.nodes[n].log == s.nodes[n].log && s'.nodes[n].currentTerm >= s.nodes[n].currentTerm
    && s'.hist.canon == s.hist.canon && s'.hist.reigns == s.hist.reigns && s'.hist.acks == s.hist.acks
  }

  /** A node has acknowledged nothing in terms it has not reached. */
  lemma NoFutureAcks(nodes: Nodes, canon: Canon, reigns: Reigns, acks: Acks, n: NodeId, bound: nat)
    requires AcksFit(nodes, canon, acks) && n in nodes
    requires HoldsAcked(nodes[n].log, n, nodes[n].currentTerm + 1, canon, reigns, acks)
    ensures HoldsAcked(nodes[n].log, n, bound, canon, reigns, acks)
  {
    forall t: nat, i: nat | Own(canon, t, i) && t < bound && Acked(acks, n, t, i)
      ensures Holds(nodes[n].log, canon, reigns, acks, t, i)
    {
      assert (n, t) in acks && t <= nodes[n].currentTerm;
    }
  }

  lemma LogStaysKeeps(s: Cluster, s': Cluster, n: NodeId)
    requires AckInv(s) && LogStays(s, s', n) && s'.hist.grants == s.hist.grants
    ensures AckInv(s')
  {
    var nd := s'.nodes[n];
    NoFutureAcks(s.nodes, s.hist.canon, s.hist.reigns, s.hist.acks, n, nd.currentTerm + 1);
    assert s'.nodes == s.nodes[n := nd];
  }

  /** A vote record carries the voter's present log. */
  lemma GrantKeepsAcks(s: Cluster, s': Cluster, n: NodeId, t: nat, g: Grant)
    requires AckInv(s) && LogStays(s, s', n) && g.voterLog == s.nodes[n].log
    requires s'.hist.grants == s.hist.grants[(n, t) := g]
    ensures AckInv(s')
  {
    LogStaysKeeps(s, s'.(hist := s.hist), n);
    NoFutureAcks(s.nodes, s.hist.canon, s.hist.reigns, s.hist.acks, n, t);
  }

  lemma TimeoutKeepsAcks(s: Cluster, n: NodeId)
    requires AckInv(s) && n in s.nodes
    ensures AckInv(NextTimeout(s, n))
  {
    var s' := NextTimeout(s, n);
    var t := s.nodes[n].currentTerm + 1;
    GrantKeepsAcks(s, s', n, t, s'.hist.grants[(n, t)]);
  }

  lemma VoteRequestKeepsAcks(s: Cluster, n: NodeId, req: VoteRequest)
    requires AckInv(s) && n in s.nodes
    ensures AckInv(NextVoteRequest(s, n, req))
  {
    var s' := NextVoteRequest(s, n, req);
    VoteRequestKeepsLog(s.nodes[n], req);
    if s'.hist.grants == s.hist.grants {
      LogStaysKeeps(s, s', n);
    } else {
      GrantKeepsAcks(s, s', n, req.term, s'.hist.grants[(n, req.term)]);
    }
  }

  lemma VoteReplyKeepsAcks(s: Cluster, r: VoteReply)
    requires AckInv(s) && r.req.candidate in s.nodes
    ensures AckInv(NextVoteReply(s, r))
  {
    LogStaysKeeps(s, NextVoteReply(s, r), r.req.candidate);
  }

  lemma AppendReplyStays(s: Cluster, r: AppendReply)
    requires r.req.leader in s.nodes
    ensures LogStays(s, NextAppendReply(s, r), r.req.leader)
    ensures NextAppendReply(s, r).hist.grants == s.hist.grants
  {
    AppendReplyKeepsLog(s.nodes[r.req.leader], r.from, r.req, r.resp);
  }

  lemma AppendReplyKeepsAcks(s: Cluster, r: AppendReply)
    requires AckInv(s) && r.req.leader in s.nodes
    ensures AckInv(NextAppendReply(s, r))
  {
    AppendReplyStays(s, r);
    LogStaysKeeps(s, NextAppendReply(s, r), r.req.leader);
  }

  // ---- an election is won ----

  /** The vote of v in term u, and what it says about the winner's log. */
  lemma WinnerCarries(s: Cluster, ids: set<NodeId>, n: NodeId, v: NodeId, t: nat, i: nat)
    requires LogInv(s, ids) && AckInv(s) && n in s.nodes
    requires var u := s.nodes[n].currentTerm;
             u !in s.hist.reigns && Granted(s.hist.grants, v, u, n) && t < u && Acked(s.hist.acks, v, t, i)
    requires Own(s.hist.canon, t, i)
    ensures Holds(s.nodes[n].log, s.hist.canon, s.hist.reigns, s.hist.acks, t, i)
  {
    var u, canon, reigns, acks := s.nodes[n].currentTerm, s.hist.canon, s.hist.reigns, s.hist.acks;
    var g := s.hist.grants[(v, u)];
    assert GrantFits(g, (v, u).1, s.nodes, reigns, canon);
    assert HoldsAcked(g.voterLog, (v, u).0, (v, u).1, canon, reigns, acks);
    assert NodeFits(s.nodes[n], canon);
    if canon[t][..i + 1] <= g.voterLog {
      VoteCarries(s.nodes[n].log, g.voterLog, canon, reigns, acks, u, t, i);
    }
  }

  ghost predicate SameBefore(acks: Acks, acks': Acks, u: nat) {
    forall v, t :: (v, t) in acks' && t < u ==> (v, t) in acks && acks'[(v, t)] == acks[(v, t)]
  }

  /** When nobody in the electing majority had acknowledged an entry, the election blocks it. */
  lemma ElectionBlocks(reigns: Reigns, acks: Acks, acks': Acks, r: Reign, u: nat, t: nat, i: nat)
    requires t < u && SameBefore(acks, acks', u)
    requires forall v :: v in r.quorum ==> !Acked(acks, v, t, i)
    ensures Blocked(reigns[u := r], acks', t, i)
  {
    forall v | v in r.quorum
      ensures !Acked(acks', v, t, i)
    {
      assert !Acked(acks, v, t, i);
    }
    assert BlockedBy(reigns[u := r], acks', u, t, i);
  }

  lemma HoldsStands(log: Log, canon: Canon, reigns: Reigns, reigns': Reigns, acks: Acks, acks': Acks, t: nat, i: nat)
    requires Own(canon, t, i) && Holds(log, canon, reigns, acks, t, i)
    requires Kept(reigns, reigns') && Frozen(reigns, acks, acks')
    ensures Holds(log, canon, reigns', acks', t, i)
  {
    if Blocked(reigns, acks, t, i) {
      BlockedStands(reigns, reigns', acks, acks', t, i);
    }
  }

  /** The log holds what each of the voters acknowledged in earlier terms. */
  ghost predicate CarriesFor(log: Log, voters: set<NodeId>, u: nat, canon: Canon, reigns: Reigns, acks: Acks) {
    forall v :: v in voters ==> HoldsAcked(log, v, u, canon, reigns, acks)
  }

  lemma WinnerCarriesAll(s: Cluster, ids: set<NodeId>, n: NodeId, voters: set<NodeId>)
    requires LogInv(s, ids) && AckInv(s) && n in s.nodes && s.nodes[n].currentTerm !in s.hist.reigns
    requires forall v :: v in voters ==> Granted(s.hist.grants, v, s.nodes[n].currentTerm, n)
    ensures CarriesFor(s.nodes[n].log, voters, s.nodes[n].currentTerm, s.hist.canon, s.hist.reigns, s.hist.acks)
  {
    forall v, t: nat, i: nat | v in voters && Own(s.hist.canon, t, i) && t < s.nodes[n].currentTerm
                               && Acked(s.hist.acks, v, t, i)
      ensures Holds(s.nodes[n].log, s.hist.canon, s.hist.reigns, s.hist.acks, t, i)
    {
      WinnerCarries(s, ids, n, v, t, i);
    }
  }

  /** The winner starts with every own entry of earlier leaders that is not blocked, its own election included. */
  lemma WinnerStarts(canon: Canon, reigns: Reigns, acks: Acks, acks': Acks, u: nat, r: Reign)
    requires u !in reigns && CarriesFor(r.initial, r.quorum, u, canon, reigns, acks)
    requires Frozen(reigns, acks, acks') && SameBefore(acks, acks', u)
    ensures StartHolds(u, r.initial, canon, reigns[u := r], acks')
  {
    forall t: nat, i: nat | Own(canon, t, i) && t < u
      ensures Holds(r.initial, canon, reigns[u := r], acks', t, i)
    {
      if v :| v in r.quorum && Acked(acks, v, t, i) {
        assert HoldsAcked(r.initial, v, u, canon, reigns, acks);
        HoldsStands(r.initial, canon, reigns, reigns[u := r], acks, acks', t, i);
      } else {
        ElectionBlocks(reigns, acks, acks', r, u, t, i);
      }
    }
  }

  /** A node that elected a leader has reached that leader's term. */
  lemma ElectorsReached(s: Cluster, ids: set<NodeId>, w: nat, v: NodeId)
    requires ElectionInv(s, ids) && w in s.hist.reigns && v in s.hist.reigns[w].quorum
    ensures v in s.nodes && s.nodes[v].currentTerm >= w
  {
    assert ReignElected(s.nodes, s.hist.grants, ids, w, s.hist.reigns[w]);
    assert VoteRecorded(s.nodes[v], s.hist.grants);
  }

  /** A node may acknowledge only in its present term or later, which leaves past elections as they were. */
  lemma FrozenAt(s: Cluster, ids: set<NodeId>, n: NodeId, u: nat, x: nat)
    requires ElectionInv(s, ids) && n in s.nodes && u >= s.nodes[n].currentTerm
    ensures Frozen(s.hist.reigns, s.hist.acks, s.hist.acks[(n, u) := x])
  {
    forall w, v, t | w in s.hist.reigns && v in s.hist.reigns[w].quorum && t < w
      ensures (v, t) != (n, u)
    {
      ElectorsReached(s, ids, w, v);
    }
  }

  lemma StartStands(u: nat, start: Log, canon: Canon, canon': Canon, reigns: Reigns, reigns': Reigns,
                    acks: Acks, acks': Acks)
    requires StartHolds(u, start, canon, reigns, acks) && Kept(reigns, reigns') && Frozen(reigns, acks, acks')
    requires forall t: nat, i: nat :: Own(canon', t, i) && t < u ==>
               || (Own(canon, t, i) && canon'[t][..i + 1] == canon[t][..i + 1])
               || Blocked(reigns', acks', t, i)
    ensures StartHolds(u, start, canon', reigns', acks')
  {
    forall t: nat, i: nat | Own(canon', t, i) && t < u
      ensures Holds(start, canon', reigns', acks', t, i)
    {
      if Own(canon, t, i) && canon'[t][..i + 1] == canon[t][..i + 1] {
        HoldsStands(start, canon, reigns, reigns', acks, acks', t, i);
      }
    }
  }

  /** A new leader log without own entries adds nothing to hold. */
  lemma NoOwnYet(canon: Canon, canon': Canon, u: nat, log: Log)
    requires u !in canon && u >= 1 && TermsUpTo(log, u - 1) && canon' == canon[u := log]
    ensures forall t: nat, i: nat :: Own(canon', t, i) ==> t != u && Own(canon, t, i) && canon'[t] == canon[t]
  {
  }

  lemma SameEverywhere(canon: Canon, canon': Canon, acks: Acks, acks': Acks, n: NodeId, u: nat, x: nat)
    requires forall t: nat, i: nat :: Own(canon', t, i) ==> t != u && Own(canon, t, i) && canon'[t] == canon[t]
    requires acks' == acks[(n, u) := x]
    ensures forall v, bound :: SameBelow(canon, canon', acks, acks', v, bound)
  {
  }

  lemma CloseKeepsStarts(canon: Canon, canon': Canon, reigns: Reigns, acks: Acks, acks': Acks, u: nat, r: Reign)
    requires StartsHold(canon, reigns, acks) && u !in reigns
    requires forall t: nat, i: nat :: Own(canon', t, i) ==> t != u && Own(canon, t, i) && canon'[t] == canon[t]
    requires StartHolds(u, r.initial, canon, reigns[u := r], acks') && Frozen(reigns, acks, acks')
    ensures StartsHold(canon', reigns[u := r], acks')
  {
    var reigns' := reigns[u := r];
    forall w | w in reigns'
      ensures StartHolds(w, reigns'[w].initial, canon', reigns', acks')
    {
      if w == u {
        StartStands(u, r.initial, canon, canon', reigns', reigns', acks', acks');
      } else {
        assert StartHolds(w, reigns[w].initial, canon, reigns, acks);
        StartStands(w, reigns[w].initial, canon, canon', reigns, reigns', acks, acks');
      }
    }
  }

  lemma CrownKeepsAcks(s: Cluster, s': Cluster, ids: set<NodeId>, n: NodeId, u: nat, r: Reign)
    requires n in s.nodes && u == s.nodes[n].currentTerm && r.initial == s.nodes[n].log && n in s'.nodes
    requires u !in s.hist.reigns && u !in s.hist.canon && u >= 1 && TermsUpTo(s.nodes[n].log, u - 1)
    requires s'.nodes == s.nodes[n := s'.nodes[n]] && s'.nodes[n].log == s.nodes[n].log && s'.nodes[n].currentTerm == u
    requires s'.hist.canon == s.hist.canon[u := s.nodes[n].log] && s'.hist.reigns == s.hist.reigns[u := r]
    requires s'.hist.acks == s.hist.acks[(n, u) := LastIndex(s.nodes[n].log)] && s'.hist.grants == s.hist.grants
    requires CarriesFor(r.initial, r.quorum, u, s.hist.canon, s.hist.reigns, s.hist.acks)
    requires Frozen(s.hist.reigns, s.hist.acks, s'.hist.acks)
    requires AckInv(s)
    ensures AckInv(s')
  {
    var canon, canon', reigns, reigns', acks, acks' :=
      s.hist.canon, s'.hist.canon, s.hist.reigns, s'.hist.reigns, s.hist.acks, s'.hist.acks;
    NoOwnYet(canon, canon', u, s.nodes[n].log);
    SameEverywhere(canon, canon', acks, acks', n, u, LastIndex(s.nodes[n].log));
    WinnerStarts(canon, reigns, acks, acks', u, r);
    CloseKeepsStarts(canon, canon', reigns, acks, acks', u, r);
    GrantsHoldStands(s.hist.grants, canon, canon', reigns, reigns', acks, acks');
    CrownKeepsNodes(s.nodes, canon, canon', reigns, reigns', acks, acks', n, s'.nodes[n]);
  }

  lemma CrownKeepsNodes(nodes: Nodes, canon: Canon, canon': Canon, reigns: Reigns, reigns': Reigns,
                        acks: Acks, acks': Acks, n: NodeId, nd: Node)
    requires NodesHold(nodes, canon, reigns, acks) && n in nodes
    requires nd.log == nodes[n].log && nd.currentTerm == nodes[n].currentTerm
    requires forall v, bound :: SameBelow(canon, canon', acks, acks', v, bound)
    requires Kept(reigns, reigns') && Frozen(reigns, acks, acks')
    ensures NodesHold(nodes[n := nd], canon', reigns', acks')
  {
    HoldsAckedStands(nd.log, n, nd.currentTerm + 1, canon, canon', reigns, reigns', acks, acks');
    NodesHoldStands(nodes, canon, canon', reigns, reigns', acks, acks', n, nd);
  }

  lemma CloseKeepsAcks(s: Cluster, ids: set<NodeId>, n: NodeId, t: nat)
    requires ElectionInv(s, ids) && LogInv(s, ids) && AckInv(s) && n in s.nodes && (n, t) in s.rounds
    ensures AckInv(NextClose(s, n, t))
  {
    var s' := NextClose(s, n, t);
    if WinsElection(s.nodes[n], t, 1 + |s.rounds[(n, t)]|) {
      WonByMajority(s, ids, n, t);
      assert NodeFits(s.nodes[n], s.hist.canon);
      OlderTerms(s.nodes[n].log, s.hist.canon, t);
      WinnerCarriesAll(s, ids, n, s'.hist.reigns[t].quorum);
      FrozenAt(s, ids, n, t, LastIndex(s.nodes[n].log));
      CrownKeepsAcks(s, s', ids, n, t, s'.hist.reigns[t]);
    } else {
      LogStaysKeeps(s, s', n);
    }
  }

  // ---- a leader appends ----

  /** No node that elected a later leader acknowledges what a leader writes now. */
  lemma NewEntryBlocked(s: Cluster, ids: set<NodeId>, n: NodeId, w: nat)
    requires ElectionInv(s, ids) && AckInv(s) && n in s.nodes && s.nodes[n].currentTerm in s.hist.canon
    requires w in s.hist.reigns && w > s.nodes[n].currentTerm
    ensures var (u, i) := (s.nodes[n].currentTerm, |s.hist.canon[s.nodes[n].currentTerm]|);
            Blocked(s.hist.reigns, s.hist.acks[(n, u) := i], u, i)
  {
    var u, i := s.nodes[n].currentTerm, |s.hist.canon[s.nodes[n].currentTerm]|;
    var acks' := s.hist.acks[(n, u) := i];
    forall v | v in s.hist.reigns[w].quorum
      ensures !Acked(acks', v, u, i)
    {
      ElectorsReached(s, ids, w, v);
    }
    assert BlockedBy(s.hist.reigns, acks', w, u, i);
  }

  /** Appending one entry to the log of a reign leaves every older prefix alone. */
  lemma OwnAfterAppend(canon: Canon, canon': Canon, u: nat, e: Entry)
    requires u in canon && canon' == canon[u := canon[u] + [e]]
    ensures forall t: nat, i: nat :: Own(canon', t, i) ==>
              || (Own(canon, t, i) && canon'[t][..i + 1] == canon[t][..i + 1])
              || (t == u && i == |canon[u]|)
  {
  }

  lemma SubmitKeepsStarts(s: Cluster, ids: set<NodeId>, n: NodeId, e: Entry, canon': Canon, acks': Acks)
    requires n in s.nodes && s.nodes[n].currentTerm in s.hist.canon
    requires var u := s.nodes[n].currentTerm;
             canon' == s.hist.canon[u := s.hist.canon[u] + [e]]
             && acks' == s.hist.acks[(n, u) := |s.hist.canon[u]|]
    requires Frozen(s.hist.reigns, s.hist.acks, acks')
    requires ElectionInv(s, ids) && AckInv(s)
    ensures StartsHold(canon', s.hist.reigns, acks')
  {
    var u, canon, reigns := s.nodes[n].currentTerm, s.hist.canon, s.hist.reigns;
    OwnAfterAppend(canon, canon', u, e);
    forall w | w in reigns
      ensures StartHolds(w, reigns[w].initial, canon', reigns, acks')
    {
      if w > u {
        NewEntryBlocked(s, ids, n, w);
      }
      StartStands(w, reigns[w].initial, canon, canon', reigns, reigns, s.hist.acks, acks');
    }
  }

  /** Nobody but the leader has acknowledged the new entry. */
  lemma SameForOthers(nodes: Nodes, canon: Canon, canon': Canon, acks: Acks, acks': Acks, n: NodeId, u: nat, e: Entry)
    requires AcksFit(nodes, canon, acks) && u in canon
    requires canon' == canon[u := canon[u] + [e]] && acks' == acks[(n, u) := |canon[u]|]
    ensures forall v, bound: nat :: v != n || bound <= u ==> SameBelow(canon, canon', acks, acks', v, bound)
  {
    OwnAfterAppend(canon, canon', u, e);
  }

  /** Votes are for terms up to the voter's present one. */
  lemma VotesReached(s: Cluster, ids: set<NodeId>, n: NodeId)
    requires ElectionInv(s, ids) && n in s.nodes
    ensures forall k :: k in s.hist.grants && k.0 == n ==> k.1 <= s.nodes[n].currentTerm
  {
    assert VoteRecorded(s.nodes[n], s.hist.grants);
    forall k | k in s.hist.grants && k.0 == n
      ensures k.1 <= s.nodes[n].currentTerm
    {
      assert (s.nodes[n].id, k.1) in s.hist.grants;
    }
  }

  lemma LeaderHolds(canon: Canon, canon': Canon, reigns: Reigns, acks: Acks, acks': Acks, n: NodeId, u: nat, e: Entry)
    requires u in canon && canon' == canon[u := canon[u] + [e]] && acks' == acks[(n, u) := |canon[u]|]
    requires HoldsAcked(canon[u], n, u + 1, canon, reigns, acks) && Frozen(reigns, acks, acks')
    ensures HoldsAcked(canon'[u], n, u + 1, canon', reigns, acks')
  {
    OwnAfterAppend(canon, canon', u, e);
    forall t: nat, i: nat | Own(canon', t, i) && t < u + 1 && Acked(acks', n, t, i)
      ensures Holds(canon'[u], canon', reigns, acks', t, i)
    {
      if t < u {
        HoldsStands(canon[u], canon, reigns, reigns, acks, acks', t, i);
      }
    }
  }

  lemma ExtendKeepsAcks(s: Cluster, s': Cluster, ids: set<NodeId>, n: NodeId, u: nat, e: Entry)
    requires Extended(s, s', n, u, e)
    requires forall k :: k in s.hist.grants && k.0 == n ==> k.1 <= u
    requires Frozen(s.hist.reigns, s.hist.acks, s'.hist.acks)
    requires StartsHold(s'.hist.canon, s'.hist.reigns, s'.hist.acks)
    requires AckInv(s)
    ensures AckInv(s')
  {
    var canon, canon', reigns, acks, acks' := s.hist.canon, s'.hist.canon, s.hist.reigns, s.hist.acks, s'.hist.acks;
    SameForOthers(s.nodes, canon, canon', acks, acks', n, u, e);
    GrantsHoldStands(s.hist.grants, canon, canon', reigns, reigns, acks, acks');
    assert HoldsAcked(s.nodes[n].log, n, u + 1, canon, reigns, acks);
    LeaderHolds(canon, canon', reigns, acks, acks', n, u, e);
    NodesHoldStands(s.nodes, canon, canon', reigns, reigns, acks, acks', n, s'.nodes[n]);
  }

  lemma ExtendedKeepsAcks(s: Cluster, s': Cluster, ids: set<NodeId>, n: NodeId, u: nat, e: Entry)
    requires Extended(s, s', n, u, e)
    requires ElectionInv(s, ids) && AckInv(s)
    ensures AckInv(s')
  {
    FrozenAt(s, ids, n, u, |s.hist.canon[u]|);
    SubmitKeepsStarts(s, ids, n, e, s'.hist.canon, s'.hist.acks);
    VotesReached(s, ids, n);
    ExtendKeepsAcks(s, s', ids, n, u, e);
  }

  lemma SubmitKeepsAcks(s: Cluster, ids: set<NodeId>, n: NodeId, cmd: Command)
    requires ElectionInv(s, ids) && LogInv(s, ids) && AckInv(s) && n in s.nodes
    ensures AckInv(NextSubmit(s, n, cmd))
  {
    if s.nodes[n].role == Leader {
      LeaderLog(s, ids, n);
      SubmitExtends(s, n, cmd);
      ExtendedKeepsAcks(s, NextSubmit(s, n, cmd), ids, n, s.nodes[n].currentTerm,
                        Entry(|s.nodes[n].log|, s.nodes[n].currentTerm, Some(cmd)));
    } else {
      LogStaysKeeps(s, NextSubmit(s, n, cmd), n);
    }
  }

  // ---- a follower accepts ----

  /** The receiver of an accepted request holds all it acknowledged before and what it acknowledges now. */
  lemma FollowerHolds(log: Log, log': Log, canon: Canon, reigns: Reigns, acks: Acks, acks': Acks,
                      n: NodeId, u: nat, upTo: nat)
    requires u in canon && u in reigns && upTo < |canon[u]| && reigns[u].initial <= canon[u]
    requires log' == if canon[u][..upTo + 1] <= log then log else canon[u][..upTo + 1]
    requires HoldsAcked(log, n, u + 1, canon, reigns, acks) && StartsHold(canon, reigns, acks)
    requires Frozen(reigns, acks, acks')
    requires acks' == acks || acks' == acks[(n, u) := upTo]
    ensures HoldsAcked(log', n, u + 1, canon, reigns, acks')
  {
    forall t: nat, i: nat | Own(canon, t, i) && t < u + 1 && Acked(acks', n, t, i)
      ensures Holds(log', canon, reigns, acks', t, i)
    {
      var p := canon[t][..i + 1];
      if t == u && i <= upTo {
        assert p <= canon[u][..upTo + 1];
      } else {
        assert Holds(log, canon, reigns, acks, t, i);
        if t < u {
          assert StartHolds(u, reigns[u].initial, canon, reigns, acks);
        }
        if Blocked(reigns, acks, t, i) {
          BlockedStands(reigns, reigns, acks, acks', t, i);
        } else {
          MergeKeepsShared(log, canon[u], upTo, p);
        }
      }
    }
  }

  /** The state after a request that passed the term test, accepted or not. */
  ghost predicate Received(s: Cluster, s': Cluster, m: AppendMsg, resp: AppendResponse) {
    && m.to in s.nodes && m.to in s'.nodes && s'.nodes == s.nodes[m.to := s'.nodes[m.to]]
    && AppendShape(s.nodes[m.to], m.req, s'.nodes[m.to], resp)
    && s'.hist.canon == s.hist.canon && s'.hist.reigns == s.hist.reigns && s'.hist.grants == s.hist.grants
    && s'.hist.acks ==
       (if resp.success && Get(s.hist.acks, (m.to, m.req.term)) <= m.req.prevLogIndex + |m.req.entries|
        then s.hist.acks[(m.to, m.req.term) := m.req.prevLogIndex + |m.req.entries|] else s.hist.acks)
  }

  lemma AppendIsReceived(s: Cluster, m: AppendMsg)
    requires m.to in s.nodes
    ensures Received(s, NextAppend(s, m), m, HandleAppendEntries(s.nodes[m.to], m.req).1)
  {
    AppendHasShape(s.nodes[m.to], m.req);
  }

  /** Node n, now in term u, holds the log of that reign up to an index, and may have acknowledged it. */
  ghost predicate Accepted(s: Cluster, s': Cluster, n: NodeId, u: nat, upTo: nat) {
    && n in s.nodes && n in s'.nodes && s'.nodes == s.nodes[n := s'.nodes[n]]
    && u in s.hist.canon && u in s.hist.reigns && upTo < |s.hist.canon[u]|
    && s.hist.reigns[u].initial <= s.hist.canon[u]
    && s'.nodes[n].currentTerm == u >= s.nodes[n].currentTerm
    && s'.nodes[n].log ==
       (if s.hist.canon[u][..upTo + 1] <= s.nodes[n].log then s.nodes[n].log else s.hist.canon[u][..upTo + 1])
    && s'.hist.canon == s.hist.canon && s'.hist.reigns == s.hist.reigns && s'.hist.grants == s.hist.grants
    && (s'.hist.acks == s.hist.acks || s'.hist.acks == s.hist.acks[(n, u) := upTo])
  }

  lemma RequestOfNetwork(s: Cluster, ids: set<NodeId>, m: AppendMsg)
    requires LogInv(s, ids) && m in s.net.appends && m.to in s.nodes
    ensures NodeFits(s.nodes[m.to], s.hist.canon) && RequestFits(m.req, s.hist.canon)
    ensures m.req.term in s.hist.canon && m.req.term in s.hist.reigns
    ensures ReignFits(m.req.term, s.hist.reigns[m.req.term], s.hist.canon[m.req.term], s.hist.canon)
  {
  }

  lemma ReceivedIsAccepted(s: Cluster, s': Cluster, m: AppendMsg, resp: AppendResponse)
    requires Received(s, s', m, resp) && resp.success
    requires m.req.term in s.hist.canon && m.req.term in s.hist.reigns
    requires ReignFits(m.req.term, s.hist.reigns[m.req.term], s.hist.canon[m.req.term], s.hist.canon)
    requires NodeFits(s.nodes[m.to], s.hist.canon) && RequestFits(m.req, s.hist.canon)
    ensures Accepted(s, s', m.to, m.req.term, m.req.prevLogIndex + |m.req.entries|)
  {
    AppendOutcome(s.nodes[m.to], m.req, s'.nodes[m.to], resp, s.hist.canon);
  }

  lemma AcceptKeepsAcks(s: Cluster, s': Cluster, n: NodeId, u: nat, upTo: nat)
    requires Accepted(s, s', n, u, upTo)
    requires Frozen(s.hist.reigns, s.hist.acks, s.hist.acks[(n, u) := upTo])
    requires forall k :: k in s.hist.grants && k.0 == n ==> k.1 <= u
    requires AckInv(s)
    ensures AckInv(s')
  {
    AcceptKeepsNodes(s.nodes, s.hist.canon, s.hist.reigns, s.hist.acks, s'.hist.acks, n, s'.nodes[n], u, upTo);
    GrantsHoldStands(s.hist.grants, s.hist.canon, s.hist.canon, s.hist.reigns, s.hist.reigns,
                     s.hist.acks, s'.hist.acks);
    AcksKeepStarts(s.hist.canon, s.hist.reigns, s.hist.acks, s'.hist.acks);
  }

  lemma AcceptKeepsNodes(nodes: Nodes, canon: Canon, reigns: Reigns, acks: Acks, acks': Acks,
                         n: NodeId, nd: Node, u: nat, upTo: nat)
    requires n in nodes && u in canon && u in reigns && upTo < |canon[u]| && reigns[u].initial <= canon[u]
    requires nd.currentTerm == u >= nodes[n].currentTerm
    requires nd.log == if canon[u][..upTo + 1] <= nodes[n].log then nodes[n].log else canon[u][..upTo + 1]
    requires acks' == acks || acks' == acks[(n, u) := upTo]
    requires Frozen(reigns, acks, acks')
    requires AcksFit(nodes, canon, acks) && NodesHold(nodes, canon, reigns, acks) && StartsHold(canon, reigns, acks)
    ensures NodesHold(nodes[n := nd], canon, reigns, acks')
  {
    NoFutureAcks(nodes, canon, reigns, acks, n, u + 1);
    FollowerHolds(nodes[n].log, nd.log, canon, reigns, acks, acks', n, u, upTo);
    NodesHoldStands(nodes, canon, canon, reigns, reigns, acks, acks', n, nd);
  }

  lemma AcceptedKeepsAcks(s: Cluster, s': Cluster, ids: set<NodeId>, n: NodeId, u: nat, upTo: nat)
    requires Accepted(s, s', n, u, upTo) && ElectionInv(s, ids) && AckInv(s)
    ensures AckInv(s')
  {
    FrozenAt(s, ids, n, u, upTo);
    VotesReached(s, ids, n);
    AcceptKeepsAcks(s, s', n, u, upTo);
  }

  lemma AcksKeepStarts(canon: Canon, reigns: Reigns, acks: Acks, acks': Acks)
    requires StartsHold(canon, reigns, acks) && Frozen(reigns, acks, acks')
    ensures StartsHold(canon, reigns, acks')
  {
    forall u | u in reigns
      ensures StartHolds(u, reigns[u].initial, canon, reigns, acks')
    {
      StartStands(u, reigns[u].initial, canon, canon, reigns, reigns, acks, acks');
    }
  }

  lemma RefusedKeepsAcks(s: Cluster, s': Cluster, m: AppendMsg, resp: AppendResponse)
    requires AckInv(s) && Received(s, s', m, resp) && !resp.success
    ensures AckInv(s')
  {
    RefusedStays(s, s', m, resp);
    LogStaysKeeps(s, s', m.to);
  }

  lemma SuccessKeepsAcks(s: Cluster, s': Cluster, ids: set<NodeId>, m: AppendMsg)
    requires Accepted(s, s', m.to, m.req.term, m.req.prevLogIndex + |m.req.entries|)
    requires ElectionInv(s, ids) && AckInv(s)
    ensures AckInv(s')
  {
    AcceptedKeepsAcks(s, s', ids, m.to, m.req.term, m.req.prevLogIndex + |m.req.entries|);
  }

  lemma ReceivedKeepsAcks(s: Cluster, s': Cluster, ids: set<NodeId>, m: AppendMsg, resp: AppendResponse)
    requires ElectionInv(s, ids) && LogInv(s, ids) && AckInv(s)
    requires m in s.net.appends && Received(s, s', m, resp)
    ensures AckInv(s')
  {
    if resp.success {
      RequestOfNetwork(s, ids, m);
      ReceivedIsAccepted(s, s', m, resp);
      SuccessKeepsAcks(s, s', ids, m);
    } else {
      RefusedKeepsAcks(s, s', m, resp);
    }
  }

  lemma RefusedStays(s: Cluster, s': Cluster, m: AppendMsg, resp: AppendResponse)
    requires Received(s, s', m, resp) && !resp.success
    ensures LogStays(s, s', m.to) && s'.hist.grants == s.hist.grants
  {
  }

  lemma InitAcks(ids: set<NodeId>)
    ensures AckInv(Init(ids))
  {
  }

  lemma AppendKeepsAcks(s: Cluster, ids: set<NodeId>, m: AppendMsg)
    requires ElectionInv(s, ids) && LogInv(s, ids) && AckInv(s) && m in s.net.appends && m.to in s.nodes
    ensures AckInv(NextAppend(s, m))
  {
    AppendIsReceived(s, m);
    ReceivedKeepsAcks(s, NextAppend(s, m), ids, m, HandleAppendEntries(s.nodes[m.to], m.req).1);
  }

  lemma HeartbeatKeepsAcks(s: Cluster, n: NodeId, p: NodeId, commit: nat)
    requires AckInv(s) && n in s.nodes
    ensures AckInv(NextHeartbeat(s, n, p, commit))
  {
  }

  lemma ApplyKeepsAcks(s: Cluster, n: NodeId)
    requires AckInv(s) && n in s.nodes
    ensures AckInv(NextApply(s, n))
  {
    LogStaysKeeps(s, NextApply(s, n), n);
  }

  /** Every step keeps what was acknowledged, in logs, in votes and in what leaders started with. */
  lemma StepKeepsAcks(s: Cluster, ids: set<NodeId>, step: Step)
    requires ElectionInv(s, ids) && LogInv(s, ids) && AckInv(s) && Enabled(s, step)
    ensures AckInv(Next(s, step))
  {
    match step
    case Timeout(n) => TimeoutKeepsAcks(s, n);
    case DeliverVoteRequest(n, req) => VoteRequestKeepsAcks(s, n, req);
    case DeliverVoteReply(r) => VoteReplyKeepsAcks(s, r);
    case CloseElection(n, t) => CloseKeepsAcks(s, ids, n, t);
    case Submit(n, cmd) => SubmitKeepsAcks(s, ids, n, cmd);
    case Heartbeat(n, p, commit) => HeartbeatKeepsAcks(s, n, p, commit);
    case DeliverAppend(m) => AppendKeepsAcks(s, ids, m);
    case DeliverAppendReply(r) => AppendReplyKeepsAcks(s, r);
    case ApplyNext(n) => ApplyKeepsAcks(s, n);
  }
}
