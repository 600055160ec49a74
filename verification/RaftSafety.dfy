/**
 The safety properties of the consensus layer (figure 3 of "In Search of an
 Understandable Consensus Algorithm", extended version) over whole runs. A
 statement about points i and j of a run covers both orders in time unless it
 says otherwise.
 */
module RaftSafety {
  import opened Common
  import opened RaftTypes
  import opened RaftNode
  import opened RaftCluster
  import opened RaftElection
  import opened RaftLog
  import opened RaftAcks
  import opened RaftCommit

  /** `states[k]` is the cluster before `steps[k]`. */
  datatype Run = Run(states: seq<Cluster>, steps: seq<Step>)

  ghost predicate Follows(run: Run, k: nat)
    requires k < |run.steps| < |run.states|
  {
    Enabled(run.states[k], run.steps[k]) && run.states[k + 1] == Next(run.states[k], run.steps[k])
  }

  /** A run of the cluster `ids` from its initial state. */
  ghost predicate RunOf(run: Run, ids: set<NodeId>) {
    && ClusterIds(ids)
    && |run.states| == |run.steps| + 1
    && run.states[0] == Init(ids)
    && forall k :: 0 <= k < |run.steps| ==> Follows(run, k)
  }

  ghost function Last(run: Run): Cluster
    requires |run.states| == |run.steps| + 1
  {
    run.states[|run.steps|]
  }

  /** The reply premise, needed for commits only: see `MayCount`. */
  ghost predicate GuardedRun(run: Run) {
    |run.states| == |run.steps| + 1 && forall k :: 0 <= k < |run.steps| ==> Guarded(run.states[k], run.steps[k])
  }

  /** A simpler premise: every reply that is counted reaches the leader of the request's term. */
  ghost predicate TimelyRun(run: Run) {
    |run.states| == |run.steps| + 1 && forall k :: 0 <= k < |run.steps| ==> Timely(run.states[k], run.steps[k])
  }

  lemma TimelyRunIsGuarded(run: Run)
    requires TimelyRun(run)
    ensures GuardedRun(run)
  {
    forall k | 0 <= k < |run.steps|
      ensures Guarded(run.states[k], run.steps[k])
    {
      TimelyIsGuarded(run.states[k], run.steps[k]);
    }
  }

  /** What holds in every reachable state. */
  ghost predicate LogsSafe(s: Cluster, ids: set<NodeId>) {
    match s
    case Cluster(_, _, _, _) => ElectionInv(s, ids) && LogInv(s, ids) && AckInv(s)
  }

  lemma StepKeepsLogsSafe(s: Cluster, ids: set<NodeId>, step: Step)
    requires LogsSafe(s, ids) && Enabled(s, step)
    ensures LogsSafe(Next(s, step), ids)
  {
    StepKeepsElection(s, ids, step);
    StepKeepsLog(s, ids, step);
    StepKeepsAcks(s, ids, step);
  }

  lemma InitLogsSafe(ids: set<NodeId>)
    requires ClusterIds(ids)
    ensures LogsSafe(Init(ids), ids)
  {
    InitElection(ids);
    InitLog(ids);
    InitAcks(ids);
  }

  lemma LogsSafeNext(run: Run, ids: set<NodeId>, i: nat)
    requires RunOf(run, ids) && 0 < i < |run.states| && LogsSafe(run.states[i - 1], ids)
    ensures LogsSafe(run.states[i], ids)
  {
    assert Follows(run, i - 1);
    StepKeepsLogsSafe(run.states[i - 1], ids, run.steps[i - 1]);
  }

  lemma {:induction false} Reached(run: Run, ids: set<NodeId>, i: nat)
    requires RunOf(run, ids) && i < |run.states|
    ensures LogsSafe(run.states[i], ids)
  {
    if i == 0 {
      InitLogsSafe(ids);
    } else {
      Reached(run, ids, i - 1);
      LogsSafeNext(run, ids, i);
    }
  }

  /** What holds in every state that a run under the reply premise reaches. */
  ghost predicate Safe(s: Cluster, ids: set<NodeId>) {
    match s
    case Cluster(_, _, _, _) => LogsSafe(s, ids) && CommitInv(s, ids)
  }

  lemma CommitsStep(s: Cluster, ids: set<NodeId>, step: Step, t: Cluster)
    requires Enabled(s, step) && Guarded(s, step) && t == Next(s, step) && LogsSafe(s, ids) && CommitInv(s, ids)
    ensures CommitInv(t, ids)
  {
    StepKeepsCommits(s, ids, step);
  }

  lemma StepAt(run: Run, ids: set<NodeId>, i: nat)
    requires RunOf(run, ids) && GuardedRun(run) && 0 < i < |run.states|
    ensures Enabled(run.states[i - 1], run.steps[i - 1]) && Guarded(run.states[i - 1], run.steps[i - 1])
    ensures run.states[i] == Next(run.states[i - 1], run.steps[i - 1])
  {
    assert Follows(run, i - 1);
  }

  lemma ReachedAs(run: Run, ids: set<NodeId>, i: nat, s: Cluster)
    requires RunOf(run, ids) && i < |run.states| && s == run.states[i]
    ensures LogsSafe(s, ids)
  {
    Reached(run, ids, i);
  }

  lemma CommitsNext(run: Run, ids: set<NodeId>, i: nat, s: Cluster)
    requires RunOf(run, ids) && GuardedRun(run) && 0 < i < |run.states| && s == run.states[i - 1] && CommitInv(s, ids)
    ensures CommitInv(run.states[i], ids)
  {
    StepAt(run, ids, i);
    ReachedAs(run, ids, i - 1, s);
    CommitsStep(s, ids, run.steps[i - 1], run.states[i]);
  }

  lemma {:induction false} CommitsReached(run: Run, ids: set<NodeId>, i: nat)
    requires RunOf(run, ids) && GuardedRun(run) && i < |run.states|
    ensures CommitInv(run.states[i], ids)
  {
    if i == 0 {
      InitCommits(ids);
    } else {
      CommitsReached(run, ids, i - 1);
      CommitsNext(run, ids, i, run.states[i - 1]);
    }
  }

  lemma ReachedGuarded(run: Run, ids: set<NodeId>, i: nat)
    requires RunOf(run, ids) && GuardedRun(run) && i < |run.states|
    ensures Safe(run.states[i], ids)
  {
    Reached(run, ids, i);
    CommitsReached(run, ids, i);
  }

  lemma GrowthChains(a: History, b: History, c: History)
    requires HistoryGrows(a, b) && HistoryGrows(b, c)
    ensures HistoryGrows(a, c)
  {
  }

  lemma GrowthNext(run: Run, ids: set<NodeId>, i: nat, s: Cluster, t: Cluster)
    requires RunOf(run, ids) && 0 < i < |run.states| && s == run.states[i - 1] && t == run.states[i]
    ensures HistoryGrows(s.hist, t.hist)
  {
    ReachedAs(run, ids, i - 1, s);
    FollowsAt(run, ids, i, s, t);
    StepGrows(s, ids, run.steps[i - 1]);
  }

  lemma FollowsAt(run: Run, ids: set<NodeId>, i: nat, s: Cluster, t: Cluster)
    requires RunOf(run, ids) && 0 < i < |run.states| && s == run.states[i - 1] && t == run.states[i]
    ensures Enabled(s, run.steps[i - 1]) && t == Next(s, run.steps[i - 1])
  {
    assert Follows(run, i - 1);
  }

  /** History is never lost: leader logs only grow, reigns and commits stay. */
  lemma {:induction false} HistoryKept(run: Run, ids: set<NodeId>, i: nat, j: nat)
    requires RunOf(run, ids) && i <= j < |run.states|
    ensures HistoryGrows(run.states[i].hist, run.states[j].hist)
    decreases j - i
  {
    if i < j {
      var a, b, c := run.states[i].hist, run.states[j - 1], run.states[j];
      HistoryKept(run, ids, i, j - 1);
      GrowthNext(run, ids, j, b, c);
      GrowthChains(a, b.hist, c.hist);
    }
  }

  /** The later of two points, whose history contains that of both. */
  function Later(i: nat, j: nat): nat {
    if i <= j then j else i
  }

  lemma BothKept(run: Run, ids: set<NodeId>, i: nat, j: nat)
    requires RunOf(run, ids) && i < |run.states| && j < |run.states|
    ensures HistoryGrows(run.states[i].hist, run.states[Later(i, j)].hist)
    ensures HistoryGrows(run.states[j].hist, run.states[Later(i, j)].hist)
  {
    HistoryKept(run, ids, i, Later(i, j));
    HistoryKept(run, ids, j, Later(i, j));
  }

  ghost predicate Leads(s: Cluster, n: NodeId, term: nat) {
    n in s.nodes && s.nodes[n].role == Leader && s.nodes[n].currentTerm == term
  }

  lemma LeaderReigns(s: Cluster, ids: set<NodeId>, n: NodeId, term: nat)
    requires LogsSafe(s, ids) && Leads(s, n, term)
    ensures term in s.hist.reigns && s.hist.reigns[term].leader == n
    ensures term in s.hist.canon && s.hist.canon[term] == s.nodes[n].log
  {
    LeaderLog(s, ids, n);
  }

  // ---- election safety ----

  /** At most one node ever leads a given term. */
  lemma ElectionSafety(run: Run, ids: set<NodeId>, i: nat, j: nat, a: NodeId, b: NodeId, term: nat)
    requires RunOf(run, ids) && i < |run.states| && j < |run.states|
    requires Leads(run.states[i], a, term) && Leads(run.states[j], b, term)
    ensures a == b
  {
    Reached(run, ids, i);
    Reached(run, ids, j);
    LeaderReigns(run.states[i], ids, a, term);
    LeaderReigns(run.states[j], ids, b, term);
    BothKept(run, ids, i, j);
  }

  // ---- log matching ----

  lemma NodeLogFits(s: Cluster, ids: set<NodeId>, n: NodeId, canon: Canon)
    requires LogsSafe(s, ids) && n in s.nodes && Grows(s.hist.canon, canon)
    ensures Fits(s.nodes[n].log, canon, s.nodes[n].currentTerm)
  {
    assert NodeFits(s.nodes[n], s.hist.canon);
    FitsGrows(s.nodes[n].log, s.hist.canon, canon, s.nodes[n].currentTerm);
  }

  /** Two logs, at any two points, with an entry of the same index and term are equal up to that index. */
  lemma LogMatching(run: Run, ids: set<NodeId>, i: nat, j: nat, a: NodeId, b: NodeId, k: nat)
    requires RunOf(run, ids) && i < |run.states| && j < |run.states|
    requires a in run.states[i].nodes && b in run.states[j].nodes
    requires k < |run.states[i].nodes[a].log| && k < |run.states[j].nodes[b].log|
    requires run.states[i].nodes[a].log[k].term == run.states[j].nodes[b].log[k].term
    ensures run.states[i].nodes[a].log[..k + 1] == run.states[j].nodes[b].log[..k + 1]
  {
    var canon := run.states[Later(i, j)].hist.canon;
    Reached(run, ids, i);
    Reached(run, ids, j);
    BothKept(run, ids, i, j);
    NodeLogFits(run.states[i], ids, a, canon);
    NodeLogFits(run.states[j], ids, b, canon);
    Agree(run.states[i].nodes[a].log, run.states[j].nodes[b].log, canon, k);
  }

  /** An entry sits at its own index, position 0 holds the sentinel, and no entry is from a later term than its node. */
  lemma LogIndices(run: Run, ids: set<NodeId>, i: nat, n: NodeId, k: nat)
    requires RunOf(run, ids) && i < |run.states| && n in run.states[i].nodes && k < |run.states[i].nodes[n].log|
    ensures run.states[i].nodes[n].log[k].index == k
    ensures run.states[i].nodes[n].log[0] == SENTINEL
    ensures run.states[i].nodes[n].log[k].term <= run.states[i].nodes[n].currentTerm
  {
    Reached(run, ids, i);
    NodeLogFits(run.states[i], ids, n, run.states[i].hist.canon);
  }

  /** While a leader's term lasts, its log only grows: nothing it wrote is overwritten or removed. */
  lemma LeaderAppendOnly(run: Run, ids: set<NodeId>, i: nat, j: nat, n: NodeId, term: nat)
    requires RunOf(run, ids) && i <= j < |run.states| && Leads(run.states[i], n, term)
    requires n in run.states[j].nodes && run.states[j].nodes[n].currentTerm == term
    ensures run.states[j].nodes[n].role == Leader
    ensures run.states[i].nodes[n].log <= run.states[j].nodes[n].log
  {
    Reached(run, ids, i);
    Reached(run, ids, j);
    LeaderReigns(run.states[i], ids, n, term);
    HistoryKept(run, ids, i, j);
    var s := run.states[j];
    assert ReignElected(s.nodes, s.hist.grants, ids, term, s.hist.reigns[term]);
    LeaderReigns(s, ids, n, term);
  }

  // ---- commits ----

  /** The prefix of a node's log that it regards as committed. */
  function Committed(nd: Node): seq<Entry> {
    if nd.commitIndex < |nd.log| then nd.log[..nd.commitIndex + 1] else nd.log
  }

  lemma SafeBacked(s: Cluster, ids: set<NodeId>, n: NodeId)
    requires Safe(s, ids) && n in s.nodes
    ensures Backed(Committed(s.nodes[n]), s.nodes[n].currentTerm, s.hist.commits, s.hist.canon)
    ensures |Committed(s.nodes[n])| >= 1 && Committed(s.nodes[n])[0] == SENTINEL
  {
    assert NodeBacked(s.nodes[n], s.hist.commits, s.hist.canon);
    assert NodeFits(s.nodes[n], s.hist.canon);
  }

  lemma CommittedBacked(run: Run, ids: set<NodeId>, i: nat, j: nat, n: NodeId)
    requires RunOf(run, ids) && GuardedRun(run) && i < |run.states| && j < |run.states| && n in run.states[i].nodes
    ensures var h := run.states[Later(i, j)].hist;
            Backed(Committed(run.states[i].nodes[n]), run.states[i].nodes[n].currentTerm, h.commits, h.canon)
    ensures |Committed(run.states[i].nodes[n])| >= 1 && Committed(run.states[i].nodes[n])[0] == SENTINEL
  {
    var s, h := run.states[i], run.states[Later(i, j)].hist;
    ReachedGuarded(run, ids, i);
    BothKept(run, ids, i, j);
    SafeBacked(s, ids, n);
    BackedGrows(Committed(s.nodes[n]), s.nodes[n].currentTerm, s.nodes[n].currentTerm,
                s.hist.commits, h.commits, s.hist.canon, h.canon);
  }

  /** What a reign started with holds every commit of earlier terms. */
  lemma StartHasCommit(s: Cluster, ids: set<NodeId>, c: Commit, u: nat)
    requires Safe(s, ids) && c in s.hist.commits && u in s.hist.reigns && c.term < u
    ensures c.term in s.hist.canon && c.index < |s.hist.canon[c.term]|
    ensures s.hist.canon[c.term][..c.index + 1] <= s.hist.reigns[u].initial
  {
    assert CommitBacked(c, s.hist.canon, s.hist.acks, ids);
    CommitCarried(s.nodes, s.hist.grants, s.hist.reigns, s.hist.canon, s.hist.acks, ids, c, u);
  }

  lemma StartHasSentinel(s: Cluster, ids: set<NodeId>, u: nat)
    requires LogsSafe(s, ids) && u in s.hist.reigns
    ensures s.hist.reigns[u].initial[0] == SENTINEL
  {
    assert ReignFits(u, s.hist.reigns[u], s.hist.canon[u], s.hist.canon);
  }

  /** The log holds every commit of terms below u. */
  ghost predicate HasCommits(start: Log, u: nat, commits: Commits, canon: Canon) {
    && start[0] == SENTINEL
    && forall c :: c in commits && c.term < u ==>
         c.term in canon && c.index < |canon[c.term]| && canon[c.term][..c.index + 1] <= start
  }

  lemma StartHasCommits(s: Cluster, ids: set<NodeId>, u: nat)
    requires Safe(s, ids) && u in s.hist.reigns
    ensures HasCommits(s.hist.reigns[u].initial, u, s.hist.commits, s.hist.canon)
  {
    StartHasSentinel(s, ids, u);
    forall c | c in s.hist.commits && c.term < u
      ensures c.term in s.hist.canon && c.index < |s.hist.canon[c.term]|
      ensures s.hist.canon[c.term][..c.index + 1] <= s.hist.reigns[u].initial
    {
      StartHasCommit(s, ids, c, u);
    }
  }

  lemma StartCarries(start: Log, p: seq<Entry>, bound: nat, u: nat, commits: Commits, canon: Canon)
    requires HasCommits(start, u, commits, canon) && Backed(p, bound, commits, canon)
    requires bound < u && |p| >= 1 && p[0] == SENTINEL
    ensures p <= start
  {
    if |p| > 1 {
      var c :| c in commits && BackedBy(p, c, bound, canon);
      PartOfPart(p, c, canon, start);
    }
  }

  lemma PartOfPart(p: seq<Entry>, c: Commit, canon: Canon, start: Log)
    requires c.term in canon && c.index < |canon[c.term]| && canon[c.term][..c.index + 1] <= start
    requires |p| <= c.index + 1 && p <= canon[c.term]
    ensures p <= start
  {
    assert p <= canon[c.term][..c.index + 1];
  }

  /** A leader's log continues what its reign started with. */
  lemma LeaderStart(s: Cluster, ids: set<NodeId>, n: NodeId, term: nat)
    requires LogsSafe(s, ids) && Leads(s, n, term)
    ensures term in s.hist.reigns && s.hist.reigns[term].initial <= s.nodes[n].log
  {
    LeaderReigns(s, ids, n, term);
    assert ReignFits(term, s.hist.reigns[term], s.hist.canon[term], s.hist.canon);
  }

  /** What a node regards as committed is part of what every later term's leader starts with. */
  lemma CarriedToReign(run: Run, ids: set<NodeId>, i: nat, j: nat, n: NodeId, u: nat)
    requires RunOf(run, ids) && GuardedRun(run) && i < |run.states| && j < |run.states|
    requires n in run.states[i].nodes && run.states[i].nodes[n].currentTerm < u
    requires u in run.states[Later(i, j)].hist.reigns
    ensures Committed(run.states[i].nodes[n]) <= run.states[Later(i, j)].hist.reigns[u].initial
  {
    CommittedBacked(run, ids, i, j, n);
    ReachedGuarded(run, ids, Later(i, j));
    var s, nd := run.states[Later(i, j)], run.states[i].nodes[n];
    StartHasCommits(s, ids, u);
    StartCarries(s.hist.reigns[u].initial, Committed(nd), nd.currentTerm, u, s.hist.commits, s.hist.canon);
  }

  /**
   Leader completeness: whatever a node in some term regards as committed is in
   the log of every leader of every later term.
   */
  lemma LeaderCompleteness(run: Run, ids: set<NodeId>, i: nat, j: nat, n: NodeId, leader: NodeId, term: nat)
    requires RunOf(run, ids) && GuardedRun(run) && i < |run.states| && j < |run.states|
    requires n in run.states[i].nodes && Leads(run.states[j], leader, term)
    requires run.states[i].nodes[n].currentTerm < term
    ensures Committed(run.states[i].nodes[n]) <= run.states[j].nodes[leader].log
  {
    Reached(run, ids, j);
    LeaderStart(run.states[j], ids, leader, term);
    BothKept(run, ids, i, j);
    CarriedToReign(run, ids, i, j, n, term);
  }

  lemma BackedPrefixesAgree(p: seq<Entry>, q: seq<Entry>, b1: nat, b2: nat, commits: Commits, canon: Canon)
    requires Backed(p, b1, commits, canon) && Backed(q, b2, commits, canon) && CommitsCarried(commits, canon)
    requires |p| >= 1 && |q| >= 1 && p[0] == q[0]
    ensures p <= q || q <= p
  {
    if |p| > 1 && |q| > 1 {
      var c :| c in commits && BackedBy(p, c, b1, canon);
      var d :| d in commits && BackedBy(q, d, b2, canon);
      var u := if c.term <= d.term then d.term else c.term;
      assert p <= canon[c.term][..c.index + 1] <= canon[u];
      assert q <= canon[d.term][..d.index + 1] <= canon[u];
    }
  }

  lemma SafeCarries(s: Cluster, ids: set<NodeId>)
    requires Safe(s, ids)
    ensures CommitsCarried(s.hist.commits, s.hist.canon)
  {
    AllCommitsCarried(s, ids);
  }

  lemma ReachedCarries(run: Run, ids: set<NodeId>, i: nat)
    requires RunOf(run, ids) && GuardedRun(run) && i < |run.states|
    ensures CommitsCarried(run.states[i].hist.commits, run.states[i].hist.canon)
  {
    ReachedGuarded(run, ids, i);
    SafeCarries(run.states[i], ids);
  }

  /** What two nodes regard as committed, at any two points, never conflicts. */
  lemma CommittedAgree(run: Run, ids: set<NodeId>, i: nat, j: nat, a: NodeId, b: NodeId)
    requires RunOf(run, ids) && GuardedRun(run) && i < |run.states| && j < |run.states|
    requires a in run.states[i].nodes && b in run.states[j].nodes
    ensures || Committed(run.states[i].nodes[a]) <= Committed(run.states[j].nodes[b])
            || Committed(run.states[j].nodes[b]) <= Committed(run.states[i].nodes[a])
  {
    var h := run.states[Later(i, j)].hist;
    ReachedCarries(run, ids, Later(i, j));
    CommittedBacked(run, ids, i, j, a);
    CommittedBacked(run, ids, j, i, b);
    BackedPrefixesAgree(Committed(run.states[i].nodes[a]), Committed(run.states[j].nodes[b]),
                        run.states[i].nodes[a].currentTerm, run.states[j].nodes[b].currentTerm, h.commits, h.canon);
  }

  lemma CommittedChains(a: Node, b: Node, c: Node)
    requires CommittedStays(a, b) && CommittedStays(b, c)
    ensures CommittedStays(a, c)
  {
    assert a.log[..a.commitIndex + 1] == b.log[..a.commitIndex + 1] == c.log[..a.commitIndex + 1];
  }

  lemma SafeInLog(s: Cluster, ids: set<NodeId>, n: NodeId)
    requires Safe(s, ids) && n in ids
    ensures n in s.nodes && s.nodes[n].commitIndex < |s.nodes[n].log|
  {
    assert NodeBacked(s.nodes[n], s.hist.commits, s.hist.canon);
  }

  lemma ReachedInLog(run: Run, ids: set<NodeId>, i: nat, n: NodeId, s: Cluster)
    requires RunOf(run, ids) && GuardedRun(run) && i < |run.states| && n in ids && s == run.states[i]
    ensures n in s.nodes && s.nodes[n].commitIndex < |s.nodes[n].log|
  {
    ReachedGuarded(run, ids, i);
    SafeInLog(s, ids, n);
  }

  lemma StaysNext(run: Run, ids: set<NodeId>, i: nat, n: NodeId)
    requires RunOf(run, ids) && GuardedRun(run) && i < |run.steps| && n in run.states[i].nodes
    ensures n in run.states[i + 1].nodes && CommittedStays(run.states[i].nodes[n], run.states[i + 1].nodes[n])
  {
    ReachedGuarded(run, ids, i);
    assert Follows(run, i);
    StepKeepsCommitted(run.states[i], ids, run.steps[i], n);
  }

  /**
   Over a whole run the commit index of a node never falls and never passes its
   last entry, and what it covers is never truncated.
   */
  lemma {:induction false} CommitIsFinal(run: Run, ids: set<NodeId>, i: nat, j: nat, n: NodeId)
    requires RunOf(run, ids) && GuardedRun(run) && i <= j < |run.states| && n in ids
    ensures n in run.states[i].nodes && n in run.states[j].nodes
    ensures CommittedStays(run.states[i].nodes[n], run.states[j].nodes[n])
    decreases j - i
  {
    if i == j {
      ReachedInLog(run, ids, i, n, run.states[i]);
    } else {
      CommitIsFinal(run, ids, i, j - 1, n);
      StaysNext(run, ids, j - 1, n);
      CommittedChains(run.states[i].nodes[n], run.states[j - 1].nodes[n], run.states[j].nodes[n]);
    }
  }

  /** The voters of `q` all hold `p` in their logs. */
  ghost predicate HeldBy(nodes: Nodes, q: set<NodeId>, p: seq<Entry>) {
    forall v :: v in q ==> v in nodes && p <= nodes[v].log
  }

  /** The nodes that acknowledged a committed entry still hold it. */
  lemma QuorumHolds(h: History, nodes: Nodes, ids: set<NodeId>, c: Commit)
    requires ReignsElected(nodes, h.grants, h.reigns, ids) && CommitBacked(c, h.canon, h.acks, ids)
    requires AcksFit(nodes, h.canon, h.acks) && NodesHold(nodes, h.canon, h.reigns, h.acks)
    ensures HeldBy(nodes, c.quorum, h.canon[c.term][..c.index + 1])
  {
    CommittedNotBlocked(c, h.canon, h.acks, nodes, h.grants, h.reigns, ids);
    forall v | v in c.quorum
      ensures v in nodes && h.canon[c.term][..c.index + 1] <= nodes[v].log
    {
      assert Acked(h.acks, v, c.term, c.index);
      assert (v, c.term).0 in nodes && (v, c.term).1 <= nodes[v].currentTerm;
      assert Holds(nodes[v].log, h.canon, h.reigns, h.acks, c.term, c.index);
    }
  }

  lemma CommitIsHeld(s: Cluster, ids: set<NodeId>, c: Commit)
    requires Safe(s, ids) && c in s.hist.commits
    ensures Own(s.hist.canon, c.term, c.index) && IsMajority(c.quorum, ids)
    ensures HeldBy(s.nodes, c.quorum, s.hist.canon[c.term][..c.index + 1])
  {
    assert CommitBacked(c, s.hist.canon, s.hist.acks, ids);
    QuorumHolds(s.hist, s.nodes, ids, c);
  }

  ghost predicate CommitsHeld(nodes: Nodes, commits: Commits, canon: Canon, ids: set<NodeId>) {
    forall c :: c in commits ==>
      && Own(canon, c.term, c.index) && IsMajority(c.quorum, ids)
      && HeldBy(nodes, c.quorum, canon[c.term][..c.index + 1])
  }

  lemma AllHeld(s: Cluster, ids: set<NodeId>)
    requires Safe(s, ids)
    ensures CommitsHeld(s.nodes, s.hist.commits, s.hist.canon, ids)
    ensures IsMajority(ids, ids) && HeldBy(s.nodes, ids, [SENTINEL])
  {
    SentinelEverywhere(s, ids);
    forall c | c in s.hist.commits
      ensures Own(s.hist.canon, c.term, c.index) && IsMajority(c.quorum, ids)
      ensures HeldBy(s.nodes, c.quorum, s.hist.canon[c.term][..c.index + 1])
    {
      CommitIsHeld(s, ids, c);
    }
  }

  lemma BackedIsHeld(nodes: Nodes, commits: Commits, canon: Canon, ids: set<NodeId>, p: seq<Entry>, bound: nat)
    returns (q: set<NodeId>)
    requires CommitsHeld(nodes, commits, canon, ids) && IsMajority(ids, ids) && HeldBy(nodes, ids, [SENTINEL])
    requires Backed(p, bound, commits, canon) && |p| >= 1 && p[0] == SENTINEL
    ensures IsMajority(q, ids) && HeldBy(nodes, q, p)
  {
    if |p| > 1 {
      var c :| c in commits && BackedBy(p, c, bound, canon);
      assert p <= canon[c.term][..c.index + 1];
      q := c.quorum;
    } else {
      q := ids;
    }
  }

  lemma SentinelEverywhere(s: Cluster, ids: set<NodeId>)
    requires LogsSafe(s, ids)
    ensures IsMajority(ids, ids) && HeldBy(s.nodes, ids, [SENTINEL])
  {
    forall v | v in ids
      ensures v in s.nodes && [SENTINEL] <= s.nodes[v].log
    {
      assert NodeFits(s.nodes[v], s.hist.canon);
    }
  }

  /** Whatever a node regards as committed is, from then on, in the logs of a majority of the cluster. */
  lemma CommittedOnMajority(run: Run, ids: set<NodeId>, i: nat, j: nat, n: NodeId) returns (q: set<NodeId>)
    requires RunOf(run, ids) && GuardedRun(run) && i <= j < |run.states| && n in run.states[i].nodes
    ensures IsMajority(q, ids) && HeldBy(run.states[j].nodes, q, Committed(run.states[i].nodes[n]))
  {
    CommittedBacked(run, ids, i, j, n);
    ReachedGuarded(run, ids, j);
    var s := run.states[j];
    AllHeld(s, ids);
    q := BackedIsHeld(s.nodes, s.hist.commits, s.hist.canon, ids,
                      Committed(run.states[i].nodes[n]), run.states[i].nodes[n].currentTerm);
  }

  /** No request announces a commit index beyond the entries it reaches: the whole rest of the log is shipped. */
  lemma RequestsReachCommit(run: Run, ids: set<NodeId>, i: nat, m: AppendMsg)
    requires RunOf(run, ids) && GuardedRun(run) && i < |run.states| && m in run.states[i].net.appends
    ensures m.req.leaderCommit <= m.req.prevLogIndex + |m.req.entries|
  {
    CommitsReached(run, ids, i);
    assert RequestBacked(m.req, run.states[i].hist.commits, run.states[i].hist.canon);
  }

  // ---- state machine safety ----

  /** The entry is on the node's apply channel or was handed to its state machine. */
  ghost predicate Reaches(s: Cluster, n: NodeId, e: Entry) {
    n in s.nodes && (e in s.nodes[n].applyQueue || e in s.nodes[n].applied)
  }

  lemma ReachesBacked(run: Run, ids: set<NodeId>, i: nat, j: nat, n: NodeId, e: Entry)
    requires RunOf(run, ids) && GuardedRun(run) && i < |run.states| && j < |run.states| && Reaches(run.states[i], n, e)
    ensures EntryBacked(e, run.states[Later(i, j)].hist.commits, run.states[Later(i, j)].hist.canon)
  {
    var h, h' := run.states[i].hist, run.states[Later(i, j)].hist;
    ReachedGuarded(run, ids, i);
    BothKept(run, ids, i, j);
    assert (n, e) in h.queued;
    EntryGrows((n, e).1, h.commits, h'.commits, h.canon, h'.canon);
  }

  lemma BackedEntriesAgree(e: Entry, f: Entry, commits: Commits, canon: Canon)
    requires EntryBacked(e, commits, canon) && EntryBacked(f, commits, canon) && CommitsCarried(commits, canon)
    requires e.index == f.index
    ensures e == f
  {
    var c :| c in commits && EntryBackedBy(e, c, canon);
    var d :| d in commits && EntryBackedBy(f, d, canon);
    var u := if c.term <= d.term then d.term else c.term;
    assert canon[c.term][..c.index + 1] <= canon[u];
    assert canon[d.term][..d.index + 1] <= canon[u];
  }

  /** No two nodes ever queue or apply different entries for one index, however often an index is queued. */
  lemma StateMachineSafety(run: Run, ids: set<NodeId>, i: nat, j: nat, a: NodeId, b: NodeId, e: Entry, f: Entry)
    requires RunOf(run, ids) && GuardedRun(run) && i < |run.states| && j < |run.states|
    requires Reaches(run.states[i], a, e) && Reaches(run.states[j], b, f) && e.index == f.index
    ensures e == f
  {
    ReachesBacked(run, ids, i, j, a, e);
    ReachesBacked(run, ids, j, i, b, f);
    ReachedCarries(run, ids, Later(i, j));
    BackedEntriesAgree(e, f, run.states[Later(i, j)].hist.commits, run.states[Later(i, j)].hist.canon);
  }
}
