/**
 From commit to state machine. What a rising commit index puts on the apply
 channel, entry by entry, and what reaches the state machine over whole runs.
 */
module RaftHandoff {
  import opened Common
  import opened RaftTypes
  import opened RaftNode
  import opened RaftCluster
  import opened RaftElection
  import opened RaftLog
  import opened RaftAcks
  import opened RaftCommit
  import opened RaftSafety

  // ---- one call ----

  /**
   The channel goes on with entries `from + 1` to `upTo` of the log, in that order,
   as far as its thousand places last.
   */
  ghost predicate HandedOver(queue: seq<Entry>, queue': seq<Entry>, log: Log, from: nat, upTo: nat) {
    && upTo < |log| && queue <= queue'
    && |queue'| == (if upTo <= from || |queue| >= 1000 then |queue|
                    else if |queue| + upTo - from <= 1000 then |queue| + upTo - from else 1000)
    && forall k :: |queue| <= k < |queue'| ==> queue'[k] == log[from + 1 + k - |queue|]
  }

  /** All that a handler may do on the way to the state machine: commit, and hand over what is not accounted for. */
  ghost predicate HandsOver(nd: Node, nd': Node) {
    && nd'.lastApplied == nd.lastApplied && nd'.inHand == nd.inHand && nd'.applied == nd.applied
    && (|| (nd'.commitIndex == nd.commitIndex && nd'.applyQueue == nd.applyQueue)
        || HandedOver(nd.applyQueue, nd'.applyQueue, nd'.log, nd.lastApplied, nd'.commitIndex))
  }

  lemma OfferHandsOver(queue: seq<Entry>, log: Log, from: nat, upTo: nat)
    requires upTo < |log|
    ensures HandedOver(queue, Offer(queue, Pending(log, from, upTo)), log, from, upTo)
  {
  }

  /** A leader that counts a reply. */
  lemma ReplyHandsOver(nd: Node, peer: NodeId, req: AppendRequest, resp: AppendResponse)
    ensures HandsOver(nd, HandleAppendReply(nd, peer, req, resp))
  {
    ReplyMoves(nd, peer, req, resp);
    if Counts(nd, req, resp) {
      var nd1 := Recorded(nd, peer, LastShipped(req));
      var commit := UpdateCommitIndex(nd1).commitIndex;
      CommitScanned(nd1);
      if commit != nd.commitIndex {
        OfferHandsOver(nd.applyQueue, nd.log, nd.lastApplied, commit);
      }
    }
  }

  /**
   A node that handles a request: when it takes the entries and the request
   announces more, the commit index becomes the announced one, or the last entry the
   request reaches, and everything up to there that is not accounted for is handed over.
   */
  lemma AppendHandsOver(nd: Node, req: AppendRequest)
    ensures var (nd', resp) := HandleAppendEntries(nd, req);
            && HandsOver(nd, nd')
            && (if resp.success && req.leaderCommit > nd.commitIndex
                then && nd'.commitIndex == (if req.leaderCommit < req.prevLogIndex + |req.entries| then req.leaderCommit
                                            else req.prevLogIndex + |req.entries|)
                     && HandedOver(nd.applyQueue, nd'.applyQueue, nd'.log, nd.lastApplied, nd'.commitIndex)
                else nd'.commitIndex == nd.commitIndex && nd'.applyQueue == nd.applyQueue)
  {
    AppendHasAcceptShape(nd, req);
    var (nd', resp) := HandleAppendEntries(nd, req);
    if resp.success && req.leaderCommit > nd.commitIndex {
      OfferHandsOver(nd.applyQueue, nd'.log, nd.lastApplied, nd'.commitIndex);
    }
  }

  // ---- what waits or was taken ----

  function Commands(es: seq<Entry>): (r: seq<Entry>)
    ensures forall e :: e in r <==> e in es && e.command.Some?
  {
    if es == [] then []
    else Commands(es[..|es| - 1]) + if es[|es| - 1].command.Some? then [es[|es| - 1]] else []
  }

  /** The commands handed to the state machine, then those that wait for it. */
  function Stream(nd: Node): seq<Entry> {
    nd.applied + Commands(nd.applyQueue)
  }

  lemma {:induction false} CommandsAppend(a: seq<Entry>, b: seq<Entry>)
    ensures Commands(a + b) == Commands(a) + Commands(b)
  {
    if b == [] {
      assert a + b == a;
    } else {
      assert (a + b)[..|a + b| - 1] == a + b[..|b| - 1];
      CommandsAppend(a, b[..|b| - 1]);
    }
  }

  /** The apply loop moves commands on and neither loses, repeats nor swaps any. */
  lemma ApplyKeepsStream(nd: Node)
    ensures Stream(ApplyTurn(nd)) == Stream(nd)
  {
    if nd.inHand.None? && nd.applyQueue != [] {
      var e, rest := nd.applyQueue[0], nd.applyQueue[1..];
      assert nd.applyQueue == [e] + rest;
      CommandsAppend([e], rest);
      OneCommand(e);
      Regroup(nd.applied, Commands([e]), Commands(rest));
    }
  }

  /** No command comes before a command of a lower index has come at least once. */
  ghost predicate InOrder(s: seq<Entry>, log: Log, commit: nat)
    requires commit < |log|
  {
    forall p :: 0 <= p < |s| ==>
      1 <= s[p].index <= commit && s[p] == log[s[p].index] && AllBefore(s[..p], log, s[p].index)
  }

  /** Every command below the index is there. */
  ghost predicate AllBefore(s: seq<Entry>, log: Log, index: nat)
    requires index <= |log|
  {
    forall i :: 1 <= i < index && log[i].command.Some? ==> log[i] in s
  }

  lemma PushOne(s: seq<Entry>, log: Log, commit: nat, e: Entry)
    requires commit < |log| && InOrder(s, log, commit)
    requires 1 <= e.index <= commit && e == log[e.index] && AllBefore(s, log, e.index)
    ensures InOrder(s + [e], log, commit)
  {
    forall p | 0 <= p < |s + [e]|
      ensures AllBefore((s + [e])[..p], log, (s + [e])[p].index)
    {
      assert (s + [e])[..p] == s[..p];
      assert p == |s| ==> s[..p] == s;
    }
  }

  /** Handing over the entries after `from`, one after the other. */
  lemma {:induction false} PushSpan(s: seq<Entry>, log: Log, commit: nat, from: nat, upTo: nat)
    requires from <= upTo <= commit < |log| && LogOk(log)
    requires InOrder(s, log, commit) && AllBefore(s, log, from + 1)
    ensures InOrder(s + Commands(log[from + 1..upTo + 1]), log, commit)
    ensures AllBefore(s + Commands(log[from + 1..upTo + 1]), log, upTo + 1)
  {
    if from == upTo {
      assert log[from + 1..upTo + 1] == [] && s + [] == s;
    } else {
      var front, e := log[from + 1..upTo], log[upTo];
      PushSpan(s, log, commit, from, upTo - 1);
      assert log[from + 1..upTo + 1] == front + [e];
      CommandsAppend(front, [e]);
      PushLast(s + Commands(front), log, commit, upTo);
      Regroup(s, Commands(front), Commands([e]));
    }
  }

  lemma PushLast(s: seq<Entry>, log: Log, commit: nat, upTo: nat)
    requires 1 <= upTo <= commit < |log| && LogOk(log) && InOrder(s, log, commit) && AllBefore(s, log, upTo)
    ensures InOrder(s + Commands([log[upTo]]), log, commit)
    ensures AllBefore(s + Commands([log[upTo]]), log, upTo + 1)
  {
    var e := log[upTo];
    OneCommand(e);
    if e.command.Some? {
      PushOne(s, log, commit, e);
    } else {
      assert s + [] == s;
    }
  }

  lemma OneCommand(e: Entry)
    ensures Commands([e]) == if e.command.Some? then [e] else []
  {
    assert [e][..0] == [];
  }

  lemma Regroup(a: seq<Entry>, b: seq<Entry>, c: seq<Entry>)
    ensures a + b + c == a + (b + c)
  {
  }

  // ---- one node over a run ----

  type Queued = set<(NodeId, Entry)>

  ghost predicate Committed(e: Entry, nd: Node)
    requires nd.commitIndex < |nd.log|
  {
    1 <= e.index <= nd.commitIndex && e == nd.log[e.index]
  }

  /** Everything committed was queued, everything queued is or was waiting, and commands come in order. */
  ghost predicate Served(nd: Node, n: NodeId, queued: Queued) {
    && nd.commitIndex < |nd.log| && nd.lastApplied <= nd.commitIndex
    && (nd.inHand.Some? ==> Committed(nd.inHand.value, nd))
    && (forall e :: e in nd.applyQueue ==> Committed(e, nd))
    && (forall i :: 1 <= i <= nd.commitIndex ==> (n, nd.log[i]) in queued)
    && (forall e :: (n, e) in queued && e.command.Some? ==> e in Stream(nd))
    && InOrder(Stream(nd), nd.log, nd.commitIndex)
  }

  /** What becomes committed fits the channel. */
  ghost predicate Fits1000(nd: Node, nd': Node) {
    nd'.commitIndex > nd.commitIndex ==> |nd.applyQueue| + nd'.commitIndex - nd.lastApplied <= 1000
  }

  ghost predicate QueuedBy(n: NodeId, nd': Node, queued: Queued, queued': Queued) {
    && queued <= queued' && (forall e :: e in nd'.applyQueue ==> (n, e) in queued')
    && (forall e :: (n, e) in queued' ==> (n, e) in queued || e in nd'.applyQueue)
  }

  lemma InOrderStays(s: seq<Entry>, log: Log, commit: nat, log': Log, commit': nat)
    requires commit < |log| && commit <= commit' < |log'| && log[..commit + 1] <= log' && InOrder(s, log, commit)
    ensures InOrder(s, log', commit')
  {
    SamePrefixes(log, commit, log');
    forall p | 0 <= p < |s|
      ensures AllBefore(s[..p], log', s[p].index)
    {
      assert AllBefore(s[..p], log, s[p].index);
    }
  }

  lemma SamePrefixes(log: Log, commit: nat, log': Log)
    requires commit < |log| && log[..commit + 1] <= log'
    ensures forall i :: 0 <= i <= commit ==> log'[i] == log[i]
  {
    forall i | 0 <= i <= commit
      ensures log'[i] == log[i]
    {
      assert log[..commit + 1][i] == log'[i];
    }
  }

  /** Handing over keeps the stream in order, and brings everything that becomes committed. */
  lemma OverInOrder(nd: Node, nd': Node, n: NodeId, queued: Queued, s: seq<Entry>)
    requires Served(nd, n, queued) && CommittedStays(nd, nd') && LogOk(nd'.log) && s == Stream(nd)
    ensures InOrder(s, nd'.log, nd'.commitIndex) && AllBefore(s, nd'.log, nd.commitIndex + 1)
  {
    SamePrefixes(nd.log, nd.commitIndex, nd'.log);
    InOrderStays(s, nd.log, nd.commitIndex, nd'.log, nd'.commitIndex);
  }

  /** What was handed over is a slice of the log, a whole one if it fits. */
  lemma QueueIs(nd: Node, nd': Node, taken: nat)
    requires HandedOver(nd.applyQueue, nd'.applyQueue, nd'.log, nd.lastApplied, nd'.commitIndex)
    requires nd.lastApplied <= nd'.commitIndex && taken == nd.lastApplied + |nd'.applyQueue| - |nd.applyQueue|
    ensures taken <= nd'.commitIndex
    ensures nd'.applyQueue == nd.applyQueue + nd'.log[nd.lastApplied + 1..taken + 1]
    ensures |nd.applyQueue| + nd'.commitIndex - nd.lastApplied <= 1000 ==> taken == nd'.commitIndex
  {
  }

  lemma StreamGoesOn(nd: Node, nd': Node, span: seq<Entry>)
    requires nd'.applied == nd.applied && nd'.applyQueue == nd.applyQueue + span
    ensures Stream(nd') == Stream(nd) + Commands(span)
  {
    CommandsAppend(nd.applyQueue, span);
    Regroup(nd.applied, Commands(nd.applyQueue), Commands(span));
  }

  /** The queue holds entries that are committed, before and after. */
  lemma QueueCommitted(nd: Node, nd': Node, n: NodeId, queued: Queued, taken: nat)
    requires Served(nd, n, queued) && CommittedStays(nd, nd') && LogOk(nd'.log)
    requires nd.lastApplied <= taken <= nd'.commitIndex
    requires nd'.applyQueue == nd.applyQueue + nd'.log[nd.lastApplied + 1..taken + 1]
    ensures forall e :: e in nd'.applyQueue ==> Committed(e, nd')
  {
    SamePrefixes(nd.log, nd.commitIndex, nd'.log);
  }

  lemma QueuedInStream(nd: Node, nd': Node, n: NodeId, queued: Queued, queued': Queued)
    requires Served(nd, n, queued) && QueuedBy(n, nd', queued, queued') && Stream(nd) <= Stream(nd')
    ensures forall e :: (n, e) in queued' && e.command.Some? ==> e in Stream(nd')
  {
  }

  lemma CommittedQueued(nd: Node, nd': Node, n: NodeId, queued: Queued, queued': Queued, taken: nat)
    requires Served(nd, n, queued) && CommittedStays(nd, nd') && QueuedBy(n, nd', queued, queued')
    requires nd.lastApplied <= taken <= nd'.commitIndex
    requires nd'.applyQueue == nd.applyQueue + nd'.log[nd.lastApplied + 1..taken + 1]
    requires nd'.commitIndex > nd.commitIndex ==> taken == nd'.commitIndex
    ensures forall i :: 1 <= i <= nd'.commitIndex ==> (n, nd'.log[i]) in queued'
  {
    var span := nd'.log[nd.lastApplied + 1..taken + 1];
    SamePrefixes(nd.log, nd.commitIndex, nd'.log);
    forall i | 1 <= i <= nd'.commitIndex
      ensures (n, nd'.log[i]) in queued'
    {
      if i > nd.commitIndex {
        assert span[i - nd.lastApplied - 1] == nd'.log[i];
      } else {
        assert (n, nd.log[i]) in queued;
      }
    }
  }

  /** Handing over what fits the channel. */
  lemma HandingInOrder(nd: Node, nd': Node, n: NodeId, queued: Queued, taken: nat)
    requires Served(nd, n, queued) && CommittedStays(nd, nd') && LogOk(nd'.log)
    requires nd.lastApplied <= taken <= nd'.commitIndex && nd'.applied == nd.applied
    requires nd'.applyQueue == nd.applyQueue + nd'.log[nd.lastApplied + 1..taken + 1]
    ensures Stream(nd) <= Stream(nd') && InOrder(Stream(nd'), nd'.log, nd'.commitIndex)
  {
    StreamGoesOn(nd, nd', nd'.log[nd.lastApplied + 1..taken + 1]);
    OverInOrder(nd, nd', n, queued, Stream(nd));
    PushSpan(Stream(nd), nd'.log, nd'.commitIndex, nd.lastApplied, taken);
  }

  lemma InHandCommitted(nd: Node, nd': Node)
    requires nd.commitIndex < |nd.log| && CommittedStays(nd, nd') && nd'.inHand == nd.inHand
    requires nd.inHand.Some? ==> Committed(nd.inHand.value, nd)
    ensures nd'.inHand.Some? ==> Committed(nd'.inHand.value, nd')
  {
    SamePrefixes(nd.log, nd.commitIndex, nd'.log);
  }

  /** A handler that hands over what becomes committed keeps the node served. */
  lemma HandingServes(nd: Node, nd': Node, n: NodeId, queued: Queued, queued': Queued)
    requires Served(nd, n, queued) && CommittedStays(nd, nd') && LogOk(nd'.log) && QueuedBy(n, nd', queued, queued')
    requires HandsOver(nd, nd') && Fits1000(nd, nd')
    ensures Served(nd', n, queued')
  {
    var taken := nd.lastApplied + |nd'.applyQueue| - |nd.applyQueue|;
    if HandedOver(nd.applyQueue, nd'.applyQueue, nd'.log, nd.lastApplied, nd'.commitIndex) {
      QueueIs(nd, nd', taken);
    } else {
      assert nd'.applyQueue == nd.applyQueue + nd'.log[nd.lastApplied + 1..taken + 1];
    }
    InHandCommitted(nd, nd');
    QueueCommitted(nd, nd', n, queued, taken);
    CommittedQueued(nd, nd', n, queued, queued', taken);
    HandingInOrder(nd, nd', n, queued, taken);
    QueuedInStream(nd, nd', n, queued, queued');
  }

  /** The apply loop keeps the node served. */
  lemma ApplyServes(nd: Node, n: NodeId, queued: Queued, queued': Queued)
    requires Served(nd, n, queued) && QueuedBy(n, ApplyTurn(nd), queued, queued')
    ensures Served(ApplyTurn(nd), n, queued')
  {
    ApplyKeepsStream(nd);
    ApplyCommitted(nd);
    QueuedInStream(nd, ApplyTurn(nd), n, queued, queued');
  }

  lemma ApplyCommitted(nd: Node)
    requires nd.commitIndex < |nd.log| && nd.lastApplied <= nd.commitIndex
    requires nd.inHand.Some? ==> Committed(nd.inHand.value, nd)
    requires forall e :: e in nd.applyQueue ==> Committed(e, nd)
    ensures var nd' := ApplyTurn(nd);
            && nd'.commitIndex == nd.commitIndex && nd'.log == nd.log && nd'.lastApplied <= nd'.commitIndex
            && (nd'.inHand.Some? ==> Committed(nd'.inHand.value, nd'))
            && forall e :: e in nd'.applyQueue ==> Committed(e, nd')
  {
    if nd.applyQueue != [] {
      assert nd.applyQueue[0] in nd.applyQueue;
      assert forall e :: e in nd.applyQueue[1..] ==> e in nd.applyQueue;
    }
  }

  // ---- the cluster over a run ----

  ghost predicate AllServed(s: Cluster) {
    forall n :: n in s.nodes ==> Served(s.nodes[n], n, s.hist.queued)
  }

  /** In every step the channel of the node that moves has room for what becomes committed. */
  ghost predicate Roomy(run: Run) {
    && |run.states| == |run.steps| + 1
    && forall k :: 0 <= k < |run.steps| ==> RoomyStep(run.states[k], run.states[k + 1])
  }

  ghost predicate RoomyStep(s: Cluster, s': Cluster) {
    forall n :: n in s.nodes && n in s'.nodes ==> Fits1000(s.nodes[n], s'.nodes[n])
  }

  lemma HandlersHandOver(nd: Node)
    ensures HandsOver(nd, BeginElection(nd).0) && HandsOver(nd, BecomeLeader(nd)) && HandsOver(nd, nd)
    ensures forall req :: HandsOver(nd, HandleRequestVote(nd, req).0)
    ensures forall resp :: HandsOver(nd, HandleVoteReply(nd, resp).0)
    ensures forall cmd :: HandsOver(nd, Propose(nd, cmd).0)
  {
  }

  /** Every step but one of the apply loop is such a handler, on the node it moves. */
  lemma MoverHandsOver(s: Cluster, step: Step)
    requires Enabled(s, step) && !step.ApplyNext?
    ensures Mover(step) in s.nodes && Mover(step) in Next(s, step).nodes
    ensures HandsOver(s.nodes[Mover(step)], Next(s, step).nodes[Mover(step)])
  {
    if step.DeliverAppendReply? {
      var r := step.appendReply;
      ReplyHandsOver(s.nodes[r.req.leader], r.from, r.req, r.resp);
    } else if step.DeliverAppend? {
      AppendHandsOver(s.nodes[step.msg.to], step.msg.req);
    } else {
      HandlersHandOver(s.nodes[Mover(step)]);
    }
  }

  /** The history remembers what the moved node's channel holds, and nothing else. */
  lemma QueuedGrows(s: Cluster, step: Step)
    requires Enabled(s, step) && !step.Heartbeat?
    ensures Mover(step) in Next(s, step).nodes
    ensures Next(s, step).hist.queued
         == s.hist.queued + On(Mover(step), Next(s, step).nodes[Mover(step)].applyQueue)
  {
  }

  /** Nothing is forgotten, and what the moved node's channel holds is remembered, for that node only. */
  lemma QueuedByMover(s: Cluster, step: Step, n: NodeId, s': Cluster)
    requires Enabled(s, step) && !step.Heartbeat? && s' == Next(s, step) && n == Mover(step)
    ensures n in s'.nodes && QueuedBy(n, s'.nodes[n], s.hist.queued, s'.hist.queued)
    ensures forall v, e :: v != n ==> ((v, e) in s'.hist.queued <==> (v, e) in s.hist.queued)
  {
    QueuedGrows(s, step);
  }

  /** Nobody else is concerned. */
  lemma RestServed(nd: Node, v: NodeId, queued: Queued, queued': Queued)
    requires Served(nd, v, queued) && forall e :: (v, e) in queued' <==> (v, e) in queued
    ensures Served(nd, v, queued')
  {
  }

  lemma MoverServed(s: Cluster, ids: set<NodeId>, step: Step, n: NodeId, s': Cluster)
    requires Enabled(s, step) && !step.Heartbeat? && s' == Next(s, step) && n == Mover(step)
    requires n in s.nodes && n in s'.nodes && Served(s.nodes[n], n, s.hist.queued)
    requires CommittedStays(s.nodes[n], s'.nodes[n]) && LogOk(s'.nodes[n].log) && Fits1000(s.nodes[n], s'.nodes[n])
    ensures Served(s'.nodes[n], n, s'.hist.queued)
  {
    QueuedByMover(s, step, n, s');
    if step.ApplyNext? {
      ApplyServes(s.nodes[n], n, s.hist.queued, s'.hist.queued);
    } else {
      MoverHandsOver(s, step);
      HandingServes(s.nodes[n], s'.nodes[n], n, s.hist.queued, s'.hist.queued);
    }
  }

  lemma OthersServed(s: Cluster, step: Step, n: NodeId, s': Cluster)
    requires Enabled(s, step) && !step.Heartbeat? && s' == Next(s, step) && n == Mover(step) && AllServed(s)
    ensures forall v :: v in s'.nodes && v != n ==> Served(s'.nodes[v], v, s'.hist.queued)
  {
    QueuedByMover(s, step, n, s');
    forall v | v in s'.nodes && v != n
      ensures Served(s'.nodes[v], v, s'.hist.queued)
    {
      NotNew(s, step, v);
      OthersRest(s, step, v);
      RestServed(s.nodes[v], v, s.hist.queued, s'.hist.queued);
    }
  }

  lemma NotNew(s: Cluster, step: Step, v: NodeId)
    requires Enabled(s, step) && v in Next(s, step).nodes
    ensures v in s.nodes
  {
  }

  lemma StepServes(s: Cluster, ids: set<NodeId>, step: Step, s': Cluster)
    requires Enabled(s, step) && s' == Next(s, step) && AllServed(s) && RoomyStep(s, s')
    requires Safe(s, ids) && LogsSafe(s', ids)
    ensures AllServed(s')
  {
    if step.Heartbeat? {
      NothingServed(s, s');
    } else {
      MoverFacts(s, ids, step, Mover(step), s');
      EveryoneServed(s, ids, step, Mover(step), s');
    }
  }

  lemma NothingServed(s: Cluster, s': Cluster)
    requires AllServed(s) && s'.nodes == s.nodes && s'.hist == s.hist
    ensures AllServed(s')
  {
  }

  lemma EveryoneServed(s: Cluster, ids: set<NodeId>, step: Step, n: NodeId, s': Cluster)
    requires Enabled(s, step) && !step.Heartbeat? && s' == Next(s, step) && n == Mover(step)
    requires AllServed(s) && RoomyStep(s, s') && n in s.nodes && n in s'.nodes
    requires CommittedStays(s.nodes[n], s'.nodes[n]) && LogOk(s'.nodes[n].log)
    ensures AllServed(s')
  {
    MoverServed(s, ids, step, n, s');
    OthersServed(s, step, n, s');
  }

  lemma MoverFacts(s: Cluster, ids: set<NodeId>, step: Step, n: NodeId, s': Cluster)
    requires Enabled(s, step) && s' == Next(s, step) && n == Mover(step) && Safe(s, ids) && LogsSafe(s', ids)
    ensures n in s.nodes && n in s'.nodes && CommittedStays(s.nodes[n], s'.nodes[n]) && LogOk(s'.nodes[n].log)
  {
    MoverIsThere(s, step);
    StepKeepsCommitted(s, ids, step, n);
    LogIsOk(s', ids, n);
  }

  lemma MoverIsThere(s: Cluster, step: Step)
    requires Enabled(s, step)
    ensures Mover(step) in s.nodes
  {
  }

  lemma LogIsOk(s: Cluster, ids: set<NodeId>, n: NodeId)
    requires LogsSafe(s, ids) && n in s.nodes
    ensures LogOk(s.nodes[n].log)
  {
    assert NodeFits(s.nodes[n], s.hist.canon);
  }

  lemma InitServed(ids: set<NodeId>)
    ensures AllServed(Init(ids))
  {
  }

  lemma ServedNext(run: Run, ids: set<NodeId>, i: nat, s: Cluster, s': Cluster)
    requires RunOf(run, ids) && GuardedRun(run) && Roomy(run) && 0 < i < |run.states|
    requires s == run.states[i - 1] && s' == run.states[i] && AllServed(s)
    ensures AllServed(s')
  {
    GuardedAs(run, ids, i - 1, s);
    ReachedAs(run, ids, i, s');
    FollowsAt(run, ids, i, s, s');
    assert RoomyStep(run.states[i - 1], run.states[i - 1 + 1]);
    StepServes(s, ids, run.steps[i - 1], s');
  }

  lemma GuardedAs(run: Run, ids: set<NodeId>, i: nat, s: Cluster)
    requires RunOf(run, ids) && GuardedRun(run) && i < |run.states| && s == run.states[i]
    ensures Safe(s, ids)
  {
    ReachedGuarded(run, ids, i);
  }

  lemma {:induction false} ReachedServed(run: Run, ids: set<NodeId>, i: nat)
    requires RunOf(run, ids) && GuardedRun(run) && Roomy(run) && i < |run.states|
    ensures AllServed(run.states[i])
  {
    if i == 0 {
      InitServed(ids);
    } else {
      ReachedServed(run, ids, i - 1);
      ServedNext(run, ids, i, run.states[i - 1], run.states[i]);
    }
  }

  // ---- what the state machine gets ----

  /** Everything that a node regards as committed has been on its apply channel. */
  lemma CommittedIsQueued(run: Run, ids: set<NodeId>, i: nat, n: NodeId, k: nat)
    requires RunOf(run, ids) && GuardedRun(run) && Roomy(run) && i < |run.states| && n in run.states[i].nodes
    requires 1 <= k <= run.states[i].nodes[n].commitIndex
    ensures k < |run.states[i].nodes[n].log|
    ensures (n, run.states[i].nodes[n].log[k]) in run.states[i].hist.queued
  {
    ReachedServed(run, ids, i);
    assert Served(run.states[i].nodes[n], n, run.states[i].hist.queued);
  }

  /**
   The state machine gets only committed commands, each at its index, and none
   before all committed commands of lower indices. A command may come again.
   */
  lemma AppliedInOrder(run: Run, ids: set<NodeId>, i: nat, n: NodeId, p: nat)
    requires RunOf(run, ids) && GuardedRun(run) && Roomy(run) && i < |run.states| && n in run.states[i].nodes
    requires p < |run.states[i].nodes[n].applied|
    ensures var nd := run.states[i].nodes[n];
            var e := nd.applied[p];
            && 1 <= e.index <= nd.commitIndex < |nd.log| && nd.log[e.index] == e
            && forall k :: 1 <= k < e.index && nd.log[k].command.Some? ==> nd.log[k] in nd.applied[..p]
  {
    var nd := run.states[i].nodes[n];
    ReachedServed(run, ids, i);
    assert Served(nd, n, run.states[i].hist.queued);
    assert Stream(nd)[p] == nd.applied[p] && Stream(nd)[..p] == nd.applied[..p];
  }

  /** Once its channel is empty, a node's state machine has got every committed command. */
  lemma DrainedHasAll(run: Run, ids: set<NodeId>, i: nat, n: NodeId, k: nat)
    requires RunOf(run, ids) && GuardedRun(run) && Roomy(run) && i < |run.states| && n in run.states[i].nodes
    requires run.states[i].nodes[n].applyQueue == [] && 1 <= k <= run.states[i].nodes[n].commitIndex
    ensures var nd := run.states[i].nodes[n];
            k < |nd.log| && (nd.log[k].command.Some? ==> nd.log[k] in nd.applied)
  {
    var nd := run.states[i].nodes[n];
    ReachedServed(run, ids, i);
    CommittedIsQueued(run, ids, i, n, k);
    assert Served(nd, n, run.states[i].hist.queued);
    assert Stream(nd) == nd.applied;
  }

  /** A turn of the apply loop takes the first entry of the channel; the channel empties one entry at a time. */
  lemma ApplyTurnTakes(nd: Node)
    ensures var nd' := ApplyTurn(nd);
            if nd.inHand.Some? then
              nd'.inHand == None && nd'.lastApplied == nd.inHand.value.index
              && nd'.applyQueue == nd.applyQueue && nd'.applied == nd.applied
            else if |nd.applyQueue| > 0 then
              && [nd'.inHand.value] + nd'.applyQueue == nd.applyQueue && nd'.lastApplied == nd.lastApplied
              && nd'.inHand.Some? && nd.applied <= nd'.applied
              && (nd.applyQueue[0].command.Some? ==> nd'.applied == nd.applied + [nd.applyQueue[0]])
            else nd' == nd
  {
  }
}
