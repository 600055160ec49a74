/**
 The handlers of a node as methods that update its fields. Each method ends in
 the state that `RaftNode` computes from the state before it.
 */
module RaftServer {
  import opened Common
  import opened RaftTypes
  import Spec = RaftNode

  function CountTrue(replies: seq<bool>): nat {
    if replies == [] then 0 else CountTrue(replies[..|replies| - 1]) + if replies[|replies| - 1] then 1 else 0
  }

  /** `after` is `before` with every key of `keys` set to `v`. */
  ghost predicate Overlaid(before: map<NodeId, nat>, keys: set<NodeId>, v: nat, after: map<NodeId, nat>) {
    && after.Keys == before.Keys + keys
    && forall p :: p in after ==> after[p] == if p in keys then v else before[p]
  }

  lemma OverlaidAll(before: map<NodeId, nat>, keys: set<NodeId>, v: nat, after: map<NodeId, nat>)
    requires Overlaid(before, keys, v, after)
    ensures after == before + Fill(keys, v)
  {
  }

  lemma OverlaidOne(before: map<NodeId, nat>, keys: set<NodeId>, v: nat, after: map<NodeId, nat>, p: NodeId)
    requires Overlaid(before, keys, v, after)
    ensures Overlaid(before, keys + {p}, v, after[p := v])
  {
  }

  class Server {
    const id: NodeId
    const peers: set<NodeId>

    var currentTerm: nat
    var votedFor: NodeId
    var log: Log

    var role: Role
    var commitIndex: nat
    var lastApplied: nat

    var nextIndex: map<NodeId, nat>
    var matchIndex: map<NodeId, nat>

    var leaderId: NodeId
    var applyQueue: seq<Entry>
    var inHand: Option<Entry>
    var applied: seq<Entry>

    /** The fields as one value. */
    ghost function View(): Spec.Node
      reads this
    {
      Spec.Node(id, peers, currentTerm, votedFor, log, role, commitIndex, lastApplied,
                nextIndex, matchIndex, leaderId, applyQueue, inHand, applied)
    }

    constructor (id: NodeId, peers: set<NodeId>)
      ensures View() == Spec.NewNode(id, peers)
    {
      this.id := id;
      this.peers := peers;
      currentTerm, votedFor, log := 0, Spec.NOBODY, [SENTINEL];
      role, commitIndex, lastApplied := Follower, 0, 0;
      nextIndex, matchIndex := map[], map[];
      leaderId, applyQueue, inHand, applied := Spec.NOBODY, [], None, [];
    }

    method StepDown(term: nat)
      modifies this`currentTerm, this`role, this`votedFor
      ensures View() == Spec.StepDown(old(View()), term)
    {
      currentTerm := term;
      role := Follower;
      votedFor := Spec.NOBODY;
    }

    method BeginElection() returns (req: VoteRequest)
      modifies this
      ensures (View(), req) == Spec.BeginElection(old(View()))
    {
      role := Candidate;
      currentTerm := currentTerm + 1;
      votedFor := id;
      req := VoteRequest(currentTerm, id, LastIndex(log), LastTerm(log));
    }

    method HandleVoteReply(resp: VoteResponse) returns (counted: bool)
      modifies this
      ensures (View(), counted) == Spec.HandleVoteReply(old(View()), resp)
    {
      if resp.term > currentTerm {
        StepDown(resp.term);
        return false;
      }
      return resp.granted;
    }

    /** Every peer starts over: next index after the last entry, match index zero. */
    method ResetProgress()
      modifies this`nextIndex, this`matchIndex
      ensures nextIndex == old(nextIndex) + Fill(peers, LastIndex(log) + 1)
      ensures matchIndex == old(matchIndex) + Fill(peers, 0)
    {
      var lastLogIndex := LastIndex(log);
      var rest := peers;
      ghost var done: set<NodeId> := {};
      while rest != {}
        invariant done + rest == peers && done !! rest
        invariant Overlaid(old(nextIndex), done, lastLogIndex + 1, nextIndex)
        invariant Overlaid(old(matchIndex), done, 0, matchIndex)
        decreases rest
      {
        var p :| p in rest;
        OverlaidOne(old(nextIndex), done, lastLogIndex + 1, nextIndex, p);
        OverlaidOne(old(matchIndex), done, 0, matchIndex, p);
        nextIndex := nextIndex[p := lastLogIndex + 1];
        matchIndex := matchIndex[p := 0];
        rest, done := rest - {p}, done + {p};
      }
      OverlaidAll(old(nextIndex), peers, lastLogIndex + 1, nextIndex);
      OverlaidAll(old(matchIndex), peers, 0, matchIndex);
    }

    method BecomeLeader()
      modifies this
      ensures View() == Spec.BecomeLeader(old(View()))
    {
      role := Leader;
      leaderId := id;
      ResetProgress();
    }

    /** The end of an election: the answers that came back are counted, then the outcome is settled. */
    method FinishElection(electionTerm: nat, replies: seq<bool>)
      modifies this
      ensures View() == Spec.FinishElection(old(View()), electionTerm, 1 + CountTrue(replies))
    {
      var votes := 1;
      for i := 0 to |replies|
        invariant votes == 1 + CountTrue(replies[..i])
        invariant View() == old(View())
      {
        assert replies[..i + 1][..i] == replies[..i];
        if replies[i] {
          votes := votes + 1;
        }
      }
      assert replies[..|replies|] == replies;
      if role != Candidate || currentTerm != electionTerm {
        return;
      }
      var majority := (|peers| + 1) / 2 + 1;
      if votes >= majority {
        BecomeLeader();
      }
    }

    method HandleRequestVote(req: VoteRequest) returns (resp: VoteResponse)
      modifies this
      ensures (View(), resp) == Spec.HandleRequestVote(old(View()), req)
    {
      resp := VoteResponse(currentTerm, false);
      if req.term > currentTerm {
        StepDown(req.term);
      }
      if req.term < currentTerm {
        return;
      }
      if votedFor != Spec.NOBODY && votedFor != req.candidate {
        return;
      }
      if UpToDate(req.lastLogTerm, req.lastLogIndex, log) {
        votedFor := req.candidate;
        resp := resp.(granted := true);
      }
    }

    method Propose(cmd: Command) returns (ok: bool)
      modifies this`log
      ensures (View(), ok) == Spec.Propose(old(View()), cmd)
    {
      if role != Leader {
        return false;
      }
      log := log + [Entry(LastIndex(log) + 1, currentTerm, Some(cmd))];
      return true;
    }

    /** The first locked section of a heartbeat; nothing is sent unless the node leads. */
    method Announce() returns (term: nat, commit: nat, leads: bool)
      ensures term == currentTerm && commit == commitIndex && (leads <==> role == Leader)
    {
      return currentTerm, commitIndex, role == Leader;
    }

    /** The second one, with what the first one read. */
    method Snapshot(peer: NodeId, term: nat, commit: nat) returns (req: AppendRequest)
      ensures req == Spec.Snapshot(View(), peer, term, commit)
    {
      var next := Get(nextIndex, peer);
      var prevLogIndex := if next == 0 then Spec.MAX_UINT64 else next - 1;
      var entries := [];
      if next <= LastIndex(log) {
        entries := log[next..];
      }
      req := AppendRequest(term, id, prevLogIndex, TermAt(log, prevLogIndex), entries, commit);
    }

    /** The commit loops: entries above `lastApplied` are offered to the apply channel one by one. */
    method OfferCommitted()
      requires commitIndex < |log|
      modifies this`applyQueue
      ensures View() == old(View()).(applyQueue :=
                          Spec.Offer(old(applyQueue), Spec.Pending(log, lastApplied, commitIndex)))
    {
      ghost var span := Spec.Pending(log, lastApplied, commitIndex);
      var i := lastApplied + 1;
      while i <= commitIndex
        invariant lastApplied + 1 <= i
        invariant lastApplied < commitIndex ==> i <= commitIndex + 1
        invariant lastApplied < commitIndex ==> applyQueue == Spec.Offer(old(applyQueue), span[..i - lastApplied - 1])
        invariant lastApplied >= commitIndex ==> applyQueue == old(applyQueue)
      {
        assert span[..i - lastApplied] == span[..i - lastApplied - 1] + [log[i]];
        if |applyQueue| < Spec.QUEUE_CAPACITY {
          applyQueue := applyQueue + [log[i]];
        }
        i := i + 1;
      }
      if lastApplied < commitIndex {
        assert span[..i - lastApplied - 1] == span;
      }
    }

    /** One node and the peers whose match index reaches `index`. */
    method CountReplicas(index: nat) returns (count: nat)
      ensures count == 1 + |Spec.Holders(matchIndex, index)|
    {
      count := 1;
      var rest := matchIndex.Keys;
      ghost var seen: set<NodeId> := {};
      while rest != {}
        invariant rest <= matchIndex.Keys && seen == matchIndex.Keys - rest
        invariant count == 1 + |set p | p in seen && matchIndex[p] >= index|
        decreases rest
      {
        var p :| p in rest;
        ghost var before := set q | q in seen && matchIndex[q] >= index;
        ghost var after := set q | q in seen + {p} && matchIndex[q] >= index;
        assert after == if matchIndex[p] >= index then before + {p} else before;
        if matchIndex[p] >= index {
          count := count + 1;
        }
        seen := seen + {p};
        rest := rest - {p};
      }
      assert Spec.Holders(matchIndex, index) == set p | p in seen && matchIndex[p] >= index;
    }

    method UpdateCommitIndex()
      modifies this`commitIndex, this`applyQueue
      ensures View() == Spec.UpdateCommitIndex(old(View()))
    {
      var n: nat := LastIndex(log);
      while n > commitIndex
        invariant n < |log| && View() == old(View())
        invariant Spec.ScanCommit(View(), LastIndex(log)) == Spec.ScanCommit(View(), n)
      {
        if log[n].term == currentTerm {
          var count := CountReplicas(n);
          var majority := (|peers| + 1) / 2 + 1;
          if count >= majority {
            commitIndex := n;
            OfferCommitted();
            return;
          }
        }
        n := n - 1;
      }
    }

    method HandleAppendReply(peer: NodeId, req: AppendRequest, resp: AppendResponse)
      modifies this
      ensures View() == Spec.HandleAppendReply(old(View()), peer, req, resp)
    {
      if resp.term > currentTerm {
        StepDown(resp.term);
        return;
      }
      if resp.success {
        if |req.entries| > 0 {
          var last := req.entries[|req.entries| - 1].index;
          nextIndex := nextIndex[peer := last + 1];
          matchIndex := matchIndex[peer := last];
          UpdateCommitIndex();
        }
      } else {
        if resp.conflictIndex > 0 {
          nextIndex := nextIndex[peer := resp.conflictIndex];
        } else if Get(nextIndex, peer) > 1 {
          nextIndex := nextIndex[peer := nextIndex[peer] - 1];
        }
      }
    }

    /** Walking back over the entries of the conflicting term. */
    method FindConflict(prev: nat, term: nat) returns (conflictIndex: nat)
      requires 0 < prev < |log|
      ensures conflictIndex == Spec.ScanConflict(log, prev - 1, term)
    {
      conflictIndex := 0;
      var i := prev - 1;
      while i > 0
        invariant i < prev
        invariant Spec.ScanConflict(log, prev - 1, term) == Spec.ScanConflict(log, i, term)
      {
        if log[i].term != term {
          return i + 1;
        }
        i := i - 1;
      }
    }

    /** The append loop: skip what is there, cut at a disagreement, append the rest. */
    method AppendEntries(prev: nat, entries: seq<Entry>)
      requires prev < |log|
      modifies this`log
      ensures log == Spec.Merge(old(log), prev, entries)
    {
      ghost var shared := Spec.Shared(log, prev, entries, 0);
      ghost var rest := entries[shared..];
      for i := 0 to |entries|
        invariant i <= shared ==> log == old(log)
        invariant i > shared ==> log == old(log)[..prev + 1 + shared] + rest[..i - shared]
      {
        var index := prev + i + 1;
        assert i >= shared ==> rest[..i + 1 - shared] == rest[..i - shared] + [entries[i]];
        if index < |log| {
          if log[index].term != entries[i].term {
            log := log[..index];
            log := log + [entries[i]];
          }
        } else {
          log := log + [entries[i]];
        }
      }
      assert rest[..|rest|] == rest;
    }

    /** A request that fits: take its entries and its commit index. */
    method Accept(req: AppendRequest)
      requires Spec.Consistent(log, req)
      modifies this`log, this`commitIndex, this`applyQueue
      ensures View() == Spec.Accept(old(View()), req)
    {
      AppendEntries(req.prevLogIndex, req.entries);
      ghost var merged := old(View()).(log := Spec.Merge(old(log), req.prevLogIndex, req.entries));
      assert View() == merged;
      if req.leaderCommit > commitIndex {
        var lastNewIndex := req.prevLogIndex + |req.entries|;
        if req.leaderCommit < lastNewIndex {
          commitIndex := req.leaderCommit;
        } else {
          commitIndex := lastNewIndex;
        }
        assert View() == merged.(commitIndex := commitIndex);
        OfferCommitted();
      }
    }

    method HandleAppendEntries(req: AppendRequest) returns (resp: AppendResponse)
      modifies this
      ensures (View(), resp) == Spec.HandleAppendEntries(old(View()), req)
    {
      resp := AppendResponse(currentTerm, false, 0, 0);
      if req.term < currentTerm {
        return;
      }
      if req.term > currentTerm {
        StepDown(req.term);
      }
      leaderId := req.leader;
      if req.prevLogIndex > 0 {
        if req.prevLogIndex >= |log| {
          resp := resp.(conflictIndex := |log|);
          return;
        }
        if log[req.prevLogIndex].term != req.prevLogTerm {
          resp := resp.(conflictTerm := log[req.prevLogIndex].term);
          var conflictIndex := FindConflict(req.prevLogIndex, resp.conflictTerm);
          resp := resp.(conflictIndex := conflictIndex);
          return;
        }
      }
      Accept(req);
      resp := resp.(success := true);
    }

    /** The apply loop takes no lock while it applies, so what it took is accounted for only later. */
    method ApplyTurn()
      modifies this`applyQueue, this`inHand, this`applied, this`lastApplied
      ensures View() == Spec.ApplyTurn(old(View()))
    {
      if inHand.Some? {
        lastApplied := inHand.value.index;
        inHand := None;
        return;
      }
      if |applyQueue| == 0 {
        return;
      }
      var entry := applyQueue[0];
      applyQueue := applyQueue[1..];
      inHand := Some(entry);
      if entry.command.Some? {
        applied := applied + [entry];
      }
    }
  }
}
