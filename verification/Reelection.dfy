/** Losing data nodes: replicas are marked, and a chunk whose primary is lost gets a new one if it can. */
module Reelection {
  import opened Replicas
  import Placement

  // ---- one chunk ----

  function Marked(rs: seq<Replica>, node: string): (m: seq<Replica>)
    ensures |m| == |rs|
  {
    seq(|rs|, i requires 0 <= i < |rs| => if rs[i].node == node then rs[i].(status := Offline) else rs[i])
  }

  predicate LosesPrimary(rs: seq<Replica>, node: string) {
    exists i :: 0 <= i < |rs| && rs[i].node == node && rs[i].role == Primary
  }

  predicate Eligible(r: Replica) {
    r.status == Healthy && r.role == Secondary && r.version > -1
  }

  /** The candidate among the first n replicas: the first with the highest version; -1 when there is none. */
  function Best(rs: seq<Replica>, n: nat): (b: int)
    requires n <= |rs|
    ensures -1 <= b < n
    ensures b >= 0 ==> Eligible(rs[b])
    ensures forall i :: 0 <= i < n && Eligible(rs[i]) ==> b >= 0 && rs[i].version <= rs[b].version
    ensures forall i :: 0 <= i < b && Eligible(rs[i]) ==> rs[i].version < rs[b].version
  {
    if n == 0 then -1
    else
      var b := Best(rs, n - 1);
      if Eligible(rs[n - 1]) && (b < 0 || rs[n - 1].version > rs[b].version) then n - 1 else b
  }

  function Promoted(rs: seq<Replica>, best: nat): (r: seq<Replica>)
    requires best < |rs|
    ensures |r| == |rs|
  {
    seq(|rs|, i requires 0 <= i < |rs| => rs[i].(role := if i == best then Primary else Secondary))
  }

  /** What losing a node does to a chunk. */
  function AfterLoss(rs: seq<Replica>, node: string): (r: seq<Replica>)
    ensures |r| == |rs|
  {
    var m := Marked(rs, node);
    if LosesPrimary(rs, node) && Best(m, |m|) >= 0 then Promoted(m, Best(m, |m|)) else m
  }

  ghost predicate PrimaryAt(rs: seq<Replica>, p: nat) {
    p < |rs| && forall i :: 0 <= i < |rs| ==> (rs[i].role == Primary <==> i == p)
  }

  /** Exactly replica p is primary, and it is healthy if any replica is. */
  ghost predicate LedBy(rs: seq<Replica>, p: nat) {
    PrimaryAt(rs, p) && forall i :: 0 <= i < |rs| && rs[i].status == Healthy ==> rs[p].status == Healthy
  }

  ghost predicate Versioned(rs: seq<Replica>) {
    forall i :: 0 <= i < |rs| ==> rs[i].version >= 0
  }

  ghost predicate WellLed(rs: seq<Replica>) {
    Versioned(rs) && exists p: nat :: LedBy(rs, p)
  }

  lemma OnlyPrimary(rs: seq<Replica>, p: nat)
    requires PrimaryAt(rs, p)
    ensures forall q: nat :: PrimaryAt(rs, q) ==> q == p
  {
    forall q: nat | PrimaryAt(rs, q)
      ensures q == p
    {
      assert rs[q].role == Primary;
    }
  }

  /** With the primary's node lost, the candidates are the healthy replicas on other nodes. */
  lemma Candidates(rs: seq<Replica>, node: string, p: nat)
    requires Versioned(rs) && PrimaryAt(rs, p) && rs[p].node == node
    ensures forall i :: 0 <= i < |rs| ==>
              (Eligible(Marked(rs, node)[i]) <==> rs[i].node != node && rs[i].status == Healthy)
    ensures LosesPrimary(rs, node)
  {
  }

  /** A loss takes exactly the replicas on that node offline; nodes, versions and times stay. */
  lemma LossMarks(rs: seq<Replica>, node: string)
    ensures forall i :: 0 <= i < |rs| ==>
              var r := AfterLoss(rs, node)[i];
              && r.status == (if rs[i].node == node then Offline else rs[i].status)
              && r.node == rs[i].node && r.version == rs[i].version && r.updated == rs[i].updated
  {
  }

  /** A chunk whose primary is spared keeps it, with the other replicas of the node marked. */
  lemma PrimarySpared(rs: seq<Replica>, node: string, p: nat)
    requires PrimaryAt(rs, p) && rs[p].node != node
    ensures AfterLoss(rs, node) == Marked(rs, node) && PrimaryAt(AfterLoss(rs, node), p)
  {
  }

  /** A loss keeps a chunk well led. */
  lemma LossKeepsLed(rs: seq<Replica>, node: string)
    requires WellLed(rs)
    ensures WellLed(AfterLoss(rs, node))
  {
    var m, r := Marked(rs, node), AfterLoss(rs, node);
    var p: nat :| LedBy(rs, p);
    var b := Best(m, |m|);
    if rs[p].node != node {
      PrimarySpared(rs, node, p);
      assert LedBy(r, p);
    } else {
      Candidates(rs, node, p);
      assert LedBy(r, if b >= 0 then b else p);
    }
  }

  /**
   A chunk gets a new primary exactly when its primary was on the lost node and
   a healthy replica is left elsewhere; the new one has the highest version among those.
   */
  lemma NewPrimary(rs: seq<Replica>, node: string, p: nat, q: nat)
    requires Versioned(rs) && PrimaryAt(rs, p) && PrimaryAt(AfterLoss(rs, node), q)
    ensures q != p <==>
            rs[p].node == node && exists i :: 0 <= i < |rs| && rs[i].node != node && rs[i].status == Healthy
    ensures q != p ==>
              && rs[q].node != node && rs[q].status == Healthy
              && forall i :: 0 <= i < |rs| && rs[i].node != node && rs[i].status == Healthy ==>
                   rs[i].version <= rs[q].version
  {
    var m := Marked(rs, node);
    var b := Best(m, |m|);
    OnlyPrimary(AfterLoss(rs, node), q);
    if rs[p].node != node {
      PrimarySpared(rs, node, p);
    } else {
      Candidates(rs, node, p);
      assert PrimaryAt(AfterLoss(rs, node), if b >= 0 then b else p);
    }
  }

  // ---- whole runs ----

  function AfterLosses(rs: seq<Replica>, nodes: seq<string>): (r: seq<Replica>)
    ensures |r| == |rs|
  {
    if nodes == [] then rs else AfterLoss(AfterLosses(rs, nodes[..|nodes| - 1]), nodes[|nodes| - 1])
  }

  /** A chunk as it is allocated: every replica healthy, the first one primary. */
  ghost predicate Allocated(rs: seq<Replica>) {
    && PrimaryAt(rs, 0)
    && forall i :: 0 <= i < |rs| ==> rs[i].status == Healthy && rs[i].version >= 0
  }

  /** Over any sequence of node losses there is exactly one primary, healthy while any replica is. */
  lemma {:induction false} AlwaysLed(rs: seq<Replica>, nodes: seq<string>)
    requires Allocated(rs)
    ensures WellLed(AfterLosses(rs, nodes))
  {
    if nodes == [] {
      assert LedBy(rs, 0);
    } else {
      AlwaysLed(rs, nodes[..|nodes| - 1]);
      LossKeepsLed(AfterLosses(rs, nodes[..|nodes| - 1]), nodes[|nodes| - 1]);
    }
  }

  /** Every chunk that the master allocates, on any nodes, stays led through any losses. */
  lemma AllocatedChunksStayLed(file: string, available: seq<string>, replicaCount: nat, fileSize: nat, i: nat,
                               now: int, nodes: seq<string>)
    requires 1 <= replicaCount <= |available|
    ensures WellLed(AfterLosses(Placement.ChunkOf(file, available, replicaCount, fileSize, i, now).replicas, nodes))
  {
    var rs := Placement.ChunkOf(file, available, replicaCount, fileSize, i, now).replicas;
    assert PrimaryAt(rs, 0);
    AlwaysLed(rs, nodes);
  }

  // ---- the table of chunks ----

  /** What happens to the table between two unlockings: a chunk is allocated, or loses a node. */
  datatype TableStep = Allocate(id: string, replicas: seq<Replica>) | Lose(id: string, node: string)

  function TableAfter(chunks: map<string, seq<Replica>>, steps: seq<TableStep>): map<string, seq<Replica>> {
    if steps == [] then chunks
    else
      var before := TableAfter(chunks, steps[..|steps| - 1]);
      match steps[|steps| - 1]
      case Allocate(id, rs) => before[id := rs]
      case Lose(id, node) => if id in before then before[id := AfterLoss(before[id], node)] else before
  }

  /** The losses of several nodes may be handled chunk by chunk in any order, with allocations in between. */
  lemma {:induction false} InterleavedStayLed(chunks: map<string, seq<Replica>>, steps: seq<TableStep>)
    requires forall id :: id in chunks ==> WellLed(chunks[id])
    requires forall i :: 0 <= i < |steps| && steps[i].Allocate? ==> Allocated(steps[i].replicas)
    ensures forall id :: id in TableAfter(chunks, steps) ==> WellLed(TableAfter(chunks, steps)[id])
  {
    if steps != [] {
      var before, last := TableAfter(chunks, steps[..|steps| - 1]), steps[|steps| - 1];
      InterleavedStayLed(chunks, steps[..|steps| - 1]);
      if last.Allocate? {
        AlwaysLed(last.replicas, []);
      } else if last.id in before {
        LossKeepsLed(before[last.id], last.node);
      }
    }
  }

  lemma Unaffected(rs: seq<Replica>, node: string)
    requires forall i :: 0 <= i < |rs| ==> rs[i].node != node
    ensures AfterLoss(rs, node) == rs
  {
  }

  // ---- the replica manager ----

  /** The chunks of `done` have lost the node, the others are as before. */
  ghost predicate Handled(before: map<string, seq<Replica>>, done: set<string>, node: string,
                          after: map<string, seq<Replica>>) {
    && after.Keys == before.Keys
    && forall id :: id in after ==> after[id] == if id in done then AfterLoss(before[id], node) else before[id]
  }

  class ReplicaManager {
    var chunks: map<string, seq<Replica>>

    constructor (chunks: map<string, seq<Replica>>)
      ensures this.chunks == chunks
    {
      this.chunks := chunks;
    }

    method FindChunksOnNode(node: string) returns (ids: seq<string>)
      ensures forall i, j :: 0 <= i < j < |ids| ==> ids[i] != ids[j]
      ensures forall id :: id in ids <==>
                id in chunks && exists i :: 0 <= i < |chunks[id]| && chunks[id][i].node == node
    {
      ids := [];
      var rest := chunks.Keys;
      while rest != {}
        invariant rest <= chunks.Keys
        invariant forall i, j :: 0 <= i < j < |ids| ==> ids[i] != ids[j]
        invariant forall id :: id in ids <==>
                    id in chunks.Keys - rest && exists i :: 0 <= i < |chunks[id]| && chunks[id][i].node == node
        decreases rest
      {
        var id :| id in rest;
        rest := rest - {id};
        for i := 0 to |chunks[id]|
          invariant forall k :: 0 <= k < i ==> chunks[id][k].node != node
        {
          if chunks[id][i].node == node {
            ids := ids + [id];
            break;
          }
        }
      }
    }

    method FindBest(rs: seq<Replica>) returns (bestCandidate: int)
      ensures bestCandidate == Best(rs, |rs|)
    {
      var highestVersion := -1;
      bestCandidate := -1;
      for i := 0 to |rs|
        invariant bestCandidate == Best(rs, i)
        invariant highestVersion == if bestCandidate >= 0 then rs[bestCandidate].version else -1
      {
        if rs[i].status == Healthy && rs[i].role == Secondary && rs[i].version > highestVersion {
          highestVersion := rs[i].version;
          bestCandidate := i;
        }
      }
    }

    method ElectNewPrimary(rs: seq<Replica>) returns (r: seq<Replica>)
      ensures r == if Best(rs, |rs|) >= 0 then Promoted(rs, Best(rs, |rs|)) else rs
    {
      var bestCandidate := FindBest(rs);
      r := rs;
      if bestCandidate >= 0 {
        for i := 0 to |rs|
          invariant |r| == |rs|
          invariant forall k :: 0 <= k < |rs| ==> r[k] == if k < i then rs[k].(role := Secondary) else rs[k]
        {
          if r[i].role == Primary {
            r := r[i := r[i].(role := Secondary)];
          }
        }
        r := r[bestCandidate := r[bestCandidate].(role := Primary)];
      }
    }

    method HandleChunkRecovery(id: string, node: string)
      modifies this
      ensures chunks == if id in old(chunks) then old(chunks)[id := AfterLoss(old(chunks)[id], node)] else old(chunks)
    {
      if id !in chunks {
        return;
      }
      var was, rs, needElection := chunks[id], chunks[id], false;
      for i := 0 to |was|
        invariant |rs| == |was|
        invariant forall k :: 0 <= k < |was| ==> rs[k] == if k < i then Marked(was, node)[k] else was[k]
        invariant needElection <==> exists k :: 0 <= k < i && was[k].node == node && was[k].role == Primary
      {
        if was[i].node == node {
          rs := rs[i := rs[i].(status := Offline)];
          if was[i].role == Primary {
            needElection := true;
          }
        }
      }
      assert rs == Marked(was, node);
      if needElection {
        rs := ElectNewPrimary(rs);
      }
      chunks := chunks[id := rs];
    }

    /** Every chunk is as losing the node leaves it. */
    method HandleNodeOffline(node: string)
      modifies this
      ensures chunks.Keys == old(chunks).Keys
      ensures forall id :: id in chunks ==> chunks[id] == AfterLoss(old(chunks)[id], node)
    {
      var affected := FindChunksOnNode(node);
      ghost var done: set<string> := {};
      for i := 0 to |affected|
        invariant done == set j | 0 <= j < i :: affected[j]
        invariant Handled(old(chunks), done, node, chunks)
      {
        HandleChunkRecovery(affected[i], node);
        done := done + {affected[i]};
      }
      forall id | id in chunks && id !in done
        ensures AfterLoss(old(chunks)[id], node) == old(chunks)[id]
      {
        assert id !in affected;
        Unaffected(old(chunks)[id], node);
      }
    }
  }
}
