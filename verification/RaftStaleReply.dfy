/**
 Why commits need the reply premise. A concrete run of five nodes in which one
 reply, sent in term 1, is consumed by the same leader in term 3: an entry is
 committed that a majority does not hold, and a later leader does not have it.
 */
module RaftStaleReply {
  import opened Common
  import opened RaftTypes
  import opened RaftNode
  import opened RaftCluster
  import opened RaftElection
  import opened RaftLog
  import opened RaftAcks
  import opened RaftCommit
  import opened RaftSafety

  // ---- building a run step by step ----

  /** Every step but those in `late` meets the reply premise. */
  ghost predicate TimelyBut(run: Run, late: set<nat>) {
    && |run.states| == |run.steps| + 1
    && forall k :: 0 <= k < |run.steps| && k !in late ==> Timely(run.states[k], run.steps[k])
  }

  /** The run so far: a run of the cluster, timely but for the late steps. */
  ghost predicate SoFar(run: Run, ids: set<NodeId>, late: set<nat>) {
    RunOf(run, ids) && TimelyBut(run, late)
  }

  lemma Extend(run: Run, ids: set<NodeId>, late: set<nat>, step: Step) returns (next: Run)
    requires SoFar(run, ids, late) && Enabled(Last(run), step)
    requires |run.steps| in late || Timely(Last(run), step)
    ensures SoFar(next, ids, late) && run.states <= next.states && |next.steps| == |run.steps| + 1
    ensures Last(next) == Next(Last(run), step)
  {
    next := Run(run.states + [Next(Last(run), step)], run.steps + [step]);
    forall k | 0 <= k < |next.steps|
      ensures Follows(next, k)
    {
      assert k < |run.steps| ==> Follows(run, k);
    }
  }

  // ---- elections ----

  function Voter(nd: Node, t: nat, c: NodeId): Node {
    nd.(currentTerm := t, role := Follower, votedFor := c)
  }

  function Runner(nd: Node): Node {
    nd.(currentTerm := nd.currentTerm + 1, role := Candidate, votedFor := nd.id)
  }

  function Request(nd: Node): VoteRequest {
    VoteRequest(nd.currentTerm + 1, nd.id, LastIndex(nd.log), LastTerm(nd.log))
  }

  /** Nothing has happened to replication traffic. */
  predicate SameTraffic(s: Cluster, t: Cluster) {
    t.net.appends == s.net.appends && t.net.appendReplies == s.net.appendReplies
  }

  lemma Runs(run: Run, ids: set<NodeId>, late: set<nat>, c: NodeId) returns (next: Run)
    requires SoFar(run, ids, late) && c in Last(run).nodes && Last(run).nodes[c].id == c
    ensures SoFar(next, ids, late) && run.states <= next.states && |next.steps| == |run.steps| + 1
    ensures var (s, t) := (Last(run), Last(next));
            && t.nodes == s.nodes[c := Runner(s.nodes[c])] && SameTraffic(s, t)
            && Request(s.nodes[c]) in t.net.voteReqs
            && t.rounds == s.rounds[(c, s.nodes[c].currentTerm + 1) := {}]
  {
    next := Extend(run, ids, late, Timeout(c));
  }

  lemma GrantsVote(run: Run, ids: set<NodeId>, late: set<nat>, v: NodeId, req: VoteRequest) returns (next: Run)
    requires SoFar(run, ids, late) && v in Last(run).nodes && v != req.candidate && req in Last(run).net.voteReqs
    requires Last(run).nodes[v].currentTerm < req.term
    requires UpToDate(req.lastLogTerm, req.lastLogIndex, Last(run).nodes[v].log)
    ensures SoFar(next, ids, late) && run.states <= next.states && |next.steps| == |run.steps| + 1
    ensures var (s, t) := (Last(run), Last(next));
            && t.nodes == s.nodes[v := Voter(s.nodes[v], req.term, req.candidate)] && SameTraffic(s, t)
            && t.rounds == s.rounds && s.net.voteReqs <= t.net.voteReqs
            && t.net.voteReplies
               == s.net.voteReplies + {VoteReply(v, req, VoteResponse(s.nodes[v].currentTerm, true))}
  {
    next := Extend(run, ids, late, DeliverVoteRequest(v, req));
  }

  lemma CountsVote(run: Run, ids: set<NodeId>, late: set<nat>, r: VoteReply) returns (next: Run)
    requires SoFar(run, ids, late) && r in Last(run).net.voteReplies && r.req.candidate in Last(run).nodes
    requires r.resp.granted && r.resp.term <= Last(run).nodes[r.req.candidate].currentTerm
    requires (r.req.candidate, r.req.term) in Last(run).rounds
    ensures SoFar(next, ids, late) && run.states <= next.states && |next.steps| == |run.steps| + 1
    ensures var (s, t, k) := (Last(run), Last(next), (r.req.candidate, r.req.term));
            && t.nodes == s.nodes && SameTraffic(s, t) && t.net == s.net
            && t.rounds == s.rounds[k := s.rounds[k] + {r.voter}]
  {
    next := Extend(run, ids, late, DeliverVoteReply(r));
  }

  lemma Wins(run: Run, ids: set<NodeId>, late: set<nat>, c: NodeId, t: nat) returns (next: Run)
    requires SoFar(run, ids, late) && c in Last(run).nodes && (c, t) in Last(run).rounds
    requires WinsElection(Last(run).nodes[c], t, 1 + |Last(run).rounds[(c, t)]|)
    ensures SoFar(next, ids, late) && run.states <= next.states && |next.steps| == |run.steps| + 1
    ensures Last(next).nodes == Last(run).nodes[c := BecomeLeader(Last(run).nodes[c])]
    ensures SameTraffic(Last(run), Last(next))
  {
    next := Extend(run, ids, late, CloseElection(c, t));
  }

  function Vote(s: Cluster, v: NodeId, req: VoteRequest): VoteReply
    requires v in s.nodes
  {
    VoteReply(v, req, VoteResponse(s.nodes[v].currentTerm, true))
  }

  /** Both nodes may vote for the log of c in its next term. */
  predicate MayElect(s: Cluster, c: NodeId, v: NodeId) {
    && c in s.nodes && v in s.nodes && c != v && s.nodes[c].id == c && s.nodes[v].currentTerm <= s.nodes[c].currentTerm
    && UpToDate(LastTerm(s.nodes[c].log), LastIndex(s.nodes[c].log), s.nodes[v].log)
  }

  lemma Polled(run: Run, ids: set<NodeId>, late: set<nat>, c: NodeId, v: NodeId, w: NodeId) returns (next: Run)
    requires SoFar(run, ids, late) && MayElect(Last(run), c, v) && MayElect(Last(run), c, w) && v != w
    ensures SoFar(next, ids, late) && run.states <= next.states && |next.steps| == |run.steps| + 3
    ensures var (s, t) := (Last(run), Last(next));
            var term := s.nodes[c].currentTerm + 1;
            && t.nodes == s.nodes[c := Runner(s.nodes[c])][
                            v := Voter(s.nodes[v], term, c)][w := Voter(s.nodes[w], term, c)]
            && SameTraffic(s, t) && (c, term) in t.rounds && t.rounds[(c, term)] == {}
            && Vote(s, v, Request(s.nodes[c])) in t.net.voteReplies
            && Vote(s, w, Request(s.nodes[c])) in t.net.voteReplies
  {
    var req := Request(Last(run).nodes[c]);
    var r1 := Runs(run, ids, late, c);
    var r2 := GrantsVote(r1, ids, late, v, req);
    next := GrantsVote(r2, ids, late, w, req);
  }

  /** Node c runs, v and w vote for it, and with three of five votes it leads. */
  lemma Elected(run: Run, ids: set<NodeId>, late: set<nat>, c: NodeId, v: NodeId, w: NodeId) returns (next: Run)
    requires SoFar(run, ids, late) && MayElect(Last(run), c, v) && MayElect(Last(run), c, w) && v != w
    requires |Last(run).nodes[c].peers| == 4
    ensures SoFar(next, ids, late) && run.states <= next.states && |next.steps| == |run.steps| + 6
    ensures var (s, t) := (Last(run), Last(next));
            var term := s.nodes[c].currentTerm + 1;
            && t.nodes == s.nodes[c := BecomeLeader(Runner(s.nodes[c]))][v := Voter(s.nodes[v], term, c)]
                                 [w := Voter(s.nodes[w], term, c)]
            && SameTraffic(s, t)
  {
    var s := Last(run);
    var req := Request(s.nodes[c]);
    var r3 := Polled(run, ids, late, c, v, w);
    var r4 := CountsVote(r3, ids, late, Vote(s, v, req));
    var r5 := CountsVote(r4, ids, late, Vote(s, w, req));
    assert Last(r5).rounds[(c, req.term)] == {v, w};
    next := Wins(r5, ids, late, c, req.term);
    assert Last(next).nodes == Last(r3).nodes[c := BecomeLeader(Runner(s.nodes[c]))];
  }

  // ---- replication ----

  lemma Submits(run: Run, ids: set<NodeId>, late: set<nat>, n: NodeId, cmd: Command) returns (next: Run)
    requires SoFar(run, ids, late) && n in Last(run).nodes && Last(run).nodes[n].role == Leader
    ensures SoFar(next, ids, late) && run.states <= next.states && |next.steps| == |run.steps| + 1
    ensures var (s, t) := (Last(run), Last(next));
            && t.nodes == s.nodes[n := s.nodes[n].(log := s.nodes[n].log
                                      + [Entry(|s.nodes[n].log|, s.nodes[n].currentTerm, Some(cmd))])]
            && SameTraffic(s, t)
  {
    next := Extend(run, ids, late, Submit(n, cmd));
  }

  /** Leader l sends to f, and f handles the request; the answer is on its way. */
  lemma Replicates(run: Run, ids: set<NodeId>, late: set<nat>, l: NodeId, f: NodeId) returns (next: Run)
    requires SoFar(run, ids, late) && l in Last(run).nodes && f in Last(run).nodes && l != f
    requires Last(run).nodes[l].role == Leader && f in Last(run).nodes[l].peers
    ensures SoFar(next, ids, late) && run.states <= next.states && |next.steps| == |run.steps| + 2
    ensures var (s, t) := (Last(run), Last(next));
            var req := Latest(s.nodes[l], f);
            && t.nodes == s.nodes[f := HandleAppendEntries(s.nodes[f], req).0]
            && t.net.appendReplies
               == s.net.appendReplies + {AppendReply(f, req, HandleAppendEntries(s.nodes[f], req).1)}
  {
    var m := AppendMsg(f, Latest(Last(run).nodes[l], f));
    var r1 := Extend(run, ids, late, Heartbeat(l, f, Last(run).nodes[l].commitIndex));
    next := Extend(r1, ids, late, DeliverAppend(m));
  }

  lemma Answers(run: Run, ids: set<NodeId>, late: set<nat>, r: AppendReply) returns (next: Run)
    requires SoFar(run, ids, late) && r in Last(run).net.appendReplies && r.req.leader in Last(run).nodes
    requires |run.steps| in late || Timely(Last(run), DeliverAppendReply(r))
    ensures SoFar(next, ids, late) && run.states <= next.states && |next.steps| == |run.steps| + 1
    ensures var (s, t) := (Last(run), Last(next));
            && t.nodes == s.nodes[r.req.leader := HandleAppendReply(s.nodes[r.req.leader], r.from, r.req, r.resp)]
            && SameTraffic(s, t)
  {
    next := Extend(run, ids, late, DeliverAppendReply(r));
  }

  // ---- the run ----

  const A := NodeId("a")
  const B := NodeId("b")
  const C := NodeId("c")
  const D := NodeId("d")
  const E := NodeId("e")
  const IDS := {A, B, C, D, E}
  const CMD := Command("create_file", "f", "v", 0)

  function Written(index: nat, term: nat): Entry {
    Entry(index, term, Some(CMD))
  }

  /** What matters of a node between the stages of the run. */
  predicate Shows(s: Cluster, n: NodeId, term: nat, log: Log) {
    && n in s.nodes && s.nodes[n].id == n && s.nodes[n].peers == IDS - {n} && s.nodes[n].commitIndex == 0
    && s.nodes[n].currentTerm == term && s.nodes[n].log == log && s.nodes[n].lastApplied == 0
    && s.nodes[n].applyQueue == []
  }

  lemma FourPeers(n: NodeId)
    requires n in IDS
    ensures |IDS - {n}| == 4
  {
    assert |IDS| == 5;
    assert IDS == (IDS - {n}) + {n};
  }

  /** The answer that will come late: b took two entries of term 1 from a. */
  function LateReply(): AppendReply {
    AppendReply(B, AppendRequest(1, A, 0, 0, [Written(1, 1), Written(2, 1)], 0), AppendResponse(1, true, 0, 0))
  }

  /** Term 1: a leads with the votes of b and c, writes two entries, and b takes them. */
  lemma TermOne(late: set<nat>) returns (run: Run)
    ensures SoFar(run, IDS, late) && LateReply() in Last(run).net.appendReplies && |run.steps| == 10
    ensures Shows(Last(run), A, 1, [SENTINEL, Written(1, 1), Written(2, 1)])
    ensures Shows(Last(run), B, 1, [SENTINEL, Written(1, 1), Written(2, 1)])
    ensures Shows(Last(run), C, 1, [SENTINEL])
    ensures Shows(Last(run), D, 0, [SENTINEL]) && Shows(Last(run), E, 0, [SENTINEL])
    ensures Last(run).nodes[A].matchIndex.Keys <= IDS - {A}
  {
    var r0 := Run([Init(IDS)], []);
    FourPeers(A);
    var r1 := Elected(r0, IDS, late, A, B, C);
    var r2 := Submits(r1, IDS, late, A, CMD);
    var r3 := Submits(r2, IDS, late, A, CMD);
    var a, b := Last(r3).nodes[A], Last(r3).nodes[B];
    assert a.log[1..] == [Written(1, 1), Written(2, 1)];
    assert Latest(a, B) == LateReply().req;
    run := Replicates(r3, IDS, late, A, B);
  }

  /** A node whose log disagrees at index 1 gives up both its entries. */
  lemma Overwrites(a: Node)
    requires a.log == [SENTINEL, Written(1, 1), Written(2, 1)] && a.currentTerm == 1
    ensures var b := HandleAppendEntries(a, AppendRequest(2, C, 0, 0, [Written(1, 2)], 0)).0;
            b == a.(currentTerm := 2, role := Follower, votedFor := NOBODY, leaderId := C,
                    log := [SENTINEL, Written(1, 2)])
  {
    assert Merge(a.log, 0, [Written(1, 2)]) == [SENTINEL, Written(1, 2)];
  }

  lemma SendsOne(c: Node)
    requires c.log == [SENTINEL] + [Written(1, 2)] && c.currentTerm == 2 && c.id == C && c.commitIndex == 0
    requires A in c.nextIndex && c.nextIndex[A] == 1
    ensures Latest(c, A) == AppendRequest(2, C, 0, 0, [Written(1, 2)], 0)
  {
    assert c.log[1..] == [Written(1, 2)];
  }

  /** Term 2: c leads with the votes of d and e and writes one entry. */
  lemma CLeads(run: Run, late: set<nat>) returns (next: Run)
    requires SoFar(run, IDS, late)
    requires Shows(Last(run), A, 1, [SENTINEL, Written(1, 1), Written(2, 1)])
    requires Shows(Last(run), B, 1, [SENTINEL, Written(1, 1), Written(2, 1)])
    requires Shows(Last(run), C, 1, [SENTINEL])
    requires Shows(Last(run), D, 0, [SENTINEL]) && Shows(Last(run), E, 0, [SENTINEL])
    ensures SoFar(next, IDS, late) && |next.steps| == |run.steps| + 7 && SameTraffic(Last(run), Last(next))
    ensures A in Last(next).nodes && B in Last(next).nodes
    ensures Last(next).nodes[A] == Last(run).nodes[A] && Last(next).nodes[B] == Last(run).nodes[B]
    ensures Shows(Last(next), C, 2, [SENTINEL] + [Written(1, 2)]) && Last(next).nodes[C].role == Leader
    ensures A in Last(next).nodes[C].nextIndex && Last(next).nodes[C].nextIndex[A] == 1
    ensures Shows(Last(next), D, 2, [SENTINEL]) && Shows(Last(next), E, 2, [SENTINEL])
  {
    FourPeers(C);
    var r1 := Elected(run, IDS, late, C, D, E);
    next := Submits(r1, IDS, late, C, CMD);
  }

  /** The entry of term 2 overwrites the log of a. */
  lemma TermTwo(run: Run, late: set<nat>) returns (next: Run)
    requires SoFar(run, IDS, late) && LateReply() in Last(run).net.appendReplies && |run.steps| == 10
    requires Shows(Last(run), A, 1, [SENTINEL, Written(1, 1), Written(2, 1)])
    requires Shows(Last(run), B, 1, [SENTINEL, Written(1, 1), Written(2, 1)])
    requires Shows(Last(run), C, 1, [SENTINEL])
    requires Shows(Last(run), D, 0, [SENTINEL]) && Shows(Last(run), E, 0, [SENTINEL])
    requires Last(run).nodes[A].matchIndex.Keys <= IDS - {A}
    ensures SoFar(next, IDS, late) && LateReply() in Last(next).net.appendReplies && |next.steps| == 19
    ensures Shows(Last(next), A, 2, [SENTINEL, Written(1, 2)]) && Shows(Last(next), C, 2, [SENTINEL, Written(1, 2)])
    ensures Shows(Last(next), B, 1, [SENTINEL, Written(1, 1), Written(2, 1)])
    ensures Shows(Last(next), D, 2, [SENTINEL]) && Shows(Last(next), E, 2, [SENTINEL])
    ensures Last(next).nodes[A].matchIndex.Keys <= IDS - {A}
  {
    var r2 := CLeads(run, late);
    SendsOne(Last(r2).nodes[C]);
    Overwrites(Last(r2).nodes[A]);
    next := Replicates(r2, IDS, late, C, A);
  }

  /** The answer of c to the entry of term 3. */
  function PromptReply(): AppendReply {
    AppendReply(C, AppendRequest(3, A, 1, 2, [Written(2, 3)], 0), AppendResponse(2, true, 0, 0))
  }

  lemma TakesSecond(c: Node)
    requires c.log == [SENTINEL, Written(1, 2)] && c.currentTerm == 2
    ensures HandleAppendEntries(c, AppendRequest(3, A, 1, 2, [Written(2, 3)], 0)).1 == AppendResponse(2, true, 0, 0)
  {
  }

  lemma SendsSecond(a: Node)
    requires a.log == [SENTINEL, Written(1, 2)] + [Written(2, 3)]
    requires a.currentTerm == 3 && a.id == A && a.commitIndex == 0
    requires C in a.nextIndex && a.nextIndex[C] == 2
    ensures Latest(a, C) == AppendRequest(3, A, 1, 2, [Written(2, 3)], 0)
  {
    assert a.log[2..] == [Written(2, 3)];
  }

  const NONE_YET := map[B := 0, C := 0, D := 0, E := 0]

  /** Term 3: a leads again and writes an entry at index 2. */
  lemma ALeads(run: Run, late: set<nat>) returns (next: Run)
    requires SoFar(run, IDS, late)
    requires Shows(Last(run), A, 2, [SENTINEL, Written(1, 2)]) && Last(run).nodes[A].matchIndex.Keys <= IDS - {A}
    requires Shows(Last(run), D, 2, [SENTINEL]) && Shows(Last(run), E, 2, [SENTINEL])
    ensures SoFar(next, IDS, late) && |next.steps| == |run.steps| + 7 && SameTraffic(Last(run), Last(next))
    ensures Last(next).nodes.Keys == Last(run).nodes.Keys
    ensures forall n :: n in Last(run).nodes && n in {B, C} ==> Last(next).nodes[n] == Last(run).nodes[n]
    ensures Shows(Last(next), A, 3, [SENTINEL, Written(1, 2)] + [Written(2, 3)]) && Last(next).nodes[A].role == Leader
    ensures C in Last(next).nodes[A].nextIndex && Last(next).nodes[A].nextIndex[C] == 2
    ensures Last(next).nodes[A].matchIndex == NONE_YET
    ensures Shows(Last(next), D, 3, [SENTINEL]) && Shows(Last(next), E, 3, [SENTINEL])
  {
    FourPeers(A);
    assert IDS - {A} == {B, C, D, E};
    var r1 := Elected(run, IDS, late, A, D, E);
    assert Last(r1).nodes[A].matchIndex == NONE_YET;
    next := Submits(r1, IDS, late, A, CMD);
  }

  /** Only c has taken the entry when the answers are in. */
  lemma TermThree(run: Run, late: set<nat>) returns (next: Run)
    requires SoFar(run, IDS, late) && LateReply() in Last(run).net.appendReplies && |run.steps| == 19
    requires Shows(Last(run), A, 2, [SENTINEL, Written(1, 2)]) && Shows(Last(run), C, 2, [SENTINEL, Written(1, 2)])
    requires Shows(Last(run), B, 1, [SENTINEL, Written(1, 1), Written(2, 1)])
    requires Shows(Last(run), D, 2, [SENTINEL]) && Shows(Last(run), E, 2, [SENTINEL])
    requires Last(run).nodes[A].matchIndex.Keys <= IDS - {A}
    ensures SoFar(next, IDS, late) && LateReply() in Last(next).net.appendReplies && |next.steps| == 28
    ensures PromptReply() in Last(next).net.appendReplies
    ensures Shows(Last(next), A, 3, [SENTINEL, Written(1, 2), Written(2, 3)]) && Last(next).nodes[A].role == Leader
    ensures Last(next).nodes[A].matchIndex == NONE_YET
    ensures Shows(Last(next), B, 1, [SENTINEL, Written(1, 1), Written(2, 1)])
    ensures Shows(Last(next), D, 3, [SENTINEL]) && Shows(Last(next), E, 3, [SENTINEL])
  {
    var r2 := ALeads(run, late);
    SendsSecond(Last(r2).nodes[A]);
    TakesSecond(Last(r2).nodes[C]);
    next := Replicates(r2, IDS, late, A, C);
  }

  lemma HoldersAre(one: map<NodeId, nat>, two: map<NodeId, nat>)
    requires one == map[B := 0, C := 2, D := 0, E := 0] && two == map[B := 2, C := 2, D := 0, E := 0]
    ensures |Holders(one, 2)| == 1 && |Holders(two, 2)| == 2
  {
    assert Holders(one, 2) == {C} && Holders(two, 2) == {B, C};
  }

  /** The answer of c is counted in time: two of five hold the entry, which is not enough. */
  lemma OneHolder(nd: Node)
    requires nd.log == [SENTINEL, Written(1, 2), Written(2, 3)]
    requires nd.currentTerm == 3 && nd.commitIndex == 0 && |nd.peers| == 4
    requires nd.matchIndex == map[B := 0, C := 2, D := 0, E := 0]
    ensures UpdateCommitIndex(nd) == nd
  {
    HoldersAre(nd.matchIndex, map[B := 2, C := 2, D := 0, E := 0]);
    assert !Committable(nd, 2) && !Committable(nd, 1);
  }

  /** With the late answer three of five seem to hold it. */
  lemma TwoHolders(nd: Node)
    requires nd.log == [SENTINEL, Written(1, 2), Written(2, 3)]
    requires nd.currentTerm == 3 && nd.commitIndex == 0 && |nd.peers| == 4
    requires nd.matchIndex == map[B := 2, C := 2, D := 0, E := 0]
    ensures UpdateCommitIndex(nd).commitIndex == 2 && UpdateCommitIndex(nd).log == nd.log
    ensures UpdateCommitIndex(nd).currentTerm == 3
  {
    HoldersAre(map[B := 0, C := 2, D := 0, E := 0], nd.matchIndex);
    assert Committable(nd, 2);
  }

  /** The late answer is counted for an entry that its sender never saw. */
  lemma LateCount(run: Run, late: set<nat>) returns (next: Run)
    requires SoFar(run, IDS, late) && LateReply() in Last(run).net.appendReplies && |run.steps| == 28 && 29 in late
    requires PromptReply() in Last(run).net.appendReplies
    requires Shows(Last(run), A, 3, [SENTINEL, Written(1, 2), Written(2, 3)]) && Last(run).nodes[A].role == Leader
    requires Last(run).nodes[A].matchIndex == NONE_YET
    requires Shows(Last(run), B, 1, [SENTINEL, Written(1, 1), Written(2, 1)])
    requires Shows(Last(run), D, 3, [SENTINEL]) && Shows(Last(run), E, 3, [SENTINEL])
    ensures SoFar(next, IDS, late) && |next.steps| == 30 && A in Last(next).nodes
    ensures Last(next).nodes[A].currentTerm == 3
    ensures Committed(Last(next).nodes[A]) == [SENTINEL, Written(1, 2), Written(2, 3)]
    ensures Shows(Last(next), B, 1, [SENTINEL, Written(1, 1), Written(2, 1)])
    ensures Shows(Last(next), D, 3, [SENTINEL]) && Shows(Last(next), E, 3, [SENTINEL])
  {
    FourPeers(A);
    var nd := Last(run).nodes[A];
    OneHolder(Recorded(nd, C, 2));
    var r1 := Answers(run, IDS, late, PromptReply());
    assert Last(r1).nodes[A] == Recorded(nd, C, 2);
    TwoHolders(Recorded(Recorded(nd, C, 2), B, 2));
    next := Answers(r1, IDS, late, LateReply());
    assert Last(next).nodes[A] == UpdateCommitIndex(Recorded(Recorded(nd, C, 2), B, 2));
  }

  /** Term 4: b, whose log ends in term 1, still wins against d and e. */
  lemma TermFour(run: Run, late: set<nat>) returns (next: Run)
    requires SoFar(run, IDS, late) && |run.steps| == 30
    requires Shows(Last(run), B, 1, [SENTINEL, Written(1, 1), Written(2, 1)])
    requires Shows(Last(run), D, 3, [SENTINEL]) && Shows(Last(run), E, 3, [SENTINEL])
    ensures SoFar(next, IDS, late) && run.states <= next.states && |next.steps| == 38
    ensures Leads(Last(next), B, 4) && Last(next).nodes[B].log == [SENTINEL, Written(1, 1), Written(2, 1)]
  {
    FourPeers(B);
    var r1 := Runs(run, IDS, late, B);
    var r2 := Runs(r1, IDS, late, B);
    next := Elected(r2, IDS, late, B, D, E);
  }

  lemma OneLateStep(run: Run, late: nat)
    requires TimelyBut(run, {late}) && late < |run.steps| && Guarded(run.states[late], run.steps[late])
    ensures GuardedRun(run)
  {
    forall k | 0 <= k < |run.steps|
      ensures Guarded(run.states[k], run.steps[k])
    {
      if k != late {
        TimelyIsGuarded(run.states[k], run.steps[k]);
      }
    }
  }

  /**
   Without the reply premise leader completeness fails: in this run every step
   but one meets the premise, node a regards an entry as committed in term 3,
   and the leader of term 4 does not have it.
   */
  lemma LateReplyLosesCommit() returns (run: Run)
    ensures RunOf(run, IDS) && |run.steps| == 38
    ensures forall k :: 0 <= k < 38 && k != 29 ==> Timely(run.states[k], run.steps[k])
    ensures A in run.states[30].nodes && run.states[30].nodes[A].currentTerm == 3
    ensures Leads(run.states[38], B, 4)
    ensures !(Committed(run.states[30].nodes[A]) <= run.states[38].nodes[B].log)
    ensures !Guarded(run.states[29], run.steps[29])
  {
    var late := {29};
    var r1 := TermOne(late);
    var r2 := TermTwo(r1, late);
    var r3 := TermThree(r2, late);
    var r4 := LateCount(r3, late);
    run := TermFour(r4, late);
    assert run.states[30] == r4.states[30];
    assert Committed(run.states[30].nodes[A])[1] != run.states[38].nodes[B].log[1];
    if Guarded(run.states[29], run.steps[29]) {
      OneLateStep(run, 29);
      LeaderCompleteness(run, IDS, 30, 38, A, B, 4);
    }
  }
}
