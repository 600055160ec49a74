# LumeoFS: verified models

This project models the parts of LumeoFS that decide whether data and metadata
survive: the Raft consensus core, the write-ahead log and crash recovery of a
data node, XOR erasure coding, vector clocks, leases, chunk allocation, the
replicated metadata and primary re-election. Where the program changes state in
place the model is a class whose methods are proved to compute a pure function;
the properties are proved of those functions over all runs.

| files | what they model |
|---|---|
| `RaftNode`, `RaftServer` | one node: each handler as a function, and as a method proved equal to it |
| `RaftCluster` | a cluster: nodes, every message ever sent, and a history no handler reads |
| `RaftElection`, `RaftLog`, `RaftAcks`, `RaftCommit` | what every step keeps: votes, logs, acknowledgements, commits |
| `RaftSafety` | the safety list of figure 3 of "In Search of an Understandable Consensus Algorithm", over runs |
| `RaftBackoff` | conflict back-off between a leader and one follower |
| `RaftStaleReply` | a run of five nodes showing that commits need the reply premise |
| `RaftVotes` | when a vote must be given, and when a candidate can be elected |
| `RaftHandoff` | from the commit index through the apply channel to the state machine |
| `RaftDurability` | exactly when an entry, or a commit, can still be lost, with or without the reply premise |
| `WalNames`, `WalRecords`, `Wal`, `WalLog` | file names and their order, records, the log as a value, the log as an object |
| `ChunkStore`, `Recovery`, `DataNodeStore` | chunk files, durable writes with crashes, the data node as an object |
| `Restart` | one machine of memory, log files and chunk files, which refines `Recovery` |
| `Erasure` | striping, parity, decoding |
| `VectorClock` | vector clocks and causality |
| `Lease` | leases and the lease manager |
| `Replicas`, `Placement` | replica records; chunk counts, sizes and nodes, the master's tables, and the client's slices |
| `Metadata` | the replicated metadata state machine |
| `Reelection` | node loss and new primaries |

## How consensus is modelled

A message that was sent may be delivered at any later time, any number of times,
or never. Timers fire at any moment. `hist.canon[t]` is the log of the leader of
term t; every prefix of a log that ends in an entry of term t is a prefix of it.
An entry a leader wrote in its own term is either in what every later leader
started with, or blocked by an election whose whole majority had not
acknowledged it. That statement needs no premise; the rest follows from it.

Premises:

- Nodes do not restart: nothing is written to disk (`internal/raft/raft.go:112-115`).
- Node names are unique and not empty, and every node knows the same cluster. Terms and indices do not overflow.
- A node still leads the same term when the second read-locked section of `sendHeartbeats` (`internal/raft/raft.go:501-510`) reads the log under the term that the first (`487-491`) read; the commit index may be the older one. The entries taken are a copy.
- For commits only, the premise `GuardedRun`: where a positive reply with entries is counted, `RaftCommit.MayCount` holds. It looks at the node and the request only. A leader may count a reply to a request of its present term, or one that reaches only entries of its log from earlier terms; any other node may count when its log ends in an earlier term or at its commit index. `TimelyRun`, which asks that every counted reply reaches the leader of the request's term, is a special case (`RaftSafety.TimelyRunIsGuarded`).

The code does not check the premise (`internal/raft/raft.go:527-550`), and it is
needed: in the run of `RaftStaleReply.LateReplyLosesCommit` all steps but one
meet it, and a committed entry is missing from a later leader. For one reply it
is exact: a leader that counts a reply without it counts the sender for an
own-term index the sender has not acknowledged in the present term, unless the
sender has acknowledged that index again since (`RaftCommit.LeaderGuardIsExact`);
at a node that does not lead it holds exactly when no progress records could
make counting commit anything (`RaftCommit.FollowerGuardIsExact`). For a whole
run it is sufficient: a run that breaks it need not lose anything. What it can
lose is exact again: while no later term has had a leader, a commit decided by
counting can be missing from a later leader's log exactly when fewer than half of
the nodes hold it (`RaftDurability.CountedCommitLosableIff`). After a guarded run
a single late reply can do that only to a cluster of odd size
(`RaftDurability.OneLateReplyIff`).

What becomes committed is handed to a channel of 1000 places, and what does not fit
is dropped. `RaftHandoff.HandedOver` says exactly what one call puts there; that the
state machine gets everything is proved for runs in which nothing is dropped (`Roomy`).

The answers of `handleRequestVote` and `handleAppendEntries` carry the term read
before `stepDown`, as in the code. Elections, log matching and back-off need no
reply premise.

## How the log is modelled

The encoding of entries is a parameter. What is read back rests on the hypothesis
`Faithful(c, es)`: of the entries in question, and only of those, decoding undoes
encoding and the length of the encoding fits its eight-byte header.
`WalRecords.SomeCodecIsFaithful` gives such a codec for every list of up to 2^64 entries.

A crash may cut any append. If a part of a record has reached the file, the whole
log stops reading, the node comes up with no chunk and counts versions from the
start again; `Restart.CrashInAppendIff` says so exactly. All other statements about
restarts are about runs in which a record reaches the log as a whole or not at all.

## Model

| member | source | states |
|---|---|---|
| RaftServer.Server.constructor | internal/raft/raft.go:218-250 | a new node is a follower of term 0 whose log is the sentinel |
| RaftServer.Server.StepDown | internal/raft/raft.go:454-464 | the given term, follower, no vote |
| RaftServer.Server.BeginElection | internal/raft/raft.go:357-383 | the candidate's next term, its vote for itself, the request with the end of its log |
| RaftServer.Server.HandleVoteReply | internal/raft/raft.go:391-400 | a higher term makes it step down; otherwise the answer counts as given |
| RaftServer.Server.FinishElection | internal/raft/raft.go:404-428 | it leads exactly when it still runs in that term and has a majority |
| RaftServer.Server.ResetProgress | internal/raft/raft.go:436-440 | every peer's next index is one past the log and its match index zero, others untouched |
| RaftServer.Server.BecomeLeader | internal/raft/raft.go:431-451 | role, leader and progress of a new leader |
| RaftServer.Server.HandleRequestVote | internal/raft/raft.go:684-723 | at most one vote a term, to a log that is at least as up to date |
| RaftServer.Server.Propose | internal/raft/raft.go:611-632 | one entry of the current term at the next index, or refusal by a node that does not lead |
| RaftServer.Server.Announce | internal/raft/raft.go:487-495 | the term and commit index of a heartbeat, and whether the node leads |
| RaftServer.Server.Snapshot | internal/raft/raft.go:500-519 | the request: term and commit index as read before, previous entry and the whole rest of the log as they are now, with 64-bit wrap-around of the index |
| RaftServer.Server.HandleAppendReply | internal/raft/raft.go:530-550 | progress after a success, a refusal, or a higher term |
| RaftServer.Server.CountReplicas | internal/raft/raft.go:563-568 | one more than the peers whose match index reaches the index |
| RaftServer.Server.UpdateCommitIndex | internal/raft/raft.go:556-588 | the highest index of the current term that a majority is known to hold |
| RaftServer.Server.OfferCommitted | internal/raft/raft.go:795-800 | entries above the last applied one are queued in order until the channel is full |
| RaftServer.Server.FindConflict | internal/raft/raft.go:761-766 | one past the last entry before the previous index with another term |
| RaftServer.Server.AppendEntries | internal/raft/raft.go:771-784 | the log is cut at the first disagreement only, and continued with what was shipped |
| RaftServer.Server.Accept | internal/raft/raft.go:771-801 | entries and commit index of a request that fits |
| RaftServer.Server.HandleAppendEntries | internal/raft/raft.go:726-805 | refusal of old terms, conflict report, or acceptance |
| RaftServer.Server.ApplyTurn | internal/raft/raft.go:872-886 | an entry leaves the channel and reaches the state machine if it holds a command; as a step of its own it becomes the last applied one |
| RaftNode.ScanConflict | internal/raft/raft.go:761-766 | where the walk back over the conflicting term stops |
| RaftNode.Shared | internal/raft/raft.go:772-783 | how many shipped entries the log already holds |
| RaftNode.ScanCommit | internal/raft/raft.go:558-573 | no higher index qualifies than the one found |
| RaftElection.WonByMajority | internal/raft/raft.go:415-423 | behind a won election stand recorded votes of a majority, and the term had no leader |
| RaftElection.StepKeepsElection | internal/raft/raft.go:354-428 | every step keeps votes, vote counts and reigns sound |
| RaftLog.MergeOutcome | internal/raft/raft.go:771-784 | on a log that matches at the previous index the append loop yields the old log or the leader's prefix, whichever is longer |
| RaftLog.AppendOutcome | internal/raft/raft.go:726-805 | after a success the receiver holds the leader's log as far as the request reaches |
| RaftLog.StepKeepsLog | internal/raft/raft.go:611-632 | every step keeps all logs prefixes of leader logs, term by term |
| RaftAcks.VoteCarries | internal/raft/raft.go:708-718 | the up-to-date test carries an acknowledged entry from voter to candidate, unless it is blocked |
| RaftAcks.WinnerStarts | internal/raft/raft.go:415-440 | a new leader starts with every entry of earlier leaders that its own election did not block |
| RaftAcks.StepKeepsAcks | internal/raft/raft.go:726-805 | every step keeps what was acknowledged, in logs, in votes and in leaders' starts |
| RaftCommit.CommittableBacked | internal/raft/raft.go:559-573 | the commit rule means acknowledgement of an entry of the leader's term by a majority |
| RaftCommit.CommitCarried | internal/raft/raft.go:559-573 | what is committed is part of every later leader's start |
| RaftCommit.ReplyReports | internal/raft/raft.go:536-542 | the last entry of an acknowledged request is what the peer holds in that term |
| RaftCommit.AcceptBacked | internal/raft/raft.go:771-792 | accepting a request truncates nothing committed, and commits only what is committed |
| RaftCommit.LeaderGuardIsExact | internal/raft/raft.go:536-542 | after a leader handles a counted reply it counts the sender for nothing unacknowledged, now or after further proposals, exactly when `MayCount` held or the sender has acknowledged that much in the present term |
| RaftCommit.FollowerGuardIsExact | internal/raft/raft.go:556-573 | at a node that does not lead, `MayCount` holds exactly when no match indices whatever would make it commit something |
| RaftCommit.StepKeepsCommits | internal/raft/raft.go:556-588 | every guarded step keeps all commit indices, requests, replies, counts and queues backed by commits |
| RaftCommit.StepKeepsCommitted | internal/raft/raft.go:771-801 | no step lowers a commit index or removes what it covers |
| RaftSafety.ElectionSafety | internal/raft/raft.go:354-428 | election safety (section 5.2): over all runs a term has at most one leader |
| RaftSafety.LogMatching | internal/raft/raft.go:752-784 | log matching (section 5.3): two logs, even at different times, with an entry of equal index and term are equal up to it |
| RaftSafety.LogIndices | internal/raft/raft.go:620-627 | an entry stands at its own index, after the sentinel, and is of no later term than its node |
| RaftSafety.LeaderAppendOnly | internal/raft/raft.go:726-784 | a leader's log only grows during its term, though requests are handled without a leader check |
| RaftSafety.TimelyRunIsGuarded | internal/raft/raft.go:530-542 | a run whose counted replies all reach the leader of the request's term meets the premise |
| RaftSafety.LeaderCompleteness | internal/raft/raft.go:556-588 | leader completeness (section 5.4): what any node regards as committed is in the log of every leader of a later term, earlier or later in the run |
| RaftSafety.CommittedAgree | internal/raft/raft.go:786-801 | what two nodes regard as committed, at any times, never conflicts |
| RaftSafety.CommitIsFinal | internal/raft/raft.go:771-801 | over a run a commit index never falls or passes the log's end, and what it covers is never truncated |
| RaftSafety.CommittedOnMajority | internal/raft/raft.go:563-573 | what a node regards as committed is from then on in the logs of a majority |
| RaftSafety.RequestsReachCommit | internal/raft/raft.go:501-519 | no request announces a commit index beyond the entries it reaches |
| RaftSafety.StateMachineSafety | internal/raft/raft.go:865-886 | no two nodes ever queue or apply different entries for one index |
| RaftBackoff.ReachableReady | internal/raft/raft.go:500-519 | in every reachable state a leader and a node not ahead of it can start the exchange below |
| RaftBackoff.RefusalLowers | internal/raft/raft.go:543-549 | a refusal strictly lowers the next index, which stays at least 1 |
| RaftBackoff.SuccessCopies | internal/raft/raft.go:771-784 | a success leaves the follower with the leader's whole log, and the leader knows it |
| RaftBackoff.BackoffConverges | internal/raft/raft.go:500-549 | at most nextIndex - 1 refusals precede a success, after which the follower starts with the leader's log |
| RaftBackoff.RefusalReports | internal/raft/raft.go:752-768 | a log that is too short reports its length; otherwise the term that disagrees, with one past the last entry before it of another term |
| RaftBackoff.RefusalMovesBack | internal/raft/raft.go:543-549 | the leader goes back to the reported index, or by one if none is reported |
| RaftBackoff.SuccessCommits | internal/raft/raft.go:786-792 | after a success the follower regards as committed what the leader does |
| RaftBackoff.NewLeaderProbes | internal/raft/raft.go:431-440 | a new leader's first request is about the end of its log and ships nothing |
| RaftBackoff.RequestMovesTerm | internal/raft/raft.go:734-749 | a request changes term, role and vote only if it is of a later term, and names the leader if it is not of an earlier one |
| RaftStaleReply.LateReplyLosesCommit | internal/raft/raft.go:527-550 | one late reply, the only step of the run that breaks the premise, is enough to commit an entry that a later leader does not have |
| RaftVotes.VoteIff | internal/raft/raft.go:702-719 | a vote is given exactly unless the voter is in a later term, has voted for another in that term, or has a log that ends further |
| RaftVotes.VoterMoves | internal/raft/raft.go:690-722 | the term read before, the step into a later term, the recorded vote, and nothing else |
| RaftVotes.EveryAnswerExplained | internal/raft/raft.go:684-723 | over all runs every answer to a vote request was given or refused for exactly one of these reasons at the moment it was asked |
| RaftVotes.LaterAnswersStepDown | internal/raft/raft.go:530-534 | an answer that names a later term makes the node a follower of that term; one to a request without entries changes nothing |
| RaftVotes.CandidateCanWin | internal/raft/raft.go:354-428 | from any reachable state a candidate is elected in some continuation if a majority is in no later term, has not voted for another in its term, and has logs that do not end further |
| RaftHandoff.ReplyHandsOver | internal/raft/raft.go:573-582 | a leader that commits puts the entries after the last applied one up to the new commit index on the channel, in order, as far as its places last |
| RaftHandoff.AppendHandsOver | internal/raft/raft.go:786-801 | a follower's commit index becomes the announced one or the last entry the request reaches, and the same entries go on the channel |
| RaftHandoff.ApplyTurnTakes | internal/raft/raft.go:872-886 | the apply loop takes the first entry, hands a command on, and then accounts for it |
| RaftHandoff.ApplyKeepsStream | internal/raft/raft.go:865-886 | the apply loop neither loses, repeats nor swaps a command |
| RaftHandoff.CommittedIsQueued | internal/raft/raft.go:573-582 | over guarded runs that drop nothing, everything a node regards as committed has been on its channel |
| RaftHandoff.AppliedInOrder | internal/raft/raft.go:865-886 | over such runs the state machine gets committed commands only, and none before all committed commands of lower indices |
| RaftHandoff.DrainedHasAll | internal/raft/raft.go:865-886 | once the channel is empty the state machine has got every committed command |
| RaftDurability.StepKeepsHeld | internal/raft/raft.go:771-784 | what a node holds it has acknowledged in the entry's term, as long as no later term has had a leader |
| RaftDurability.LosableIff | internal/raft/raft.go:684-723 | from any reachable state, while no later term has had a leader, some continuation gives a later leader without an entry of the last leader's term exactly when fewer than half of the nodes hold it |
| RaftDurability.CountedCommitLosableIff | internal/raft/raft.go:556-588 | in any run, guarded or not, while no later term has had a leader, a commit that a leader decides by counting can be lost exactly when fewer than half of the nodes hold it |
| RaftDurability.OneLateReplyIff | internal/raft/raft.go:536-573 | after a guarded run, while no later term has had a leader, the commit that one further reply brings about can be lost exactly when the cluster has odd size and less than half of it hold the commit |
| WalNames.SequenceOfName | internal/wal/wal.go:101-117 | the number of a file is read back from its name, for every number |
| WalNames.NinthDigit | internal/wal/wal.go:115-117 | file 100000000 is listed before file 99999999 |
| WalNames.OrderIffEightDigits | internal/wal/wal.go:86-117 | files are listed in the order they were written exactly while numbers have at most eight digits |
| WalRecords.HeaderBytes | internal/wal/wal.go:138-140 | the length is written most significant byte first |
| WalRecords.ReadFile | internal/wal/wal.go:211-249 | the read loop computes the parse of the whole file |
| WalRecords.FileRoundTrip | internal/wal/wal.go:138-148 | appended entries are read back one for one, in order |
| WalRecords.TornFile | internal/wal/wal.go:211-249 | a file cut anywhere reads exactly when the cut is a record boundary, and then gives exactly the entries before it |
| Wal.ReadBack | internal/wal/wal.go:187-208 | reading everything gives what the files hold, file after file |
| Wal.OpHolds | internal/wal/wal.go:120-184 | append, rotation, reopening and removal keep the account of what each file holds |
| Wal.WalRoundTrip | internal/wal/wal.go:86-208 | over any appends, rotations and reopenings everything is read back, entry for entry, in order |
| Wal.TruncateLeavesSuffix | internal/wal/wal.go:274-295 | after removal below k exactly the entries of files k and up are left |
| Wal.TruncateLeavesEndOfLog | internal/wal/wal.go:274-295 | after any appends, rotations and reopenings what removal leaves is the end of what was appended, and all of it for a number up to 1 |
| Wal.AppendAfterTruncate | internal/wal/wal.go:274-295 | the next entry is read back exactly when the removal spared the open file or the entry rotates |
| Wal.RotatesWhenFull | internal/wal/wal.go:161-184 | over any run at the program's maximum size a file stays within 64 MB unless it holds a single record, and the next file starts with a record that would have taken it over |
| WalLog.WriteAheadLog.constructor | internal/wal/wal.go:66-112 | opening takes up the last listed file, or creates the first |
| WalLog.WriteAheadLog.MaybeRotate | internal/wal/wal.go:161-184 | a new file when the entry would pass the maximum size |
| WalLog.WriteAheadLog.Append | internal/wal/wal.go:120-158 | the time stamp, rotation, then length and data at the end of the open file |
| WalLog.WriteAheadLog.ReadAll | internal/wal/wal.go:187-208 | all files in listing order; one that does not read fails the whole |
| WalLog.WriteAheadLog.Truncate | internal/wal/wal.go:274-295 | files below the number lose their names; an open one lives on behind its handle |
| ChunkStore.Overwrite | internal/datanode/datanode.go:885-908 | every byte after a write: the data, the old byte, or zero in a gap |
| ChunkStore.WriteLands | internal/datanode/datanode.go:885-908 | byte k of the data is at offset + k, or at k for a negative offset; all other bytes are the old ones, or zero in a gap; no other chunk changes |
| ChunkStore.ReplayByte | internal/datanode/datanode.go:842-846 | each byte after a replay is the last one written there, or else the old one |
| ChunkStore.ReplayOverOld | internal/datanode/datanode.go:834-863 | replaying over old files equals replaying over none exactly when the old files hold nothing the log does not account for |
| ChunkStore.TornKeeps | internal/datanode/datanode.go:885-908 | any part of a logged write, written again, leaves the files so |
| Recovery.WriteTakenIff | internal/datanode/datanode.go:650-668 | a write is taken exactly unless the chunk is known as a secondary |
| Recovery.RoleDecides | internal/datanode/datanode.go:588-595 | a role that was set decides whether the next write is taken |
| Recovery.WriteStored | internal/datanode/datanode.go:670-707 | what is logged is what was asked for, and the bytes land at the offset |
| Recovery.WriteSurvives | internal/datanode/datanode.go:834-846 | what was written is read back at its offset after crash and recovery |
| Recovery.RecoveredByte | internal/datanode/datanode.go:834-846 | after any run each recovered byte is the last logged one for its position, or zero |
| Recovery.RecoveredIsLast | internal/datanode/datanode.go:849-857 | a recovered chunk has version, size and checksum of its last logged write, and is primary |
| Recovery.RecoveryRefinesReplay | internal/datanode/datanode.go:834-863 | after any run with crashes, torn writes and interrupted recoveries, recovery equals applying the log to an empty store |
| Recovery.CrashIsInvisible | internal/datanode/datanode.go:834-863 | crash and recovery of a running node lose no byte, size or version |
| Recovery.VersionsRiseByOne | internal/datanode/datanode.go:670-683 | logged versions of a chunk are 2, 3, 4, and so on, across restarts |
| Recovery.ChecksumSurvives | internal/datanode/datanode.go:700-708 | the checksum survives exactly when the client sent the hash of its data |
| Recovery.WriteCounts | internal/datanode/datanode.go:701-706 | a write raises version and the node's own clock entry by one and leaves every other entry |
| Recovery.ClockStartsAnew | internal/datanode/datanode.go:848-858 | a recovered chunk has a fresh clock, behind its version |
| Restart.StepRefines | internal/datanode/datanode.go:670-718 | every step of the machine that cuts no record, starts included, is a step of the node whose log is a sequence of entries |
| Restart.RestartRestores | internal/datanode/datanode.go:834-863 | after any such run, through rotations, crashes, torn chunk files and interrupted starts, a start reads back exactly what was logged and restores every chunk's bytes and record from it |
| Restart.MachineSurvivesCrash | internal/datanode/datanode.go:834-863 | crash and start of a running machine lose no byte, size or version |
| Restart.CrashInAppendIff | internal/wal/wal.go:138-148 | after a crash in an append a start restores everything exactly when no byte or the whole record had reached the log; otherwise it reads nothing and comes up without chunks, though the chunk files hold every byte |
| Wal.TornAppendFails | internal/wal/wal.go:187-249 | a record of which only a part is in the last file fails the reading of all files |
| DataNodeStore.DataNode.Write | internal/datanode/datanode.go:646-718 | log, file, and version, clock, size and checksum in memory after a write, or refusal by a replica that is not primary |
| DataNodeStore.DataNode.RecoverFromWal | internal/datanode/datanode.go:834-863 | files and memory after recovery |
| DataNodeStore.DataNode.SetRole | internal/datanode/datanode.go:588-595 | the role of a known chunk |
| Erasure.ParityBytes | internal/erasure/erasure.go:82-91 | the loops compute the XOR of all data shards |
| Erasure.Encode | internal/erasure/erasure.go:56-101 | the stripes of the padded data, then the parity shards |
| Erasure.Reconstruct | internal/erasure/erasure.go:162-207 | one empty slot is filled from parity and the others; too few shards, or a stripe longer than the parity, end the call |
| Erasure.Decode | internal/erasure/erasure.go:104-159 | filtering, reconstruction, joining and cutting of any collection of shards, of any lengths and indices |
| Erasure.RebuildsMissing | internal/erasure/erasure.go:181-195 | a missing stripe is the XOR of the parity and the others |
| Erasure.JoinsToData | internal/erasure/erasure.go:145-158 | the stripes joined and cut are the original data |
| Erasure.StripeHolds | internal/erasure/erasure.go:56-80 | where each byte of the data lies, with zeros behind the end, and how long a stripe is |
| Erasure.ParityBit | internal/erasure/erasure.go:82-91 | a parity bit is set exactly when an odd number of stripes have it set |
| Erasure.DecodesAnySize | internal/erasure/erasure.go:145-158 | whatever size is named, decoding succeeds exactly when enough survives, and gives that much of the padded data |
| Erasure.BreaksOffIff | internal/erasure/erasure.go:104-207 | given enough valid shards, decoding panics exactly for a data shard of negative index, or when a shard used to rebuild a missing one is shorter than the parity used |
| Erasure.ExactTolerance | internal/erasure/erasure.go:104-207 | over any losses, damage to data or checksum, repetition and reordering, decoding succeeds exactly when all data shards survive, or all but one and some parity shard, and then returns the original data |
| VectorClock.VectorClock.Increment | internal/version/version.go:29-33 | one entry rises by one |
| VectorClock.VectorClock.Merge | internal/version/version.go:43-54 | the larger value of each entry |
| VectorClock.VectorClock.Compare | internal/version/version.go:58-94 | -1, 1, 2 and 0 are below, above, equal and incomparable, each both ways |
| VectorClock.VectorClock.Clone | internal/version/version.go:97-106 | a separate clock with the same entries |
| VectorClock.MergeIsLub | internal/version/version.go:43-54 | merging is the least upper bound |
| Causality.PastIsCounted | internal/version/version.go:29-54 | an event is in another's past exactly when that one's clock has counted it |
| Causality.CompareIsCausality | internal/version/version.go:58-94 | over all runs of increments, sends and receipts, clock comparison is happened-before, and incomparable is concurrent |
| Lease.HolderIsInside | internal/version/version.go:248-256 | asking for the holder answers whether the moment lies in one of the node's validity intervals |
| Lease.LeasesExclude | internal/version/version.go:214-231 | intervals of different nodes on one chunk never overlap, renewals included |
| Lease.GivenIffFree | internal/version/version.go:214-231 | over all runs a request is given exactly when no interval given to another node on the chunk contains the moment it is checked, and then gets its interval |
| Lease.VersionCountsRenewals | internal/version/version.go:171-176 | a version counts renewals in time, and starts at 1 otherwise |
| LeaseManager.Lease.IsValid | internal/version/version.go:157-161 | less time than the duration has passed |
| LeaseManager.Lease.Renew | internal/version/version.go:171-176 | a new start and the next version |
| LeaseManager.Manager.Grant | internal/version/version.go:214-231 | refusal while another node's lease is valid, renewal in place, or a new lease; validity and start are read from the clock one after the other |
| LeaseManager.Manager.CheckHolder | internal/version/version.go:248-256 | the node holds a valid lease on the chunk |
| MasterStore.Master.PutFile | internal/master/master.go:146-160 | a new file lists no chunk |
| MasterStore.Master.OnlineNodes | internal/master/master.go:588-593 | every online node once, in some order |
| MasterStore.Master.PlaceReplicas | internal/master/master.go:607-665 | replica records and node addresses of one chunk |
| MasterStore.Master.AllocateChunk | internal/master/master.go:602-672 | one chunk in the master's tables and in the answer |
| MasterStore.Master.AllocateChunks | internal/master/master.go:573-676 | nothing without enough online nodes; else the tables change as by the replicated metadata's allocation commands, and the answer lists every chunk with its nodes |
| Placement.AllocationRecords | internal/master/master.go:602-667 | every allocated chunk is found under its name |
| Placement.AllocationSpares | internal/master/master.go:667 | every other chunk is as before |
| Placement.ListedChunksHoldFile | internal/master/master.go:600-672 | the chunks a known file lists take exactly the file, if and only if it listed none before or is empty |
| Placement.MasterStaysSound | internal/master/master.go:662-672 | over all runs of new files, allocations and node news, listed chunks exist, belong to their file and start with its first one |
| Placement.UploadFillsChunks | internal/master/master.go:600-672 | so in every reachable state an allocation gives a known file chunks that take exactly the file, if and only if it listed none before or is empty |
| Placement.OtherFilesUntouched | internal/master/master.go:600-672 | an allocation keeps integrity and changes neither the list nor the chunks of another file |
| Placement.ChunksTileFile | cmd/client/main.go:234-241 | what the client writes, chunk after chunk, is the file |
| Placement.SliceFillsChunk | cmd/client/main.go:234-241 | each slice is as long as its chunk, at most the chunk size, and empty only for an empty file |
| Placement.NodesFollow | internal/master/master.go:614-616 | chunk i starts at node i of the listing and goes on around its end |
| Placement.AnswerMatchesRecord | internal/master/master.go:635-664 | the answer names chunk, index, size and the address of each recorded replica, the primary's first |
| Placement.ReplicasAreDistinct | internal/master/master.go:614-633 | each chunk has the wanted number of replicas, on different nodes, with exactly the first one primary |
| Placement.PlacementIsBalanced | internal/master/master.go:614-633 | every node is primary, and likewise j-th replica, of the floor or ceiling of C / n chunks |
| Metadata.ChunkNamesAreInjective | internal/master/cluster_master.go:472 | a chunk name determines file and index, underscores in file names included |
| Metadata.AllocKeepsIff | internal/raft/state_machine.go:215-258 | an allocation keeps integrity exactly when no other file lists the chunk |
| Metadata.OthersKeep | internal/raft/state_machine.go:46-68 | no other command can break integrity |
| Metadata.IntegrityHolds | internal/raft/state_machine.go:46-68 | over all command sequences every chunk a file lists exists and names that file as owner |
| Metadata.ReplicasAgree | internal/raft/state_machine.go:46-68 | replicas fed the same commands agree on files and chunks apart from times, whatever heartbeats each saw |
| Metadata.DeleteRemoves | internal/raft/state_machine.go:193-205 | a deletion removes the file and every chunk it lists, and nothing else |
| Metadata.NothingLeftBehind | internal/raft/state_machine.go:46-68 | over runs whose allocations name known files and whose new files replace none that lists chunks, every chunk on record is listed by the file it names |
| Metadata.CareIsNeeded | internal/raft/state_machine.go:172-258 | one command keeps that exactly under this condition |
| Metadata.CreateAdds | internal/raft/state_machine.go:172-190 | a new file with the given properties and no chunk, all else as before |
| Metadata.AllocAdds | internal/raft/state_machine.go:215-258 | a healthy replica on each named node in order, the first one primary, and the chunk at the end of its file's list |
| Metadata.UpdateSets | internal/raft/state_machine.go:268-283 | checksum and size as given, all else as before |
| Metadata.UnknownIsIgnored | internal/raft/state_machine.go:46-68 | commands about something unknown change only the count |
| Metadata.KnownIff | internal/raft/state_machine.go:133-151 | over all runs a node is known exactly once it was registered |
| Metadata.OnlineIff | internal/raft/state_machine.go:378-402 | over all runs a node is online exactly when the last word on it brought it online |
| Metadata.NodeReports | internal/raft/state_machine.go:133-151 | what a registration and a heartbeat record of a node |
| Metadata.CommandsCounted | internal/raft/state_machine.go:46-68 | the version is the number of replicated commands |
| MetadataStore.StateMachine.Apply | internal/raft/state_machine.go:46-68 | the state after a command, counted even when it is not known |
| MetadataStore.StateMachine.DeleteFile | internal/raft/state_machine.go:193-205 | the file and all chunks it lists are gone |
| MetadataStore.StateMachine.AllocChunk | internal/raft/state_machine.go:215-258 | the chunk with its replicas, listed by its file if that exists |
| Reelection.Best | internal/master/replica_manager.go:96-108 | the first candidate with the highest version among healthy secondaries |
| Reelection.LossMarks | internal/master/replica_manager.go:60-80 | exactly the replicas on the lost node go offline; versions stay |
| Reelection.NewPrimary | internal/master/replica_manager.go:60-123 | a chunk gets a new primary exactly when its primary is lost and a healthy replica is left, and it has the highest version among those |
| Reelection.AlwaysLed | internal/master/replica_manager.go:27-123 | from an allocated chunk on, over any sequence of losses exactly one primary, healthy while any replica is |
| Reelection.AllocatedChunksStayLed | internal/master/master.go:614-660 | every chunk the master allocates stays led through any losses |
| Reelection.InterleavedStayLed | internal/master/replica_manager.go:27-39 | losses of several nodes handled chunk by chunk in any order, with allocations in between, leave every chunk led |
| Reelection.ReplicaManager.FindChunksOnNode | internal/master/replica_manager.go:42-57 | each chunk with a replica on the node, once |
| Reelection.ReplicaManager.FindBest | internal/master/replica_manager.go:95-108 | the first eligible replica with the highest version |
| Reelection.ReplicaManager.ElectNewPrimary | internal/master/replica_manager.go:95-123 | the best candidate alone is primary; without one nothing changes |
| Reelection.ReplicaManager.HandleChunkRecovery | internal/master/replica_manager.go:60-92 | replicas on the node are marked, then the primary is replaced if it was there |
| Reelection.ReplicaManager.HandleNodeOffline | internal/master/replica_manager.go:27-39 | every chunk is as the loss leaves it, the others untouched |

## Left out

- RaftSafety.LeaderCompleteness: holds for runs under the reply premise `GuardedRun` only, as do the other statements about commits; without it the code does not have the property.
- RaftDurability.LosableIff: says nothing once a later term has had a leader.
- RaftBackoff.BackoffConverges: one request at a time, with no proposal, election or third node in between.
- Wal.WalRoundTrip: the directory holds no other file of that pattern, and numbers stay below 10^8; `WalNames.OrderIffEightDigits` shows that beyond that the listing order is wrong.
- Erasure.Decode: a panic is an outcome of its own, `OutOfRange`.
- RaftServer.Server.Snapshot: that the node still leads the term read in the first section is a premise, above.
- Reelection.ReplicaManager.HandleNodeOffline: the program releases the lock on the chunk map between two chunks; this contract is for a table that nobody else touches meanwhile, and `Reelection.InterleavedStayLed` is about the rest.
- Reelection.AlwaysLed: versions are not negative, as the program never sets one; a candidate needs a version above -1.
- MasterStore.Master.AllocateChunk: one clock reading stands for those of the chunk and of its replicas, and telling the nodes their roles is left out.
- MasterStore.Master.AllocateChunks: file sizes are lengths, so not negative; the same clock reading serves all chunks.
- DataNodeStore.DataNode.Write: the time at which a chunk's version was last updated is left out, and so is copying to secondaries.
- DataNodeStore.DataNode.RecoverFromWal: the same time is left out.
- Recovery.CrashIsInvisible: bytes, sizes and versions only. A recovered chunk is primary whatever role it had, its clock starts anew (`Recovery.ClockStartsAnew`), and its checksum is the client's.
- RaftHandoff.CommittedIsQueued: for runs in which the channel has room; `RaftHandoff.HandedOver` says what a full channel drops.
- Exactly-once application of Raft entries: the commit loops may queue an index twice, so it does not hold.
- Restart of a Raft node: term, vote and log are not persisted.
- Sockets, goroutines, timers, logging, configuration and flags: deliveries and timer firings are steps of their own.
- JSON: the encoding is a parameter, faithful for the entries that a statement is about. SHA-256 is a function; damaged bytes of a shard do not happen to have the checksum of the original.
- Restart.RestartRestores: runs in which no append is cut in two; `Restart.CrashInAppendIff` says what a cut does to the next start. What is appended behind a cut record, and whether that ever reads again, is left out.
- WAL and storage I/O errors, sync modes and closing.
- `AllocateChunk` of the master, which no handler calls.
- Chunk identifiers that are paths: a chunk's file is identified by the chunk's name.
- `handleWriteChunk` and `handleSyncChunk` of the data node, and secondary replicas: versions of the former are not logged, and the latter takes any version.
- Snapshots, queries and the in-place sharing of records returned by queries of the metadata: files and chunks are values here.
- `Verify`, replicated shards and their repair in the erasure package.
- `Revoke` and `Transfer` of leases: both may hand a chunk on while a lease is running.
- Timestamp versions, and the read and write admission rules of the version package.
