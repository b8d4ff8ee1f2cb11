# Verified model of kvengine

kvengine is a replicated key-value store in Go. This project models its
consensus core, its linearizability checker, its LSM engine, its write-ahead
log with store and follower, and its request parser, and proves what they keep
over every input and every run.

`dafny verify dfyconfig.toml` checks all of it.

## How it is built

**Raft** (`Raft*.dfy`). `RaftNode` gives each region of `raft.go` that runs
under the node's mutex as a function on one node's state; `RaftMachine` has the
class `Node` whose methods, with the source's loops, are proved equal to those
functions. `RaftProtocol` puts any number of nodes on a network that loses,
delays, reorders and repeats messages (a set that only grows; anything in it may
be handled again, or never). Only the reply to a vote call is handled at most
once per call, which is what the plain vote counter relies on. A send that the
source leaves to a goroutine may happen at once or at any later heartbeat. A node may
crash between steps, and inside a handler after its first `persist`; it comes back from
its disk with commit and apply indices 0. The
proofs carry a history (votes cast, acknowledgements, the log of every
leader ever elected) that `RaftHistory.Record` computes from the events, so each theorem
is about runs of the nodes alone. The reference is sections 5.2 to 5.4.2 and
Figure 2 of Ongaro and Ousterhout, "In Search of an Understandable Consensus
Algorithm".

The step relation takes a vote rule. `Documented` keeps the vote when an
AppendEntries of the current term arrives, as `docs/ARCHITECTURE.md:141` says;
`AsWritten` clears it, as `raft.go:476-477` with `raft.go:281` does. The safety
theorems in `RaftSafety` hold of every `SafeRun`: a run in which no node votes for two
candidates in one term. `RulesVoteOnce` shows that every run under
the documented rule is one, and so is every run of the code as written in which no node
that accepted an AppendEntries of a term is afterwards reached, with its vote cleared, by a vote request
of that term. `SingleVotesIff` gives the exact steps that break it.
`TwoLeaders` and `TwoCommands` are runs of the code as written, on three nodes
without a crash, that elect two leaders of one term and apply two commands at
one index. What does not depend on votes, the disk, the vote counter and
the leader's indices, is proved in `RaftEveryRun` and `RaftIndices` of every run
under either rule. `RaftProgress` shows the other side: no safe run of two nodes
or more is a dead end. A cluster of one is, because the own vote is only
compared with the majority when a reply comes in.

**Linearizability checker** (`Linear*.dfy`). The backtracking search with its
earliest-end pruning is a pair of methods; the reference is the definition of a
linearization as a permutation that respects real time and is legal for a map.
Both directions and locality are proved with no restriction on the history: one
with an operation that ends before it starts is always refused.

**LSM engine** (`Lsm*.dfy`). The class `Engine` works on a disk of byte files;
its `View` is a memtable and two lists of tables as maps; a plain map is the
reference. A flush, the reads of a compaction and its write may each fail and
report it. The
comment at `lsm.go:267-269` promises that a tombstone hides older tables, but
`SSTable.get` reports a tombstone as absence and `Engine.Get` goes on to older
tables: `DocumentedGet` is the promised lookup, `Get` the one written.

**Log, store and follower** (`Wal*.dfy`, `Store*.dfy`, `Follower.dfy`). Frames
are bytes and the checksum is a parameter; a restart reads the bytes back, so a
record over the 32 MiB cap, which `encode` writes and `ReadRecord` refuses, ends
what it recovers. Concurrent writers, the streaming
reader and the follower are step machines; single calls are class methods.
`wal.Open` appends behind a torn tail and counts it as durable, and `Put` and
`Delete` take the map lock after the log lock is released; the lemmas say
what follows from that and when it does no harm.

**Requests** (`Server.dfy`). A loop parser over the bytes of a connection.

## Model

| member | source | states |
|---|---|---|
| RaftSafety.StateMachineSafety | internal/raft/raft.go:568-593 | no two deliveries of a safe run, by any nodes, before or after any restart, give different commands for one log index |
| RaftDeliveries.DeliversInOrder | internal/raft/raft.go:568-593 | in any stretch of a safe run in which a node does not go down, its deliveries are exactly the commands of its log between the two values of lastApplied, each once, in order, with no gap |
| RaftDeliveries.EntryWasProposed | internal/raft/raft.go:548-562 | in every run under either vote rule each entry of each log was proposed by a client to a leader of its term at that index |
| RaftDeliveries.DeliveredWasProposed | internal/raft/raft.go:568-593 | so was every command that reaches a state machine |
| RaftProgress.CanProgress | internal/raft/raft.go:227-593 | from every state of every safe run of two nodes or more the cluster can go on, without a crash, so that every node delivers a new command at one and the same index |
| RaftProgress.CanLead | internal/raft/raft.go:227-298 | from every such state some node can be elected that nobody is ahead of |
| RaftProgress.LoneNodeNeverLeads | internal/raft/raft.go:237-272 | in no run does a cluster of one have a leader, as only replies are counted against the majority |
| RaftCatchUp.CatchUpPeer | internal/raft/raft.go:330-403 | from every such state a leader's messages and the answers to them can bring any peer not in a later term, however far the logs are apart, to hold the leader's log and know its commit index |
| RaftSafety.LeaderCompleteness | internal/raft/raft.go:417-437 | whatever a node ever counted as committed is, in full, in the log of every leader of a later term, at whatever moment that one led, and of its own term's leader from then on |
| RaftSafety.LogMatching | internal/raft/raft.go:485-520 | two logs of any two nodes at any two moments with the same term at one index are equal up to that index |
| RaftSafety.ElectionSafety | internal/raft/raft.go:227-283 | at any two moments of a safe run, two leaders of one term are the same node |
| RaftEveryRun.DiskIsCurrent | internal/raft/persist.go:35-91 | in every run under either vote rule, at every lock release the disk holds term, vote and log, so a restart loses only volatile state, and no log is empty |
| RaftEveryRun.VotesAreVoters | internal/raft/raft.go:253-272 | in every run under either vote rule a candidate's counter is the size of a set of distinct members that voted for it in its term, none of whose calls is still open |
| RaftSafety.MatchIsSound | internal/raft/raft.go:360-378 | a peer holds the leader's log up to the matchIndex the leader once had for it for as long as the peer stays in that term, however replies were delayed and whatever became of the leader |
| RaftIndices.NextStaysInside | internal/raft/raft.go:330-350 | in every run under either vote rule a leader's next index stays in 1..len(log), so a send never reads outside the log and reaches to its end |
| RaftIndices.RetryStaysInside | internal/raft/raft.go:379-402 | in every run under either vote rule a rejection that triggers a retry names an index in 1..PrevLogIndex, so the final decrement is never taken, and nextIndex stays in 1..len(log) |
| RaftSafety.SendsStayInside | internal/raft/raft.go:338-350 | what a leader of a safe run sends covers its LeaderCommit |
| RaftSafety.RetryProbesLower | internal/raft/raft.go:379-402 | every retry after a rejection in a safe run probes a strictly smaller PrevLogIndex |
| RaftSafety.CommitOnlyGrows | internal/raft/raft.go:510-537 | over any stretch of a safe run in which the node itself does not go down, whoever else does, its commit index does not fall or leave its log and no entry at or below it changes |
| RaftSafety.CommitLearned | internal/raft/raft.go:525-537 | a follower of a safe run that accepts an AppendEntries has from then on the larger of its own and the leader's commit index |
| RaftRuns.RulesVoteOnce | internal/raft/raft.go:441-467 | every run under the documented rule, and every timely run of the code, gives each node one vote per term |
| RaftRuns.SingleVotesIff | internal/raft/raft.go:476-477 | a run gives one vote per term if and only if no vote request meets a node that voted for another candidate in that term and had the vote cleared |
| RaftRuns.VoteKeptIff | internal/raft/raft.go:469-480 | an AppendEntries of the current term keeps the vote if and only if the rule is the documented one or there is no vote |
| RaftRuns.LateFrom | internal/raft/raft.go:455-460 | a second vote needs the rule as written and an earlier accepted AppendEntries of the same term |
| RaftDoubleVote.TwoLeaders | internal/raft/raft.go:476-477 | a seven-event run of the code as written with two leaders of term 1 |
| RaftDoubleVote.TwoCommands | internal/raft/raft.go:510-520 | its continuation in which two nodes apply different commands at index 1 |
| RaftSteps.EveryStepKeepsInv | internal/raft/raft.go:227-593 | every event, except one that votes twice, keeps the invariant of nodes, messages and history, and the history only grows |
| RaftSteps.CrashHandlingStep | internal/raft/persist.go:35-66 | a crash after the first persist of a handler keeps the invariant |
| RaftVoting.OneVoteIff | internal/raft/raft.go:441-467 | handling a vote request keeps one vote per term if and only if it does not grant a second one |
| RaftVoting.UpToDateInherits | internal/raft/raft.go:455-460 | a log that passes the up-to-date test against a log holding a leader's entry has that entry too, or the entry can no longer be committed |
| RaftElection.NoTwoWinners | internal/raft/raft.go:239-272 | a candidate that reaches the needed votes has a majority and its term had no leader |
| RaftElection.WinnerInherits | internal/raft/raft.go:285-298 | the winner's log has every entry of an earlier leader that may still be committed |
| RaftElection.SendsKeepInv | internal/raft/raft.go:330-350 | everything a leader sends is a stretch of its own log with a certified commit index |
| RaftAppend.MergeShape | internal/raft/raft.go:510-520 | the append loop keeps the entries it matches by term, replaces all from the first it does not, and otherwise leaves the log alone |
| RaftAppend.MergeFollows | internal/raft/raft.go:510-520 | merging a stretch of the leader's log agrees with the leader up to the last new entry and loses no agreement, however stale the message |
| RaftAppend.CommitKept | internal/raft/raft.go:510-520 | the merge never cuts at or below the commit index |
| RaftAppend.FollowerComplete | internal/raft/raft.go:510-523 | after an accepted AppendEntries the follower still holds all it ever acknowledged that can be committed |
| RaftAppend.FirstOfRunShape | internal/raft/raft.go:494-504 | ConflictIndex is the start of the maximal run of one term that ends at PrevLogIndex, not below 1 |
| RaftAppend.RejectionHints | internal/raft/raft.go:485-507 | a rejection names an index in 1..PrevLogIndex and, if a term, another term than the leader's there |
| RaftLeader.CommitFromShape | internal/raft/raft.go:417-437 | the commit scan finds the highest entry of the current term held by more than half, never below the old commit index |
| RaftLeader.ReplicatedIsChosen | internal/raft/raft.go:417-437 | the test count*2 > cluster size means that a majority acknowledged the entry in the leader's term |
| RaftLeader.SendsBehindMatch | internal/raft/raft.go:367-378 | after a success the next send starts right behind matchIndex, which never falls, and other peers are untouched |
| RaftLeader.LastOfTermShape | internal/raft/raft.go:383-393 | the search for ConflictTerm finds the last entry of that term, or 0 |
| RaftLeader.BackupProgress | internal/raft/raft.go:379-402 | from any sound hint nextIndex falls to within 1..PrevLogIndex of the rejected request |
| RaftHandlers.VoteIff | internal/raft/raft.go:441-467 | a vote is granted if and only if the candidate's last (term, index) is not below the voter's and the term is newer, or this one with the vote free or the candidate's already; term, vote and role after it |
| RaftHandlers.PassesTotal | internal/raft/raft.go:455-458 | of any two logs one passes the up-to-date test against the other |
| RaftHandlers.PassesTransitive | internal/raft/raft.go:455-458 | passing is transitive |
| RaftHandlers.LongerPasses | internal/raft/raft.go:455-458 | a log that went on in the same term or a later one passes against what it was, and not the other way round |
| RaftHandlers.WinsIff | internal/raft/raft.go:239 | the needed number of votes is reached if and only if more than half of the cluster voted |
| RaftHandlers.VoteReplyIff | internal/raft/raft.go:253-298 | a reply counts if and only if it grants a vote in the candidate's current election, and the candidate leads as soon as that makes more than half, with every peer at the end of its log |
| RaftHandlers.AcceptIff | internal/raft/raft.go:469-540 | an AppendEntries is accepted if and only if its term is not old and the entry before it is held; the commit index is then the larger of the old one and what leader and message vouch for, with the one exception of a message no leader sends |
| RaftHandlers.RejectionNames | internal/raft/raft.go:485-507 | a rejection gives the log's length if it is too short, else the term in the way and the start of its run |
| RaftHandlers.ReplyIff | internal/raft/raft.go:360-403 | which replies are acted on; a success sets matchIndex to the larger of old and sent, a rejection sets nextIndex behind the leader's last entry of ConflictTerm or, without one, to ConflictIndex; other peers are untouched |
| RaftHandlers.MajorityCommits | internal/raft/raft.go:367-437 | an entry of the leader's term that more than half of the cluster is known to hold is committed with the reply that tells so |
| RaftMachine.Node.constructor | internal/raft/raft.go:142-180 | a new node is a follower with the state of its file |
| RaftMachine.Node.Persist | internal/raft/persist.go:35-66 | the disk becomes the current term, vote and log, nothing else changes |
| RaftMachine.Node.BecomeFollower | internal/raft/raft.go:277-283 | the node takes the term as a follower without a vote, and persists |
| RaftMachine.Node.StartElection | internal/raft/raft.go:227-252 | the node is a candidate of the next term, voted for itself, and asks each peer once with its last entry |
| RaftMachine.Node.OnVoteReply | internal/raft/raft.go:253-272 | the reply counts once, only in the term of its call, and the node leads once it has the needed votes |
| RaftMachine.Node.BecomeLeader | internal/raft/raft.go:285-298 | all peers start at the end of the log with nothing matched, and each is sent to |
| RaftMachine.Node.SendAppendEntries | internal/raft/raft.go:330-350 | the message is the tail of the log from the peer's next index |
| RaftMachine.Node.Broadcast | internal/raft/raft.go:322-328 | every peer and nobody else is sent to |
| RaftMachine.Node.OnAppendReply | internal/raft/raft.go:360-403 | the reply loop computes the step of the protocol: stand down, ignore, advance or back up |
| RaftMachine.Node.FindLast | internal/raft/raft.go:383-389 | the downward search finds the last entry of the term |
| RaftMachine.Node.MaybeAdvanceCommitIndex | internal/raft/raft.go:417-437 | the two nested loops compute the commit index of CommitFromShape |
| RaftMachine.Node.CountReplicas | internal/raft/raft.go:423-428 | the count is one plus the number of distinct peers whose matchIndex reaches the entry |
| RaftMachine.Node.HandleRequestVote | internal/raft/raft.go:441-467 | vote, reply and disk are those of the protocol step |
| RaftMachine.Node.HandleAppendEntries | internal/raft/raft.go:469-540 | state and reply are those of the protocol step under the rule as written |
| RaftMachine.Node.AppendNew | internal/raft/raft.go:510-520 | the in-place loop computes the merge of MergeShape |
| RaftMachine.Node.Propose | internal/raft/raft.go:548-562 | a leader appends under its term, persists and sends to all; others change nothing and answer 0 |
| RaftMachine.Node.ApplyNext | internal/raft/raft.go:568-593 | the entry right behind lastApplied is handed over unless it is empty, as the deliveries of runs are, and lastApplied moves by one |
| LinearCheck.Check | internal/linearcheck/linearcheck.go:145-153 | nil exactly for histories that have a linearization from the empty map and no operation ending before it starts |
| LinearCheck.CheckFrom | internal/linearcheck/linearcheck.go:155-188 | the same from any state and remaining operations |
| LinearCheck.EarliestEnd | internal/linearcheck/linearcheck.go:161-166 | the bound is an end that no other end precedes |
| LinearCheck.AcceptedIff | internal/linearcheck/linearcheck.go:168-186 | some operation can go first among those starting by the earliest end if and only if the history is accepted: the pruning loses nothing |
| LinearCheck.LegalIff | internal/linearcheck/linearcheck.go:112-132 | an order is legal for the map machine if and only if it has no unknown operation and every Get sees the latest write before it |
| LinearCheck.OrderIrrelevant | internal/linearcheck/linearcheck.go:145-153 | the verdict depends on the operations, not on the order they were recorded in |
| LinearLocality.Locality | internal/linearcheck/linearcheck.go:145-188 | a history is accepted if and only if its part on each key is |
| LinearLocality.MergeKeys | internal/linearcheck/linearcheck.go:155-188 | per-key linearizations merge into one of the whole history |
| LinearLocality.HeadMayLead | internal/linearcheck/linearcheck.go:161-172 | the first operation of the key whose operation ends first started before anything ended |
| LsmTable.WriteAll | internal/lsm/lsm.go:113-156 | the file is the entries' length-prefixed bytes in order |
| LsmTable.ReadAll | internal/lsm/lsm.go:202-225 | the reader loop computes the parse of the file, or fails on a torn entry |
| LsmTable.ParseEncoded | internal/lsm/lsm.go:143-225 | reading a written table gives back its entries, for lengths below 2^32 |
| LsmTable.ParseCut | internal/lsm/lsm.go:202-225 | a file cut inside an entry fails to read if the header is incomplete, else the entry is taken with zeros for what is missing |
| LsmTable.ScanCut | internal/lsm/lsm.go:161-199 | a lookup in such a file finds what lies before the cut and reports an error for the rest |
| Bytes.LessIff | internal/lsm/lsm.go:87-96 | keys are ordered by the first byte that differs, a proper prefix before the longer key |
| LsmTable.TableGet | internal/lsm/lsm.go:161-199 | finds a key exactly when it is in range and its scanned value is not the tombstone; fails exactly on a torn entry before it |
| LsmTable.ScanEncoded | internal/lsm/lsm.go:177-198 | scanning a written table hits an entry of the key, misses only if there is none, and never tears |
| LsmTable.RangeIsSafe | internal/lsm/lsm.go:161-165 | the min/max check hides no key of a sorted table |
| LsmTable.RangeIff | internal/lsm/lsm.go:161-165 | the file is passed over exactly for keys before the first and behind the last, and for none if the first key is empty |
| LsmTable.ScanIsLookup | internal/lsm/lsm.go:161-199 | on a table's own file, range check and scan together are lookup in the table's map |
| LsmTable.AsMapSorted | internal/lsm/lsm.go:87-96 | a sorted entry list is exactly its map |
| LsmLayers.DocumentedGetIsModel | internal/lsm/lsm.go:267-269 | the lookup the comment promises answers from the plain map |
| LsmLayers.GetIff | internal/lsm/lsm.go:270-303 | the lookup as written agrees with the plain map on a key unless, with the key not in the memtable, the newest level 0 table holding it has a tombstone and an older table a live value, and exactly then not |
| LsmLayers.GetAfterCompaction | internal/lsm/lsm.go:331-388 | right after a compaction the lookup as written is right for every key |
| LsmRuns.DeletedKeyResurfaces | internal/lsm/lsm.go:288-293 | the run put, flush, delete, flush: the lookup as written returns the deleted value, the promised one and the plain map do not |
| LsmLayers.FlushKeepsModel | internal/lsm/lsm.go:312-325 | a flush does not change the plain map |
| LsmLayers.CompactKeepsModel | internal/lsm/lsm.go:331-388 | merging every table and dropping tombstones does not change the plain map and leaves one table without tombstones |
| LsmRuns.RunRefines | internal/lsm/lsm.go:252-408 | after any sequence of Put, Delete, Flush with any reported failures the engine stands for the plain map, a tombstone-aware lookup answers from it, and the lookup as written does so for exactly the keys that do not resurface |
| LsmLayers.SilentReadIff | internal/lsm/lsm.go:218-222 | a compaction whose reads went wrong inside an entry, unreported, keeps the plain map if and only if what it read has the files' live value for every key outside the memtable |
| LsmLayers.SilentReadLoses | internal/lsm/lsm.go:218-222 | such a read of one value as zeros loses the stored one |
| LsmRuns.ExecRefines | internal/lsm/lsm.go:252-325 | one command, with its automatic flush and compaction, acts on the plain map as it says |
| LsmRuns.WriteOutcome | internal/lsm/lsm.go:252-325 | the memtable goes to disk exactly at 4 MiB of writes and all tables are merged exactly at four; an error is reported if and only if one of the two was due and failed, and a failed flush leaves memtable and tables |
| LsmRuns.FlushOutcome | internal/lsm/lsm.go:392-408 | a Flush writes whatever was written and fails if and only if that write fails |
| LsmRuns.Accounting | internal/lsm/lsm.go:53-85 | after any run the memtable is what was written since it was last emptied, and its size is the bytes of all those writes |
| LsmRuns.MemoryBounded | internal/lsm/lsm.go:307-325 | after a write that reports no error fewer than 4 MiB of writes are held in memory |
| LsmRuns.LevelZeroBounded | internal/lsm/lsm.go:307-325 | in runs of writes without errors level 0 has fewer than four tables |
| LsmEngine.SortedEntries | internal/lsm/lsm.go:87-96 | the entries are sorted and are exactly the map |
| LsmEngine.Engine.constructor | internal/lsm/lsm.go:237-250 | a new engine is empty |
| LsmEngine.Engine.Put | internal/lsm/lsm.go:252-258 | the bytes on disk and the lists of tables follow the step that ExecRefines is about |
| LsmEngine.Engine.Delete | internal/lsm/lsm.go:260-265 | the same, with the tombstone |
| LsmEngine.Engine.Flush | internal/lsm/lsm.go:392-408 | an empty memtable is left, another becomes the newest table unless the write fails |
| LsmEngine.Engine.Get | internal/lsm/lsm.go:270-303 | scanning the files gives the answer that GetIff is about; tables whose files cannot be read are passed over as if empty |
| LsmEngine.Engine.MaybeFlush | internal/lsm/lsm.go:307-325 | flushes at the size limit and compacts at the table limit, with the outcome of every failure |
| LsmEngine.Engine.FlushMem | internal/lsm/lsm.go:312-319 | the memtable becomes the newest intact table under a fresh name; a failed write changes nothing but leaves its id used |
| LsmEngine.Engine.Compact | internal/lsm/lsm.go:331-388 | all tables become one without tombstones, or nothing changes; every listed table keeps its intact file |
| LsmEngine.Engine.MergeAll | internal/lsm/lsm.go:334-357 | reading level 1 then level 0, oldest first, gives the live part of everything below the memtable |
| LsmEngine.Engine.Install | internal/lsm/lsm.go:371-386 | removing the old files removes no file of the new table |
| Wal.Decode | internal/wal/wal.go:232-277 | a decoded record was read inside the given bytes and consumed more than its header |
| Wal.ReplayLog | internal/wal/wal.go:206-226 | the loop returns the records up to the first that does not decode, on any bytes, and ends |
| Wal.FrameRoundTrip | internal/wal/wal.go:76-90 | a written frame reads back as its record and leaves the rest unread |
| Wal.DecodeIsSound | internal/wal/wal.go:232-277 | on any bytes, a record comes only from a frame within the cap with the right checksum, and is what its body spells |
| Wal.TornFrame | internal/wal/wal.go:232-262 | a proper part of a frame is the end of the file if empty and torn otherwise |
| Wal.TornTailRecovery | internal/wal/wal.go:206-226 | cutting a log at any byte replays exactly the records wholly before the cut |
| Wal.WholeFramesIsLargest | internal/wal/wal.go:206-226 | that number is the largest whose frames fit before the cut |
| Wal.ReplayAppends | internal/wal/wal.go:206-226 | whole frames replay first, whatever bytes follow |
| Wal.DamageStopsReplay | internal/wal/wal.go:251-257 | a body with another checksum ends the replay before it |
| Wal.OversizeIsLost | internal/wal/wal.go:242-245 | a record is recovered if and only if its body is within the 32 MiB cap; a longer one is written and hides all after it |
| Wal.TornTailIff | internal/wal/wal.go:51-67 | after reopening on a frame torn at any byte, the next replay drops all later writes if and only if they do not complete that frame with its length, checksum and shape |
| Wal.ReplayToOversize | internal/wal/wal.go:206-245 | replaying whole frames gives exactly the records before the first one over the cap |
| Wal.AcknowledgedLost | internal/wal/wal.go:51-67 | a header left by a crash hides any whole, shorter record acknowledged after it |
| Wal.WholeFramesReopen | internal/wal/wal.go:51-67 | on a file of whole frames everything appended later replays |
| WalLog.Log.constructor | internal/wal/wal.go:51-67 | the whole existing file counts as durable |
| WalLog.Log.Append | internal/wal/wal.go:99-109 | the frame is behind everything written and nothing becomes durable; after the first failed write every later one is refused, and the file never holds more than a part of what was appended |
| WalLog.Log.Sync | internal/wal/wal.go:112-129 | everything written is in the file and durable, and waiting readers are woken; on any failure the durable offset stands and nobody is woken |
| WalLog.StreamSendsDurable | internal/wal/wal.go:145-186 | in every interleaving with writers a stream has sent exactly the bytes from its offset, nothing beyond the durable frontier, and a blocked stream with durable bytes ahead can wake |
| WalLog.EndedIff | internal/wal/wal.go:163-177 | a stream ends only in a copy that came up short |
| WalLog.GoesOnOrSentAll | internal/wal/wal.go:145-186 | at any moment of any run a stream that has not ended has a move of its own or has sent everything durable from its offset on |
| WalLog.CanFinish | internal/wal/wal.go:145-186 | its own moves bring it from there to all durable bytes |
| Store.KvStore.constructor | internal/store/store.go:27-47 | the map is the replayed log applied in order |
| Store.KvStore.Put | internal/store/store.go:51-65 | without an error the record is durable behind the log and the map has it; with one the map and the durable offset are as before |
| Store.KvStore.Delete | internal/store/store.go:68-79 | without an error the record is durable behind the log and the map lacks the key; with one the map and the durable offset are as before |
| Store.KvStore.Get | internal/store/store.go:82-90 | the map's value, if any |
| Store.ReopenAfterWrite | internal/store/store.go:27-65 | reopening after one more write gives the map with that write if and only if the record is within the cap |
| StoreRuns.WriteAhead | internal/store/store.go:51-79 | in every interleaving of writers with failures and whole-frame crashes each value in the map has a durable record, each acknowledged write stays at its place in the durable log, and the next Open reads it back from the bytes if and only if no record up to it is over the cap |
| StoreRuns.OversizeVanishes | internal/store/store.go:27-62 | an acknowledged record over the cap is in the map and, after a crash, gone |
| StoreRuns.MapIsLogIff | internal/store/store.go:51-79 | in any state of any run, the map and a replay of the durable bytes agree on a key if and only if what last reached the map for it since the restart leaves what its last recovered record leaves |
| StoreRuns.QuiescentMapIsLog | internal/store/store.go:51-79 | if writers of one key finish in log order and no record is over the cap, then with none in flight everything is durable and the map is the replay of the bytes |
| StoreRuns.SeparateIsInOrder | internal/store/store.go:51-79 | writers of one key that never overlap finish in log order |
| StoreRuns.OverlapDiverges | internal/store/store.go:51-62 | two overlapping writes of one key whose map and log end with different values |
| Follower.Replica.RunOnce | internal/replication/follower.go:68-127 | the loop applies the replayed records of the bytes received and moves the offset past exactly those; a refused record stops it before, a failed offset write after its record is applied |
| Follower.RunOnceIsRun | internal/replication/follower.go:68-127 | a call of RunOnce, with whatever failure, is a stretch of a run of the follower machine to the same map and offset, so what is proved of runs holds of it |
| Follower.FirstSession | internal/replication/follower.go:68-127 | a fresh follower that receives a log cut at any byte has the map of the whole frames before the cut |
| Follower.OffsetAtFrame | internal/replication/follower.go:95-127 | a stream cut anywhere replays its whole frames and leaves the offset at the end of the last |
| Follower.FollowerResumes | internal/replication/follower.go:68-167 | over any disconnects and crashes the offset is the end of as many of the leader's frames as offsets were written, none over the cap, and the map is those records, or one beyond |
| Follower.AppliedAgainIff | internal/replication/follower.go:95-127 | the record applied at an offset of the leader's log is applied again, the same frame at the same offset, if and only if the process stopped between its apply and its offset write and later applied anything |
| Follower.AppliesPosition | internal/replication/follower.go:95-127 | each apply is of the leader's record right behind the frames whose offsets were written |
| Follower.AppliedTwice | internal/replication/follower.go:95-127 | a run that applies one record twice, from the same offset |
| Follower.CaughtUp | internal/replication/follower.go:68-127 | an offset at the end of the leader's log means the leader's map, even if a record was applied twice |
| Server.ReadLineLoop | internal/server/server.go:169-188 | the loop returns the line without its CR LF and the unread rest, or nothing at the end of input or beyond the limit |
| Server.LineRead | internal/server/server.go:169-188 | any line up to 64 KiB ended by LF or CR LF is read as its bytes without the end |
| Server.NoLineIff | internal/server/server.go:169-188 | no line is read if and only if none ends within the limit |
| Server.FieldsOfSpread | internal/server/server.go:136 | words in any blanks are the fields of the line |
| Server.AtoiIff | internal/server/server.go:201-205 | digits with at most one sign are a number if it fits 64 bits |
| Server.AtoiNone | internal/server/server.go:201-205 | anything else is none |
| Server.CommandIff | internal/server/server.go:142-155 | in any letter case GET answers from the map and DEL removes; whatever is no command or has a wrong number of fields is answered by an error; none of them reads on or closes |
| Server.ClosesIff | internal/server/server.go:195-239 | a command closes the connection if and only if it is a PUT with a length over the limit, a cut value or a bad terminator, and what is answered then |
| Server.ServesOn | internal/server/server.go:119-161 | behind a blank line and behind a line that is no command serving goes on, with one error for the latter |
| Server.ServesNoLine | internal/server/server.go:132-137 | without a line within the limit nothing is done |
| Server.Connection.HandleConn | internal/server/server.go:119-161 | the loop performs what the bytes of the connection say, in order, until they end or a request is fatal, whichever writes the store refuses |
| Server.ServesAll | internal/server/server.go:119-268 | for any requests with keys that are words and sizes within the limits, their concatenated bytes perform exactly those requests in order, whatever the values hold and whichever writes the store refuses, and leave the rest |
| Server.PutFraming | internal/server/server.go:195-239 | a PUT naming a length consumes the value and its terminator if they follow and gives the value to the store, else the connection closes with nothing stored, so no value byte is read as a command |
| Server.AdmittedFits | internal/server/server.go:124-268 | whatever bytes a client sends, every record they give to the store, taken or refused, fits the log's body cap, and the map is the taken ones applied in order |

## Left out

- Snapshots: `TakeSnapshot` shortens the log while other functions keep absolute indices; the Raft theorems are about runs without it.
- Client acknowledgement: `waitApplied` checks the term of a log slot and not the commit index; nothing is claimed about it.
- Time: election and heartbeat timers are events that may happen at any moment; liveness, random timeouts, `leaderId` and `State` are not modelled.
- Transports and JSON: they only deliver or drop messages.
- Raft settings: terms and indices do not wrap at 2^64, `persist` succeeds and has a file, ids are numbers with "no vote" for the empty string, peers are distinct and exclude the node; one membership.
- RaftRuns.RulesVoteOnce: for the code as written one direction only, since a late vote request breaks the rule only if the node had voted for another candidate; SingleVotesIff has both directions.
- RaftMachine.Node.OnAppendReply: requires that a rejection's hint does not point behind the log, where the source would index out of range; RetryStaysInside shows it holds in every run.
- RaftMachine.Node.SendAppendEntries: requires a next index inside the log, as do Broadcast and Propose; NextStaysInside shows it holds in every run.
- RaftMachine.Node.ApplyNext: one turn of the loop; the notify channel and the apply channel are not modelled.
- Recorder, `Stats`, `Len`, `String`, command line, profiling and scripts: plumbing.
- LSM restart: the source does not recover tables on open.
- LSM level 0 length: `Flush` never compacts, so there is no bound.
- LsmEngine.Engine.Put: keys and values have length below 2^32, as longer ones are written with a wrapped length; a value equal to the tombstone deletes.
- LsmEngine.Engine.Delete: keys have length below 2^32, for the same reason.
- LsmRuns.RunRefines: the reads of a compaction fail as a whole and report it; an error inside an entry, which `readAll` ignores, is not part of these runs, and SilentReadIff says when one does no harm.
- LsmEngine.Engine.Compact: the same.
- LsmEngine.SortedEntries: the library sort is a selection of least keys.
- CRC-32: any function from bytes to 32 bits, so what a colliding body does is not claimed.
- Record bodies of 2^32 bytes and more, whose length field wraps: StoreRuns and Follower are about shorter ones.
- WalLog.StreamSendsDurable: `StreamFrom` is a step machine and not a method, as its loop need not end; a failed flush of the destination after a complete copy is not part of it.
- RaftProgress.CanProgress: says that the cluster can go on, not that timers and the network make it.
- StoreRuns.QuiescentMapIsLog: the condition excludes a write whose sync failed, as that record may be in the log without being in the map; MapIsLogIff has no such condition.
- Follower.FollowerResumes: crashes keep whole frames of the follower's own log. The promise of `docs/ARCHITECTURE.md:129` that no record is applied twice does not hold (AppliedTwice); AppliedAgainIff says when.
- Server.Connection.HandleConn: replies are kinds and not bytes, deadlines and connection counting are left out, and only ASCII white space splits fields.
- File system: writes of a table, renames and syncs are atomic values on a disk that is a map.
- The header comment of `raft.go` calls the state in-memory only; the model follows `persist.go`.
