# A verified model of raft-kv

raft-kv is a replicated key-value store: a C++ port of the etcd Raft library (`raft-kv/raft`), a
write-ahead log (`raft-kv/wal`) and a Redis-style server (`raft-kv/server`). This project models its core
in Dafny and proves, for every input, every run and every reachable state:

- **The protocol.** Each handler of `raft.cpp` is a function on one node (`RaftSpec`); a cluster is one
  node per voter and a network that may lose, delay, reorder and duplicate messages (`ClusterSpec`). With
  pre-vote off every run has election safety, an append-only leader, log matching, leader completeness,
  state machine safety and match soundness, and no fatal check ever fires (`Theorems`). The proof relates
  nodes and messages to a history of leader logs, votes and acknowledgements (`History`, `Invariant`) and
  follows the handlers (`Elections`, `Leadership`, `Replication`, `Steps`, `Safety`).
- **Pre-vote.** The server turns pre-vote on (`raft-kv/server/raft_node.cpp:54`), and `step_candidate`
  counts pre-vote answers and votes in one tally, against the comment at `raft-kv/raft/raft.cpp:797-799`.
  `PreVote` shows that two leaders of one term are then reachable in every cluster of two or more voters,
  whatever its bootstrap entries, and that election safety holds exactly when pre-vote is off or there is
  one voter. `SplitCommit` continues that run until two nodes have committed different entries at one index:
  with three voters or more a third one acknowledges both leaders' entries, and with two a leader first steps
  down at a quorum check. Without quorum checks two voters are safe although elections are not (`Stalemate`):
  a term with two leaders is a dead end in which nothing is committed any more. So state machine safety holds
  exactly when pre-vote is off, there is one voter, or there are two and `check_quorum` is off.
- **Local guarantees** of a node under any configuration, pre-vote included: flow control, ordered cursors
  that never fall, committed entries that are never rewritten, the counter of uncommitted bytes and the gate
  for configuration changes (`Flow`, `Ledger`, `LocalRuns`).
- **What a node answers.** Each handler against a rule that does not mention how it decides: when a vote is
  granted, what an append, a heartbeat, a proposal, a timeout, a quorum check, an acknowledgement, a rejection
  or a message of another term is answered with, and what is sent on (`Answers`); over runs, who may stop being a
  follower or a leader (`AnswersInRuns`), and that a leader misses no commit (`Upkeep`).
- **Availability.** With pre-vote off, whatever has happened in a run, a set of nodes can go on by itself, the
  others silent, exactly when it is a majority: its members can elect one of their own in a new term, bring each
  other's logs up to the leader's and commit all of it at every member, and so can any proposal of a client's be
  committed. With pre-vote on that fails: two voters without quorum checks can get stuck for good (`Availability`).
- **The objects.** `RaftNodeImpl.Raft` is the node as the source has it, with mutable fields, loops over
  peers, votes and entries, and a two-layer log; every method is proved against its function in `RaftSpec`,
  up to the whole of `Raft::step`. It owns the queue of pending reads (`ReadQueue`), and
  `RaftNodeImpl.Server` runs it and the Ready rounds on one log. `TwoLayerLog` (storage, unstable part, log)
  and `Inflight` (the growable ring and the progress that owns one) are modelled the same way. A method returns `false`
  (or an outcome that says so) exactly where the source aborts in a fatal check.
- **Ready rounds.** Taking, saving and acknowledging a Ready keeps the logical log; every committed entry is
  delivered once, in order, and is in storage by then (`ReadyRounds`).
- **The write-ahead log.** Framing, torn tails, damaged payloads and replay, for an arbitrary checksum and an
  arbitrary faithful packing (`WalSpec`, `WriteAheadLog`).
- **The glob matcher** of the KEYS command against the language of a pattern (`Glob`).

`dafny verify dfyconfig.toml` checks everything.

Conventions: terms, indices and identifiers are naturals; the 32-bit arithmetic of the payload sums and of the
ring is written out. "Fatal" stands for `LOG_FATAL`. Timeouts are free choices: a node may campaign, send
heartbeats at any moment and, where `check_quorum` is on, check its quorum; the lease test is an input of a step.

## Model

| member | source | states |
|---|---|---|
| `Theorems.ElectionSafety` | raft-kv/raft/raft.cpp:427-506 | Over a whole run at most one node is ever leader of a given term |
| `Theorems.LeaderAppendOnly` | raft-kv/raft/raft.cpp:1422-1447 | Between any two moments of one leadership the leader's log only grows |
| `Theorems.LogMatching` | raft-kv/raft/raft_log.cpp:30-96 | Two logs, at any two moments, with equal terms at an index are identical through it |
| `Theorems.StateMachineSafety` | raft-kv/raft/raft.cpp:1032-1083 | The committed prefixes of any two nodes, at any two moments, agree as far as both go |
| `Theorems.LeaderCompletenessInRuns` | raft-kv/raft/raft_log.h:72-75 | What any node has committed is in the log of every leader of a later term, and of its own term from then on |
| `Theorems.MatchSoundness` | raft-kv/raft/raft.cpp:618-672 | A peer in the leader's term holds the leader's log through the leader's `match` for it |
| `Theorems.NeverFatal` | raft-kv/raft/raft_log.cpp:41-43 | In every reachable state every enabled message, timeout, proposal or Ready is handled without a fatal check |
| `Theorems.CursorsInOrder` | raft-kv/raft/raft_log.h:132-135 | `applied <= committed <= last index` at every node of every reachable cluster |
| `History.LeaderCompleteness` | raft-kv/raft/raft.cpp:445-451 | Once a majority acknowledged an entry of term t, every later term's leader campaigned with that prefix |
| `History.CommittedPrefixesAgree` | raft-kv/raft/raft.cpp:1373-1384 | Two commit cursors justified by commit points imply agreeing prefixes |
| `Elections.HandleVoteGood` | raft-kv/raft/raft.cpp:427-506 | A vote request in the node's term is answered without failing and keeps the protocol invariant, with at most one recorded vote per term |
| `Elections.CandidateGood` | raft-kv/raft/raft.cpp:137-147 | A new candidate has voted for itself in a term it had not reached, and the invariant is kept |
| `Elections.HandlePreVoteGood` | raft-kv/raft/raft.cpp:427-506 | A pre-vote request is answered without failing and changes nothing, even in term 0, which no vote message may carry |
| `Leadership.TermIsOpen` | raft-kv/raft/raft.cpp:821-828 | A candidate with a majority of votes means nobody else has won its term |
| `Leadership.BecomeLeaderGood` | raft-kv/raft/raft.cpp:164-203 | Winning a term nobody else has won never fails and keeps the invariant; the new leader's log extends what it campaigned with |
| `Leadership.LeaderCommitPoint` | raft-kv/raft/raft.cpp:1373-1384 | An index picked from the matches whose entry is of the current term is a majority-acknowledged commit point |
| `Leadership.AppendEntryGood` | raft-kv/raft/raft.cpp:1422-1447 | append_entry never fails at a leader and keeps the invariant |
| `Replication.MaybeAppendFromLeader` | raft-kv/raft/raft_log.cpp:30-62 | A stretch of a leader's log is always accepted, touches no agreeing prefix, and leaves the logs agreeing through it |
| `Replication.HandleAppendGood` | raft-kv/raft/raft.cpp:1032-1074 | handle_append_entries never hits a fatal check, keeps the invariant and only acknowledges what the node holds |
| `Replication.HandleHeartbeatGood` | raft-kv/raft/raft.cpp:1076-1083 | A heartbeat, however late, never commits past the node's log |
| `Steps.StepGood` | raft-kv/raft/raft.cpp:279-513 | Every delivered message keeps the invariant and completes, with pre-vote off, or with two voters and no quorum checks unless it makes a second leader of a term |
| `Steps.LocalGood` | raft-kv/raft/raft.cpp:1449-1490 | Every timeout and proposal keeps the invariant and completes |
| `Steps.ReadyGood` | raft-kv/raft/node.cpp:127-187 | A Ready round keeps the invariant |
| `Safety.InitInv` | raft-kv/raft/node.cpp:14-66 | The bootstrapped cluster satisfies the invariant |
| `Safety.NextInv` | raft-kv/raft/raft.cpp:279-513 | Every step of the cluster keeps the invariant, the history only growing |
| `PreVote.TwoLeaders` | raft-kv/raft/raft.cpp:812-828 | With pre-vote on, any two voters can both come to lead the term after the first in one run, whatever the bootstrap entries |
| `PreVote.SafeExactlyWithoutPreVote` | raft-kv/raft/raft.cpp:796-828 | For every bootstrap log, election safety over all runs holds if and only if pre-vote is off or there is a single voter |
| `SplitCommit.TwoCommits` | raft-kv/raft/raft_log.cpp:81-96 | With pre-vote on, any two of three or more voters, or of two with quorum checks, can come to have committed different entries at one index and term, since find_conflict compares terms only |
| `SplitCommit.CommitsSafeExactly` | raft-kv/raft/raft.cpp:796-828 | For every bootstrap log, committed prefixes agree over all runs if and only if pre-vote is off, there is one voter, or there are two and `check_quorum` is off |
| `Stalemate.TwoVotersAgree` | raft-kv/raft/raft.cpp:1373-1384 | Two voters without quorum checks, pre-vote on or off: their committed prefixes at any two moments agree as far as both go |
| `Stalemate.DeadEnd` | raft-kv/raft/raft.cpp:1373-1384 | Once two such voters lead one term, both lead it at every later moment and neither commits anything more |
| `Stalemate.SecondLeader` | raft-kv/raft/raft.cpp:812-828 | A win in a term already won leaves both voters leading it, each unheard by the other, with agreeing commits |
| `Stalemate.OrderlyNext` | raft-kv/raft/raft.cpp:279-513 | Without quorum checks each step of two voters either keeps the protocol invariant, with one leader a term, or ends in that dead end |
| `Availability.AvailableExactly` | raft-kv/raft/raft.h:70-72 | With pre-vote off and a window, a set of voters can always, from every reachable cluster and with the others silent, come to have a leader whose whole log all its members have committed, if and only if it is a majority |
| `Availability.ProposalsCommit` | raft-kv/raft/raft.cpp:528-572 | From every reachable cluster any majority can, by itself, elect a leader of a new term that takes a client's entries and commits them at all its members |
| `Availability.Available` | raft-kv/raft/raft.cpp:279-513 | From every reachable cluster any majority can, by itself, come to have a leader, of a new term unless it is the only voter, all of whose log its members have committed |
| `Availability.Electable` | raft-kv/raft/raft.cpp:427-506 | From every reachable cluster any majority of two or more voters can elect one of its own in a term past all of theirs |
| `Availability.Committable` | raft-kv/raft/raft.cpp:618-686 | From every reachable cluster a leader and peers not past its term, a majority together, can commit the leader's whole log at all of them |
| `Availability.CatchUp` | raft-kv/raft/raft.cpp:618-686 | By heartbeats, appends and their answers any peer not past a leader's term comes to hold its whole log, and the leader knows |
| `Availability.OnlyMajorities` | raft-kv/raft/raft.cpp:1373-1384 | From the start no other set of nodes gets a leader's log committed by itself |
| `Availability.StuckWithPreVote` | raft-kv/raft/raft.cpp:812-828 | With pre-vote on and no quorum checks two voters can get where no set of nodes, not even both, ever goes on |
| `Upkeep.NoCommitMissed` | raft-kv/raft/raft.cpp:1373-1384 | In every run and configuration a leader has committed the greatest index a majority has reached if it is of its term, its log ends in its term, and its own match is its last index |
| `AnswersInRuns.CampaignersHaveApplied` | raft-kv/raft/raft.cpp:395-425 | In every run a node that stops being a follower has no committed configuration change left to apply |
| `AnswersInRuns.OnlyUnheardStepDown` | raft-kv/raft/raft.cpp:521-526 | In every run a leader that gives up within its term does so at a quorum check without a quorum heard from |
| `Answers.OneIsUpToDate` | raft-kv/raft/raft_log.h:72-75 | Of any two logs at least one is up to date for the other, both exactly when last terms and last indices are equal |
| `Answers.FreeVoterAnswers` | raft-kv/raft/raft.cpp:427-506 | A voter that has not voted in the term and knows no leader, or voted for the same candidate, grants exactly the requests whose (term, index) is lexicographically not below its own last position |
| `Answers.BoundVoterRefuses` | raft-kv/raft/raft.cpp:427-506 | A voter that has voted for another or follows a leader refuses, whatever the logs are |
| `Answers.LaterVoteRequest` | raft-kv/raft/raft.cpp:281-326 | A request of a later term moves the voter to that term and is answered as by a free voter there; only the lease holds it off |
| `Answers.PreVoteAnswers` | raft-kv/raft/raft.cpp:427-506 | A pre-vote of a later term is granted by the same measure and changes nothing |
| `Answers.FarthestLog` | raft-kv/raft/raft_log.h:72-75 | Of any nodes one has a log that no other's keeps from a vote |
| `Answers.VoteRespAnswer` | raft-kv/raft/raft.cpp:812-834 | A quorum of grants moves the node on, a quorum of refusals makes it a follower of its term, anything else is only recorded, a peer's first answer standing |
| `Answers.VictoryAnswer` | raft-kv/raft/raft.cpp:164-203 | With the grant that completes a quorum a candidate leads: an empty entry of its term at the end of its log, its former last index pending, nothing counted, every peer probed from there and sent that entry |
| `Answers.AppendAnswer` | raft-kv/raft/raft.cpp:1032-1074 | Behind the commit cursor it reports the cursor; at a position not held it refuses with its last index as the hint; otherwise it takes the entries, moves the cursor and reports the last of them |
| `Answers.HeartbeatAnswer` | raft-kv/raft/raft.cpp:1076-1083 | The commit cursor rises to what the heartbeat carries, and it is answered |
| `Answers.OlderTermAnswer` | raft-kv/raft/raft.cpp:326-390 | A message of an older term changes nothing; its leader is told of the newer term under quorum checks or pre-vote, and a pre-candidate always |
| `Answers.LaterTermAnswer` | raft-kv/raft/raft.cpp:304-325 | An answer of a later term makes the node a follower of that term with a clean vote, no leader and its log, and does nothing else |
| `Answers.LeaderIsFollowed` | raft-kv/raft/raft.cpp:304-325 | An append or heartbeat of no older term makes its sender the leader followed in that term and is answered there |
| `Answers.AppendToPeer` | raft-kv/raft/raft.cpp:1250-1320 | Unless the peer is silent, it is sent the longest stretch from its next position within the size limit, at least one entry, with the commit cursor; its progress moves by exactly that |
| `Answers.BroadcastToPeers` | raft-kv/raft/raft.cpp:1348-1355 | bcast_append serves every other peer that listens by that rule, and nobody else |
| `Answers.RejectedWhileReplicating` | raft-kv/raft/raft.cpp:621-630 | A rejection above the match makes the peer probe right after its match and an append goes out from there; one at or below it only marks the peer active |
| `Answers.RejectedWhileProbing` | raft-kv/raft/progress.cpp:164-177 | A rejection of the outstanding probe moves it to the smaller of the refused index and the hint plus one, and an append goes out; any other only marks the peer active |
| `Answers.Acknowledged` | raft-kv/raft/raft.cpp:631-672 | A new acknowledgement raises the match, makes a prober replicate, frees the window, commits what a majority has reached, tells every listening peer of a new cursor and sends on until the peer is silent or has been sent everything |
| `Answers.AcknowledgedLate` | raft-kv/raft/progress.cpp:141-152 | A late acknowledgement at most moves the next position past it |
| `Answers.AcknowledgedWaiting` | raft-kv/raft/raft.cpp:631-650 | A peer waiting for a snapshot is probed again exactly once its acknowledgement covers it |
| `Answers.UnreachableAnswer` | raft-kv/raft/raft.cpp:737-746 | A replicating peer reported unreachable is probed right after its match; nothing else changes |
| `Answers.SnapshotReportAnswer` | raft-kv/raft/raft.cpp:713-736 | After a snapshot report the peer is probed past the snapshot, or after its match if it failed, but only once it has been heard from |
| `Answers.HeartbeatRespAnswer` | raft-kv/raft/raft.cpp:675-686 | A heartbeat's answer resumes the peer, frees the first slot of a full window and resends to a peer that lags |
| `Answers.BatchTaken` | raft-kv/raft/raft.cpp:1422-1447 | With the counter at zero or the payload within the limit, the log grows by exactly the stamped batch, the counter by exactly its payload and the commit cursor follows; otherwise nothing changes |
| `Answers.ProposalAnswer` | raft-kv/raft/raft.cpp:528-572 | A proposal that fits is in the log whole, later configuration changes emptied, and every listening peer is told; one that does not fit leaves log, counter and messages unchanged |
| `Answers.ProposalElsewhere` | raft-kv/raft/raft.cpp:953-967 | A follower passes a proposal to its leader unless it knows none or must not; a candidate drops it |
| `Answers.ReadyAnswer` | raft-kv/raft/raft.cpp:1542-1560 | A Ready hands out the longest stretch within the limit and lowers the counter by exactly its payload, to zero at the least |
| `Answers.TimeoutHeld` | raft-kv/raft/raft.cpp:395-416 | A leader, and a node with a configuration change committed and not applied, is left exactly as it was by a timeout |
| `Answers.TimeoutCampaigns` | raft-kv/raft/raft.cpp:395-425 | Any other node asks every other voter for its vote in the next term, or for a pre-vote without changing its term; a single voter leads at once |
| `Answers.QuorumCheckAnswer` | raft-kv/raft/raft.cpp:1501-1514 | A leader is left as it was if some quorum holds only itself and peers heard from; otherwise it becomes a follower of its term |
| `Answers.AnswersAreHeard` | raft-kv/raft/raft.cpp:618-676 | Any append or heartbeat answer makes its sender count at the next quorum check, and nobody else |
| `LocalRuns.FlowControl` | raft-kv/raft/raft.cpp:1250-1320 | In every run, whatever the configuration, each peer's in-flight indices increase strictly between `match` and `next` in Replicate, are empty otherwise, and never exceed the window |
| `LocalRuns.MatchNeverFalls` | raft-kv/raft/progress.cpp:141-152 | No peer's `match` falls between any two moments of one leadership |
| `LocalRuns.CommitNeverFalls` | raft-kv/raft/raft_log.cpp:192-205 | In every configuration no node's commit or applied cursor ever falls, and no node rewrites what it has committed |
| `LocalRuns.CounterBelowWaiting` | raft-kv/raft/raft.cpp:1542-1560 | With Ready batches below 2^32 bytes the uncommitted-size counter never exceeds the payload not yet handed out |
| `LocalRuns.CounterWithinLimit` | raft-kv/raft/raft.cpp:1527-1540 | The counter exceeds the limit only by one batch taken in when it was zero, in the leadership the node still exercises |
| `LocalRuns.SinglePendingConf` | raft-kv/raft/raft.cpp:548-565 | In every configuration and every reachable state a leader has at most one unapplied configuration change of its own term |
| `LocalRuns.ConfChangesGated` | raft-kv/raft/raft.cpp:182-191 | A leader appends at most one configuration change at a time and none while any, its own or inherited, is unapplied |
| `LocalRuns.RunSound` | raft-kv/raft/raft.cpp:847-880 | In every configuration every message in the network is one its sender may have sent by now: of no later term but in the pre-election, and no acknowledgement of a term it stands for or leads |
| `Ledger.StepLocal` | raft-kv/raft/raft.cpp:279-513 | Any message keeps a node's local invariant: within a term a leader leads on or steps down for good, terms and cursors never fall, and no entry is of a later term than the node |
| `Ledger.GateConfMeaning` | raft-kv/raft/raft.cpp:548-565 | Of a gated batch at most one entry is a configuration change, at the pending index, and none while one is unapplied |
| `Flow.StepPeerSteady` | raft-kv/raft/raft.cpp:611-745 | Every answer of a peer keeps flow control, the leader's entries and all matches |
| `Flow.AcceptKeepsFlow` | raft-kv/raft/progress.cpp:141-152 | An acknowledgement followed by free_to keeps the window between `match` and `next` |
| `ProgressSpec.FreeToKeepsLarger` | raft-kv/raft/progress.cpp:46-74 | On an ordered queue free_to removes exactly the elements at or below its argument |
| `ProgressSpec.ProbeConverges` | raft-kv/raft/progress.cpp:154-177 | Repeated rejections lead `next` exactly to the first entry the follower lacks, never below it |
| `ProgressSpec.RejectionsConverge` | raft-kv/raft/progress.cpp:154-177 | From Replicate or Probe, retrying after each rejection ends at a position the follower takes: replicating, right after the match after one rejection; probing, at the first entry it lacks |
| `RaftSpec.SendShrinksBudget` | raft-kv/raft/raft.cpp:664-665 | Every turn of the send loop lowers a measure, so the loop ends |
| `Quorum.MajoritiesIntersect` | raft-kv/raft/raft.h:70-72 | Any two quorums of the same voters share a member |
| `Quorum.PickQuorumIndex` | raft-kv/raft/raft.cpp:1373-1383 | The value picked from the sorted matches is the greatest index a majority has reached |
| `LogSpec.FindConflictMeaning` | raft-kv/raft/raft_log.cpp:81-96 | The reported conflict is the first index with a differing term; none means all terms are already there |
| `LogSpec.MaybeAppendContract` | raft-kv/raft/raft_log.cpp:30-62 | On entries after a matching position maybe_append is fatal exactly for a committed conflict, and otherwise merges and never lowers the commit cursor |
| `LogSpec.MergedHoldsGiven` | raft-kv/raft/raft_log.cpp:44-51 | After acceptance all given entries are in the log by index and term |
| `LogSpec.MergedKeepsRest` | raft-kv/raft/raft_log.cpp:38-51 | Nothing before the first conflict changes, and without one nothing at all |
| `LogSpec.LimitSizeIsLongest` | raft-kv/raft/util.cpp:7-20 | entry_limit_size keeps the longest prefix within the limit, but at least one entry |
| `RaftNodeImpl.Raft.Step` | raft-kv/raft/raft.cpp:279-513 | The object does what the specification's step does, for every state and message, and stops exactly where it is fatal |
| `RaftNodeImpl.DeliverInRun` | raft-kv/raft/raft.cpp:279-513 | The object standing for a node of a reachable cluster never aborts, and its step is a step of the cluster |
| `RaftNodeImpl.Server.Handle` | raft-kv/raft/node.cpp:114-125 | On the log shared with the Ready rounds, any step is the specification's and leaves what has been delivered in order |
| `RaftNodeImpl.Server.TakeRound` | raft-kv/raft/node.cpp:127-187 | A whole round on the shared log is the specification's Ready round: the counter falls, the cursor moves, exactly those entries are delivered, each stored |
| `RaftNodeImpl.ReadyAgrees` | raft-kv/raft/ready.cpp:41-50 | The applied cursor of the two-layer round is that of the cluster model |
| `RaftNodeImpl.Raft.Send` | raft-kv/raft/raft.cpp:847-880 | Stamps sender and term; fails exactly on a vote message without a term or another one with a term |
| `RaftNodeImpl.Raft.ComposeAppend` | raft-kv/raft/raft.cpp:1250-1317 | The append for a peer and its progress after it; neither the full window nor an unhandled state is met |
| `RaftNodeImpl.Raft.MaybeSendAppend` | raft-kv/raft/raft.cpp:1250-1320 | Updates the peer's progress and queues the message as specified |
| `RaftNodeImpl.Raft.SendAll` | raft-kv/raft/raft.cpp:658-665 | The send loop ends in the specified state |
| `RaftNodeImpl.Raft.BcastAppend` | raft-kv/raft/raft.cpp:1348-1355 | Sending to every other peer in any order gives the specified messages and progress |
| `RaftNodeImpl.Raft.BcastHeartbeat` | raft-kv/raft/raft.cpp:1357-1371 | A heartbeat with the smaller of `match` and the commit cursor goes to every other peer |
| `RaftNodeImpl.Raft.Reset` | raft-kv/raft/raft.cpp:1386-1416 | The vote survives only within the term; votes, progress, pending index and counter start afresh |
| `RaftNodeImpl.Raft.BecomeFollower` | raft-kv/raft/raft.cpp:125-135 | Follower of the given leader and term after a reset |
| `RaftNodeImpl.Raft.BecomeCandidate` | raft-kv/raft/raft.cpp:137-147 | Next term with a vote for itself; fails exactly for a leader |
| `RaftNodeImpl.Raft.BecomePreCandidate` | raft-kv/raft/raft.cpp:149-162 | Term and vote stay; fails exactly for a leader |
| `RaftNodeImpl.Raft.TakeOffice` | raft-kv/raft/raft.cpp:170-187 | The node leads its term with only itself replicating and every inherited entry counted as pending |
| `RaftNodeImpl.Raft.BecomeLeader` | raft-kv/raft/raft.cpp:164-203 | Leader with its own progress replicating, the pending index at the last entry and one empty entry not counted; fails exactly for a follower or where the specification does |
| `RaftNodeImpl.Raft.MaybeCommit` | raft-kv/raft/raft.cpp:1373-1384 | Commits the majority's index exactly when it is newer and of the current term |
| `RaftNodeImpl.Raft.PayloadSum` | raft-kv/raft/raft.cpp:1528-1531 | The loop computes the payload total modulo 2^32 |
| `RaftNodeImpl.Raft.IncreaseUncommittedSize` | raft-kv/raft/raft.cpp:1527-1540 | Refuses exactly a batch that exceeds the limit from a counter above zero; what follows for the log is `Answers.BatchTaken` |
| `RaftNodeImpl.Raft.ReduceUncommittedSize` | raft-kv/raft/raft.cpp:1542-1560 | Lowers the counter by the batch, stopping at zero |
| `RaftNodeImpl.Raft.AppendEntry` | raft-kv/raft/raft.cpp:1422-1447 | Numbers and stamps the batch, appends it, updates its own progress and tries to commit, or drops it whole |
| `RaftNodeImpl.Raft.Poll` | raft-kv/raft/raft.cpp:258-277 | Records the first answer of each peer and counts the grants |
| `RaftNodeImpl.Raft.Campaign` | raft-kv/raft/raft.cpp:205-256 | A real election: leads at once with a quorum of one, otherwise asks every other peer |
| `RaftNodeImpl.Raft.PreCampaign` | raft-kv/raft/raft.cpp:205-256 | The pre-election asks for the next term without entering it |
| `RaftNodeImpl.Raft.Hup` | raft-kv/raft/raft.cpp:395-425 | No campaign by a leader or with an unapplied configuration change, as `Answers.TimeoutHeld` and `Answers.TimeoutCampaigns` describe; the unapplied entries are always found |
| `RaftNodeImpl.Raft.HandleVote` | raft-kv/raft/raft.cpp:427-506 | Grants exactly to the one voted for, or when free and the candidate is up to date, or for a future pre-vote, as `Answers.FreeVoterAnswers`, `Answers.BoundVoterRefuses` and `Answers.PreVoteAnswers` describe |
| `RaftNodeImpl.Raft.HandleAppend` | raft-kv/raft/raft.cpp:1032-1074 | Answers with the commit cursor, the last new index or a rejection with a hint, and changes the log as maybe_append does |
| `RaftNodeImpl.Raft.HandleHeartbeat` | raft-kv/raft/raft.cpp:1076-1083 | Moves the commit cursor and answers |
| `RaftNodeImpl.Raft.CheckQuorumActive` | raft-kv/raft/raft.cpp:1501-1514 | Whether the active voters, the node included, form a quorum; what follows is `Answers.QuorumCheckAnswer` |
| `RaftNodeImpl.Raft.GateBatch` | raft-kv/raft/raft.cpp:548-565 | Later configuration changes of a batch become empty entries |
| `RaftNodeImpl.Raft.Propose` | raft-kv/raft/raft.cpp:528-572 | Gates, appends and broadcasts a proposal; an empty one is fatal |
| `RaftNodeImpl.Raft.HandleRejection` | raft-kv/raft/raft.cpp:621-630 | A current rejection steps back, leaves Replicate and resends, as `Answers.RejectedWhileReplicating` and `Answers.RejectedWhileProbing` describe |
| `RaftNodeImpl.Raft.HandleAcceptance` | raft-kv/raft/raft.cpp:631-672 | An acknowledgement raises the progress, may commit and broadcast, and keeps sending |
| `RaftNodeImpl.Raft.HandleHeartbeatResp` | raft-kv/raft/raft.cpp:675-686 | Resumes the peer, frees one slot of a full window and resends if it lags |
| `RaftNodeImpl.Raft.StepPeer` | raft-kv/raft/raft.cpp:611-745 | The part of step_leader that needs the sender's progress |
| `RaftNodeImpl.Raft.StepLeader` | raft-kv/raft/raft.cpp:515-794 | Heartbeats, quorum checks, proposals and answers at a leader |
| `RaftNodeImpl.Raft.HandleVoteResp` | raft-kv/raft/raft.cpp:812-834 | Both kinds of answer enter one tally; a quorum campaigns or leads, a quorum of refusals steps down |
| `RaftNodeImpl.Raft.StepCandidate` | raft-kv/raft/raft.cpp:796-834 | A leader of the term is followed; answers are counted |
| `RaftNodeImpl.Raft.StepFollower` | raft-kv/raft/raft.cpp:953-978 | Proposals are forwarded or dropped; appends and heartbeats name the leader |
| `RaftNodeImpl.Raft.ReadIndex` | raft-kv/raft/raft.cpp:573-605 | A single voter answers at once; otherwise nothing happens before the leader has committed in its term, and then a read is answered under the lease option or queued once with the commit cursor, every other pending read staying as it was |
| `RaftNodeImpl.Raft.ConfirmRead` | raft-kv/raft/raft.cpp:687-712 | With a quorum of confirmations exactly the reads queued up to that one are answered, each with its own committed index and to its own origin, and leave the queue; without one nothing does |
| `RaftNodeImpl.Raft.Dispatch` | raft-kv/raft/raft.cpp:394-513 | The second half of step, by kind and role |
| `RaftNodeImpl.Raft.constructor` | raft-kv/raft/raft.cpp:23-119 | A node on empty storage is the cluster's initial node |
| `RaftNodeImpl.Raft.TakeMessages` | raft-kv/raft/raft.h:154-159 | The queued messages leave the node and nothing else changes |
| `TwoLayerLog.EntryLimitSize` | raft-kv/raft/util.cpp:7-20 | The loop computes the longest prefix within the limit, but at least one entry |
| `TwoLayerLog.MemoryStorage.Entries` | raft-kv/raft/storage.cpp:20-47 | Compaction error, fatal bound or the limited stretch; the unavailable error is not reached |
| `TwoLayerLog.MemoryStorage.Term` | raft-kv/raft/storage.cpp:49-63 | The term of a stored index, or which error |
| `TwoLayerLog.MemoryStorage.Append` | raft-kv/raft/storage.cpp:104-141 | Agrees with `AppendStored`; aborts exactly where that is fatal |
| `LogLayers.AppendStoredMeaning` | raft-kv/raft/storage.cpp:104-141 | The batch is stored, nothing below it changes and nothing above it is left; fatal exactly for a gap |
| `TwoLayerLog.MemoryStorage.Compact` | raft-kv/raft/storage.cpp:81-102 | Drops everything up to the index and keeps its term; error or fatal outside the range |
| `TwoLayerLog.MemoryStorage.CreateSnapshot` | raft-kv/raft/storage.cpp:143-170 | Records the index and its term; an older one is refused, one past the end is fatal |
| `TwoLayerLog.MemoryStorage.ApplySnapshot` | raft-kv/raft/storage.cpp:172-190 | Replaces everything by a newer snapshot, refuses another |
| `TwoLayerLog.Unstable.MaybeTerm` | raft-kv/raft/unstable.cpp:31-59 | Knows exactly the terms of its entries and of the pending snapshot |
| `TwoLayerLog.Unstable.StableTo` | raft-kv/raft/unstable.cpp:61-77 | Forgets a prefix exactly when it still holds that entry |
| `TwoLayerLog.Unstable.TruncateAndAppend` | raft-kv/raft/unstable.cpp:91-115 | Appends, replaces or truncates; aborts exactly past the end |
| `LogLayers.OverwriteIsAppend` | raft-kv/raft/unstable.cpp:91-115 | For every split point, stale tail and pending snapshot this is append on the one plain log |
| `TwoLayerLog.RaftLog.constructor` | raft-kv/raft/raft_log.cpp:7-26 | Everything stored is in the log, nothing yet committed or applied |
| `TwoLayerLog.RaftLog.FirstIndex` | raft-kv/raft/raft_log.cpp:249-261 | One past the base of the plain log |
| `TwoLayerLog.RaftLog.LastIndex` | raft-kv/raft/raft_log.cpp:263-275 | The last index of the plain log |
| `TwoLayerLog.RaftLog.Term` | raft-kv/raft/raft_log.cpp:225-247 | The plain log's term, 0 outside it; the lookup never fails |
| `TwoLayerLog.RaftLog.IsUpToDate` | raft-kv/raft/raft_log.h:72-75 | The plain log's comparison of last term and index, total by `Answers.OneIsUpToDate` |
| `TwoLayerLog.RaftLog.FindConflict` | raft-kv/raft/raft_log.cpp:81-96 | The loop computes the plain log's conflict |
| `TwoLayerLog.RaftLog.Append` | raft-kv/raft/raft_log.cpp:64-79 | Append on the plain log, failing exactly where that is fatal |
| `TwoLayerLog.RaftLog.MaybeAppend` | raft-kv/raft/raft_log.cpp:30-62 | Agrees with the plain log in all three outcomes |
| `TwoLayerLog.RaftLog.CommitTo` | raft-kv/raft/raft_log.cpp:192-205 | Moves the cursor forward only; fails exactly past the end |
| `TwoLayerLog.RaftLog.MaybeCommit` | raft-kv/raft/raft_log.cpp:113-123 | Commits exactly a newer index of the given term |
| `TwoLayerLog.RaftLog.Slice` | raft-kv/raft/raft_log.cpp:157-189 | Compaction error, fatal bound, or the limited stretch of the plain log, whichever layers it lies in |
| `TwoLayerLog.RaftLog.Entries` | raft-kv/raft/raft_log.h:97-102 | Everything from an index on, limited |
| `TwoLayerLog.RaftLog.NextEntries` | raft-kv/raft/raft_log.cpp:98-106 | The next committed entries, limited; the lookup never fails |
| `TwoLayerLog.RaftLog.HasNextEntries` | raft-kv/raft/raft_log.cpp:108-111 | True exactly when there are some |
| `TwoLayerLog.RaftLog.Restore` | raft-kv/raft/raft_log.cpp:125-130 | The snapshot becomes the base of an empty log, and past the commit cursor the log stays sound |
| `LogLayers.LimitSizeConcat` | raft-kv/raft/raft_log.cpp:167-187 | Limiting the stored stretch first finds the limit of the whole |
| `ReadyRounds.SaveKeepsLog` | raft-kv/server/raft_node.cpp:117-119 | Saving the unstable entries leaves the logical log unchanged |
| `ReadyRounds.AdvanceKeepsLog` | raft-kv/raft/node.cpp:157-182 | Acknowledging a saved Ready moves only the applied cursor |
| `ReadyRounds.RaftNode.Save` | raft-kv/server/raft_node.cpp:106-119 | apply_snapshot and append are never refused and keep the log |
| `ReadyRounds.RaftNode.Advance` | raft-kv/raft/node.cpp:157-182 | Same log, applied cursor past what was handed out, nothing unstable left |
| `ReadyRounds.EntriesToApply` | raft-kv/server/raft_node.cpp:307-324 | Fatal exactly for a gap, otherwise the part beyond the applied index |
| `ReadyRounds.ToApplyMeaning` | raft-kv/server/raft_node.cpp:307-324 | That part is exactly the entries above the applied index, consecutive from it |
| `ReadyRounds.RaftNode.Publish` | raft-kv/server/raft_node.cpp:160-190 | Neither the snapshot nor the gap check fails, and the application sees the next indices in order |
| `ReadyRounds.RaftNode.Round` | raft-kv/server/raft_node.cpp:97-134 | A turn without the snapshot trigger: same log, the next committed entries delivered in order after a pending snapshot, each in storage |
| `ReadyRounds.RaftNode.Turn` | raft-kv/server/raft_node.cpp:97-134 | A whole turn in the source's order, the trigger before advance: no fatal check is reached, and the log ends as after a round and a compaction behind the application, even when that reached unstable entries |
| `ReadyRounds.RaftNode.PullReadyEvents` | raft-kv/server/raft_node.cpp:97-134 | The loop ends with exactly the outstanding committed entries delivered, once and in order, everything stored, and the log at most compacted behind them |
| `ReadyRounds.ShortenedNext` | raft-kv/raft/raft_log.cpp:98-106 | Compaction behind the applied cursor does not change what is delivered next |
| `ReadyRounds.RaftNode.Follow` | raft-kv/raft/raft.cpp:1044-1052 | maybe_append between rounds keeps what has been delivered in order |
| `ReadyRounds.RaftNode.Install` | raft-kv/raft/raft.cpp:1149-1150 | A restored snapshot becomes the pending one and keeps what has been delivered in order |
| `ReadyRounds.RaftNode.MaybeTriggerSnapshot` | raft-kv/server/raft_node.cpp:326-366 | The snapshot and the compaction are never refused, and nothing stored after the new base changes |
| `Inflight.InFlights.Add` | raft-kv/raft/progress.cpp:23-44 | Appends to the queue with one growth at most; fails exactly on a full window |
| `Inflight.InFlights.FreeTo` | raft-kv/raft/progress.cpp:46-74 | Removes the leading elements at or below the argument, across the wraparound |
| `Inflight.InFlights.FreeFirstOne` | raft-kv/raft/progress.cpp:76-78 | Frees up to the first element |
| `Inflight.PeerProgress.BecomeProbe` | raft-kv/raft/progress.cpp:85-97 | Probes after the match, or after a delivered snapshot |
| `Inflight.PeerProgress.BecomeReplicate` | raft-kv/raft/progress.cpp:80-83 | Replicates after the match with an empty window |
| `Inflight.PeerProgress.BecomeSnapshot` | raft-kv/raft/progress.cpp:99-102 | Waits for the snapshot with an empty window |
| `Inflight.PeerProgress.IsPaused` | raft-kv/raft/progress.cpp:124-139 | Paused flag, full window or pending snapshot, by state |
| `Inflight.PeerProgress.MaybeUpdate` | raft-kv/raft/progress.cpp:141-152 | Raises match and next, and reports whether match rose |
| `Inflight.PeerProgress.MaybeDecreaseTo` | raft-kv/raft/progress.cpp:154-177 | Steps back on a current rejection and keeps `next` at least 1, so that retrying ends as in `ProgressSpec.RejectionsConverge` |
| `Inflight.PeerProgress.SendOptimistically` | raft-kv/raft/raft.cpp:1302-1307 | Recording a sent batch keeps flow control and cannot hit the full-window check |
| `ReadQueue.ReadOnly.AddRequest` | raft-kv/raft/readonly.cpp:58-69 | Queues a new context once and keeps queue and map in agreement; read indices stay in order whenever the new one is not lower |
| `ReadQueue.ReadOnly.RecvAck` | raft-kv/raft/readonly.cpp:14-25 | Counts distinct confirmations plus the local one; 0 for an unknown context |
| `ReadQueue.ReadOnly.Advance` | raft-kv/raft/readonly.cpp:27-56 | Releases exactly the queue prefix ending at a pending context; the fatal branch is not reached |
| `ReadQueue.ReadOnly.LastPendingContext` | raft-kv/raft/readonly.cpp:6-12 | None exactly when nothing is pending, otherwise a pending read behind which every other one is queued |
| `ReadQueue.ReleaseKeepsOrder` | raft-kv/raft/readonly.cpp:49-54 | Releasing a prefix leaves queue and map in agreement and the rest in order |
| `ReadQueue.AddKeepsOrder` | raft-kv/raft/readonly.cpp:64-68 | A request with no lower index than the pending ones joins at the end and keeps the order |
| `WalSpec.LenRoundTrip` | raft-kv/wal/wal.h:28-37 | A length within 24 bits survives its three bytes |
| `WalSpec.ReadBackExactlyFramable` | raft-kv/wal/wal.cpp:62-70 | A record is read back as written if and only if its type is not 0 and its payload is within 24 bits |
| `WalSpec.ParseRoundTrip` | raft-kv/wal/wal.cpp:165-215 | Framing and reading back is the identity |
| `WalSpec.ParseCut` | raft-kv/wal/wal.cpp:173-213 | A file cut at any byte yields exactly its whole records, and is cut back exactly when something is left over |
| `WalSpec.ParseMeaning` | raft-kv/wal/wal.cpp:165-215 | Every record read from any bytes lies at its place, framed, with a stored word that is 0 or the checksum of its data, and reading stops where no further such record lies |
| `WalSpec.ParseIsOnly` | raft-kv/wal/wal.cpp:165-215 | Records with that property are the ones that are read, no others |
| `WalSpec.ParseOverwritten` | raft-kv/wal/wal.cpp:199-213 | Whole frames, then one with its payload replaced by another of the same length and a different checksum, then anything: exactly the frames before it are read and the file is cut back to them |
| `WalSpec.ReplayDamagedFile` | raft-kv/wal/wal.cpp:165-225 | A file cut or with a payload changed after its first record reads as the file of a cut history, and its kept bytes are well formed |
| `WalSpec.ReplayBatch` | raft-kv/wal/wal.cpp:235-247 | Reading a batch's entry records is MemoryStorage's append of the batch |
| `WalSpec.ReplayFile` | raft-kv/wal/wal.cpp:165-225 | Replaying a file gives what storage holds after the same batches and the last non-empty hard state |
| `WalSpec.ReplayCutFile` | raft-kv/wal/wal.cpp:165-225 | A file cut anywhere after its first record reads as the file of a cut history, and its kept bytes are well formed |
| `WriteAheadLog.WalFile.Append` | raft-kv/wal/wal.cpp:62-70 | The buffer grows by one frame |
| `WriteAheadLog.WalFile.Sync` | raft-kv/wal/wal.cpp:72-84 | The whole buffer goes to the file |
| `WriteAheadLog.WAL.Save` | raft-kv/wal/wal.cpp:279-308 | File and buffer hold exactly the calls made; entries, a new term or a new vote are on disk at once |
| `WriteAheadLog.WAL.SaveSnapshot` | raft-kv/wal/wal.cpp:315-325 | The snapshot record and everything before it are on disk |
| `WriteAheadLog.WAL.HandleRecord` | raft-kv/wal/wal.cpp:227-277 | One record read back, failing exactly where the source aborts |
| `WriteAheadLog.WAL.ReadAll` | raft-kv/wal/wal.cpp:165-225 | Goes through the records `WalSpec.ParseMeaning` describes, truncates the rest, and fails exactly when a record is unusable or no snapshot record is found |
| `WriteAheadLog.Create` | raft-kv/wal/wal.cpp:106-128 | A new file holds the record of the empty snapshot |
| `WriteAheadLog.Recover` | raft-kv/server/raft_node.cpp:207-244 | From a file cut at any byte or with a payload changed, past its first record: storage as a cut history left it, its last hard state, and a log ready for appending |
| `Glob.MatchClass` | raft-kv/server/redis_store.cpp:37-92 | The class loop finds whether some item holds and where the class ends |
| `Glob.MatchStar` | raft-kv/server/redis_store.cpp:14-29 | A run of stars followed by the rest at every position |
| `Glob.StringMatchLen` | raft-kv/server/redis_store.cpp:10-128 | The matcher ends and, on a text that is not empty, answers membership in the pattern's language |
| `Glob.Matches` | raft-kv/server/redis_store.cpp:265-271 | With and without regard to case, for every pattern and non-empty key, true exactly for the keys in the language |
| `Glob.EmptyKey` | raft-kv/server/redis_store.cpp:12-128 | The empty text is in the language of the runs of stars only, where the matcher says no unless the pattern is empty |

## Left out

- Learners, membership change and leader transfer: not part of a node's step; voters are fixed.
- Snapshots and compaction in the cluster: no MsgSnap is sent or received there; they are covered in the two-layer log and the Ready rounds only.
- Crash and restart in the cluster: replay of the write-ahead log is proved separately.
- Lease guarantees: `check_quorum_active` never clears `recent_active` (`raft-kv/raft/raft.cpp:1501-1514`), so a peer once heard counts until the leadership ends and nothing about time follows; the answers of the check are proved.
- Status results of dropped proposals, logging and soft state: no property here depends on them.
- Order and multiplicity of outgoing messages: a node's messages are a set in the specification; the object keeps a list and is compared as a set.
- Sharing of entry, progress and snapshot pointers: `RaftNodeImpl.Raft` holds its peers' progress as values; the in-place progress and ring are proved against the same functions in `Inflight.PeerProgress` and `Inflight.InFlights`.
- 64-bit overflow of terms, indices and byte totals: naturals are unbounded.
- End-to-end linearizable reads: the heartbeat answer does not carry the read context (`raft-kv/raft/raft.cpp:1076-1083`), so no confirmation ever arrives; the queue and what a confirmation would release are modelled.
- CRC, msgpack and the byte order of other machines: the checksum is any function, packing any faithful code, numbers are little-endian.
- Transport, sessions, threads, the Redis protocol and the snapshot files: I/O around the core.
- Availability.AvailableExactly: for pre-vote on there is only the counterexample of `Availability.StuckWithPreVote`; timeouts and deliveries are chosen, so it says what can always still happen, not that every fair run gets there; the window is not 0, as `Config::validate` demands.
- SplitCommit.CommitsSafeExactly: the window is not 0, as `Config::validate` demands.
- RaftNodeImpl.Raft.Step: the log has not been compacted, so the branch that sends a snapshot is never taken.
- RaftNodeImpl.Raft.constructor: covers an empty storage without a hard state; the bootstrap entries of RawNode's constructor appear only in `ClusterSpec.InitialNode`.
- RaftNodeImpl.Raft.Reset: does not model the timers and the leader transfer, which are outside the model.
- RaftNodeImpl.Raft.BcastHeartbeat: does not carry the context of a pending read.
- RaftNodeImpl.Raft.HandleHeartbeatResp: read confirmations are `RaftNodeImpl.Raft.ConfirmRead`; with a window of 0, which `Config::validate` refuses, the source reads an empty ring (`raft-kv/raft/progress.cpp:76-78`) where the specification frees nothing.
- RaftNodeImpl.Raft.StepPeer: leader transfer is outside the model.
- RaftNodeImpl.Raft.StepLeader: leader transfer is outside the model; read requests are `RaftNodeImpl.Raft.ReadIndex`.
- RaftNodeImpl.Raft.StepCandidate: MsgSnap and MsgTimeoutNow are outside the model.
- RaftNodeImpl.Raft.StepFollower: MsgSnap, leader transfer, MsgTimeoutNow and forwarded reads are outside the model.
- RaftNodeImpl.Raft.ReadIndex: answers are returned, where the source adds to the read states or sends a MsgReadIndexResp; the heartbeats carry no context.
- RaftNodeImpl.Raft.ConfirmRead: answers are returned in the same way.
- TwoLayerLog.MemoryStorage.CreateSnapshot: an index below the storage base makes the source read before its vector, so it is not asked for.
- Inflight.InFlights.Add: a capacity of at most 2^31, beyond which the source's 32-bit counters wrap.
- Inflight.InFlights.FreeFirstOne: the ring is not empty, since the source reads its first slot.
- ReadyRounds.RaftNode.Save: the write to the write-ahead log before it is `WriteAheadLog.WAL.Save`; the snapshot file is not modelled.
- ReadyRounds.RaftNode.Advance: previous soft and hard state and read states only decide whether a later Ready is offered.
- ReadyRounds.RaftNode.Publish: a configuration change that cannot be unpacked is skipped by the source without moving its applied index; here every entry moves it.
- ReadyRounds.RaftNode.Round: for the node whose log is never compacted; sending the messages is outside the model.
- ReadyRounds.RaftNode.Turn: the write to the write-ahead log, the snapshot files and sending the messages are left to other members or outside the model.
- ReadyRounds.RaftNode.PullReadyEvents: a Ready that carries only messages, soft or hard state has no part in the log and is not a turn here.
- ReadyRounds.RaftNode.MaybeTriggerSnapshot: the state of the application in the snapshot and its file are not modelled.
- WriteAheadLog.WAL.ReadAll: one file, which is all `WAL::cut` ever leaves; file names, directories and I/O errors are not modelled.
