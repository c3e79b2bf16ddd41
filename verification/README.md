# Verification of a simulated Raft key-value store

This project models the store's replication protocol, the durability machinery beneath it, its byte
formats, its state machine, and the checkers that judge its runs, and proves what they are for. It is
Dafny only; `dafny verify dfyconfig.toml` checks all of it.

## How it is layered

| modules | what they are |
|---|---|
| `Types`, `RaftSpec` | the data, and one function per event of one node: its next value and the packets it sends |
| `RaftLog` | the log in memory with the byte offsets of its records |
| `RaftNode` | the same node as a class whose handlers and loops update fields in place; every handler, from `OnRequestVote` to `OnHeartbeat`, is proved to turn the object into what its function in `RaftSpec` gives and to send what that sends |
| `Handlers`, `Completions`, `Progress` | what comes of each event, in terms of logs, terms and majorities alone; and what a round without loss achieves: an election, a command applied |
| `Cluster` | many nodes, the set of all packets ever sent (so loss, duplication and reordering are all runs), crashes and restarts, and a history that only the proofs can see |
| `ClusterInv` to `ClusterSafety` | the inductive invariant and its preservation by every event |
| `ClusterTheorems` | what holds of every run |
| `ReadIndex`, `ReadTrace`, `StaleRead` | when reads are fresh, what that means in terms of messages, and a run in which one is not |
| `Provenance`, `ClientHistory`, `EndToEnd` | where log entries come from, and the store as its clients see it: histories of cluster runs are linearizable |
| `Backoff`, `Membership` | the back-off of an unmatched append; one-server-at-a-time configuration changes |
| `Crc32`, `CrcRemainder`, `Codec`, `EntryCodec`, `LogFile`, `Wire` | the checksum, as the code computes it and as a remainder of polynomials; the fields, the log file and its recovery, the messages |
| `Unicode`, `Layout`, `Decoding` | what valid strings are, what is written byte for byte, and that only messages decode |
| `Disk`, `Persister`, `Durability`, `LongRecords` | files under crashes, batches in flight, the write-ahead file and what of its claims comes back |
| `LogTail`, `AppendRuns` | what a crash leaves of the end of the log file, byte by byte, and of a node that only appends |
| `HardSlots`, `Snapshots` | the two hard-state slots, the two snapshot files |
| `StateMachine`, `Server` | exactly-once application, images, answering waiting clients |
| `Linearizability`, `SearchSpec`, `LinkedList`, `Timeline`, `Search`, `Locality`, `Recorder` | the definition, the search on an array-backed list, the partition by key, the recorder |
| `Watermarks`, `Rng` | the incremental checker; bounded sampling and the shuffle |

The protocol proof follows acknowledgements the way Paxos follows promises. An acknowledgement
"(term T, index m)" means that the node matched the log of the leader of T through m while in T; only
a leader of a later term may have replaced it since. Every election has on file what its voters had
acknowledged, or still owed, to earlier terms; an index is *blocked* once some later election's voters
can never acknowledge it. An entry is in the log of every later leader or blocked, and a committed
entry is never blocked.

## What the code does not do

Five properties are false of the code as it stands. Each has here a concrete run or crash that breaks it
and a condition under which it holds, exact for all but the first.

* **A read can be stale.** A node that gets a probe of an older term answers with its own, newer term
  and the probe's number (kvstore/raft.rs:1583-1595), and a restart sets the numbering back to zero
  (kvstore/raft.rs:1022). If the prober restarts and then leads that newer term, the delayed answer
  counts for a read it knows nothing of. `StaleRead.StaleReadServed` is such a run of three nodes.
  A read is fresh if a quorum truly vouched for it, whatever else was counted
  (`ReadIndex.ServedReadsAreFresh`), and a quorum did unless such a reply, numbered for this read or a later
  one, was counted in the leader's term (`ReadIndex.GenuineUnlessTainted`); none is when each counted reply
  answers a probe its leader sent since it last restarted (`ReadTrace.CurrentRepliesAreVouched`).
* **The newest hard state can be lost.** Slots alternate by number without waiting for the disk, so an
  unsynced write can go over the newest durable slot (kvstore/raft.rs:2367-2378), and torn where it first
  differs leaves a slot that does not check out. `HardSlots.HardStateSafeIff`: the newest durable hard state
  or a later one comes back from every crash exactly when no unsynced write is for its slot, whatever was
  refused in between and whatever else is unsynced in the file. While nothing is refused that is at most
  one write (`HardSlots.WithoutGapsOneIsSafe`); after a refused write, one is enough to lose the state
  (`HardSlots.RefusedWriteLosesState`, a run of two writes).
* **A log record of more than 1 MiB does not read back**, although two fields of 1 MiB each are accepted
  on the wire (kvstore/log.rs:40-41, kvstore/log.rs:477-482). `Durability.DurableClaimsHold` says exactly
  which durable claims come back, and `LongRecords.ClaimedButTooLong` is a run without a single failure
  whose claim does so exactly when its record is within the limit.
* **A cut record can come back.** A lost `set_len` under a landed rewrite leaves the old tail behind the
  new record (`LogTail.StaleTailComesBack`), and recovery takes it in exactly when its term is not below the
  new record's. Once no cut is unsynced, a prefix of the log comes back exactly when no record whose write
  may be torn under a later one reads, with its end a hole, as another record
  (`AppendRuns.PrefixComesBackIff`); the last write, and those behind a refused one, need no such condition.
* **A snapshot of more than one field's length does not read back.** `Snapshot::encode` has no limit;
  `decode` refuses data longer than 1 MiB (kvstore/lib.rs:155-161, kvstore/log.rs:576-601). One such
  snapshot loses nothing while the log file still begins at the first entry, for compaction leaves the
  file alone. Once a received snapshot has replaced the log, or a restart has begun it anew, one is enough:
  it completes in the other file, and the next one is written over the only snapshot that reads
  (`Snapshots.OneOversizedLosesAll`). No crash loses anything exactly when the log file begins at the first
  entry, or the newest completed snapshot reads back, or the other file has one the log joins on to, and no
  unsynced write changes it (`Snapshots.CompactedNeverLost`).

Smaller ones: a client's late retry of an older command is answered with its latest command's outcome
(`StateMachine.LateRetryAnswered`), a vote for node number 4294967295 reads back as no vote
(`HardSlots.SlotReads`), a redirect to that node reads back as no hint (`Wire.MessageComesBack`), and an
operation that completes at the instant it was invoked, which the recorder calls well formed, fits no
linearization (`Linearizability.EmptyWindow`). The log module's documentation has a damaged file cut back
after recovery (kvstore/log.rs:13-17); the code only moves the place of the next append
(kvstore/raft.rs:963-977), so what lay behind the damage stays, and `AppendRuns` starts from a file that
ends with its log.

## Hypotheses

* **Crash step of the cluster.** A node comes back with a prefix of its log that is not below its durable
  claim and holds no entry of a term above the recovered one, and with the newest durable hard state or a
  later one in flight, those of failed batches included. `AppendRuns.CrashLeavesRecoverable` proves the log's
  part from the bytes of the file for nodes that append, cut and rewrite their log, whenever no cut is
  unsynced; with one unsynced it is not true in general (`LogTail.StaleTailComesBack`).
  `HardSlots.HardStateSafeIff` proves the hard state's part while no unsynced write is for the slot of the
  newest durable state, and that otherwise it is not so.
* **Membership** is fixed in the cluster theorems, and client commands are never membership changes.
* **Holes.** That a record whose end is a hole does not read as another record is a hypothesis of the
  lemmas about appends, never assumed: one changed byte always changes the checksum
  (`Crc32.OneByteChangesCrc`), many need not.
* **Client histories** (`EndToEnd.HistoryOf`) have one number for each of a client's commands, and answers given
  once some node has applied the command, a retry of it perhaps, before any newer command of the client, or
  has served the read, out of what that node has applied.
* **Slots.** What is left of the slot that is not authoritative checks out only as something written there;
  that the torn authoritative slot does not check out is proved.
* **History times.** The search is exact on all histories, with real time read as "every operation is
  invoked before each operation placed at or after it returns". Placing all unanswered operations is
  equivalent to placing some of them when every operation is invoked before the end of time and an
  operation without an outcome has no completion time.
* **The incremental checker** is given logs that only grow or are compacted between two observations that
  are not flagged apart.

## Model

| member | source | states |
|---|---|---|
| ClusterTheorems.ElectionSafety | kvstore/raft.rs:1757-1896 | In every run, through crashes, loss, duplication and reordering, at most one node ever leads a given term |
| ClusterTheorems.OneVotePerTerm | kvstore/raft.rs:1816-1880 | Of all votes a node ever revealed in a term, those it granted and its own that it asked others to match, all are for one candidate, repeated requests and pending writes included |
| ClusterTheorems.TermsStayDurable | kvstore/raft.rs:2866-2894 | A node never comes back at a term below one it has spoken in: every packet's term stays at or below its sender's durable term |
| ClusterTheorems.LogMatching | kvstore/log.rs:361-391 | Logs of any two nodes at any two times that agree on the term at an index agree on everything up to it |
| ClusterTheorems.LeaderCompleteness | kvstore/raft.rs:2291-2311 | What any node ever counts as committed is in the log of every leader of that term from then on, and of every leader of a later term at any time of the run, before or after |
| ClusterTheorems.CommittedPrefixesAgree | kvstore/raft.rs:2187-2193 | What any two nodes count as committed, at any two times, agrees up to the shorter |
| ClusterTheorems.StateMachineSafety | kvstore/raft.rs:1309-1324 | No two nodes ever apply different entries at one index |
| ClusterTheorems.CommittedEntriesStay | kvstore/raft.rs:2215-2252 | No event but the node's own crash lowers its commit index or changes an entry below it |
| ClusterTheorems.RunInv | kvstore/raft.rs:1144-1290 | The protocol invariant holds in every state of every run |
| ClusterTheorems.RunGrows | kvstore/raft.rs:2879-2894 | Leader logs, elections, acknowledgements and commits, once made, are never unmade along a run |
| ClusterSafety.StepKeepsInv | kvstore/raft.rs:1144-1290 | Every event of every node, crashes included, keeps the invariant |
| ClusterFacts.CommittedInLater | kvstore/raft.rs:2291-2311 | An index a quorum acknowledged in a term is in the log of every later term's leader |
| ClusterFacts.ChosenNotBlocked | kvstore/raft.rs:1816-1818 | No later election's voters all lack an index a quorum acknowledged |
| Handlers.VoteAnswered | kvstore/raft.rs:1779-1880 | A vote is given exactly to a candidate whose log is no worse, if the vote of the term is free or the candidate's already; it is said when it is durable |
| Handlers.VoteRefused | kvstore/raft.rs:1788-1806 | A request of an older term is refused, and one of a newer term not to be heard is dropped, and neither changes the node |
| Handlers.VoteCounted | kvstore/raft.rs:1882-1896 | A candidate leads as soon as a majority of the members has voted for it, and not before |
| Handlers.TimesOut | kvstore/raft.rs:1757-1777 | A node stands for the next term with its own vote, written down before it asks |
| Handlers.OthersHeard | kvstore/raft.rs:1654-1684 | A round of pre-votes makes a candidate give up; a newer term is heeded and written down |
| Handlers.FailureStops | kvstore/raft.rs:1257-1267 | A node whose storage failed takes no action that waited for it and does nothing any more |
| Handlers.Restarts | kvstore/raft.rs:991-1036 | A restarted node follows with the term, vote and log it recovered, has committed nothing, and numbers its next hard state higher |
| Handlers.AppendCommits | kvstore/raft.rs:2187-2193 | An append behind a matching entry makes a follower hold all its entries and commit up to the leader's commit index and its own last entry, whichever is lower, if that is more than before |
| Handlers.AppendTakes | kvstore/raft.rs:2077-2185 | The log is cut at the first entry the append contradicts or that is missing, with every claim that reached past it, and the rest is taken over and on its way to disk |
| Handlers.AppendKnown | kvstore/raft.rs:2150-2186 | An append with nothing new leaves log and claim alone, and is acknowledged up to what is durable |
| Handlers.AppendRefused | kvstore/raft.rs:2046-2075 | An append of an older term or behind a missing entry changes no log, commits nothing, and is answered with where to try next |
| Completions.AckCounted | kvstore/raft.rs:2254-2311 | A leader commits the greatest index a majority is known to hold, if the entry there is of the leader's term and new, and nothing else, and sends the peer what it lacks |
| Completions.CommitsAll | kvstore/raft.rs:2291-2311 | No entry of the leader's term above its commit index is left that a majority is known to hold |
| Completions.RefusalCounted | kvstore/raft.rs:2275-2288 | A refusal moves the peer's next index back, to where the peer points if that is lower |
| Completions.StrayAck | kvstore/raft.rs:2263-2269 | An answer of a newer term makes the node follow in it; any other that is not for this leader changes nothing |
| Completions.EntriesLanded | kvstore/raft.rs:2446-2486 | A completed write of entries extends the claim over all that has landed next to it and whose terms are durable, and is acknowledged up to the claim |
| Completions.HardLanded | kvstore/raft.rs:1270-1283 | The newest hard state that landed counts, and the claim grows with the terms it knows |
| Completions.CampaignLanded | kvstore/raft.rs:2425-2440 | A candidate whose own vote is durable asks every other member for its vote |
| Completions.AnswerLanded | kvstore/raft.rs:2441-2445 | An answer that waited for the disk is given once it may be |
| Completions.BatchLanded | kvstore/raft.rs:1268-1287 | When a batch is durable its hard state counts first, and then its action is taken |
| Completions.CommandTaken | kvstore/raft.rs:1292-1305 | A command becomes the next entry of a leader's log, and is sent to every other member behind what stands before it |
| Completions.ReadTaken | kvstore/raft.rs:1499-1528 | A read is taken, at the commit index and with the next probe number, exactly by a leader in whose own term something is committed |
| Completions.ReplyCounted | kvstore/raft.rs:1619-1645 | A read is confirmed exactly when a majority, the leader included, has answered its probe or a later one |
| Completions.StrayReply | kvstore/raft.rs:1619-1629 | A probe's answer of a newer term makes the node follow in it; any other that is not for this leader changes nothing |
| Completions.ProbeAnswered | kvstore/raft.rs:1575-1617 | A probe is answered with its number, in the node's own term if the probe's is older |
| Completions.HeartbeatSends | kvstore/raft.rs:1232-1247 | A heartbeat sends every peer what is next for it, and probes again while a read waits to be confirmed |
| Completions.Drained | kvstore/server.rs:555-599 | All that is committed is applied, and a leader then serves exactly the confirmed reads it has applied |
| Progress.OneRoundApplies | kvstore/raft.rs:1967-2311 | A command a leader takes is committed in one round without loss, and the next heartbeat has every follower that was in step apply it, if they and the leader are a majority |
| Progress.OneElection | kvstore/raft.rs:1757-1896 | A node that stands is elected in one round without loss, if it and the nodes whose logs are no better and who have not heard of its term are a majority |
| EndToEnd.HistoriesAreLinearizable | kvstore/server.rs:555-621 | In every run, the history of all that clients asked for, commands and their retries and reads, is linearizable over the map, if a quorum truly vouched for each of its reads |
| EndToEnd.VouchedHistoriesAreLinearizable | kvstore/raft.rs:1619-1645 | So it is if every reply a leader counted had been given in the leader's term, or is too old to count |
| ClientHistory.PlacedIsLinearizable | kvstore/server.rs:246-289 | Operations that fit one list of commands, each command where it first stands and each read between two, have one legal order if none takes effect after one that had returned when it was invoked |
| Provenance.RunKnown | kvstore/raft.rs:1292-1305 | Every entry of every log and every packet of a run was asked for by a client at an earlier step, but for leaders' opening entries |
| ReadIndex.ServedReadsAreFresh | kvstore/raft.rs:1499-1548 | A served read's index is at least every commit index any node had ever had when it was accepted, and the state it is served from has applied all of that, whenever a quorum truly vouched for it, whatever else was counted |
| ReadIndex.GenuineUnlessTainted | kvstore/raft.rs:1630-1644 | Every served read was truly vouched for by a quorum, unless a reply not given in the leader's term, numbered for it or a later one, was counted |
| ReadIndex.AllVouchedGenuine | kvstore/raft.rs:1630-1644 | Every read served in a run whose counted replies are all vouched for was truly vouched for by a quorum |
| ReadTrace.CurrentRepliesAreVouched | kvstore/raft.rs:1575-1645 | If every counted reply answers a probe its leader sent since it last restarted, every counted reply is vouched for: given in the leader's term, or numbered no higher than its probes were when it was elected |
| ReadTrace.StepKeepsTrace | kvstore/raft.rs:1583-1617 | Every event keeps what a node's probes since its last restart and the answers to them have in common with the record of reads |
| ReadIndex.StepKeepsReads | kvstore/raft.rs:1619-1645 | Every event keeps the read invariant, whatever reply it counts |
| ReadIndex.ConfirmedIsFresh | kvstore/raft.rs:1630-1644 | A quorum that truly vouches for a read leaves no room for a leader of a later term at the time it was accepted |
| ReadIndex.CommittedBelow | kvstore/raft.rs:1503-1506 | A leader that committed in its own term has everything earlier terms committed below its commit index |
| StaleRead.StaleReadServed | kvstore/raft.rs:1583-1595 | A run of three nodes serves a read below what another node had committed when the read was accepted; no quorum truly vouched for it |
| RaftNode.ReachGreatest | kvstore/raft.rs:2821-2854 | The claim ends at the greatest index under the durable-term cap with everything above the old claim covered |
| RaftNode.ReachUnordered | kvstore/raft.rs:2821-2854 | The claim does not depend on the order in which ranges landed |
| RaftNode.Extend | kvstore/raft.rs:2835-2854 | The loop over parked ranges ends exactly there, keeping the ranges that end above the claim |
| RaftNode.QuorumIndexUnique | kvstore/raft.rs:2291-2304 | There is one greatest index that a quorum holds |
| RaftNode.RaftNode.QuorumHolds | kvstore/raft.rs:2292-2304 | The quorum-th entry of the sorted indices is the greatest index a quorum holds |
| RaftNode.MatchingAppendKeeps | kvstore/raft.rs:2077-2095 | An append that contradicts nothing removes nothing, however late or often it arrives |
| RaftNode.AppendRemovesFromConflict | kvstore/raft.rs:2084-2113 | What an append removes begins at the first entry that contradicts the log |
| RaftNode.ScanEntries | kvstore/raft.rs:2080-2095 | The scan stops at the first entry the log lacks or holds with another term |
| RaftSpec.FirstNew | kvstore/raft.rs:2080-2095 | Everything before it matches the log, and it is itself missing or contradicted |
| RaftSpec.LastIndexAtMost | kvstore/log.rs:418-420 | Splits the log at the first term above the bound |
| RaftNode.RaftNode.AdvanceDurable | kvstore/raft.rs:2821-2865 | The whole new state: the claim, the ranges kept, and the overflow of parked ranges |
| RaftNode.RaftNode.Hint | kvstore/raft.rs:2199-2213 | The first index of the run of the conflicting term, or one past the log |
| RaftNode.RaftNode.OnReadProbeResp | kvstore/raft.rs:1619-1645 | Counting a reply and confirming every read a quorum of members vouches for |
| RaftNode.RaftNode.Drain | kvstore/server.rs:555-599 | Everything committed is applied before any confirmed read at or below it is answered, and a lost leadership drops its reads |
| RaftLog.RaftLog.Append | kvstore/log.rs:366-380 | The entry is added, every record's offset stays what it was, and the end moves by the new record |
| RaftLog.RaftLog.TruncateFrom | kvstore/log.rs:383-391 | The suffix goes, never into the snapshot, and the next record's place is where the cut was |
| RaftLog.RaftLog.CompactTo | kvstore/log.rs:278-293 | The prefix goes, and every surviving entry keeps its index, its term and its place in the file |
| RaftLog.RaftLog.SliceFrom | kvstore/log.rs:394-401 | The entries from an index on, as many as there are up to the limit |
| RaftLog.RaftLog.LastIndexWithTermAtMost | kvstore/log.rs:418-420 | Entries up to it are exactly those of the term or earlier |
| RaftLog.RaftLog.constructor | kvstore/log.rs:249-260 | The entries behind a snapshot have their records one after another from offset 0 |
| RaftLog.EntryKnown | kvstore/log.rs:338-358 | Of every index it has an entry for, the log gives that entry, its term and the place of its record |
| RaftLog.NothingElseKnown | kvstore/log.rs:351-358 | Of any other index it knows nothing but the terms of index 0 and of the snapshot's last index |
| Backoff.BackoffBound | kvstore/raft.rs:2282-2288 | An append is accepted after at most one rejection per distinct term in the follower's log, plus one |
| Backoff.RejectionsAre | kvstore/raft.rs:2275-2288 | What that counts: the tries, one after another, are rejected but for the last, which is accepted |
| Backoff.RoundTrip | kvstore/raft.rs:2046-2075 | A rejection moves the leader to exactly the next try of that bound, and an acceptance is one |
| Backoff.RunLeavesTerm | kvstore/raft.rs:2199-2213 | Backing over a run leaves a term of the follower's log behind |
| Membership.MajoritiesMeet | kvstore/raft.rs:1390-1402 | Majorities of neighbouring configurations have a server in common |
| Membership.NeighboursMeet | kvstore/raft.rs:1390-1402 | Majorities of the configurations before and after any entry of the log meet |
| Membership.CompactionKeepsInForce | kvstore/raft.rs:2489-2498 | Compaction changes no configuration at or after the compaction point |
| Membership.CompactionKeepsChain | kvstore/raft.rs:2489-2498 | After compaction consecutive configurations still differ by one server |
| Membership.ConfigNode.ConfigAt | kvstore/raft.rs:1352-1362 | The scan finds the newest membership entry at or below the index, or the base configuration |
| Membership.ConfigNode.Append | kvstore/raft.rs:2114-2122 | Entries after which the log is a beginning of a chained leader's log leave it chained, with the configuration at hand the newest in it |
| Membership.ConfigNode.TruncateFrom | kvstore/raft.rs:2236-2240 | A truncated membership entry takes its configuration with it |
| Membership.ConfigNode.CompactTo | kvstore/raft.rs:2489-2498 | The configuration at hand survives compaction unchanged |
| Membership.ConfigNode.ProposeMembership | kvstore/raft.rs:1403-1455 | Accepted exactly from a leader whose commit index is at an entry of the leader's term, with no change uncommitted, and if one server changes; every earlier change, and every entry of an earlier term, is committed then |
| Membership.NewestCommitted | kvstore/raft.rs:1416-1418 | If the newest membership entry is committed, all of them are |
| Search.CheckPartition | checker/linearizability.rs:283-408 | The answer is exact: Legal only if some legal order exists, Violation only if none does; and Unknown only if the budget is less than the configurations that legal beginnings of an order lead to, times the length of the list |
| Search.CheckHistory | checker/linearizability.rs:263-281 | Legal vouches for one legal order over the whole map, Violation names a key whose operations have none, so the map has none, and Unknown names a key whose operations lead to more configurations than the budget is enough for |
| SearchSpec.BoundAtWorst | checker/linearizability.rs:364-380 | There are at most as many configurations as sets of operations times values the register can have |
| Search.StuckIsDead | checker/linearizability.rs:386-396 | When a return blocks the scan, no order completes the operations placed so far |
| Search.CachedIsTried | checker/linearizability.rs:364-380 | Skipping a cached configuration loses no order |
| Search.PathKeepsFinish | checker/linearizability.rs:340-345 | A path that reached the end is a legal order of everything |
| Search.PopKeepsPath | checker/linearizability.rs:388-405 | Undoing the last choice restores the list cell for cell |
| LinkedList.UnliftUndoes | checker/linearizability.rs:410-422 | Putting back the return and then the call undoes lifting the call and then the return |
| LinkedList.UnlinkedLinked | checker/linearizability.rs:410-414 | Unlinking a cell leaves a list of the other cells in order |
| LinkedList.Unlink | checker/linearizability.rs:410-414 | The array after an unlink |
| LinkedList.Relink | checker/linearizability.rs:416-422 | The array after a relink |
| Timeline.BuildList | checker/linearizability.rs:289-337 | The list visits every call and return in time order, and a call stands before a return exactly when it was invoked before it returned |
| Timeline.SortedEvents | checker/linearizability.rs:294-304 | Each call and return once, returns before calls at equal times |
| Timeline.OrderIs | checker/linearizability.rs:299-304 | Events go by time, returns first at one time, and by number among those |
| SearchSpec.CanFinishIsLinearizable | checker/linearizability.rs:283-408 | The recursion the search explores succeeds exactly on linearizable histories |
| Linearizability.RealTimeIsInstants | checker/linearizability.rs:3-6 | An order respects real time exactly when an instant can be picked inside every window in that order |
| Linearizability.PlacingAllIsPlacingSome | checker/linearizability.rs:20-24 | Placing every unanswered operation is equivalent to choosing which of them happened |
| Linearizability.EmptyWindow | checker/linearizability.rs:289-304 | An operation that returned no later than it was invoked has no place in any order |
| Locality.LocalityTheorem | checker/linearizability.rs:11-14 | The keyed history has one legal order over the map exactly when each key's part has one |
| Locality.RunsMapByKey | checker/linearizability.rs:191-221 | An order runs on the map exactly when each key's part runs on its register |
| Locality.MergeRealTime | checker/linearizability.rs:262-281 | Merging per-key orders by latest invocation respects real time |
| Recorder.History.Push | checker/linearizability.rs:90-93 | The operation is appended and the index still names the latest position of every id |
| Recorder.History.Complete | checker/linearizability.rs:97-105 | Exactly the latest operation of that id is answered; false iff the id is unknown |
| Recorder.History.CheckWellFormed | checker/linearizability.rs:129-148 | True exactly on well-formed histories |
| Recorder.AnswerReachesAsker | checker/linearizability.rs:97-105 | In a well-formed history the answer reaches the operation that asked and keeps the history well formed |
| Crc32.ComputeCrc | kvstore/lib.rs:193-203 | The nested loop computes the CRC-32 of section 8 of RFC 1952 |
| CrcRemainder.CrcIsRemainder | kvstore/lib.rs:193-203 | The checksum is the complement of the remainder of the message, its first 32 bits complemented, times x^32, over the generator polynomial of section 8.1.1.6.2 of ITU-T V.42, and of no other polynomial of a lower degree |
| CrcRemainder.ChecksumIsRemainder | kvstore/lib.rs:193-203 | The same, of the checksum as a number: bit j is the complement of the coefficient of x^(31 - j) |
| Crc32.BitStepInjective | kvstore/lib.rs:197-200 | One bit step is injective in the register |
| Crc32.OneByteChangesCrc | kvstore/lib.rs:193-203 | Data changed in exactly one byte, whatever its length, has another checksum |
| Wire.OneByteIsRefused | kvstore/lib.rs:207-224 | Every frame changed in exactly one byte is refused |
| Wire.CorruptedIsRefused | kvstore/lib.rs:252-263 | Every encoded message changed in exactly one byte is refused |
| Wire.MessageComesBack | kvstore/lib.rs:236-263 | A message decodes to itself exactly when it is within the limits of the format |
| Wire.RaftReads | kvstore/raft.rs:345-514 | The same for each message between servers |
| Wire.ClientReads | kvstore/server.rs:102-145 | The same for requests and replies |
| Wire.FrameReads | kvstore/lib.rs:207-224 | Unframing undoes framing |
| Decoding.DecodedIsMessage | kvstore/lib.rs:252-263 | Whatever decodes is a message within the limits in a frame that checks out, with nothing behind it, read from the bytes it is written as, but for truth values and the command's own client and number |
| Decoding.FieldRefused | kvstore/lib.rs:130-176 | Which error a field that cannot be read gives |
| Layout.RaftLayout | kvstore/raft.rs:345-436 | Which numbers a message between servers is written as, in which order and how wide |
| Layout.ClientLayout | kvstore/server.rs:102-125 | The same for requests and replies |
| Layout.EntryLayout | kvstore/log.rs:193-196 | The same for entries |
| Layout.OpLayout | kvstore/log.rs:85-109 | The same for operations |
| Layout.OutcomeLayout | kvstore/server.rs:53-72 | The same for outcomes |
| Layout.MessageLayout | kvstore/lib.rs:236-250 | A frame is the checksum of the payload and the payload |
| Layout.RecordLayout | kvstore/log.rs:207-216 | A record is the length and checksum of its entry, and the entry |
| Layout.SlotLayout | kvstore/log.rs:662-675 | A slot is number, term and vote, their checksum, and zeros; slots alternate by number |
| Layout.SnapLayout | kvstore/log.rs:562-575 | A snapshot file is the length and checksum of number, index, term and data, and these |
| Layout.LimitsAre | kvstore/lib.rs:39 | The limits of the format |
| Layout.FieldAt | kvstore/lib.rs:81-89 | Each number stands behind those before it, in as many bytes as its width |
| Layout.DigitAt | kvstore/lib.rs:81-89 | Byte i of a number is its i-th digit to the base 256 |
| Unicode.Utf8IsEncoded | kvstore/lib.rs:163-168 | A string is valid exactly when it is the form of some Unicode scalar values by section 3 of RFC 3629 |
| Codec.FromLEOfLE | kvstore/lib.rs:81-89 | A little-endian integer reads back modulo its width |
| Codec.BytesRead | kvstore/lib.rs:155-161 | A length-prefixed field reads back exactly when it is within the field limit |
| Codec.Enc.PutInt | kvstore/lib.rs:81-89 | The bytes appended are the low bytes, lowest first |
| Codec.Enc.PutBytes | kvstore/lib.rs:91-95 | Length and bytes are appended |
| Codec.Enc.PutOptStr | kvstore/lib.rs:101-109 | A tag, and the string if there is one |
| Codec.Dec.Take | kvstore/lib.rs:130-137 | Exactly the next bytes, or an error if too few are left |
| Codec.Dec.GetInt | kvstore/lib.rs:143-153 | The integer whose bytes come next |
| Codec.Dec.GetBytes | kvstore/lib.rs:155-161 | The field, refused above the limit before anything is taken |
| Codec.Dec.GetStr | kvstore/lib.rs:163-168 | The field if it is UTF-8 |
| Codec.Dec.GetOptStr | kvstore/lib.rs:170-176 | The optional string, any other tag refused |
| EntryCodec.OpReads | kvstore/log.rs:85-138 | An operation reads back exactly when it is within the limits |
| EntryCodec.EntryReads | kvstore/log.rs:193-204 | The same for an entry |
| EntryCodec.EntryFrom | kvstore/log.rs:198-204 | The bytes an entry was read from are the bytes it is written as |
| EntryCodec.PutOp | kvstore/log.rs:85-109 | The encoder appends exactly those bytes |
| EntryCodec.GetOp | kvstore/log.rs:111-138 | The decoder reads exactly that operation, or fails with that error |
| EntryCodec.PutEntry | kvstore/log.rs:193-196 | The encoder appends exactly the entry's bytes |
| EntryCodec.GetEntry | kvstore/log.rs:198-204 | The decoder reads exactly that entry, or fails with that error |
| LogFile.RecordReads | kvstore/log.rs:207-216 | A record reads back exactly when its operation is within the limits and it is no longer than the record limit |
| LogFile.TornRecord | kvstore/log.rs:467-482 | No proper prefix of a record reads as one |
| LogFile.RecoverLogFrom | kvstore/log.rs:457-515 | The loop returns the entries, offsets, trusted bytes and damage flag of the recovery |
| LogFile.CutFileRecovery | kvstore/log.rs:457-515 | On any byte prefix of records, exactly the entries wholly inside it come back, with damage flagged iff the cut is off a boundary |
| LogFile.RecoverKeepsPrefix | kvstore/log.rs:457-515 | Whole records come back whatever bytes follow them |
| LogFile.TrustedBytesAreRecords | kvstore/log.rs:457-515 | On any bytes at all, what is trusted is exactly the records of what is returned, in index and term order |
| Disk.SimFile.Issue | simcore/disk.rs:186-211 | A write reaches the cache and the pending list, or nothing if it fails |
| Disk.SimFile.Sync | simcore/disk.rs:236-263 | A sync makes the file durable as the node sees it |
| Disk.SimFile.Crash | simcore/disk.rs:292-330 | A crash leaves some image the fault model allows |
| Disk.CrashSpares | simcore/disk.rs:292-330 | Durable bytes that no pending write reaches survive every crash |
| Disk.CacheIsCrashImage | simcore/disk.rs:292-330 | What the node saw is among the images |
| Persister.Persister.OnComplete | kvstore/raft.rs:666-697 | A sync is asked for exactly when the last write is confirmed; a failure removes its batch |
| Persister.Persister.ClampAll | kvstore/raft.rs:699-703 | Every claim in flight is cut back |
| Persister.CompletedOk | kvstore/raft.rs:666-697 | A batch always waits for exactly the writes still under way |
| Persister.NotedWriteOk | kvstore/raft.rs:638-643 | The same after issuing a write |
| Persister.CompletionTells | kvstore/raft.rs:666-697 | A sync is asked for exactly when no other write of the batch is on its way and none was asked for; the sync's completion gives the batch's action and hard state; a failure ends the batch |
| Persister.StrayCompletion | kvstore/raft.rs:666-697 | An operation of a batch that is gone, or of none, changes no batch |
| Persister.NotedWithBatch | kvstore/raft.rs:625-664 | Writes, hard state and sync are noted with their batch and nothing else changes |
| Durability.DurableClaimsHold | kvstore/raft.rs:602-708 | In every state of every run of overlapping, failing and truncated batches and crashes, what is claimed durable comes back unchanged from any image a crash could leave exactly when its records read back and the hard state that comes back knows its terms |
| Durability.ClaimsSurviveCrashes | kvstore/raft.rs:2821-2854 | The same for one state that satisfies the invariant |
| LongRecords.ClaimedButTooLong | kvstore/log.rs:477-482 | An entry within every limit of the format, claimed durable in a run without a failure, comes back from the crash that follows exactly when its record is not too long |
| LongRecords.LongestGetIsTooLong | kvstore/log.rs:40-41 | The longest request for a key is well formed, within the limits, and longer than a record may be |
| LogTail.StaleTailComesBack | kvstore/raft.rs:2401-2420 | With the truncation lost and the rewrite landed, the old next record comes back exactly when its term is not below the new record's |
| LogTail.PrefixComesBack | kvstore/log.rs:457-515 | However unsynced appends are lost, torn and reordered, recovery returns a prefix of what was appended, if no record at risk is misread |
| AppendRuns.PrefixComesBackIff | kvstore/log.rs:15-24 | That is so exactly when no record whose write is unsynced under a later one, before the first the disk refused, reads, with its end a hole, as another record |
| AppendRuns.CrashLeavesRecoverable | kvstore/raft.rs:911-990 | In every run that appends, cuts and rewrites its log, whatever overlaps or fails but the cuts, a crash while no cut is unsynced leaves a prefix of the log, not below the durable claim, of terms the hard state knows: what the cluster's crash step takes it to leave |
| AppendRuns.OrderlyStep | kvstore/raft.rs:2399-2421 | Every step of such a run keeps what the node sees laid out as its log, and, once no cut is unsynced, the durable bytes as its writes |
| AppendRuns.AppendStep | kvstore/raft.rs:2399-2421 | Every step of a node that only appends keeps its file laid out as its writes, each durable, on its way, or refused |
| Durability.WalStepOk | kvstore/raft.rs:2399-2483 | Every step keeps every claim, parked range and batch in flight backed |
| Durability.StoreOk | kvstore/raft.rs:2399-2421 | Cutting and rewriting the log keeps it, whichever of the writes fail |
| Durability.TruncatedOk | kvstore/raft.rs:2236-2251 | Clamping claims, batches and parked ranges on truncation keeps it |
| Durability.DoneIsBacked | kvstore/raft.rs:689-697 | A batch whose sync succeeded has its entries durable and out of reach of unsynced writes |
| Durability.AdvancedOk | kvstore/raft.rs:2821-2854 | Claiming parked ranges keeps it |
| Durability.RestartedOk | kvstore/raft.rs:911-990 | Whatever bytes a node starts from, its recovered log is backed by them |
| HardSlots.SlotReads | kvstore/log.rs:662-698 | A slot reads back, unless its vote is for the number that stands for no vote |
| HardSlots.RecoverHardState | kvstore/log.rs:707-721 | The loop finds the newest readable slot |
| HardSlots.NewestIsNewest | kvstore/log.rs:707-721 | The result is the readable slot with the highest number, or blank |
| HardSlots.HardStateSafeIff | kvstore/raft.rs:2367-2378 | The newest durable hard state or a later one comes back from every crash exactly when no unsynced write is for its slot, with numbers refused in between and log writes on their way or not |
| HardSlots.SharedSlotLosesState | simcore/disk.rs:292-330 | Any unsynced write for that slot, torn where it first differs, brings back what was in the other one |
| HardSlots.WithoutGapsOneIsSafe | kvstore/raft.rs:2367-2378 | With no number refused, the state is safe exactly up to one unsynced write |
| HardSlots.RefusedWriteLosesState | simcore/disk.rs:186-211 | A run of two writes, the first refused, the second the only one unsynced, from which a crash brings an older hard state back |
| HardSlots.SlotsAlternate | kvstore/log.rs:701-703 | A write spares the authoritative slot exactly when its number has the other parity |
| Snapshots.CompactedNeverLost | kvstore/raft.rs:2642-2693 | In every run one snapshot write at most is in flight, never over the newest completed one; no crash loses anything exactly when the log file begins at the first entry, or the newest completed snapshot reads back, or the other file has one the log joins on to that no unsynced write changes |
| Snapshots.CoversIff | kvstore/log.rs:609-620 | A point the newest completed snapshot reaches stays covered through every crash exactly when that snapshot reads back, or the other file has one that reaches it and that no unsynced write changes |
| Snapshots.OneOversizedLosesAll | kvstore/raft.rs:2570-2592 | A run in which one oversized snapshot, after a received one replaced the log, leaves no snapshot and a log that begins in the middle, if a crash loses the data of the next |
| Snapshots.OversizedIsRefused | kvstore/log.rs:576-601 | A snapshot over the field limit reads back as nothing |
| Snapshots.StoreStepOk | kvstore/raft.rs:2760-2798 | Every step, with snapshots of any size, keeps the newest completed one alone in its file and out of reach, and the log file reaching back to the compaction point |
| Snapshots.SnapReads | kvstore/log.rs:562-601 | A snapshot file reads back exactly when its data is no longer than a field may be |
| Snapshots.PickIsBest | kvstore/log.rs:606-620 | Of two snapshot files the one that reads and reaches further is taken; of two that reach as far, the one written later |
| Snapshots.ReopenedFresh | kvstore/raft.rs:1000-1014 | A restart has nothing under way and numbers its next snapshot above the one it found |
| StateMachine.ExactlyOnce | kvstore/server.rs:246-289 | Replaying any command list equals replaying only the commands whose number exceeds all earlier ones of their client |
| StateMachine.NoNumberTwice | kvstore/server.rs:252-260 | No client's number takes effect twice |
| StateMachine.RetryAnswered | kvstore/server.rs:252-260 | Whatever was applied since, a retry changes nothing, and is answered from its own session exactly when no newer command of its client was applied since; then it gets the original's answer |
| StateMachine.LateRetryAnswered | kvstore/server.rs:252-260 | A retry of a command with a newer one of its client applied since gets the newest one's answer |
| StateMachine.FreshMatchesModel | kvstore/server.rs:261-281 | What a fresh command is answered is what the sequential map model accepts, and nothing else is |
| StateMachine.FreshDoes | kvstore/server.rs:261-281 | What each command leaves in each key, what it is answered, and that the answer is its client's session |
| StateMachine.InternalDoesNothing | kvstore/server.rs:247-251 | An entry no client sent changes nothing |
| StateMachine.ImageComesBack | kvstore/server.rs:204-243 | An image restores to the machine it was taken of, in whatever order it lists the keys, exactly when every field and both counts are within their limits |
| StateMachine.RestoreFits | kvstore/server.rs:223-243 | Whatever bytes it is given, what is restored is within the limits |
| StateMachine.ImageThenSuffix | kvstore/server.rs:204-289 | Restoring an image and applying the later commands equals replaying the whole list |
| StateMachine.ForgottenSessionAppliesTwice | kvstore/server.rs:198-203 | Without its session a retried write changes the state again |
| StateMachine.ReplicaMachine.ApplyCommand | kvstore/server.rs:246-289 | The map, the session and the answer after one command |
| StateMachine.ReplicaMachine.Cached | kvstore/server.rs:188-196 | A cached answer is what applying any command of that client and number would give, and applying it would change nothing; there is one exactly when the client's latest command has that number |
| Server.KvServer.Drain | kvstore/server.rs:555-621 | Every waiting client is answered at most once: with what applying the entry at its index gives if the entry has its client and its number, and Dropped otherwise; and only indices a leader has yet to apply still wait |
| Rng.Uniform | simcore/rng.rs:68-83 | Every result below the bound has exactly floor(width / bound) accepted draws |
| Rng.ResultsGrow | simcore/rng.rs:68-83 | Of two accepted draws the higher has no lower result |
| Rng.Below | simcore/rng.rs:68-83 | The result is how many widths the bound times the first accepted draw holds; a draw is rejected exactly when what is left over is below the width's remainder by the bound |
| Rng.Range | simcore/rng.rs:86-91 | A draw of the range's width, from its lower end; of the whole 64-bit range, whose width wraps to 0, always the lower end and no draw |
| Rng.ShuffleInPlace | simcore/rng.rs:121-126 | The array after the swaps |
| Rng.EveryOrderReached | simcore/rng.rs:121-126 | Every order of the items is reached by some choice of swaps |
| Rng.ChoicesDiffer | simcore/rng.rs:121-126 | Different choices give different orders |
| Watermarks.ReportsIffDisagreement | checker/invariants.rs:392-489 | The incremental checker reports a disagreement in a run exactly when two observations of the run disagree |
| Watermarks.Checker.Observe | checker/invariants.rs:129-138 | Looking at the next observations of a run flags exactly what they contradict, of what was said before or of one another |
| Watermarks.Checker.CheckNode | checker/invariants.rs:140-175 | What is scanned, filed and flagged, and the watermarks after |
| Watermarks.SkippedWasSaid | checker/invariants.rs:392-410 | What lies below a watermark was already looked at |
| Watermarks.NothingTwice | checker/invariants.rs:418-454 | While a node is up and nothing of its log was replaced, no index is looked at twice |
| Watermarks.AllAgain | checker/invariants.rs:140-175 | After a restart or a truncation, or while it was down, everything of a node is looked at again |
| Watermarks.ScanFlags | checker/invariants.rs:392-410 | A scan raises its flag exactly when something in its range differs from what is known |

## Left out

- ReadIndex.ServedReadsAreFresh: its condition is sufficient and not necessary, because a read for which a forged reply counted is still fresh if nothing newer had been committed when it was accepted.
- EndToEnd.HistoriesAreLinearizable: an answer is any delay away from its client, and may never reach it; the answer to a retry of a command older than its client's latest, which is the latest one's (`StateMachine.LateRetryAnswered`), is left out, for a client takes no answer to an earlier request (harness/workload.rs:241-246).
- AppendRuns.CrashLeavesRecoverable: nothing is said while a cut is unsynced, because it can bring a cut record back, nor after the disk refused a cut or the records behind one.
- Snapshots.CompactedNeverLost: while only the data of a snapshot is unsynced, its cut refused, the file under it is taken to hold a snapshot as this code writes them.
- Snapshots.CoversIff: the same.
- Snapshot installs and compaction in the protocol layer: a snapshot can become durable while the hard state that authorised it is still in flight, and an append that reaches below it is then accepted unmatched (kvstore/raft.rs:2012-2044). Compaction is proved in `Membership` and `Snapshots` instead.
- Replacing a divergent log by a received snapshot (kvstore/raft.rs:2570-2592): batches in flight are not clamped there. `Snapshots` covers writing and adopting the image and where the log file begins, not the log's contents.
- Election safety under changing membership: `Membership` proves that neighbouring configurations' majorities meet; the cluster theorems have a fixed membership.
- Pre-vote messages, leader stickiness and timers: a round of pre-votes may begin, be won, or bring a newer term at any step, and a node may time out, or refuse to hear a candidate, at any step.
- Reads through the log (`ReadMode` other than ReadIndex): they are ordinary commands.
- The leader hint, statistics, traces, fingerprints and injected defects.
- RaftNode.RaftNode.MaybeCommit: the members must not be empty, as the source indexes into their sorted indices; stepping aside after one's own removal is not modelled.
- Persister.Persister.OnComplete: file numbers are not kept in a batch; the log and the two snapshot files are modelled apart.
- Durability.StoreOk: slot contents are arbitrary bytes there; `HardSlots` models them.
- Durability.RestartedOk: the log starts at index 1; recovery that starts above a snapshot is not modelled.
- Disk.SimFile.Crash: which writes are lost, torn and reordered is a parameter, so every outcome of the random choices is covered; latencies are not modelled.
- Search.CheckPartition: the set of linearized operations is a set instead of words of bits, the sort is an insertion sort, and the violation's text is its key only.
- Search.CheckHistory: keys are visited in any order.
- Linearizability.PlacingAllIsPlacingSome: needs every operation invoked before the end of time.
- Decoding.DecodedIsMessage: which error is given for bytes that are no message is not stated, but for the fields and entries (`Codec.Dec`, `EntryCodec`).
- Wire.RaftReads: the message bodies are functions on byte sequences; the fields and the log entries are also encoders and decoders that update a buffer.
- Codec.Dec.GetStr: strings are byte sequences with the validity rule of section 4 of RFC 3629.
- StateMachine.ImageComesBack: the order in which an image lists keys is any order; the source sorts them.
- Server.KvServer.Drain: reads by read index are answered in `RaftNode.RaftNode.Drain`; proposing and redirecting requests is not modelled.
- Rng.Below: the stream of draws is a parameter, so the loop may also run out of draws; the quality of the generator is not modelled.
- Watermarks.Checker.CheckNode: term regression, commit regression, leader completeness and the membership rules are not modelled; entries are told apart by term, index and command.
- Scheduler, partitions, fault menu, clock skew, shrinker, replay and workload clients.
