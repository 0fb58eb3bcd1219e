# CD-Raft: a machine-checked model

CD-Raft is a two-tier Raft. Nodes elect a Domain Leader inside each domain; the Domain Leaders
elect one Global Leader, who orders client writes into a single log that every node replicates.
An entry commits once majorities of two domains hold it. Logs are compacted into snapshots,
stragglers are backfilled, leadership can be handed off between domains, and an external
controller decides when that pays.

This project models the hard core of that system and proves what it keeps, for every input, every
interleaving and every reachable state.

**One node's log.** `NodeLog` says what each operation means on a node's *whole* history, of which
the program retains only the part above a snapshot floor. `RpcNode` is the node as the program
holds it, a class with the truncated log and the snapshot metadata; every method is proved to do to
the represented history exactly what `NodeLog` and `Handoff` say.

**The cluster.** `Cluster` runs any number of such nodes with messages delayed, reordered,
duplicated or lost, with crashes that fall back to the last save, and with the in-domain fan-out of
a replication as one step. Its invariant ties every prefix of every history to the history that was
*minted* at the position where the prefix ends. From it follow Log Matching, replay, state
agreement and exactly-once ordering in every reachable state. Two guards stand for what lies
outside: a position (index, term) is never ordered with two different histories, and an entry
travels with the term that precedes it in the same log. `Reigns` replaces the first guard by one a
leader can check: if every term has one winner, who orders in it while it reigns and gives no index
of its term two different stamps, then every run is a run of the cluster, and an order keeps Log
Matching exactly then. `Compaction`, `Backfill`, `Durability` and `Evidence` build on the cluster.

**Where a property fails.** The program checks neither guard. Each failure below has a concrete run
in `Witnesses` and a lemma that says exactly when the property holds:

- One winner per term does not give Log Matching. Entries of a higher term pass without deposing the
  leader of a lower one, so a leader whose tail they replaced goes on ordering in its own term, at
  indices it has already used (`Witnesses.ReorderBreaksMatching`, `Reigns.OrderMatchesIffFresh`).
- A leader that reads an entry and its anchor at two moments, as `replicateDomainQuorum` does, hands
  itself a message that breaks Log Matching (`Witnesses.TornStampBreaksMatching`,
  `Cluster.TornStampExact`).
- A snapshot install can replace a committed prefix (`Witnesses.InstallReplacesCommitted`,
  `Cluster.InstallKeepsCommitted`). Commits are unguarded steps of the cluster, so the run carries
  its evidence with it: every leader after the first, who starts on empty logs, is elected on
  up-to-date logs by enough domains, and two domains hold each committed history. The two-domain
  rule does exclude a Global Leader that is behind every holder of a certified history
  (`Evidence.WinnerMeetsHolder`). It does not exclude one whose log ends in a later term, because
  entries of older terms can be committed by counting.
- An acknowledgement at or below the receiver's floor vouches for nothing
  (`Witnesses.AckedUnseen`, `Cluster.FanOutMajority`).
- A backfill from the receiver's own last index can be stuck (`Witnesses.StuckBackfill`,
  `Backfill.BackfillConverges`).
- A backfill can ask for a tail that ends before it begins, on which the program panics
  (`Witnesses.TailBeyondBarrier`, `RpcNode.Node.CollectTailEntries`).
- An incremental save after a replacing install leaves a stale key in the store
  (`Witnesses.StaleKeySaved`, `Durability.IncrementalSaveExact`).

**Elections.** `Elections` holds the transitions, as values and as in-place updates;
`ElectionRuns` interleaves them with failing saves and crashes; `VoteEvidence` adds the logs that
votes compare, so that a winner is known to be up to date; `SimElection` is the sequential
election with its counting loops; `Quorums` has the two-level intersection.

**Persistence.** `LogKeys` and `KvStore` prove that the incremental writer with its in-memory
mirrors stores the same as writing everything, exactly when no key disappears and equal
fingerprints mean equal entries; `Durability` says over every cluster run when that is so.

**Moving the leader.** `Handoff` is the drain, barrier and revocation; `CostModel` and `Controller`
are the recommendation and its hysteresis, and `CostLaws` says what every read and write adds.

Where the code and its comments differ, the code is followed:

- A comment at internal/cdraft/rpc_node.go:1525-1528 justifies raising a quorum mark by an
  append-only log. Appends do overwrite an uncommitted tail; `Cluster.FanOutMajority` gives the
  reason that does hold, and its exact exception.
- `transitionGlobalVote` grants a vote to the zero identity, and such a vote binds nothing:
  `Elections.GlobalVoteBindsIffValid` and `Elections.ZeroIdentityIsGranted`. Campaigns only ever
  send valid identities, so `ElectionRuns.OneVotePerGlobalTerm` is unaffected.
- `adoptHandedOffLeaderLocked` moves the term forward and keeps the vote of the earlier term; votes
  that were really cast still bind, as `ElectionRuns.OneVotePerGlobalTerm` shows over runs with it.
- A snapshot is described as covering only immutable entries; see the run above.

## Model

| member | source | states |
|---|---|---|
| Cluster.LogMatching | internal/cdraft/log.go:61-105 | in every reachable state, two nodes with the same term at an index have identical full histories up to it, compacted parts included |
| Cluster.StepKeeps | internal/cdraft/rpc_node.go:1400-1540 | every step (order, send, deliver, fan-out, commit, compact, ship, install, raise mark, persist, crash) keeps the cluster invariant |
| Cluster.ReplayHolds | internal/cdraft/log.go:119-132 | on every node of every run, floor <= commit <= last index, the state machine is the replay of the node's own history up to the commit index, and Results holds the decision of every applied entry |
| Cluster.StateAgreement | internal/cdraft/rpc_node.go:1641-1673 | two nodes with the same commit index and the same term there have equal committed prefixes and equal state machines |
| Cluster.CommitNoticeSuffices | internal/cdraft/rpc_node.go:1648-1673 | checking only the identity of the top entry of a commit notice is enough: afterwards the receiver's committed prefix and state machine are those of the sender's history |
| Cluster.ExactlyOnce | internal/cdraft/rpc_node.go:1966-2008 | no history, in memory or on disk, ever holds a request id at two indices, even where the first one was compacted |
| Cluster.RetriesAgree | internal/cdraft/rpc_node.go:1966-1992 | an identical retry of a settled request gets the decision of its log entry, before and after any compaction, and the same one from every node that applied that term there |
| Cluster.OrderedWriteTakesEffect | internal/cdraft/rpc_node.go:1966-2008 | in every reachable state, a write ordered as new and then committed sets the client's key to the client's value on top of the log before it, and an identical retry gets the entry's term, index and the client's own result |
| Cluster.AnchorForcesPrefix | internal/cdraft/log.go:67-83 | holding the anchor's term at the anchor's index forces the whole prefix below the entry |
| Cluster.AckVouches | internal/cdraft/log.go:61-105 | an accepted append leaves the receiver with exactly the history the entry was ordered on, if and only if the index is above its floor or the compacted entry there had the same term |
| Cluster.FanOutMajority | internal/cdraft/rpc_node.go:1494-1536 | a fan-out acknowledged by a majority of the domain, however many members it does not reach, raises the mark past any gap; all acknowledging members hold the whole prefix if and only if those that had compacted the index agree on its term, and then a majority of the domain holds it |
| Cluster.FanOutReaches | internal/cdraft/rpc_node.go:1431-1519 | a fan-out touches nobody when the leader refuses the entry, and otherwise exactly the reached members, each by its own append |
| Cluster.TornStampExact | internal/cdraft/rpc_node.go:2279-2301 | with an anchor term read at another moment, an accepted append reproduces the ordered history if and only if the stamped term is the one that precedes the entry in it |
| Reigns.CarefulIsReachable | internal/cdraft/rpc_node.go:1993-2008 | every run in which each term has one winner and a leader gives no index of its term two different stamps is a run of the cluster, so every result about reachable clusters holds of it |
| Reigns.CarefulLogMatching | internal/cdraft/log.go:61-105 | in every such run, two nodes with the same term at an index have identical full histories up to it |
| Reigns.FreshExact | internal/cdraft/rpc_node.go:1993-2008 | a leader's own record of what it stamped in its term decides: an order keeps every position minted once if and only if its stamp is new at that index or the same again |
| Reigns.OrderMatchesIffFresh | internal/cdraft/rpc_node.go:1993-2008 | the history an order makes matches any node that has the leader's term at the new index if and only if the stamp is fresh |
| Reigns.LongEnough | internal/cdraft/rpc_node.go:1993-2008 | it is enough that the leader's log still reaches everything it has ordered in its term |
| Witnesses.ReorderBreaksMatching | internal/cdraft/rpc_node.go:1411-1428 | a reachable run with one winner per term in which a leader whose tail was replaced orders an index of its term again and no longer matches a node that holds the first entry |
| Witnesses.TornStampBreaksMatching | internal/cdraft/rpc_node.go:2279-2312 | a reachable run, with election evidence for the second leader, in which a leader takes an entry and later reads its anchor term from a replaced log, accepts its own message, and then shares a term at an index with another node over different prefixes |
| Witnesses.TailBeyondBarrier | internal/cdraft/rpc_node.go:2320-2345 | a reachable run, with election evidence for the second leader, in which a receiver without a mark rejects an entry on its anchor while its own log ends beyond it |
| Witnesses.InstallReplacesCommitted | internal/cdraft/log.go:196-225 | a reachable run, with election evidence for every leader after the first and two-domain evidence for every commit, in which a snapshot install replaces a committed prefix |
| Witnesses.AckedUnseen | internal/cdraft/log.go:61-66 | a reachable run in which a domain reaches quorum on an index that all its acknowledging members had compacted with another entry, and no member holds the acknowledged history |
| Witnesses.StuckBackfill | internal/cdraft/rpc_node.go:2320-2345 | a reachable run in which a receiver with nothing committed is left unchanged by a backfill from its own last index |
| Witnesses.StaleKeySaved | internal/cdraft/kvstore.go:236-243 | a reachable run after which an incremental save leaves a key in the store that the state machine no longer has |
| Evidence.WinnerMeetsHolder | internal/cdraft/rpc_node.go:3040-3047 | a Global Leader elected on the current logs while a history is certified by two domains is at least as up to date as a node that holds it, so its log reaches as far or ends in a later term |
| Cluster.FastReturnAgrees | internal/cdraft/types.go:217-225 | the result any node holding a settled entry's term at its index sends ahead is the same decision as the normal answer to a retry |
| Cluster.CommittedStable | internal/cdraft/log.go:85-104 | no step other than a snapshot install or a crash changes an entry at or below any node's commit index or lowers that index |
| Cluster.InstallKeepsCommitted | internal/cdraft/log.go:196-225 | a snapshot install keeps the receiver's committed prefix if and only if it is a no-op or both histories have the same term at the receiver's commit index |
| Cluster.InstallKeepsTail | internal/cdraft/log.go:196-225 | in every reachable state, a snapshot beyond the commit index leaves a receiver that has the boundary's term there with its whole log and marks, and any other with exactly the shipped history and every mark at most its length |
| NodeLog.AppendKeeps | internal/cdraft/log.go:61-105 | no append moves the floor, the commit index, the state machine or the results, or changes an entry at or below the commit index |
| NodeLog.AppendMeans | internal/cdraft/log.go:34-105 | a refusal changes nothing; a conflict is refused only at or below the commit index; an acceptance puts the entry's identity right after its stamped predecessor and keeps everything before |
| NodeLog.AnchoredAppend | internal/cdraft/log.go:67-104 | an entry right above an anchor the node holds is accepted unless it disagrees with a committed entry, which is reported as such; on any other anchor term it is a prefix mismatch |
| NodeLog.AppendEnds | internal/cdraft/log.go:85-104 | an accepted append above the floor repeats an entry without effect or ends the history with the new one; repeating it changes nothing more |
| NodeLog.MarksCoverUnchanged | internal/cdraft/log.go:107-117 | after an overwrite an old quorum mark covers exactly the indices it covered whose prefix is unchanged |
| NodeLog.CommitIsAtomic | internal/cdraft/rpc_node.go:1648-1673 | a commit applies the complete contiguous prefix, making the state machine its replay, or changes nothing |
| NodeLog.NoticeAnswers | internal/cdraft/rpc_node.go:1648-1666 | a notice at or below the commit index is answered true without effect, one beyond the log or of another entry false |
| NodeLog.InstallKeeps | internal/cdraft/log.go:185-225 | after an install the committed history is the snapshot's, whatever log the receiver had, and marks above it cover only entries that were kept |
| NodeLog.InstallTail | internal/cdraft/log.go:196-225 | the tail, the marks and the merged result cache after an install, by whether the receiver has the boundary |
| NodeLog.MaybeCompactKeeps | internal/cdraft/rpc_node.go:226-244 | automatic compaction changes only the floor, upward, and nothing at all while migrating or draining |
| NodeLog.CompactsExactly | internal/cdraft/rpc_node.go:226-244 | compaction happens exactly past the threshold, unfrozen, with something below the retained entries, and leaves exactly those applied entries to retain |
| NodeLog.OrderedIsNew | internal/cdraft/rpc_node.go:1966-2008 | a request ordered as new occurs nowhere in the full history, not even in its compacted part |
| NodeLog.NewWrite | internal/cdraft/rpc_node.go:1954-2008 | a write is new exactly when neither results nor retained log know its request; then it is refused if and only if a handoff drains, and otherwise ordered with the client's command and origin, the leader's term and the next index |
| NodeLog.KnownWrite | internal/cdraft/rpc_node.go:1966-1997 | a retained request with the same command and origin gets its decision or joins its entry, and with any other is refused, draining or not |
| NodeLog.CompactedWrite | internal/cdraft/rpc_node.go:1975-1986 | a settled request no longer retained gets the cached decision if and only if it lies at or below the floor with the result of the client's command |
| NodeLog.WriteTakesEffect | internal/cdraft/rpc_node.go:1966-2008 | the same end-to-end law on one node |
| NodeLog.RetryAnswered | internal/cdraft/rpc_node.go:1966-1992 | a retry with the same command and origin is answered with its entry's decision, retained or compacted |
| NodeLog.FindMeans | internal/cdraft/log.go:134-141 | the lookup by request finds an entry exactly when one with that id exists |
| NodeLog.ResultsHold | internal/cdraft/log.go:126-131 | the result cache has every applied request, with its own decision when requests are distinct |
| NodeLog.ApplyOneMeans | internal/cdraft/log.go:119-132 | of a node's own entries, the next one is applied, one beyond it is ignored, and an applied one changes nothing |
| NodeLog.AnyEntryApplied | internal/cdraft/log.go:119-132 | any entry up to the next leaves its own decision in the cache; only the next moves the commit index and the state |
| NodeLog.FeedStops | internal/cdraft/telemetry.go:82-95 | a stream goes past mismatches and ends at the first committed conflict, after which nothing has an effect |
| RpcNode.FindsRetained | internal/cdraft/log.go:143-156 | the offset lookup finds exactly the retained entries, each at its own index |
| RpcNode.FindEntryByRequest | internal/cdraft/log.go:134-141 | the loop returns the first entry with the request id, if any |
| RpcNode.DistinctDomains | internal/cdraft/log.go:227-237 | the number of different non-empty names |
| RpcNode.Node.LastLogIndex | internal/cdraft/store.go:66-70 | the length of the full history, however much was compacted |
| RpcNode.Node.Summary | internal/cdraft/store.go:56-64 | the last term and index of the full history, however much was compacted |
| RpcNode.Node.RollbackQuorumAbove | internal/cdraft/log.go:107-117 | every mark becomes its minimum with the ceiling |
| RpcNode.Node.HoldsPrefix | internal/cdraft/log.go:67-83 | the consistency check across the snapshot boundary answers whether the full history has the anchor term at a checkable anchor index |
| RpcNode.Node.AppendEntryChecked | internal/cdraft/log.go:61-105 | on the truncated log it has the outcome and the effect that the checked append has on the full history |
| RpcNode.Node.ApplyEntry | internal/cdraft/log.go:119-132 | on any entry at all it has the effect of the apply rule, and on the node's own entries it keeps the node valid |
| RpcNode.Node.CompactLog | internal/cdraft/log.go:169-183 | moves the floor of the represented history and nothing else; done exactly for floor < index <= applied |
| RpcNode.Node.MaybeCompactLocked | internal/cdraft/rpc_node.go:226-244 | compacts as the policy says on the full history, without underflow |
| RpcNode.Node.AdvanceCommitLocked | internal/cdraft/rpc_node.go:1648-1673 | advances exactly when the top entry's identity matches, by the whole prefix, then compacts by policy |
| RpcNode.Node.InstallSnapshotState | internal/cdraft/log.go:196-225 | has the effect of an install on the full history, the tail kept exactly when the boundary entry matches |
| RpcNode.Node.BuildSnapshot | internal/cdraft/rpc_node.go:1859-1886 | names the applied boundary of the full history and carries the applied state; refused exactly when nothing is applied |
| RpcNode.Node.CollectTailEntries | internal/cdraft/telemetry.go:470-495 | the entries in (after, barrier], each stamped with the term that precedes it in the full history; the allocation panics exactly when after is beyond the barrier |
| RpcNode.Node.CatchUp | internal/cdraft/telemetry.go:60-95 | refused exactly for a non-leader, without a Global Leader, or with an entry of a future term; otherwise feeds the stream until a committed conflict |
| RpcNode.Node.ServeWrite | internal/cdraft/rpc_node.go:1918-2008 | answers and orders on the truncated log as the full history requires |
| RpcNode.Node.BeginMigration | internal/cdraft/telemetry.go:312-332 | starts exactly when none is active and the target's leader is known, valid and another node; freezes at the end of the full history |
| RpcNode.Node.RevokeForHandoff | internal/cdraft/rpc_node.go:2861-2869 | gives up leadership, leader and serving stage, only if held |
| RpcNode.Node.FinishMigration | internal/cdraft/telemetry.go:339-352 | clears the migration, adopting the new leader only forward in term |
| RpcNode.Node.RecoverCommittedPrefix | internal/cdraft/rpc_node.go:711-752 | a learned mark of a consensus domain is taken over where it is higher and every other mark kept; the commit rises only to an index that the local mark and another consensus domain's mark cover and the node holds, reaches every held index with such evidence, and applies the whole prefix |
| RpcNode.Node.HighestOther | internal/cdraft/rpc_node.go:729-737 | the highest mark among the other consensus domains, attained by one of them |
| Compaction.CompactionInvisible | internal/cdraft/log.go:163-183 | over every sequence of appends, commits and compactions, the compacting node shows the same outcomes, summaries, marks, commit answers, state and results as one that never compacts |
| Compaction.AppendUncut | internal/cdraft/log.go:61-105 | an append that agrees with the applied prefix has the same outcome and effect at every floor |
| Compaction.FloorShows | internal/cdraft/log.go:61-105 | for an entry anchored right below itself the floor does not change the outcome if and only if the entry lies above it, or is the one compacted there on its true anchor |
| Backfill.BackfillConverges | internal/cdraft/telemetry.go:470-495 | from any index a that the sender retains upward, feeding the tail makes the histories equal up to b if and only if both have the same term at a and the receiver's committed entries up to b are the sender's; then every entry is accepted; with different terms at a nothing changes |
| Backfill.FeedStuck | internal/cdraft/rpc_node.go:2320-2345 | a backfill started where the terms differ, as one from the receiver's own last index can be, leaves the receiver as it was |
| Backfill.SnapshotThenTail | internal/cdraft/rpc_node.go:2328-2344 | after installing the sender's snapshot, the tail from the receiver's last index makes the histories equal up to any b if and only if both have the same term there; a receiver whose log ended below the sender's floor then ends at the snapshot, where they do |
| Backfill.CatchUpFeeds | internal/cdraft/telemetry.go:82-95 | a catch-up with an in-domain fan-out of every entry is a run of the cluster and leaves the leader's log and state as feeding the stream does, whoever is reached |
| Backfill.CatchUpMarks | internal/cdraft/telemetry.go:96-103 | the mark a catch-up reports was acknowledged by a majority or was there before, and along rising indices whatever a majority acknowledged is reported |
| Backfill.FanOutMarkExactly | internal/cdraft/rpc_node.go:1519-1536 | a fan-out that overwrites nothing leaves the mark at the higher of the old one and the index with a majority, and as it was without |
| Backfill.FeedKeepsCommitted | internal/cdraft/telemetry.go:82-95 | no stream of entries, however malformed, changes the receiver's committed prefix |
| Elections.GlobalVoteBindsIffValid | internal/cdraft/transitions.go:83-98 | a granted vote refuses every rival of that term if and only if the identity it went to was valid |
| Elections.ZeroIdentityIsGranted | internal/cdraft/transitions.go:83-98 | a vote for the zero identity is granted and a valid rival is granted after it in the same term |
| Elections.DomainVoteBindsIffNamed | internal/cdraft/transitions.go:26-39 | a granted domain vote refuses every rival of that term if and only if its candidate had a name |
| Elections.DomainVoteRule | internal/cdraft/transitions.go:26-39 | no vote for an earlier term or a log behind the voter's in term or, at the same term, index; otherwise a vote for every later term, and in the current one for a free or the same vote |
| Elections.GlobalVoteRule | internal/cdraft/transitions.go:83-98 | the same for global votes |
| Elections.LogsCompare | internal/cdraft/types.go:90-97 | the comparison is a total order in which term decides before length |
| Elections.CampaignsBind | internal/cdraft/transitions.go:7-67 | a campaigner is one term further, follows nobody, refuses every rival of that term, and leaves the other tier alone |
| Elections.HearersFollow | internal/cdraft/transitions.go:41-113 | a leader of no earlier term is followed, in its term, by everybody who hears it; an earlier one is ignored |
| Elections.TermsDepose | internal/cdraft/transitions.go:15-128 | a later term ends leading and following and frees the vote; a winner leads in the term it won; a revoked leader neither leads nor serves |
| Elections.RestartForgets | internal/cdraft/sim/model.go:211-231 | a restart keeps terms, votes and leaders, and forgets every role |
| Elections.State.TransitionStartDomainCampaign | internal/cdraft/transitions.go:7-13 | the in-place updates enter the next term voting for oneself |
| Elections.State.TransitionObserveHigherDomainTerm | internal/cdraft/transitions.go:15-24 | only a higher term is entered, as a follower without vote or leader |
| Elections.State.TransitionDomainVote | internal/cdraft/transitions.go:26-39 | grants exactly for a current or later term, a free or same vote and an up-to-date log |
| Elections.State.TransitionAcceptDomainLeader | internal/cdraft/transitions.go:41-53 | follows exactly a leader of no earlier term |
| Elections.State.TransitionStartGlobalCampaign | internal/cdraft/transitions.go:61-67 | enters the next global term voting for the candidate |
| Elections.State.TransitionObserveHigherGlobalTerm | internal/cdraft/transitions.go:69-81 | only a higher global term is entered; serving ends |
| Elections.State.TransitionGlobalVote | internal/cdraft/transitions.go:83-98 | grants exactly for a current or later term, an invalid or same vote and an up-to-date log |
| Elections.State.TransitionAcceptGlobalLeader | internal/cdraft/transitions.go:100-113 | follows and serves exactly under a leader of no earlier term |
| ElectionRuns.DomainElectionSafety | internal/cdraft/rpc_node.go:950-1029 | over all runs with failing saves and crashes, at most one node gathers a majority in a domain and term |
| ElectionRuns.TermsGrow | internal/cdraft/transitions.go:7-59 | terms on disk never decrease, terms in memory only by a crash, never below a saved term or one voted in |
| ElectionRuns.OneVotePerGlobalTerm | internal/cdraft/rpc_node.go:1275-1327 | over all interleavings with campaigns, observed terms, handoff adoption and crashes, no node votes for two candidates in one global term |
| ElectionRuns.RivalsSplitADomain | internal/cdraft/rpc_node.go:1094-1199 | two winners of one global term imply a domain that backed them with two different nodes |
| ElectionRuns.GlobalElectionSafety | internal/cdraft/rpc_node.go:1094-1199 | if no domain backed two winners of one term through different nodes, they are the same candidate |
| ElectionRuns.TransitionBinds | internal/cdraft/rpc_node.go:2991-3000 | no transition of either tier, handoff adoption included, releases a node from a vote it cast |
| ElectionRuns.TransferRaisesTerm | internal/cdraft/telemetry.go:512-546 | over every run from the target's checks to its answer, a target that accepts a transfer has won a term strictly above the one it was asked from and answers with a term no lower |
| VoteEvidence.DomainLeaderUpToDate | internal/cdraft/rpc_node.go:950-1029 | over every run a Domain Leader's log, as it campaigned, is at least as up to date as that of every voter behind it, as it voted |
| VoteEvidence.GlobalLeaderUpToDate | internal/cdraft/rpc_node.go:1094-1199 | over every run a Global Leader's log, as it campaigned, is at least as up to date as that of every Domain Leader that backed it, as it voted |
| VoteEvidence.WinsCertify | internal/cdraft/types.go:237-260 | with logs fixed across both elections, the wins of a run make up the election certificate of the two-level intersection |
| SimElection.Cluster.HandleDomainVote | internal/cdraft/sim/model.go:338-352 | a stopped or booting node stays as it is and refuses; any other votes by the transition |
| SimElection.WhoAnswers | internal/cdraft/sim/model.go:338-352 | a stopped or booting node grants nothing and stays as it is; any other grants as the vote rule says and is in the later of both terms |
| SimElection.Cluster.CollectVotes | internal/cdraft/sim/model.go:283-299 | the counting loop stops exactly when an asked member answers from a later term, at the first such member in configured order, with exactly the state reached by then; otherwise it counts exactly the grants and the candidate |
| SimElection.Cluster.Announce | internal/cdraft/sim/model.go:308-319 | exactly the members that hear a leader of no earlier term follow it |
| SimElection.Cluster.ElectDomainLeader | internal/cdraft/sim/model.go:264-330 | succeeds if and only if the candidate may campaign, the campaign is saved, nobody asked is ahead, and the grants reach a majority, which then holds votes for the recorded leader; everybody who hears it and was in no later term follows it; replacing another leader drops the Global Leader everywhere |
| SimElection.Cluster.DropGlobalLeader | internal/cdraft/sim/model.go:646-652 | the recorded Global Leader is cleared and every node gives up its global role |
| SimElection.OneMajority | internal/cdraft/sim/model.go:300-302 | no two candidates can hold a majority of the same members in one term |
| Quorums.CommitMeetsElection | internal/cdraft/types.go:237-260 | every commit certificate and every election certificate share a node, and the winner's log is at least as up to date as that node's |
| Quorums.ThresholdsShare | internal/cdraft/types.go:241-260 | two sets of backing domains that reach the threshold share a domain, for every number of domains |
| Quorums.ThresholdIsTight | internal/cdraft/types.go:246-251 | from three domains on, one backing domain fewer can miss a commit certificate entirely |
| Quorums.MajoritiesShare | internal/cdraft/types.go:236-239 | two majorities of one domain share a member |
| Quorums.MajorityIsLeast | internal/cdraft/types.go:236-239 | a majority is the smallest number of which any two subsets must share a member |
| Quorums.ThresholdValues | internal/cdraft/types.go:252-260 | all domains but one from three on, every domain below |
| Handoff.FreezeHolds | internal/cdraft/telemetry.go:312-407 | from the barrier to the end, under any interleaving of writes, commits, redeliveries, further migration requests, election traffic, the revocation and another leader's entries and snapshots, the one migration stays active; the floor stays if and only if no snapshot beyond the applied index arrives, then no committed entry changes, and without another leader's entries the log stays exactly the barrier's |
| Handoff.AbortUntouched | internal/cdraft/telemetry.go:339-366 | an aborted migration leaves every term, vote, role, leader and flag exactly as the election traffic of that time would have without it; with none, as before |
| Handoff.SuccessRaisesTerm | internal/cdraft/telemetry.go:368-392 | whatever happens before and after the revocation, an accepted handoff names a term strictly above the old leader's, which the target has won; the outgoing leader ends at least there, not frozen, and not leading unless it won a still later term |
| Handoff.AdoptedAfter | internal/cdraft/rpc_node.go:2991-3000 | the outgoing leader follows the target in the new term, unless it has meanwhile seen a later one |
| Handoff.NotLeaderExactly | internal/cdraft/rpc_node.go:1930-1953 | a write is refused as not led here exactly when the node is not serving, unable, or not the leader it follows; an ordered one has the followed leader's term |
| Handoff.StartsExactly | internal/cdraft/telemetry.go:312-332 | a handoff starts exactly when none is under way and the target's leader is known, valid and another node, and freezes the log at its last index |
| Handoff.TrafficDeposes | internal/cdraft/rpc_node.go:2706-2745 | what election traffic ends a leadership, and whom the node follows then |
| Handoff.DomainHeartbeat | internal/cdraft/rpc_node.go:1222-1241 | a heartbeat of its own domain makes a node follow the sender and leaves the global tier alone |
| LogKeys.LogKeyOrder | internal/cdraft/kvstore.go:114-119 | byte order of storage keys is index order, and different indices have different keys |
| LogKeys.KeySpacesDisjoint | internal/cdraft/kvstore.go:86-91 | keys of the four spaces, under their own prefixes, never collide |
| LogKeys.LogKeySpells | internal/cdraft/kvstore.go:114-119 | a log key is the prefix and the 8 bytes that spell the index, read back as the same index |
| KvStore.ScanRebuilds | internal/cdraft/kvstore.go:121-188 | a scan in key order gives the saved log back entry by entry |
| KvStore.ScanKeys | internal/cdraft/kvstore.go:134-145 | the engine's scan visits exactly the stored indices in byte order of their keys |
| KvStore.MergedExact | internal/cdraft/kvstore.go:190-278 | the incremental write equals storing the whole state if and only if no state-machine or result key disappeared and equal fingerprints mean equal entries |
| KvStore.LogEffect | internal/cdraft/kvstore.go:213-234 | deleting stale indices and rewriting changed slots gives the merged log, and nothing to write means nothing changes |
| KvStore.KVStore.Load | internal/cdraft/kvstore.go:121-188 | returns the one state that the stored contents encode and makes the mirrors describe them |
| KvStore.KVStore.BuildBatch | internal/cdraft/kvstore.go:190-256 | the loops compute the difference between the state and the mirrors |
| KvStore.MirroredBatch | internal/cdraft/kvstore.go:190-278 | with mirrors that match the engine, that difference makes the merge, keeps the mirrors matching, and is empty exactly when the merge changes nothing |
| KvStore.WritesDifferences | internal/cdraft/kvstore.go:205-256 | a save writes exactly what differs from the mirrors and deletes exactly what is no longer held |
| KvStore.FingerprintIdentity | internal/cdraft/kvstore.go:74-84 | a fingerprint tells index, term and request apart, and nothing else |
| KvStore.UnloadedSaveExact | internal/cdraft/kvstore.go:94-101 | a save through the empty mirrors of a store that was never loaded stores the whole state if and only if no stored key is missing from it |
| KvStore.KVStore.Save | internal/cdraft/kvstore.go:190-278 | whatever the mirrors say, it fails exactly when a needed write fails and then changes nothing; otherwise the difference is written and the mirrors follow |
| KvStore.StoresLastSaved | internal/cdraft/kvstore.go:121-278 | after any sequence of succeeding and failing appendable saves and reopenings, the contents are exactly the encoding of the last successfully saved state |
| KvStore.LoadGivesLastSaved | internal/cdraft/kvstore.go:94-278 | a store driven through any such life, reopened with empty mirrors and loaded each time, finally loads exactly the last successfully saved state |
| Durability.IncrementalSaveExact | internal/cdraft/kvstore.go:190-278 | in every reachable state, saving a node incrementally stores its whole state if and only if no state-machine or result key has disappeared since its last save |
| Durability.IncrementalSaveIsWhole | internal/cdraft/kvstore.go:190-278 | in every cluster run whose installs agree with the committed prefixes they replace, no key disappears between saves, and saving any node incrementally stores its whole state |
| Durability.StoreHoldsDisk | internal/cdraft/kvstore.go:121-278 | over every cluster run the saves of a node are all appendable if and only if no key disappears between them, and then its store holds exactly what the model's crash falls back to |
| Durability.FingerprintsSound | internal/cdraft/kvstore.go:71-84 | under Log Matching equal fingerprints mean equal entries |
| CostModel.NearestIsMinimum | internal/optimizer/optimizer.go:63-80 | the commit-partner latency is attained by a partner and no partner is nearer; absent exactly when there is no partner |
| CostModel.MinToOtherAvailable | internal/optimizer/optimizer.go:63-80 | the loop computes that minimum |
| CostModel.BestWriteIsMinimum | internal/optimizer/optimizer.go:203-224 | a floating write costs the minimum of the direct path and every known relay |
| CostModel.ComputeFloatingCost | internal/optimizer/optimizer.go:195-226 | the cost of a floating domain's reads and writes |
| CostModel.CommitCapable | internal/optimizer/optimizer.go:159-193 | a candidate has a cost exactly when it has a commit partner and every consensus domain reaches it |
| CostModel.CandidateCost | internal/optimizer/optimizer.go:159-193 | the loops compute the predicted cost, or its absence |
| CostLaws.WritesCost | internal/optimizer/optimizer.go:159-185 | k more writes at a consensus domain add, per listing, twice the latency to the commit partner at the candidate, twice the latency to it from a domain that is up, and twice both from one that is down |
| CostLaws.ReadsCost | internal/optimizer/optimizer.go:159-185 | k more reads add nothing at the candidate and twice the latency to it elsewhere |
| CostLaws.FloatingPrice | internal/optimizer/optimizer.go:195-226 | a floating domain pays twice the latency for each read, and for each write the least of the direct round trip and every known trip over a responder |
| CostLaws.FloatingAdds | internal/optimizer/optimizer.go:186-193 | every floating domain listed adds its price to what the consensus domains cost |
| CostLaws.NoDemandNoCost | internal/optimizer/optimizer.go:159-226 | without demand a possible leader costs nothing |
| CostLaws.CanCommit | internal/optimizer/optimizer.go:44-80 | a candidate can commit exactly with another listed, available domain of recorded latency, provided every listed domain reaches it |
| CostLaws.OneWayMeans | internal/optimizer/optimizer.go:44-57 | latencies are as recorded, and none to oneself |
| CostLaws.ConsensusListed | internal/optimizer/optimizer.go:82-90 | the candidates are the configured consensus domains, or all domains |
| CostLaws.DemandCounted | internal/optimizer/optimizer.go:92-121 | every domain with traffic counts as consensus or floating, and only a configured floating domain does without traffic |
| CostModel.RankRanks | internal/optimizer/optimizer.go:141-149 | ranking is a permutation ordered by commit capability, cost and domain id |
| CostModel.ComputeCosts | internal/optimizer/optimizer.go:126-157 | the result ranks exactly the available consensus domains and recommends the first that can commit |
| CostModel.RecommendationIsOptimal | internal/optimizer/optimizer.go:123-157 | the recommendation is an available consensus domain with a commit partner whose (cost, id) is smallest among all such; nothing is recommended when there is none |
| CostModel.OrderIndependent | internal/optimizer/optimizer.go:82-157 | the whole result is the same for every permutation of the input lists |
| Controller.Controller.Observe | internal/optimizer/optimizer.go:262-293 | answers and updates candidate and streak by the hysteresis rule |
| Controller.Controller.RecordResult | internal/optimizer/optimizer.go:295-299 | only a success starts a cooldown |
| Controller.TriggerIsConfirmed | internal/optimizer/optimizer.go:262-293 | a trigger means that the last max(1, Confirmations) windows all recommended that target with the required improvement and that the cooldown since the last success has passed |
| Controller.TriggersApart | internal/optimizer/optimizer.go:276-293 | two triggers are at least max(1, Confirmations) windows apart |
| Controller.StreakIsUnbroken | internal/optimizer/optimizer.go:276-293 | the streak counts the unbroken agreement in rounds of the confirmations needed |
| Controller.TriggersExactly | internal/optimizer/optimizer.go:262-293 | after any calls, a window triggers t if and only if it ends an agreement on t whose length is a positive multiple of max(1, Confirmations), outside the cooldown |
| Controller.QualifiesMeans | internal/optimizer/optimizer.go:262-275 | the improvement asked for is that another domain is recommended and the fraction of the current cost saved is above the policy's minimum |

## Left out

- gRPC transport, connection pools, retries, tracing, metrics, the benchmark harness and generated code: I/O without a protocol property of its own.
- Sender checks of Replicate (stale term, untrusted sender) and persistence errors inside it: they only drop messages, and the cluster may lose any message.
- Leases, voter stickiness, deadlines and all timing; a fresh lease is a parameter of a write.
- Unconditional uniqueness of the Global Leader: votes are stored per node, not per domain, so only the form relative to domain stability holds of this code.
- One winner per term: `Reigns` takes it as the guard of a win; the elections give it relative to domain stability (ElectionRuns.GlobalElectionSafety) and are not joined to the logs in one run.
- Cluster.LogMatching: holds under the two guards named above, which the program does not check; Reigns.OrderMatchesIffFresh, Witnesses.ReorderBreaksMatching, Cluster.TornStampExact and Witnesses.TornStampBreaksMatching say when and how it fails without them.
- RpcNode.Node.CatchUp: the marks that the in-domain fan-outs raise are Backfill.CatchUpMarks.
- Leader Completeness (section 5.4.3 of the extended Raft paper): older-term entries can be committed by counting, so it does not hold of this code; Witnesses.InstallReplacesCommitted is a run without it.
- "The commit index is at most the Global Leader domain's mark": not inductive in this code.
- Concurrent mark updates after an unlocked fan-out: the fan-out is one step. A mark copied by recoverCommittedPrefix before its calls can in the program raise again a mark rolled back meanwhile; here the copied marks are just an input.
- Fast Return delivery and its pending certificates, linearizable reads and commit announcements across domains.
- 64-bit wrap-around: terms and indices are natural numbers; only storage keys are limited to 8 bytes.
- appendEntry and the data path of the simulation, which have no prefix check.
- RpcNode.Node.InstallSnapshotState: the ghost prefix is the history the shipped state stands for; a message that stands for no history is not modelled.
- RpcNode.Node.RecoverCommittedPrefix: covers the locked part after the peers answered; the early return when the local mark shows nothing new is left to the caller.
- Detecting a request id reused with a different command after compaction: the result string does not determine the command, so only identical retries are claimed.
- Durability.IncrementalSaveIsWhole: excludes snapshot installs that replace a committed prefix, after which keys can disappear; Durability.IncrementalSaveExact and Durability.StoreHoldsDisk cover every run.
- JSON encoding, LevelDB and the file and memory stores: the codec is taken as injective, the engine as an atomic ordered map whose four key spaces are separate.
- SimElection.Cluster.ElectDomainLeader: the stores of the simulation are not modelled beyond the one save whose failure ends the election; saves and restarts are covered by ElectionRuns.
- Reachability checks and timeouts of a handoff: they only decide whether to abort.
- The simulation's global election, heartbeats and re-election loops: the global tier is covered by ElectionRuns.
- Floating-point rounding in the cost model: costs are exact reals.
- Wall-clock reads of the controller and the statistics, race and write-cost helpers of the optimizer.
