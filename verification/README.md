# Verified models of the ordering and delivery core

A cluster of nodes agrees on client requests group by group, gives every operation that touches
several groups a global sequence number (GSN), and delivers each group's decided log so that
cross-group operations come out in GSN order. This project models the parts of that system whose
correctness spans several functions, several nodes or whole runs, and proves them with Dafny.
`dafny verify dfyconfig.toml` checks everything.

Each component is modelled twice where the source works in place: as functions on a value of the
state, which lemmas can talk about, and as a class whose methods update fields with the source's
loops and branches and are proved to compute exactly those functions.

| files | what they model |
|---|---|
| `Quorums.dfy` | majorities and Byzantine quorums, the bound on faults |
| `Sequencer.dfy`, `SequencerProtocol.dfy`, `SequencerProgress.dfy` | the GSN sequencer: reservations, elections, fail-over; then group 0 as a distributed state machine, what it never does and what it can always be brought to do |
| `Requests.dfy` | requests, METAs and the known META prefix |
| `GroupDeliverer.dfy` | one group's deliverer: log, head, early set, META map, cursor, compaction |
| `GroupDeliverySpec.dfy`, `GroupDeliveryProofs.dfy`, `GroupDeliveryTheorems.dfy` | the reference delivery, the refinement, and what it implies |
| `GroupReplicas.dfy`, `GroupHistory.dfy`, `MulticastOrder.dfy` | agreement between replicas of a group; log and META prefix read off the history; order across groups |
| `GlobalDeliverer.dfy`, `GlobalDeliveryProofs.dfy` | a node's merged delivery across its groups, in closed form |
| `Command.dfy` | the text codec of client commands |
| `StateMachine.dfy`, `ReplicaState.dfy`, `CommitHistory.dfy` | the key-value state, equality of replicas end to end, and what reaches the node's global deliverer |
| `Balances.dfy` | key by key: balances, last writes and answers after any sequence of commands |
| `Conservation.dfy`, `DeliveredMoney.dfy` | the total of all balances, for interleavings of deliveries and for replicas' own outputs |
| `Pbft.dfy`, `PbftProtocol.dfy` | the PBFT normal case of one view, with Byzantine nodes, and its invariant |
| `PbftAgreement.dfy`, `PbftSplits.dfy`, `PbftExactness.dfy`, `PbftRuns.dfy` | what every run keeps, runs that a faulty leader can bring about, the exact conditions between the two, and three runs written out |
| `PbftProgress.dfy` | when and how the correct nodes of a view decide, and when a node leaves it |
| `Buckets.dfy`, `Segments.dfy` | bucket assignment; epochs, segments and the tiling of the log |
| `LeaderPolicies.dfy`, `BackoffBans.dfy` | backoff, blacklist and combined leader policies; how long a suspect stays out |
| `Log.dfy` | the decided log and its in-order publication |
| `MetaHoles.dfy` | ranges of GSNs without META and their text form |

## Assumptions

* **Fates** (`GroupDeliverySpec.Consistent`): every GSN has one fate at all nodes, a META with a
  fixed group list or skipped, and every cross-group operation in a group's log has a META that
  lists the group. The cross-group tail of `PreprocessRequest`
  (`mirbft/orderer/multipaxosmulticastorderer.go:604-612`) is meant to supply this. It is stated
  once and used for group delivery only; the closed form of global delivery needs no assumption.
* Each handler is one atomic step; winning an election and resuming the counter are one step.
* Nodes of group 0 fail by stopping; group 0 is every node, so its member list is fixed.
* In PBFT, messages carry authentic senders, and a digest stands for the requests it was computed from.
  It does not cover the flag `aborted`, which the model carries beside it.

## What the proofs say about the code

* A value that is stored empty does not survive the codec: its field vanishes from the text and
  the command is not recognised. `Command.RoundTrip` gives the exact condition.
* A transfer whose source and target group are the same is debited and never credited, because the
  switch takes the source's branch only. `Conservation.ConservedIffAcrossGroups` gives the exact
  condition under which a completed set of transfers keeps the total.
* Same-view agreement of PBFT depends on the size of the membership. The number of faults is computed as
  f = (n - 1) / 3 for every n, while a commit quorum has 2f + 1 members. Decided digests agree in all runs
  if and only if the leader is correct, or there is nothing to decide, or the correct nodes are fewer than
  twice max(1, 2f + 1 - faulty) (`PbftExactness.AgreementExactly`). So n = 3f + 1 is safe with up to f
  faulty nodes; **n = 3f + 2 and n = 3f + 3 are not safe with f faulty nodes, the leader among them**
  (`PbftExactness.AgreementBySize`). `PbftRuns.FiveNodesDecideTwo` is a run of 18 steps in which, of five
  nodes with one faulty, two correct ones decide different digests. The sizes 8, 32 and 128 that
  `mirbft/deployment/scripts/experiment-configuration/generate-pbft.sh:43` configures are of the form 3f + 2.
* A prepare is counted without checking that its sender is not the leader, so 2f matching prepares
  need not come from 2f followers. Prepared nodes are kept on one digest if and only if the leader is
  correct, or there is nothing to decide, or the correct nodes are fewer than twice max(1, 2f - faulty)
  (`PbftExactness.PreparedExactly`); with f faulty nodes, the leader among them, that fails at every size
  (`PbftExactness.PreparedBySize`), as in the run of 8 steps of `PbftRuns.FourNodesPreparedApart`.
  At n = 3f + 1 agreement therefore rests on commits alone.
* The digest of a proposal covers its requests and not the flag `aborted`, which ends up in the log entry
  and makes the leader policy suspect a node. Whole entries agree in all runs if and only if the leader is
  correct, or there is nothing to decide, or there are fewer than two correct nodes
  (`PbftExactness.EntriesExactly`); `PbftRuns.FourNodesSplitEntry` separates them at n = 4.
* A leader checks for enough prepares only when a prepare arrives, and it sends none itself. Without help from
  faulty nodes the correct nodes under a correct leader can decide if and only if there are at least 2f + 1 of
  them and at least two (`PbftProgress.DecidesExactly`). So **an instance of a single node never decides anything**,
  although f = 0 asks for one commit only (`PbftProgress.LoneLeaderNeverDecides`).
* Relaxing the bans of the backoff policy ends if and only if some node can lead after some number of
  rounds; it does not when the next epoch wraps around and every node has been suspected
  (`LeaderPolicies.RelaxesExactly`).

## Model

| member | source | states |
|---|---|---|
| Sequencer.SequencerNode.constructor | mirbft/orderer/sequencer.go:111-157 | every node starts in term 0 having voted for the same bootstrap leader, the smallest member, with an empty block |
| Sequencer.FindBootstrap | mirbft/orderer/sequencer.go:111-157 | the chosen bootstrap leader is a member and no member is smaller; -1 when there is none |
| Sequencer.SequencerNode.AllocateGSN | mirbft/orderer/sequencer.go:280-305 | hands out the next GSN only inside the confirmed block, 0 otherwise; asks for the next block when half of this one is gone |
| Sequencer.SequencerNode.RequestReservationLocked | mirbft/orderer/sequencer.go:309-340 | only a leader asks; a pending request of this term is repeated, never replaced; a group of one confirms at once |
| Sequencer.SequencerNode.ConfirmReservation | mirbft/orderer/sequencer.go:342-348 | the pending mark becomes the confirmed one |
| Sequencer.SequencerNode.OnReserve | mirbft/orderer/sequencer.go:351-379 | a mark of a term that is not older is accepted and acknowledged, without adopting a newer term |
| Sequencer.SequencerNode.OnReserveAck | mirbft/orderer/sequencer.go:382-397 | an acknowledgement of the pending mark and term counts once per sender; a majority confirms |
| Sequencer.SequencerNode.OnElectionTimeout | mirbft/orderer/sequencer_election.go:159-189 | a node that does not lead opens a new term, votes for itself and starts from its own mark |
| Sequencer.SequencerNode.OnVoteRequest | mirbft/orderer/sequencer_election.go:192-232 | one vote per term, carrying the highest acknowledged mark |
| Sequencer.SequencerNode.OnVoteResponse | mirbft/orderer/sequencer_election.go:235-290 | granted votes of the own term count once per sender; a majority makes the candidate leader and resumes the counter |
| Sequencer.SequencerNode.ResumeCounter | mirbft/orderer/sequencer_election.go:296-339 | resumes above the highest mark of the votes and above its own numbering, with no confirmed block |
| Sequencer.SequencerNode.OnHeartbeat | mirbft/orderer/sequencer_election.go:369-397 | a heartbeat of a term that is not older makes the node a follower that counts as having voted for its leader |
| SequencerProtocol.StepKeepsInv | mirbft/orderer/sequencer_election.go:159-397 | every step of any member, with any loss, delay, repetition or crash, keeps the protocol's invariant |
| SequencerProtocol.RunInv | mirbft/orderer/sequencer.go:280-397 | the invariant, and every allocation being inside a block confirmed for its term, hold in every run |
| SequencerProtocol.ResumeAboveConfirmed | mirbft/orderer/sequencer_election.go:296-319 | if a majority ever acknowledged a reservation up to U in term t, every leader of a later term resumes above U, whichever came first |
| SequencerProtocol.ElectionSafety | mirbft/orderer/sequencer_election.go:235-290 | at most one node is ever elected in a term, although heartbeats rewrite votes |
| SequencerProtocol.OneLeaderPerTerm | mirbft/orderer/sequencer_election.go:369-397 | two nodes in the role of leader of the same term are the same node, at any moment of any run |
| SequencerProtocol.GsnUniqueness | mirbft/orderer/sequencer.go:280-305 | no two successful allocations of a run return the same GSN; they ascend in time within a term and by term across terms, a deposed leader's included |
| SequencerProtocol.IssuedInsideConfirmedBlock | mirbft/orderer/sequencer.go:342-397 | every GSN handed out lies in a reservation acknowledged by a majority in its term, at or above where its leader resumed |
| SequencerProtocol.DrawnIsReturned | mirbft/orderer/sequencer.go:280-305 | what the runs record as drawn is what the allocation returns |
| SequencerProgress.LeaderCanAllocate | mirbft/orderer/sequencer.go:280-397 | from every run, a leader with a majority of members in no newer term can be brought, by messages and a request, to one more successful allocation, of its next GSN |
| SequencerProgress.MemberCanWin | mirbft/orderer/sequencer_election.go:159-339 | from every run, a member that does not lead, with a majority of members in no newer term than its own, can be brought to win the next term |
| SequencerProgress.FailOver | mirbft/orderer/sequencer_election.go:159-339 | and then to hand out a GSN in that term |
| SequencerProgress.SoleMemberLeads | mirbft/orderer/sequencer.go:111-157 | a group of one member is led by it in every run, without an election |
| SequencerProgress.HeartbeatIsFollowed | mirbft/orderer/sequencer_election.go:369-397 | a leader can bring every member in no newer term to follow it |
| GroupDelivery.GroupDeliverer.constructor | mirbft/orderer/globaldeliver.go:191-215 | a new deliverer has delivered nothing and knows no META |
| GroupDelivery.GroupDeliverer.PushBatch | mirbft/orderer/globaldeliver.go:218-241 | a decided batch joins the log without repeated copies of cross-group operations, then everything deliverable is sent |
| GroupDelivery.GroupDeliverer.RegisterMeta | mirbft/orderer/globaldeliver.go:244-257 | the first META of a GSN counts; the known prefix grows and everything deliverable is sent |
| GroupDelivery.GroupDeliverer.RegisterSkip | mirbft/orderer/globaldeliver.go:260-275 | unknown GSNs of a range are recorded as concerning nobody; then everything deliverable is sent |
| GroupDelivery.GroupDeliverer.RecordSkips | mirbft/orderer/globaldeliver.go:265-269 | every GSN from the first to the last of the range, both included, that is above the cursor has an entry afterwards, and no other one gets one |
| Metas.SkipCovers | mirbft/orderer/globaldeliver.go:265-269 | each GSN of the range above the cursor without an entry gets an empty one; all other entries stay |
| GroupDelivery.GroupDeliverer.Advance | mirbft/orderer/globaldeliver.go:287-299 | moves the cursor over GSNs that do not concern the group and names the one it stops before |
| GroupDelivery.GroupDeliverer.Mark | mirbft/orderer/globaldeliver.go:301-307 | forgets a delivered GSN and moves the cursor if it was next |
| GroupDelivery.GroupDeliverer.Turn | mirbft/orderer/globaldeliver.go:309-355 | one turn of the loop: a local request, a copy already out, the due operation, one pulled forward, or waiting |
| GroupDelivery.GroupDeliverer.DrainLoop | mirbft/orderer/globaldeliver.go:309-355 | the loop ends, and its deliveries are those of the recursive form |
| GroupDelivery.GroupDeliverer.DrainAndSend | mirbft/orderer/globaldeliver.go:309-362 | the deliveries of a call go out in order; a long delivered front of the log is dropped |
| GroupDelivery.TurnFrame | mirbft/orderer/globaldeliver.go:309-355 | every turn that goes on moves the head or uses up an operation of the log, so the loop terminates |
| GroupDeliveryProofs.CompactRefines | mirbft/orderer/globaldeliver.go:309-355 | compaction changes no relation between the five structures and not what is left to deliver |
| GroupDeliveryProofs.ReplicaRefines | mirbft/orderer/globaldeliver.go:218-355 | for every interleaving of pushes, METAs and skips, output and waiting point are those of the reference for the de-duplicated log and the known META prefix |
| GroupDeliveryTheorems.ExactlyOnce | mirbft/orderer/globaldeliver.go:218-355 | what was delivered is exactly the log up to the head plus the operations pulled forward, once each |
| GroupDeliveryTheorems.InOrder | mirbft/orderer/globaldeliver.go:287-349 | local requests keep log order and cross-group operations have strictly increasing GSNs |
| GroupDeliveryTheorems.Completeness | mirbft/orderer/globaldeliver.go:309-355 | the output is a permutation of the de-duplicated log if and only if every META and smaller operation it waits for is present |
| GroupDeliverySpec.KnownExactly | mirbft/orderer/globaldeliver.go:244-275 | the fate of a GSN is known to a history if and only if one of its events is the META of it, with a positive number, or a skip of a range that contains it, both ends included, and does not start at 0 |
| GroupHistory.PrefixExactly | mirbft/orderer/globaldeliver.go:250-254 | the known META prefix reaches k if and only if some event told of each GSN from 1 to k |
| GroupHistory.LogExactly | mirbft/orderer/globaldeliver.go:218-241 | the log has all local requests decided, in order, and of every cross-group operation decided the first copy, none missing |
| GroupHistory.DecidedExactly | mirbft/orderer/globaldeliver.go:218-241 | what a history decided are exactly the requests of the batches it pushed, with the number and flag of their batch |
| GroupHistory.GsnOrder | mirbft/orderer/globaldeliver.go:309-349 | of two deliveries that have a GSN and touch at least two groups, the earlier one has the smaller GSN |
| GroupReplicas.OutputIsReference | mirbft/orderer/globaldeliver.go:150-153 | the output is a function of the decided requests and the known META prefix, whatever the batches |
| GroupReplicas.SameInputsSameOutput | mirbft/orderer/globaldeliver.go:150-153 | replicas with the same decided requests and the same known prefix have delivered the same sequence |
| GroupReplicas.OutputsComparable | mirbft/orderer/globaldeliver.go:150-153 | outputs of replicas at different points of one decided log are prefixes one of the other |
| MulticastOrder.AcyclicMulticast | mirbft/orderer/globaldeliver.go:287-349 | no chain of delivered-before, through replicas of any groups and over local and cross-group requests, is a cycle |
| GlobalDelivery.GlobalDeliverer.RegisterMeta | mirbft/orderer/globaldeliver.go:48-65 | the first META of a GSN not yet passed counts, then everything settled is merged |
| GlobalDelivery.GlobalDeliverer.RegisterSkip | mirbft/orderer/globaldeliver.go:68-84 | unclassified GSNs of the range are recorded as skipped, then everything settled is merged |
| GlobalDelivery.GlobalDeliverer.RecordSkips | mirbft/orderer/globaldeliver.go:73-77 | every GSN from the first to the last of the range, both included, that is above `lastDelivered` has an entry afterwards, and no other one gets one |
| GlobalDelivery.GlobalDeliverer.RegisterCommit | mirbft/orderer/globaldeliver.go:87-100 | the first commit of a numbered request not yet passed counts, then everything settled is merged |
| GlobalDelivery.GlobalDeliverer.MergeAndEmit | mirbft/orderer/globaldeliver.go:102-141 | the loop's deliveries, in order, are those of the recursive form and reach the callback |
| GlobalDelivery.GlobalDeliverer.TouchesMine | mirbft/orderer/globaldeliver.go:125-132 | whether some group of a list is the node's |
| GlobalDeliveryProofs.ClosedForm | mirbft/orderer/globaldeliver.go:48-123 | after any history, `lastDelivered` is the largest k with all of 1..k classified and every touching one committed, and the output is exactly those touching GSNs, ascending, with the first META and request of each |
| GlobalDeliveryProofs.FatesExactly | mirbft/orderer/globaldeliver.go:48-84 | a GSN is classified if and only if some event is the META of it, with a positive number, or a skip of a range that contains it, both ends included, and does not start at 0 |
| GlobalDeliveryProofs.FirstWordCounts | mirbft/orderer/globaldeliver.go:48-84 | and its groups are those of the first such event, none for a skip |
| GlobalDeliveryProofs.CommitsExactly | mirbft/orderer/globaldeliver.go:87-100 | a GSN is committed if and only if some event brings a request numbered with it |
| GlobalDeliveryProofs.FirstCommitCounts | mirbft/orderer/globaldeliver.go:87-100 | and its request is that of the first such event |
| GlobalDeliveryProofs.TouchesExactly | mirbft/orderer/globaldeliver.go:125-132 | a list of groups touches the node if and only if it has a group in common with the node's |
| GlobalDeliveryProofs.SharedOrderAgrees | mirbft/orderer/globaldeliver.go:102-123 | two nodes that never learn different fates of one GSN deliver the GSNs touching both in one order, one output being a prefix of the other |
| ReplicaState.DeliverGroup | mirbft/orderer/multipaxosmulticastorderer.go:64-84 | all delivered requests are applied in order as one batch under the first item's number, the led ones are collected, the numbered ones reach the global deliverer |
| ReplicaState.LedParts | mirbft/orderer/multipaxosmulticastorderer.go:64-84 | the requests collected for the proxy are those of the items led, in order, and no others |
| CommitHistory.CommitAllIsHistory | mirbft/orderer/multipaxosmulticastorderer.go:64-84 | what a group hands on is to the global deliverer as if its history went on with those commits |
| CommitHistory.HandedOn | mirbft/orderer/multipaxosmulticastorderer.go:64-84 | so the closed form of global delivery holds for the history and the deliveries handed on together |
| ReplicaState.ReplicasHaveEqualState | mirbft/orderer/globaldeliver.go:200-213 | two replicas of one decided log that have applied equally many deliveries, in any portions, have equal key-value maps |
| StateMachine.GroupState.ApplyBatch | mirbft/orderer/statemachine.go:98-135 | requests are applied in order, unrecognised ones without effect, and the answers are the last one for each request key |
| StateMachine.GroupState.Execute | mirbft/orderer/statemachine.go:109-131 | each command has its effect, stated key by key: a transfer takes the amount from its source key at its source group, else adds it to its target key at its target group, else does nothing |
| StateMachine.ApplyIsEffect | mirbft/orderer/statemachine.go:51-131 | key by key, what each command sets, removes or moves and at which group, that no other key changes, and what is answered |
| StateMachine.GroupState.PutValue | mirbft/orderer/statemachine.go:51-56 | sets one key and returns the value |
| StateMachine.GroupState.GetValue | mirbft/orderer/statemachine.go:58-63 | returns the value and whether the key is present |
| StateMachine.GroupState.DeleteValue | mirbft/orderer/statemachine.go:67-73 | removes one key and tells whether it was present |
| StateMachine.GroupState.Add | mirbft/orderer/statemachine.go:79-85 | adds to a balance in 64-bit two's complement |
| StateMachine.Int64RoundTrip | mirbft/orderer/statemachine.go:38-49 | decoding the eight big-endian bytes of an int64 gives it back |
| StateMachine.ReqKeyInjective | mirbft/orderer/statemachine.go:88-90 | request identities with 32-bit numbers have different keys |
| StateMachine.BatchingIrrelevant | mirbft/orderer/globaldeliver.go:200-213 | splitting or merging the delivered requests into batches in any way leaves the same state |
| Conservation.BatchIsCommands | mirbft/orderer/statemachine.go:98-135 | a batch does to the state what its recognised commands do one by one |
| Balances.BalanceFollowsTransfers | mirbft/orderer/statemachine.go:79-131 | after any deliveries of transfers and gets, the balance of each key at each group is its initial balance plus the transfers that credited this key there minus those that debited it there, in 64 bits |
| Balances.UnwrittenStays | mirbft/orderer/statemachine.go:51-131 | a key that no delivery at its group writes keeps its value or its absence |
| Balances.LastWriteWins | mirbft/orderer/statemachine.go:51-73 | whatever came before, a key holds the value of the put that wrote it last, and is absent if a deletion did |
| Balances.AnsweredExactly | mirbft/orderer/statemachine.go:98-135 | a batch has an answer under a key if and only if one of its requests with that identity was carried out |
| Balances.LastAnswerStands | mirbft/orderer/statemachine.go:133 | and it is that of the last of them |
| Balances.ReadsLastWrite | mirbft/orderer/statemachine.go:98-135 | a read in a batch answers the value of the last put of its key before it |
| Conservation.TotalFollowsMoves | mirbft/orderer/statemachine.go:79-135 | for every interleaving of deliveries of transfers and gets, the total of all balances is the initial total plus credits minus debits made so far, modulo 2^64 |
| Conservation.ConservedIffAcrossGroups | mirbft/orderer/statemachine.go:120-128 | once every transfer is delivered once at each of its groups, the total is unchanged if and only if the amounts of same-group transfers cancel out modulo 2^64 |
| Conservation.AcrossGroupsNothingIsLost | mirbft/orderer/statemachine.go:120-128 | with different source and target groups, completed transfers leave the total as it was |
| Conservation.MoneyUnderWay | mirbft/orderer/statemachine.go:79-135 | when any part of the deliveries of transfers across groups has been made, the total is the initial one plus the debits and minus the credits still to come, modulo 2^64 |
| DeliveredMoney.ReplicasConserve | mirbft/orderer/multipaxosmulticastorderer.go:64-84 | the same for the key-value states of one replica of each group after applying its own output, whatever the order of log batches, METAs and skips |
| Conservation.SameGroupTransferLoses | mirbft/orderer/statemachine.go:120-128 | a transfer of 5 inside one group changes the total |
| Command.RoundTrip | mirbft/request/command.go:21-101 | decoding an encoded command gives it back if and only if keys are non-empty words and a stored value is non-empty, for all groups and amounts |
| Command.RecognisedExactly | mirbft/request/command.go:59-101 | a payload is recognised as a command if and only if its words are the verb of that command and its arguments, more words being ignored |
| Command.EmptyValueIsLost | mirbft/request/command.go:21-101 | a put of the empty value is not recognised when decoded |
| Command.Base64RoundTrip | mirbft/request/command.go:21-23 | base64 of section 4 of RFC 4648, with padding, decodes to the bytes encoded, and is a word unless empty |
| Command.IntRoundTrip | mirbft/request/command.go:37-42 | every int64 amount is parsed back from its decimal text |
| Pbft.HasPrepared | mirbft/orderer/pbftinstance.go:1825-1854 | the counting loop, in any order, tells whether a proposal and 2f matching prepares are present |
| Pbft.ValidateCommits | mirbft/orderer/pbftinstance.go:1866-1883 | the loop counts every matching commit not counted before, in any order, and marks it |
| Pbft.CommitsComplete | mirbft/orderer/pbftinstance.go:1856-1893 | commits are looked at only once prepared; complete with 2f + 1 counted |
| Pbft.PbftInstance.constructor | mirbft/orderer/pbftinstance.go:144-182 | a new view has one empty batch for each sequence number |
| Pbft.PbftInstance.ProposeSN | mirbft/orderer/pbftinstance.go:240-319 | the leader records its own proposal, without a prepare, and sends it; in view 0 only |
| Pbft.PbftInstance.OnPreprepare | mirbft/orderer/pbftinstance.go:321-415 | which proposals are refused, ignored, answered by leaving the view, or followed with a prepare and whatever earlier messages now allow |
| Pbft.PbftInstance.SendPrepare | mirbft/orderer/pbftinstance.go:417-455 | the own prepare is recorded and sent |
| Pbft.PbftInstance.OnPrepare | mirbft/orderer/pbftinstance.go:457-507 | the first prepare of each sender counts; with enough of them the node commits |
| Pbft.PbftInstance.SendCommit | mirbft/orderer/pbftinstance.go:509-545 | the own commit is recorded and sent |
| Pbft.PbftInstance.OnCommit | mirbft/orderer/pbftinstance.go:547-599 | the first commit of each sender is kept; with enough valid ones the batch is announced |
| PbftProtocol.StepKeepsInv | mirbft/orderer/pbftinstance.go:321-599 | every step, forged messages of faulty nodes included, keeps the invariant |
| PbftAgreement.Agreement | mirbft/orderer/pbftinstance.go:547-599 | no two correct nodes decide different digests for a sequence number in a view, unless a faulty leader can split the correct nodes between two commit quorums |
| PbftExactness.AgreementExactly | mirbft/orderer/pbftinstance.go:1856-1893 | decided digests agree in all runs if and only if the leader is correct, or there are no sequence numbers, or the correct nodes are fewer than 2 max(1, 2f + 1 - faulty) |
| PbftAgreement.AgreementWithThreeFPlusOne | mirbft/orderer/pbftinstance.go:1825-1893 | they agree with n = 3f + 1 and at most f faulty nodes |
| PbftExactness.AgreementBySize | mirbft/membership/membership.go:142-145 | with f faulty nodes and a faulty leader they agree in all runs if n = 3f + 1, and not if n is 3f + 2 or 3f + 3 |
| PbftRuns.FiveNodesDecideTwo | mirbft/orderer/pbftinstance.go:1856-1893 | a run with n = 5 and one faulty node in which two correct nodes decide different digests |
| PbftExactness.PreparedExactly | mirbft/orderer/pbftinstance.go:1825-1854 | prepared correct nodes have one digest in all runs if and only if the leader is correct, or there are no sequence numbers, or the correct nodes are fewer than 2 max(1, 2f - faulty) |
| PbftExactness.PreparedBySize | mirbft/orderer/pbftinstance.go:1825-1854 | with f faulty nodes and a faulty leader, some run sets prepared nodes apart at every size |
| PbftRuns.FourNodesPreparedApart | mirbft/orderer/pbftinstance.go:1837-1852 | a run with n = 4 and one faulty node that leaves two correct nodes prepared for different digests |
| PbftAgreement.PreparedTogether | mirbft/orderer/pbftinstance.go:1825-1854 | no run sets prepared nodes apart unless a faulty leader can split the correct nodes between two sets of 2f prepares |
| PbftAgreement.LeaderSetsApart | mirbft/orderer/pbftinstance.go:1837-1852 | where two quorums of 2f + 1 share a correct node, prepared nodes are apart only if one of them counted a faulty leader's own prepare |
| PbftExactness.EntriesExactly | mirbft/orderer/pbftinstance.go:1814-1818 | decided entries, with the flag that the digest does not cover, agree in all runs if and only if the leader is correct, or there are no sequence numbers, or fewer than two correct nodes |
| PbftRuns.FourNodesSplitEntry | mirbft/orderer/pbftinstance.go:629-656 | a run with n = 4 and one faulty node in which two correct nodes announce the same digest with different flags |
| PbftAgreement.EntriesUnderCorrectLeader | mirbft/orderer/pbftinstance.go:321-415 | under a correct leader whole entries agree for any numbers of nodes and faulty nodes; this speaks of view 0, as nothing is decided later (next row) |
| PbftAgreement.NothingDecidedLater | mirbft/orderer/pbftinstance.go:255-258 | fresh proposals are made in view 0 only, so the normal case of a later view decides nothing unless the leader is faulty |
| PbftAgreement.DecidedWasProposed | mirbft/orderer/pbftinstance.go:321-415 | what is decided was proposed, with its flag, under the name of the view's leader |
| PbftAgreement.CommitsCountedOnce | mirbft/orderer/pbftinstance.go:1866-1892 | the commits counted are as many as the different peers that sent a matching commit and are marked; at least 2f + 1 for a committed batch |
| PbftProgress.ProposalIsDecided | mirbft/orderer/pbftinstance.go:240-599 | in view 0 with a correct leader, at least 2f + 1 and at least two correct nodes: from any point at which they are in the view and have not touched a sequence number, the leader's proposal of any digest and deliveries alone bring all of them to decide it with the flag clear |
| PbftProgress.DecidedDespiteForgery | mirbft/orderer/pbftinstance.go:240-599 | in particular whatever the faulty nodes sent first |
| PbftProgress.DecidesExactly | mirbft/orderer/pbftinstance.go:457-599 | under a correct leader the correct nodes can decide on their own if and only if they are at least 2f + 1 and at least two |
| PbftProgress.DecisionTakesEnough | mirbft/orderer/pbftinstance.go:1825-1893 | in any run in which the faulty nodes say nothing, a decision takes 2f + 1 and at least two correct nodes |
| PbftProgress.LoneLeaderNeverDecides | mirbft/orderer/pbftinstance.go:292-318 | an instance of one node decides nothing in any run |
| PbftProgress.LeavesExactly | mirbft/orderer/pbftinstance.go:321-415 | a message makes a node leave the view if and only if it is a proposal of a false sender or leader, or one of this view that is malformed or comes second before the commit |
| PbftProgress.LeftForGood | mirbft/orderer/pbftinstance.go:321-599 | a node that has left sends, decides and records nothing more, however the run goes on |
| Buckets.AssignBuckets | mirbft/manager/mirmanager.go:339-393 | the loops compute each leader's list: its strided start, then the extra buckets dealt to it |
| Buckets.BucketPartition | mirbft/manager/mirmanager.go:339-393 | each bucket is held exactly once, by exactly one leader, for every epoch and every non-empty list of leaders |
| Buckets.OwnerByRank | mirbft/manager/mirmanager.go:339-393 | a bucket stays with the node whose turn it is if that one leads, else goes to the leader with (b + epoch) mod the number of leaders smaller ones |
| Buckets.LeaderOrderIrrelevant | mirbft/manager/mirmanager.go:348-352 | the assignment does not depend on the order in which leaders are listed |
| Segments.InitSNs | mirbft/manager/skippingsegment.go:36-41 | the segment's numbers: offset plus multiples of the distance |
| Segments.SegmentLengths | mirbft/manager/mirmanager.go:273-282 | quotient and remainder give each segment as many numbers as fit it in the epoch |
| Segments.EvenShare | mirbft/manager/mirmanager.go:273-282 | the number of places of a segment is the quotient, plus one for the first segments of an uneven division |
| Segments.MirManager.constructor | mirbft/manager/mirmanager.go:126-141 | starts with the segments of epoch 0 |
| Segments.MirManager.CreateSegments | mirbft/manager/mirmanager.go:261-335 | one segment for each leader, numbered on, with the buckets assigned to it |
| Segments.MirManager.OnEntry | mirbft/manager/mirmanager.go:143-206 | exactly the last entry of an epoch starts the next one; the fields are always those of the history of leader lists |
| Segments.Tiling | mirbft/manager/mirmanager.go:261-322 | for every history of leader lists, the numbers held by segments are exactly those below the current epoch's end |
| Segments.Lengths | mirbft/manager/mirmanager.go:261-282 | with a segment length set every segment has just that many numbers; without one an epoch has the epoch length, shared out evenly |
| Segments.StartsAfterEarlier | mirbft/manager/mirmanager.go:300-319 | a segment starts after exactly the numbers of earlier epochs |
| Segments.EveryNumberCovered | mirbft/manager/mirmanager.go:123-207 | finds the epoch, segment and position of every such number |
| Segments.NoNumberTwice | mirbft/manager/mirmanager.go:261-322 | and there is only one such place |
| Segments.SegmentIdsUnique | mirbft/manager/mirmanager.go:300-321 | segment numbers are never reused in any history |
| Segments.EveryLeaderHasItsSegment | mirbft/manager/mirmanager.go:286-319 | with no leader listed twice, no segment replaces another in the index |
| Segments.LeadersRotate | mirbft/manager/mirmanager.go:289-305 | a segment's own leader leads its first view and every node leads one view in turn |
| Segments.LeaderOfView | mirbft/manager/mirmanager.go:289-305 | the leader of each view is the node that many places after the segment's own leader in the membership, around its end |
| LeaderPolicies.BackoffPolicy.Update | mirbft/manager/leaderpolicies.go:114-135 | bans double in 32-bit arithmetic, and the relaxation loop, wherever it can end, terminates with everybody's bans shortened alike |
| LeaderPolicies.BackoffPolicy.GetLeaders | mirbft/manager/leaderpolicies.go:137-149 | the nodes whose ban is over, in membership order |
| BackoffBans.PeriodDoubles | mirbft/manager/leaderpolicies.go:114-121 | after any run a node's period is the default ban doubled once for each earlier suspicion of it, in 32 bits, and a node never suspected has none |
| BackoffBans.BannedUntil | mirbft/manager/leaderpolicies.go:114-135 | after any run a node is banned until the epoch of its last suspicion plus its period, less the rounds of relaxing since then, in 32 bits |
| BackoffBans.OfferedAfterBan | mirbft/manager/leaderpolicies.go:114-149 | so where that end is a 32-bit number the node is offered in exactly the epochs after it; with nothing relaxed, not in the epochs of its period and from the next one on |
| BackoffBans.UnsuspectedOffered | mirbft/manager/leaderpolicies.go:137-149 | a node never suspected is always offered |
| BackoffBans.RoundsAreEnough | mirbft/manager/leaderpolicies.go:128-134 | the bans are shortened by the number of rounds counted, and then the next epoch has a leader |
| BackoffBans.RoundsAreLeast | mirbft/manager/leaderpolicies.go:128-134 | and no fewer rounds would do |
| LeaderPolicies.Relaxed | mirbft/manager/leaderpolicies.go:128-134 | relaxing the bans ends, and leaves the next epoch a leader |
| LeaderPolicies.RelaxesExactly | mirbft/manager/leaderpolicies.go:128-134 | the loop ends if and only if some number of rounds finds a leader, which fails only when the next epoch wraps around and every node has been suspected |
| LeaderPolicies.RelaxingSkipsEpochs | mirbft/manager/leaderpolicies.go:128-134 | relaxing is equivalent to skipping the epochs without leaders: the next epoch gets the leaders of the first later epoch that has any |
| LeaderPolicies.NextEpochHasLeader | mirbft/manager/leaderpolicies.go:114-149 | after any run of suspicions, wrap-around included, every later epoch has a leader |
| LeaderPolicies.BlacklistPolicy.Update | mirbft/manager/leaderpolicies.go:168-179 | keeps the latest f suspects, repetitions included, and rebuilds the index |
| LeaderPolicies.BlacklistPolicy.GetLeaders | mirbft/manager/leaderpolicies.go:181-191 | the nodes not on the list, in membership order |
| LeaderPolicies.BlacklistIsLatest | mirbft/manager/leaderpolicies.go:168-179 | after any run the list is the last f suspects of it |
| LeaderPolicies.BlacklistExcludesFew | mirbft/manager/leaderpolicies.go:168-191 | after any run the blacklist excludes at most f nodes |
| LeaderPolicies.CombinedPolicy.Update | mirbft/manager/leaderpolicies.go:211-214 | both policies learn of every suspicion |
| LeaderPolicies.CombinedPolicy.GetLeaders | mirbft/manager/leaderpolicies.go:216-234 | each node that one of the two policies offers, once, in any order |
| LeaderPolicies.CombinedOffersEnough | mirbft/manager/leaderpolicies.go:211-234 | after any run the combined policy offers at least n - f members |
| BackoffBans.CombinedOffers | mirbft/manager/leaderpolicies.go:216-234 | after any run the combined policy leaves out exactly the members that are banned and among the last f suspects |
| LeaderPolicies.LeadersDistinct | mirbft/manager/leaderpolicies.go:137-191 | no policy offers a node twice, as the cutting into segments needs |
| Log.DecisionLog.CommitEntry | mirbft/log/log.go:78-102 | the first entry of a slot is stored and everything publishable is published; later ones change nothing |
| Log.DecisionLog.PublishEntries | mirbft/log/log.go:251-290 | the loop pushes each filled slot to every subscriber and then wakes its waiters |
| Log.DecisionLog.Missing | mirbft/log/log.go:115-128 | the loop from the first unpublished slot lists the empty ones |
| Log.DecisionLog.Entries | mirbft/log/log.go:131-144 | a subscriber receives what is published from now on |
| Log.DecisionLog.WaitForEntry | mirbft/log/log.go:170-196 | a waiter goes on at once if its prefix is published, else it is registered at its slot |
| Log.PublishedInOrder | mirbft/log/log.go:251-290 | in every run each subscriber has received exactly the slots from its subscription to the first unpublished one, once each and in order, each with the first entry committed for it |
| Log.CommitPublishesAll | mirbft/log/log.go:78-102 | after publishing, the first unpublished slot is the first one nobody has committed |
| Log.MissingIsExact | mirbft/log/log.go:115-128 | in every run the list is exactly the slots from 0 to the bound without a commit, ascending |
| Log.ReleasedIffPublished | mirbft/log/log.go:170-196 | in every run a waiter has gone on if and only if its whole prefix is published |
| MetaHoles.FindHoles | mirbft/orderer/sequencer_election.go:406-430 | the scan of the last 200000 GSNs gives the recursive list of holes |
| MetaHoles.InRanges | mirbft/orderer/sequencer_election.go:432-439 | whether some range contains a GSN |
| MetaHoles.HolesAreExact | mirbft/orderer/sequencer_election.go:406-448 | the ranges are ascending, disjoint and not adjacent, and cover exactly the GSNs from 1 to the bound, of the last 200000, without META and in no skipped range |
| MetaHoles.SeparatedUnique | mirbft/orderer/sequencer_election.go:442-448 | no other such list of ranges covers the same GSNs |
| MetaHoles.WriteRanges | mirbft/orderer/sequencer_election.go:451-460 | the last 512 ranges as text |
| MetaHoles.ReadRanges | mirbft/orderer/sequencer_election.go:462-471 | the valid ranges among the parts between commas |
| MetaHoles.DecodeOfEncode | mirbft/orderer/sequencer_election.go:451-471 | for every list of 64-bit ranges, decoding the text gives the valid ones among the last 512 |
| MetaHoles.HolesRoundTrip | mirbft/orderer/sequencer_election.go:406-471 | up to 512 ranges of holes arrive as they were sent |

## Left out

- Sequencer.SequencerNode.AllocateGSN: one turn of the waiting loop; a run repeats it, the three-second limit is a turn that returns 0.
- Sequencer.SequencerNode.RequestReservationLocked: the one-second test on the last request is a boolean chosen by the environment.
- Sequencer.SequencerNode.OnElectionTimeout: the highest META and the holes a candidate starts with are not part of the node's state.
- Sequencer.SequencerNode.OnVoteRequest: the answer carries the reservation mark only, not the highest META and the holes.
- Sequencer.SequencerNode.OnVoteResponse: the highest META and the holes that votes carry are not collected.
- Sequencer.SequencerNode.ResumeCounter: the skip range published on resuming and the recovery of holes are not modelled.
- Sequencer.SequencerNode.OnHeartbeat: the skipped ranges at the end of a heartbeat are not read.
- ReplicaState.DeliverGroup: the answers and the requests to notify the proxy of are returned, notifying it is not modelled.
- Pbft.ValidateCommits: keeps the number of valid commits instead of the list of them, and no commit timestamps.
- Pbft.PbftInstance.OnPrepare: messages of later views are dropped, the backlog is not modelled.
- Pbft.PbftInstance.OnCommit: messages of later views are dropped; of the announced entry, the digest and the flag are kept, not times.
- Pbft.PbftInstance.OnPreprepare: validity of the requests, in-flight marks and buckets are one verdict chosen by the environment; messages of later views are dropped, the backlog is not modelled.
- Segments.MirManager.OnEntry: suspects, checkpoints, watermarks and batch sizes are not modelled; the next leaders are a parameter.
- Segments.MirManager.CreateSegments: a segment's buckets are found in the announced assignment under its leader, not in the segment itself.
- LeaderPolicies.NextEpochHasLeader: runs of suspicions up to the last but one epoch, after which the epochs wrap around.
- Log.DecisionLog.WaitForEntry: registers a waiter and records its release; blocking itself is not modelled.
- Log.DecisionLog.CommitEntry: out-of-order subscribers are not modelled.
- MetaHoles.ReadRanges: blanks before a number in a range are not accepted, as `Sscanf` would.
- Command.RoundTrip: keys are sequences of characters; bytes that are not valid UTF-8 are not modelled.
- Consensus per sequence number in the groups (`multipaxosinstance.go`): each group's decided log is an input.
- Agreement between META and skip for one GSN: assumed as stated above, not derived from the sequencer.
- `applyEntryInOrder` and the proposal loop, which start at another sequence number; the deliverer begins at `Push`.
- Pre-votes, timers, heartbeat periods and retries: an election, heartbeat or request may happen at any time.
- Integer widths of terms, GSNs and sequence numbers, which are unbounded here; balances, amounts, group numbers, bans and range texts have the source's widths.
- PBFT view change, state transfer and segment checkpoints; a node that leaves the view takes no further part in it.
- The HotStuff and Raft orderers, the dummy manager and orderer, and the order of the combined policy's leaders, which comes from map iteration.
- Batching goroutine and channel capacities, proxy notification, gRPC, discovery, configuration, crypto, tracing and the client library.
