# Verified model of snap

snap collects telemetry: plugins measure, tasks run workflows on schedules, and nodes form a
tribe that shares agreements about which plugins and tasks to run. This project models the parts
of snap whose correctness is hardest to see and proves what they promise, over all inputs, all
runs and all interleavings.

- `LamportClock`: the tribe's 64-bit clock, with its compare-and-swap loop under any interleaving.
- `TribeTypes`, `Inbox`: gossip messages, the ring of 512 seen messages and the duplicate check.
- `Gossip`: many nodes exchanging messages and full states.
- `Intents`, `Spinning`: agreements, members, parked intents and the loop that retries them.
- `Convergence`, `TribeTheorems`: the handlers over whole histories: agreement between nodes, and how it can fail.
- `Membership`: who belongs to which agreement, over whole histories.
- `Joining`: a node that joins by taking over another's full state.
- `TribeNode`: a tribe node as an object, its handlers and every pass with their loops.
- `MetricTrie`: the index of metrics by namespace and version, with wildcard queries.
- `Remainders`, `Tuples`: expansion of tuples in namespaces, a Chinese-remainder question.
- `Text`, `Namespaces`: printing a namespace and reading it back.
- `WorkQueue`, `Pipeline`: job queues, workers and promises, as interleaved atomic steps.
- `Schedule`: windowed schedules and the task loop.
- `PluginPool`: growth, shrinking, restarts and routing of running plugins.
- `PluginConfig`, `PolicyTree`: layered configuration with its cache; inherited policies.

Objects that the source updates in place are classes; their methods are proved against functions
on values, and the theorems are about those functions and about runs of them. Clock readings, the
order in which Go iterates a map, started processes and delivered messages are parameters.

## Findings

Where the code does not do what it is said to do, the model follows the code and the exact
condition is proved.

- `processIntents` never returns while a join intent for a known member and agreement is refused,
  because the refused intent stays parked and the loop starts over. `Spinning.SpinsIff` decides
  this from the state on entry; `TribeTheorems.SecondJoinHangs` reaches it from an empty node.
- The leave pass looks for join messages, so a leave that was ever parked stays parked whatever happens
  later (`Spinning.ParkedLeaveStays`), even when the member could leave
  (`TribeTheorems.ParkedLeaveIgnored`).
- A message can be accepted twice, but in every run only if another message of the same Lamport time was
  accepted in between or the clock was set back in between (`Inbox.ReacceptedOnlyAfterTie`). Either can
  split the tribe (`TribeTheorems.TieSplitsTribe`; `TribeTheorems.FallSplitsTribe`, with all times
  distinct); under every common continuation the two nodes' balances stay one apart
  (`TribeTheorems.SplitStays`). Exactly which messages are accepted, in every run, is
  `Inbox.AcceptedBySlotIff`. That a message is accepted at most once, and that nodes agree, holds with
  distinct times while no clock is set back (`Inbox.AppliedAtMostOnce`, `TribeTheorems.GossipConverges`).
- A full-state merge checks the clock and updates it without a lock. At remote time zero, after the own
  clock has moved on in between, the update sets it back to zero. A run keeps the Lamport order exactly
  if this does not happen (`Gossip.AlwaysOrderedIff`); `Gossip.TimeGivenTwice` is a run in which a node
  gives out one time twice.
- A joining node panics exactly if its clock is not ahead of the other node's and the other node has an
  intent parked at a position its own buffer does not have (`TribeNode.TribeNode.MergeJoin`). So a fresh
  one does, whatever the other node's history, exactly if anything is parked there (`Joining.EmptyFitsIff`),
  for which one message is enough (`Joining.MisfitReached`).
- Removing an agreement leaves its members pointing at it. When such a member goes, the node panics
  (`TribeNode.TribeNode.HandleMemberLeave`, `TribeTheorems.LeaverPanics`).
- A leave takes the member out exactly if no join of that member to that agreement is parked; otherwise the
  retry loop, if it returns, brings the member back (`Membership.LeaveTakesEffectIff`,
  `Membership.LeaveUndone`).
- Leaving one agreement takes away the member's plugin agreement, whichever it is, so a member of two
  agreements that left one can not leave the other: its request is parked, and stays so
  (`Membership.LeftBehind`, `Membership.StrandedReached`, `Spinning.ParkedLeaveStays`).
- A joining node's own parked intents are overwritten, position by position, by those it takes over
  (`Joining.IntentsTakenOver`, `Joining.OwnIntentLost`).
- Tuple expansion gives all combinations exactly if the tuple sizes are pairwise coprime
  (`Tuples.CompleteIffCoprime`). The comments at control/metrics.go:687-699 promise them always, with
  two tuples of two as the example.
- A counted schedule keeps to its count, whatever happens later, exactly if the first fire comes
  strictly after the time the window is counted from (`Schedule.CountKeptIff`). A start in the
  future does not help: a first fire at the very start time allows one fire too many.
- Under sticky or config-based routing, bound instances are in the pool throughout a run exactly if none
  of them dies without a new strategy coming with it (`PluginPool.AlwaysHereIff`,
  `PluginPool.DeadBoundReached`), and instances stay within subscriptions exactly if no unsubscription
  that has to shrink the pool is stuck on an instance that is gone, or on none being free
  (`PluginPool.AlwaysFitsIff`, `PluginPool.DeadStuckReached`, `PluginPool.StuckReached`).
- Config-based routing binds by configuration and unsubscribes by task, so no unsubscription ever releases
  an instance it has used (`PluginPool.OutlivesSubscriptions`); one task that comes, is served once and
  goes leaves an instance without a subscription (`PluginPool.ConfigStuckReached`).
- A failure limit of zero disables a task after its first fire, failed or not
  (`Schedule.ZeroLimitDisables`). Task creation requests cannot ask for it, as core/task.go:282 takes zero
  for unset; only a caller that passes `core.OptionStopOnFailure(0)` itself can.
- A configuration request for an unknown plugin type answers nothing once and the global layer
  from then on (`PluginConfig.UnknownTypeAnswers`).
- Deleting a configuration key for one plugin reaches other plugins exactly if the first has no layer of its
  own: the key is then taken from the whole plugin type (`PluginConfig.DeleteIsolatedIff`,
  `PluginConfig.DeleteSpills`).
- Merging configuration for one version of a plugin shows in its other versions exactly if the plugin is known
  and the version is not, or the plugin is unknown and the version not positive
  (`PluginConfig.VersionIsolatedIff`); so of two versions configured one after the other the second is
  configured for both (`PluginConfig.MergeSpills`).
- A stopped job queue can swallow a job whose promise is then never completed: exactly those jobs that
  are still waiting when its receiver is in its last receive (`Pipeline.LosesIff`). The work manager stops
  only its collect queue, so only collect jobs are ever lost (`Pipeline.OnlyCollectLost`), at most one in
  a run (`Pipeline.LostOnce`), and for every collect job there is such a run (`Pipeline.LostReached`).
- A second Stop of a queue closes its kill channel again and panics exactly if a handler has ended since
  the first (`WorkQueue.StopPanicsIff`, `WorkQueue.SecondStopPanics`).

## Model

| member | source | states |
|---|---|---|
| `LamportClock.UpdatedIsAboveIff` | mgmt/tribe/clock.go:31-44 | An update leaves the clock above the time seen and not below its old value exactly when that time is not the last of the 64-bit word. |
| `LamportClock.LClock.Update` | mgmt/tribe/clock.go:31-44 | The compare-and-swap loop ends with the greater of the old clock and the successor of the time seen. |
| `LamportClock.LClock.Increment` | mgmt/tribe/clock.go:47-49 | One 64-bit step, which is also the value returned. |
| `LamportClock.Linearizable` | mgmt/tribe/clock.go:31-49 | Under any interleaving of loads, swaps and additions, wrap-around included, the counter ends where the completed calls taken as atomic operations would put it. |
| `LamportClock.MonotoneAndBounded` | mgmt/tribe/clock.go:31-49 | Without wrap-around the counter never falls, a completed update stays below it, and a call loses at most `lt + 1 - began` swaps. |
| `Inbox.ReadTwice` | mgmt/tribe/tribe.go:1461-1462 | The age test reads the clock twice; it answers as one reading would exactly when the clock does not fall through 512 in between, and otherwise only refuses more. |
| `Inbox.EnteredBelow` | mgmt/tribe/tribe.go:894-905 | While the clock is not set back, the time of the message being handled is below it. |
| `Inbox.RunTracks` | mgmt/tribe/tribe.go:894-905 | After any run in which the clock is not set back every accepted time lies below the clock, each slot holds the last message accepted for it, and times that share a slot never decrease. |
| `Inbox.RunSlots` | mgmt/tribe/tribe.go:894-905 | After every run, the clock set back or not, a slot holds the last message accepted for it. |
| `Inbox.AcceptedBySlotIff` | mgmt/tribe/tribe.go:1451-1474 | The exact deduplication window of every run: a message is accepted iff it is not old and not the last one accepted for its slot. |
| `Inbox.FirstTimeAcceptedIff` | mgmt/tribe/tribe.go:1451-1474 | In every run a message not accepted before is accepted iff the clock is at most 512 ahead of it. |
| `Inbox.SlotRemembers` | mgmt/tribe/tribe.go:1451-1474 | For a time that is not old the slot holds exactly the last message of that very time, or an earlier time's. |
| `Inbox.AcceptedIff` | mgmt/tribe/tribe.go:1451-1474 | While the clock is not set back the window goes by times: a message is accepted iff it is not old and not the last one accepted with its own time. |
| `Inbox.ReacceptedOnlyAfterTie` | mgmt/tribe/tribe.go:1451-1474 | In every run a message accepted twice has a different message of the same time accepted in between, or the clock set back between the start of its first handling and its second acceptance. |
| `Inbox.AppliedAtMostOnce` | mgmt/tribe/tribe.go:1451-1474 | With distinct times a message is accepted again, whatever the channel repeats, only if the clock is set back in between; if it never is, at most once. |
| `Gossip.MergeClockIsMax` | mgmt/tribe/delegate.go:263-267 | Check and update of an undisturbed merge leave the greater of the two clocks, also at remote time zero where subtraction and addition both wrap. |
| `Gossip.MergeKeepsClockIff` | mgmt/tribe/delegate.go:263-267 | When the clock has moved between check and update, the update does not lower it iff the remote time is not zero or the clock still is. |
| `Gossip.MoveOrderedIff` | mgmt/tribe/delegate.go:163-290 | Originating, receiving, handling, and each single read or write of an export or a merge keep the order at all nodes and in all states exactly if the move is not a falling clock update. |
| `Gossip.AlwaysOrderedIff` | mgmt/tribe/delegate.go:163-290 | A run keeps every remembered message in its slot and below the clock and no causal past ahead of its clock, everywhere and throughout, iff no update in it falls. |
| `Gossip.HappenedBefore` | mgmt/tribe/tribe.go:468-477 | After a run without such an update, a message originated anywhere has a time above that of every message in its causal past. |
| `Gossip.TimeGivenTwice` | mgmt/tribe/delegate.go:263-267 | A run from fresh nodes after which a node originates a message with the time of one already in its past. |
| `Gossip.ExportsWhole` | mgmt/tribe/delegate.go:163-246 | From any state, the moves of an undisturbed export yield the node's clock and whole ring, task state queries aside, and change nothing else. |
| `Gossip.MergesWhole` | mgmt/tribe/delegate.go:248-291 | After any moves, those of an undisturbed merge of a state that is not behind leave its time and, when joining, every message of it in the ring; other nodes are unchanged. |
| `Intents.CutOutPresent` | mgmt/tribe/tribe.go:735-749 | Cutting an item out unlists that item in that agreement and nothing else. |
| `Intents.RotateOutPresent` | mgmt/tribe/agreement/agreement.go:169-180 | The agreement's own Remove, which rotates the list, unlists exactly the item too. |
| `Intents.OutOrders` | mgmt/tribe/agreement/agreement.go:169-180 | The order after a removal: the retry loop closes the gap, Remove puts what followed the item first. |
| `Intents.EffectValid` | mgmt/tribe/tribe.go:707-857 | Whatever a pass does keeps pointers, names and lists consistent and leaves the other intents. |
| `Intents.FireAt` | mgmt/tribe/tribe.go:707-857 | A pass that is not refused removes exactly one intent. |
| `Intents.ReturnsIffDone` | mgmt/tribe/tribe.go:692-705 | The loop returns within one iteration per parked intent when no join holds it up, and within no number of iterations otherwise. |
| `Intents.FiringKeepsBalance` | mgmt/tribe/tribe.go:707-791 | A pass keeps, for every item, listed plus parked adds minus parked removes. |
| `Intents.SettledQuiet` | mgmt/tribe/tribe.go:692-705 | When the loop returns no pass has an intent left to stop at. |
| `Intents.RestReadsBalance` | mgmt/tribe/tribe.go:707-791 | At rest an item is listed iff its balance is positive, with max(balance-1,0) adds and max(-balance,0) removes parked. |
| `Intents.SettleKeepsBalance` | mgmt/tribe/tribe.go:692-857 | The loop keeps every balance and leaves every item at rest when it returns. |
| `Convergence.AcceptReflects` | mgmt/tribe/tribe.go:859-995 | A handler takes a state that reflects its messages to one that reflects them and the new one. |
| `Convergence.MemberDownReflects` | mgmt/tribe/tribe.go:1076-1088 | Where no agreement was removed, a leaving member never makes the node panic and changes no list. |
| `Convergence.RunReflects` | mgmt/tribe/tribe.go:859-1189 | A history without agreement removal never panics and, unless it hangs, reflects its messages. |
| `Convergence.RunFromReflects` | mgmt/tribe/tribe.go:859-1189 | The same from any book that reflects some messages already. |
| `Convergence.ListedIffNetPositive` | mgmt/tribe/tribe.go:859-995 | In a created agreement an item is listed iff adds exceed removes, and the parked adds and removes are the surplus. |
| `Convergence.Converges` | mgmt/tribe/tribe.go:859-1189 | Nodes that accepted the same messages in any two orders know the same agreements, list the same items and have the same requests parked. |
| `Spinning.LeavePassNeverFires` | mgmt/tribe/tribe.go:839-857 | When the join pass is quiet the leave pass is too. |
| `Spinning.ParkedLeaveStays` | mgmt/tribe/tribe.go:839-857 | Over every history, a leave that was ever parked is still parked at the end. |
| `Spinning.SpinsIff` | mgmt/tribe/tribe.go:821-837 | The loop hangs iff some parked join will be refused, computed from the state on entry. |
| `Spinning.RunParks` | mgmt/tribe/tribe.go:1476-1509 | Only accepted messages are ever parked, never the removal of an agreement. |
| `Spinning.IneffectiveParkedIff` | mgmt/tribe/tribe.go:859-1189 | After any history a message that can not take effect is parked last, unless it removes an agreement or is about running tasks; nothing else changes. |
| `Spinning.HandlerHangsIff` | mgmt/tribe/tribe.go:692-857 | After any history the next handler hangs iff it retries a state on which some parked join will be refused. |
| `Spinning.NoJoinNeverHangs` | mgmt/tribe/tribe.go:692-857 | A history that accepts no join message never hangs. |
| `Spinning.LadenJoinHangs` | mgmt/tribe/tribe.go:1373-1398 | A join parked for a member that will still belong to an agreement with plugins makes every retry hang. |
| `TribeTheorems.GossipConverges` | mgmt/tribe/tribe.go:859-1189 | With distinct times and no clock set back, nodes that accepted the same set of messages, however reordered and repeated, agree on every agreement and item. |
| `TribeTheorems.TieSplitsTribe` | mgmt/tribe/tribe.go:1451-1474 | Two nodes that accepted the same four messages list an item differently when two of the messages share a time. |
| `TribeTheorems.FallSplitsTribe` | mgmt/tribe/delegate.go:263-267 | The same with distinct times, when a merge sets the clock back to zero on one of them. |
| `TribeTheorems.SplitStays` | mgmt/tribe/tribe.go:859-995 | Whatever both accept afterwards, their balances stay one apart, and they list the item differently iff the second one's adds and removes cancel out. |
| `TribeTheorems.SecondJoinHangs` | mgmt/tribe/tribe.go:827-831 | A concrete history from an empty node whose last handler never returns. |
| `TribeTheorems.LeaverPanics` | mgmt/tribe/tribe.go:1076-1088 | A history after which a member of a removed agreement goes and the node panics. |
| `TribeTheorems.ParkedLeaveIgnored` | mgmt/tribe/tribe.go:1168-1189 | A history after which a parked leave is possible and still parked. |
| `Membership.JoinJoins` | mgmt/tribe/tribe.go:1289-1299 | A join makes one member belong to one agreement on both sides, points its plugin agreement there, and changes no other membership. |
| `Membership.LeaveLeaves` | mgmt/tribe/tribe.go:1338-1350 | A leave ends that membership on both sides and the member's plugin agreement, changes no other membership; the member can then join any agreement and leave none. |
| `Membership.BindAdds` | mgmt/tribe/tribe.go:1098-1120 | Creating an agreement adds an empty one and leaves the others alone. |
| `Membership.UnbindDrops` | mgmt/tribe/tribe.go:1122-1144 | Removing an agreement drops that one and no other. |
| `Membership.GoneIsGone` | mgmt/tribe/tribe.go:1076-1088 | A member that goes is unknown afterwards and out of the agreements it knew of; all else stays. |
| `Membership.RunLinked` | mgmt/tribe/tribe.go:859-1189 | Over every history without agreement removal, hanging ones included, a member belongs to exactly the agreements it knows of, strangers to none, and its plugin agreement is one of them. |
| `Membership.LeaverForgotten` | mgmt/tribe/tribe.go:1076-1088 | After such a history a member that goes is unknown and belongs to nothing. |
| `Membership.SettleMembers` | mgmt/tribe/tribe.go:692-857 | When the retry loop returns, members are those from before and every known member with a parked join to a known agreement; even if it never returns nobody is lost. |
| `Membership.JoinTakesEffect` | mgmt/tribe/tribe.go:1146-1166 | After any history a possible join makes its member belong, whatever is retried. |
| `Membership.LeaveTakesEffectIff` | mgmt/tribe/tribe.go:1168-1189 | After any history a possible leave takes its member out iff no join of it to that agreement is parked. |
| `Membership.LeaveUndone` | mgmt/tribe/tribe.go:821-837 | A history whose leave is carried out and undone by the retry loop. |
| `Membership.LeftBehind` | mgmt/tribe/tribe.go:1338-1371 | A member of two agreements that leaves one still belongs to the other and can not leave it. |
| `Membership.StrandedReached` | mgmt/tribe/tribe.go:1338-1371 | A history that ends so, with the second leave parked. |
| `Joining.EmptyFitsIff` | mgmt/tribe/delegate.go:292-309 | After any history of the sender, a buffer without intents has a position for all the sender has parked iff nothing is parked. |
| `Joining.MisfitReached` | mgmt/tribe/delegate.go:292-309 | One add to an unknown agreement leaves the sender in a state that no fresh node can join. |
| `Joining.IntentsTakenOver` | mgmt/tribe/delegate.go:292-309 | Where they fit, all the sender's intents are parked afterwards, own ones at other positions stay, and nothing else is parked. |
| `Joining.OwnIntentLost` | mgmt/tribe/delegate.go:292-309 | A node's only parked intent is lost to any one of the sender's. |
| `Joining.TakenReplaces` | mgmt/tribe/delegate.go:269-273 | Whatever it had before, a joining node knows exactly the sender's agreements, as the sender does, and keeps only members the sender does not know. |
| `Joining.TakenReflects` | mgmt/tribe/delegate.go:269-273 | A fresh node that takes over agreements from a node without parked intents reflects all that node's messages. |
| `Joining.JoinedByMerging` | mgmt/tribe/delegate.go:263-291 | The clock and ring of a fresh node after the merge are the sender's, task state queries aside. |
| `Joining.JoinedByMoves` | mgmt/tribe/delegate.go:163-291 | The single moves of an undisturbed export and join bring a fresh node there, in any tribe. |
| `Joining.RecalledIff` | mgmt/tribe/tribe.go:1451-1474 | With distinct times such a ring accepts a message iff it is not old and is in neither the sender's log nor its own. |
| `Joining.AcceptsOnce` | mgmt/tribe/tribe.go:1451-1474 | Over every run after the merge in which the clock is not set back, nothing the sender had accepted is accepted again, and nothing twice. |
| `Joining.JoinerConverges` | mgmt/tribe/delegate.go:248-310 | While no clock is set back, a node that joined by merging agrees on agreements and items with a node that accepted the messages one by one. |
| `TribeNode.SortedTakeOver` | mgmt/tribe/delegate.go:163-198 | Copying the plugin, agreement and task lists in turn takes over exactly the exchanged part of the sender's ring. |
| `TribeNode.TribeNode.IsDuplicate` | mgmt/tribe/tribe.go:1451-1474 | True iff the message is older than the ring or its slot holds the same id. |
| `TribeNode.TribeNode.Admit` | mgmt/tribe/tribe.go:894-905 | The common start of all handlers: clock update, duplicate check, slot write. |
| `TribeNode.TribeNode.CutOut` | mgmt/tribe/tribe.go:740-741 | Cuts the item at its first position out of its list. |
| `TribeNode.TribeNode.ProcessAddItems` | mgmt/tribe/tribe.go:707-775 | Takes the first parked add it can, and only that one. |
| `TribeNode.TribeNode.ProcessRemoveItems` | mgmt/tribe/tribe.go:735-791 | Takes the first parked remove it can, and only that one. |
| `TribeNode.TribeNode.ProcessAddAgreements` | mgmt/tribe/tribe.go:793-805 | Takes the first parked creation of an unknown agreement. |
| `TribeNode.TribeNode.ProcessRemoveAgreements` | mgmt/tribe/tribe.go:807-819 | Takes the first parked removal of a known agreement. |
| `TribeNode.TribeNode.ProcessJoins` | mgmt/tribe/tribe.go:821-837 | Stops at the first join of a known member and agreement; keeps it parked when refused. |
| `TribeNode.TribeNode.ProcessLeaves` | mgmt/tribe/tribe.go:839-857 | Stops at the first join message of a member of the agreement. |
| `TribeNode.TribeNode.Contains` | mgmt/tribe/agreement/agreement.go:149-168 | Whether an item is listed and its first position. |
| `TribeNode.TribeNode.Remove` | mgmt/tribe/agreement/agreement.go:169-180 | True iff listed; then the list is rotated around the removed item. |
| `TribeNode.TribeNode.JoinAgreement` | mgmt/tribe/tribe.go:1289-1336 | Joins iff agreement and member are known and the member's plugin agreement lists no plugin. |
| `TribeNode.TribeNode.LeaveAgreement` | mgmt/tribe/tribe.go:1338-1371 | Leaves iff agreement and member are known and the member has a plugin agreement. |
| `TribeNode.TribeNode.Iterate` | mgmt/tribe/tribe.go:692-705 | One iteration: the first pass that stops decides. |
| `TribeNode.TribeNode.ProcessIntents` | mgmt/tribe/tribe.go:692-705 | The loop with its measure, the number of parked intents; a refused join is reported as spinning. |
| `TribeNode.TribeNode.HandleAddItem` | mgmt/tribe/tribe.go:894-962 | Adding a plugin or task: ring, agreements and intents become what the model's handler makes of them. |
| `TribeNode.TribeNode.HandleRemoveItem` | mgmt/tribe/tribe.go:859-995 | The same for removing a plugin or task. |
| `TribeNode.TribeNode.HandleAddAgreement` | mgmt/tribe/tribe.go:1098-1120 | The same for creating an agreement. |
| `TribeNode.TribeNode.HandleRemoveAgreement` | mgmt/tribe/tribe.go:1122-1144 | The same for removing one, which is never parked. |
| `TribeNode.TribeNode.HandleJoinAgreement` | mgmt/tribe/tribe.go:1146-1166 | The same for a join. |
| `TribeNode.TribeNode.HandleLeaveAgreement` | mgmt/tribe/tribe.go:1168-1189 | The same for a leave. |
| `TribeNode.TribeNode.HandleMemberJoin` | mgmt/tribe/tribe.go:1065-1074 | An unknown member is recorded and the intents are retried. |
| `TribeNode.TribeNode.HandleMemberLeave` | mgmt/tribe/tribe.go:1076-1088 | A member that goes is struck off its agreements, in any order; a panic iff it belongs to one that is no longer known. |
| `TribeNode.TribeNode.LocalMessages` | mgmt/tribe/delegate.go:163-198 | The exported lists hold each slot's message in the list of its class. |
| `TribeNode.TribeNode.TakeBook` | mgmt/tribe/delegate.go:270-273 | Agreements replaced, members added or replaced. |
| `TribeNode.TribeNode.TakeIntents` | mgmt/tribe/delegate.go:292-309 | Intents copied to their positions; a panic iff one has no position. |
| `TribeNode.TribeNode.MergeJoin` | mgmt/tribe/delegate.go:248-310 | A joining node takes over clock, ring, agreements, members and intents unless it is ahead; the exact condition of the panic. |
| `MetricTrie.InsertLookup` | control/mttrie.go:123-146 | Inserting a metric changes exactly the entry of its path and version. |
| `MetricTrie.PruneLookup` | control/mttrie.go:110-121 | Pruning a version at a path changes exactly that entry. |
| `MetricTrie.CutLookup` | control/mttrie.go:163-177 | Cutting a path removes exactly the entries below it. |
| `MetricTrie.GatherDescendants` | control/mttrie.go:347-359 | Exactly the nodes with metrics strictly below a node, each once. |
| `MetricTrie.FetchAll` | control/mttrie.go:245-260 | Exactly the nodes with metrics at and below a node, each once. |
| `MetricTrie.GatherChildren` | control/mttrie.go:321-344 | `*` takes all children, a name its exact child or else the child `*`. |
| `MetricTrie.Search` | control/mttrie.go:284-309 | Exactly the paths the element-wise rule reaches, each once. |
| `MetricTrie.ReachesIff` | control/mttrie.go:284-344 | The element-wise rule equals the rule stated over whole paths, a final `*` included. |
| `MetricTrie.SelectedMatches` | control/mttrie.go:284-344 | Every element of a selected path is the query's, or one of the two is a wildcard. |
| `MetricTrie.ExactQuery` | control/mttrie.go:321-344 | A query without wildcards for a namespace that has a node selects that node and nothing else, wildcard children beside it or not. |
| `MetricTrie.WildQuery` | control/mttrie.go:284-320 | A query of wildcards alone selects exactly the nodes with metrics from its last level but one on, where that level has children. |
| `MetricTrie.DynamicElementServed` | control/mttrie.go:321-344 | A name without a child of its own is served by the wildcard child. |
| `MetricTrie.GetLatest` | control/mttrie.go:362-376 | The metric of the greatest version. |
| `MetricTrie.GetVersion` | control/mttrie.go:379-392 | The metric of the requested version, or of the greatest when the request is below one, or none. |
| `MetricTrie.AnswersIff` | control/mttrie.go:195-219 | A metric answers a query iff it is stored at a selected path in the requested version, or in the greatest one stored there. |
| `MetricTrie.MTTrie.Walk` | control/mttrie.go:264-281 | The longest prefix that leads to a node. |
| `MetricTrie.MTTrie.Find` | control/mttrie.go:311-318 | Whether a namespace leads to a node. |
| `MetricTrie.MTTrie.Add` | control/mttrie.go:123-146 | As a map from path and version, the trie gains or replaces exactly one entry. |
| `MetricTrie.MTTrie.RemoveMetric` | control/mttrie.go:110-121 | Exactly one entry goes, if it was there. |
| `MetricTrie.MTTrie.Remove` | control/mttrie.go:163-177 | Exactly the entries under a non-empty prefix go; not found and the panic on an empty namespace are told apart. |
| `MetricTrie.MTTrie.Fetch` | control/mttrie.go:148-161 | Lists exactly the entries under a prefix, each once; fails iff a non-empty prefix has none. |
| `MetricTrie.MTTrie.GatherMetricTypes` | control/mttrie.go:83-95 | Exactly the entries at depth two and more, each once. |
| `MetricTrie.MTTrie.DeleteByPlugin` | control/mttrie.go:98-107 | Exactly the plugin's entries at depth two and more go. |
| `MetricTrie.MTTrie.GetMetrics` | control/mttrie.go:195-219 | Exactly the metrics of the selected nodes in the requested or greatest version, each once; fails iff there are none. |
| `Remainders.ChoiceMet` | control/metrics.go:729-735 | For pairwise coprime sizes every choice of remainders is met below the product of the sizes. |
| `Remainders.ChoiceMetOnce` | control/metrics.go:729-735 | And at one number only. |
| `Remainders.CommonDivisorMisses` | control/metrics.go:729-735 | If two sizes share a divisor some choice is never met. |
| `Text.TrimUnpads` | control/metrics.go:676-679 | Whatever white space is put around a bare string comes off it. |
| `Text.TrimBares` | control/metrics.go:676-679 | A trimmed string has none at its ends. |
| `Tuples.TupleStandsForItems` | control/metrics.go:665-685 | A tuple of two or more items, written with any white space around them, stands for those items in order. |
| `Tuples.PlainTuple` | control/metrics.go:665-685 | Written without any, too. |
| `Tuples.StarredTuple` | control/metrics.go:668-672 | A tuple with an asterisk in any item stands for an asterisk alone. |
| `Tuples.StandsForItselfIff` | control/metrics.go:655-663 | An element stands for itself iff it is not in parentheses or has no separator. |
| `Tuples.AlternativesBare` | control/metrics.go:676-679 | No alternative of a tuple has white space at its ends or holds a separator. |
| `Tuples.ExpansionTakesItems` | control/metrics.go:720-737 | In the expansion an element written as a tuple takes its items in turn; one that is no tuple stays. |
| `Tuples.MatchItems` | control/metrics.go:701-716 | The alternatives of every element and the product of their numbers. |
| `Tuples.FindTuplesMatches` | control/metrics.go:691-737 | Result i takes, at every position, the alternative number i modulo the number of alternatives. |
| `Tuples.EqualShares` | control/metrics.go:729-735 | Each alternative of a position, if named once, is carried by exactly N/n of the N results. |
| `Tuples.CompleteIffCoprime` | control/metrics.go:687-737 | With distinct alternatives, all combinations are returned iff the sizes are pairwise coprime. |
| `Tuples.CoprimeComplete` | control/metrics.go:691-737 | Pairwise coprime sizes give every combination. |
| `Tuples.CoprimeOnce` | control/metrics.go:691-737 | And no combination twice. |
| `Tuples.EqualSizesIncomplete` | control/metrics.go:691-699 | Two tuples of one size above one never give all combinations. |
| `Namespaces.GetSeparator` | core/metric.go:72-102 | The first candidate that occurs in no element, or the default separator. |
| `Namespaces.FirstFreeOccursIff` | core/metric.go:72-102 | The chosen separator occurs in the namespace iff all candidates and the default do. |
| `Namespaces.RoundTripIff` | scheduler/wmap/wmap.go:217-232 | Reading back a printed namespace gives its elements iff some separator is free and the outer elements are not empty (or the only element is). |
| `Namespaces.StringInjective` | core/metric.go:54-60 | Among such namespaces printing is injective. |
| `Namespaces.PrintedWithSlashesIff` | core/metric.go:52-58 | A namespace is printed with a slash before each element iff no element contains one. |
| `WorkQueue.ActSafe` | scheduler/queue.go:78-190 | Each critical section and channel step keeps order, bound and the single handler. |
| `WorkQueue.QueueIsSafe` | scheduler/queue.go:78-190 | In every interleaving accepted jobs are handled, then in the handler, then waiting, in order; the limit is kept; at most one handler is live. |
| `WorkQueue.RefusedIffFull` | scheduler/queue.go:160-176 | After any run a job is refused iff the queue has a limit and that many accepted jobs wait; otherwise it goes to the end. |
| `WorkQueue.StopPanicsIff` | scheduler/queue.go:91-100 | After any run Stop panics iff a handler has ended since the first Stop. |
| `WorkQueue.SecondStopPanics` | scheduler/queue.go:146-157 | A run of that kind. |
| `WorkQueue.SharedQueue.StartUp` | scheduler/queue.go:78-87 | Starts iff stopped, before the first start or after a Stop; on a queue not yet started it is the model's step. |
| `WorkQueue.SharedQueue.ShutDown` | scheduler/queue.go:91-100 | The queue's Stop step, with the panic of a second close. |
| `WorkQueue.SharedQueue.PushItem` | scheduler/queue.go:163-173 | The push step; refused iff a non-zero limit is reached. |
| `WorkQueue.SharedQueue.PopItem` | scheduler/queue.go:175-190 | The pop step: the oldest item or none. |
| `WorkQueue.SharedQueue.CheckStatus` | scheduler/queue.go:124-131 | A handler is started iff none is at work and the queue is not stopped. |
| `Pipeline.Promise.Complete` | pkg/promise/promise.go:72-81 | The first completion is kept. |
| `Pipeline.Promise.IsError` | pkg/promise/promise.go:64-70 | Complete, and with errors. |
| `Pipeline.NextConserves` | scheduler/work_manager.go:222-273 | No step of queues, dispatch, workers or promises loses, doubles or invents a job. |
| `Pipeline.SingleOutcome` | scheduler/worker.go:46-70 | In every run at most one thing is decided about a job: rejected, overdue, run or lost; so it runs at most once. |
| `Pipeline.LawfulOutcomes` | scheduler/worker.go:46-70 | A job runs only before its deadline and on a worker of its own kind, is overdue only from the deadline on, and a completed promise carries the errors of its job's decision. |
| `Pipeline.EveryDecisionAnswered` | scheduler/worker.go:46-70 | In every run the promise of a job that was rejected, overdue or run is completed with the errors of that decision, or a worker is about to do so, and not both. |
| `Pipeline.RanAsReported` | scheduler/worker.go:51-58 | In every run what is recorded of a job that ran is when and where it ran and the errors the run reported. |
| `Pipeline.CompletionReached` | scheduler/worker.go:46-70 | For every job a run that completes its promise with whatever the run reports. |
| `Pipeline.QueuesProper` | scheduler/work_manager.go:222-233 | In every run each queue has jobs of its own kind only. |
| `Pipeline.CompletedOnce` | scheduler/queue.go:113-122 | Whoever completes a promise, in any run, finds it open. |
| `Pipeline.PromiseKept` | pkg/promise/promise.go:72-81 | Once complete, a promise's errors never change. |
| `Pipeline.LosesIff` | scheduler/queue.go:133-141 | A step can lose a job iff it is waiting and its queue's receiver is in its last receive. |
| `Pipeline.LostNeverCompleted` | scheduler/queue.go:133-141 | In every run the promise of a lost job is not completed. |
| `Pipeline.OnlyCollectLost` | scheduler/work_manager.go:211-216 | In every run only collect jobs are lost: process and publish jobs never are. |
| `Pipeline.LostOnce` | scheduler/queue.go:133-141 | In every run at most one job is lost. |
| `Pipeline.LostReached` | scheduler/queue.go:133-141 | For every collect job a run that loses it. |
| `Schedule.WakesOnGrid` | pkg/schedule/schedule.go:77-88 | The sleep ends on the grid of intervals that starts at the last fire, right after the missed ones. |
| `Schedule.WaitOnInterval` | pkg/schedule/schedule.go:70-89 | Missed intervals and sleep with that property; nothing on the first run. |
| `Schedule.WindowedSchedule.constructor` | pkg/schedule/windowed_schedule.go:45-61 | A count given together with a stop time is dropped. |
| `Schedule.WindowedSchedule.Validate` | pkg/schedule/windowed_schedule.go:93-112 | Accepted iff the interval is positive, the stop not past and not before the start; only then active. |
| `Schedule.WindowedSchedule.SetStopOnTime` | pkg/schedule/windowed_schedule.go:65-85 | The right end of the window from stop time, or count, interval and base. |
| `Schedule.WindowedSchedule.Wait` | pkg/schedule/windowed_schedule.go:116-174 | State, missed intervals and window end after one wait, for any clock readings. |
| `Schedule.SpinningTask.Spin` | scheduler/task.go:463-549 | The task loop with its failure limit and its kill: rounds taken, last fire, hits, missed and final state are those of the model. |
| `Schedule.DisabledAtFirstStreak` | scheduler/task.go:479-504 | A spin is a prefix of its rounds; a positive limit disables the task right after the first streak of that many failed fires and not otherwise. |
| `Schedule.ZeroLimitDisables` | scheduler/task.go:492-504 | A limit of zero disables the task after its first fire. |
| `Schedule.NegativeLimitNever` | scheduler/task.go:492-504 | A negative limit never disables it. |
| `Schedule.IntervalsAccounted` | scheduler/task.go:473-478 | From any fire on, time passed >= interval * (later fires + missed). |
| `Schedule.IntervalsExact` | scheduler/task.go:473-478 | With equality when sleeping and firing take no extra time. |
| `Schedule.SpinAccounted` | scheduler/task.go:463-549 | Both over a whole spin, from its first fire. |
| `Schedule.SpinWithinWindow` | pkg/schedule/windowed_schedule.go:116-174 | No fire is decided before the start or after the window's end. |
| `Schedule.EndlessFires` | pkg/schedule/windowed_schedule.go:164-168 | A schedule without stop and count never ends and fires in every round. |
| `Schedule.FiresUntilStop` | pkg/schedule/windowed_schedule.go:138-163 | One with a stop fires in every round that is in time for it and ends with the first that is not. |
| `Schedule.FiresUntilCount` | pkg/schedule/windowed_schedule.go:64-83 | So does a counted one, with the end Count intervals after a start in the future, else after its first reading. |
| `Schedule.RestartBeginsAnew` | scheduler/task.go:526-534 | A task stopped and started again gets a new window and goes on in it in the same way. |
| `Schedule.CountLimits` | pkg/schedule/windowed_schedule.go:65-85 | Fires and missed intervals together never exceed Count + 1, nor Count if the first fire comes strictly after the base. |
| `Schedule.OneTooMany` | pkg/schedule/windowed_schedule.go:65-85 | A first fire at the base can be continued to Count + 1 fires. |
| `Schedule.CountKeptIff` | pkg/schedule/windowed_schedule.go:65-85 | After a given first round every continuation keeps the count iff that round fired strictly after the base. |
| `Schedule.FirstFireAtBase` | pkg/schedule/windowed_schedule.go:116-174 | Such a first round exists for every count and interval, start in the future or not. |
| `PluginPool.LeastRecent` | control/strategy/lru.go:55-81 | The first of the least recently hit instances. |
| `PluginPool.LruSelect` | control/strategy/lru.go:55-81 | The selection loop finds it. |
| `PluginPool.LeastRecentFirst` | control/strategy/lru.go:55-81 | An instance never hit is picked before any that was, else the one hit longest ago. |
| `PluginPool.PoolBounds` | control/strategy/pool.go:182-276 | In every run with LRU routing: instances <= max, <= 1 if exclusive, <= subscriptions; restarts within the limit unless it is -1. |
| `PluginPool.LruKills` | control/strategy/pool.go:309-342 | LRU routing always finds an instance to kill in a non-empty pool. |
| `PluginPool.EligibleIff` | control/strategy/pool.go:260-276 | A growing pool is eligible iff one more instance is allowed and those it has can not serve all subscriptions. |
| `PluginPool.GrowsAsNeeded` | control/strategy/pool.go:260-276 | Over every run of subscriptions to a new pool: as many instances as the subscribers need, at the declared concurrency, up to the limit. |
| `PluginPool.IdReusedIff` | control/strategy/pool.go:401-404 | In any run an id is given out again exactly after a multiple of 2^32 ids. |
| `PluginPool.RunInjective` | control/strategy/sticky.go:137-156 | In every run no two tasks are bound to one instance. |
| `PluginPool.KeepsInstanceIff` | control/strategy/sticky.go:56-72 | A step takes a task's instance from it iff it is its unsubscription that comes to a kill, or an insert into an empty pool, which brings a new strategy. |
| `PluginPool.KeepsInstanceThroughout` | control/strategy/sticky.go:56-72 | Over a run without such a step the task keeps its instance. |
| `PluginPool.HereIff` | control/runner.go:283-334 | While ids are left, a step keeps every bound instance in the pool iff it is not the death of a bound one without a new strategy. |
| `PluginPool.AlwaysHereIff` | control/runner.go:283-334 | The same for whole runs, throughout. |
| `PluginPool.BoundInPool` | control/strategy/pool.go:309-342 | In particular in runs that remove instances only through SelectAndKill. |
| `PluginPool.DeadStaysBound` | control/runner.go:292-294 | A dead instance stays bound although it is gone. |
| `PluginPool.DeadBoundReached` | control/runner.go:292-294 | A run from a new pool that ends so. |
| `PluginPool.StickyShrinksIff` | control/runner.go:424-438 | With sticky or config-based routing an unsubscription keeps instances within subscriptions iff it need not shrink the pool or the task is not stuck: bound to an instance that is gone, or unbound with none free. |
| `PluginPool.AlwaysFitsIff` | control/runner.go:404-440 | Over whole runs, instances stay within subscriptions throughout iff no such unsubscription is stuck. |
| `PluginPool.StuckReached` | control/strategy/sticky.go:137-156 | A run from a new pool that leaves an instance without a subscription because none is free. |
| `PluginPool.DeadStuckReached` | control/strategy/sticky.go:56-72 | A run from a new pool that leaves one too many because the picked instance is gone. |
| `PluginPool.OutlivesSubscriptions` | control/strategy/pool.go:309-387 | Over a run without deaths, an instance bound under a name that no unsubscribing task has stays bound and in the pool. |
| `PluginPool.ConfigStuckReached` | control/strategy/pool.go:309-387 | With config-based routing, one task that subscribes, is served and unsubscribes leaves an instance without a subscription. |
| `PluginPool.StickyRouter.SelectPlugin` | control/strategy/sticky.go:137-156 | The first instance no task is bound to, or none. |
| `PluginPool.StickyRouter.Select` | control/strategy/sticky.go:56-61 | The task's own instance, else a free one, which it is then bound to. |
| `PluginPool.StickyRouter.Remove` | control/strategy/sticky.go:64-72 | The same choice, and the binding goes; nothing changes on failure. |
| `PluginPool.RunningPool.ApplyPluginMeta` | control/strategy/pool.go:202-233 | Limit, concurrency and a fresh strategy of any of the three kinds from the first instance; sticky forces concurrency one. |
| `PluginPool.RunningPool.Insert` | control/strategy/pool.go:182-199 | The new instance under the next id; refused for a bad type or strategy. |
| `PluginPool.RunningPool.MayGrow` | control/strategy/pool.go:260-276 | Below the limit and more subscriptions than the instances can serve. |
| `PluginPool.RunningPool.Kill` | control/strategy/pool.go:280-289 | Removes one id, if there. |
| `PluginPool.RunningPool.SelectAndKill` | control/strategy/pool.go:309-342 | Removes the instance the strategy picks, or nothing. |
| `PluginPool.RunningPool.SelectAP` | control/strategy/pool.go:367-387 | The strategy's choice by task or by configuration, and the binding it makes. |
| `PluginPool.RunningPool.SubscribeAndGrow` | control/subscription_group.go:549-566 | The subscribe step of the run model. |
| `PluginPool.RunningPool.HandleUnsubscription` | control/runner.go:404-440 | The unsubscribe step. |
| `PluginPool.RunningPool.HandleDead` | control/runner.go:283-334 | The dead-plugin step. |
| `PluginConfig.ConfigDataNode.AddItem` | core/cdata/node.go:118-126 | Sets an item; an empty key changes nothing. |
| `PluginConfig.ConfigDataNode.Merge` | core/cdata/node.go:129-141 | The other's named items on top of the receiver's own table, in any iteration order. |
| `PluginConfig.ConfigDataNode.DeleteItem` | core/cdata/node.go:194-198 | Removes one key. |
| `PluginConfig.FoldedIsNearest` | control/config.go:403-419 | Merging layers in order means the most specific layer wins, key by key. |
| `PluginConfig.KeyInjective` | control/config.go:398-401 | Cache keys of different plugins differ, whatever their names contain. |
| `PluginConfig.TypesByNumber` | control/config.go:333-343 | Which section a plugin type reads: collectors and streaming collectors one, processors and publishers their own, other types none. |
| `PluginConfig.NextAgrees` | control/config.go:317-429 | Every operation keeps each cached result equal to the merge of its layers. |
| `PluginConfig.AnswerIsNearest` | control/config.go:396-429 | After any operations the answer for a known type is the value of the most specific layer, key by key. |
| `PluginConfig.UnknownTypeAnswers` | control/config.go:405-412 | For an unknown type: nothing iff not cached, the global layer afterwards. |
| `PluginConfig.NearestIsShown` | control/config.go:396-429 | The result shows, key by key, the version's own value, else the plugin's, else the type's, else the global one. |
| `PluginConfig.OneTableChanges` | control/config.go:317-394 | Every operation changes the table at one place, by the merge or the delete, and at no other. |
| `PluginConfig.GetAfterMerge` | control/config.go:345-374 | A get right after a merge at the same place shows every named item just merged and of every other key what it showed before. |
| `PluginConfig.GetAfterDelete` | control/config.go:376-394 | A get right after a delete at the same place shows of that key what the more general layers say and of every other what it showed before. |
| `PluginConfig.GetAfterGlobalMerge` | control/config.go:317-323 | After a global merge a get shows the merged items wherever no layer of the plugin's own has the key. |
| `PluginConfig.GetAfterGlobalDelete` | control/config.go:325-331 | After a global delete the key is gone wherever no layer of the plugin's own has it. |
| `PluginConfig.DeleteIsolatedIff` | control/config.go:376-394 | Exactly what a get for one name shows after a delete for another: the global value of the deleted key if the other name has no layer and this one no value of its own, and otherwise what it showed before. |
| `PluginConfig.DeleteSpills` | control/config.go:393 | Operations after which a delete for one plugin takes a key from any other. |
| `PluginConfig.VersionIsolatedIff` | control/config.go:353-373 | Exactly what a get for one version shows after a merge for another: the merged item if the merge was taken for the whole plugin and this version has no value of its own, and otherwise what it showed before. |
| `PluginConfig.MergeSpills` | control/config.go:353-361 | Operations after which a merge for one version shows in another. |
| `PluginConfig.MergeIsolated` | control/config.go:345-374 | A merge at a named plugin leaves the layers of every other name alone. |
| `PluginConfig.Configuration.MergeGlobal` | control/config.go:317-323 | Clears the cache and merges into the global layer. |
| `PluginConfig.Configuration.DeleteGlobal` | control/config.go:325-331 | Clears the cache and deletes from the global layer. |
| `PluginConfig.Configuration.MergePlugin` | control/config.go:345-374 | Clears the cache and merges into the layer the branches choose. |
| `PluginConfig.Configuration.DeletePlugin` | control/config.go:376-394 | Clears the cache and deletes from the layer the branches choose. |
| `PluginConfig.Configuration.GetPlugin` | control/config.go:396-429 | Answer and cache of the model. |
| `PolicyTree.PolicyNode.Merge` | control/plugin/cpolicy/node.go:283-300 | A new node with the other's rules on top; both stay as they are. |
| `PolicyTree.AddedLookup` | pkg/ctree/tree.go:285-301 | An add changes the policy at its own namespace and nowhere else. |
| `PolicyTree.AddedDistinct` | pkg/ctree/tree.go:285-301 | Siblings keep different names. |
| `PolicyTree.CollectedNext` | pkg/ctree/tree.go:330-353 | The walk to a namespace is the walk to its parent, then its own policy. |
| `PolicyTree.GetFoldsPrefixes` | pkg/ctree/tree.go:153-203 | After any adds Get folds the policies last added at the prefixes, shortest first; nil iff there are none. |
| `PolicyTree.DeepestPrefixWins` | pkg/ctree/tree.go:153-203 | Each key's rule comes from the deepest prefix that defines it. |
| `PolicyTree.NoPanicIff` | pkg/ctree/tree.go:85-115 | Adds to an empty tree panic iff they name two roots. |
| `PolicyTree.AddTo` | pkg/ctree/tree.go:285-301 | The recursive add with its search among the children. |
| `PolicyTree.Collect` | pkg/ctree/tree.go:330-353 | The recursive collection. |
| `PolicyTree.ConfigTree.Add` | pkg/ctree/tree.go:85-115 | Add under the root, no change for an empty namespace, panic for another root. |
| `PolicyTree.ConfigTree.Get` | pkg/ctree/tree.go:153-203 | The fold over the collected policies; the tree is not changed. |
| `PolicyTree.MergeNodes` | pkg/ctree/tree.go:196-202 | The fold over the stored node objects changes none of them and returns a new one unless there is only one. |

## Left out

- Work requests of the tribe handlers, their start/stop cache and the task state query replies: I/O, no effect on the state modelled.
- Handlers for starting and stopping tasks: they only dispatch work; their messages take part in the duplicate check.
- The message encoding in a join merge: what arrives of agreements and members is any book that lists what was sent and whose references resolve.
- Exports with more than 512 parked intents: they index past fixed slices.
- Inbox.RunTracks: requires that the clock is not set back, without which it fails; what every run keeps is `Inbox.RunSlots`.
- Inbox.AcceptedIff: requires that the clock is not set back, without which it fails; the window of every run is `Inbox.AcceptedBySlotIff`.
- Inbox.AcceptedBySlotIff: one reading of the clock; `Inbox.ReadTwice` says when the two readings differ from it.
- Inbox.EnteredBelow: requires that the clock is not set back, without which it fails.
- TribeTheorems.GossipConverges: requires that neither clock is set back, without which it fails (`TribeTheorems.FallSplitsTribe`).
- Joining.AcceptsOnce: requires that the clock is not set back, as `TribeTheorems.GossipConverges` does.
- Joins into a node that has accepted messages before: the runs of `Inbox` copy no slots; `Joining` starts from a fresh node and `Gossip` keeps the order of times through such copies.
- Joining.JoinerConverges: requires that no clock is set back, and takes the merge as undisturbed; the interleavings of its steps are in `Gossip`.
- Membership.RunLinked: histories that remove an agreement are excluded, as removal leaves members pointing at it (`TribeTheorems.LeaverPanics`).
- PluginPool.GrowsAsNeeded: subscriptions whose processes all start; what unsubscriptions and deaths keep is in `PluginPool.PoolBounds` and `PluginPool.AlwaysFitsIff`.
- Removal of agreements in the convergence theorems: it drops the agreement but leaves members pointing to it, so adds and removes no longer determine the lists.
- Convergence of the order of items within a list: the code keeps no common order.
- Convergence.Converges: nodes that hang are excluded, by their exact condition in `Spinning.HandlerHangsIff`.
- Pointer structure of the metric trie and of the policy tree: nodes are values that operations replace; sharing of nodes is not captured.
- Pointer structure of plugin configuration: the layers are values in `Configuration`; the in-place merge of one node is in `ConfigDataNode`.
- Metric catalog bookkeeping around the trie (keys, subscriptions, dynamic instances): would only add easy members.
- Overflow of the number of combinations, of Count * Interval and of the missed counter: integers are unbounded there.
- Go strings that are not valid UTF-8: strings are sequences of characters.
- Interleavings of a queue started again after Stop: two receivers then share closed channels.
- Progress of the queue: an item pushed between the last pop and the status reset waits for the next event, so only safety is claimed.
- Schedule spins that begin with a last fire time left over from an ended task: the model's spins begin afresh.
- A wait that is still sleeping when its task is killed: its schedule changes after the spin.
- Remote plugins and the metric caches of the pool: foreign processes and separate state.
- A plugin start that times out after the instance was inserted: a start either succeeds and inserts or fails.
- REST, CLI, TLS, signing, process execution and encoders: plumbing.
