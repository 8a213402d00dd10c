# Plot thread: ledger, reorganisation engine and their neighbours in Dafny

The project models a node of the plot thread and proves what the node's ledger is supposed to guarantee.

A node keeps a tree of plots (`Tree`, `ThreadState`), a ledger database over the path to the best plot
(`LedgerSpec`, `LedgerDisk`), and a queue of unconfirmed representations (`QueueSpec`,
`RepresentationQueueMemory`). The `Processor` accepts plots, moves the main thread from branch to branch, and
rolls back when a branch turns out not to connect. The classes carry the fields the program updates; their
methods follow the program's own loops and branches. Beside each of them stands an independent meaning:

- a database *reflects* a thread of plots when every part of it (tip, height index, branch marks, imbalances,
  representation index, history index, the last two possibly pruned) is what replaying that thread from genesis
  gives. At most one database over given branch marks reflects a thread;
- a thread is *valid* when it can be replayed: plots in shape and in series, no representation confirmed twice,
  every debit funded. This does not mention any database, so two nodes agree on it;
- a queue is *settled* when it applies, in order, in the next plot on top of the ledger and its cache shows just
  that. It is *accounted for* when the cache shows what a sequence of funded representations does of which the queue
  is the part that the descendant guard lets through.

The main theorem is that `Processor.Valid` holds after every sequence of messages (`Processor.Run`), and
`Processor.Guarantees` spells out what it means: the ledger reflects the path to the tip, the tip beats every
other stored plot whose thread is valid, no representation is confirmed twice, imbalances are non-negative and add
up to one per matured plotroot, and the queue is unconfirmed, unguarded, due in the next plot and accounted for.
Every move of the tip settles the queue, whatever the guard rejects, and `Processor.Processor.ProcessPlot` says
which representations are in it afterwards, entry by entry and in order (`QueueMoves`).

Around that core stand the consensus arithmetic (`Consensus`, `Checks`, `PlotIDs`), the building and handing over of
the next plot (`Scriber`, `ScriberLoop`), the header hasher that patches serialised headers in place (`HeaderText`,
`HeaderHasher`), the graph of representation (`GraphSpec`, `RepGraph`) and when ranking it comes to an end
(`RankConvergence`, `RankAcyclic`), the search for a common ancestor between two nodes (`Locator`), and
the history index with its byte keys, range scans and paging (`HistoryKeys`, `History`).

## What the model takes as given

- `Rules` holds what is fixed for a run: the header hash, signature verification, text validation, the
  descendant guard, the genesis ID and whether the ledger prunes. The hash never gives zero.
- A representation's ID is its content without the signature; a header's hash list root is the list of IDs.
  The text that is hashed determines the header (`HeaderText.JsonDetermines`).
- Plots arrive under the hash of their header, which peers compute before they hand a plot over.
- Genesis has height 0, previous 0, the initial target, series 1 and a single plotroot.
- A database batch is one atomic write, reads go to the database as it was before. The clock, random nonces and
  storage times are parameters. Panics and crashes are refusals (`None`, `Panicked`, `false`).
- Maps are iterated in any order: each such loop picks its next key arbitrarily.
- Heights, times and counts are unbounded integers where the program bounds them by 2^53 - 1 or by a count; 256-bit
  numbers, 32-bit node numbers, and the integers of the keys and of the serialised header have their own widths.

## Findings

- A plot built on the tip connects exactly when its plotroot's content (time, nonce, recipient, memo, series) is
  not confirmed yet, the plotroot that matures with it is not guarded, and its representations are funded, which they
  are from a settled queue: `Scriber.NextPlotConnects` is exact, `Scriber.RootCanCollide` shows the first case.
- When the descendant guard turns a sender away, the queue's cache keeps the effect of the representation it did not
  queue. `Processor.Processor.ProcessRepresentation` says from the state before the call when this happens: the
  representation may be included, is not queued, its sender has a unit and the guard rejects it. Nothing else unsettles
  a settled queue (`Processor.Processor.Run`), and the next move of the tip settles it again.
- The keyholder asks for its rewards from 99 below the tip on, which is negative while the tip is below 99. A negative
  height is stored as a large one, so nothing is listed: `History.EarlyRewardsGoUnseen`, and
  `History.GenesisRewardGoesUnseen` for one entry that a scan from zero lists. `History.PagingIsComplete` says that
  paging gives everything exactly when it starts at zero or above, or there is nothing to give.
- An iteration of the ranking keeps the total at 1 for any damping exactly when nodes with negative outbound hold no
  ranking: `GraphSpec.RankingTotalAfter` gives the total for every graph.
- Ranking iterates until it converges, and the indexer calls it with damping 1 (indexer.go, line 219). Without
  negative weights that does converge on acyclic graphs (`RankAcyclic.AcyclicRankingConverges`), and damping below 1
  does on every graph (`RankConvergence.RankingConverges`). On a graph with cycles damping 1 may swing for ever, as
  with a node that represents two others and is represented by them (`RankConvergence.StarNeverSettles`).
- A thread with a plot every 600 seconds loses a 2016th of its target at the first retarget, whose interval is one
  spacing short, and keeps its target or, under the revised rule, its work per plot from then on
  (`Consensus.SteadyTargets`, `Consensus.SteadyWork`).
- The header buffer is long enough for every header without negative numbers. `HeaderHasher` asks only that the
  serialised header fits.
- `IsMature` accepts heights up to `matures`, while the field's comment describes the opposite bound
  (representation.go, lines 22 and 95 to 101). The model follows the code.

## Model

| member | source | states |
|---|---|---|
| LedgerDisk.ImbalanceCache.Apply | imbalance_cache.go:29-62 | succeeds exactly when the sender has a unit, moves one unit between the views of both keys and no other, and leaves the cache alone on refusal |
| LedgerDisk.ImbalanceCache.Undo | imbalance_cache.go:66-99 | fails exactly when the recipient would go negative, otherwise takes the effect of Apply back on every key |
| LedgerDisk.LedgerDisk.ConnectPlot | ledger_disk.go:124-292 | accepts exactly the plots that follow the tip, are not indexed, find their maturing plotroot and are funded and unguarded; the new database in full, or the old one with a reason that holds of it |
| LedgerDisk.LedgerDisk.DisconnectPlot | ledger_disk.go:295-441 | accepts exactly the tip whose effects can be undone; the new database in full, or the old one |
| LedgerDisk.LedgerDisk.ConnectRepresentations | ledger_disk.go:141-233 | the loop over a plot's representations: fails exactly when one is indexed, lacks its maturing plotroot, is unfunded or guarded; the batch and the cache show all effects |
| LedgerDisk.LedgerDisk.PruneIndices | ledger_disk.go:444-492 | removes exactly the index entries of the main thread plot at the height, and nothing else of the batch |
| LedgerDisk.LedgerDisk.RestoreIndices | ledger_disk.go:495-547 | puts exactly those entries back |
| LedgerDisk.LedgerDisk.RecordImbalances | ledger_disk.go:235-252 | every key's stored imbalance is what the cache shows, and zeros are deleted |
| LedgerDisk.LedgerDisk.Imbalance | ledger_disk.go:807-828 | the total of all stored imbalances, in whatever order they are met |
| Balances.FundedConcat | imbalance_cache.go:29-62 | a sequence of representations is funded exactly when its first part is, and its second part is after the first has settled |
| Balances.FundedStaysNonNegative | imbalance_cache.go:29-62 | along a funded sequence no imbalance goes below zero |
| Balances.FundedIsUndoable | imbalance_cache.go:66-99 | what could be applied can be undone: the panic about a negative recipient is unreachable |
| Balances.UnsettleSettle | imbalance_cache.go:29-99 | undoing applied effects gives the same imbalances back, zeros not stored |
| Balances.CreditKeepsFunded | ledger_disk.go:171-218 | a credit in front of a funded sequence keeps it funded |
| LedgerProofs.ConnectReflects | ledger_disk.go:124-292 | a database that reflects a thread, after connecting a plot, reflects the thread with the plot, pruned or not |
| LedgerProofs.ConnectIffValid | ledger_disk.go:124-233 | the ledger accepts a plot exactly when the thread with it is valid, so acceptance does not depend on how the node got there |
| LedgerProofs.DisconnectReflects | ledger_disk.go:295-441 | a database that reflects a valid thread can disconnect its last plot, and then reflects the thread without it |
| LedgerProofs.DisconnectUndoesConnect | ledger_disk.go:124-547 | connecting and disconnecting a plot restores the whole database, prune and restore included, up to the plot's branch mark |
| LedgerProofs.ReflectionIsUnique | ledger_disk.go:124-441 | two databases that reflect the same thread and have the same branch marks are equal |
| LedgerProofs.ValidPrefix | processor.go:763-855 | every prefix of a valid thread is valid |
| LedgerProofs.SeriesExcludesOldConfirmation | processor.go:341-355 | a representation confirmed at some height has the wrong series at every height more than 2016 above it |
| LedgerProofs.SeriesGrace | processor.go:341-355 | a user representation of a height's series is in series exactly up to the end of the next series, a plotroot only in its own |
| LedgerProofs.InclusionWindow | representation.go:95-110 | the heights a representation may be included at are one window: its two series, cut off after `matures` and after `expires` |
| LedgerProofs.IndexCheckSuffices | ledger_disk.go:148-160 | looking a plot's representations up in the possibly pruned index is equivalent to no representation being confirmed twice on the whole thread |
| LedgerProofs.IndexTellsConfirmed | processor.go:206-213 | for a representation in series, the pruned index says whether it is confirmed anywhere on the thread |
| Conservation.SettledTotal | ledger_disk.go:171-218 | settling representations leaves a total of one per plotroot among them |
| Conservation.ImbalancesConserved | inspector/main.go:296-307 | at tip height H imbalances are non-negative, none is zero, and they add up to max(0, H - 99) |
| RepresentationQueueMemory.RepresentationQueueMemory.Add | representation_queue_memory.go:32-60 | which of the four outcomes, the queue's exact content, and the cache after each outcome |
| RepresentationQueueMemory.RepresentationQueueMemory.AddBatch | representation_queue_memory.go:63-84 | the batch comes first, in its order, followed by what was queued and is not in the batch |
| RepresentationQueueMemory.RepresentationQueueMemory.RemoveBatch | representation_queue_memory.go:87-108 | exactly the named representations leave; unless more plots follow the rest is reprocessed |
| RepresentationQueueMemory.RepresentationQueueMemory.ReprocessQueue | representation_queue_memory.go:111-153 | the queue and the cache after the pass over the list, as the pass function gives them |
| RepresentationQueueMemory.RepresentationQueueMemory.Get | representation_queue_memory.go:156-174 | the first representations of the queue in order, all of them if the limit is zero |
| QueueSpec.PassIsFunded | representation_queue_memory.go:111-153 | whatever the queue was, what the pass applied is funded in order and includable in the next plot, and it keeps of that exactly what the guard lets through |
| QueueSpec.PassKeepsWhatItApplies | representation_queue_memory.go:136-150 | a pass over a queue without guarded entries, as every queue of the processor is, keeps what its cache shows |
| QueueSpec.PassKeepsApplicable | representation_queue_memory.go:111-153 | an applicable queue loses nothing in a pass |
| QueueMoves.PassSieves | representation_queue_memory.go:111-153 | a pass applies exactly the entries that the next plot can include and whose senders can pay after the entries applied before them, in order; no other sequence does |
| QueueMoves.NothingIsLost | processor.go:834-899 | where everything that comes back from the abandoned plots can be included and paid for, a move of the main thread keeps all of it and the old queue, in order |
| QueueProofs.ConnectKeepsQueue | processor.go:880-899 | after a plot connects, the queue without the plot's representations is still distinct, verified and unconfirmed |
| QueueProofs.DisconnectKeepsQueue | processor.go:858-877 | after a plot disconnects, its representations in front of the queue are distinct, verified and unconfirmed |
| QueueProofs.PlotUnguarded | processor.go:858-877 | what a plot of a valid thread returns to the queue is unguarded |
| Consensus.BeatsIsStrictTotalOrder | plot.go:185-215 | the comparison of stored plots is irreflexive, transitive and total |
| Consensus.BeatsIsOutranking | plot.go:185-215 | the comparison is: more work, or as much and stored earlier, or both equal and a lesser ID |
| Consensus.WorkIsPositive | plot.go:144-154 | every target but zero stands for at least one unit of work |
| Consensus.WorkAddsUp | plot.go:157-163 | cumulative work grows by the sum of what the headers in between stand for |
| Consensus.OnTimeKeepsTarget | processor.go:660-691 | an interval of exactly the time meant for it keeps the target |
| Consensus.SlowIntervalsEase | processor.go:660-691 | the longer an interval took, and the higher the target was, the higher the next target |
| Consensus.ExtremeIntervals | processor.go:660-691 | quicker or slower than by a factor of 4 counts as a factor of 4 |
| Consensus.SteadyTargets | processor.go:638-693 | with a plot every 600 seconds the first retarget takes a 2016th off the initial target and every later one changes nothing |
| Consensus.OnTimeWindow | processor.go:707-720 | a window of exactly its 144 spacings is estimated at its work divided by 144 |
| Consensus.SlowWindowsEarnLess | processor.go:707-720 | the longer the window took and the less work it did, the lower the estimate |
| Consensus.SlowWindowsEase | processor.go:707-740 | and the higher the next target |
| Consensus.SteadyWork | processor.go:630-740 | with a plot every 600 seconds every plot from height 2016 on stands for the same work, under both rules and for ever |
| Consensus.WindowWorkBounds | processor.go:696-722 | the window's estimate lies between a 288th and a 72nd of the window's work, rounded down |
| Consensus.WindowTargetEarnsItsEstimate | processor.go:722-740 | an unclamped target computed from an estimate up to 2^128 has exactly that estimate as its work |
| Consensus.WindowStaysInRange | processor.go:696-740 | with enough work in the window and thread work below 2^256 the target lies in [71, initial target] |
| Consensus.TargetsStayInRange | processor.go:630-740 | on every thread from the initial target, under both rules, all targets lie in [71, initial target] |
| Consensus.TargetAlwaysDefined | processor.go:696-740 | on such a thread the next target is always defined: no division by zero, no number over 32 bytes |
| Consensus.MedianNeverFalls | processor.go:743-760 | a plot timed after its parent's median never lowers the median, in the growing phase and when the window slides |
| Consensus.MedianIsInTheMiddle | processor.go:755-759 | the median is one of the times, at most half of them lie below it and fewer than half above |
| PlotIDs.PlotIDBytes.SetBigInt | plot.go:242-252 | panics exactly for numbers over 32 bytes, otherwise the bytes read back as the number's magnitude |
| PlotIDs.ShortBytesReadBack | plot.go:242-257 | the shortest big-endian form reads back, and fits w bytes exactly for numbers below 256^w |
| Tree.PathPrefix | processor.go:784-833 | the path to an ancestor on a path is the prefix up to it |
| Tree.AncestorWorkIsLess | plot.go:157-163 | where work grows from parent to child, every ancestor has less work |
| ThreadState.PathIsThread | processor.go:526-603 | every stored path from genesis is a thread: heights, links, shape and series are right all the way |
| ThreadState.DescendantBeats | plot.go:185-215 | every stored plot beats each of its ancestors |
| ThreadState.StoredWorkAddsUp | processor.go:559-564 | a stored plot's work less an ancestor's is what the plots between them stand for |
| ThreadState.StoreAdds | processor.go:599-603 | storing an accepted plot that nobody builds on keeps the store's invariant and every other path |
| ThreadState.MediansAscend | processor.go:566-573 | on every accepted branch no plot's median timestamp is below an ancestor's |
| ThreadState.StoredTargetsInRange | processor.go:638-693 | every stored plot up to height 28861 has a target between 71 and the initial target |
| ThreadState.BeyondFork | processor.go:784-833 | past their last common plot two paths share no plot |
| ThreadState.MarksRestored | processor.go:834-854 | going over to a side branch and back restores every branch mark |
| Checks.ComputeTargetBitcoin | processor.go:638-693 | walking back the stored headers gives the target that the thread's own headers determine |
| Checks.ComputeTarget | processor.go:630-635 | the target expected of the next plot, by the rule its height selects |
| Checks.ExpectedTargetIsThreadTarget | processor.go:696-709 | when the window starts on the plot's own branch, the expected target is the one the thread determines |
| Checks.ComputeMedianTimestamp | processor.go:743-760 | the middle of the sorted times of the last 11 plots, or of all plots if there are fewer |
| Checks.AdmissibleIsAcceptable | processor.go:526-603 | a plot that passes the shape checks and the checks against its parent is one the store may take |
| Checks.MaxRepresentationsFits | processor.go:507-523 | the growing limit on representations per plot never exceeds the constant maximum |
| Checks.LimitDoubles | processor.go:507-523 | at the start of every period of 105000 plots the limit has doubled, up to the maximum |
| Checks.LimitNeverFalls | processor.go:507-523 | the limit never falls |
| Processor.ForkWalk | processor.go:784-833 | terminates with the tip-down path to the highest common ancestor and the ancestor-up path to the new plot's parent, the ancestor in neither |
| Processor.Processor.ConnectPlot | processor.go:880-899 | succeeds exactly when the longer thread is valid; the queue keeps what the longer thread does not confirm, and unless more plots follow of that what is due and paid for, settled; nothing changed otherwise |
| Processor.Processor.DisconnectPlot | processor.go:858-877 | never fails on the tip of a valid thread; store, ledger and queue agree on the shorter thread, and the queue is the plot's representations, without the plotroot, followed by what was queued |
| Processor.Processor.DisconnectAll | processor.go:834-843 | disconnecting down to the fork never fails, and puts the plots' representations in front of the queue, the lowest plot's first |
| Processor.Processor.ConnectAll | processor.go:845-853 | connects the new branch up to the first plot that makes it invalid, and takes what it confirms out of the queue |
| Processor.Processor.AcceptPlotContinue | processor.go:763-855 | does nothing to the tip unless the plot has more work, or as much and was stored earlier, or both equal and a lesser ID; marks it a side plot, or goes over to its branch as far as it connects; the queue is settled when the branch connects, untouched when the tip stays, and else what the connected part does not confirm |
| Processor.Processor.ReconnectTip | processor.go:902-919 | the same, in the same words, for the old tip after a failure |
| Processor.Processor.MoveTip | processor.go:609-627 | fails exactly when the plot is better and its thread is invalid, and then the whole database is the old one; otherwise the plot is the tip or a side plot; a changed tip has a settled queue; the queue's exact contents in all three cases |
| Processor.Processor.CheckInclusion | processor.go:575-597 | finds an offender exactly when some representation may not be in the plot; skipping verified twins is sound |
| Processor.Processor.CheckAgainstParent | processor.go:526-597 | refuses exactly the plots that are not admissible after their parent |
| Processor.Processor.AcceptPlot | processor.go:526-627 | accepts exactly admissible plots that, if they beat the tip, have a valid thread; the store, tip and marks afterwards |
| Processor.Processor.BeginLedger | processor.go:380-393 | genesis connects and starts the invariant |
| Processor.Processor.ProcessPlot | processor.go:358-402 | keeps the invariant for every plot a peer can send and says what each of the five cases does; the tip only gives way to a plot of more work, or as much and stored earlier, or both equal and a lesser ID; then the queue is settled and holds, of what the abandoned plots confirmed (lowest first) and the old queue, what the new thread does not confirm and the next plot can include and pay for in turn; a plot that fails to connect leaves the refused branch's representations in front of what it did not confirm |
| Processor.Processor.ProcessRepresentation | processor.go:187-263 | the outcome as a function of the state before the call: not includable, known, sender without a unit, guarded, or queued; the queue stays within its limit; what is queued is nowhere on the main thread; a settled queue stays settled exactly unless the representation gets as far as the guard and no further |
| Processor.Processor.InclusionIff | processor.go:187-243 | in every reachable state a representation gets as far as the queue exactly when it is in shape, not a plotroot, signed, due in the next plot and on no plot of the main thread, pruned or not, and there is room |
| Processor.Processor.Run | processor.go:92-143 | the invariant holds after every sequence of plots and representations, the main thread's cumulative work never falls, and a settled queue stays settled if no guarded representation is among the messages |
| Processor.Processor.Guarantees | processor.go:358-402 | what the invariant means: every stored plot under its hash and with its proof of work, replay, no double confirmation, conservation, a tip that has more work than every known plot and every stored plot with a valid thread, or as much and was stored earlier, or a lesser ID besides, and a queue that is unconfirmed, in shape, verified, unguarded, due and accounted for; a settled one is funded |
| Processor.Start | processor.go:67-84 | a new node satisfies the invariant |
| Reorganisation.HeadersTellTheFork | processor.go:821-833 | two paths have equal headers at a height exactly below their fork, so comparing headers finds the common ancestor |
| Reorganisation.OldTipBeatsWhatIsLeft | processor.go:776-781 | after a half finished reorganisation the old tip beats whatever plot is the tip |
| Reorganisation.ForkOfTheWayBack | processor.go:784-833 | the walk back finds the fork of the walk there |
| Reorganisation.RollbackIsExact | processor.go:609-627 | after a failed reorganisation the way back reconnects the whole old thread and the database equals the old one, branch marks included |
| Reorganisation.NewTipIsBest | processor.go:776-781 | after a successful reorganisation the new tip beats every known plot |
| Reorganisation.TipBeatsValid | processor.go:776-781 | the tip beats every other stored plot whose path is a valid thread, known or not |
| Reorganisation.SamePlotsSameWork | processor.go:776-781 | two nodes that have stored the same plots have main threads of equal work, in whatever order the plots came |
| Reorganisation.TipWorkAfter | processor.go:776-781 | storing another plot and moving to it only if it beats the tip never lowers the main thread's work |
| Reorganisation.AddSettlesIff | representation_queue_memory.go:41-53 | a queue with the representation is settled on the changed cache, and without it is not |
| Reorganisation.AddIsAccounted | representation_queue_memory.go:41-53 | queueing keeps the cache accounted for, whether the guard lets the representation through or turns it away |
| Reorganisation.ConnectStands | processor.go:880-899 | connecting keeps ledger, store and queue consistent, and is possible exactly when the longer thread is valid |
| Reorganisation.DisconnectStands | processor.go:858-877 | disconnecting is possible and keeps ledger, store and queue consistent |
| Scriber.CreateNextPlot | scriber.go:252-279 | in every reachable state, settled or not, the plot has the time and nonce drawn, starts with exactly the plotroot for the key and memo, follows with the head of the queue, and connects and is admissible exactly as the next two rows say |
| Scriber.NextPlotConnects | scriber.go:252-279 | a plot built on the tip connects exactly when its plotroot's ID is not indexed, the maturing plotroot is unguarded and its effects are funded; a funded queue makes the effects funded |
| Scriber.NextPlotAdmissible | scriber.go:252-279 | such a plot is admissible exactly when its time is after the median |
| Scriber.RootCanCollide | scriber.go:262-265 | the exception occurs: a next plot with genesis's plotroot does not connect |
| Scriber.NextPlotEffects | ledger_disk.go:171-218 | the ledger applies the maturing plotroot first and then the plot's own representations in order |
| ScriberLoop.BeginPlot | scriber.go:188-210 | the plot to work on: on the tip, from the head of the queue, timed by the clock or one after the median if that is later |
| ScriberLoop.AddRepresentation | scriber.go:147-168 | a plot that holds the whole queue still does after a newly queued representation is appended to both |
| ScriberLoop.SubmitPlot | scriber.go:212-226 | a working plot handed to the processor is accepted, and is the tip, exactly when it has proof of work, its numbers and plotroot are in bounds, it is timed after the median, its plotroot is not indexed, the maturing plotroot is unguarded and its effects are funded |
| HeaderText.LayoutIsJson | plot_header_hasher.go:51-59 | the static parts and fields in the buffer's order are the header's JSON object |
| HeaderText.JsonDetermines | plot.go:166-172 | headers with the same JSON text are the same header |
| HeaderText.DecimalReadsBack | plot_header_hasher.go:101-103 | numbers are written as digits without a leading zero and read back |
| HeaderText.IntReadsBack | plot_header_hasher.go:101-103 | a minus sign exactly for negative numbers, and the magnitude reads back |
| HeaderText.HexReadsBack | plot_header_hasher.go:85-93 | IDs are written in digits 0 to 9 and a to f, two a byte, and read back as the bytes' big-endian number |
| HeaderText.NonNegativeFits | plot_header_hasher.go:62-75 | the buffer is long enough for every header whose numbers are non-negative and fit their types |
| HeaderHasher.PlotHeaderHasher.InitBuffer | plot_header_hasher.go:78-145 | lays the whole header out, within the buffer, and records every offset and length |
| HeaderHasher.PlotHeaderHasher.UpdateTime | plot_header_hasher.go:164-197 | the text is right up to the nonce's new place and untouched from there on |
| HeaderHasher.PlotHeaderHasher.UpdateNonce | plot_header_hasher.go:199-226 | the text is right up to the count's new place and untouched from there on, also when two length changes cancel out |
| HeaderHasher.PlotHeaderHasher.UpdateCount | plot_header_hasher.go:228-247 | the text is right to its end |
| HeaderHasher.PlotHeaderHasher.Update | plot_header_hasher.go:148-251 | after any updates for one job the hashed text is byte for byte the header's JSON |
| GraphSpec.EdgeKeepsAcyclicIff | representation_graph.go:61-62 | adding an edge keeps an acyclic graph acyclic exactly when its ends differ and the target does not lead to the source |
| GraphSpec.TestDecides | representation_graph.go:112-122 | the descendant test on (target, source) decides that question for keys, known or not |
| GraphSpec.OutSumAfter | representation_graph.go:61-62 | a weight added to an edge raises its source's outbound sum by as much and no other sum |
| GraphSpec.SharesAddUp | representation_graph.go:157-166 | a node with something outbound passes on exactly its damped ranking |
| GraphSpec.RankingComesFrom | representation_graph.go:172-192 | a node's next ranking in terms of the edges alone: what its incoming edges bring, each its source's damped ranking in proportion to its weight, and an equal part of the undamped mass and of what dangling nodes hold |
| GraphSpec.RankingTotalAfter | representation_graph.go:172-192 | the total after an iteration is 1 - alpha + alpha times the total held by nodes without negative outbound, for every damping |
| RankConvergence.IterationContracts | representation_graph.go:172-198 | without negative weights an iteration brings any two rankings closer by the damping factor |
| RankConvergence.RankingConverges | representation_graph.go:145-200 | with damping below 1 and no negative weights ranking converges for every epsilon |
| RankAcyclic.StepsContract | representation_graph.go:172-198 | with damping 1 on an acyclic graph of n nodes, n iterations bring two rankings of equal total closer by the factor 1 - 1/n^n |
| RankAcyclic.AcyclicRankingConverges | representation_graph.go:145-200 | with damping 1 ranking an acyclic graph converges for every epsilon |
| RankConvergence.StarNeverSettles | representation_graph.go:170-199 | with damping 1 a star of mutual representation never converges |
| RepGraph.Graph.Link | representation_graph.go:33-63 | numbers new keys, adds the weight, keeps index, nodes and outbound sums right, and keeps an acyclic graph acyclic exactly when the test said so |
| RepGraph.Graph.IsParentDescendant | representation_graph.go:112-122 | true exactly when both keys are known and a walk leads from one to the other, for every iteration order |
| RepGraph.Graph.Dfs | representation_graph.go:124-140 | a found target is reachable; otherwise everything newly visited is closed under edges and misses the target |
| RepGraph.Graph.Normalize | representation_graph.go:155-166 | the normalised weights of all sources with something outbound |
| RepGraph.Graph.Iterate | representation_graph.go:172-198 | every node's new ranking, the new total, and the sum of the changes |
| RepGraph.Graph.Rank | representation_graph.go:149-200 | the rankings are those of k iterations from the level start, k being the first whose change is at most epsilon or else all the rounds; it reports convergence exactly when the last change is at most epsilon; without negative outbound the rankings add up to exactly 1 |
| Locator.SendFindCommonAncestor | peer.go:1027-1071 | the list from the tip or a stored plot, refused exactly when that plot is not stored |
| Locator.WalkBack | peer.go:1047-1071 | the loop gives the list its offsets define |
| Locator.LocatorLists | peer.go:1047-1071 | the list holds the start's ancestors at depths 0 to 11, 13, 17, 25, ... until genesis |
| Locator.LocatorShape | peer.go:1047-1071 | heights fall strictly, genesis is last, and the length is logarithmic in the height |
| Locator.OnFindCommonAncestor | peer.go:1087-1136 | matches exactly plots on the responder's main thread, and answers with the plots after it |
| Locator.AnswerFindCommonAncestor | peer.go:559-576 | stops at the first entry on the responder's main thread |
| Locator.FirstMatch | peer.go:1047-1071 | if the threads part d plots below the tip the first match is common, exactly d deep up to 11, and beyond that less than 2d deep; d is 0 for a requester that is merely behind |
| Locator.InventoryIsRun | peer.go:1111-1125 | the answer is the contiguous run of at most 500 plots |
| Locator.Exchange | peer.go:1027-1136 | all of this for one exchange between two nodes with the same genesis |
| HistoryKeys.KeyReadsBack | ledger_disk.go:969-1012 | decoding a history key undoes encoding it, for every height and index of their types |
| HistoryKeys.KeyOrder | ledger_disk.go:969-992 | bytewise order on one key's entries is the order of heights, then indices |
| HistoryKeys.RangeHolds | ledger_disk.go:681-707 | a range with a shorter end key holds exactly that public key's entries from the place on and below the end height, heights and indices read as the unsigned numbers they are stored as, negative ones included |
| History.RangeForward | ledger_disk.go:681-740 | for any start, end and limit: the first entries of the listing, up to the limit, with their plots; fails exactly when one of them has no plot |
| History.ReadAll | keyholder/main.go:457-479 | paging from (last height, last index + 1) gives the listing that one scan from the start would give, once and in order, for any positive page size and any start height |
| History.PagingIsComplete | keyholder/main.go:452-479 | what paging sees is the whole listing exactly when the start height is not negative or the listing is empty |
| History.EarlyRewardsGoUnseen | keyholder/main.go:452-462 | while the tip is below height 99 the rewards command sees no entry |
| History.GenesisRewardGoesUnseen | keyholder/main.go:452-462 | one entry at height 0 that a scan should list and the scan from -99 does not |
| History.GetPublicKeyImbalanceAt | ledger_disk.go:833-900 | the tally over the key's listing up to the height, or a failure |
| History.StoredImbalanceIsTally | inspector/main.go:308-320 | at the tip and without pruning that tally is the stored imbalance |
| History.VerifyKey | inspector/main.go:308-320 | on every unpruned ledger the processor can reach the recomputed imbalance at the tip exists and is the stored one |
| History.LedgerIsStorable | processor.go:424-453 | on every ledger in order every history entry has a 32-byte key and a height and index within the types they are stored in |
| History.HistoryListsThread | ledger_disk.go:220-233 | without pruning a key's history is exactly its representations on the main thread, in order |

## Left out

- Networking, WebSocket loops, DNS, IRC, UPnP, TLS, peer storage, the peer manager, key encryption and the command-line tools: I/O and foreign calls.
- SHA3, Ed25519, JSON and gob libraries, UTF-8 validation, LZ4 and the cuckoo filter: parameters of `Rules`, or not needed.
- Channels, goroutines and locks: one goroutine handles plots and representations, so its handlers are the steps of `Run`; tip change and new representation notifications are not modelled, nor is the queue's lock.
- The plot queue, the download queue, checkpoints, the running hash state used when a plot being scribed gains representations, and the search for a nonce.
- Processor.ProcessPlot: which of several errors a plot with several faults gets is not stated for the checks after the shape checks, only that it is refused.
- Acyclicity of the whole ledger's graph: the guard reads a graph that the indexer updates later, and not between the representations of one plot, so it does not follow from the code. `Rules.guard` is therefore a fixed predicate.
- ExpectedTargetIsThreadTarget: asks that the window starts on the plot's own branch; for forks deeper than 144 plots the program reads the first header from the main thread.
- GetPublicKeyImbalanceAt: below the tip its maturity test still uses the tip's height, so only the tip is related to the stored imbalance.
- RangeForward: models the scan in ascending order; the program scans in reverse once the start height exceeds the end height, which is not modelled, so `ReadAll` asks for a start that is not above the end. Both ask for storable history entries (`History.LedgerIsStorable`) and a 32-byte key.
- StoredImbalanceIsTally: asks for a history that is not pruned, as the program does, and `VerifyKey` with it.
- Rank: takes a bound on the number of iterations, since with damping 1 the rankings of a graph with cycles may never converge; weights are reals, so rounding is not modelled, and an empty graph is left alone. Which graphs with cycles converge with damping 1 is not decided.
- Link: node numbers are 32 bits wide and two must be free; a node is a value in the map, where the program keeps a record that no two keys share.
- Update: headers whose text does not fit the buffer are excluded; only negative numbers can make one.
- Exchange: asks that an ID names one plot on both threads, which holds unless the header hash collides.
- The storage time of a plot is the processor's clock at arrival; headers read back are those that were stored.
