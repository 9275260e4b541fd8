# Verification of the stateful core of Clash Verge

This project models the parts of Clash Verge whose correctness depends on whole runs rather than on one
function body, and proves in Dafny what they are for.

| file | what it models |
|---|---|
| `DraftSlots.dfy`, `DraftStore.dfy`, `DraftTransaction.dfy`, `DraftProtocol.dfy`, `DraftClaims.dfy` | the copy-on-write draft store: reference counted slots, the critical sections over them, the modify permit with its parking and notifying, and claim transactions, each alone and under interference |
| `SelectionReconcile.dfy`, `SelectionActivation.dfy`, `ProfileList.dfy`, `SelectionRecords.dfy` | repairing and restoring recorded node selections, the profile list with its current profile, and recorded choices against restores |
| `ProxyChain.dfy` | the proxy chain kept as `dialer-proxy` links, its writer, its reader, and the settings patch of the same configuration |
| `ConnectionMerge.dfy` | the merge of connection snapshots and the capped history of closed connections |
| `TrafficSampler.dfy` | the traffic sampler: moving heads, compaction, batch averages |
| `MutateQueue.dfy` | the first-in-first-out queue per command id |
| `DelayWorkers.dfy`, `DelaySettling.dfy` | the worker pool of a delay batch; overlapping batches, cached snapshots and their listeners |
| `MemberBinding.dfy` | finding one occurrence of a group member again in a changed list |

Code that changes state is a class whose methods are proved equal to a function on values; concurrent code is
a state machine with one step per atomic action, and the results hold for every legal sequence of steps.
The two are tied together: the class methods of `DraftStore` produce exactly the slot functions that the steps
of `DraftProtocol` use, `DraftClaims` shows each of its layer steps to be what those slot functions show, and
the methods of `MutationQueue`, `Batch` and `DelayManager` are the steps of their state machines.

Some results are exact conditions rather than plain guarantees, because the code does not do what its name
suggests on every input:

* With distinct uids, deleting a profile takes out the item and what it references, nothing else, if and only
  if no reference is unset or no item lacks a uid (`ProfileList.DeletionIsExactIff`). An unset reference takes
  out the first item without a uid: with one such item in the list, deleting a profile that references nothing
  removes it too (`ProfileList.UnsetReferenceTakesAnother`). The application itself fills in missing uids when
  it loads the list (`src-tauri/src/config/profiles.rs:117-119`) and refuses to append an item without one
  (`:186-189`), so only a list that came about otherwise is concerned.
* A recorder of a node choice commits its edit and bumps the generation right after; a restore checks the
  generation and the records inside its own edit. So a restore writes if and only if no bump of any kind has
  come since it planned and the edits committed meanwhile bring the records back to what it planned from
  (`SelectionRecords.RestoreWritesIff`). With one recorder at a time this means that nothing changed at all, so
  no newer choice is ever overwritten (`SelectionRecords.SerialRestoreIsSafe`); nor is a single change, however
  many recorders there are (`SelectionRecords.OneChangeIsKept`). Only two recorders that both commit before
  either bumps can hide their changes from a restore, the second undoing the first
  (`SelectionRecords.TwoChangesAreHidden`).
* A repair plan depends on the earlier snapshot if and only if some group's last record is complete and the group
  is missing, or loaded and selectable without the recorded node (`SelectionReconcile.PlanIsFinalIff`). A second
  snapshot is asked for in more cases than these, and never in fewer.
* The reader of the proxy chain has an unbounded loop. It halts from every exit node if and only if the chain
  of strings that was written has no loop: two entries with one name, where every entry after the earlier one up to the
  later one is the last to name a listed proxy (`ProxyChain.HaltsIffLoopFree`). When all entries are listed
  that is if and only if no name is repeated (`ProxyChain.HaltsIffDistinct`); the chain a, b, a over two listed
  proxies never halts (`ProxyChain.RepeatedChainNeverHalts`). Entries that are not strings are another matter:
  the duplicate-free chain 1, a, 2 never halts either (`ProxyChain.NonStringChainNeverHalts`), because the
  reader takes all names that are not strings for one. Whether a walk ends can be checked by following
  as many links as there are proxies (`ProxyChain.HaltsIsCheckable`).
* The cap on closed connections counts departed ids and not departed connections. For every state, a merge
  leaves the last 500 of the closed and the departed, and no more than 500, if and only if all of them fit or
  some id departed and as many connections as ids did (`ConnectionMerge.ClosedIsLastIff`); over a run, the
  closed list is right all along if and only if that holds at every snapshot
  (`ConnectionMerge.LastThroughoutIff`). With distinct ids in every snapshot it does
  (`ConnectionMerge.ClosedIsLastDepartures`). One snapshot that reports an id more than 500 times, followed by
  one that does not report it, leaves more than 500, and later snapshots do not repair that while nothing
  departs (`ConnectionMerge.RepeatedIdOverflows`).
* A delay batch measures every member exactly once if and only if it is empty or was given a concurrency of at
  least one (`DelayWorkers.EveryMemberOnceIff`). With none it settles at once and measures nothing
  (`DelayWorkers.NoWorkerMeasuresNothing`).
* A view that asks for the delays of several groups finds those of a group if and only if the group's name
  contains no space and the view did not ask for the empty name alone, because the names are joined and split
  at spaces (`DelaySettling.GroupIsFoundIff`); the group "a b" is not found
  (`DelaySettling.SpacedGroupIsNotFound`).
* `with_data_modify` commits if and only if its closure succeeded and no draft was applied since it read
  (`DraftProtocol.FinishOutcome`).

## Model

| member | source | states |
|---|---|---|
| DraftSlots.EditedKeepsValid | crates/clash-verge-draft/src/lib.rs:65-75 | an edit, in place or on a private copy, changes what the draft slot reads and nothing any other holder reads; draft and committed slots never share |
| DraftSlots.AppliedKeepsValid | crates/clash-verge-draft/src/lib.rs:79-84 | applying makes the latest value the committed one, empties the draft slot and keeps every snapshot |
| DraftSlots.DiscardedKeepsValid | crates/clash-verge-draft/src/lib.rs:88-91 | discarding makes readers see the committed value again and keeps every other holder |
| DraftSlots.ReplacedKeepsValid | crates/clash-verge-draft/src/lib.rs:108-114 | replacing the committed value leaves every snapshot and the draft as they were, even with a recycled allocation |
| DraftSlots.CollectedIsCounted | crates/clash-verge-draft/src/lib.rs:9-10 | freeing what nobody holds leaves every holder its value |
| DraftStore.EditComposes | crates/clash-verge-draft/src/lib.rs:69-73 | take or clone, copy on write, overwrite and put back are together the one-step edit |
| DraftStore.Draft.constructor | crates/clash-verge-draft/src/lib.rs:39-48 | a new draft holds only its committed value and is unclaimed |
| DraftStore.Draft.DataArc | crates/clash-verge-draft/src/lib.rs:51-54 | the caller shares the committed allocation and gets its value |
| DraftStore.Draft.LatestArc | crates/clash-verge-draft/src/lib.rs:58-61 | the caller shares the draft's allocation if there is one, else the committed one |
| DraftStore.Draft.MakeMut | crates/clash-verge-draft/src/lib.rs:71 | a copy is made exactly when the allocation has another holder |
| DraftStore.Draft.EditDraft | crates/clash-verge-draft/src/lib.rs:65-75 | the draft becomes the closure applied to the latest value, whose result is returned |
| DraftStore.Draft.Apply | crates/clash-verge-draft/src/lib.rs:79-84 | the draft's allocation becomes the committed one and the old one is freed with its last holder |
| DraftStore.Draft.Discard | crates/clash-verge-draft/src/lib.rs:88-91 | the draft slot is emptied and its allocation freed with its last holder |
| DraftStore.Draft.BeginModify | crates/clash-verge-draft/src/lib.rs:102-106 | the task holds the committed allocation and works on a copy of its value |
| DraftStore.Draft.FinishModify | crates/clash-verge-draft/src/lib.rs:108-116 | commits exactly when the committed slot still is the very allocation the task holds; otherwise nothing but that hold changes |
| DraftStore.Draft.TryClaim | crates/clash-verge-draft/src/lib.rs:161-166 | succeeds exactly on an unclaimed layer, which is claimed afterwards |
| DraftStore.Draft.Release | crates/clash-verge-draft/src/lib.rs:169-171 | the layer is unclaimed afterwards |
| DraftTransactions.DraftTransaction.Begin | crates/clash-verge-draft/src/lib.rs:219-235 | succeeds exactly when all layers are free and none is listed twice; a failure names the first layer that was not free and leaves no claim behind |
| DraftTransactions.DraftTransaction.Commit | crates/clash-verge-draft/src/lib.rs:238-243 | every layer's latest value is committed and every claim released |
| DraftTransactions.DraftTransaction.Drop | crates/clash-verge-draft/src/lib.rs:252-259 | every claim is released, and without a commit every draft is discarded |
| DraftTransactions.DraftTransaction.Rollback | crates/clash-verge-draft/src/lib.rs:246-248 | every committed value is what it was and is what readers see |
| DraftProtocol.StepKeepsExclusive | crates/clash-verge-draft/src/lib.rs:118-143 | no step of any number of tasks lets a second one hold the permit, and the flag is up exactly while one does |
| DraftProtocol.StepKeepsWakeups | crates/clash-verge-draft/src/lib.rs:24-143 | no step loses a wake-up: a free permit and a waiting task leave a stored token, a woken task yet to retry, or a releaser about to notify |
| DraftProtocol.StepKeepsOriginals | crates/clash-verge-draft/src/lib.rs:102-114 | while a closure runs, the committed slot points to the allocation it started from exactly when nothing was committed since |
| DraftProtocol.CommittedIsNeverMutated | crates/clash-verge-draft/src/lib.rs:65-116 | the committed object is never overwritten in place; only commits change what the slot reads |
| DraftProtocol.OperationShows | crates/clash-verge-draft/src/lib.rs:50-91 | readers get the committed or the latest value, an edit becomes the latest value, an applied draft is committed, and an applied or discarded draft is gone |
| DraftProtocol.PermitIsPassedOn | crates/clash-verge-draft/src/lib.rs:26-143 | a try takes the permit exactly when nobody has it; a poll parks exactly when no token is stored; a notification wakes one parked task or else stores a token |
| DraftProtocol.SnapshotSurvivesRun | crates/clash-verge-draft/src/lib.rs:49-61 | a snapshot keeps its value through every run until its holder drops it |
| DraftProtocol.FinishOutcome | crates/clash-verge-draft/src/lib.rs:107-115 | a modification commits if and only if its closure succeeded and no draft was applied since it read, over exactly the value it read; otherwise nothing changes |
| DraftProtocol.EveryRun | crates/clash-verge-draft/src/lib.rs:95-143 | in every reachable state: one permit holder; a free permit and a waiting task leave a stored token, a woken task yet to retry, or a releaser about to notify; each committed modification was computed from the commit just before it |
| DraftProtocol.NobodyParksForever | crates/clash-verge-draft/src/lib.rs:136-142 | the tasks inside the call are never all parked |
| DraftProtocol.CallsMoveOn | crates/clash-verge-draft/src/lib.rs:95-143 | each step of a call that finds the permit free, or a token, leaves it one step fewer to take |
| DraftProtocol.IncrementsAreNotLost | crates/clash-verge-draft/src/lib.rs:93-116 | after any run of concurrent increments in which no draft is applied, the committed value is the initial one plus the number of closures that succeeded |
| DraftClaims.EditOfLayer | crates/clash-verge-draft/src/lib.rs:65-75 | the edit of a layer is what the edit of the slots shows |
| DraftClaims.ApplyOfLayer | crates/clash-verge-draft/src/lib.rs:174-176 | the apply of a layer is what the apply of the slots shows |
| DraftClaims.DiscardOfLayer | crates/clash-verge-draft/src/lib.rs:179-181 | the discard of a layer is what the discard of the slots shows |
| DraftClaims.ReplaceOfLayer | crates/clash-verge-draft/src/lib.rs:108-115 | a committed modification of a layer is what the replacement in the slots shows |
| DraftClaims.StepKeepsInv | crates/clash-verge-draft/src/lib.rs:217-260 | every atomic step of any transaction keeps claims owned once and drafts owned |
| DraftClaims.EveryRun | crates/clash-verge-draft/src/lib.rs:217-260 | for any interleaving: a claimed layer has exactly one owner, an unclaimed one an empty draft slot; a refused or finished transaction owns no claim |
| DraftClaims.CommittedChangesAreOwned | crates/clash-verge-draft/src/lib.rs:238-243 | a committed value changes only by its owner's commit or a modification |
| DraftClaims.RollbackKeepsCommitted | crates/clash-verge-draft/src/lib.rs:251-260 | until an uncommitted transaction gives a layer up, no other transaction changes that layer's committed value |
| DraftClaims.ClaimSucceedsIff | crates/clash-verge-draft/src/lib.rs:219-230 | under interference a claim succeeds if and only if the layer has no owner, and one that fails claims nothing |
| DraftClaims.StepOnLayer | crates/clash-verge-draft/src/lib.rs:65-116 | what a layer holds changes only by an edit, an apply or a discard that reaches it, or a modification, and to what these give |
| DraftClaims.TransactionsEnd | crates/clash-verge-draft/src/lib.rs:217-260 | a transaction under way always has a step to take, and takes at most three for each layer and four more, edits apart |
| DraftClaims.CommitArrives | crates/clash-verge-draft/src/lib.rs:238-260 | whatever others do, the last value a committing transaction edited is staged until applied, and is the committed one when it comes to release the layer |
| SelectionReconcile.UniqueSelected | src-tauri/src/config/profiles.rs:513-519 | keeps, in order, the last record of each named group |
| SelectionReconcile.ReconcileRecord | src-tauri/src/config/profiles.rs:522-593 | one pass of the loop adds what the verdict on the record says; what the verdicts come to in the plan is stated by the rows below, without them |
| SelectionReconcile.ReconcileSelectedNodes | src-tauri/src/config/profiles.rs:503-596 | the plan is that of the last record of each group in order, every record dropped as a duplicate counting as repaired; the rows below say what it holds |
| SelectionReconcile.FirstPlanKeeps | src-tauri/src/config/profiles.rs:527-578 | without an earlier snapshot the complete last record of a missing, empty or selectable group stays as it is |
| SelectionReconcile.ConfirmedMissingIff | src-tauri/src/config/profiles.rs:564-592 | with one, the record of a loaded selectable group goes or changes if and only if both snapshots have the group loaded without its node; it then names the listed current node, or goes if there is none |
| SelectionReconcile.MissingGroupIff | src-tauri/src/config/profiles.rs:527-534 | the record of a missing group goes if and only if the earlier snapshot lacks the group too |
| SelectionReconcile.EmptyGroupKeeps | src-tauri/src/config/profiles.rs:535-539 | the record of a group without nodes stays, whatever the earlier snapshot had |
| SelectionReconcile.OtherGroupFollows | src-tauri/src/config/profiles.rs:540-562 | the record of a loaded group that is not selectable becomes its listed current node, else stays if its own node is listed, else goes |
| SelectionReconcile.PlanNamesOnce | src-tauri/src/config/profiles.rs:513-526 | the plan has at most one record for a group, always complete, and none for a group whose last record is incomplete |
| SelectionReconcile.ActivatesIff | src-tauri/src/config/profiles.rs:564-570 | a select is planned if and only if the last record asks a selectable group for a node that it lists and is not on |
| SelectionReconcile.PlanKeepsOrder | src-tauri/src/config/profiles.rs:513-596 | records and selects are in the order in which their groups are recorded last |
| SelectionReconcile.ReconcileIsIdempotent | src-tauri/src/config/profiles.rs:503-596 | reconciling the output again gives the same records and activations and no repair |
| SelectionReconcile.RepairsAreCounted | src-tauri/src/config/profiles.rs:503-596 | repairs plus the records kept verbatim are as many as the input records |
| SelectionReconcile.NoRepairIffUnchanged | src-tauri/src/config/profiles.rs:520-596 | no repair is reported if and only if the records come back as they were |
| SelectionReconcile.CertainPlanIsFinal | src-tauri/src/config/profiles.rs:488-501 | when no confirmation is needed, the plan is the same for every earlier snapshot |
| SelectionReconcile.PlanIsFinalIff | src-tauri/src/config/profiles.rs:488-596 | the plan is the same for every earlier snapshot if and only if no complete last record names a missing group, or a loaded selectable one without its node; when no confirmation is needed none does |
| SelectionReconcile.ActivationsAreSound | src-tauri/src/config/profiles.rs:564-570 | planned selects name distinct selectable groups and nodes these list and are not on, each with its record |
| SelectionReconcile.SelectingMoves | src-tauri/src/config/profiles.rs:645-675 | performing the plan moves exactly the groups whose record activates, each to its own node |
| SelectionReconcile.SelectingSettles | src-tauri/src/config/profiles.rs:820-833 | afterwards a second plan selects nothing, and a group still unsettled is missing, empty, without the node, or not selectable with an unlisted current node |
| SelectionReconcile.UnsettledIff | src-tauri/src/config/profiles.rs:820-833 | a group is reported unsettled if and only if a complete record wants it on a node it is not on |
| SelectionActivation.StepKeepsInv | src-tauri/src/config/profiles.rs:1016-1066 | each spawn, join, check, select and exit keeps the chain of tasks and generations in order |
| SelectionActivation.EveryRun | src-tauri/src/config/profiles.rs:1016-1066 | at most one task is past its join and unfinished, and no select of an older generation follows one of a newer |
| SelectionActivation.OvertakenTaskStops | src-tauri/src/config/profiles.rs:598-605 | once overtaken, a task sends at most the one select whose check had passed |
| SelectionActivation.BumpOvertakes | src-tauri/src/config/profiles.rs:598-605 | starting or superseding a restore overtakes every task there is, each of which then sends at most the select already cleared |
| SelectionActivation.CurrentTaskGoesOn | src-tauri/src/config/profiles.rs:603-605 | a task that nothing overtakes ends only by its own exit |
| SelectionActivation.IssuedAreCounted | src-tauri/src/config/profiles.rs:645-675 | every select sent is recorded under its task, and no other |
| SelectionActivation.RestoreRuns | src-tauri/src/config/profiles.rs:1016-1066 | a restore started when all others have ended can join, pass its check, send a select and end |
| SelectionActivation.ApplyActivations | src-tauri/src/config/profiles.rs:645-675 | finishes exactly when all its generation checks pass; sends exactly the selects whose check passed; counts and records those answered well, except a last one overtaken after its answer |
| SelectionActivation.SuccessesAreCounted | src-tauri/src/config/profiles.rs:650-672 | the count is the number of selects answered well |
| SelectionActivation.SentAreChecked | src-tauri/src/config/profiles.rs:651-654 | the bounds on what was sent say that exactly the selects before which the check passes are sent |
| SelectionActivation.RemainingIsUndone | src-tauri/src/config/profiles.rs:634-643 | what remains is exactly the activations not yet recorded with their node |
| SelectionActivation.NextPassRetriesFailures | src-tauri/src/config/profiles.rs:634-675 | of the selects a finished pass sent, the next pass has exactly those that failed |
| SelectionActivation.DoneIsNotRetried | src-tauri/src/config/profiles.rs:634-643 | what was recorded before a finished pass is not selected again, if each group is planned once |
| ProfileList.IProfiles.GetItem | src-tauri/src/config/profiles.rs:169-183 | the first item with the uid, or nothing |
| ProfileList.IProfiles.PatchConfig | src-tauri/src/config/profiles.rs:154-167 | `current` becomes the patch's uid exactly when an item has it, and no item changes |
| ProfileList.IProfiles.AppendItem | src-tauri/src/config/profiles.rs:185-220 | fails without a change when uid, file or write is missing; else appends, and fills an unset `current` with a remote or local item's uid |
| ProfileList.IProfiles.Reorder | src-tauri/src/config/profiles.rs:222-236 | moves the last item with the one uid to the place of the last with the other, or does nothing |
| ProfileList.IProfiles.TakeItemFileByUid | src-tauri/src/config/profiles.rs:98-101 | removes the first item with exactly this uid, unset included, and gives its file |
| ProfileList.IProfiles.TakeItems | src-tauri/src/config/profiles.rs:353-364 | the removals one after the other, with their files |
| ProfileList.IProfiles.PickCurrent | src-tauri/src/config/profiles.rs:366-374 | the uid of the first remote or local item left |
| ProfileList.IProfiles.PlanDeleteItem | src-tauri/src/config/profiles.rs:340-378 | nothing changes for an unknown uid; else the flag says whether `current` was unset or the deleted uid, `current` then is the first remote or local item left and otherwise stays, and items and files are those of the deletion |
| ProfileList.DeletionPicksCurrent | src-tauri/src/config/profiles.rs:366-374 | deleting moves `current` to the first remote or local item left, or unsets it when there is none, if it was unset or the deleted one; else it stays |
| ProfileList.IProfiles.RecordSelectedNode | src-tauri/src/config/profiles.rs:717-753 | sets the group's choice of the current profile, and reports a change exactly when there is one |
| ProfileList.DeletionIsExactIff | src-tauri/src/config/profiles.rs:340-364 | with distinct uids, exactly the item and its references go and the rest keep their order if and only if no reference is unset or no item lacks a uid |
| ProfileList.DeletionTakesOut | src-tauri/src/config/profiles.rs:340-364 | with distinct uids, and no unset reference or no item without a uid, exactly the item and those its merge, script, rules, proxies and groups references name go |
| ProfileList.UnsetReferenceTakesAnother | src-tauri/src/config/profiles.rs:98-101 | deleting an item that references nothing also removes one without a uid |
| ProfileList.PlannedFilesAreTheRemoved | src-tauri/src/config/profiles.rs:353-364 | for every list and all targets the planned files are exactly those of the removed items |
| ProfileList.CurrentAfterDelete | src-tauri/src/config/profiles.rs:341-378 | `current` stays listed exactly when it was replaced or is none of the deleted references; it is unset only when no profile is left |
| ProfileList.ReorderMovesOne | src-tauri/src/config/profiles.rs:222-236 | one item moves, the others keep their order, none is lost |
| ProfileList.EveryRun | src-tauri/src/config/profiles.rs:154-378 | over any run of appends, patches, reorders and deletions `current` is a listed remote or local item, or unset while there is none, and uids stay set and unique |
| ProfileList.IProfiles.ForgetSelectedNode | src-tauri/src/config/profiles.rs:755-784 | drops the group's choices from the current profile, and reports a change exactly when there were any |
| ProfileList.IProfiles.RemoveSelectedNode | src-tauri/src/config/profiles.rs:755-759 | the choices of the group go and the others stay in order |
| ProfileList.IProfiles.PersistReconciledSelected | src-tauri/src/config/profiles.rs:798-815 | writes the repaired records exactly when the restore is not overtaken, the profile is current and its records are those planned from |
| ProfileList.PersistWritesIff | src-tauri/src/config/profiles.rs:798-815 | the plan is written if and only if the restore is not overtaken, the profile is current and its records are those planned from; they then are the plan's, none when it is empty, and nothing else changes |
| SelectionRecords.EditOne | src-tauri/src/config/profiles.rs:717-784 | recording or forgetting writes exactly when it changes the records, changes nothing else, and leaves no empty list behind |
| SelectionRecords.UnchangedIffReturns | src-tauri/src/config/profiles.rs:732-758 | a run of recordings and forgettings leaves the records as they were if and only if it brings back the order of their groups and every group it edited ends as it was recorded |
| SelectionRecords.ChoicesUnchangedIff | src-tauri/src/config/profiles.rs:732-748 | a run of recordings leaves the records as they were if and only if every group it chose for ends on its recorded node |
| SelectionRecords.RestoreWritesIff | src-tauri/src/config/profiles.rs:701-817 | over any run of commits and bumps, a restore writes if and only if its generation was current when it planned, no bump came since, and the edits bring the records back |
| SelectionRecords.SerialRestoreIsSafe | src-tauri/src/config/profiles.rs:701-817 | with one recorder at a time a restore writes if and only if its generation is current and the profiles are exactly those it planned from |
| SelectionRecords.OneChangeIsKept | src-tauri/src/config/profiles.rs:798-810 | the one change written since a restore planned is not overwritten, even past its generation check |
| SelectionRecords.TwoChangesAreHidden | src-tauri/src/config/profiles.rs:706-710 | two recorders that commit before either bumps, the second undoing the first, are overwritten |
| ProxyChain.IRuntime.UpdateProxyChainConfig | src-tauri/src/config/runtime.rs:55-85 | the clearing and the linking loop give every proxy the link of the last chain entry that names it, and no other |
| ProxyChain.NextLink | src-tauri/src/config/runtime.rs:75-83 | one more chain entry relinks the first proxy it names to its predecessor, unless it is the first entry or names nobody |
| ProxyChain.LastUpdateWins | src-tauri/src/config/runtime.rs:53-85 | updating to one chain and then another is updating to the other |
| ProxyChain.OnlyLinksChange | src-tauri/src/config/runtime.rs:62-84 | no other key or position changes, and without a chain no link is left |
| ProxyChain.GetRuntimeProxyChainConfig | src-tauri/src/cmd/runtime.rs:52-99 | both errors; else the proxies passed and the entry proxy, entry first |
| ProxyChain.HaltsIsCheckable | src-tauri/src/cmd/runtime.rs:68-77 | the loop ends if and only if the links end within as many steps as there are proxies |
| ProxyChain.VisitsAreDistinct | src-tauri/src/cmd/runtime.rs:68-77 | a walk that ends passes no proxy twice |
| ProxyChain.StepsToPredecessor | src-tauri/src/cmd/runtime.rs:68-77 | after a write, the reader steps from the last entry of a name to the entry before it |
| ProxyChain.DistinctChainHaltsEverywhere | src-tauri/src/config/runtime.rs:62-84 | a duplicate-free chain of strings leaves an acyclic link graph, whatever links existed before |
| ProxyChain.RoundTrip | src-tauri/src/cmd/runtime.rs:64-87 | reading from entry k of a written duplicate-free chain of names of listed proxies returns entries 0 to k in chain order; from its first entry or outside it, nothing |
| ProxyChain.WrittenChainIsRead | src-tauri/src/config/runtime.rs:55-85 | of the whole configuration: from entry k of the chain that was written, the reader gives entries 0 to k, each as it was listed and linked to the one before, and no other key changed |
| ProxyChain.HaltsIffLoopFree | src-tauri/src/cmd/runtime.rs:68-77 | for every chain of strings and all proxies the reader halts from every exit node if and only if no entry leads down to an entry with its own name |
| ProxyChain.HaltsIffDistinct | src-tauri/src/cmd/runtime.rs:68-77 | for chains of names of listed proxies the reader halts from every exit node if and only if no name is repeated |
| ProxyChain.NonStringChainNeverHalts | src-tauri/src/cmd/runtime.rs:68-77 | the duplicate-free chain 1, a, 2 over proxies with these names makes the reader run for ever from a |
| ProxyChain.RepeatedChainNeverHalts | src-tauri/src/cmd/runtime.rs:68-77 | over any list with proxies a and b, the reader never halts from either after the chain a, b, a was written |
| ProxyChain.TwoProxiesAreListed | src-tauri/src/config/runtime.rs:75-77 | a list of two proxies named a and b is such a list |
| ProxyChain.IRuntime.PatchConfig | src-tauri/src/config/runtime.rs:21-51 | copies the five listed keys and merges the `tun` mapping, creating it when it is missing |
| ProxyChain.IRuntime.PatchTun | src-tauri/src/config/runtime.rs:43-50 | of the patch's `tun` keys exactly those already in lower case are taken |
| ProxyChain.PatchSetsKeys | src-tauri/src/config/runtime.rs:28-36 | the five listed keys take the patch's values; every other key but `tun` is as before, and so is `tun` when the patch has none |
| ProxyChain.PatchMergesTun | src-tauri/src/config/runtime.rs:38-50 | with `tun` in the patch the configuration has a mapping there: the one it had, if any, with the keys the patch writes without capitals |
| ProxyChain.PatchAndChainCommute | src-tauri/src/config/runtime.rs:21-85 | a settings patch and a chain update give the same configuration in either order |
| ProxyChain.PatchIsIdempotent | src-tauri/src/config/runtime.rs:21-51 | applying a patch twice is applying it once |
| ConnectionMerge.ReuseIsInvisible | src/hooks/use-connection-data.ts:103-144 | the result equals the connection rebuilt from the report, and the old object is returned exactly when it equals that |
| ConnectionMerge.SameMetadataIsEqual | src/hooks/use-connection-data.ts:56-88 | metadata is the same exactly when it equals the filled-in report |
| ConnectionMerge.ConnectionMonitor.MergeSnapshot | src/hooks/use-connection-data.ts:146-206 | for every snapshot the loops give the reported totals, zero where missing, the continued connections and the closed list |
| ConnectionMerge.LastSnapshotIsShown | src/hooks/use-connection-data.ts:103-206 | over any run, from the last snapshot on and whatever is cleared, the totals and the active connections with all their fields but the deltas are those it reported, zero or empty where missing, in its order |
| ConnectionMerge.DeltasShown | src/hooks/use-connection-data.ts:111-112 | for any snapshot the deltas are against the last active connection of the id, the first time the id is reported, and else zero |
| ConnectionMerge.DepartedInOrder | src/hooks/use-connection-data.ts:190-198 | departures are the connections whose id is not reported, in order |
| ConnectionMerge.ConnectionMonitor.MergeClosed | src/hooks/use-connection-data.ts:177-198 | the drop counts and the skipping loop keep the newest of the closed and append the departures past the skipped ones |
| ConnectionMerge.ClosedIsLastIff | src/hooks/use-connection-data.ts:168-198 | for every state, the closed list is the last 500 of closed and departed, and at most 500 long, if and only if all fit or some id departed and as many connections as ids did |
| ConnectionMerge.LastThroughoutIff | src/hooks/use-connection-data.ts:146-206 | over every run the closed list is the last 500 departures after each event if and only if at every snapshot what departs fits or is as many connections as ids |
| ConnectionMerge.RepeatedIdOverflows | src/hooks/use-connection-data.ts:168-198 | n > 500 reports of one id, then none: n connections are closed, and an idle snapshot leaves them |
| ConnectionMerge.ConnectionMonitor.IndexById | src/hooks/use-connection-data.ts:153-158 | the map from id to the last connection with that id |
| ConnectionMerge.ConnectionMonitor.ContinueAll | src/hooks/use-connection-data.ts:160-166 | each report continues the connection of its id, and the map is left with what was not reported |
| ConnectionMerge.ConnectionMonitor.PushDeparted | src/hooks/use-connection-data.ts:190-198 | the departures past the skipped ones are appended in order |
| ConnectionMerge.DepartedCount | src/hooks/use-connection-data.ts:177 | with distinct ids the entries left in the map are as many as the departures |
| ConnectionMerge.DepartedAtLeast | src/hooks/use-connection-data.ts:177-188 | the entries left in the map are never more than the departures, so the skip count stays within them |
| ConnectionMerge.ConnectionMonitor.ClearClosed | src/hooks/use-connection-data.ts:406-413 | only the closed list is emptied |
| ConnectionMerge.ClosedIsLastDepartures | src/hooks/use-connection-data.ts:146-206 | over any run the closed list is the last 500 departures since the last clear, in order |
| ConnectionMerge.DeltasTelescope | src/hooks/use-connection-data.ts:111-112 | the deltas of a connection reported throughout sum to its last totals minus its first |
| TrafficSampler.Advance | src/utils/traffic-sampler.ts:64-73 | the moved and perhaps compacted head shows exactly the points newer than the cutoff, with bounded dead cells |
| TrafficSampler.SkipOld | src/utils/traffic-sampler.ts:120-127 | skipping a head in time order is filtering by the cutoff |
| TrafficSampler.TrafficDataSampler.constructor | src/utils/traffic-sampler.ts:50-57 | a new sampler has an empty history |
| TrafficSampler.TrafficDataSampler.AddRaw | src/utils/traffic-sampler.ts:60-73 | the live raw points are the whole history filtered by the raw cutoff |
| TrafficSampler.TrafficDataSampler.AddToQueue | src/utils/traffic-sampler.ts:75-78 | the history stays cut into averaged full batches and a queue shorter than a batch |
| TrafficSampler.TrafficDataSampler.CompressData | src/utils/traffic-sampler.ts:97-115 | the queue becomes one averaged point |
| TrafficSampler.TrafficDataSampler.AddCompressed | src/utils/traffic-sampler.ts:75-94 | the live compressed points are all averages ever made, filtered by their cutoff |
| TrafficSampler.TrafficDataSampler.AddDataPoint | src/utils/traffic-sampler.ts:59-95 | both windows equal the filtered full histories after every add, with bounded dead cells |
| TrafficSampler.TrafficDataSampler.GetDataForTimeRange | src/utils/traffic-sampler.ts:117-156 | a range within the raw retention is the full history filtered by its own cutoff; a longer one is what is retained of it, sorted by time |
| TrafficSampler.TrafficDataSampler.LongRangeHolds | src/utils/traffic-sampler.ts:128-156 | a range beyond the raw retention holds one point, with the same rates and time, for each retained compressed point of the range up to the raw limit, the raw points of the range, and nothing else |
| TrafficSampler.TrafficDataSampler.GetStats | src/utils/traffic-sampler.ts:158-168 | the sizes of the two filtered histories and of what is not yet averaged |
| TrafficSampler.TrafficDataSampler.Clear | src/utils/traffic-sampler.ts:170-176 | the history is empty again |
| TrafficSampler.TrafficDataSampler.TotalsAreConserved | src/utils/traffic-sampler.ts:97-115 | samples times average over all compressed points, plus the queue, are the totals of every point added; each covers one full batch and their times never go back |
| TrafficSampler.AverageTimeBetween | src/utils/traffic-sampler.ts:102-104 | the average time of a batch lies between the times of its points |
| TrafficSampler.AverageUpBetween | src/utils/traffic-sampler.ts:100-107 | the average upload of a batch lies between the uploads of its points |
| TrafficSampler.AverageDownBetween | src/utils/traffic-sampler.ts:101-108 | the average download of a batch lies between the downloads of its points |
| TrafficSampler.SortOrders | src/utils/traffic-sampler.ts:153-155 | the sorted list has the same points in time order |
| TrafficSampler.SortIsStable | src/utils/traffic-sampler.ts:153-155 | points of one time stay in their order |
| MutateQueue.MutationQueue.Enter | src/services/mutate.ts:34-41 | a request adds a call with its id, takes the map entry of the id and runs at once exactly when there was none |
| MutateQueue.MutationQueue.Proceed | src/services/mutate.ts:41-44 | a call runs when the one it found has finished |
| MutateQueue.MutationQueue.Leave | src/services/mutate.ts:60-63 | the entry goes exactly when it still is this call's |
| MutateQueue.StepKeepsInv | src/services/mutate.ts:29-64 | each request, resumption and settlement keeps the chains of calls, the map and the order |
| MutateQueue.EveryRun | src/services/mutate.ts:28-64 | per id one command runs at a time and in request order, whichever throw; the map has an entry exactly while a call on the id is unfinished |
| MutateQueue.RequestsBecomeCalls | src/services/mutate.ts:34-41 | over every run the calls are the requests of the run, in order, with their ids |
| MutateQueue.EveryRequestRunsOnce | src/services/mutate.ts:28-64 | a run that can only go on with another request has invoked the command of each request exactly once and nothing else, and holds no entry |
| MutateQueue.ThreeStepsEach | src/services/mutate.ts:28-64 | a run takes at most three steps for each request, so nothing goes on for ever |
| MutateQueue.SomeoneCanMove | src/services/mutate.ts:41 | of an unfinished call and those before it, one runs or can go on |
| DelayWorkers.Batch.constructor | src/services/delay.ts:415-421 | as many workers as the least of concurrency, members and ten are started, none for a negative bound |
| DelayWorkers.Batch.TakeNext | src/services/delay.ts:387-389 | a worker takes the next member or returns |
| DelayWorkers.Batch.Continue | src/services/delay.ts:402-413 | after a measurement, good or bad, the worker goes on |
| DelayWorkers.EveryRun | src/services/delay.ts:384-421 | under any interleaving members are taken in order, once each; none is lost or measured twice; no more are in flight than concurrency, members or ten |
| DelayWorkers.EveryMemberOnceIff | src/services/delay.ts:415-424 | a settled batch has measured every member exactly once if and only if it is empty or its concurrency is at least one |
| DelayWorkers.NoWorkerMeasuresNothing | src/services/delay.ts:415-424 | a batch with members and no concurrency settles at once with nothing measured |
| DelayWorkers.BatchSettles | src/services/delay.ts:387-424 | while a worker is out a step is possible, and a batch takes exactly 2n + width steps |
| DelaySettling.DelayManager.QueueGroupNotification | src/services/delay.ts:131-138 | while a batch runs nothing happens; else the group's snapshot and all sets go and the group waits for the frame |
| DelaySettling.DelayManager.GroupDelays | src/services/delay.ts:154-163 | the cached snapshot, or a new one that is cached |
| DelaySettling.DelayManager.GroupsDelays | src/services/delay.ts:141-151 | the cached set, or a new one of the snapshots of the key's groups |
| DelaySettling.DelayManager.BeginBatch | src/services/delay.ts:379 | one more batch of the group |
| DelaySettling.DelayManager.EndBatch | src/services/delay.ts:425-434 | one batch less, and a notification with the last |
| DelaySettling.DelayManager.AddGroupListener | src/services/delay.ts:198-201 | the listener is added, once |
| DelaySettling.DelayManager.RemoveGroupListener | src/services/delay.ts:203-208 | the listener is removed, and the entry with the last |
| DelaySettling.DelayManager.BeginFlush | src/services/delay.ts:108-111 | a frame takes over the waiting groups |
| DelaySettling.DelayManager.CallGroup | src/services/delay.ts:113-117 | the listeners called for a group are those it has when the frame reaches it |
| DelaySettling.FrameCallsOnce | src/services/delay.ts:108-128 | whatever listeners do meanwhile, a frame calls once for each group it took over and for no other |
| DelaySettling.DelayManager.FlushGroups | src/services/delay.ts:104-129 | with listeners that leave the registrations alone, every listener of every waiting group is called and nobody else |
| DelaySettling.EveryRun | src/services/delay.ts:131-163 | every cached set holds, for exactly the groups of its key, their current snapshots; batch counts are right; a frame is scheduled exactly while a group waits |
| DelaySettling.RunningIsBegunNotEnded | src/services/delay.ts:379-434 | the batches of a group that are counted as running are those begun and not ended |
| DelaySettling.ListensIffSubscribed | src/services/delay.ts:198-208 | over every run a listener is registered for a group if and only if its last call for that group was to subscribe |
| DelaySettling.IdentityChangesIffSettled | src/services/delay.ts:153-163 | a reader sees a new snapshot of a group if and only if the group settled in between |
| DelaySettling.SetChangesIffAnySettled | src/services/delay.ts:140-151 | a cached set is replaced if and only if some group settled |
| DelaySettling.LastBatchSettles | src/services/delay.ts:425-434 | a group with running batches settles with the end of the last and not before |
| DelaySettling.PendingIffSettled | src/services/delay.ts:131-138 | between frames exactly the groups that settled are added to those waiting |
| DelaySettling.ListenersHearIffSettled | src/services/delay.ts:104-129 | the next frame takes a group over if and only if it settled, and as registrations stand calls exactly its listeners |
| DelaySettling.KeyKeepsNamesIff | src/hooks/use-group-delays.ts:27-31 | joining and splitting gives the names back if and only if none contains a space and they are not one empty name |
| DelaySettling.GroupIsFoundIff | src/services/delay.ts:145-148 | a group asked for by name is found in the set if and only if its name contains no space and the names asked for are not one empty name |
| DelaySettling.SpacedGroupIsNotFound | src/services/delay.ts:145-148 | the group "a b" is not found |
| MemberBinding.ToMemberOccurrenceBinding | src/types/proxy-view.ts:176-200 | the binding counts the matching members before the one bound; nothing for a missing or unresolved member |
| MemberBinding.RebindMemberOccurrence | src/types/proxy-view.ts:202-220 | the member that matches with exactly the asked number of matches before it, or nothing if there is none |
| MemberBinding.SameSourceIsEquality | src/types/proxy-view.ts:158-165 | the same source is an equal source |
| MemberBinding.RebindInvertsBind | src/types/proxy-view.ts:176-220 | a binding finds a member if and only if it is that member's binding |
| MemberBinding.OccurrenceIsUnique | src/types/proxy-view.ts:202-220 | a binding finds at most one member |
| MemberBinding.FoundIff | src/types/proxy-view.ts:202-220 | it finds one if and only if the occurrence is below the number of matches |
| MemberBinding.RebindDependsOnMatches | src/types/proxy-view.ts:202-220 | however the list changes, the same member is found while the matching ones stay in order |
| MemberBinding.InsertKeepsOccurrenceIff | src/types/proxy-view.ts:202-220 | inserting a member keeps the occurrence on its member if and only if the new one does not match or comes later |
| MemberBinding.RemoveKeepsOccurrence | src/types/proxy-view.ts:202-220 | removing a member that does not match keeps the occurrence on its member |
| MemberBinding.FollowMember | src/types/proxy-view.ts:176-220 | binding and rebinding in one list gives the member back |

## Left out

- ConnectionMerge.ClosedIsLastDepartures: is about snapshots that report no id twice; what happens otherwise is `ConnectionMerge.LastThroughoutIff`.
- ConnectionMerge.ReuseIsInvisible: object identity appears as a flag beside the value, and the previous connection is one that was kept before, under the same id.
- ProxyChain.GetRuntimeProxyChainConfig: asks that the walk halts, because the source's loop has no bound and does not end on a cycle of links. The exact conditions are separate results.
- SelectionRecords.RestoreWritesIff: edits and the write are atomic, as the modify permit makes them; runs consist of recordings, forgettings and bumps, and no other edit of the profiles. At most one restore is past its join, so no other restore writes in between.
- ProxyChain.HaltsIffLoopFree: is about chains of strings, like `ProxyChain.HaltsIffDistinct` and `ProxyChain.DistinctChainHaltsEverywhere`, which do not hold of other YAML values; for those `ProxyChain.HaltsIsCheckable` tells from the written list when the reader halts.
- ProxyChain.IRuntime.UpdateProxyChainConfig: YAML mappings are maps with string keys; key order, tags and the YAML text of the reader's result are not modelled.
- DraftProtocol.EveryRun: `Notify` follows its documented contract, the mutex makes each critical section one step, and memory ordering is sequentially consistent.
- DraftProtocol.IncrementsAreNotLost: is about runs without an applied draft; such a draft may overwrite a newer commit.
- DraftProtocol.NobodyParksForever: says that some task can move, not that the scheduler lets it; the acquisition loop is a state machine and not a method, since Dafny methods do not suspend.
- DraftStore.Draft.EditDraft: a closure is a function on the value; its side effects and panics are not modelled.
- DraftTransactions.DraftTransaction.Commit: layers are committed one by one, so other readers may see some committed and some not.
- DraftClaims.EveryRun: only transactions edit drafts; the source does not stop an unclaimed `edit_draft`.
- SelectionActivation.OvertakenTaskStops: the generation is unbounded here and 64 bits wide in the source.
- SelectionActivation.ApplyActivations: the core's answers are a list and the generation checks that still pass are a number, both inputs.
- ProfileList.EveryRun: callers grant fresh uids, references that name other kinds, and `current` directed at remote or local items. Without that the code keeps no such invariant.
- ProfileList.IProfiles.AppendItem: writing the file is an input that succeeds or fails; saving `profiles.yaml` is left out here and in the other operations.
- TrafficSampler.TrafficDataSampler.AddDataPoint: numbers are exact, and the clock and the timestamps do not go back.
- MutateQueue.EveryRun: notices, revalidation and the busy result of a command are left out; they do not touch the queue.
- DelayWorkers.EveryRun: concurrency is an integer; staggering delays and the measured values are left out.
- DelaySettling.DelayManager.FlushGroups: is the whole frame for listeners that leave the registrations alone; for others the frame is `BeginFlush` and one `CallGroup` per group, and what a listener does is a step after its call. The source catches what a listener throws.
- The single-item delay cache, its listeners and its expiry, and what a snapshot reads through it.
- `patch_item`, `update_item` and the settling loop around the activation passes.
- The tray sync loop, the rate limiter and the connection socket supervisor.
- Everything that only formats or displays: React components, notices, translations, themes.
