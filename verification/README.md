# Warehouse receipts: a verified model of the backend

The backend keeps warehouse receipts (cases) on employees' carts (bundles). A planning
engine, the team lead and the employees write to one relational store; cases can be shared,
split, reported with problems, completed and booked. This project models that store, the
transactions on it and the protocols around it, and proves what every run keeps.

| file | what it models |
|---|---|
| `CaseStatus`, `Workflow` | the lifecycle graph, the checked transition and requests that do nothing else |
| `Database`, `StoreInvariant` | the rows, the store invariant, and each row-level write with its proof |
| `BundleMutations`, `Placement` | renumbering of items and route stops; how cases get into a bundle |
| `PackWindow`, `SelfPull` | packs of a bundle, what the employee sees, asking for more work |
| `Teamlead`, `Moves`, `SplitRequest`, `SharedAssignment` | the team lead's overrides |
| `PriorPlan`, `Planning` | clearing the day's plan and persisting any engine's new one |
| `EmployeeWork`, `Collaboration`, `LateInvitation` | the employee's requests; participants; invitations that come late |
| `Runs` | any sequence of all these requests |
| `CaseSplit`, `Apportionment` | the split allocator and the rounding of effort |
| `EventHash`, `EventChain`, `EventLog` | canonical text, hash chain, concurrent appends under the lock |
| `FinishGate` | position checks against guarded completion, statement by statement |
| `ZstLedger`, `ProblemLoop`, `PoolList` | completion bookings, the problem dialogue, the pool list |
| `Sorting`, `Options`, `Ids` | stable sorting and small shared types |

**The store invariant.** A non-cancelled case links to a bundle exactly when its item lies
in it. It has a bundle exactly while its status says that it lies on a cart. A completed
bundle links finished cases only. A shared case lies on a cart whose employee is its one
`inhaber`, always accepted; everybody else is a helper. An employee has at most one open
bundle per day. Route stops have distinct, non-negative numbers. The status history of a case
is a path of the lifecycle graph, and the completion time is there exactly when the case is
finished. That a case has at most one item and an employee at most one row per case is built
into the types: items are keyed by case, participants by case and employee.

**How to read the methods.** `Tables` is the database of a transaction. A method's `ensures`
give its whole new state as a function of the old one, or name the rows that may differ; a
refused request leaves every row as it was. Lemmas whose names end in `Means` or `When` say what
a notion of the model comes to on the columns of the rows, without using that notion. The
history of a case is kept by the model only.

Where the code does not do what one might expect, it is kept as it is and the exact condition
is proved:

- `unpark` and `approve` check nothing but the edge to `ready`. On an assigned case that edge
  exists, and the case stays linked to its cart.
- A receipt that arrives again under its number has its status rewritten, whatever has become of
  the case. These two are the only requests that break the store invariant.
- An appended case goes to number *item count*. It is last exactly when the numbers have no
  gaps upwards; clearing a plan leaves such gaps.
- Resuming a paused bundle always restores `assigned`, also where it was `active` before.
- A case moved into a drained pack in the middle of its cart stands at the very end.
- A comment in `event-hash.ts` says that the canonical text is independent of undefined versus
  missing properties. It is not; and an absent payload is hashed as null but stored as an empty
  object. The audit accepts a log exactly when no payload was absent and none had an undefined
  property.
- The last share of an apportioned effort can be negative: from four parts on, and from three when
  the last part has no goods.
- A booking cut by the case-wide cap keeps its idempotency key, so after a later recount with a
  higher total the same count is taken for a retry and the case stays underbooked.
- An invitation that is written after its case was moved to a colleague can make the old owner
  `inhaber` again.
- A shared case without any size line is booked for nobody, whatever its total quantity.
- Reverting a planned case keeps its fetched-goods tick; parking the rest of a cart clears it.

## Model

| member | source | states |
|---|---|---|
| CaseStatus.PathStays | apps/backend-api/src/workflow/case-status.ts:34-48 | A status history along the graph that enters a set no edge leaves ends in that set. |
| CaseStatus.PathNeverReturns | apps/backend-api/src/workflow/case-status.ts:34-54 | Along any history: terminal statuses are never left, finished work stays finished, started work never returns to the pool. |
| CaseStatus.EnteredFrom | apps/backend-api/src/workflow/case-status.ts:34-48 | The graph read backwards: from which statuses each one can be entered. |
| CaseStatus.TerminalIsSink | apps/backend-api/src/workflow/case-status.ts:50-61 | The three listed terminal statuses are exactly those without an outgoing edge. |
| Workflow.Transition | apps/backend-api/src/workflow/workflow.service.ts:63-138 | Missing case, stale version, illegal edge and failing guard each give their refusal and leave every row as it was; success writes status, version and the first completion time and nothing else. |
| Workflow.SecondOfTwoIsRefused | apps/backend-api/src/workflow/workflow.service.ts:72-98 | Of two requests that have seen the same version the second is refused. |
| StoreInvariant.TransitionKeepsInv | apps/backend-api/src/workflow/workflow.service.ts:76-98 | A status-only write along an edge keeps the store invariant if and only if both ends agree on lying on a cart. |
| Workflow.Release | apps/backend-api/src/cases/teamlead.service.ts:108-115 | `unpark` and `approve` keep the invariant if and only if the case was not assigned. |
| Workflow.ReleaseCanBreakTheLink | apps/backend-api/src/cases/teamlead.service.ts:108-115 | A concrete store in which releasing an assigned case leaves it `ready` and still linked. |
| Workflow.CompleteIntake | apps/backend-api/src/cases/teamlead.service.ts:368-424 | Missing case, a case that is not blocked and an unknown storage location are refused; otherwise it becomes ready exactly when no field is missing; invariant kept. |
| Workflow.Intake | apps/backend-api/src/prohandel/beleg-persist.ts:98-122 | An unknown receipt becomes a fresh case, a known one gets its status rewritten; the invariant survives if and only if the case is new, keeps its status, or may enter it from outside a cart. |
| Workflow.OverwriteKeepsInv | apps/backend-api/src/prohandel/beleg-persist.ts:118-122 | The rewrite of a known receipt keeps the invariant if and only if the status stays or follows an edge from outside a cart. |
| Workflow.ExportZst | apps/backend-api/src/cases/teamlead.service.ts:172-208 | Exactly the completed cases become exported, all others are untouched, and the count is theirs. |
| Workflow.ExportIsIdempotent | apps/backend-api/src/cases/teamlead.service.ts:164-171 | A second export changes nothing and finds no completed case. |
| StoreInvariant.InvariantSays | apps/backend-api/src/cases/teamlead.service.ts:1547-1718 | The definition unfolded for one case: bundle link and item agree, cart statuses have a bundle that is not completed, pool statuses have neither bundle nor participants, only helpers are invited, declined or removed. |
| StoreInvariant.UnlinkAllKeepsInv | apps/backend-api/src/cases/teamlead.service.ts:776-786 | Taking assigned cases off their carts (item, link, collaboration) keeps the invariant and rewrites no history. |
| StoreInvariant.UnlinkAllMeans | apps/backend-api/src/cases/cases.service.ts:430-455 | Who leaves a cart is ready, unlinked and alone, one version on; parking clears the tick for fetched goods, withdrawing and reverting keep it. |
| StoreInvariant.PlaceAllKeepsInv | apps/backend-api/src/cases/teamlead.service.ts:1698-1710 | Placing pool cases on an open bundle keeps the invariant. |
| StoreInvariant.PlaceAllMeans | apps/backend-api/src/cases/teamlead.service.ts:1680-1718 | Who is put on a cart is assigned and linked, one version on, with an item of the given pack and author; everybody else stays as they were. |
| StoreInvariant.RelinkKeepsInv | apps/backend-api/src/cases/teamlead.service.ts:1025-1051 | Moving an assigned case to another open bundle, collaboration dissolved, keeps the invariant. |
| StoreInvariant.CancelKeepsInv | apps/backend-api/src/cases/teamlead.service.ts:134-146 | Cancelling along a legal edge, unlinking and dissolving keeps the invariant although the item row stays. |
| StoreInvariant.SetBundleKeepsInv | apps/backend-api/src/cases/cases.service.ts:1523-1528 | A bundle may be completed only when every linked case is finished. |
| StoreInvariant.DeleteBundlesKeepsInv | apps/backend-api/src/assignment/assignment.service.ts:832-836 | Deleting bundles no case links to, with items and stops, leaves nothing dangling. |
| StoreInvariant.SetCrewKeepsInv | apps/backend-api/src/collaboration/collaboration.service.ts:203-273 | Participant rows may change as long as the cart owner stays the one accepted `inhaber`. |
| Runs.Serve | apps/backend-api/src/workflow/workflow.service.ts:63-138 | Every request is granted under its own condition with its own effect or changes nothing, and keeps the invariant, except exactly a release of an assigned case and a receipt that overwrites a case it must not. |
| Runs.Run | apps/backend-api/src/workflow/workflow.service.ts:63-138 | Any sequence of requests, for any engine, clock and guard: each store leads to the next by its request; the invariant holds to the end or up to the first such request, which is named. |
| Runs.RunFromScratch | apps/backend-api/src/workflow/case-status.ts:34-48 | The same from the empty database. |
| Runs.RunRespectsLifecycle | apps/backend-api/src/workflow/workflow.service.ts:76-98 | Between any two points of a run: histories are paths of the graph, terminal statuses stay, completion time is set once and present exactly when finished. |
| Runs.TraceRespectsLifecycle | apps/backend-api/src/workflow/workflow.service.ts:76-98 | The same for any two stores of a run's trace. |
| BundleMutations.ResequenceItems | apps/backend-api/src/cases/bundle-mutations.ts:15-26 | The item rows become those of the renumbering function. |
| BundleMutations.ResequencedIsGapless | apps/backend-api/src/cases/bundle-mutations.ts:15-26 | Renumbering all cases of a bundle numbers them 0, 1, 2, … in the given order and changes no other column. |
| BundleMutations.GaplessHasOneListing | apps/backend-api/src/cases/bundle-mutations.ts:4-10 | A gapless bundle, loaded by sequence, comes in one order only. |
| BundleMutations.PrimaryIsFirstServed | apps/backend-api/src/cases/bundle-mutations.ts:43-50 | A stop's rank is the first place in the order whose case it serves, or behind all places. |
| BundleMutations.RankStops | apps/backend-api/src/cases/bundle-mutations.ts:43-51 | Every stop once, by earliest case served, ties by old sequence. |
| BundleMutations.UpdateStopSequence | apps/backend-api/src/cases/bundle-mutations.ts:54-59 | A single row update; callers must show that no other row of the bundle has that number. |
| BundleMutations.ParkStops | apps/backend-api/src/cases/bundle-mutations.ts:54-56 | The first loop gives every stop a negative number of its own, through collision-free states only. |
| BundleMutations.SettleStops | apps/backend-api/src/cases/bundle-mutations.ts:57-59 | The second loop gives the final numbers, through collision-free states only. |
| BundleMutations.ResequenceRouteStops | apps/backend-api/src/cases/bundle-mutations.ts:33-60 | Afterwards the stops are numbered 0..n-1 by earliest case and old sequence; other bundles and columns unchanged. |
| BundleMutations.UnservedStopsAtTail | apps/backend-api/src/cases/bundle-mutations.ts:28-32 | Stops serving no listed case stand behind all others in their old order. |
| BundleMutations.StopsFollowIsDetermined | apps/backend-api/src/cases/bundle-mutations.ts:33-60 | Case order and old numbers determine the new numbers completely. |
| BundleMutations.ListingWithout | apps/backend-api/src/cases/teamlead.service.ts:788-790 | What remains when cases leave a bundle is listed in the old order. |
| PackWindow.LastPackIndexIsMaximum | apps/backend-api/src/cases/pack-window.ts:99-101 | The last pack index is the maximum, -1 for an empty bundle. |
| PackWindow.OrdinalCounts | apps/backend-api/src/cases/pack-window.ts:117-121 | The display position is one more than the number of existing packs in front, also for a drained pack. |
| PackWindow.OrdinalIsIncreasing | apps/backend-api/src/cases/pack-window.ts:103-121 | Existing packs are numbered upwards and inside 1..packCount. |
| PackWindow.OrdinalIsOnto | apps/backend-api/src/cases/pack-window.ts:103-121 | Every display position up to the count is taken by an existing pack. |
| PackWindow.ComputeWindow | apps/backend-api/src/cases/pack-window.ts:146-157 | The two lists are the active pack and the unfinished cases of earlier packs, in bundle order. |
| PackWindow.WindowPartitionsBundle | apps/backend-api/src/cases/pack-window.ts:143-157 | Active, carried-over, finished-earlier and future cases are the whole bundle, each case once. |
| PackWindow.NoBlockersMeansIdle | apps/backend-api/src/cases/pack-window.ts:82-93 | No blocker is left if and only if each case of the active pack is done, waits for the team lead, or is done for this employee. |
| PackWindow.NextPack | apps/backend-api/src/assignment/assignment.service.ts:565-567 | The smallest later pack that has cases. |
| PackWindow.AdvanceLosesNoWork | apps/backend-api/src/assignment/assignment.service.ts:548-567 | After advancing, visible unfinished cases stay visible, the new pack is shown and not empty, later packs stay hidden. |
| PackWindow.PackInsertPosition | apps/backend-api/src/cases/pack-window.ts:183-193 | Behind the last member of the pack, or at the end when it has none. |
| PackWindow.InsertKeepsPacksInOrder | apps/backend-api/src/cases/pack-window.ts:177-193 | Inserting there keeps packs in ascending order if and only if the pack has members or no pack is higher. |
| Placement.FindOrCreateBundle | apps/backend-api/src/cases/teamlead.service.ts:1547-1597 | Unknown and inactive employees are refused; otherwise the one open bundle of the day, new exactly when there was none. |
| Placement.OpenBundleIsUnique | apps/backend-api/src/assignment/assignment.service.ts:849-855 | The definition unfolded: an employee has at most one open bundle per day. |
| Placement.LastPack | apps/backend-api/src/cases/teamlead.service.ts:1695 | The last pack of a bundle, whatever order its items are loaded in. |
| Placement.JoinsPackMeans | apps/backend-api/src/cases/teamlead.service.ts:1694-1696 | A case appended without a wish joins the highest pack, and pack 0 of an empty bundle. |
| Placement.AppendCases | apps/backend-api/src/cases/teamlead.service.ts:1680-1718 | Cases get items numbered from the item count, in the asked or last pack, and become assigned; every insert hits a free key. |
| Placement.AddCases | apps/backend-api/src/cases/teamlead.service.ts:1626-1671 | Closed bundle, repeated id, missing or non-ready case: refused without a change; otherwise all are appended. |
| Placement.AppendedIsLast | apps/backend-api/src/cases/teamlead.service.ts:814-817 | An appended case is listed last if and only if no item has a number at or above the item count. |
| Placement.AppendKeepsGapless | apps/backend-api/src/cases/teamlead.service.ts:1696-1709 | Appending to a gapless bundle keeps it gapless, new cases behind old ones. |
| Planning.AppendedAfterClearComesFirst | apps/backend-api/src/cases/teamlead.service.ts:814-817 | A cart after a clear, fit for the invariant, on which every listing puts the case appended next in front. |
| Teamlead.Park | apps/backend-api/src/cases/teamlead.service.ts:92-106 | Only a ready case is parked; the dissolve behind it finds nothing to remove. |
| Teamlead.Cancel | apps/backend-api/src/cases/teamlead.service.ts:125-162 | Allowed from every status but the terminal ones and completed; the case leaves its bundle and loses all participants. |
| Teamlead.Withdraw | apps/backend-api/src/cases/teamlead.service.ts:755-810 | Only an assigned case of that bundle; it returns to the pool without participants, the rest is gapless in the old order, stops follow. |
| Teamlead.AddToBundle | apps/backend-api/src/cases/teamlead.service.ts:817-842 | One ready case is appended to an open bundle, otherwise nothing changes. |
| Teamlead.AssignToEmployee | apps/backend-api/src/cases/teamlead.service.ts:855-949 | All cases or none; into the open bundle of the day or a new one, which is not left behind on failure; `newPack` opens a pack behind the last. |
| Teamlead.PermutationMeansSameCases | apps/backend-api/src/cases/teamlead.service.ts:72-77 | The sort-and-compare test holds if and only if both lists hold the same ids as often. |
| Teamlead.Reorder | apps/backend-api/src/cases/teamlead.service.ts:1726-1756 | Accepted exactly for a rearrangement of the bundle's cases; then items and stops follow it. |
| Teamlead.SetBundleStatus | apps/backend-api/src/cases/teamlead.service.ts:1781-1808 | Only an open bundle changes, and only its status. |
| Teamlead.PauseResumeRoundTrip | apps/backend-api/src/cases/teamlead.service.ts:1768-1779 | Pause then resume gives back the same store if and only if the bundle was `assigned` before; an `active` one comes back as `assigned`. |
| Moves.CheckTarget | apps/backend-api/src/cases/teamlead.service.ts:986-1003 | A move needs an existing target pack, and inside the own cart a different one. |
| Moves.Reseat | apps/backend-api/src/cases/teamlead.service.ts:1009-1011 | The case is put right behind the last member of its pack, all others keep their order. |
| Moves.MoveWithin | apps/backend-api/src/cases/teamlead.service.ts:1005-1023 | Pack and author of the item change, sequences and stops follow; the case row and its collaboration do not change. |
| Moves.MovedWithinMeans | apps/backend-api/src/cases/teamlead.service.ts:1005-1023 | Row by row: the moved item changes pack and author, this cart's numbers follow the order, every other column of every table stays. |
| Moves.MoveAcross | apps/backend-api/src/cases/teamlead.service.ts:1024-1069 | Item and collaboration leave the source, which closes the gap; the case joins the target at the end or behind its pack. |
| Moves.MovedAcrossMeans | apps/backend-api/src/cases/teamlead.service.ts:1024-1069 | Row by row: only the moved case changes bundle, pack and author; source gapless, target gapless when a pack was given. |
| Moves.MoveCase | apps/backend-api/src/cases/teamlead.service.ts:957-1095 | When a move is done and when refused, for both forms; refusals leave everything as it was, also a bundle created on the way. |
| Moves.MoveWithinKeepsPacksInOrder | apps/backend-api/src/cases/teamlead.service.ts:1007-1020 | A move inside a cart keeps packs in order if and only if the target pack has another member or none is higher. |
| Moves.DrainedPackBreaksOrder | apps/backend-api/src/cases/teamlead.service.ts:1007-1020 | A cart fit for the invariant on which a move into a drained middle pack is accepted and leaves the packs out of order. |
| Teamlead.ResolveProblems | apps/backend-api/src/cases/teamlead.service.ts:704-716 | Only a case in `issue_open` goes back to its employee as resolved. |
| SharedAssignment.CreateCollaboration | apps/backend-api/src/cases/teamlead.service.ts:1335-1436 | Two or more active employees and a ready or parked case without bundle; the first becomes owner of cart and case, all have accepted. |
| SharedAssignment.CheckTeam | apps/backend-api/src/cases/teamlead.service.ts:1363-1372 | The first employee who is unknown or inactive decides the answer. |
| SharedAssignment.TeamIsActive | apps/backend-api/src/cases/teamlead.service.ts:1400-1416 | The created crew has exactly one owner and counts as shared at once. |
| SharedAssignment.SharedFromPool | apps/backend-api/src/cases/teamlead.service.ts:1349-1398 | Exactly ready and parked cases can be shared; a parked one becomes ready first, which changes no other column that counts. |
| SplitRequest.CheckSplit | apps/backend-api/src/cases/teamlead.service.ts:1127-1169 | Which splits are refused, before anything is written. |
| SplitRequest.SplitFromPool | apps/backend-api/src/cases/teamlead.service.ts:1127-1150 | Exactly ready and parked cases can be split that are no part of a split themselves. |
| SplitRequest.Divide | apps/backend-api/src/cases/teamlead.service.ts:1190-1289 | One child per part under the source, which becomes a container; invariant kept. |
| SplitRequest.AssignChildren | apps/backend-api/src/cases/teamlead.service.ts:1291-1299 | Each part goes to its wished employee's cart of the day, into its last pack, or stays ready; nothing else is touched. |
| SplitRequest.SplitCase | apps/backend-api/src/cases/teamlead.service.ts:1119-1324 | Done exactly under the stated conditions; parts follow the allocation, effort is apportioned to them and adds up to the original, every refusal changes nothing. |
| SplitRequest.SplitMeans | apps/backend-api/src/cases/teamlead.service.ts:1190-1299 | Children belong to the source, the source is terminal, no other case and no existing item changes. |
| CaseSplit.AllocateParts | apps/backend-api/src/cases/case-split.ts:69-131 | Each refusal exactly when it applies; otherwise the parts follow greedy cuts of the sorted line list, and no part holds a position number below one of an earlier part. |
| CaseSplit.LinesAreSorted | apps/backend-api/src/cases/case-split.ts:80-86 | The line list ascends by position number; the lines of one position ascend in the line order. |
| CaseSplit.PartsFollowShelf | apps/backend-api/src/cases/case-split.ts:80-128 | No line of a part has a higher position number than a line of a later part. |
| CaseSplit.CutIsDetermined | apps/backend-api/src/cases/case-split.ts:101-128 | The greedy rule leaves no choice: two cuts of the same lines are equal. |
| CaseSplit.PartsArePartition | apps/backend-api/src/cases/case-split.ts:80-130 | The parts read in turn are the sorted line list, lines whole, no part empty, all quantities sums of their lines. |
| CaseSplit.NoGoodsAreLost | apps/backend-api/src/cases/case-split.ts:80-130 | The parts together hold every size line of the case exactly once. |
| CaseSplit.PositionOncePerPart | apps/backend-api/src/cases/case-split.ts:106-117 | A source position appears at most once in a part. |
| CaseSplit.BelowTargetBeforeLastLine | apps/backend-api/src/cases/case-split.ts:121-127 | Every part but the last is below its target without its own last line. |
| CaseSplit.ShortPartLeavesSingles | apps/backend-api/src/cases/case-split.ts:120-127 | When a part misses its target, every later part has exactly one line. |
| CaseSplit.LastPartWithinTarget | apps/backend-api/src/cases/case-split.ts:101-128 | When the others reach their targets and the targets add up, the last part does not exceed its own. |
| CaseSplit.QuantitiesAddUp | apps/backend-api/src/cases/case-split.ts:21-22 | The parts' quantities add up to the quantity of the whole case. |
| Apportionment.Apportion | apps/backend-api/src/cases/teamlead.service.ts:1171-1189 | Rounded shares for all parts but the last, the rest for the last; the sum is exactly the original. |
| Apportionment.ShareIsNear | apps/backend-api/src/cases/teamlead.service.ts:1180-1182 | A rounded share is within half a hundredth of its exact proportion. |
| Apportionment.LastShareIsNear | apps/backend-api/src/cases/teamlead.service.ts:1176-1178 | The last of k shares is within (k-1)/2 hundredths of its exact proportion. |
| Apportionment.LastShareSign | apps/backend-api/src/cases/teamlead.service.ts:1176-1189 | The last share is not negative if and only if the others were rounded up by no more than its exact proportion. |
| Apportionment.OtherSharesAreNotNegative | apps/backend-api/src/cases/teamlead.service.ts:1180-1182 | The other shares of a non-negative effort are never negative. |
| Apportionment.LargeLastPartIsSafe | apps/backend-api/src/cases/teamlead.service.ts:1176-1189 | A last part whose exact proportion is at least half a hundredth per other part never gets a negative share. |
| Apportionment.ThreePartsAreSafe | apps/backend-api/src/cases/teamlead.service.ts:1176-1189 | With up to three parts, the last of three holding goods, no last share is negative. |
| Apportionment.LastShareCanBeNegative | apps/backend-api/src/cases/teamlead.service.ts:1176-1189 | Two hundredths over four equal parts leave minus one hundredth for the last. |
| Apportionment.EmptyLastPartCanBeNegative | apps/backend-api/src/cases/teamlead.service.ts:1176-1189 | One hundredth over three parts of 2, 2 and 0 leaves minus one hundredth for the last. |
| Collaboration.Dissolve | apps/backend-api/src/collaboration/participants.ts:70-100 | All rows of the case go, of this case only. |
| Collaboration.ToCollaborationDto | apps/backend-api/src/collaboration/participants.ts:137-159 | No participants, no result; otherwise each participant with exactly the positions they checked. |
| Collaboration.CountsAddUp | apps/backend-api/src/collaboration/participants.ts:141-158 | The participants' counts add up to the checked positions if and only if only participants checked. |
| Collaboration.ReadInvitation | apps/backend-api/src/collaboration/collaboration.service.ts:139-201 | Who may invite whom and when, and what the request takes along into its transaction. |
| Collaboration.WriteInvitation | apps/backend-api/src/collaboration/collaboration.service.ts:203-277 | On whatever store the transaction meets: which rows it inserts and revives; ownership survives if and only if an inserted owner still owns the cart and helpers are only inserted into a shared case. |
| Collaboration.Invite | apps/backend-api/src/collaboration/collaboration.service.ts:134-315 | Read and write with nothing in between: the owner row on the first invitation, newcomers and former participants become invited, everybody else stays as they are; invariant kept. |
| Collaboration.InvitedMeans | apps/backend-api/src/collaboration/collaboration.service.ts:203-277 | On the columns what an invitation writes: owner row, fresh rows, revived rows, and which rows stay. |
| LateInvitation.MovedInBetween | apps/backend-api/src/collaboration/collaboration.service.ts:139-277 | When the case is moved to another employee between read and write, ownership survives if and only if the late invitation writes nothing. |
| LateInvitation.OldOwnerComesBack | apps/backend-api/src/collaboration/collaboration.service.ts:203-226 | Two stores before and after a move in which the late invitation makes the old owner `inhaber` of a case on the colleague's cart. |
| Collaboration.InvitingAgainReachesNobody | apps/backend-api/src/collaboration/collaboration.service.ts:223-277 | Repeating an invitation changes nothing; no accepted or finished participation is ever undone. |
| Collaboration.Respond | apps/backend-api/src/collaboration/collaboration.service.ts:322-401 | Only the invited helper, once; accepting needs a case still on a cart and in work. |
| Collaboration.TakesPartWhen | apps/backend-api/src/cases/cases.service.ts:1543-1580 | On the columns who may work on a case: the cart's employee and everybody with an accepted or finished part. |
| Collaboration.AnswerDecides | apps/backend-api/src/collaboration/participants.ts:20-31 | A participant row in any status: its helper may work on the case if and only if accepted or part-done; nobody else's access changes. |
| Collaboration.SharedWhileOnCart | apps/backend-api/src/collaboration/collaboration.service.ts:30-38 | Answers are accepted while the case is on a cart and unfinished; only an open problem stops new invitations. |
| Collaboration.PartDone | apps/backend-api/src/collaboration/collaboration.service.ts:408-467 | Only an accepted participation of an unfinished case becomes part-done. |
| Collaboration.RemoveParticipant | apps/backend-api/src/cases/teamlead.service.ts:1465-1529 | Every row but the cart owner's and removed ones can be removed. |
| Collaboration.RemoveInviteAccept | apps/backend-api/src/collaboration/collaboration.service.ts:249-277 | Removing a helper, inviting again and accepting restores the store. |
| PriorPlan.LockedPacks | apps/backend-api/src/assignment/assignment.service.ts:777-796 | Per bundle the active pack when it was pulled or touched, else none; what counts as touched is stated on the columns by `PackInWorkStays` and `UntouchedPackReturns`. |
| PriorPlan.ClearPriorPlan | apps/backend-api/src/assignment/assignment.service.ts:755-837 | The store becomes the cleared one, in the transaction's order of deletes; invariant kept. |
| PriorPlan.ClearReturnsExactly | apps/backend-api/src/assignment/assignment.service.ts:797-822 | Exactly the engine-placed, assigned, unlocked cases of the day return to the pool; all others keep row and item. |
| PriorPlan.PackInWorkStays | apps/backend-api/src/assignment/assignment.service.ts:786-812 | One case of the active pack past `assigned`, or with fetched goods, or an active pack behind the first, and every case of that pack keeps row and item. |
| PriorPlan.UntouchedPackReturns | apps/backend-api/src/assignment/assignment.service.ts:786-812 | A first pack in which everything is assigned and nothing fetched returns each case the engine placed: ready, without link, item and participants, one version on. |
| PriorPlan.ReturnedWhen | apps/backend-api/src/assignment/assignment.service.ts:764-822 | On the columns: which cases of carts return, if and only if; all others keep row, item and participants. |
| PriorPlan.DeletedWhen | apps/backend-api/src/assignment/assignment.service.ts:824-836 | A bundle goes if and only if it is of the day and no case links to it after the reverting; its stops go with it, other rows stay. |
| PriorPlan.ClearIsIdempotent | apps/backend-api/src/assignment/assignment.service.ts:740-754 | Clearing twice is clearing once, for every store. |
| PriorPlan.LockSurvives | apps/backend-api/src/assignment/assignment.service.ts:786-796 | A bundle's pack is locked after the clear if and only if it was before. |
| PriorPlan.EveryBundleIsUsed | apps/backend-api/src/assignment/assignment.service.ts:824-836 | A bundle of the day survives only with a case linked to it. |
| PriorPlan.NothingDangles | apps/backend-api/src/assignment/assignment.service.ts:832-836 | No item, stop or case points to a deleted bundle. |
| PriorPlan.ProtectedOrReverted | apps/backend-api/src/assignment/assignment.service.ts:764-800 | A non-cancelled case on the day's carts is started, team-lead-placed or locked if and only if it is not reverted. |
| Planning.ExtendedStopsMeans | apps/backend-api/src/assignment/assignment.service.ts:983-1001 | Existing stops stay; new ones only at new locations under free numbers; every location of the cart is visited. |
| Planning.ExtendBundle | apps/backend-api/src/assignment/assignment.service.ts:960-1032 | The cart becomes a pack of its own behind all others, active only on a self-pull. |
| Planning.ExtendedMeans | apps/backend-api/src/assignment/assignment.service.ts:960-1032 | Case by case: planned cases get the numbers behind all items, the given pack and the engine as author; the active pack moves on a self-pull only; nothing else changes. |
| Planning.ExtendedVisits | apps/backend-api/src/assignment/assignment.service.ts:983-1001 | The old stops stay in front, and the cart visits exactly the old and the planned locations. |
| Planning.CreateBundle | apps/backend-api/src/assignment/assignment.service.ts:873-915 | A new bundle with the planned stops; its cases are numbered in the planned order and lie in pack 0, the active one. |
| Planning.CreatedMeans | apps/backend-api/src/assignment/assignment.service.ts:873-930 | Column by column: item i of a new cart is number i in pack 0 by the engine, the active pack is 0, the stops are the planned ones, cases are assigned to it, all else stays. |
| Planning.PersistBundle | apps/backend-api/src/assignment/assignment.service.ts:840-946 | An open bundle of the day is extended, otherwise a new one is created; planning never moves the active pack. |
| Planning.PersistAll | apps/backend-api/src/assignment/assignment.service.ts:252-260 | After the loop each employee's first cart starts a bundle as planned, further carts of the same employee follow in packs behind; everything that was there is unchanged. |
| Planning.PoolHasNoLeftovers | apps/backend-api/src/assignment/assignment.service.ts:192-204 | In a store that fits the invariant the extra deletion of pool items removes nothing. |
| Planning.Recalculate | apps/backend-api/src/assignment/assignment.service.ts:178-268 | For any engine: the cleared store plus new carts for employees without an open bundle, numbered and laid out as planned, the first pack active. |
| Planning.RecalculationSparesProtected | apps/backend-api/src/assignment/assignment.service.ts:764-800 | A started, team-lead-placed or locked case keeps status, bundle, item and pack. |
| Planning.RecalculationSparesPackInWork | apps/backend-api/src/assignment/assignment.service.ts:764-803 | For any engine, on the columns: every case of an active pack that is touched or was pulled comes through unchanged. |
| Planning.RecalculationAddsNothingToSurvivors | apps/backend-api/src/assignment/assignment.service.ts:206-219 | A bundle that survived the clear keeps row, items and stops. |
| SelfPull.CheckCart | apps/backend-api/src/assignment/assignment.service.ts:360-367 | Refused for an open case of the active pack first, then for shared work; both exactly when they apply. |
| SelfPull.ActivateNextPack | apps/backend-api/src/assignment/assignment.service.ts:559-587 | Only the active pack index changes, to the nearest later pack that has cases. |
| SelfPull.AssignNextBundle | apps/backend-api/src/assignment/assignment.service.ts:280-528 | Each refusal and the grant exactly when they apply, in order: skill, held pack, shared work; a planned pack before capacity and pool; the number of cases given, the new store, and of a first cart that every case is shown. |
| SelfPull.FirstCartIsShown | apps/backend-api/src/assignment/assignment.service.ts:885-893 | The employee sees every case of the first cart of the day. |
| SelfPull.LaterCartIsHidden | apps/backend-api/src/assignment/assignment.service.ts:865-870 | A further cart of one plan stays hidden until it is asked for. |
| SelfPull.HeldWhen | apps/backend-api/src/cases/pack-window.ts:82-93 | On the rows: a cart holds its employee if and only if a case of the active pack is not done, does not wait for the team lead, and is not handed over. |
| SelfPull.SharedWorkWhen | apps/backend-api/src/assignment/assignment.service.ts:536-547 | On the rows: shared work is an accepted part in a case that is assigned, in work or resolved. |
| SelfPull.AdvanceKeepsOpenWork | apps/backend-api/src/assignment/assignment.service.ts:548-587 | In the store: what was shown and unfinished stays shown, the new pack is shown, nothing behind it. |
| SelfPull.PulledPastNothingOpen | apps/backend-api/src/assignment/assignment.service.ts:341-363 | What a granted pull leaves in the old pack is done, waits for the team lead, or is handed over. |
| SelfPull.ExtensionIsShownAndLocked | apps/backend-api/src/assignment/assignment.service.ts:508-514 | A self-pulled pack on a cart that holds items is visible and protected from the next recalculation. |
| EmployeeWork.Work | apps/backend-api/src/cases/cases.service.ts:897-988 | Start, report, resume and complete: refused for strangers, for a case changed since it was seen, off the graph or by the guard; otherwise status and bundle follow. |
| EmployeeWork.AfterWorkMeans | apps/backend-api/src/cases/cases.service.ts:1494-1541 | On the columns: the case's status, version and completion time, and its bundle's status; completing closes an open bundle if and only if nothing else on it is to do. |
| EmployeeWork.ActivateBundle | apps/backend-api/src/cases/cases.service.ts:1494-1504 | An assigned bundle becomes active with its first started case, any other stays. |
| EmployeeWork.CloseBundleIfDone | apps/backend-api/src/cases/cases.service.ts:1511-1541 | An open bundle is completed exactly when all linked cases are done; invariant kept. |
| EmployeeWork.CloseIsIdempotent | apps/backend-api/src/cases/cases.service.ts:1506-1510 | Closing again changes nothing. |
| EmployeeWork.SetCollected | apps/backend-api/src/cases/cases.service.ts:492-534 | The owner ticks the case row, an active helper their own participant row, and nothing else changes. |
| EmployeeWork.CheckParkable | apps/backend-api/src/cases/cases.service.ts:411-422 | The first named case that is not in the bundle or was started decides between 404 and 409. |
| EmployeeWork.ParkRemaining | apps/backend-api/src/cases/cases.service.ts:394-475 | All named unstarted cases or none; they return to the pool without tick and participants, the rest is gapless in the old order. |
| EventHash.CanonTellsContent | apps/backend-api/src/events/event-hash.ts:16-36 | Two values have the same text if and only if they have the same content: any key order at any depth, undefined read as null. |
| EventHash.KeysAscend | apps/backend-api/src/events/event-hash.ts:23-36 | The text of an object lists its properties by ascending code units of their keys. |
| EventHash.TextIsReadOneWay | apps/backend-api/src/events/event-hash.ts:23-36 | A text followed by anything can be read back in one way only. |
| EventHash.UndefinedIsNotMissing | apps/backend-api/src/events/event-hash.ts:38-42 | A missing property and an undefined one give different texts, unlike the comment in the source says. |
| EventChain.ContentTellsEvents | apps/backend-api/src/events/event-hash.ts:43-55 | Two events have the same canonical content if and only if every field is equal and the payloads have the same content. |
| EventChain.VerifyChainLinks | apps/backend-api/src/events/event-hash.ts:81-95 | Accepts exactly the chains in which every link and hash fits, and otherwise reports the first that does not. |
| EventChain.SameLastHashSameHistory | apps/backend-api/src/events/event-hash.ts:54-95 | With an injective hash, two accepted chains with equal last hash agree in length and in every event. |
| EventChain.StorageKeepsContent | apps/backend-api/src/events/event-hash.ts:16-22 | JSON storage keeps a value's content if and only if no property in it is undefined. |
| EventChain.StoredHashFits | apps/backend-api/src/events/event-log.service.ts:75-90 | The stored payload gives the same hash if and only if the payload was present and had no undefined property. |
| EventLog.EventLog.Ask | apps/backend-api/src/events/event-log.service.ts:54-59 | A row with the same key, committed or own, ends the append; an empty key is not looked up. |
| EventLog.EventLog.Lock | apps/backend-api/src/events/event-log.service.ts:61-62 | Granted exactly when no other transaction holds the lock. |
| EventLog.EventLog.ReadLast | apps/backend-api/src/events/event-log.service.ts:64-65 | The hash to link to is that of the newest row the transaction sees. |
| EventLog.EventLog.Insert | apps/backend-api/src/events/event-log.service.ts:79-95 | The row continues the chain under a fresh number; a repeated key ends the transaction. |
| EventLog.EventLog.Commit | apps/backend-api/src/events/event-log.service.ts:48-51 | Own rows join the log at its end and the lock is free. |
| EventLog.EventLog.Run | apps/backend-api/src/events/event-log.service.ts:48-109 | Every schedule of statements of any transactions is carried out statement by statement, keeps the log invariant and only appends. |
| EventLog.AppendAddsOneRow | apps/backend-api/src/events/event-log.service.ts:48-109 | An append with a new key adds exactly one row: next number, linked to the newest row, hashed over link and event. |
| EventLog.RepeatedAppendAddsNothing | apps/backend-api/src/events/event-log.service.ts:52-59 | An append whose key is taken leaves the log as it was. |
| EventLog.CommittedIsOneChain | apps/backend-api/src/events/event-log.service.ts:61-90 | Committed rows by number are one accepted chain, each key once. |
| EventLog.EndKeepsInv | apps/backend-api/src/events/event-log.service.ts:48-51 | A rolled back transaction leaves gaps in the numbers and none in the chain. |
| EventLog.VerifyIntegrity | apps/backend-api/src/events/event-log.service.ts:112-138 | The audit of any prefix accepts if and only if storage kept every payload, and else names the first row whose payload it did not keep. |
| ZstLedger.BookingIsCapped | apps/backend-api/src/cases/cases.service.ts:1455-1466 | A booking never lifts the case above the given counted total nor an employee above their count. |
| ZstLedger.RetryBooksNothing | apps/backend-api/src/cases/cases.service.ts:1452-1466 | Repeating a booking, now or after others, books nothing. |
| ZstLedger.RepeatedCompletionBooksNothing | apps/backend-api/src/cases/cases.service.ts:1386-1432 | Repeating a whole completion, now or later, books nothing. |
| ZstLedger.ConfirmedIsEffective | apps/backend-api/src/cases/cases.service.ts:1226-1257 | What a completion counts is what is stored afterwards, line by line and in sum. |
| ZstLedger.ResolveCounts | apps/backend-api/src/cases/cases.service.ts:1206-1257 | An unknown line is refused; otherwise the counted total, which for an uncounted case is the sum of the expected quantities; without lines the fallback counts. |
| ZstLedger.CountedLineByLine | apps/backend-api/src/cases/cases.service.ts:1226-1257 | On the columns: each line counts with the request's value, else the stored count, else the expected quantity. |
| ZstLedger.NothingCountedYet | apps/backend-api/src/cases/cases.service.ts:1232-1238 | Where nothing has been counted the expected quantities count. |
| ZstLedger.CheckedLineByLine | apps/backend-api/src/cases/cases.service.ts:1399-1423 | On the columns: a checker counts for exactly the lines of the positions they checked, stored count or expected quantity. |
| ZstLedger.FirstOwnCompletion | apps/backend-api/src/cases/cases.service.ts:1386-1397 | The first completion of an uncounted, unshared case books exactly the expected sum for the one who completes. |
| ZstLedger.PositionsHoldEverything | apps/backend-api/src/cases/cases.service.ts:1399-1423 | Checked and unchecked positions together hold the whole counted quantity. |
| ZstLedger.CountByEmployee | apps/backend-api/src/cases/cases.service.ts:1399-1423 | Every checker once, with the sum over the positions they checked. |
| ZstLedger.Ledger.WriteZst | apps/backend-api/src/cases/cases.service.ts:1440-1491 | The ledger grows by the capped difference, or not at all. |
| ZstLedger.Ledger.WriteForCompletion | apps/backend-api/src/cases/cases.service.ts:1386-1432 | Shared cases book per checker, others for the one who completes, the first time all that was counted. |
| ZstLedger.FirstSharedCompletion | apps/backend-api/src/cases/cases.service.ts:1376-1432 | The first shared completion books each checker exactly their own positions, and the case completely if and only if unchecked positions hold nothing and there is a size line (or nothing to count). |
| ZstLedger.NeverAbovePeak | apps/backend-api/src/cases/cases.service.ts:1434-1466 | Over any completions a case is never booked above the largest counted total. |
| ZstLedger.SingleWorkerBooksPeak | apps/backend-api/src/cases/cases.service.ts:1434-1466 | A single worker is booked the largest total they ever counted. |
| ZstLedger.CompletionBooks | apps/backend-api/src/cases/cases.service.ts:1386-1466 | The booked total after any completion: what was booked plus what is still wanted, up to the counted total, never less than before. |
| ZstLedger.CompletelyBookedWhen | apps/backend-api/src/cases/cases.service.ts:1434-1466 | A completion books the case completely if and only if what is booked is at most the counted total and what is still wanted reaches it. |
| ZstLedger.RoomForEverybody | apps/backend-api/src/cases/cases.service.ts:1434-1466 | Where the total does not cut, everybody gets exactly what they still want. |
| ZstLedger.OpenTallyIsBooked | apps/backend-api/src/cases/cases.service.ts:1434-1466 | At any completion: with no key used up and all bookings on its checkers, a full count is booked completely. |
| ZstLedger.CappedKeyBlocksTheRest | apps/backend-api/src/cases/cases.service.ts:1452-1466 | Three rounds of positions and counts after which eight pieces are counted and checked and only five are booked, because both keys are used up. |
| ProblemLoop.DeriveImplicitProblems | apps/backend-api/src/modules/issue/derive-problems.ts:32-55 | Exactly the deviating lines, each kind at most once per line. |
| ProblemLoop.UnreportedAre | apps/backend-api/src/cases/cases.service.ts:1266-1281 | The deviations not yet reported, each once. |
| ProblemLoop.CaseProblems.PartialComplete | apps/backend-api/src/cases/cases.service.ts:998-1110 | Needs something new to report and a legal edge; then every manual problem and every deviation without an issue gets a fresh one, and the case is in `issue_open`. |
| ProblemLoop.EveryDeviationHasIssue | apps/backend-api/src/modules/issue/derive-problems.ts:32-55 | Where nothing is unreported, each line over, under or off the label price has an issue of that kind. |
| ProblemLoop.CaseProblems.Complete | apps/backend-api/src/cases/cases.service.ts:914-975 | Only from in-progress, with no open issue and no unreported deviation. |
| ProblemLoop.CaseProblems.SendInstruction | apps/backend-api/src/cases/teamlead.service.ts:660-745 | Answers one open issue; the case is resolved exactly when it was the last one. |
| ProblemLoop.CaseProblems.ReopenIssue | apps/backend-api/src/cases/cases.service.ts:1130-1198 | Only an instructed issue of a case in work; issue and case are open again. |
| ProblemLoop.CaseProblems.Run | apps/backend-api/src/cases/cases.service.ts:998-1198 | Any actions: each is granted under its condition with its effect or changes nothing, and the loop invariant holds in between. |
| ProblemLoop.LoopInvSays | apps/backend-api/src/cases/cases.service.ts:998-1198 | The loop invariant on the columns: issue_open exactly with an open issue, every history meldung (instruktion rueckmeldung)* with an optional last instruktion, each derived problem once. |
| FinishGate.QuietCaseFits | apps/backend-api/src/cases/cases.service.ts:546-556 | A case without running transactions is a start of any schedule. |
| FinishGate.StepKeepsInv | apps/backend-api/src/cases/cases.service.ts:546-614 | Each statement of any transaction keeps the row-lock invariant. |
| FinishGate.WriterCommitKeepsInv | apps/backend-api/src/cases/cases.service.ts:536-556 | A check is never committed on a case that passed the gate, nor behind a guard that has just passed. |
| FinishGate.GuardHoldsAtCommit | apps/backend-api/src/cases/cases.service.ts:1098-1110 | At the commit of a guarded transition every unchecked position is an excepted one: a problem position after a partial completion, none after a full one. |
| FinishGate.FinishGateHolds | apps/backend-api/src/cases/cases.service.ts:952-973 | For every interleaving: a guard-completed case has all positions checked, and its checks stay fixed; that checked cases do complete is `CheckedCaseCompletes`. |
| FinishGate.GuardDecides | apps/backend-api/src/cases/cases.service.ts:959-973 | The guard passes if and only if every unchecked position is excepted, and otherwise ends the transaction with the row unchanged. |
| FinishGate.AloneGuardDecides | apps/backend-api/src/cases/cases.service.ts:1087-1110 | A guarded change with nobody else at the case: done if and only if there is an edge and every unchecked position is excepted; else no trace; checks never change. |
| FinishGate.CheckedCaseCompletes | apps/backend-api/src/cases/cases.service.ts:952-973 | A fully checked case in progress ends completed, gated, one version on, with its checks as they were. |
| FinishGate.AloneWriterWrites | apps/backend-api/src/cases/cases.service.ts:546-614 | A check is written if and only if the case is in progress. |
| FinishGate.MeetingAtTheRow | apps/backend-api/src/cases/cases.service.ts:536-556 | Who meets the row lock waits; a transition that has read an older version ends. |
| FinishGate.CheckBeforehandIsOvertaken | apps/backend-api/src/cases/cases.service.ts:944-951 | A schedule in which a completion without the inner guard ends with an unchecked position. |
| PoolList.OrderPool | apps/backend-api/src/cases/teamlead-read.service.ts:326-352 | The ids stand in the group-adjacent order of their rows. |
| PoolList.FamilyIsContiguous | apps/backend-api/src/cases/teamlead-read.service.ts:326-352 | Between a split container and its parts stands nothing but their family, whatever deliveries were detected for them. |
| PoolList.ListIsPermutation | apps/backend-api/src/cases/teamlead-read.service.ts:350-352 | Every row once. |
| PoolList.GroupsAreContiguous | apps/backend-api/src/cases/teamlead-read.service.ts:320-325 | A family or delivery is one contiguous block. |
| PoolList.BlocksStandByFirstMember | apps/backend-api/src/cases/teamlead-read.service.ts:320-325 | Members keep their sorted order; blocks and single rows stand in the order of their first row. |
| PoolList.OrderIsDetermined | apps/backend-api/src/cases/teamlead-read.service.ts:326-352 | There is only one such order. |
| PoolList.PagesConcatenate | apps/backend-api/src/cases/teamlead-read.service.ts:353 | The pages in turn are the list, without gap or repeat. |

## Left out

- The planning engine, delivery-group detection and the effort formula: any function that
  returns pool cases, each once, for employees it was given; groups and shift facts are parameters.
- Planned effort of bundles and effort points of bookings: sums over fields no property here uses.
- Interleavings of the disposition transactions: each request is one step. Reads the services
  make just before their transaction belong to that step, except for an invitation and the version
  an employee's request has seen; the event log and the finish gate are modelled statement by statement.
- Two short transactions in a row (park and dissolve, complete and close the bundle, instruct and
  resolve) are one step.
- EmployeeWork.ParkRemaining: the bundle that was updated last is a parameter, because update times are no column of the model.
- SelfPull.AssignNextBundle: skill tier, large open cases, shift, capacity and time left are two given answers.
- Runs.Run: a run is followed up to the first request that breaks the invariant, not beyond it.
- ZstLedger.FirstSharedCompletion: stated for the first completion; `CompletelyBookedWhen` covers every later one.
- FinishGate.FinishGateHolds: one case row and its positions; counting of size lines takes the same share lock and is not repeated.
- EventHash.CanonTellsContent: text is a sequence of tokens; escaping of strings, spelling of numbers and sha256 are assumed injective.
- Apportionment.Apportion: effort is counted in whole hundredths; binary floating point is not modelled.
- CaseSplit.AllocateParts: the order of size lines (`localeCompare` on EAN and size) is a parameter.
- Whether dates, labels, audit texts and live messages are right; what a receipt says beyond its number and status.
- Priority and attention flags, forwarding, holding deliveries: they write no column of the model.
- Controllers, login, user interface, administration, search, KPI tiles, the ERP mock.
