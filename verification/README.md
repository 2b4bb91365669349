# EquipCare: the maintenance, SLA, approval and stock core in Dafny

This project models the parts of EquipCare whose correctness depends on more than one
statement, and proves what they promise. `dafny verify dfyconfig.toml` checks all of it.

| file | models |
|---|---|
| `Outcomes`, `Shared` | results, options, shared enumerations |
| `Calendar` | `advanceDueOn`: day and month steps with the end-of-month clamp |
| `SchedulerProtocol` | ticks, pauses, resumes, edits and crashes as small interleaved steps |
| `MaintenancePlans` | the plan service whose edits race with the ticks |
| `SchedulerTick`, `SchedulerService` | the tick loop by loop, and its effect plan by plan |
| `SchedulerProgress` | what a surviving tick achieves, and when a paused plan is stuck for good |
| `CatchUp` | repeated ticks at a fixed clock: which occurrences exist in the end |
| `OccurrenceWork` | occurrences and the work orders generated for them |
| `Sla`, `SlaTimeline` | the SLA engine and the dashboard's second computation of the same time |
| `WorkOrders` | work order transitions under optimistic locking |
| `Approvals`, `ApprovalRuns` | approvals: the operations, and all interleavings of them |
| `Stock`, `StockRequests`, `StockLedger` | stock transactions, when each is accepted, and what every sequence of them keeps |
| `IssueGate` | work orders, approvals and stock as one system |
| `SecondRound` | what a SUBMITTED approval says about its work order |
| `Csv`, `Locations`, `AiRetry` | the CSV writer, the location forest, the AI retry loop |

How the code is read:

- A method that reads and later updates `where: { id, row_version }` is two phases. The second
  phase takes the snapshot of the first as an argument, so anything may have happened in between.
  `$transaction` bodies and all other service methods are single steps. A tick is broken into
  listing, lookup, creation, advance and crash; where it and the skip request meet the work orders,
  every write comes later than the reads it relies on.
- Objects that services update are classes whose methods are tied to a function of the old state.
  The theorems are about those functions and about runs built from them. The scheduler's methods
  also prove that an undisturbed tick is one of the protocol's runs.
- Decimal(18,3) quantities are integer thousandths. Instants are integer milliseconds. Due dates
  are days, with a day number for every (month, day). Clock readings, identifiers and the outcomes
  of AI calls are parameters.

Where the code differs from what it or its documentation says, the code is modelled, and a lemma
says exactly when the promise holds:

- `unionDuration` reads the first element of a list its filter may have emptied. The model returns
  that error exactly when the input is not empty and no interval is positive.
- RETURN rows carry no revision, so the budget check deducts nothing, although
  `IMPLEMENTATION_PLAN.md:232` describes a net rule (`GrossCheckIsNetRuleIffNothingReturned`).
- A RECEIPT may be negative (`SignedLedgerIffReceiptsPositive`).
- `updateDraft` and the cancellation cascade write without comparing versions
  (`FrozenIffEditsAreHarmless`, `HistoryIsPathIffCascadesAreTimely`).
- Ticks and skips write on what they have read: a late tick can generate a second order for an
  occurrence or complete one that was skipped meanwhile (`GoodIffWritesAreFresh`).
- A paused plan whose due date already has an occurrence never moves again until it is edited
  (`PausedPlanIsStuckIff`).
- `isTerminal` calls APPROVED terminal while the table lets it go on (`TerminalExceptApproved`).
- Only self-parenting is refused for locations, so a longer cycle can hide rows
  (`MoveKeepsForestIff`).
- A one-column CSV whose last cell is empty loses that line when read back (`CsvRoundTrip`).
- The budget query names a column `approval_revision_id` that `approval_revision_parts` does not
  have in the schema (`revision_id`); the model takes the lines of the revision, as meant. No
  service writes these part lists, and without them every issue of a part that requires approval is
  refused (`NoPartListsNoGatedIssues`).
- `updateDraft` resets a cost that the request does not name to 0.
- A pause of no length makes the SLA status fail (`InstantPauseIsAnError`).
- A submitted approval need not mean a waiting work order: `enterWaitingApproval` does nothing once
  any start note exists, and `performAction` never looks at the order's status
  (`SubmittedWaitsIff`). A user's own transition of the order can end the wait too.

## Model

| member | source | states |
|---|---|---|
| Calendar.AdvanceDueOn | packages/backend-core/src/maintenance/maintenance.domain.ts:60-89 | fails exactly for a non-positive interval; otherwise the next date is real and strictly later, for day- and month-based units alike |
| Calendar.DayNumberRoundTrip | packages/backend-core/src/maintenance/maintenance.domain.ts:60-89 | dates and day numbers correspond one to one, so all units are compared on one day count |
| Calendar.YearStartClosedForm | packages/backend-core/src/maintenance/maintenance.domain.ts:79-84 | the month table starts every year on the day the Gregorian leap-year rule gives |
| Calendar.AdvancePreservesOrder | packages/backend-core/src/maintenance/maintenance.domain.ts:60-89 | advancing two dates by one interval never swaps them; days and weeks also keep them apart |
| Calendar.DayStepsClosedForm | packages/backend-core/src/maintenance/maintenance.domain.ts:70-75 | k day- or week-based steps are exactly k times 1 or 7 times the interval in days |
| Calendar.MonthStepsClosedForm | packages/backend-core/src/maintenance/maintenance.domain.ts:76-84 | k month-based steps land on the start month plus k steps, on the minimum of the start day and of the lengths of all months visited, never before the 28th |
| SchedulerProtocol.StepKeepsInv | packages/backend-core/src/maintenance/scheduler.tick.ts:48-131 | every step, crashes and edits included, keeps: snapshots no newer than the plan, every snapshot's date still due or left behind with its occurrence, only selected and due rows worked on, an occurrence behind every pending advance, the unique key |
| SchedulerProtocol.RunKeepsInv | packages/backend-core/src/maintenance/scheduler.tick.ts:48-131 | the same for every state of every run |
| SchedulerProtocol.AdvanceIsCurrent | packages/backend-core/src/maintenance/scheduler.tick.ts:81-92 | a due date only changes by one advance with the interval stored at commit, to a later date, and the date left behind has its occurrence |
| SchedulerProtocol.DateLeftBehindHasOneOccurrence | packages/backend-core/src/maintenance/scheduler.tick.ts:52-131 | every date a plan has ever left behind has exactly one occurrence from then on, in any interleaving |
| SchedulerProtocol.NoTwoOccurrencesForOneDate | packages/backend-core/src/maintenance/scheduler.tick.ts:56-79 | no plan ever has two occurrences for one date |
| SchedulerProtocol.OccurrenceDateWasDue | packages/backend-core/src/maintenance/scheduler.tick.ts:54-79 | every occurrence's date was once its plan's due date |
| SchedulerProtocol.DueDateNeverGoesBack | packages/backend-core/src/maintenance/scheduler.tick.ts:81-92 | a plan's due date is monotone over every run |
| SchedulerProtocol.EachVersionIsWrittenOnce | apps/api/src/modules/maintenance-plan/maintenance-plan.service.ts:90-162 | no lost update: any two writes to a plan, by ticks or by edits, find different versions stored |
| SchedulerProgress.SurvivorMovesPlan | packages/backend-core/src/maintenance/scheduler.tick.ts:52-131 | in any interleaving, once a tick that is still alive no longer lists a row, the plan has left the row's date behind, unless it was not due or the second pass found its occurrence |
| SchedulerProgress.StuckPlanNeverMoves | packages/backend-core/src/maintenance/scheduler.tick.ts:98-131 | a paused plan whose due date has its occurrence, with no tick about to advance it, stays exactly as it is in every later state until somebody edits it |
| SchedulerProgress.PausedPlanIsStuckIff | packages/backend-core/src/maintenance/scheduler.tick.ts:98-131 | in every reachable state: no continuation without an edit moves a paused plan exactly when its due date has an occurrence and no tick is about to advance it |
| SchedulerProgress.CrashThenPauseSticks | packages/backend-core/src/maintenance/scheduler.tick.ts:59-92 | a run that ends stuck: a tick crashes between creating and advancing, then the plan is paused |
| MaintenancePlans.PlanTable.Create | apps/api/src/modules/maintenance-plan/maintenance-plan.service.ts:37-51 | a plan is stored active, at version 1 and due on its start date, exactly when its asset exists |
| MaintenancePlans.PlanTable.Read | apps/api/src/modules/maintenance-plan/maintenance-plan.service.ts:91 | unless somebody writes in between, an edit based on this read is refused only if the plan does not exist |
| MaintenancePlans.PlanTable.UpdatePlan | apps/api/src/modules/maintenance-plan/maintenance-plan.service.ts:90-109 | commits the patch only on the version read and, if named, expected; otherwise fails and changes nothing |
| MaintenancePlans.PlanTable.PausePlan | apps/api/src/modules/maintenance-plan/maintenance-plan.service.ts:125-133 | pauses on the version read; a paused plan is left alone |
| MaintenancePlans.PlanTable.ResumePlan | apps/api/src/modules/maintenance-plan/maintenance-plan.service.ts:145-153 | resumes on the version read; an active plan is left alone |
| MaintenancePlans.UpdateIsAcceptedIff | apps/api/src/modules/maintenance-plan/maintenance-plan.service.ts:90-109 | an update is accepted exactly when the plan was read, the version the caller names, if any, is the one read, and the version read is still stored |
| MaintenancePlans.UpdateSetsNamedFields | apps/api/src/modules/maintenance-plan/maintenance-plan.service.ts:90-109 | it writes exactly the named fields, one version on, and no other plan |
| MaintenancePlans.EditIsProtocolStep | apps/api/src/modules/maintenance-plan/maintenance-plan.service.ts:90-162 | every accepted edit is a step of the scheduler protocol or writes nothing |
| MaintenancePlans.OneWriterPerRead | apps/api/src/modules/maintenance-plan/maintenance-plan.service.ts:105-108 | of two writing edits based on one read, the second fails |
| MaintenancePlans.PauseThenResume | apps/api/src/modules/maintenance-plan/maintenance-plan.service.ts:125-162 | pause and resume on fresh reads change nothing but the version, by two |
| SchedulerTick.NewStatusTellsDueDay | packages/backend-core/src/maintenance/scheduler.tick.ts:59-117 | a tick's new occurrence is PLANNED exactly when due today, OVERDUE when due earlier, SKIPPED when its plan is paused, and its plan has moved past it |
| SchedulerTick.PassesMakeTick | packages/backend-core/src/maintenance/scheduler.tick.ts:48-131 | the two passes together move every due plan by its own rule, judged against the occurrences before the tick, and touch nothing else |
| SchedulerTick.ActiveRow | packages/backend-core/src/maintenance/scheduler.tick.ts:52-93 | one round of the first loop has the stated effect and is a sequence of protocol steps |
| SchedulerTick.PausedRow | packages/backend-core/src/maintenance/scheduler.tick.ts:98-131 | the same for the second loop |
| SchedulerTick.ActivePassCounts | packages/backend-core/src/maintenance/scheduler.tick.ts:48-93 | the first loop creates one occurrence for each active, fixed-basis, due plan that had none for its due date |
| SchedulerTick.PausedPassCounts | packages/backend-core/src/maintenance/scheduler.tick.ts:95-131 | the second loop creates one for each paused, due plan that had none |
| SchedulerService.Scheduler.ListPlans | packages/backend-core/src/maintenance/scheduler.tick.ts:48-50 | each matching plan is listed once with its stored row |
| SchedulerService.Scheduler.FindOccurrence | packages/backend-core/src/maintenance/scheduler.tick.ts:56-58 | the search returns a row exactly when the date has an occurrence, and under the unique key it is the only one |
| SchedulerService.Scheduler.RunActivePass | packages/backend-core/src/maintenance/scheduler.tick.ts:48-93 | due fixed-basis plans get an occurrence if missing and move on; both counters are exact |
| SchedulerService.Scheduler.RunPausedPass | packages/backend-core/src/maintenance/scheduler.tick.ts:95-131 | due paused plans move on only together with a new SKIPPED occurrence |
| SchedulerService.Scheduler.RunPlanPasses | packages/backend-core/src/maintenance/scheduler.tick.ts:48-131 | the plan part of a tick: its effect on every plan, the protocol run that it is, and each counter on its own: created are the active, fixed-basis, due plans without an occurrence for their due date, skipped the paused, due ones |
| SchedulerService.Scheduler.GenerateWorkOrders | packages/backend-core/src/maintenance/scheduler.tick.ts:133-198 | generates for exactly the occurrences listed as pending that have no open order |
| SchedulerService.Scheduler.CompleteOccurrences | packages/backend-core/src/maintenance/scheduler.tick.ts:200-214 | completes exactly the listed occurrences whose newest order is COMPLETED |
| SchedulerService.Scheduler.RunSchedulerTick | packages/backend-core/src/maintenance/scheduler.tick.ts:40-222 | the whole tick: effect per plan, refinement of the protocol, each of the four counters on its own, sound orders stay sound, and row by row: one NEW order for each pending occurrence, COMPLETED where the newest order is, nothing else |
| SchedulerService.Scheduler.Skip | apps/api/src/modules/maintenance-plan/maintenance-occurrence.controller.ts:55-75 | skips unless missing or COMPLETED |
| SchedulerService.Scheduler.CancelMaintenanceOrder | apps/api/src/modules/work-order/work-order.service.ts:697-721 | a cancelled maintenance order skips its occurrence unless that is finished |
| SchedulerService.NewOccurrencesKeepSound | packages/backend-core/src/maintenance/scheduler.tick.ts:59-79 | what the passes add is pending or, from the paused pass, skipped, and keeps the order promises |
| CatchUp.StepKeepsInv | packages/backend-core/src/maintenance/scheduler.tick.ts:48-131 | while nobody edits a plan and no clock runs ahead, its version counts its advances and its new occurrences are dates of its schedule, whatever snapshots the ticks hold |
| CatchUp.UpToDatePlanHasExactlyItsSchedule | packages/backend-core/src/maintenance/scheduler.tick.ts:52-93 | from any reachable state, ticks in flight included, and in any interleaving with crashes: an unedited plan that has come up to date has exactly the earlier occurrences and the dates advance^k(start) up to today |
| CatchUp.SurvivorServesPlan | packages/backend-core/src/maintenance/scheduler.tick.ts:52-93 | a tick that lists a due active plan and survives its first pass, in any interleaving, has moved it on |
| CatchUp.SoleTickRunsThrough | packages/backend-core/src/maintenance/scheduler.tick.ts:40-131 | what the tick method guarantees is a surviving tick in the sense of the next row |
| CatchUp.RepeatedTicksCatchUp | packages/backend-core/src/maintenance/scheduler.tick.ts:52-93 | from any reachable state an unedited active fixed plan is up to date, with exactly its schedule, after as many surviving ticks as days from its due date through today, whatever interleaves with them or crashes |
| OccurrenceWork.GenerateKeepsSound | packages/backend-core/src/maintenance/scheduler.tick.ts:140-187 | generating for a pending occurrence creates its only order and keeps all promises |
| OccurrenceWork.GenerateAllEffect | packages/backend-core/src/maintenance/scheduler.tick.ts:133-198 | an undisturbed tick gives each pending occurrence exactly one new order and changes no other |
| OccurrenceWork.FinishAllEffect | packages/backend-core/src/maintenance/scheduler.tick.ts:200-214 | exactly the listed occurrences whose newest order is COMPLETED become COMPLETED |
| OccurrenceWork.GeneratesIffAllClosed | packages/backend-core/src/maintenance/scheduler.tick.ts:140-187 | generating creates an order exactly when every order of the occurrence is closed |
| OccurrenceWork.LatestIsNewest | packages/backend-core/src/maintenance/scheduler.tick.ts:203-214 | the order looked up is the last one of the occurrence |
| OccurrenceWork.OrderPassesEffect | packages/backend-core/src/maintenance/scheduler.tick.ts:133-214 | the two order loops, row by row: PLANNED and OVERDUE become IN_PROGRESS with one NEW order each, IN_PROGRESS becomes COMPLETED where the newest order is |
| OccurrenceWork.SkipIsAcceptedIff | apps/api/src/modules/maintenance-plan/maintenance-occurrence.controller.ts:55-75 | a skip is accepted exactly for an existing occurrence that is not COMPLETED, and changes that one only |
| OccurrenceWork.FinishKeepsSound | packages/backend-core/src/maintenance/scheduler.tick.ts:203-214 | completing an occurrence that has not been skipped keeps the promises; the write does not look at its status |
| OccurrenceWork.SkipKeepsSound | apps/api/src/modules/maintenance-plan/maintenance-occurrence.controller.ts:55-75 | so does skipping one that has not been completed |
| OccurrenceWork.CancelKeepsSound | apps/api/src/modules/work-order/work-order.service.ts:697-721 | so does cancelling an order: CANCELLED means SKIPPED |
| OccurrenceWork.MoveKeepsSound | apps/api/src/modules/work-order/work-order.service.ts:203-276 | so does any other progress of an order |
| OccurrenceWork.StepKeepsAlways | packages/backend-core/src/maintenance/scheduler.tick.ts:133-214 | every step, however late its write: a pending occurrence has no order, of two orders of an occurrence the older is closed, COMPLETED is backed by a COMPLETED order, what the paused pass created has none |
| OccurrenceWork.FreshStepKeepsSound | packages/backend-core/src/maintenance/scheduler.tick.ts:133-214 | a fresh write moreover keeps one order per occurrence at most, CANCELLED orders on SKIPPED occurrences only, and finished occurrences as they are |
| OccurrenceWork.StaleWriteBreaks | packages/backend-core/src/maintenance/scheduler.tick.ts:140-214 | a write that comes too late always breaks one of these: generating for what is no longer pending, completing what was skipped, skipping what was completed |
| OccurrenceWork.PendingHasNoOrder | packages/backend-core/src/maintenance/scheduler.tick.ts:133-198 | in every run, however it interleaves, PLANNED and OVERDUE occurrences have no order |
| OccurrenceWork.AtMostOneOpenOrder | packages/backend-core/src/maintenance/scheduler.tick.ts:140-187 | in every run no occurrence has two open orders, and a COMPLETED one has a COMPLETED order |
| OccurrenceWork.GoodIffWritesAreFresh | packages/backend-core/src/maintenance/scheduler.tick.ts:133-214 | over whole runs: one order per occurrence at most, CANCELLED means SKIPPED, and SKIPPED and COMPLETED are final, exactly when every write of ticks and skips still finds what its reader relied on |
| OccurrenceWork.PausedOccurrenceNeverGetsOrder | packages/backend-core/src/maintenance/scheduler.tick.ts:95-131 | in every run, stale writes included, what the paused pass created stays SKIPPED and without order, even after resume |
| OccurrenceWork.TwoTicksGenerateTwoOrders | packages/backend-core/src/maintenance/scheduler.tick.ts:133-187 | a late generation: a run in which an occurrence gets two orders, one after the other |
| OccurrenceWork.SkippedOccurrenceIsCompleted | packages/backend-core/src/maintenance/scheduler.tick.ts:200-214 | a late completion: all writes before are fresh, a skip slips in, and a SKIPPED occurrence becomes COMPLETED |
| Sla.SortByFrom | packages/backend-core/src/sla/sla.engine.ts:48 | the sort is a permutation in order of start |
| Sla.CloseAndSort | packages/backend-core/src/sla/sla.engine.ts:42-48 | map, filter and sort keep exactly the covered milliseconds |
| Sla.Sweep | packages/backend-core/src/sla/sla.engine.ts:50-63 | the sweep returns the number of milliseconds covered by at least one span |
| Sla.UnionDuration | packages/backend-core/src/sla/sla.engine.ts:40-65 | the floor of the covered milliseconds over 1000, or the error of the unguarded first element, exactly |
| Sla.UnionMonotone | packages/backend-core/src/sla/sla.engine.ts:36-65 | more intervals never exclude less |
| Sla.UnionIgnoresOrderAndDuplicates | packages/backend-core/src/sla/sla.engine.ts:36-65 | only which intervals occur matters |
| Sla.UnionBounds | packages/backend-core/src/sla/sla.engine.ts:36-65 | the union lies between every single interval and the sum of all |
| Sla.ComputeActiveElapsed | packages/backend-core/src/sla/sla.engine.ts:74-85 | total minus union, never negative, or the union's error |
| Sla.ActivePlusExcludedIsTotal | packages/backend-core/src/sla/sla.engine.ts:4-11 | with all intervals inside the clock's range active plus excluded is the total, and active is the floor of the exact time or one more |
| Sla.ExactGain | packages/backend-core/src/sla/sla.engine.ts:74-85 | exact active time never decreases, and stands still while an interval covers |
| Sla.ActiveNeverDropsMoreThanASecond | packages/backend-core/src/sla/sla.engine.ts:74-85 | over any t1 <= t2 active drops by at most the second lost to flooring |
| Sla.ActiveStandsStillWhilePaused | packages/backend-core/src/sla/sla.engine.ts:74-85 | under one covering interval active differs by at most a second |
| Sla.OverdueIsStable | packages/backend-core/src/sla/sla.engine.ts:87-94 | overdue by more than a second stays overdue exactly while the status is an open one |
| SlaTimeline.AddNote | apps/api/src/modules/work-order/work-order.service.ts:733-747 | one note changes the two tracks as the timeline says, each independently of the other |
| SlaTimeline.BuildSlaIntervals | apps/api/src/modules/work-order/work-order.service.ts:725-749 | the objects built, closed in place after they were pushed, hold exactly the intervals of the two note tracks |
| SlaTimeline.TrackIsPaired | apps/api/src/modules/work-order/work-order.service.ts:725-749 | a track has one interval per start note, closed by the next note of its kinds if that is an end note, and never otherwise |
| SlaTimeline.OpenInterval | apps/api/src/modules/work-order/work-order.service.ts:725-749 | a start note pushes a new open interval onto its track |
| SlaTimeline.CloseInterval | apps/api/src/modules/work-order/work-order.service.ts:725-749 | an end note closes the last interval of its track, in place |
| SlaTimeline.SumSeconds | apps/api/src/modules/work-order/work-order.service.ts:751-758 | the sum of the separately floored intervals |
| SlaTimeline.GetSlaStatus | apps/api/src/modules/work-order/work-order.service.ts:450-501 | active time, remaining time and the seconds per kind over the timeline's intervals; overdue exactly when the status is ASSIGNED or IN_PROGRESS and active exceeds the limit, and for these not overdue exactly when active and remaining add up to the limit; the union's error passes through |
| SlaTimeline.InstantPauseIsAnError | apps/api/src/modules/work-order/work-order.service.ts:450-501 | a pause that ends in the millisecond it began makes the status fail at any time |
| SlaTimeline.ReportedSecondsMatchDashboard | apps/api/src/modules/dashboard/dashboard.service.ts:384-409 | on closed timelines the reported seconds per kind add up to the dashboard's sum |
| SlaTimeline.ComputeExcludedSeconds | apps/api/src/modules/dashboard/dashboard.service.ts:384-409 | the dashboard's single loop computes the two independent tallies |
| SlaTimeline.TallyIsFlooredSum | apps/api/src/modules/dashboard/dashboard.service.ts:393-407 | on alternating notes the tally is the sum of the separately floored intervals |
| SlaTimeline.DisjointUnionIsSum | packages/backend-core/src/sla/sla.engine.ts:40-65 | for mutually disjoint intervals union and sum agree to the millisecond |
| SlaTimeline.FlooringLoss | apps/api/src/modules/dashboard/dashboard.service.ts:397-405 | flooring n pieces loses at most n-1 seconds |
| SlaTimeline.EngineExceedsDashboardByLessThanSpans | apps/api/src/modules/work-order/work-order.service.ts:725-749 | on closed, alternating, disjoint timelines with n spans the engine excludes 0 to n-1 seconds more than the dashboard |
| WorkOrders.WorkOrderRow.constructor | apps/api/src/modules/work-order/work-order.service.ts:112-200 | an order starts NEW, or ASSIGNED with its clock started |
| WorkOrders.WorkOrderRow.Transition | apps/api/src/modules/work-order/work-order.service.ts:203-276 | checks on the row read, commits on the version read, and the exact columns written |
| WorkOrders.WorkOrderRow.Assign | apps/api/src/modules/work-order/work-order.service.ts:278-321 | assignment of a known user in NEW or ASSIGNED on the version read |
| WorkOrders.WorkOrderRow.Complete | apps/api/src/modules/work-order/work-order.service.ts:327-377 | completion from IN_PROGRESS on the version read, with the result columns |
| WorkOrders.WorkOrderRow.AddUserNote | apps/api/src/modules/work-order/work-order.service.ts:391-444 | a user's note: a pause needs its reason, an end needs an earlier pause |
| WorkOrders.PredecessorsInTable | packages/backend-core/src/state-machine/work-order.machine.ts:22-54 | the table read backwards: what may lead to each status, and that the closed statuses are those that lead nowhere |
| WorkOrders.TransitionIsAcceptedIff | apps/api/src/modules/work-order/work-order.service.ts:203-276 | a transition is accepted exactly along the table from the status read, on the version read and, if named, expected, a cancellation with its reason |
| WorkOrders.TransitionEffect | apps/api/src/modules/work-order/work-order.service.ts:203-276 | the exact columns it writes |
| WorkOrders.AssignmentIsAcceptedIff | apps/api/src/modules/work-order/work-order.service.ts:278-321 | when an assignment is accepted, and that the named user is the assignee |
| WorkOrders.CompletionIsAcceptedIff | apps/api/src/modules/work-order/work-order.service.ts:327-377 | when a completion is accepted, and what it writes |
| WorkOrders.NoteIsAcceptedIff | apps/api/src/modules/work-order/work-order.service.ts:391-444 | when a note is accepted, and that it is appended and nothing else changes |
| WorkOrders.WorkOrderRow.EnterWaitingApproval | apps/api/src/modules/approval/approval.service.ts:478-520 | the start note and the waiting status, or nothing once any start note exists |
| WorkOrders.WorkOrderRow.ExitWaitingApproval | apps/api/src/modules/approval/approval.service.ts:522-560 | the end note and the return to IN_PROGRESS |
| WorkOrders.CommitIsLegal | packages/backend-core/src/state-machine/work-order.machine.ts:22-54 | each commit is legal from the status actually stored, however old its snapshot |
| WorkOrders.CommitLeavesTableExactly | packages/backend-core/src/state-machine/work-order.machine.ts:22-40 | the only edges outside the table are re-assignment and waiting from NEW or ASSIGNED |
| WorkOrders.StepKeepsInv | apps/api/src/modules/work-order/work-order.service.ts:203-377 | every interleaved step keeps snapshots older than the row and the closing columns in line with the status |
| WorkOrders.RunIsPath | packages/backend-core/src/state-machine/work-order.machine.ts:22-40 | the history of every run is a path of legal edges, one version each; work under way has a start instant unless an approval parked it before |
| WorkOrders.ParkedOrderCompletesWithoutStart | apps/api/src/modules/work-order/work-order.service.ts:327-377 | an order parked before it began can be completed without a start instant |
| WorkOrders.VersionsGrow | apps/api/src/modules/work-order/work-order.service.ts:203-377 | versions never decrease and grow with every change of status |
| WorkOrders.TerminalIsAbsorbing | packages/backend-core/src/state-machine/work-order.machine.ts:38-39 | COMPLETED and CANCELLED are never left, whatever requests are under way |
| Approvals.ActionsRealiseTheTable | packages/backend-core/src/state-machine/approval.machine.ts:33-110 | the table's edges are exactly those of the actions and of opening a new revision |
| Approvals.TerminalExceptApproved | packages/backend-core/src/state-machine/approval.machine.ts:112-114 | `isTerminal` agrees with the table on every status but APPROVED |
| Approvals.ApprovalRow.constructor | apps/api/src/modules/approval/approval.service.ts:150-172 | a draft with revision 1 and an empty log |
| Approvals.ApprovalRow.PerformAction | apps/api/src/modules/approval/approval.service.ts:233-396 | permission and all checks, then status, mark, event and the coupled work order together; accepted exactly when the action goes through as in `ActionIsAcceptedIff` |
| Approvals.ApprovalRow.CreateNewRevision | apps/api/src/modules/approval/approval.service.ts:401-465 | the next revision copies the latest content, back in DRAFT, with the order waiting |
| Approvals.ApprovalRow.UpdateDraft | apps/api/src/modules/approval/approval.service.ts:187-231 | overwrites the named fields of the latest revision, resets a cost that is not named, and compares no version |
| Approvals.ApprovalRow.CancelWithOrder | apps/api/src/modules/work-order/work-order.service.ts:589-632 | the cascade cancels a pending approval without comparing versions |
| Approvals.ActionIsAcceptedIff | apps/api/src/modules/approval/approval.service.ts:233-323 | an action goes through exactly when the role permits it, the version the caller names, if any, is the one read, the action leads on from the status read, the proposer only submits or cancels, there is a revision, and the version read is still stored |
| Approvals.ActionRefusals | apps/api/src/modules/approval/approval.service.ts:255-323 | the reason an action is refused for, the first condition that fails |
| Approvals.ActionEffect | apps/api/src/modules/approval/approval.service.ts:315-348 | it moves the status along its edge, one version on, logs one event of its kind on the latest revision, and on submission only marks that revision |
| Approvals.NewRevisionIsAcceptedIff | apps/api/src/modules/approval/approval.service.ts:401-465 | a new revision goes through exactly for the proposer of an approval read as APPROVED, REJECTED or INFO_REQUESTED, on the version read, under a free number |
| Approvals.NewRevisionEffect | apps/api/src/modules/approval/approval.service.ts:401-465 | it is an unsubmitted copy of the latest revision under the next number |
| Approvals.EditIsAcceptedIff | apps/api/src/modules/approval/approval.service.ts:187-231 | an edit goes through exactly for the proposer of an approval read in an editable status |
| Approvals.EditEffect | apps/api/src/modules/approval/approval.service.ts:187-231 | it writes the named fields of the latest revision only, and the cost in any case |
| Approvals.CascadeCancelsIff | apps/api/src/modules/work-order/work-order.service.ts:589-632 | the cascade cancels exactly what was read as SUBMITTED or INFO_REQUESTED |
| Approvals.LatestNoIsMaximum | apps/api/src/modules/approval/approval.service.ts:308-312 | the latest revision is the one with the largest number |
| SecondRound.SubmittedWaitsIff | apps/api/src/modules/approval/approval.service.ts:478-520 | in every run, from a submission on while the approval stays SUBMITTED and no user moves the order: the order is waiting exactly when it waited before, or had never waited for an approval and was not closed |
| SecondRound.OrderStaysPut | apps/api/src/modules/approval/approval.service.ts:233-465 | while its approval stays SUBMITTED, no request on any approval moves the order |
| SecondRound.SecondSubmissionLeavesOrderInProgress | apps/api/src/modules/approval/approval.service.ts:484-491 | a reachable state after rejection and resubmission: the approval is SUBMITTED, its order IN_PROGRESS |
| Approvals.DecisionReleasesOrder | apps/api/src/modules/approval/approval.service.ts:522-560 | a decision or withdrawal returns a waiting order to IN_PROGRESS and ends its open wait; a request for information only leaves a note, and no other action touches the order |
| ApprovalRuns.StepKeepsInv | apps/api/src/modules/approval/approval.service.ts:233-465 | every interleaved step keeps log, status, numbering, submissions and approvals consistent |
| ApprovalRuns.RunKeepsInv | apps/api/src/modules/approval/approval.service.ts:233-465 | status is the replay of the log, revisions are 1..n, all but the latest submitted, none submitted twice |
| ApprovalRuns.ApprovedMeansByAnother | apps/api/src/modules/approval/approval.service.ts:274-301 | the newest revision of an APPROVED approval was approved by someone other than the proposer |
| ApprovalRuns.CancelledIsAbsorbing | packages/backend-core/src/state-machine/approval.machine.ts:54 | CANCELLED is never left, stale requests included |
| ApprovalRuns.HistoryIsPathIffCascadesAreTimely | packages/backend-core/src/state-machine/approval.machine.ts:33-69 | the log is a path in the table exactly when every cascade commits on a status that may be cancelled |
| ApprovalRuns.CurrentEditIsHarmless | apps/api/src/modules/approval/approval.service.ts:187-231 | an edit whose guard still holds at commit cannot touch submitted-for-decision content |
| ApprovalRuns.FrozenIffEditsAreHarmless | apps/api/src/modules/approval/approval.service.ts:187-231 | content under decision or approved equals what was submitted, in all states, exactly when every edit is harmless |
| ApprovalRuns.RecordPersists | apps/api/src/modules/approval/approval.service.ts:315-396 | submission records and approvals stay for ever |
| ApprovalRuns.ApprovedContentNeverChanges | apps/api/src/modules/approval/approval.service.ts:187-452 | with harmless edits an approved revision keeps its submitted reason, plan and budget in every later state |
| ApprovalRuns.LateEditRewritesApprovedRevision | apps/api/src/modules/approval/approval.service.ts:187-231 | a run in which a late edit changes an approved budget |
| ApprovalRuns.LateCascadeLeavesTheTable | apps/api/src/modules/work-order/work-order.service.ts:589-632 | a run in which a late cascade cancels an APPROVED approval |
| Stock.StockService.AssertWithinIssuedBudget | apps/api/src/modules/stock-transaction/stock-transaction.service.ts:364-412 | the loop over the revision's entries compares the all-part total with the part's budget |
| Stock.StockService.Post | apps/api/src/modules/stock-transaction/stock-transaction.service.ts:322-362 | balance and ledger row change together, exactly when the part exists, its balance stays non-negative and the key is new |
| Stock.StockService.IssueForWorkOrder | apps/api/src/modules/stock-transaction/stock-transaction.service.ts:44-112 | every refusal in order; otherwise exactly one ISSUE row, naming the approved revision if the part requires one, and that part's balance lowered |
| Stock.StockService.ReturnForWorkOrder | apps/api/src/modules/stock-transaction/stock-transaction.service.ts:115-207 | every refusal in order; otherwise exactly one RETURN row for the part of the named issue of the same order, and that part's balance raised |
| Stock.StockService.Receive | apps/api/src/modules/stock-transaction/stock-transaction.service.ts:210-240 | accepted exactly when the part exists and its balance stays non-negative: one RECEIPT row with the given quantity, sign unchecked |
| Stock.StockService.AdjustStock | apps/api/src/modules/stock-transaction/stock-transaction.service.ts:243-279 | the same with one ADJUSTMENT row and a reason of three characters or more |
| Stock.ComputeNetIssued | packages/backend-core/src/stock/stock.domain.ts:60-74 | issued, returned and net totals of a list of entries |
| Stock.EntriesSumToRevision | packages/backend-core/src/stock/stock.domain.ts:56-74 | on the entries of a revision these totals are the ones the service compares with the budget |
| StockLedger.ApplyKeeps | apps/api/src/modules/stock-transaction/stock-transaction.service.ts:44-279 | every transaction keeps balances equal to the ledger and non-negative, unique keys, returns tied to issues and bounded by them, and all budgets |
| StockLedger.ApplyAppends | apps/api/src/modules/stock-transaction/stock-transaction.service.ts:44-279 | a movement appends exactly one row; only an issue can name a revision |
| StockRequests.ReturnIsAcceptedIff | apps/api/src/modules/stock-transaction/stock-transaction.service.ts:115-181 | a return is accepted exactly when the ledger holds an issue with that key on that order whose returns, this one included, stay within its quantity: partial returns go through |
| StockRequests.ReturnEffect | apps/api/src/modules/stock-transaction/stock-transaction.service.ts:183-207 | it appends one row with the issue's part, and raises the balance of that part alone |
| StockRequests.ReturnRefusals | apps/api/src/modules/stock-transaction/stock-transaction.service.ts:122-181 | the reason a return is refused for: no such row, not an issue, another order, more than is left |
| StockRequests.IssueIsAcceptedIff | apps/api/src/modules/stock-transaction/stock-transaction.service.ts:44-112 | an issue is accepted exactly on an open order, within the balance, and, where the part requires approval, under a revision that lists it and has that much left, all parts issued under it counted |
| StockRequests.IssueRefusals | apps/api/src/modules/stock-transaction/stock-transaction.service.ts:44-112 | the reason an issue is refused for: order, approval, part list, budget, balance |
| StockRequests.BudgetIsTheLine | apps/api/src/modules/stock-transaction/stock-transaction.service.ts:384-400 | with one line per part the budget is the quantity on that line |
| StockRequests.KeyIsUsedOnce | apps/api/src/modules/stock-transaction/stock-transaction.service.ts:322-362 | no movement is recorded under a key the ledger already holds |
| StockLedger.BalanceIsLedger | apps/api/src/modules/stock-transaction/stock-transaction.service.ts:322-362 | in every run each balance is the sum of its movements and is at least zero |
| StockLedger.SignedLedgerIffReceiptsPositive | packages/backend-core/src/stock/stock.domain.ts:97-116 | the ledger read with `movementSign` on absolute quantities gives the balance exactly when no receipt was negative |
| StockLedger.NegativeReceiptIsAccepted | apps/api/src/modules/stock-transaction/stock-transaction.service.ts:210-240 | a run with a negative receipt where the two readings differ |
| StockLedger.ReturnedAtMostIssued | apps/api/src/modules/stock-transaction/stock-transaction.service.ts:115-207 | returned is at most issued, per issue and so per part and work order |
| StockLedger.IssuedWithinBudget | apps/api/src/modules/stock-transaction/stock-transaction.service.ts:364-412 | in every run the gross quantity of a part issued under a revision stays within what the revision approves for it |
| StockLedger.NoPartListsNoGatedIssues | apps/api/src/modules/stock-transaction/stock-transaction.service.ts:384-395 | without part lists no issue under a revision is ever recorded |
| StockLedger.GrossCheckIsNetRuleIffNothingReturned | apps/api/src/modules/stock-transaction/stock-transaction.service.ts:182-196 | in every run the check agrees with the documented net rule, on every request against the revision's own part list, exactly when nothing was returned against the revision |
| StockLedger.ReturnedStockIsNotReissued | apps/api/src/modules/stock-transaction/stock-transaction.service.ts:364-412 | a run in which everything issued was returned and the same issue is refused, though the net rule accepts it |
| IssueGate.CouplingIsOrderStep | apps/api/src/modules/approval/approval.service.ts:350-378 | what an approval transaction does to its order is one legal order step |
| IssueGate.DraftIsAcceptedIff | apps/api/src/modules/approval/approval.service.ts:117-133 | a draft goes through exactly for an existing open order whose approvals are all cancelled |
| IssueGate.DraftKeepsOneOpenIffNoneIsOpen | apps/api/src/modules/approval/approval.service.ts:117-133 | a new draft keeps one open approval per order exactly when none is open at that moment |
| IssueGate.OneOpenStays | apps/api/src/modules/approval/approval.service.ts:117-133 | no step gives an order two open approvals |
| IssueGate.LookupIsGated | apps/api/src/modules/stock-transaction/stock-transaction.service.ts:62-81 | the revision an issue looks up is the latest of the order's only open approval, approved by another |
| IssueGate.StepKeepsInv | apps/api/src/modules/stock-transaction/stock-transaction.service.ts:62-81 | every step of the joint system keeps the invariants of all three services and their links |
| IssueGate.IssuesAreGated | apps/api/src/modules/stock-transaction/stock-transaction.service.ts:44-112 | in every run, an issue of a part that requires approval names the latest revision of the order's only open approval, approved by someone other than the proposer, on an order still open |
| IssueGate.JointSafety | apps/api/src/modules/stock-transaction/stock-transaction.service.ts:44-112 | in every state orders move legally, one open approval each, every issue under a revision stays backed by a foreign approval, no budget is exceeded |
| Csv.ToCsv | apps/api/src/modules/report/report.service.ts:38-46 | the text is the byte order mark and the joined lines of header and rows |
| Csv.PlainCellsAreVerbatim | apps/api/src/modules/report/report.service.ts:29-36 | a cell is written as it is exactly when it has no comma, quote or line feed, and stands in quotes otherwise |
| Csv.FieldReadsBack | apps/api/src/modules/report/report.service.ts:29-36 | an independent reader gets every cell back, quoted or bare, whatever delimiter follows |
| Csv.RecordReadsBack | apps/api/src/modules/report/report.service.ts:41-44 | and every line of cells |
| Csv.EmptyLastLineIsLost | apps/api/src/modules/report/report.service.ts:41-45 | an empty last line is taken for the optional final break of RFC 4180, section 2 |
| Csv.CsvRoundTrip | apps/api/src/modules/report/report.service.ts:29-46 | header and all cells are read back exactly when there are two columns or more, or the last single cell is not empty |
| Csv.TableHoldsTheCells | apps/api/src/modules/report/report.service.ts:40-44 | what is read back: the header first, then each row's cells under their keys |
| Locations.ChainIsUnique | apps/api/src/modules/organization/organization.service.ts:117-127 | a row has at most one way up to a root |
| Locations.GetLocationTree | apps/api/src/modules/organization/organization.service.ts:109-128 | terminates on every parent relation; at the top and below every node stand exactly the rows with that parent, each sibling earlier in the listing than the next; in all exactly the rows that reach a root, each once |
| Locations.PlacedIsArranged | apps/api/src/modules/organization/organization.service.ts:110-127 | grouping by parent keeps the listing's order among siblings |
| Locations.SiblingsKeepCodeOrder | apps/api/src/modules/organization/organization.service.ts:110 | whatever order of codes the rows are listed by, siblings are in that order everywhere in the tree |
| Locations.BuildHoldsDescendants | apps/api/src/modules/organization/organization.service.ts:117-127 | below a row `build` holds exactly its descendants |
| Locations.BuildHasNoRepetition | apps/api/src/modules/organization/organization.service.ts:117-127 | and none of them twice |
| Locations.LocationTable.CreateLocation | apps/api/src/modules/organization/organization.service.ts:134-150 | inserts exactly when the code is new and the parent, if any, exists |
| Locations.LocationTable.UpdateLocation | apps/api/src/modules/organization/organization.service.ts:162-189 | accepted exactly when the row and the new parent, if any, exist and differ; sets that row's parent and nothing else |
| Locations.InsertKeepsWellFormed | apps/api/src/modules/organization/organization.service.ts:134-150 | parents exist and differ from their children |
| Locations.MoveKeepsWellFormed | apps/api/src/modules/organization/organization.service.ts:162-189 | the same after a move |
| Locations.MoveKeepsForestIff | apps/api/src/modules/organization/organization.service.ts:165-182 | an accepted move keeps every row in the tree exactly when the moved row is not on the new parent's way up |
| Locations.CycleHidesRows | apps/api/src/modules/organization/organization.service.ts:168-174 | an accepted move that removes all rows from the tree |
| AiRetry.ProcessInBackground | apps/api/src/modules/ai/ai.service.ts:175-258 | at most maxRetries+1 calls; the exact total wait; SUCCEEDED exactly when an allowed attempt answers after only retryable failures; otherwise status and code of the last error |
| AiRetry.RetriedFailures | apps/api/src/modules/ai/ai.service.ts:200-235 | which failures are retried |
| AiRetry.BackoffSeconds | apps/api/src/modules/ai/ai.service.ts:236-240 | each wait doubles from one second up to eight |
| AiRetry.BackoffStep | apps/api/src/modules/ai/ai.service.ts:236-240 | the closed form of the backoff: 1000(2^r-1) ms up to three retries, 8000 ms for each further one |
| AiRetry.DecidedOrExhausted | apps/api/src/modules/ai/ai.service.ts:175-258 | the two cases of the loop's contract are exhaustive and exclusive |

## Left out

- Calendar.AdvanceDueOn: works on whole days; the local-time `startOfDay` and time zones are not modelled.
- MaintenancePlans.PlanTable.Create: positive interval values and real dates are validated before the service and are preconditions; names and checklists are left out.
- SchedulerProtocol.Step: `next_due_on` is nullable in the schema, but every plan is created with one and nothing clears it, so the null branch is not modelled.
- SchedulerService.Scheduler.GenerateWorkOrders: the plan, asset and bootstrap user lookups succeed; order codes, texts and due times are left out.
- CatchUp.RepeatedTicksCatchUp: about active fixed-basis plans; paused plans can be stuck, which has its own lemma.
- Sla.ActivePlusExcludedIsTotal: needs all intervals inside the clock's range, because the engine does not clip them and a repeated transition to IN_PROGRESS overwrites the start.
- SlaTimeline.EngineExceedsDashboardByLessThanSpans: instants are positive, since the dashboard takes a stored start at instant 0 for none.
- SlaTimeline.BuildSlaIntervals: the database order of the notes by creation time is taken as given.
- WorkOrders.WorkOrderRow.Transition: the reason arrives trimmed, and the cascades that follow the update are separate steps (`Approvals.ApprovalRow.CancelWithOrder`, `SchedulerService.Scheduler.CancelMaintenanceOrder`); the incident cascades are left out.
- Approvals.ApprovalRow.PerformAction: whether the caller's role permits the action is a parameter; notes and notifications are left out.
- IssueGate.DraftCheck: taken in the same step as the creation of the draft, as for every method without a version comparison; `DraftKeepsOneOpenIffNoneIsOpen` says what a racing draft would break.
- IssueGate.Step: the cascade of a cancelled order is a separate later step, as in the service, and part lists of revisions are fixed, since no service writes them.
- IssueGate.NewestApproved: the newest approved revision is the last appended one of an approved approval, in place of the order by creation time.
- WorkOrders.WorkOrderRow.Complete: the result columns are one text, and the incident that a completed repair resolves is left out.
- Stock.StockService.AssertWithinIssuedBudget: answers for the revision's lines, where the query of line 386 names a column missing from the schema and would fail.
- OccurrenceWork.Step: the cascade of a cancelled order writes in the same step; the exception of the unique index on open orders ends a tick and is not a step of this file.
- Stock.StockService.ReturnForWorkOrder: every row names a part, as all rows the service writes do, so the refusal of an issue without one is not modelled.
- Stock.StockService.IssueForWorkOrder: transfers, unit prices, cost entries and the row lock are left out; serializable transactions are single steps.
- Csv.ToCsv: the caller supplies the first row's keys in insertion order, and values already turned into strings.
- Locations.GetLocationTree: names and active flags travel with the row; the database delivers the rows in code order.
- AiRetry.ProcessInBackground: the timer, the request's stored texts and the loading of settings are parameters.
- Audit records, notifications, mapping to transfer objects, list queries, permissions, authentication, attachments and the web application: no property that spans steps.
- Incident and asset machines, cost aggregation, storage paths, QR codes: single-entity rules or plain folds.
- Prisma, PostgreSQL, Redis and date-fns: assumed to give unique keys, atomic transactions and the documented month clamp.
