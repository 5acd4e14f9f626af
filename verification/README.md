# A verified model of the userbot platform's back end

The platform sells subscriptions to hosted Telegram userbots. This project models the parts of its
back end that keep state, and proves what they keep over all inputs, runs and interleavings:

- **The supervisor** (`Supervisor.dfy`, `WorkerManager.dfy`). One process owns three dictionaries and
  one coroutine per userbot. `Supervisor.World` is its state together with the `userbots` table, the
  event loop and the clock; a step is what happens between two awaits. The class `WorkerManager` is
  the code, method by method; what other coroutines and other processes do during an await is a
  parameter of the call, so each method is proved for every interleaving. Its ghost `history` is the
  run of `Supervisor` steps that it has made, which connects the class to the theorems on runs.
- **The scheduler** (`Scheduler.dfy`, `SchedulerRuns.dfy`). Repeat rules, the due list of at most 500
  tasks, the loop that pushes and advances, and the tick that commits or rolls back.
- **Billing** (`Billing.dfy`, `PaymentReference.dfy`). Plans, payments, subscriptions and the userbots
  that are suspended or resumed with them.
- **Module limits and settings** (`ModuleQuota.dfy`), bounded by the active plan.
- **Logins** (`Sessions.dfy`). Accounts, encrypted sessions and their revocation.
- **The signed queues** (`SignedQueue.dfy`), their two drain loops, and the commands sent through them
  with the text of them that is signed (`Commands.dfy`). `Decimals.dfy` has integers as text.
- **The rate limiter** (`RateLimiter.dfy`) and **the condition evaluator** (`Conditions.dfy`).

Each component that changes state is a class. Its methods are proved equal to a step function on
values (`Effect`, `Apply`), and the main results are lemmas about runs of that function. A database
table is a map from ids to rows, a service call is one transaction, and a call that raises leaves the
tables as they were. Clocks, random choices and outside events are parameters.

## Where the code and its documentation differ

The model follows the code. These are the places where that matters, each with its proof:

- A fixed window does not bound a sliding one: with limit L, up to 2L - 1 checks are accepted within
  one window length (`SlidingBound`), and that is attained (`WorstCaseAttained`). Each window by itself
  accepts at most L (`WindowAcceptsUpToLimit`).
- `evaluate_all` announces groups; it is a plain left fold, and its variable `current_or` is never
  read. The comment at `app/automation/conditions.py:62` speaks of OR-clauses joined by AND: the fold is
  that for all outcomes if and only if no OR stands after an AND (`FoldIsClausesIff`), and
  `a AND b OR c` is the shortest list on which it is not (`AndThenOrDiffers`). It is what AND binding
  closer than OR would give if and only if no AND stands after an OR (`FoldIsGroupsIff`).
- A command without a role and one with the role `None` have the same signed text (`UnambiguousIff`);
  action, target and times are always determined.
- `pop` is documented to return None for an empty queue; it does so for a rejected entry too, so a
  drain loop stops there (`StopsEarlyIff`) and needs a further call for the rest (`DrainIsComplete`).
- A comment at `app/scheduler/loop.py:54` says that a task is dispatched exactly once per window.
  Redis is not part of the transaction, so every rolled-back tick that reached a task sends it once
  more (`AtLeastOnce`).
- `next_run_after` turns a bad interval into "no next run" by catching ValueError; an interval that is
  too long raises OverflowError instead. Once such a task is due, no more ticks commit than there are
  full lists of 500 ahead of it, subscription expiry included (`StuckTaskStopsCommits`,
  `Scheduler.Tick`); nothing refuses to create it (`StuckFromTheStart`).
- An interval of zero or less is accepted, and leaves its task due at every moment until it is
  cancelled (`DueForEver`). 500 tasks with intervals far enough below zero keep a later one waiting
  through any number of committed passes (`CrowdedOut`, `StarvedFromTheStart`).
- A purchase looks at active subscriptions but not at pending payments, and an approval looks at
  neither. Two purchases before the first approval give two active subscriptions, after which
  `active_for_user` raises for that user (`SecondActiveIff`, `TwoPurchasesTwoActive`).
- The expiry of one subscription suspends all userbots of its owner, who may have another active
  one; an approval sets all of them to STOPPED, the running ones included (`ExpiryPass`,
  `ApprovePayment`).
- `docs/WORKERS.md:14` and `docs/WORKERS.md:31` promise recovery after ERROR with delays up to 300
  seconds. ERROR is not runnable, so the next pass stops the sleeping coroutine, and unless its sleep
  ends within ten seconds it is cancelled without a status write (`CrashIsFinal`, `CrashRecovers`). With a pass every
  ten seconds the fifth crash in a row is final (`FifthCrashIsFinal`).
- SUSPENDED is not sticky while a coroutine is left (`SuspensionLiftedByOwnCoroutine`); it is once
  there is none (`QuietRowLasts`).
- A pass works on the list it read at its start: a stop requested meanwhile for a userbot that is on
  the list and has no coroutine is overwritten (`StopRequestOverwritten`).
- The list is capped at 1000 rows in no order, so it is complete if and only if there are no more
  runnable userbots than that (`ListingIsCompleteIff`).

## Model

| member | source | states |
|---|---|---|
| `Supervisor.FinishRemovesOwnEntry` | app/workers/manager.py:151-153 | the `finally` pops by userbot id, and what stands there is always its own coroutine: exactly that entry goes, every other stays |
| `Supervisor.StepKeepsOneToOne` | app/workers/manager.py:87-153 | every step of the supervisor, of any coroutine or of the rest of the platform keeps live coroutines and table entries in one-to-one correspondence and the two tables equal |
| `Supervisor.AlwaysOneToOne` | app/workers/manager.py:87-201 | the same in every reachable interleaving; so no userbot ever has two live coroutines |
| `Supervisor.QuietUnlessWoken` | app/workers/manager.py:87-100 | a userbot that is not runnable, not on the list of the pass and without coroutine stays so in a step if and only if the step is not a start command for it nor an outside write that makes it runnable |
| `Supervisor.QuietStaysQuiet` | app/workers/manager.py:87-234 | quiescence over whole runs of passes, commands to others, and coroutines of others |
| `Supervisor.SuspensionEndsIff` | app/workers/manager.py:260-274 | which steps end a suspension: exactly the status writes listed in `Overwrites`, none of which looks at the old status |
| `Supervisor.QuietRowLasts` | app/workers/manager.py:87-100 | a userbot that is quiet keeps its row, status and error message, over every run without a command for it or an outside write to it |
| `Supervisor.SuspensionLiftedByOwnCoroutine` | app/workers/manager.py:137-150 | in each phase, how the coroutine of a suspended userbot ends the suspension: RUNNING, STOPPED, or RECOVERING and runnable again |
| `Supervisor.StopRequestOverwritten` | app/workers/manager.py:97-121 | a run in which a stop requested during a pass is lost: the userbot is started and its status overwritten |
| `Supervisor.StepCountsCrash` | app/workers/manager.py:141-149 | a step that does not restart the series adds one to the count and waits 2 to the power of the new count, at most 300 s, if and only if it is a crash of that userbot |
| `Supervisor.CrashesAreCounted` | app/workers/manager.py:141-149 | over a run, the n-th crash waits the n-th delay, whatever is interleaved |
| `Supervisor.BackoffSeries` | app/workers/manager.py:141-150 | without RUNNING or a start command, the delays of n crashes start at 2, never decrease, lie in 2 to 300 and add up to 2^(n+1)-2 for n up to 8 and 510+300(n-8) beyond |
| `Supervisor.DelayShape` | app/workers/manager.py:144 | the n-th delay is 2^n up to the eighth and 300 from the ninth on, and the next is never shorter |
| `Supervisor.SeriesTotal` | app/workers/manager.py:144 | the closed form of the total of the first n delays |
| `Supervisor.ResetRestartsSeries` | app/workers/manager.py:222-227 | after a start command, or after a status write that reached RUNNING, the next crash waits 2 s |
| `Supervisor.SleeperUntilDecided` | app/workers/manager.py:192-201 | a coroutine asleep in its backoff while its stop waits stays exactly so, through any prompt run, until it is gone |
| `Supervisor.SleeperFate` | app/workers/manager.py:149-201 | what ends it: the end of its sleep, with status RECOVERING, only if that is no later than the ten-second deadline; the timeout, which writes no status, only if it is no earlier |
| `Supervisor.DoomedStaysDown` | app/workers/manager.py:87-201 | if the deadline lies before the end of the sleep, the userbot is never runnable again over any prompt run without a start command or an outside write for it |
| `Supervisor.CoroutineWrites` | app/workers/manager.py:137-150 | what each phase of a coroutine writes, status by status: RUNNING, STOPPED, RECOVERING with the error text left as it was, and ERROR with the first 500 characters of the exception; nothing when the database does not take it; no other row |
| `Supervisor.StartWrites` | app/workers/manager.py:121-127 | a start writes STARTING and no error text, or ERROR with the first 500 characters of the reason, to that row only |
| `Supervisor.CrashFallsAsleep` | app/workers/manager.py:141-149 | after a crash whose write succeeds the row is in ERROR with its text, the userbot is not runnable, and its coroutine sleeps for the delay of this crash |
| `Supervisor.CrashIsFinal` | app/workers/manager.py:141-201 | from the crash itself, over any run without a start command or an outside write that makes it runnable: if the stop that follows begins more than 10 s before the end of the delay, the userbot stays down |
| `Supervisor.CrashRecovers` | app/workers/manager.py:141-201 | and if it begins less than 10 s before, the coroutine ends by waking up and writes RECOVERING |
| `Supervisor.CrashLoopEnds` | app/workers/manager.py:143-144 | of the crashes in a row exactly the first three have a delay below the 10 s of a stop, and exactly those from the fifth on one of 32 s or more |
| `Supervisor.FifthCrashIsFinal` | app/workers/manager.py:141-201 | so a userbot that crashes for the fifth time in a row, which writes ERROR, and that a pass begins to stop less than 22 s later, stays down |
| `WorkerManagers.WorkerManager.constructor` | app/workers/manager.py:52-57 | a new manager has empty tables and an empty run |
| `WorkerManagers.WorkerManager.SetStatus` | app/workers/manager.py:260-274 | the unconditional status write: error kept unless a new one is given, count zeroed on RUNNING even when the commit then fails, nothing written on a failed read or commit |
| `WorkerManagers.WorkerManager.RunStarted` | app/workers/manager.py:131-139 | a coroutine that is up is the step `Started` |
| `WorkerManagers.WorkerManager.RunDisconnected` | app/workers/manager.py:139-153 | a disconnected one writes STOPPED and removes its entries: the step `Disconnected` |
| `WorkerManagers.WorkerManager.RunCrashed` | app/workers/manager.py:141-149 | a crash writes ERROR, counts and goes to sleep, keeping its entries: the step `Crashed` |
| `WorkerManagers.WorkerManager.RunWoke` | app/workers/manager.py:149-153 | the end of the sleep writes RECOVERING and removes the entries: the step `Woke` |
| `WorkerManagers.WorkerManager.StartUserbot` | app/workers/manager.py:102-128 | a start either makes one coroutine and one entry in each table and writes STARTING, or writes ERROR with the reason and makes none |
| `WorkerManagers.WorkerManager.StopUserbot` | app/workers/manager.py:192-201 | whatever happens during its awaits, the userbot has no coroutine when it returns; no coroutine was added, only userbots that ended lost theirs, and rows of idle userbots are as they were unless others wrote |
| `WorkerManagers.WorkerManager.WaitFor` | app/workers/manager.py:197-201 | the bounded wait: the coroutine it waits for is over when it returns, by itself or cancelled at the deadline |
| `WorkerManagers.WorkerManager.Await` | app/workers/manager.py:130-153 | what any sequence of outside steps can change while the supervisor is suspended: entries go only for coroutines that end, none appear |
| `WorkerManagers.WorkerManager.HandleStartCommand` | app/workers/manager.py:222-227 | a start command writes STARTING and forgets the crash count of an existing userbot, and does nothing else |
| `WorkerManagers.WorkerManager.HandleStopCommand` | app/workers/manager.py:229-234 | after a stop command the row was marked STOPPED, the userbot has no coroutine, and beyond that nothing has changed but by coroutines and outside writes during the awaits |
| `WorkerManagers.WorkerManager.HandleCommand` | app/workers/manager.py:208-220 | what one command does to the whole world: a start writes one row and forgets its crash count; a stop marks one row and waits its coroutine out; a restart is a stop and then a start; any other action changes nothing |
| `WorkerManagers.CommandEffect` | app/workers/manager.py:208-234 | so of the userbots without a coroutine whose rows nobody else wrote, the target is STOPPED after a stop and STARTING after a start or restart, and every other one keeps its row |
| `WorkerManagers.WorkerManager.ProcessCommands` | app/workers/manager.py:203-220 | the loop terminates and acts on exactly the accepted commands before the first rejected entry, each once and in order; what is behind that entry stays queued |
| `WorkerManagers.RequestsReachSupervisor` | app/workers/manager.py:203-220 | end to end: over its drain calls the supervisor carries out exactly what the sent commands ask for that it pops within 300 s, in the order in which they were sent |
| `WorkerManagers.RequestObeyed` | app/workers/manager.py:203-234 | one request, from the arguments of `send` to what is done: popped within 300 s, a start is a start of that userbot, a stop marks it stopped, a restart does both, another action nothing; popped later, nothing is done |
| `WorkerManagers.WorkerManager.Sync` | app/workers/manager.py:87-100 | convergence, userbot by userbot: afterwards only listed ones run; a listed one that did not end by itself meanwhile runs if and only if it ran before or its start succeeded; one whose start failed is down, and in ERROR with its reason unless others wrote that row |
| `WorkerManagers.WorkerManager.StopUnlisted` | app/workers/manager.py:92-95 | the first loop leaves no coroutine of an unlisted userbot |
| `WorkerManagers.WorkerManager.StartMissing` | app/workers/manager.py:97-100 | the second loop visits every listed userbot once and starts exactly those without an entry |
| `WorkerManagers.SyncConverges` | app/workers/manager.py:87-100 | the two loops together give the convergence that `Sync` promises |
| `WorkerManagers.ElapsedTwice` | app/workers/manager.py:87-153 | what awaits may change composes over any number of them |
| `WorkerManagers.SyncByStatus` | app/userbots/repository.py:18-26 | a pass, state by state: with at most 1000 userbots in STARTING, RUNNING, RECOVERING or AUTHORIZED, each that did not end meanwhile runs afterwards if and only if it ran before or its start succeeded; one in CREATED, AUTHENTICATING, STOPPING, STOPPED, ERROR or SUSPENDED does not run |
| `WorkerManagers.ListingIsCompleteIff` | app/userbots/repository.py:18-26 | the list holds only userbots in those four states, and all of them if and only if there are at most 1000 |
| `Scheduling.IntervalRule` | app/scheduler/service.py:25-30 | round trip: the rule `interval:` followed by the decimal text of n repeats after n seconds, for every n, negative ones included |
| `Scheduling.NamedRulesAreIntervals` | app/scheduler/service.py:17-24 | the named rules equal intervals of so many seconds, a month being 30 days |
| `Scheduling.NotANumber` | app/scheduler/service.py:26-30 | an empty text, or one with a character that is no digit, sign, underscore or blank, is not read as a number |
| `Scheduling.CalendarEnds` | app/scheduler/service.py:27-28 | the last representable second is that of the year 9999, leap years counted |
| `Scheduling.StopsAt` | app/scheduler/loop.py:48-59 | where a pass stops: at the fault, behind the first task that cannot be advanced, or at the end |
| `Scheduling.Scheduler.constructor` | app/scheduler/loop.py:24-31 | a new scheduler has no tasks and has pushed nothing |
| `Scheduling.Scheduler.CreateTask` | app/scheduler/service.py:38-56 | a new pending task, first due at its run time, under a new id |
| `Scheduling.Scheduler.CancelTask` | app/scheduler/service.py:61-65 | only the owner can cancel; a task of somebody else is reported as missing and unchanged |
| `Scheduling.Scheduler.Advance` | app/scheduler/service.py:67-78 | raises exactly when the next run lies outside the calendar; otherwise the task is due one period after the present time, or finished |
| `Scheduling.Scheduler.DispatchDueTasks` | app/scheduler/loop.py:48-59 | the loop: raises if and only if there is a fault or a task that cannot be advanced; what was pushed is one message for each task it reached, in order; if it does not raise all are advanced |
| `Scheduling.Scheduler.Tick` | app/scheduler/loop.py:32-45 | the transaction: expiry and dispatch happen both or not at all, while the messages stay pushed either way |
| `SchedulerRuns.AtLeastOnce` | app/scheduler/loop.py:32-59 | over any run with any failures, messages of a task = its committed advances + the rolled-back passes that reached it |
| `SchedulerRuns.CommittedPassDelivers` | app/scheduler/loop.py:48-59 | a pass that commits pushes one message for each task of its list and changes no other task |
| `SchedulerRuns.MessagesAreAsCreated` | app/scheduler/loop.py:53-57 | in every run from an empty table, each message ever pushed about a task carries the user, type and payload it was created with |
| `SchedulerRuns.StepOnTask` | app/scheduler/service.py:61-78 | all that can happen to a task in a step: dispatched when due, cancelled by its owner, or nothing |
| `SchedulerRuns.SpacedByPeriod` | app/scheduler/service.py:67-78 | two committed dispatches of a task with period p are at least p apart, so N of them take at least (N-1)p seconds |
| `SchedulerRuns.DispatchedInTime` | app/scheduler/loop.py:32-59 | if all passes commit, come at most `gap` apart and find at most 500 due tasks, consecutive dispatches are less than p + gap apart |
| `SchedulerRuns.OneTimeAtMostOnce` | app/scheduler/service.py:13-31 | a task with no rule, the empty one, `one_time`, an unknown name or an interval that is no number is dispatched by at most one committed pass; after it there is no next run and its status is success, unless its owner cancels it |
| `SchedulerRuns.NamedRuleDueAgain` | app/scheduler/service.py:17-24 | a dispatch of an hourly, daily, weekly or monthly task leaves it pending and due again exactly 3600, 86400, 604800 or 2592000 s later, with nothing else changed but its last run and retry count |
| `SchedulerRuns.LastRunIsLastDispatch` | app/scheduler/service.py:67-70 | after any run `last_run_at` is the time of the latest committed dispatch, and unchanged by those rolled back |
| `SchedulerRuns.CancelledIsNeverPushed` | app/scheduler/service.py:61-65 | after a cancellation no pass, committed or rolled back, pushes the task again, and its row never changes |
| `SchedulerRuns.DueAgainIff` | app/scheduler/service.py:25-30 | an advanced task is due again at that same moment if and only if its interval is zero or negative |
| `SchedulerRuns.DueForEver` | app/scheduler/service.py:67-78 | a due task with such an interval is due after any run that does not cancel it, however often it was dispatched |
| `SchedulerRuns.CrowdedOut` | app/scheduler/repository.py:17-29 | behind 500 tasks whose intervals bring them back ahead of it, a due task is not pushed by any pass in that time, committed or not, whatever else happens |
| `SchedulerRuns.StarvedFromTheStart` | app/scheduler/repository.py:17-29 | such a run from an empty table: passes at any given times from q to just before 2q, any number of them, all commit and none pushes the task due at q |
| `SchedulerRuns.WholeBatch` | app/scheduler/repository.py:17-29 | with at most 500 due tasks the list holds all of them |
| `SchedulerRuns.PassOvertakesNobody` | app/scheduler/repository.py:17-29 | a committed pass that leaves a due task out takes 500 tasks from ahead of it, and none of them comes back ahead |
| `SchedulerRuns.BoundedWait` | app/scheduler/loop.py:32-59 | a due task with r others at or before it is dispatched, and its message pushed, within r/500 + 1 committed passes, with any rolled-back passes between them |
| `SchedulerRuns.StuckTaskStopsCommits` | app/scheduler/service.py:25-30 | a due task whose next run is beyond the calendar, with r others at or before it: no more than r/500 passes commit from its due time on, in any orderly run |
| `SchedulerRuns.StuckTaskStopsEverything` | app/scheduler/loop.py:32-45 | with r below 500 none commits, and no dispatch of any task at its due time or later is recorded |
| `SchedulerRuns.StuckFromTheStart` | app/scheduler/service.py:38-56 | creating such a task is not refused: with it alone in the table no pass at its due time or later ever commits |
| `SchedulerRuns.FirstInOrder` | app/scheduler/repository.py:17-29 | there is always a list of the first n tasks in order of due time, with ties in some order |
| `SchedulerRuns.PassAlwaysPossible` | app/scheduler/repository.py:17-29 | at every moment a due list, and so a pass, exists |
| `Billing.BillingService.constructor` | app/billing/service.py:24-31 | a service over given plans and userbots, without subscriptions or payments |
| `Billing.BillingService.FindActive` | app/billing/repositories.py:29-36 | the active subscription of a user, none, or an error when there is more than one |
| `Billing.BillingService.PurchasePlan` | app/billing/service.py:43-70 | every refusal in its order, changing nothing; otherwise one pending subscription and one pending payment linked to it, at the present price, with its reference |
| `Billing.BillingService.ApprovePayment` | app/billing/service.py:95-127 | every refusal in its order, changing nothing; otherwise the payment is approved, its own subscription runs for the plan's days from now, all userbots of the user are STOPPED, and nothing else changes |
| `Billing.BillingService.RejectPayment` | app/billing/service.py:129-156 | refusals change nothing; otherwise the payment is rejected and its subscription, if still pending, cancelled |
| `Billing.BillingService.ExpireDueSubscriptions` | app/billing/service.py:160-167 | the loop, in whatever order it visits the rows, expires exactly those that are due, suspends exactly their owners' userbots and returns their number |
| `Billing.BillingService.SetUserbotStatus` | app/billing/service.py:169-177 | all userbots of one user get the status, no others |
| `Billing.ApplyKeepsLinked` | app/billing/service.py:43-167 | one operation keeps the lock step of payments and subscriptions |
| `Billing.AlwaysLinked` | app/billing/service.py:43-167 | lock step in every reachable state: each payment owns a different subscription of the same user and plan; pending with pending, rejected with cancelled, approved with active or expired; review fields set if and only if reviewed; dates set if and only if activated |
| `Billing.PurchaseOutcome` | app/billing/service.py:43-50 | a purchase, case by case: unknown plan, inactive plan, one active subscription of this user, two of them; otherwise it goes through |
| `Billing.PurchaseAdds` | app/billing/service.py:52-70 | the two rows that it adds, field by field, and that nothing else changes |
| `Billing.ReviewOutcome` | app/billing/service.py:98-134 | in every reachable state a review goes through if and only if the payment is still in review; a missing one is not found and a reviewed one is a conflict |
| `Billing.ReviewIsFinal` | app/billing/service.py:95-139 | a reviewed payment never changes again |
| `Billing.ReviewRecorded` | app/billing/service.py:104-139 | after any later run a reviewed payment still says who decided, when, and why it was rejected, and its amount is the one of the purchase |
| `Billing.EndIsFinal` | app/billing/service.py:108-112 | an expired or cancelled subscription never changes again, although an approval does not look at the status it overwrites |
| `Billing.ActiveUntilItsEnd` | app/billing/service.py:160-167 | an active subscription stays as it is, through any run, until an expiry pass comes after its end |
| `Billing.ApprovalGrantsPlanDuration` | app/billing/service.py:95-112 | an approval is worth exactly 86400 s for each day of the plan, whatever happens to the plan later: an expiry pass leaves the subscription active up to the end and expires it after |
| `Billing.BotsFollowBilling` | app/billing/service.py:114-177 | over any run in which nobody else writes to it, a userbot is STOPPED or SUSPENDED by the latest approval or expiry of its own user, and as it was if there was none |
| `Billing.ReferenceIdentifiesPayment` | app/billing/repositories.py:51-54 | in every reachable state a reference belongs to at most one payment, and no payment has the placeholder |
| `Billing.StepConservesMoney` | app/billing/service.py:58-68 | the sum over the three payment states grows by the price of an accepted purchase and by nothing else |
| `Billing.MoneyConserved` | app/billing/service.py:43-156 | over any run, with plans repriced at will (app/bot/admin_panel.py:471-472), purchased = in review + approved + rejected |
| `Billing.OpenNeverGrowsWhileActive` | app/billing/service.py:48-54 | while a user has an active subscription, no operation adds a pending or active one |
| `Billing.SingleSubscriptionStaysSingle` | app/billing/repositories.py:29-36 | so over such a run the set only shrinks; if it was one, `active_for_user` finds exactly that one throughout |
| `Billing.SecondActiveIff` | app/billing/service.py:95-112 | an operation breaks "at most one active subscription per user" if and only if it approves a payment of a user who has an active one |
| `Billing.TwoPurchasesTwoActive` | app/billing/service.py:43-112 | the run of four operations after which `active_for_user` raises |
| `Billing.OneMoreExpired` | app/billing/service.py:163-165 | one turn of the expiry loop, whatever was done before it |
| `Billing.ExpiryPass` | app/billing/service.py:160-177 | afterwards nothing is past due; exactly the due rows changed, in their status only; exactly their owners' userbots are SUSPENDED; a second pass at the same time changes nothing |
| `Decimals.DecimalDenotes` | app/billing/service.py:68 | decimal digits read back as the number |
| `Decimals.TextsDistinct` | app/workers/commands.py:68 | two integers have the same decimal text if and only if they are equal |
| `PaymentReference.PaddingKeepsNumber` | app/billing/service.py:68 | zero-padding keeps the number and gives at least the width |
| `PaymentReference.ReferenceDenotesId` | app/billing/service.py:65-69 | round trip: the digits after `PAY-` give the id back, and they are six for ids below a million and as many as the id has otherwise |
| `PaymentReference.ReferencesDistinct` | app/billing/service.py:65-69 | references are equal if and only if the ids are, and none equals `PENDING` |
| `ModuleQuota.ShownCatalogueUnique` | app/modules/manager.py:27-83 | the tables determine which modules are enabled with which settings |
| `ModuleQuota.EnabledRows` | app/modules/manager.py:95-100 | counting enabled rows counts enabled modules, since there is one row per user and module |
| `ModuleQuota.ModuleManager.constructor` | app/modules/manager.py:10-12 | a new manager has nothing installed |
| `ModuleQuota.ModuleManager.CountEnabled` | app/modules/manager.py:95-100 | the number of modules the user has enabled |
| `ModuleQuota.ModuleManager.CheckLimit` | app/modules/manager.py:85-93 | passes if and only if the user has one active subscription with a plan and fewer modules enabled than it allows; otherwise the right error |
| `ModuleQuota.ModuleManager.EnableModule` | app/modules/manager.py:27-40 | refused exactly when the limit check is, changing nothing; otherwise the module is enabled, with the settings it had, and there is still one row per user and module |
| `ModuleQuota.ModuleManager.DisableModule` | app/modules/manager.py:42-52 | an installed module is disabled and keeps its settings; an unknown one is an error |
| `ModuleQuota.ModuleManager.SetModuleSetting` | app/modules/manager.py:54-74 | one setting of an enabled module gets the value, whether or not it had one; otherwise an error and no change |
| `ModuleQuota.ModuleManager.SettingsFor` | app/modules/manager.py:76-83 | exactly the settings of that module, whether it is enabled or not, and none for an unknown one |
| `ModuleQuota.StepWithinQuota` | app/modules/manager.py:85-93 | no operation raises the enabled count except an accepted enable, which ends at or below the plan's limit |
| `ModuleQuota.EnableOutcome` | app/modules/manager.py:85-93 | an enable, case by case: no active subscription or one without a plan is no permission; with exactly one, of a known plan, it is accepted if and only if fewer modules are enabled than that plan allows, and then at most that many are |
| `ModuleQuota.OtherOutcomes` | app/modules/manager.py:42-74 | a disable needs the module installed and keeps its settings; a setting needs it enabled; otherwise the error, and no change |
| `ModuleQuota.PlanLimitHolds` | app/modules/manager.py:27-93 | over any run of billing and module operations together in which the user's active subscriptions, if any, are to one plan, the enabled count never exceeds the larger of its value at the start and the plan's `max_modules` |
| `ModuleQuota.QuotaHolds` | app/modules/manager.py:27-93 | over any run in which no plan allows more than `limit`, the enabled count never exceeds the larger of `limit` and its value at the start |
| `ModuleQuota.SettingsAreLastWrites` | app/modules/manager.py:54-83 | after any run a setting holds the last accepted write to it, also across disable and enable |
| `ModuleQuota.EnabledIffLastSwitchedOn` | app/modules/manager.py:27-52 | after any run a module is enabled if and only if its last accepted switch was on |
| `Sessions.LatestUsable` | app/userbots/repository.py:35-45 | the greatest id among the usable sessions of an account, or none if there are none |
| `Sessions.UserbotService.constructor` | app/userbots/service.py:23-32 | a service over empty tables |
| `Sessions.UserbotService.CompleteAuthorization` | app/userbots/service.py:34-61 | every error undoes everything; otherwise one new session row, the account authorized and its userbot AUTHORIZED, each created only if it did not exist, nothing else changed |
| `Sessions.UserbotService.GetOrCreateAccount` | app/userbots/service.py:98-108 | the one account with that user and phone, a new one, or an error if there are two |
| `Sessions.UserbotService.GetOrCreateUserbot` | app/userbots/service.py:110-118 | the one userbot of the account, which keeps its owner, a new one, or an error if there are two |
| `Sessions.UserbotService.RevokeSessions` | app/userbots/service.py:81-94 | the loop revokes exactly the active sessions of the userbot's account and returns their number |
| `Sessions.UserbotService.RequestBotStart` | app/userbots/service.py:63-69 | a running userbot is left alone and no command is sent; otherwise its status is STARTING and exactly one signed command is appended |
| `Sessions.UserbotService.RequestBotStop` | app/userbots/service.py:71-75 | the status is STOPPING and exactly one signed command is appended |
| `Sessions.UniqueRows` | app/userbots/service.py:98-118 | in every sound state the queries for one row or none never find two |
| `Sessions.AlwaysSound` | app/userbots/service.py:34-118 | in every reachable state: one account per user and phone, one userbot per account, a session active if and only if it has no revocation date |
| `Sessions.EveryAccountHasItsUserbot` | app/userbots/service.py:34-61 | in every reachable state each account is authorized and has exactly one userbot, which belongs to its user |
| `Sessions.LoginOutcome` | app/userbots/service.py:34-61 | in every reachable state a login fails if and only if its session text is empty |
| `Sessions.LoginLeaves` | app/userbots/service.py:43-61 | a login leaves one more session row, active and with the device, its account authorized and its userbot AUTHORIZED, and every row of other accounts as it was |
| `Sessions.StatusFollowsLastWord` | app/userbots/service.py:58-73 | over any run a userbot has the status last given to it: AUTHORIZED by a login to its account, STARTING by a start request unless RUNNING, STOPPING by a stop request; a revocation gives none |
| `Sessions.SessionStoreRefinesHistory` | app/userbots/repository.py:33-48 | after any run, `get_active_session` gives the session of the latest login that no logout followed, as it was handed in, and an error if there is none |
| `Sessions.NewAccountHasNoHistory` | app/userbots/service.py:98-108 | a user and phone without an account have never logged in |
| `Sessions.AuthorizeShows` | app/userbots/service.py:34-61 | a login becomes the current session of its account and of no other |
| `Sessions.RevokeShows` | app/userbots/service.py:81-94 | a revocation leaves its account without a session and every other account with the one it had |
| `SignedQueues.SignedQueue.constructor` | app/workers/commands.py:22-25 | a new queue is empty |
| `SignedQueues.SignedQueue.Push` | app/scheduler/queue.py:21-30 | the body is appended with the signature of its canonical text |
| `SignedQueues.SignedQueue.Pop` | app/workers/commands.py:47-63 | the first entry is removed whether accepted or not; None for an empty queue and for one that is malformed, unsigned, signed wrongly or expired |
| `SignedQueues.AcceptedIff` | app/workers/commands.py:56-63 | an entry is handed on if and only if it has a non-empty signature that is ours for its body, and the body is still current |
| `SignedQueues.SignedQueue.Drain` | app/workers/manager.py:164-174 | one call of a drain loop handles the accepted entries before the first rejected one and leaves what is behind that one |
| `SignedQueues.Send` | app/workers/commands.py:27-45 | a command is appended with its time, an expiry 300 s later and its signature |
| `SignedQueues.OneCall` | app/workers/manager.py:203-207 | a call consumes the longest accepted prefix and at most one rejected entry |
| `SignedQueues.DrainIsComplete` | app/workers/manager.py:164-207 | emptying a queue with k rejected entries takes k calls if the last entry is rejected and k + 1 otherwise; together they handle exactly the accepted entries, once each, in order |
| `SignedQueues.StopsEarlyIff` | app/workers/manager.py:164-170 | one call leaves accepted entries behind if and only if a rejected one stands before one of them |
| `SignedQueues.SentCommandsHandled` | app/workers/commands.py:27-63 | round trip: of the commands sent, the drain loops handle, unchanged and in order, exactly those popped at most 300 s after they were sent |
| `SignedQueues.SentCommandsAccepted` | app/workers/commands.py:47-63 | `pop` accepts exactly those among them |
| `SignedQueues.HandledCommandsWereSent` | app/workers/commands.py:47-63 | if every signature in the queue was issued for a command that was sent, only such commands are handled, with the action, target and expiry they were sent with, whatever was done to the entries |
| `Commands.JoinedDetermines` | app/workers/commands.py:65-68 | fields without the separator can be read back from the joined text, also against fields that contain it |
| `Commands.CanonicalText` | app/workers/commands.py:65-68 | the text of a command: its seven fields in order, separated by bars, a missing actor or role as `None` |
| `Commands.CanonicalDetermines` | app/workers/commands.py:65-68 | the signed text of a command as `send` makes them equals that of another command if and only if the two are equal, but for a missing role and the role `None` |
| `Commands.UnambiguousIff` | app/workers/commands.py:65-68 | its text stands for one command only if and only if it has a role, other than the text `None` |
| `SignedQueues.EnqueuedTasksHandled` | app/scheduler/queue.py:21-43 | every enqueued task is handled, once and in order, by a single call, however long it waited |
| `RateLimiting.RateLimiter.constructor` | app/core/redis.py:26-27 | a new limiter knows no keys |
| `RateLimiting.RateLimiter.Check` | app/core/redis.py:29-36 | accepted if and only if the live counter of the key, after this call, is at most the limit; a refused call counts as well |
| `RateLimiting.RateLimiter.Incr` | app/core/redis.py:32 | the counter of that key goes up by one, or starts again at 1 when it has expired, without touching its time to live or any other key |
| `RateLimiting.FullKeysApart` | app/core/redis.py:31 | different keys have different counters, all under the prefix `ratelimit:` |
| `RateLimiting.CounterInvariant` | app/core/redis.py:29-36 | what a counter says about the log, in every run with any number of keys: it is the number of checks made since its window opened, of which exactly the first L were accepted, and none was made past its deadline |
| `RateLimiting.WindowAcceptsUpToLimit` | app/core/redis.py:32-36 | each window opened by a count of 1 accepts exactly the smaller of L and the number of checks made while it is open |
| `RateLimiting.SlidingBound` | app/core/redis.py:29-36 | every interval as long as the window contains at most 2L - 1 accepted checks of a key, and none if L is not positive |
| `RateLimiting.WorstCaseAttained` | app/core/redis.py:29-36 | for every limit and window a run with exactly 2L - 1 |
| `RateLimiting.RepeatedInWindow` | app/core/redis.py:32-36 | while a window is open, every further check up to the limit is accepted |
| `RateLimiting.RefusalIsJustified` | app/core/redis.py:35-36 | a refusal means that L checks were accepted at most one window ago |
| `Conditions.EvaluateAll` | app/automation/conditions.py:58-75 | the loop: true if and only if the list is empty or some condition that is first or joined by OR holds together with every AND condition after it; an error if and only if some condition raises |
| `Conditions.OneMoreCondition` | app/automation/conditions.py:65-74 | one step of the fold, read on that meaning |
| `Conditions.AllAndIsConjunction` | app/automation/conditions.py:73-74 | without OR it is the conjunction of all conditions |
| `Conditions.FoldIsClausesIff` | app/automation/conditions.py:59-62 | the fold is the announced conjunction of OR-clauses for all outcomes if and only if no OR stands after an AND |
| `Conditions.FoldIsGroupsIff` | app/automation/conditions.py:58-75 | the fold is what AND binding closer than OR gives for all outcomes if and only if no AND stands after an OR |
| `Conditions.FoldOfOutcomes` | app/automation/conditions.py:58-75 | what the loop computes depends on the outcomes and the joins alone, as those two results read it |
| `Conditions.AndThenOrDiffers` | app/automation/conditions.py:59-62 | `a AND b OR c` differs from the announced clauses exactly when c holds and a does not |
| `Conditions.NoPrecedence` | app/automation/conditions.py:58-75 | `a OR b AND c` is (a or b) and c, as announced, and differs from AND binding closer exactly when a holds and c does not |
| `Conditions.OppositeOperators` | app/automation/conditions.py:13-55 | two opposite operators give opposite answers if and only if the test is for existence, or the field is present and, for the numeric ones, both values are comparable |
| `Conditions.NumericOperators` | app/automation/conditions.py:41-48 | on numbers `gt`, `lt`, `gte`, `lte` are >, <, >=, <= with the field on the left; false when a side is no number or the field is missing |
| `Conditions.TextOperators` | app/automation/conditions.py:31-38 | on texts the field is searched for the value: as a prefix, a suffix, a part, or not a part |
| `Conditions.OtherOperators` | app/automation/conditions.py:15-55 | equality, membership, existence and patterns; without the field only `not_exists` holds; an unknown operator is false; only patterns and numeric operators can raise |
| `Conditions.OrInAnyCase` | app/automation/conditions.py:67 | the logic of a condition is OR in any spelling of upper and lower case, and AND otherwise |

## Left out

- Supervisor.FifthCrashIsFinal: the 22 seconds are the fifth delay of 32 less the timeout of 10. It speaks of the moment at which the stop begins and not of how often passes come, because commands and other stops in the same pass take time too.
- Supervisor.SleeperFate: when the sleep ends at the very moment of the deadline, either may come first; the event loop decides that.
- Billing.SingleSubscriptionStaysSingle: at most one active subscription holds only in this conditional form; `SecondActiveIff` says exactly when it fails.
- SchedulerRuns.BoundedWait: assumes positive intervals and no new task at or before the waiting one, as a queue must; `StarvedFromTheStart` shows what the first is for.
- RateLimiting.SlidingBound: `incr` and `expire` are one step; a crash between them leaves a counter without a time to live. Limit and window are the same at each check of a key, as at both callers.
- Conditions.EvaluateAll: comparison, text, patterns and membership of host-language values are parameters; a pattern error and a numeric overflow are errors, as in the code, and the value of a condition stands for what the code extracts from a dictionary.
- Scheduling.IntervalRule: `int()` is modelled on ASCII blanks, signs, digits and underscores; other alphabets' digits and blanks and the limit on very long numerals are not.
- Sessions.SessionStoreRefinesHistory: assumes that decryption gives back what was encrypted; the cipher is a parameter.
- SignedQueues.SentCommandsHandled: assumes that the signer never gives the empty text and that JSON gives back what was written.
- SignedQueues.HandledCommandsWereSent: assumes a signer without collisions; entries have the typed fields of a command, so a missing field or a number written as text, which the code reads as the same text, is not modelled. The canonical text of tasks stays a parameter.
- Commands.CanonicalDetermines: for text fields without the separator, which all those are that the code sends; with separators in them the text may stand for two commands.
- WorkerManagers.WorkerManager.ProcessCommands: a handler that raises, or a JSON entry that is not an object, ends the supervisor's iteration; the entries behind it wait for the next one as they do behind a rejected entry.
- Database sessions: the identity map, row locks and the visibility of uncommitted writes. A table is one map; the rollback of a failed supervisor iteration is one of the outside writes to the rows.
- A disconnect call that raises inside a stop, cancellation in the middle of a status write or before a coroutine's first step, and the shutdown of the manager.
- Executing a task (choosing a runtime and sending the message), heartbeat rows and the loading of module classes: I/O, or easy map facts.
- Telegram clients, event handlers, bots, panels, web routers, configuration and logging.
- Encryption, HMAC and password hashing themselves.
- `request_restart`, which only sends a command, the list queries without a property of their own, receipts, audit records, the module catalogue's own rows, permissions and conversation state.
- Times are whole seconds (milliseconds in the rate limiter); the end of the calendar is modelled for tasks but not for subscriptions. Redis counters do not overflow.
- Statuses that exist in the schema but that nothing modelled here writes: suspended subscriptions, running and failed tasks.
