/** What every run of the scheduler keeps: deliveries against advances, spacing, bounded waiting,
    and what one task that cannot be advanced does to all the others. */
module SchedulerRuns {
  import opened Common
  import opened Decimals
  import opened Scheduling

  // ----- Runs -----

  ghost predicate IsRun(s: State, steps: seq<Step>)
    decreases |steps|, 0
  {
    steps == [] || (IsRun(s, Init(steps)) && Enabled(After(s, Init(steps)), Last(steps)))
  }

  ghost function After(s: State, steps: seq<Step>): State
    requires IsRun(s, steps)
    decreases |steps|, 1
  {
    if steps == [] then s else Apply(After(s, Init(steps)), Last(steps))
  }

  ghost predicate Dispatches(s: State, step: Step, id: int) {
    Commits(s, step) && id in step.batch
  }

  /** The times at which a task was dispatched by a pass that committed. */
  ghost function DispatchTimes(s: State, steps: seq<Step>, id: int): seq<int>
    requires IsRun(s, steps)
  {
    if steps == [] then [] else
    DispatchTimes(s, Init(steps), id) + NewDispatch(After(s, Init(steps)), Last(steps), id)
  }

  ghost function NewDispatch(s: State, step: Step, id: int): seq<int> {
    if Dispatches(s, step, id) then [step.now] else []
  }

  /** How many passes were rolled back after they had pushed the message of a task. */
  ghost function RolledBack(s: State, steps: seq<Step>, id: int): nat
    requires IsRun(s, steps)
  {
    if steps == [] then 0 else
    var before, step := After(s, Init(steps)), Last(steps);
    RolledBack(s, Init(steps), id)
    + (if step.Pass? && !Commits(before, step)
          && id in step.batch[..Reached(before.tasks, step.now, step.batch, step.fault)]
       then 1 else 0)
  }

  /** How many messages of a task are in a list. */
  ghost function Count(messages: seq<Message>, id: int): nat {
    if messages == [] then 0 else (if messages[0].taskId == id then 1 else 0) + Count(messages[1..], id)
  }

  lemma {:induction false} CountConcat(a: seq<Message>, b: seq<Message>, id: int)
    ensures Count(a + b, id) == Count(a, id) + Count(b, id)
  {
    if a == [] {
      assert a + b == b;
    } else {
      CountConcat(a[1..], b, id);
      assert (a + b)[1..] == a[1..] + b;
    }
  }

  lemma {:induction false} CountInBatch(tasks: map<int, Task>, batch: seq<int>, id: int)
    requires forall i | 0 <= i < |batch| :: batch[i] in tasks
    requires forall i, j | 0 <= i < j < |batch| :: batch[i] != batch[j]
    ensures Count(Messages(tasks, batch), id) == if id in batch then 1 else 0
  {
    if batch == [] {
    } else {
      CountInBatch(tasks, batch[1..], id);
    }
  }

  // ----- At least once -----

  lemma NoFaultReachesAll(tasks: map<int, Task>, now: int, batch: seq<int>)
    requires forall i | 0 <= i < |batch| :: batch[i] in tasks
    requires AllAdvance(tasks, now, batch)
    ensures Reached(tasks, now, batch, None) == |batch|
  {
    assert batch[..|batch|] == batch;
    StopsAt(tasks, now, batch, None, |batch|);
  }

  /** Over any run with any failures, a task has been pushed once for each time it was advanced
      and once for each pass that was rolled back after reaching it: never advanced without a
      message, and exactly once for each advance when nothing is rolled back. */
  lemma {:induction false} AtLeastOnce(s: State, steps: seq<Step>, id: int)
    requires IsRun(s, steps)
    ensures Count(After(s, steps).pushed, id)
         == Count(s.pushed, id) + |DispatchTimes(s, steps, id)| + RolledBack(s, steps, id)
  {
    if steps == [] {
    } else {
      AtLeastOnce(s, Init(steps), id);
      var before, step := After(s, Init(steps)), Last(steps);
      if step.Pass? {
        var reached := step.batch[..Reached(before.tasks, step.now, step.batch, step.fault)];
        CountConcat(before.pushed, Messages(before.tasks, reached), id);
        CountInBatch(before.tasks, reached, id);
        if Commits(before, step) {
          NoFaultReachesAll(before.tasks, step.now, step.batch);
          assert reached == step.batch;
        }
      }
    }
  }

  /** A pass that commits pushes, for each task it advances, one message with the task's own
      user, type and payload, and pushes nothing else. */
  lemma CommittedPassDelivers(s: State, step: Step)
    requires Enabled(s, step) && Commits(s, step)
    ensures Apply(s, step).pushed == s.pushed + Messages(s.tasks, step.batch)
    ensures forall id | id in s.tasks :: Apply(s, step).tasks[id] != s.tasks[id] ==> id in step.batch
  {
    NoFaultReachesAll(s.tasks, step.now, step.batch);
    assert step.batch[..|step.batch|] == step.batch;
  }

  // ----- One task -----

  /** All that a step can do to a task: dispatch it, or cancel it at its owner's wish. */
  lemma StepOnTask(s: State, step: Step, id: int)
    requires Enabled(s, step) && id in s.tasks && id < s.nextId
    ensures var s' := Apply(s, step);
            && id in s'.tasks && id < s'.nextId && s.clock <= s'.clock
            && if Dispatches(s, step, id) then
                 && Due(s.tasks[id], step.now) && Advances(s.tasks[id], step.now) && s'.clock == step.now
                 && s'.tasks[id] == Advanced(s.tasks[id], step.now)
               else if step.Cancel? && step.taskId == id && step.userId == s.tasks[id].userId then
                 s'.tasks[id] == s.tasks[id].(status := Cancelled)
               else s'.tasks[id] == s.tasks[id]
  {
    if Dispatches(s, step, id) {
      InBatchIsDue(s.tasks, step.now, step.batch, id);
    }
  }

  lemma InBatchIsDue(tasks: map<int, Task>, now: int, batch: seq<int>, id: int)
    requires IsBatch(tasks, now, batch) && id in batch
    ensures id in DueIds(tasks, now)
  {
    var i :| 0 <= i < |batch| && batch[i] == id;
    assert batch[i] in DueIds(tasks, now);
  }

  lemma {:induction false} TaskKept(s: State, steps: seq<Step>, id: int)
    requires IsRun(s, steps) && id in s.tasks && id < s.nextId
    ensures id in After(s, steps).tasks && id < After(s, steps).nextId
    ensures After(s, steps).tasks[id].rule == s.tasks[id].rule
    ensures s.clock <= After(s, steps).clock
  {
    if steps == [] {
    } else {
      TaskKept(s, Init(steps), id);
      StepOnTask(After(s, Init(steps)), Last(steps), id);
    }
  }

  // ----- What the messages say -----

  /** Every message about the task carries these contents. */
  ghost predicate Says(messages: seq<Message>, id: int, userId: int, kind: string, payload: Payload) {
    forall i | 0 <= i < |messages| && messages[i].taskId == id ::
      messages[i].userId == userId && messages[i].kind == kind && messages[i].payload == payload
  }

  lemma StepSays(s: State, step: Step, id: int)
    requires Enabled(s, step) && id in s.tasks && id < s.nextId && s.tasks[id].payload.Some?
    requires Says(s.pushed, id, s.tasks[id].userId, s.tasks[id].kind, s.tasks[id].payload.value)
    ensures Says(Apply(s, step).pushed, id, s.tasks[id].userId, s.tasks[id].kind, s.tasks[id].payload.value)
  {
  }

  lemma {:induction false} AlwaysSays(s: State, steps: seq<Step>, id: int)
    requires IsRun(s, steps) && id in s.tasks && id < s.nextId && s.tasks[id].payload.Some?
    requires Says(s.pushed, id, s.tasks[id].userId, s.tasks[id].kind, s.tasks[id].payload.value)
    ensures var task, s' := s.tasks[id], After(s, steps);
            && Says(s'.pushed, id, task.userId, task.kind, task.payload.value)
            && id in s'.tasks && id < s'.nextId && s'.tasks[id].userId == task.userId
            && s'.tasks[id].kind == task.kind && s'.tasks[id].payload == task.payload
  {
    if steps == [] {
    } else {
      var before := After(s, Init(steps));
      AlwaysSays(s, Init(steps), id);
      StepOnTask(before, Last(steps), id);
      StepSays(before, Last(steps), id);
    }
  }

  lemma {:induction false} OnlyKnownTasks(steps: seq<Step>)
    requires IsRun(EMPTY, steps)
    ensures forall id | id in After(EMPTY, steps).tasks :: id < After(EMPTY, steps).nextId
    ensures forall m | m in After(EMPTY, steps).pushed :: m.taskId < After(EMPTY, steps).nextId
  {
    if steps == [] {
    } else {
      OnlyKnownTasks(Init(steps));
    }
  }

  /** Whatever is ever pushed about a task, by passes that commit or not, is what it was created with:
      its own user, type and payload. `before` is what happened until it was created. */
  lemma MessagesAreAsCreated(before: seq<Step>, create: Step, steps: seq<Step>)
    requires IsRun(EMPTY, before) && create.Create? && IsRun(Apply(After(EMPTY, before), create), steps)
    ensures var s := After(EMPTY, before);
            Says(After(Apply(s, create), steps).pushed, s.nextId, create.userId, create.kind, create.payload)
  {
    var s := After(EMPTY, before);
    OnlyKnownTasks(before);
    assert forall i | 0 <= i < |s.pushed| :: s.pushed[i] in s.pushed;
    AlwaysSays(Apply(s, create), steps, s.nextId);
  }

  // ----- Spacing -----

  predicate GapsFrom(times: seq<int>, p: int) {
    forall i | 0 < i < |times| :: times[i] - times[i - 1] >= p
  }

  predicate GapsBelow(times: seq<int>, bound: int) {
    forall i | 0 < i < |times| :: times[i] - times[i - 1] < bound
  }

  lemma OneMoreTime(times: seq<int>, t: int, p: int, bound: int)
    ensures Last(times + [t]) == t
    ensures GapsFrom(times, p) && (times != [] ==> t - Last(times) >= p) ==> GapsFrom(times + [t], p)
    ensures GapsBelow(times, bound) && (times != [] ==> t - Last(times) < bound) ==> GapsBelow(times + [t], bound)
  {
  }

  /** Gaps of at least p, and after the latest dispatch at `t` the task is due at t + p, unless it
      was cancelled. */
  ghost predicate Spaced(s: State, times: seq<int>, id: int, p: int) {
    && id in s.tasks && id < s.nextId && Period(s.tasks[id].rule) == Some(p)
    && GapsFrom(times, p)
    && (times != [] && s.tasks[id].status == Pending ==> s.tasks[id].nextRunAt == Some(Last(times) + p))
  }

  lemma StepKeepsSpaced(s: State, step: Step, times: seq<int>, id: int, p: int)
    requires Enabled(s, step) && Spaced(s, times, id, p)
    ensures Spaced(Apply(s, step), times + NewDispatch(s, step, id), id, p)
  {
    StepOnTask(s, step, id);
    if Dispatches(s, step, id) {
      OneMoreTime(times, step.now, p, p);
      assert Apply(s, step).tasks[id].nextRunAt == Some(step.now + p);
    } else {
      assert times + [] == times;
    }
  }

  lemma {:induction false} AlwaysSpaced(s: State, steps: seq<Step>, id: int, p: int)
    requires IsRun(s, steps) && id in s.tasks && id < s.nextId && Period(s.tasks[id].rule) == Some(p)
    ensures Spaced(After(s, steps), DispatchTimes(s, steps, id), id, p)
  {
    if steps == [] {
    } else {
      AlwaysSpaced(s, Init(steps), id, p);
      StepKeepsSpaced(After(s, Init(steps)), Last(steps), DispatchTimes(s, Init(steps), id), id, p);
    }
  }

  lemma {:induction false} GapsAddUp(times: seq<int>, p: int)
    requires times != [] && GapsFrom(times, p)
    ensures (|times| - 1) * p <= Last(times) - times[0]
  {
    if |times| == 1 {
    } else {
      GapsAddUp(Init(times), p);
      assert (|times| - 1) * p == (|times| - 2) * p + p;
    }
  }

  /** Main result on spacing, from below: two dispatches of a task with period p, in any run with
      any passes, are at least p apart, so n dispatches take at least (n - 1) * p seconds. */
  lemma SpacedByPeriod(s: State, steps: seq<Step>, id: int, p: int)
    requires IsRun(s, steps) && id in s.tasks && id < s.nextId && Period(s.tasks[id].rule) == Some(p)
    ensures var times := DispatchTimes(s, steps, id);
            && GapsFrom(times, p)
            && (times != [] ==> (|times| - 1) * p <= Last(times) - times[0])
  {
    AlwaysSpaced(s, steps, id, p);
    if DispatchTimes(s, steps, id) != [] {
      GapsAddUp(DispatchTimes(s, steps, id), p);
    }
  }

  /** Every pass commits, no more than 500 tasks are due at any of them, and each comes at most
      `gap` seconds after the one before; the task in question is not cancelled. */
  ghost predicate Punctual(s: State, steps: seq<Step>, gap: int, id: int)
    requires IsRun(s, steps)
  {
    if steps == [] then true else
    var before, step := After(s, Init(steps)), Last(steps);
    && Punctual(s, Init(steps), gap, id)
    && (step.Pass? ==> Commits(before, step) && step.now - before.clock <= gap)
    && (step.Pass? ==> |DueIds(before.tasks, step.now)| <= 500)
    && !Cancels(before, step, id)
  }

  /** A due list that is not cut short is the set of all due tasks. */
  lemma WholeBatch(tasks: map<int, Task>, now: int, batch: seq<int>)
    requires IsBatch(tasks, now, batch) && |DueIds(tasks, now)| <= 500
    ensures forall id | id in DueIds(tasks, now) :: id in batch
  {
    var taken := set id | id in batch;
    DistinctCardinality(batch);
    SubsetCardinality(taken, DueIds(tasks, now));
  }

  /** No pass has gone by since the latest dispatch at which the task was due again, and the gaps
      so far are short. */
  ghost predicate InTime(s: State, times: seq<int>, id: int, p: int, gap: int) {
    && id in s.tasks && s.tasks[id].status == Pending
    && (times != [] ==> s.clock < Last(times) + p)
    && GapsBelow(times, p + gap)
  }

  lemma StepKeepsInTime(s: State, step: Step, times: seq<int>, id: int, p: int, gap: int)
    requires Enabled(s, step) && Spaced(s, times, id, p) && InTime(s, times, id, p, gap) && p > 0
    requires step.Pass? ==> Commits(s, step) && |DueIds(s.tasks, step.now)| <= 500 && step.now - s.clock <= gap
    requires !Cancels(s, step, id)
    ensures InTime(Apply(s, step), times + NewDispatch(s, step, id), id, p, gap)
  {
    StepOnTask(s, step, id);
    if Dispatches(s, step, id) {
      OneMoreTime(times, step.now, p, p + gap);
    } else {
      assert times + [] == times;
      if step.Pass? {
        WholeBatch(s.tasks, step.now, step.batch);
        assert id !in DueIds(s.tasks, step.now);
      }
    }
  }

  /** Spacing from above: in a punctual run two consecutive dispatches of a task with a positive
      period p are less than p + gap apart. */
  lemma DispatchedInTime(s: State, steps: seq<Step>, id: int, p: int, gap: int)
    requires IsRun(s, steps) && id in s.tasks && id < s.nextId && Period(s.tasks[id].rule) == Some(p)
    requires p > 0 && Punctual(s, steps, gap, id) && s.tasks[id].status == Pending
    ensures GapsBelow(DispatchTimes(s, steps, id), p + gap)
  {
    AlwaysInTime(s, steps, id, p, gap);
  }

  lemma {:induction false} AlwaysInTime(s: State, steps: seq<Step>, id: int, p: int, gap: int)
    requires IsRun(s, steps) && id in s.tasks && id < s.nextId && Period(s.tasks[id].rule) == Some(p)
    requires p > 0 && Punctual(s, steps, gap, id) && s.tasks[id].status == Pending
    ensures InTime(After(s, steps), DispatchTimes(s, steps, id), id, p, gap)
  {
    if steps == [] {
    } else {
      AlwaysInTime(s, Init(steps), id, p, gap);
      AlwaysSpaced(s, Init(steps), id, p);
      StepKeepsInTime(After(s, Init(steps)), Last(steps), DispatchTimes(s, Init(steps), id), id, p, gap);
    }
  }

  lemma {:induction false} WithoutPeriodAtMostOnce(s: State, steps: seq<Step>, id: int)
    requires IsRun(s, steps) && id in s.tasks && id < s.nextId && Period(s.tasks[id].rule) == None
    ensures |DispatchTimes(s, steps, id)| <= 1 && id in After(s, steps).tasks
    ensures var task := After(s, steps).tasks[id];
            DispatchTimes(s, steps, id) != [] ==>
              task.nextRunAt == None && task.status in {Success, Cancelled}
              && (NotCancelled(s, steps, id) ==> task.status == Success)
  {
    TaskKept(s, steps, id);
    if steps == [] {
    } else {
      TaskKept(s, Init(steps), id);
      WithoutPeriodAtMostOnce(s, Init(steps), id);
      StepOnTask(After(s, Init(steps)), Last(steps), id);
    }
  }

  /** A task with no rule, the empty rule, `one_time`, an unknown name or an interval that is no number
      is dispatched by at most one pass that commits. After it there is no next run, and its status is
      success unless its owner cancels it. */
  lemma OneTimeAtMostOnce(s: State, steps: seq<Step>, id: int)
    requires IsRun(s, steps) && id in s.tasks && id < s.nextId && RunsOnce(s.tasks[id].rule)
    ensures |DispatchTimes(s, steps, id)| <= 1 && id in After(s, steps).tasks
    ensures var task := After(s, steps).tasks[id];
            DispatchTimes(s, steps, id) != [] ==>
              task.nextRunAt == None && task.status in {Success, Cancelled}
              && (NotCancelled(s, steps, id) ==> task.status == Success)
  {
    OnceHasNoPeriod(s.tasks[id].rule);
    WithoutPeriodAtMostOnce(s, steps, id);
  }

  /** A committed dispatch of a task with a named rule leaves it pending, due again exactly an hour, a
      day, 7 days or 30 days after the pass. */
  lemma NamedRuleDueAgain(s: State, step: Step, id: int, rule: string, seconds: int)
    requires Enabled(s, step) && id in s.tasks && id < s.nextId && Dispatches(s, step, id)
    requires s.tasks[id].rule == Some(rule)
    requires (rule, seconds) in {("hourly", 3600), ("daily", 86400), ("weekly", 604800), ("monthly", 2592000)}
    ensures id in Apply(s, step).tasks
    ensures Apply(s, step).tasks[id] ==
              s.tasks[id].(lastRunAt := Some(step.now), retryCount := 0, status := Pending,
                           nextRunAt := Some(step.now + seconds))
  {
    StepOnTask(s, step, id);
    NamedNextRun(step.now, rule, seconds);
  }

  /** A task that has just been advanced is due again at the same moment exactly when its rule is
      an interval that is not positive. */
  lemma DueAgainIff(task: Task, now: int)
    requires Advances(task, now)
    ensures Due(Advanced(task, now), now) <==> Period(task.rule).Some? && Period(task.rule).value <= 0
  {
  }

  /** The row of a task remembers its latest committed dispatch, and nothing of those rolled back. */
  lemma {:induction false} LastRunIsLastDispatch(s: State, steps: seq<Step>, id: int)
    requires IsRun(s, steps) && id in s.tasks && id < s.nextId
    ensures id in After(s, steps).tasks
    ensures var times := DispatchTimes(s, steps, id);
            After(s, steps).tasks[id].lastRunAt == if times == [] then s.tasks[id].lastRunAt else Some(Last(times))
  {
    TaskKept(s, steps, id);
    if steps == [] {
    } else {
      TaskKept(s, Init(steps), id);
      LastRunIsLastDispatch(s, Init(steps), id);
      StepOnTask(After(s, Init(steps)), Last(steps), id);
    }
  }

  /** Cancelling is final: over any run, no pass, committed or rolled back, pushes the task again. */
  lemma {:induction false} CancelledIsNeverPushed(s: State, steps: seq<Step>, id: int)
    requires IsRun(s, steps) && id in s.tasks && id < s.nextId && s.tasks[id].status == Cancelled
    ensures id in After(s, steps).tasks && After(s, steps).tasks[id] == s.tasks[id]
    ensures DispatchTimes(s, steps, id) == [] && RolledBack(s, steps, id) == 0
    ensures Count(After(s, steps).pushed, id) == Count(s.pushed, id)
  {
    AtLeastOnce(s, steps, id);
    TaskKept(s, steps, id);
    if steps == [] {
    } else {
      TaskKept(s, Init(steps), id);
      CancelledIsNeverPushed(s, Init(steps), id);
      var before, step := After(s, Init(steps)), Last(steps);
      StepOnTask(before, step, id);
      if step.Pass? && id in step.batch {
        InBatchIsDue(before.tasks, step.now, step.batch, id);
      }
    }
  }

  // ----- Bounded waiting -----

  /** The other tasks that are at or before time `q` in the order of the due list. */
  ghost function AheadIds(s: State, id: int, q: int): set<int> {
    set y | y in s.tasks && y != id && s.tasks[y].status == Pending && s.tasks[y].nextRunAt.Some?
      && s.tasks[y].nextRunAt.value <= q
  }

  predicate Forward(rule: Option<string>) {
    Period(rule).Some? ==> Period(rule).value > 0
  }

  /** The owner's cancellation of a task. */
  ghost predicate Cancels(s: State, step: Step, id: int) {
    step.Cancel? && step.taskId == id && id in s.tasks && s.tasks[id].userId == step.userId
  }

  /** New tasks are first due after `q` and no interval is zero or negative; the waiting task is not
      cancelled. Passes may come at any time, and commit or not. */
  ghost predicate Orderly(s: State, steps: seq<Step>, id: int, q: int)
    requires IsRun(s, steps)
  {
    if steps == [] then true else
    var before, step := After(s, Init(steps)), Last(steps);
    && Orderly(s, Init(steps), id, q)
    && (step.Create? ==> step.runAt > q && Forward(step.rule))
    && !Cancels(before, step, id)
  }

  /** How many passes committed at time `q` or later. */
  ghost function CommittedFrom(s: State, steps: seq<Step>, q: int): nat
    requires IsRun(s, steps)
  {
    if steps == [] then 0 else
    CommittedFrom(s, Init(steps), q)
    + (if Commits(After(s, Init(steps)), Last(steps)) && q <= Last(steps).now then 1 else 0)
  }

  ghost predicate Waiting(s: State, id: int, q: int) {
    && id in s.tasks && s.tasks[id].status == Pending && s.tasks[id].nextRunAt == Some(q)
    && (forall y | y in s.tasks :: y < s.nextId && Forward(s.tasks[y].rule))
  }

  /** A pass that leaves the waiting task out takes 500 tasks from ahead of it, and none of them
      comes back ahead. */
  lemma PassOvertakesNobody(s: State, step: Step, id: int, q: int)
    requires Waiting(s, id, q) && Enabled(s, step) && Commits(s, step) && q <= step.now
    requires id !in step.batch
    ensures |AheadIds(Apply(s, step), id, q)| + 500 <= |AheadIds(s, id, q)|
  {
    var before, after, taken := AheadIds(s, id, q), AheadIds(Apply(s, step), id, q), set y | y in step.batch;
    assert id in DueIds(s.tasks, step.now);
    DistinctCardinality(step.batch);
    forall y | y in taken ensures y in before {
      TakenFromAhead(s, step, id, q, y);
    }
    forall y | y in after ensures y in before - taken {
      NotBackAhead(s, step, id, q, y);
    }
    SubsetCardinality(after, before - taken);
    assert before == (before - taken) + taken;
  }

  lemma TakenFromAhead(s: State, step: Step, id: int, q: int, y: int)
    requires Waiting(s, id, q) && Enabled(s, step) && step.Pass? && q <= step.now
    requires id !in step.batch && y in step.batch
    ensures y in AheadIds(s, id, q)
  {
    InBatchIsDue(s.tasks, step.now, step.batch, y);
    assert id in DueIds(s.tasks, step.now);
    var i :| 0 <= i < |step.batch| && step.batch[i] == y;
    assert NextAt(s.tasks, step.batch[i]) <= NextAt(s.tasks, id);
  }

  lemma NotBackAhead(s: State, step: Step, id: int, q: int, y: int)
    requires Waiting(s, id, q) && Enabled(s, step) && Commits(s, step)
    requires y in AheadIds(Apply(s, step), id, q)
    ensures y in AheadIds(s, id, q)
    ensures q <= step.now ==> y !in step.batch
  {
    StepOnTask(s, step, y);
  }

  /** In an orderly run nobody gets ahead of the waiting task. */
  lemma NobodyGetsAhead(s: State, step: Step, id: int, q: int)
    requires Waiting(s, id, q) && Enabled(s, step) && !Cancels(s, step, id) && !Dispatches(s, step, id)
    requires step.Create? ==> step.runAt > q && Forward(step.rule)
    ensures Waiting(Apply(s, step), id, q)
    ensures |AheadIds(Apply(s, step), id, q)| <= |AheadIds(s, id, q)|
  {
    StepOnTask(s, step, id);
    var after := AheadIds(Apply(s, step), id, q);
    forall y | y in after ensures y in AheadIds(s, id, q) {
      if Commits(s, step) {
        NotBackAhead(s, step, id, q, y);
      }
    }
    SubsetCardinality(after, AheadIds(s, id, q));
  }

  lemma {:induction false} QueueShrinks(s: State, steps: seq<Step>, id: int, q: int)
    requires Waiting(s, id, q) && IsRun(s, steps) && Orderly(s, steps, id, q)
    requires DispatchTimes(s, steps, id) == []
    ensures Waiting(After(s, steps), id, q)
    ensures |AheadIds(After(s, steps), id, q)| + 500 * CommittedFrom(s, steps, q) <= |AheadIds(s, id, q)|
  {
    if steps == [] {
    } else {
      QueueShrinks(s, Init(steps), id, q);
      var before, step := After(s, Init(steps)), Last(steps);
      NobodyGetsAhead(before, step, id, q);
      if Commits(before, step) && q <= step.now {
        PassOvertakesNobody(before, step, id, q);
      }
    }
  }

  /** Main result on waiting: a due task with r other tasks at or before it is dispatched within
      r / 500 + 1 committed passes, however many tasks there are behind it and however many passes
      are rolled back meanwhile. */
  lemma BoundedWait(s: State, steps: seq<Step>, id: int, q: int)
    requires Waiting(s, id, q) && IsRun(s, steps) && Orderly(s, steps, id, q)
    requires CommittedFrom(s, steps, q) > |AheadIds(s, id, q)| / 500
    ensures DispatchTimes(s, steps, id) != []
    ensures Count(After(s, steps).pushed, id) > Count(s.pushed, id)
  {
    AtLeastOnce(s, steps, id);
    if DispatchTimes(s, steps, id) == [] {
      QueueShrinks(s, steps, id, q);
      assert false;
    }
  }

  // ----- One task that cannot be advanced -----

  lemma {:induction false} NeverAdvanced(s: State, steps: seq<Step>, id: int, q: int, p: int)
    requires Waiting(s, id, q) && IsRun(s, steps)
    requires Period(s.tasks[id].rule) == Some(p) && q + p > MAX_TIME
    ensures DispatchTimes(s, steps, id) == []
    ensures id in After(s, steps).tasks && After(s, steps).tasks[id].nextRunAt == Some(q)
  {
    TaskKept(s, steps, id);
    if steps == [] {
    } else {
      TaskKept(s, Init(steps), id);
      NeverAdvanced(s, Init(steps), id, q, p);
      StepOnTask(After(s, Init(steps)), Last(steps), id);
    }
  }

  /** A task whose next run would lie beyond the last date stops the scheduler: with r tasks at or
      before it, no more than r / 500 passes commit once it is due, in any orderly run whatever. */
  lemma StuckTaskStopsCommits(s: State, steps: seq<Step>, id: int, q: int, p: int)
    requires Waiting(s, id, q) && IsRun(s, steps) && Orderly(s, steps, id, q)
    requires Period(s.tasks[id].rule) == Some(p) && q + p > MAX_TIME
    ensures CommittedFrom(s, steps, q) <= |AheadIds(s, id, q)| / 500
  {
    NeverAdvanced(s, steps, id, q, p);
    QueueShrinks(s, steps, id, q);
  }

  lemma {:induction false} NoCommitNoDispatch(s: State, steps: seq<Step>, q: int, other: int)
    requires IsRun(s, steps) && CommittedFrom(s, steps, q) == 0
    ensures forall t | t in DispatchTimes(s, steps, other) :: t < q
  {
    if steps == [] {
    } else {
      NoCommitNoDispatch(s, Init(steps), q, other);
    }
  }

  /** With fewer than 500 tasks at or before it, it stops everything from its due time on: no pass
      commits any more, and no dispatch of any task whatever is recorded. */
  lemma StuckTaskStopsEverything(s: State, steps: seq<Step>, id: int, q: int, p: int, other: int)
    requires Waiting(s, id, q) && IsRun(s, steps) && Orderly(s, steps, id, q)
    requires Period(s.tasks[id].rule) == Some(p) && q + p > MAX_TIME && |AheadIds(s, id, q)| < 500
    ensures CommittedFrom(s, steps, q) == 0
    ensures forall t | t in DispatchTimes(s, steps, other) :: t < q
  {
    StuckTaskStopsCommits(s, steps, id, q, p);
    NoCommitNoDispatch(s, steps, q, other);
  }

  const EMPTY := State(map[], 1, [], 0)

  /** Nothing refuses such a task, and `IntervalRule` says how to write its rule: created in an empty
      table, it lets no pass at its due time or later ever commit. */
  lemma StuckFromTheStart(create: Step, p: int, steps: seq<Step>)
    requires create.Create? && Period(create.rule) == Some(p) && p > 0 && create.runAt + p > MAX_TIME
    requires IsRun(Apply(EMPTY, create), steps) && Orderly(Apply(EMPTY, create), steps, 1, create.runAt)
    ensures CommittedFrom(Apply(EMPTY, create), steps, create.runAt) == 0
  {
    var s := Apply(EMPTY, create);
    assert AheadIds(s, 1, create.runAt) == {};
    StuckTaskStopsCommits(s, steps, 1, create.runAt, p);
  }

  // ----- Intervals that are not positive -----

  /** A due task with such an interval stays due: after any run that does not cancel it, however
      often it was dispatched. */
  lemma {:induction false} DueForEver(s: State, steps: seq<Step>, id: int, p: int)
    requires IsRun(s, steps) && id in s.tasks && id < s.nextId && Due(s.tasks[id], s.clock)
    requires Period(s.tasks[id].rule) == Some(p) && p <= 0 && NotCancelled(s, steps, id)
    ensures id in After(s, steps).tasks && Due(After(s, steps).tasks[id], After(s, steps).clock)
  {
    TaskKept(s, steps, id);
    if steps == [] {
    } else {
      TaskKept(s, Init(steps), id);
      DueForEver(s, Init(steps), id, p);
      StepOnTask(After(s, Init(steps)), Last(steps), id);
    }
  }

  ghost predicate NotCancelled(s: State, steps: seq<Step>, id: int)
    requires IsRun(s, steps)
  {
    steps == [] || (NotCancelled(s, Init(steps), id) && !Cancels(After(s, Init(steps)), Last(steps), id))
  }

  /** A task that is due before `q` and, whenever it is dispatched between `from` and `to`, due before
      `q` again. */
  ghost predicate Returns(task: Task, q: int, from: int, to: int) {
    && task.status == Pending && task.nextRunAt.Some? && task.nextRunAt.value < q
    && Period(task.rule).Some? && 0 <= from + Period(task.rule).value && to + Period(task.rule).value < q
  }

  /** A task due at `q` behind 500 such tasks. */
  ghost predicate Crowded(s: State, id: int, crowd: set<int>, q: int, from: int, to: int) {
    && id in s.tasks && id < s.nextId && id !in crowd && |crowd| >= 500
    && s.tasks[id].status == Pending && s.tasks[id].nextRunAt == Some(q)
    && (forall h | h in crowd :: h in s.tasks && h < s.nextId && Returns(s.tasks[h], q, from, to))
  }

  /** All passes come between `from` and `to`, and none of these tasks is cancelled. */
  ghost predicate Undisturbed(s: State, steps: seq<Step>, id: int, crowd: set<int>, from: int, to: int)
    requires IsRun(s, steps)
  {
    if steps == [] then true else
    var before, step := After(s, Init(steps)), Last(steps);
    && Undisturbed(s, Init(steps), id, crowd, from, to)
    && (step.Pass? ==> from <= step.now <= to)
    && !Cancels(before, step, id) && forall h | h in crowd :: !Cancels(before, step, h)
  }

  lemma CrowdFillsTheBatch(s: State, step: Step, id: int, crowd: set<int>, q: int, from: int, to: int)
    requires Crowded(s, id, crowd, q, from, to) && q <= from && Enabled(s, step) && step.Pass? && from <= step.now
    ensures id !in step.batch
  {
    var taken := set y | y in step.batch;
    DistinctCardinality(step.batch);
    assert forall h | h in crowd :: h in DueIds(s.tasks, step.now) && NextAt(s.tasks, h) < q;
    if id in step.batch {
      if crowd <= taken {
        SubsetCardinality(crowd + {id}, taken);
      } else {
        var h := Pick(crowd - taken);
        assert false;
      }
    }
  }

  lemma StepKeepsCrowd(s: State, step: Step, id: int, crowd: set<int>, q: int, from: int, to: int)
    requires Crowded(s, id, crowd, q, from, to) && q <= from && Enabled(s, step)
    requires step.Pass? ==> from <= step.now <= to
    requires !Cancels(s, step, id) && forall h | h in crowd :: !Cancels(s, step, h)
    ensures Crowded(Apply(s, step), id, crowd, q, from, to) && !Dispatches(s, step, id)
  {
    if step.Pass? {
      CrowdFillsTheBatch(s, step, id, crowd, q, from, to);
    }
    StepOnTask(s, step, id);
    forall h | h in crowd ensures Returns(Apply(s, step).tasks[h], q, from, to) {
      StepOnTask(s, step, h);
    }
  }

  /** Why the bound on waiting needs positive intervals: behind 500 tasks whose intervals are that
      far below zero a due task is never pushed, whatever passes there are in that time. */
  lemma CrowdedOut(s: State, steps: seq<Step>, id: int, crowd: set<int>, q: int, from: int, to: int)
    requires Crowded(s, id, crowd, q, from, to) && q <= from
    requires IsRun(s, steps) && Undisturbed(s, steps, id, crowd, from, to)
    ensures Crowded(After(s, steps), id, crowd, q, from, to)
    ensures DispatchTimes(s, steps, id) == [] && Count(After(s, steps).pushed, id) == Count(s.pushed, id)
  {
    NoMessageWhileCrowded(s, steps, id, crowd, q, from, to);
    AtLeastOnce(s, steps, id);
  }

  lemma {:induction false} NoMessageWhileCrowded(s: State, steps: seq<Step>, id: int, crowd: set<int>, q: int,
                                                 from: int, to: int)
    requires Crowded(s, id, crowd, q, from, to) && q <= from
    requires IsRun(s, steps) && Undisturbed(s, steps, id, crowd, from, to)
    ensures Crowded(After(s, steps), id, crowd, q, from, to)
    ensures DispatchTimes(s, steps, id) == [] && RolledBack(s, steps, id) == 0
  {
    if steps == [] {
    } else {
      var before, step := After(s, Init(steps)), Last(steps);
      NoMessageWhileCrowded(s, Init(steps), id, crowd, q, from, to);
      StepKeepsCrowd(before, step, id, crowd, q, from, to);
      if step.Pass? {
        CrowdFillsTheBatch(before, step, id, crowd, q, from, to);
      }
    }
  }

  // ----- The due list exists -----

  lemma {:induction false} Earliest(tasks: map<int, Task>, ids: set<int>) returns (first: int)
    requires ids != {} && forall id | id in ids :: id in tasks && tasks[id].nextRunAt.Some?
    ensures first in ids && forall id | id in ids :: NextAt(tasks, first) <= NextAt(tasks, id)
    decreases |ids|
  {
    var x := Pick(ids);
    if ids == {x} {
      first := x;
    } else {
      assert ids - {x} != {};
      var y := Earliest(tasks, ids - {x});
      first := if NextAt(tasks, x) <= NextAt(tasks, y) then x else y;
    }
  }

  /** The first `n` of a set of tasks in the order of their next run. */
  lemma {:induction false} FirstInOrder(tasks: map<int, Task>, ids: set<int>, n: nat) returns (list: seq<int>)
    requires forall id | id in ids :: id in tasks && tasks[id].nextRunAt.Some?
    ensures |list| <= n && forall i | 0 <= i < |list| :: list[i] in ids
    ensures forall i, j | 0 <= i < j < |list| :: list[i] != list[j] && NextAt(tasks, list[i]) <= NextAt(tasks, list[j])
    ensures forall id | id in ids && id !in list ::
              |list| == n && forall i | 0 <= i < |list| :: NextAt(tasks, list[i]) <= NextAt(tasks, id)
    decreases n
  {
    if n == 0 || ids == {} {
      list := [];
    } else {
      var first := Earliest(tasks, ids);
      var rest := FirstInOrder(tasks, ids - {first}, n - 1);
      list := [first] + rest;
    }
  }

  /** At every moment a pass is possible. */
  lemma PassAlwaysPossible(s: State, now: int)
    requires s.clock <= now
    ensures exists batch :: Enabled(s, Pass(now, batch, None))
  {
    var batch := FirstInOrder(s.tasks, DueIds(s.tasks, now), BATCH);
    assert Enabled(s, Pass(now, batch, None));
  }

  // ----- A crowd can gather, and passes go on committing -----

  /** One committed pass among 500 such tasks. */
  lemma CrowdedPass(s: State, id: int, crowd: set<int>, q: int, from: int, to: int, now: int) returns (step: Step)
    requires Crowded(s, id, crowd, q, from, to) && q <= from <= now <= to && s.clock <= now && q <= MAX_TIME
    requires s.tasks.Keys == crowd + {id}
    ensures Enabled(s, step) && Commits(s, step) && step.now == now
    ensures Apply(s, step).tasks.Keys == s.tasks.Keys
  {
    var batch := FirstInOrder(s.tasks, DueIds(s.tasks, now), BATCH);
    step := Pass(now, batch, None);
    CrowdFillsTheBatch(s, step, id, crowd, q, from, to);
    forall h | h in batch && h in s.tasks ensures Advances(s.tasks[h], now) {
      assert h in crowd;
      ReturnsAdvances(s.tasks[h], q, from, to, now);
    }
    assert AllAdvance(s.tasks, now, batch);
  }

  lemma ReturnsAdvances(task: Task, q: int, from: int, to: int, now: int)
    requires Returns(task, q, from, to) && from <= now <= to && q <= MAX_TIME
    ensures Advances(task, now)
  {
  }

  lemma OneMoreStep(s: State, steps: seq<Step>, step: Step)
    requires IsRun(s, steps) && Enabled(After(s, steps), step)
    ensures IsRun(s, steps + [step]) && After(s, steps + [step]) == Apply(After(s, steps), step)
  {
    InitOfAppend(steps, step);
  }

  lemma OneMorePass(s: State, before: seq<Step>, id: int, crowd: set<int>, q: int, from: int, to: int, now: int)
    returns (steps: seq<Step>)
    requires Crowded(s, id, crowd, q, from, to) && q <= from <= now <= to && q <= MAX_TIME
    requires IsRun(s, before) && Undisturbed(s, before, id, crowd, from, to)
    requires After(s, before).tasks.Keys == crowd + {id} && After(s, before).clock <= now
    ensures IsRun(s, steps) && Undisturbed(s, steps, id, crowd, from, to)
    ensures CommittedFrom(s, steps, q) == CommittedFrom(s, before, q) + 1
    ensures |steps| == |before| + 1 && before <= steps && Last(steps).Pass? && Last(steps).now == now
    ensures After(s, steps).tasks.Keys == crowd + {id} && After(s, steps).clock == now
  {
    NoMessageWhileCrowded(s, before, id, crowd, q, from, to);
    var step := CrowdedPass(After(s, before), id, crowd, q, from, to, now);
    OneMoreStep(s, before, step);
    InitOfAppend(before, step);
    steps := before + [step];
  }

  /** Passes at any times in that interval. */
  lemma {:induction false} CrowdedRun(s: State, id: int, crowd: set<int>, q: int, from: int, to: int, times: seq<int>)
    returns (steps: seq<Step>)
    requires Crowded(s, id, crowd, q, from, to) && s.clock <= from && q <= from && q <= MAX_TIME
    requires s.tasks.Keys == crowd + {id} && Ascending(times, from, to)
    ensures IsRun(s, steps) && Undisturbed(s, steps, id, crowd, from, to)
    ensures CommittedFrom(s, steps, q) == |steps| && At(steps, times)
    ensures After(s, steps).tasks.Keys == s.tasks.Keys
    ensures After(s, steps).clock == if times == [] then s.clock else Last(times)
    decreases |times|
  {
    if times == [] {
      steps := [];
    } else {
      AscendingPrefix(times, from, to);
      var before := CrowdedRun(s, id, crowd, q, from, to, Init(times));
      steps := OneMorePass(s, before, id, crowd, q, from, to, Last(times));
      OneMoreAt(before, steps, times);
    }
  }

  lemma AscendingPrefix(times: seq<int>, from: int, to: int)
    requires times != [] && Ascending(times, from, to)
    ensures Ascending(Init(times), from, to) && from <= Last(times) <= to
    ensures Init(times) != [] ==> Last(Init(times)) <= Last(times)
  {
  }

  lemma OneMoreAt(before: seq<Step>, steps: seq<Step>, times: seq<int>)
    requires times != [] && At(before, Init(times)) && |steps| == |before| + 1 && before <= steps
    requires Last(steps).Pass? && Last(steps).now == Last(times)
    ensures At(steps, times)
  {
    forall i | 0 <= i < |steps| ensures steps[i].Pass? && steps[i].now == times[i] {
      assert i < |before| ==> steps[i] == before[i];
    }
  }

  predicate Ascending(times: seq<int>, from: int, to: int) {
    && (forall i | 0 <= i < |times| :: from <= times[i] <= to)
    && (forall i, j | 0 <= i < j < |times| :: times[i] <= times[j])
  }

  /** The steps are passes at these times. */
  predicate At(steps: seq<Step>, times: seq<int>) {
    |steps| == |times| && forall i | 0 <= i < |steps| :: steps[i].Pass? && steps[i].now == times[i]
  }

  function NewCrowdTask(rule: Option<string>): Step {
    Create(1, "send_message", map[], 0, rule)
  }

  function CrowdTask(rule: Option<string>): Task {
    NewTask(1, "send_message", map[], 0, rule)
  }

  /** `n` equal tasks. */
  function CrowdOf(n: nat, task: Task): (tasks: map<int, Task>)
    ensures forall h | h in tasks :: 1 <= h <= n && tasks[h] == task
  {
    if n == 0 then map[] else CrowdOf(n - 1, task)[n := task]
  }

  function Gathering(n: nat, rule: Option<string>): seq<Step> {
    if n == 0 then [] else Gathering(n - 1, rule) + [NewCrowdTask(rule)]
  }

  lemma {:induction false} CrowdSize(n: nat, task: Task)
    ensures |CrowdOf(n, task).Keys| == n
  {
    if n == 0 {
    } else {
      CrowdSize(n - 1, task);
      assert n !in CrowdOf(n - 1, task);
      assert CrowdOf(n, task).Keys == CrowdOf(n - 1, task).Keys + {n};
    }
  }

  lemma {:induction false} CrowdGathers(n: nat, rule: Option<string>)
    ensures IsRun(EMPTY, Gathering(n, rule))
    ensures After(EMPTY, Gathering(n, rule)) == State(CrowdOf(n, CrowdTask(rule)), n + 1, [], 0)
  {
    if n == 0 {
    } else {
      CrowdGathers(n - 1, rule);
      OneMoreStep(EMPTY, Gathering(n - 1, rule), NewCrowdTask(rule));
    }
  }

  /** `n` such tasks and then one that is due at `q`. */
  lemma CrowdAndOne(n: nat, rule: Option<string>, q: int) returns (creates: seq<Step>)
    requires n == 500 && 0 < q && Period(rule) == Some(-q)
    ensures IsRun(EMPTY, creates)
    ensures var s := After(EMPTY, creates);
            && s.tasks.Keys == CrowdOf(n, CrowdTask(rule)).Keys + {501} && s.clock == 0 && s.pushed == []
            && Crowded(s, 501, CrowdOf(n, CrowdTask(rule)).Keys, q, q, 2 * q - 1)
  {
    var last := Create(1, "send_message", map[], q, None);
    CrowdGathers(n, rule);
    CrowdSize(n, CrowdTask(rule));
    OneMoreStep(EMPTY, Gathering(n, rule), last);
    creates := Gathering(n, rule) + [last];
    assert Returns(CrowdTask(rule), q, q, 2 * q - 1);
  }

  ghost predicate Starved(s: State, passes: seq<Step>, id: int, q: int, times: seq<int>) {
    && id in s.tasks && s.tasks[id].status == Pending && s.tasks[id].nextRunAt == Some(q)
    && IsRun(s, passes) && At(passes, times) && CommittedFrom(s, passes, q) == |passes|
    && DispatchTimes(s, passes, id) == [] && Count(After(s, passes).pushed, id) == Count(s.pushed, id)
  }

  lemma CrowdStarves(s: State, id: int, crowd: set<int>, q: int, to: int, times: seq<int>) returns (passes: seq<Step>)
    requires Crowded(s, id, crowd, q, q, to) && s.clock <= q <= MAX_TIME && s.tasks.Keys == crowd + {id}
    requires Ascending(times, q, to)
    ensures Starved(s, passes, id, q, times)
  {
    passes := CrowdedRun(s, id, crowd, q, q, to, times);
    PassesStarve(s, passes, id, crowd, q, to, times);
  }

  lemma PassesStarve(s: State, passes: seq<Step>, id: int, crowd: set<int>, q: int, to: int, times: seq<int>)
    requires Crowded(s, id, crowd, q, q, to) && IsRun(s, passes) && Undisturbed(s, passes, id, crowd, q, to)
    requires CommittedFrom(s, passes, q) == |passes| && At(passes, times)
    ensures Starved(s, passes, id, q, times)
  {
    CrowdedOut(s, passes, id, crowd, q, q, to);
  }

  /** The failing run, from an empty table: 500 tasks with the interval -q, which `IntervalRule` says
      how to write, and then one that is due at `q`. Passes at any times from then until just before
      2q all commit, and none of them pushes that task, although it is due at each. */
  lemma StarvedFromTheStart(n: nat, rule: Option<string>, q: int, times: seq<int>)
    returns (creates: seq<Step>, passes: seq<Step>)
    requires n == 500 && 0 < q <= MAX_TIME && Period(rule) == Some(-q) && Ascending(times, q, 2 * q - 1)
    ensures IsRun(EMPTY, creates) && Starved(After(EMPTY, creates), passes, n + 1, q, times)
  {
    creates := CrowdAndOne(n, rule, q);
    passes := CrowdStarves(After(EMPTY, creates), n + 1, CrowdOf(n, CrowdTask(rule)).Keys, q, 2 * q - 1, times);
  }
}
