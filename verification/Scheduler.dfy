/** Scheduled tasks: repeat rules, the due list, one dispatch pass, and the tick that commits it
    or rolls it back (`app/scheduler`).

    Times are seconds since the first representable date. A run is a sequence of steps: tasks
    are created and cancelled at any moment, and passes are made at times that never go back. */
module Scheduling {
  import opened Common
  import opened Decimals
  import Billing

  const BATCH := 500
  const HOUR := 3600
  const DAY := 86400
  /** The last second of year 9999: a later date raises an error that `next_run_after` does not catch. */
  const MAX_TIME := 315537897599

  // ----- Repeat rules -----

  predicate IsSpace(c: char) {
    c == ' ' || '\t' <= c <= '\r'
  }

  function Stripped(s: string): string
    decreases |s|
  {
    if s == "" then s
    else if IsSpace(s[0]) then Stripped(s[1..])
    else if IsSpace(s[|s| - 1]) then Stripped(s[..|s| - 1])
    else s
  }

  /** Decimal digits, with single underscores allowed between them. */
  function Digits(s: string): Option<nat>
    decreases |s|
  {
    if s == "" || !('0' <= s[|s| - 1] <= '9') then None else
    var d := s[|s| - 1] as int - '0' as int;
    var init := s[..|s| - 1];
    if init == "" then Some(d) else
    match Digits(if init[|init| - 1] == '_' then init[..|init| - 1] else init)
    case None => None
    case Some(n) => Some(10 * n + d)
  }

  /** The built-in `int` on text; None stands for its ValueError. */
  function ParseInt(s: string): Option<int> {
    var text := Stripped(s);
    if text != "" && text[0] == '-' then
      var n := Digits(text[1..]);
      (match n case Some(m) => Some(0 - (m as int)) case None => None)
    else
      var n := Digits(if text != "" && text[0] == '+' then text[1..] else text);
      if n.Some? then Some(n.value) else None
  }

  /** How many seconds after a run the next one is due; None for a rule that does not repeat. */
  function Period(rule: Option<string>): Option<int> {
    match rule
    case None => None
    case Some(r) =>
      if r == "" || r == "one_time" then None
      else if r == "daily" then Some(DAY)
      else if r == "weekly" then Some(7 * DAY)
      else if r == "monthly" then Some(30 * DAY)
      else if r == "hourly" then Some(HOUR)
      else if "interval:" <= r then ParseInt(r[9..])
      else None
  }

  /** The result of `next_run_after`: no next run, a date, or an uncaught error. */
  datatype Next = Finished | At(time: int) | Overflow

  function NextRunAfter(runAt: int, rule: Option<string>): Next {
    match Period(rule)
    case None => Finished
    case Some(p) => if 0 <= runAt + p <= MAX_TIME then At(runAt + p) else Overflow
  }

  lemma {:induction false} DecimalParses(n: nat)
    ensures Digits(Decimal(n)) == Some(n)
    ensures AllDigits(Decimal(n)) && Decimal(n) != ""
  {
    DecimalDenotes(n);
    var text := Decimal(n);
    if n < 10 {
    } else {
      DecimalParses(n / 10);
      assert text[..|text| - 1] == Decimal(n / 10);
    }
  }

  /** What follows the colon is read as a number. */
  lemma IntervalText(text: string)
    ensures Period(Some("interval:" + text)) == ParseInt(text)
  {
    var rule := "interval:" + text;
    assert rule[9..] == text && rule[8] == ':';
  }

  lemma NumberParses(n: int)
    ensures ParseInt(Text(n)) == Some(n)
  {
    if n < 0 {
      NegativeNumberParses(-n);
    } else {
      DecimalParses(n);
      assert Stripped(Decimal(n)) == Decimal(n);
    }
  }

  lemma NegativeNumberParses(n: nat)
    ensures ParseInt("-" + Decimal(n)) == Some(0 - n as int)
  {
    DecimalParses(n);
    var text := "-" + Decimal(n);
    assert text[1..] == Decimal(n) && Stripped(text) == text;
  }

  /** Every number of seconds can be asked for, those below zero too: `interval:n` repeats after n
      seconds. */
  lemma IntervalRule(n: int)
    ensures Period(Some("interval:" + Text(n))) == Some(n)
  {
    NumberParses(n);
    IntervalText(Text(n));
  }

  /** The named rules are intervals, a month being 30 days. */
  lemma NamedRulesAreIntervals(rule: string, days: int)
    requires (rule, days) in {("daily", 1), ("weekly", 7), ("monthly", 30)}
    ensures Period(Some(rule)) == Period(Some("interval:" + Text(days * 86400)))
    ensures Period(Some("hourly")) == Period(Some("interval:" + Text(3600)))
  {
    IntervalRule(days * 86400);
    IntervalRule(3600);
  }

  predicate NumberChar(c: char) {
    '0' <= c <= '9' || c in "+-_" || IsSpace(c)
  }

  lemma {:induction false} DigitsAreDigits(s: string)
    ensures Digits(s).Some? ==> s != "" && forall i | 0 <= i < |s| :: '0' <= s[i] <= '9' || s[i] == '_'
    decreases |s|
  {
    if s == "" || !('0' <= s[|s| - 1] <= '9') {
    } else {
      var init := s[..|s| - 1];
      if init != "" {
        DigitsAreDigits(if init[|init| - 1] == '_' then init[..|init| - 1] else init);
      }
    }
  }

  lemma {:induction false} StrippedKeeps(s: string, i: nat)
    requires i < |s| && !IsSpace(s[i])
    ensures s[i] in Stripped(s)
    decreases |s|
  {
    if IsSpace(s[0]) {
      StrippedKeeps(s[1..], i - 1);
    } else if IsSpace(s[|s| - 1]) {
      StrippedKeeps(s[..|s| - 1], i);
    } else {
      assert Stripped(s) == s;
    }
  }

  /** A text with any other character is not a number, and neither is the empty one. */
  lemma NotANumber(text: string)
    requires text == "" || exists i | 0 <= i < |text| :: !NumberChar(text[i])
    ensures ParseInt(text) == None
  {
    var stripped := Stripped(text);
    if text != "" {
      var i :| 0 <= i < |text| && !NumberChar(text[i]);
      StrippedKeeps(text, i);
      var k :| 0 <= k < |stripped| && stripped[k] == text[i];
      if stripped[0] in "+-" {
        assert stripped[1..][k - 1] == text[i];
        DigitsAreDigits(stripped[1..]);
      } else {
        DigitsAreDigits(stripped);
      }
    }
  }

  /** The rules of tasks that run once: none, the empty one, `one_time`, any name that is not known, and
      an interval that is not a number. */
  predicate RunsOnce(rule: Option<string>) {
    rule.Some? ==>
      || rule.value in {"", "one_time"}
      || (rule.value !in {"daily", "weekly", "monthly", "hourly"} && !("interval:" <= rule.value))
      || ("interval:" <= rule.value && NoNumberIn(rule.value[9..]))
  }

  predicate NoNumberIn(text: string) {
    text == "" || exists i | 0 <= i < |text| :: !NumberChar(text[i])
  }

  lemma OnceHasNoPeriod(rule: Option<string>)
    requires RunsOnce(rule)
    ensures Period(rule) == None
  {
    if rule.Some? && "interval:" <= rule.value {
      NotANumber(rule.value[9..]);
      assert rule.value[0] == 'i';
    }
  }

  /** The next run of a named rule, in seconds. */
  lemma NamedNextRun(now: int, rule: string, seconds: int)
    requires (rule, seconds) in {("hourly", 3600), ("daily", 86400), ("weekly", 604800), ("monthly", 2592000)}
    ensures NextRunAfter(now, Some(rule)) == if 0 <= now + seconds <= MAX_TIME then At(now + seconds) else Overflow
  {
  }

  /** `MAX_TIME` is the last second of the 9999 years of the calendar, leap years counted. */
  lemma CalendarEnds()
    ensures MAX_TIME + 1 == 86400 * (365 * 9999 + 9999 / 4 - 9999 / 100 + 9999 / 400)
  {
  }

  // ----- Tasks -----

  type Payload = map<string, string>

  datatype Status = Pending | Success | Cancelled

  datatype Task = Task(userId: int, kind: string, payload: Option<Payload>, runAt: int, rule: Option<string>,
                       status: Status, lastRunAt: Option<int>, nextRunAt: Option<int>, retryCount: int)

  datatype Message = Message(taskId: int, userId: int, kind: string, payload: Payload)

  datatype Error = NotFound

  function NewTask(userId: int, kind: string, payload: Payload, runAt: int, rule: Option<string>): Task {
    Task(userId, kind, Some(payload), runAt, rule, Pending, None, Some(runAt), 0)
  }

  function MessageFor(id: int, task: Task): Message {
    Message(id, task.userId, task.kind, if task.payload.Some? then task.payload.value else map[])
  }

  predicate Advances(task: Task, now: int) {
    !NextRunAfter(now, task.rule).Overflow?
  }

  /** `advance` */
  function Advanced(task: Task, now: int): Task
    requires Advances(task, now)
  {
    match NextRunAfter(now, task.rule)
    case Finished => task.(lastRunAt := Some(now), retryCount := 0, status := Success, nextRunAt := None)
    case At(time) => task.(lastRunAt := Some(now), retryCount := 0, status := Pending, nextRunAt := Some(time))
  }

  predicate Due(task: Task, now: int) {
    task.status == Pending && task.nextRunAt.Some? && task.nextRunAt.value <= now
  }

  function DueIds(tasks: map<int, Task>, now: int): set<int> {
    set id | id in tasks && Due(tasks[id], now)
  }

  function NextAt(tasks: map<int, Task>, id: int): int {
    if id in tasks && tasks[id].nextRunAt.Some? then tasks[id].nextRunAt.value else 0
  }

  /** What `list_due` may return: due tasks, oldest first and ties in any order, at most 500; a
      task is left out only when the list is full and nothing in it is due later. */
  ghost predicate IsBatch(tasks: map<int, Task>, now: int, batch: seq<int>) {
    && |batch| <= BATCH
    && (forall i | 0 <= i < |batch| :: batch[i] in DueIds(tasks, now))
    && (forall i, j | 0 <= i < j < |batch| :: batch[i] != batch[j])
    && (forall i, j | 0 <= i < j < |batch| :: NextAt(tasks, batch[i]) <= NextAt(tasks, batch[j]))
    && (forall id | id in DueIds(tasks, now) && id !in batch ::
          |batch| == BATCH && forall i | 0 <= i < |batch| :: NextAt(tasks, batch[i]) <= NextAt(tasks, id))
  }

  // ----- One pass -----

  datatype Step =
    | Create(userId: int, kind: string, payload: Payload, runAt: int, rule: Option<string>)
    | Cancel(userId: int, taskId: int)
    /** A tick at `now` whose query returned `batch`. With `fault == Some(n)` Redis or the
        database raises once n messages have been pushed; n == |batch| is a failed commit. */
    | Pass(now: int, batch: seq<int>, fault: Option<nat>)

  /** `pushed` is everything ever pushed to the task queue; `clock` the time of the latest tick. */
  datatype State = State(tasks: map<int, Task>, nextId: int, pushed: seq<Message>, clock: int)

  ghost predicate AllAdvance(tasks: map<int, Task>, now: int, batch: seq<int>) {
    forall id | id in batch && id in tasks :: Advances(tasks[id], now)
  }

  ghost predicate Commits(s: State, step: Step) {
    step.Pass? && step.fault.None? && AllAdvance(s.tasks, step.now, step.batch)
  }

  /** How many messages a pass pushes before it ends: a task that cannot be advanced raises
      after its own message is out. */
  function Reached(tasks: map<int, Task>, now: int, batch: seq<int>, fault: Option<nat>): (n: nat)
    requires forall i | 0 <= i < |batch| :: batch[i] in tasks
    ensures n <= |batch|
  {
    if batch == [] || fault == Some(0) then 0
    else if !Advances(tasks[batch[0]], now) then 1
    else 1 + Reached(tasks, now, batch[1..], if fault.Some? then Some(fault.value - 1) else None)
  }

  function Messages(tasks: map<int, Task>, batch: seq<int>): (ms: seq<Message>)
    requires forall i | 0 <= i < |batch| :: batch[i] in tasks
    ensures |ms| == |batch|
    ensures forall i | 0 <= i < |batch| :: ms[i] == MessageFor(batch[i], tasks[batch[i]])
  {
    if batch == [] then [] else [MessageFor(batch[0], tasks[batch[0]])] + Messages(tasks, batch[1..])
  }

  ghost function AllAdvanced(tasks: map<int, Task>, now: int, batch: seq<int>): map<int, Task>
    requires AllAdvance(tasks, now, batch)
  {
    map id | id in tasks :: if id in batch then Advanced(tasks[id], now) else tasks[id]
  }

  ghost predicate Enabled(s: State, step: Step) {
    step.Pass? ==>
      && s.clock <= step.now && IsBatch(s.tasks, step.now, step.batch)
      && (step.fault.Some? ==> step.fault.value <= |step.batch|)
  }

  ghost function Apply(s: State, step: Step): State
    requires Enabled(s, step)
  {
    match step
    case Create(userId, kind, payload, runAt, rule) =>
      s.(tasks := s.tasks[s.nextId := NewTask(userId, kind, payload, runAt, rule)], nextId := s.nextId + 1)
    case Cancel(userId, id) =>
      if id in s.tasks && s.tasks[id].userId == userId
      then s.(tasks := s.tasks[id := s.tasks[id].(status := Cancelled)]) else s
    case Pass(now, batch, fault) =>
      var pushed := s.pushed + Messages(s.tasks, batch[..Reached(s.tasks, now, batch, fault)]);
      if Commits(s, step) then s.(tasks := AllAdvanced(s.tasks, now, batch), pushed := pushed, clock := now)
      else s.(pushed := pushed, clock := now)
  }

  class Scheduler {
    const billing: Billing.BillingService
    var tasks: map<int, Task>
    var nextId: int
    var pushed: seq<Message>
    var clock: int

    ghost function View(): State
      reads this
    {
      State(tasks, nextId, pushed, clock)
    }

    constructor (billing: Billing.BillingService)
      ensures this.billing == billing && View() == State(map[], 1, [], 0)
    {
      this.billing := billing;
      tasks, nextId, pushed, clock := map[], 1, [], 0;
    }

    method CreateTask(userId: int, kind: string, payload: Payload, runAt: int, rule: Option<string>) returns (id: int)
      modifies this
      ensures View() == Apply(old(View()), Create(userId, kind, payload, runAt, rule)) && id == old(nextId)
    {
      id := nextId;
      tasks := tasks[id := Task(userId, kind, Some(payload), runAt, rule, Pending, None, Some(runAt), 0)];
      nextId := nextId + 1;
    }

    /** A task of another user is reported as missing. */
    method CancelTask(userId: int, id: int) returns (error: Option<Error>)
      modifies this
      ensures View() == Apply(old(View()), Cancel(userId, id))
      ensures error == if id in old(tasks) && old(tasks)[id].userId == userId then None else Some(NotFound)
    {
      if id !in tasks {
        return Some(NotFound);
      }
      if tasks[id].userId != userId {
        return Some(NotFound);
      }
      tasks := tasks[id := tasks[id].(status := Cancelled)];
      return None;
    }

    method Advance(id: int, now: int) returns (raised: bool)
      requires id in tasks
      modifies this`tasks
      ensures raised <==> !Advances(old(tasks)[id], now)
      ensures !raised ==> tasks == old(tasks)[id := Advanced(old(tasks)[id], now)]
      ensures tasks.Keys == old(tasks).Keys
    {
      var next := NextRunAfter(now, tasks[id].rule);
      tasks := tasks[id := tasks[id].(lastRunAt := Some(now), retryCount := 0)];
      match next {
        case Overflow => return true;
        case Finished => tasks := tasks[id := tasks[id].(status := Success, nextRunAt := None)];
        case At(time) => tasks := tasks[id := tasks[id].(status := Pending, nextRunAt := Some(time))];
      }
      return false;
    }

    /** The loop over the due tasks: push, then advance; `raised` stands for an error that leaves it. */
    method DispatchDueTasks(now: int, due: seq<int>, fault: Option<nat>) returns (raised: bool)
      requires Listed(tasks, due) && (fault.Some? ==> fault.value <= |due|)
      modifies this`tasks, this`pushed
      ensures PassEnds(old(tasks), old(pushed), now, due, fault, raised, tasks, pushed)
    {
      var i := 0;
      ghost var tasks', pushed' := tasks, pushed;
      while i < |due|
        invariant InProgress(tasks', pushed', now, due, i, tasks, pushed)
        invariant fault.Some? ==> i <= fault.value
      {
        if fault == Some(i) {
          PassStops(tasks', pushed', now, due, fault, i, tasks, pushed);
          return true;
        }
        OneMoreTask(tasks', pushed', now, due, i, tasks, pushed);
        pushed := pushed + [MessageFor(due[i], tasks[due[i]])];
        var failed := Advance(due[i], now);
        if failed {
          PassFails(tasks', pushed', now, due, fault, i, pushed, tasks);
          return true;
        }
        i := i + 1;
      }
      PassStops(tasks', pushed', now, due, fault, i, tasks, pushed);
      return fault.Some?;
    }

    /** One tick: subscriptions expire and tasks are dispatched in one transaction. The messages
        are not part of it and stay in the queue when it is rolled back. */
    method Tick(now: int, due: seq<int>, fault: Option<nat>) returns (committed: bool)
      requires clock <= now && IsBatch(tasks, now, due) && (fault.Some? ==> fault.value <= |due|)
      modifies this, billing
      ensures committed <==> Commits(old(View()), Pass(now, due, fault))
      ensures View() == Apply(old(View()), Pass(now, due, fault))
      ensures billing.State() == if committed then Billing.Apply(old(billing.State()), Billing.ExpireDue(now))
                else old(billing.State())
    {
      clock := now;
      var tasks', subscriptions', bots' := tasks, billing.subscriptions, billing.bots;
      var expired := billing.ExpireDueSubscriptions(now);
      var raised := DispatchDueTasks(now, due, fault);
      assert due[..|due|] == due;
      if raised {
        tasks, billing.subscriptions, billing.bots := tasks', subscriptions', bots';
      }
      return !raised;
    }
  }

  lemma MessagesAppend(tasks: map<int, Task>, batch: seq<int>, i: nat)
    requires i < |batch| && forall k | 0 <= k < |batch| :: batch[k] in tasks
    ensures Messages(tasks, batch[..i + 1]) == Messages(tasks, batch[..i]) + [MessageFor(batch[i], tasks[batch[i]])]
  {
    var longer, shorter := Messages(tasks, batch[..i + 1]), Messages(tasks, batch[..i]);
    forall k | 0 <= k <= i ensures longer[k] == (shorter + [MessageFor(batch[i], tasks[batch[i]])])[k] {
      assert batch[..i + 1][k] == batch[k];
    }
  }

  /** A list of different tasks. */
  predicate Listed(tasks: map<int, Task>, batch: seq<int>) {
    && (forall i | 0 <= i < |batch| :: batch[i] in tasks)
    && (forall i, j | 0 <= i < j < |batch| :: batch[i] != batch[j])
  }

  /** What has become of the table and of the queue when a pass is over. */
  ghost predicate PassEnds(tasks: map<int, Task>, pushed: seq<Message>, now: int, batch: seq<int>, fault: Option<nat>,
                           raised: bool, tasks': map<int, Task>, pushed': seq<Message>)
    requires Listed(tasks, batch)
  {
    && (raised <==> fault.Some? || !AllAdvance(tasks, now, batch))
    && pushed' == pushed + Messages(tasks, batch[..Reached(tasks, now, batch, fault)])
    && (!raised ==> tasks' == AllAdvanced(tasks, now, batch))
  }

  /** The same when its loop is about to turn to the i-th task. */
  ghost predicate InProgress(tasks: map<int, Task>, pushed: seq<Message>, now: int, batch: seq<int>, i: int,
                             tasks': map<int, Task>, pushed': seq<Message>)
    requires Listed(tasks, batch)
  {
    && 0 <= i <= |batch|
    && AllAdvance(tasks, now, batch[..i])
    && tasks' == AllAdvanced(tasks, now, batch[..i])
    && pushed' == pushed + Messages(tasks, batch[..i])
  }

  lemma OneMoreTask(tasks: map<int, Task>, pushed: seq<Message>, now: int, batch: seq<int>, i: nat,
                    tasks': map<int, Task>, pushed': seq<Message>)
    requires Listed(tasks, batch) && i < |batch| && InProgress(tasks, pushed, now, batch, i, tasks', pushed')
    ensures batch[i] in tasks' && tasks'[batch[i]] == tasks[batch[i]]
    ensures pushed' + [MessageFor(batch[i], tasks[batch[i]])] == pushed + Messages(tasks, batch[..i + 1])
    ensures Advances(tasks[batch[i]], now) ==>
              InProgress(tasks, pushed, now, batch, i + 1, tasks'[batch[i] := Advanced(tasks[batch[i]], now)],
                         pushed' + [MessageFor(batch[i], tasks[batch[i]])])
  {
    assert batch[i] !in batch[..i];
    MessagesAppend(tasks, batch, i);
    if Advances(tasks[batch[i]], now) {
      OneMoreAdvanced(tasks, now, batch, i);
    }
  }

  lemma OneMoreAdvanced(tasks: map<int, Task>, now: int, batch: seq<int>, i: nat)
    requires i < |batch| && batch[i] in tasks && batch[i] !in batch[..i]
    requires AllAdvance(tasks, now, batch[..i]) && Advances(tasks[batch[i]], now)
    ensures AllAdvance(tasks, now, batch[..i + 1])
    ensures AllAdvanced(tasks, now, batch[..i + 1]) ==
              AllAdvanced(tasks, now, batch[..i])[batch[i] := Advanced(tasks[batch[i]], now)]
  {
    assert batch[..i + 1] == batch[..i] + [batch[i]];
  }

  lemma PassStops(tasks: map<int, Task>, pushed: seq<Message>, now: int, batch: seq<int>, fault: Option<nat>, i: nat,
                  tasks': map<int, Task>, pushed': seq<Message>)
    requires Listed(tasks, batch) && InProgress(tasks, pushed, now, batch, i, tasks', pushed')
    requires fault == Some(i) || (i == |batch| && fault.None?)
    ensures PassEnds(tasks, pushed, now, batch, fault, fault.Some?, tasks', pushed')
  {
    StopsAt(tasks, now, batch, fault, i);
    assert batch[..|batch|] == batch;
  }

  lemma PassFails(tasks: map<int, Task>, pushed: seq<Message>, now: int, batch: seq<int>, fault: Option<nat>, i: nat,
                  pushed': seq<Message>, tasks': map<int, Task>)
    requires Listed(tasks, batch) && i < |batch| && (fault.Some? ==> i < fault.value)
    requires AllAdvance(tasks, now, batch[..i]) && !Advances(tasks[batch[i]], now)
    requires pushed' == pushed + Messages(tasks, batch[..i + 1])
    ensures PassEnds(tasks, pushed, now, batch, fault, true, tasks', pushed')
  {
    StopsAt(tasks, now, batch, fault, i);
    assert batch[i] in batch;
  }

  /** Where a pass stops: at the fault, behind the first task that cannot be advanced, or at the end. */
  lemma {:induction false} StopsAt(tasks: map<int, Task>, now: int, batch: seq<int>, fault: Option<nat>, i: nat)
    requires i <= |batch| && forall k | 0 <= k < |batch| :: batch[k] in tasks
    requires (fault.Some? ==> i <= fault.value) && AllAdvance(tasks, now, batch[..i])
    ensures fault == Some(i) || i == |batch| ==> Reached(tasks, now, batch, fault) == i
    ensures i < |batch| && fault != Some(i) && !Advances(tasks[batch[i]], now) ==>
              Reached(tasks, now, batch, fault) == i + 1
  {
    if i == 0 {
    } else {
      assert batch[..i][0] == batch[0];
      assert batch[1..][..i - 1] == batch[..i][1..];
      assert forall id | id in batch[..i][1..] :: id in batch[..i];
      StopsAt(tasks, now, batch[1..], if fault.Some? then Some(fault.value - 1) else None, i - 1);
    }
  }
}
