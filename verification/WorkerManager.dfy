/** `WorkerManager` of `app/workers/manager.py`, method by method. What other coroutines and the
    rest of the platform do while a method is suspended in an await is a parameter of the call. */
module WorkerManagers {
  import opened Common
  import opened Supervisor
  import opened Commands
  import opened SignedQueues
  import Userbots

  // ----- What a run records -----

  /** What a step does that a waiting method has to reckon with: the coroutine of a userbot ends, or
      another part of the platform changes or removes the rows of some userbots. */
  datatype Event = Ended(botId: int) | Rewritten(bots: set<int>)

  ghost function EventsOf(w: World, step: Step): seq<Event>
    requires Enabled(w, step)
  {
    match step
    case Disconnected(co, _) => [Ended(w.live[co].botId)]
    case Woke(co, _) => [Ended(w.live[co].botId)]
    case TimedOut => [Ended(w.live[w.waiting.value.co].botId)]
    case OtherWrites(rows) => [Rewritten(set b | b in w.rows && (b !in rows || rows[b] != w.rows[b]))]
    case _ => []
  }

  ghost function Events(w: World, steps: seq<Step>): seq<Event>
    requires IsRun(w, steps)
  {
    if steps == [] then [] else Events(w, Init(steps)) + EventsOf(After(w, Init(steps)), Last(steps))
  }

  predicate EndedIn(events: seq<Event>, botId: int) {
    Ended(botId) in events
  }

  ghost predicate RewrittenIn(events: seq<Event>, botId: int) {
    exists e :: e in events && e.Rewritten? && botId in e.bots
  }

  /** The steps by which the supervisor acts on commands. */
  function Orders(steps: seq<Step>): seq<Step> {
    if steps == [] then [] else
    Orders(Init(steps)) + OrderedBy(Last(steps))
  }

  /** What a command asks for; a restart is a stop and a start, and other actions are ignored. */
  function Ordered(command: Command): seq<Step> {
    if command.action == "start" then [HandleStart(command.targetId)]
    else if command.action == "stop" then [MarkStopped(command.targetId)]
    else if command.action == "restart" then [MarkStopped(command.targetId), HandleStart(command.targetId)]
    else []
  }

  function OrderedByAll(commands: seq<Command>): seq<Step> {
    FlatMap(Ordered, commands)
  }

  function OrderedBy(step: Step): seq<Step> {
    if step.HandleStart? || step.MarkStopped? then [step] else []
  }

  lemma OneMoreOrdered(commands: seq<Command>, command: Command)
    ensures OrderedByAll(commands + [command]) == OrderedByAll(commands) + Ordered(command)
  {
    InitOfAppend(commands, command);
  }

  /** The world `now` is reached from `origin` by the run `history`, of which the rest is recorded. */
  ghost predicate Recorded(origin: World, history: seq<Step>, events: seq<Event>, orders: seq<Step>, now: World) {
    && OneToOne(origin) && IsRun(origin, history) && now == After(origin, history) && OneToOne(now)
    && events == Events(origin, history) && orders == Orders(history)
  }

  lemma OneMoreRecord(origin: World, history: seq<Step>, events: seq<Event>, orders: seq<Step>, w: World, step: Step)
    requires Recorded(origin, history, events, orders, w) && Enabled(w, step)
    ensures Recorded(origin, history + [step], events + EventsOf(w, step),
                     orders + OrderedBy(step), Apply(w, step))
  {
    InitOfAppend(history, step);
    StepKeepsOneToOne(w, step);
  }

  class WorkerManager {
    var tasks: map<int, nat>
    var runtimes: map<int, nat>
    var retryCounts: map<int, nat>

    // The world around: the userbots table, the event loop and the clock.
    var rows: map<int, Row>
    var live: map<nat, Coroutine>
    var nextCo: nat
    var now: int

    // Where the supervisor itself is suspended.
    var runnable: set<int>
    var waiting: Option<Wait>

    ghost const origin: World
    ghost var history: seq<Step>
    ghost var events: seq<Event>
    ghost var orders: seq<Step>

    ghost function World(): World
      reads this
    {
      Supervisor.World(rows, tasks, runtimes, retryCounts, live, nextCo, runnable, waiting, now)
    }

    /** The present state is reached by the recorded run. */
    ghost predicate Valid()
      reads this
    {
      Recorded(origin, history, events, orders, World())
    }

    /** The run goes on, and no command was carried out. */
    twostate predicate Continued()
      reads this
    {
      old(history) <= history && old(events) <= events && orders == old(orders)
    }

    constructor (rows: map<int, Row>, now: int)
      ensures Valid() && history == [] && waiting.None?
      ensures tasks == map[] && this.rows == rows
    {
      this.rows, this.now := rows, now;
      tasks, runtimes, retryCounts, live, nextCo, runnable, waiting := map[], map[], map[], map[], 0, {}, None;
      origin := Supervisor.World(rows, map[], map[], map[], map[], 0, {}, None, now);
      history, events, orders := [], [], [];
    }

    /** Records a step that has just been taken. */
    ghost method Record(before: World, step: Step)
      requires Recorded(origin, history, events, orders, before)
      requires Enabled(before, step) && World() == Apply(before, step)
      modifies this`history, this`events, this`orders
      ensures Valid()
      ensures history == old(history) + [step]
      ensures events == old(events) + EventsOf(before, step)
      ensures orders == old(orders) + OrderedBy(step)
    {
      OneMoreRecord(origin, history, events, orders, before, step);
      history := history + [step];
      events := events + EventsOf(before, step);
      orders := orders + OrderedBy(step);
    }

    // ----- `_run_userbot`, from await to await -----

    method SetStatus(botId: int, status: Userbots.Status, error: Option<string>, write: Write)
      modifies this`rows, this`retryCounts
      ensures rows == WithStatus(old(rows), botId, status, error, write)
      ensures retryCounts == if botId in old(rows) && !write.Unread? && status == Userbots.Running
                             then old(retryCounts)[botId := 0] else old(retryCounts)
    {
      if write.Unread? || botId !in rows {
        return;
      }
      var row := rows[botId].(status := status);
      if error.Some? {
        row := row.(error := error);
      }
      if status == Userbots.Running {
        retryCounts := retryCounts[botId := 0];
      }
      if write.Written? {
        rows := rows[botId := row];
      }
    }

    /** The `finally` clause and the end of the coroutine. */
    method Finish(co: nat)
      requires co in live
      modifies this`tasks, this`runtimes, this`live
      ensures World() == Finished(old(World()), co)
    {
      var botId := live[co].botId;
      tasks := tasks - {botId};
      runtimes := runtimes - {botId};
      live := live - {co};
    }

    method RunStarted(co: nat, write: Write)
      requires Enabled(World(), Started(co, write))
      modifies this`rows, this`retryCounts, this`live
      ensures World() == Apply(old(World()), Started(co, write))
    {
      SetStatus(live[co].botId, Userbots.Running, None, write);
      live := live[co := live[co].(phase := Phase.Running)];
    }

    method RunDisconnected(co: nat, write: Write)
      requires Enabled(World(), Disconnected(co, write))
      modifies this`rows, this`retryCounts, this`tasks, this`runtimes, this`live
      ensures World() == Apply(old(World()), Disconnected(co, write))
    {
      SetStatus(live[co].botId, Userbots.Stopped, None, write);
      Finish(co);
    }

    method RunCrashed(co: nat, error: string, write: Write)
      requires Enabled(World(), Crashed(co, error, write))
      modifies this`rows, this`retryCounts, this`live
      ensures World() == Apply(old(World()), Crashed(co, error, write))
    {
      var botId := live[co].botId;
      SetStatus(botId, Userbots.Error, Some(Clipped(error)), write);
      var count := (if botId in retryCounts then retryCounts[botId] else 0) + 1;
      retryCounts := retryCounts[botId := count];
      live := live[co := live[co].(phase := Backoff(now + Delay(count)))];
    }

    method RunWoke(co: nat, write: Write)
      requires Enabled(World(), Woke(co, write))
      modifies this`rows, this`retryCounts, this`tasks, this`runtimes, this`live
      ensures World() == Apply(old(World()), Woke(co, write))
    {
      SetStatus(live[co].botId, Userbots.Recovering, None, write);
      Finish(co);
    }

    // ----- Awaits -----

    /** What happens while the supervisor is suspended: those of the given steps that can happen.
        Steps of the supervisor itself cannot. */
    method Await(steps: seq<Step>)
      requires Valid()
      modifies this
      ensures Valid() && Continued()
      ensures waiting == old(waiting)
      ensures Elapsed(old(World()), World(), events[|old(events)|..])
    {
      for i := 0 to |steps|
        invariant Valid() && Continued()
        invariant waiting == old(waiting)
        invariant Elapsed(old(World()), World(), events[|old(events)|..])
      {
        ghost var w, log := World(), events;
        AwaitOne(steps[i]);
        ElapsedTwice(old(World()), w, World(), old(events), log, events);
      }
    }

    method AwaitOne(step: Step)
      requires Valid()
      modifies this
      ensures Valid() && Continued()
      ensures waiting == old(waiting)
      ensures Elapsed(old(World()), World(), events[|old(events)|..])
    {
      ghost var before, log := World(), events;
      var possible := TakeStep(step);
      if possible {
        OutsideStep(before, step, log);
        Record(before, step);
      } else {
        NothingElapsed(before, log);
      }
    }

    /** A step that is not the supervisor's own, if it can happen now. */
    method TakeStep(step: Step) returns (possible: bool)
      modifies this`rows, this`retryCounts, this`tasks, this`runtimes, this`live, this`now
      ensures possible ==> Enabled(old(World()), step) && World() == Apply(old(World()), step) && FromOutside(step)
      ensures !possible ==> World() == old(World())
    {
      possible := match step
        case Started(co, _) => co in live && live[co].phase.Starting?
        case Disconnected(co, _) => co in live && live[co].phase.Running?
        case Crashed(co, _, _) => co in live && !live[co].phase.Backoff?
        case Woke(co, _) => co in live && live[co].phase.Backoff? && live[co].phase.wakeAt <= now
        case OtherWrites(_) => true
        case Tick(_) => true
        case _ => false;
      if possible {
        match step {
          case Started(co, write) => RunStarted(co, write);
          case Disconnected(co, write) => RunDisconnected(co, write);
          case Crashed(co, error, write) => RunCrashed(co, error, write);
          case Woke(co, write) => RunWoke(co, write);
          case OtherWrites(rows') => rows := rows';
          case Tick(seconds) => now := now + seconds;
        }
      }
    }

    // ----- The supervisor -----

    /** `failure` is the error with which loading the session or the modules raised, if it did. */
    method StartUserbot(botId: int, failure: Option<string>)
      requires Enabled(World(), Start(botId, failure))
      modifies this`rows, this`tasks, this`runtimes, this`live, this`nextCo
      ensures World() == Apply(old(World()), Start(botId, failure))
    {
      match failure {
        case None =>
          runtimes := runtimes[botId := nextCo];
          live := live[nextCo := Coroutine(botId, Phase.Starting)];
          tasks := tasks[botId := nextCo];
          nextCo := nextCo + 1;
          if botId in rows {
            rows := rows[botId := rows[botId].(status := Userbots.Starting, error := None)];
          }
        case Some(reason) =>
          if botId in rows {
            rows := rows[botId := rows[botId].(status := Userbots.Error, error := Some(Clipped(reason)))];
          }
      }
    }

    /** `_stop_userbot`. Whatever happens meanwhile, the coroutine is gone when it returns. */
    method StopUserbot(botId: int, duringDisconnect: seq<Step>, duringWait: seq<Step>)
      requires Valid() && waiting.None?
      modifies this
      ensures Valid() && Continued()
      ensures waiting.None? && botId !in tasks
      ensures Elapsed(old(World()), World(), events[|old(events)|..])
    {
      if botId !in tasks {
        return;
      }
      var task := tasks[botId];
      Await(duringDisconnect);
      if task in live {
        ghost var w, log := World(), events;
        WaitFor(botId, task, duringWait);
        ElapsedTwice(old(World()), w, World(), old(events), log, events);
      }
    }

    /** `wait_for(task, timeout=10)`: on timeout the task is cancelled, and then it is over. */
    method WaitFor(botId: int, task: nat, duringWait: seq<Step>)
      requires Valid() && waiting.None? && task in live && live[task].botId == botId
      modifies this
      ensures Valid() && Continued()
      ensures waiting.None? && botId !in tasks
      ensures Elapsed(old(World()), World(), events[|old(events)|..])
    {
      ghost var w0 := World();
      BeginWait(botId, task);
      ghost var w1 := World();
      AwaitOrTimeOut(duringWait);
      ghost var w2 := World();
      EndWait();
      WaitingAside(w0, w1, w2, World(), events[|old(events)|..]);
    }

    method AwaitOrTimeOut(duringWait: seq<Step>)
      requires Valid() && waiting.Some? && waiting.value.co in live
      modifies this
      ensures Valid() && Continued()
      ensures waiting == old(waiting) && waiting.value.co !in live && waiting.value.botId !in tasks
      ensures Elapsed(old(World()), World(), events[|old(events)|..])
    {
      Await(duringWait);
      if waiting.value.co in live {
        ghost var w, log := World(), events;
        TimeOut();
        ElapsedTwice(old(World()), w, World(), old(events), log, events);
      }
      OwnerGone(World());
    }

    method BeginWait(botId: int, task: nat)
      requires Valid() && waiting.None? && task in live && live[task].botId == botId
      modifies this`waiting, this`history, this`events, this`orders
      ensures Valid() && history == old(history) + [BeginStop(botId)] && events == old(events) && orders == old(orders)
      ensures World() == old(World()).(waiting := Some(Wait(botId, task, old(now) + STOP_TIMEOUT)))
    {
      ghost var before := World();
      waiting := Some(Wait(botId, task, now + STOP_TIMEOUT));
      Record(before, BeginStop(botId));
    }

    method EndWait()
      requires Valid() && waiting.Some? && waiting.value.co !in live
      modifies this`waiting, this`history, this`events, this`orders
      ensures Valid() && history == old(history) + [StopReturns] && events == old(events) && orders == old(orders)
      ensures World() == old(World()).(waiting := None)
    {
      ghost var before := World();
      waiting := None;
      Record(before, StopReturns);
    }

    /** The ten seconds are over. */
    method TimeOut()
      requires Valid() && waiting.Some? && waiting.value.co in live
      modifies this
      ensures Valid() && Continued()
      ensures waiting == old(waiting) && waiting.value.co !in live
      ensures Elapsed(old(World()), World(), events[|old(events)|..])
    {
      if now < waiting.value.deadline {
        PassTime(waiting.value.deadline - now);
      }
      ghost var w := World();
      Cancel();
      SameButTime(old(World()), w, World(), events[|old(events)|..]);
    }

    method PassTime(seconds: nat)
      requires Valid()
      modifies this`now, this`history, this`events, this`orders
      ensures Valid() && history == old(history) + [Tick(seconds)] && events == old(events) && orders == old(orders)
      ensures World() == old(World()).(now := old(now) + seconds)
    {
      ghost var before := World();
      now := now + seconds;
      Record(before, Tick(seconds));
    }

    method Cancel()
      requires Valid() && Enabled(World(), TimedOut)
      modifies this
      ensures Valid() && history == old(history) + [TimedOut] && old(events) <= events && orders == old(orders)
      ensures World() == Apply(old(World()), TimedOut)
      ensures Elapsed(old(World()), World(), events[|old(events)|..])
    {
      ghost var before := World();
      ElapsedStep(before, TimedOut);
      Finish(waiting.value.co);
      Record(before, TimedOut);
      NewEntries(old(events), EventsOf(before, TimedOut));
    }

    method HandleStartCommand(target: int)
      requires Valid() && waiting.None?
      modifies this
      ensures Valid() && waiting.None? && old(history) <= history && orders == old(orders) + [HandleStart(target)]
      ensures World() == Apply(old(World()), HandleStart(target)) && events == old(events)
    {
      ghost var before := World();
      if target in rows {
        rows := rows[target := rows[target].(status := Userbots.Starting)];
        retryCounts := retryCounts - {target};
      }
      Record(before, HandleStart(target));
    }

    /** The row is marked, and beyond that only what happens during the awaits changes anything. */
    method HandleStopCommand(target: int, duringDisconnect: seq<Step>, duringWait: seq<Step>)
      requires Valid() && waiting.None?
      modifies this
      ensures Valid() && waiting.None? && old(history) <= history && orders == old(orders) + [MarkStopped(target)]
      ensures target !in tasks && old(events) <= events
      ensures Elapsed(Apply(old(World()), MarkStopped(target)), World(), events[|old(events)|..])
    {
      MarkRowStopped(target);
      StopUserbot(target, duringDisconnect, duringWait);
    }

    method MarkRowStopped(target: int)
      requires Valid() && waiting.None?
      modifies this
      ensures Valid() && waiting.None? && old(history) <= history && orders == old(orders) + [MarkStopped(target)]
      ensures World() == Apply(old(World()), MarkStopped(target)) && events == old(events)
    {
      ghost var before := World();
      if target in rows {
        rows := rows[target := rows[target].(status := Userbots.Stopped)];
      }
      Record(before, MarkStopped(target));
    }

    /** `mid` is the world between the two halves of a restart. */
    method HandleCommand(command: Command, duringDisconnect: seq<Step>, duringWait: seq<Step>)
      returns (ghost mid: World)
      requires Valid() && waiting.None?
      modifies this
      ensures Valid() && waiting.None? && old(history) <= history && orders == old(orders) + Ordered(command)
      ensures old(events) <= events && CommandDone(old(World()), mid, World(), command, events[|old(events)|..])
    {
      mid := World();
      if command.action == "start" {
        HandleStartCommand(command.targetId);
      } else if command.action == "stop" {
        HandleStopCommand(command.targetId, duringDisconnect, duringWait);
      } else if command.action == "restart" {
        HandleStopCommand(command.targetId, duringDisconnect, duringWait);
        mid := World();
        HandleStartCommand(command.targetId);
      }
    }

    /** `_process_commands`: what is done is exactly what the commands before the first rejected
        entry of the queue ask for, each once and in the order in which they were sent. */
    method ProcessCommands(bus: SignedQueue<Command>, awaits: nat -> seq<Step>)
      requires Valid() && waiting.None?
      modifies this, bus
      ensures Valid() && waiting.None? && old(history) <= history
      ensures orders == old(orders) + OrderedByAll(Leading(old(bus.Verdicts())))
      ensures bus.Verdicts() == Remaining(old(bus.Verdicts()))
    {
      ghost var handled: seq<Command> := [];
      var n := 0;
      while true
        invariant Valid() && waiting.None? && old(history) <= history
        invariant Handling(old(bus.Verdicts()), bus.Verdicts(), handled, old(orders), orders)
        decreases |bus.Verdicts()|
      {
        ghost var queue, done := bus.Verdicts(), orders;
        var command := ProcessOne(bus, awaits(2 * n), awaits(2 * n + 1));
        if command.None? {
          HandlingEnds(old(bus.Verdicts()), queue, handled, old(orders), done);
          break;
        }
        HandlingGoesOn(old(bus.Verdicts()), queue, handled, old(orders), done);
        handled := handled + [command.value];
        n := n + 1;
      }
    }

    method ProcessOne(bus: SignedQueue<Command>, duringDisconnect: seq<Step>, duringWait: seq<Step>)
      returns (command: Option<Command>)
      requires Valid() && waiting.None?
      modifies this, bus
      ensures Valid() && waiting.None? && old(history) <= history
      ensures if old(bus.Verdicts()) == [] then command == None && bus.Verdicts() == []
              else command == old(bus.Verdicts())[0] && bus.Verdicts() == old(bus.Verdicts())[1..]
      ensures orders == old(orders) + (if command.Some? then Ordered(command.value) else [])
    {
      command := bus.Pop();
      if command.Some? {
        ghost var mid := HandleCommand(command.value, duringDisconnect, duringWait);
      }
    }

    /** `_sync`. `listed` is the answer of `list_runnable`, `failures` tells which starts raise, and
        `stopAwaits` and `startAwaits` what happens at the n-th await of its two loops. */
    method Sync(listed: seq<int>, failures: map<int, string>, stopAwaits: nat -> seq<Step>,
                startAwaits: nat -> seq<Step>)
      requires Valid() && waiting.None? && IsListing(World(), listed)
      modifies this
      ensures Valid() && waiting.None? && Continued()
      ensures Converged(old(World()), World(), listed, failures, events[|old(events)|..])
    {
      StopPhase(listed, stopAwaits);
      ghost var w, log := World(), events;
      StartMissing(listed, failures, startAwaits);
      SyncConverges(old(World()), w, World(), listed, failures, old(events), log, events);
      ClearRunnable();
    }

    method StopPhase(listed: seq<int>, stopAwaits: nat -> seq<Step>)
      requires Valid() && waiting.None? && IsListing(World(), listed)
      modifies this
      ensures Valid() && waiting.None? && Continued()
      ensures runnable == (set b | b in listed) && forall b | b in tasks :: b in listed
      ensures Elapsed(old(World()).(runnable := runnable), World(), events[|old(events)|..])
    {
      SetRunnable(listed);
      StopUnlisted(listed, stopAwaits);
    }

    method SetRunnable(listed: seq<int>)
      requires Valid() && waiting.None? && IsListing(World(), listed)
      modifies this`runnable, this`history, this`events, this`orders
      ensures Valid() && history == old(history) + [BeginSync(listed)] && events == old(events) && orders == old(orders)
      ensures World() == old(World()).(runnable := set b | b in listed)
    {
      ghost var before := World();
      runnable := set b | b in listed;
      Record(before, BeginSync(listed));
    }

    method ClearRunnable()
      requires Valid() && waiting.None?
      modifies this`runnable, this`history, this`events, this`orders
      ensures Valid() && history == old(history) + [EndSync] && events == old(events) && orders == old(orders)
    {
      ghost var before := World();
      runnable := {};
      Record(before, EndSync);
    }

    method StopUnlisted(listed: seq<int>, awaits: nat -> seq<Step>)
      requires Valid() && waiting.None?
      modifies this
      ensures Valid() && Continued()
      ensures waiting.None?
      ensures forall b | b in tasks :: b in listed
      ensures Elapsed(old(World()), World(), events[|old(events)|..])
    {
      var left := tasks.Keys;
      var n := 0;
      while left != {}
        invariant Valid() && Continued()
        invariant waiting.None?
        invariant forall b | b in tasks :: b in listed || b in left
        invariant Elapsed(old(World()), World(), events[|old(events)|..])
        decreases left
      {
        var uid := PickOne(left);
        left := left - {uid};
        if uid !in listed {
          ghost var w, log := World(), events;
          StopUserbot(uid, awaits(2 * n), awaits(2 * n + 1));
          ElapsedTwice(old(World()), w, World(), old(events), log, events);
          n := n + 1;
        }
      }
    }

    method StartMissing(listed: seq<int>, failures: map<int, string>, awaits: nat -> seq<Step>)
      requires Valid() && waiting.None? && runnable == set b | b in listed
      requires forall i, j | 0 <= i < j < |listed| :: listed[i] != listed[j]
      requires forall b | b in tasks :: b in listed
      modifies this
      ensures Valid() && waiting.None? && Continued()
      ensures StartedUpTo(old(World()), World(), listed, |listed|, failures, events[|old(events)|..])
    {
      var i := 0;
      while i < |listed|
        invariant 0 <= i <= |listed|
        invariant Valid() && waiting.None? && Continued()
        invariant runnable == set b | b in listed
        invariant StartedUpTo(old(World()), World(), listed, i, failures, events[|old(events)|..])
      {
        ghost var w, log := World(), events;
        var failure := if listed[i] in failures then Some(failures[listed[i]]) else None;
        ghost var mid := StartIfMissing(listed[i], failure, awaits(i));
        NextListed(old(World()), w, mid, World(), listed, i, failures, old(events), log, events);
        i := i + 1;
      }
    }

    /** `mid` is the world when the awaits of the start are over. */
    method StartIfMissing(botId: int, failure: Option<string>, steps: seq<Step>) returns (ghost mid: World)
      requires Valid() && waiting.None? && botId in runnable
      modifies this
      ensures Valid() && waiting.None? && runnable == old(runnable)
      ensures Continued()
      ensures Elapsed(old(World()), mid, events[|old(events)|..])
      ensures if botId in old(tasks) then World() == mid == old(World())
              else Enabled(mid, Start(botId, failure)) && World() == Apply(mid, Start(botId, failure))
    {
      if botId in tasks {
        return World();
      }
      Await(steps);
      mid := World();
      StartAndRecord(botId, failure);
    }

    method StartAndRecord(botId: int, failure: Option<string>)
      requires Valid() && Enabled(World(), Start(botId, failure))
      modifies this
      ensures Valid() && history == old(history) + [Start(botId, failure)] && events == old(events)
                && orders == old(orders)
      ensures World() == Apply(old(World()), Start(botId, failure))
    {
      ghost var before := World();
      StartUserbot(botId, failure);
      Record(before, Start(botId, failure));
    }
  }

  // ----- The command loop -----

  /** What one command does to the whole world. A stopped userbot is down; one that is restarted is
      down as well, but to be started by the next pass. */
  ghost predicate CommandDone(w: World, mid: World, w': World, command: Command, events: seq<Event>) {
    var target := command.targetId;
    w.waiting.None? &&
    if command.action == "start" then
      w' == Apply(w, HandleStart(target))
    else if command.action == "stop" then
      Elapsed(Apply(w, MarkStopped(target)), w', events) && target !in w'.tasks
    else if command.action == "restart" then
      && Elapsed(Apply(w, MarkStopped(target)), mid, events) && target !in mid.tasks && mid.waiting.None?
      && w' == Apply(mid, HandleStart(target))
    else
      w' == w
  }

  /** So a stopped userbot without a coroutine is STOPPED afterwards, a started one is runnable, and
      every other userbot without a coroutine keeps its row, as far as nobody else wrote it. */
  lemma CommandEffect(w: World, mid: World, w': World, command: Command, events: seq<Event>, b: int)
    requires CommandDone(w, mid, w', command, events) && b in w.rows && b !in w.tasks && !RewrittenIn(events, b)
    ensures b in w'.rows
    ensures b != command.targetId ==> w'.rows[b] == w.rows[b] && b !in w'.tasks
    ensures b == command.targetId && command.action == "stop" ==> w'.rows[b].status == Userbots.Stopped
    ensures b == command.targetId && command.action in {"start", "restart"} ==> w'.rows[b].status == Userbots.Starting
  {
    var target := command.targetId;
    if command.action == "stop" {
      StopEffect(w, w', target, events, b);
    } else if command.action == "restart" {
      StopEffect(w, mid, target, events, b);
    }
  }

  lemma StopEffect(w: World, w': World, target: int, events: seq<Event>, b: int)
    requires w.waiting.None? && Elapsed(Apply(w, MarkStopped(target)), w', events)
    requires b in w.rows && b !in w.tasks && !RewrittenIn(events, b)
    ensures b in w'.rows && b !in w'.tasks
    ensures w'.rows[b] == if b == target then w.rows[b].(status := Userbots.Stopped) else w.rows[b]
  {
    assert RowKept(Apply(w, MarkStopped(target)), w', b);
  }

  ghost predicate Handling(queue: seq<Option<Command>>, queue': seq<Option<Command>>, handled: seq<Command>,
                           orders: seq<Step>, orders': seq<Step>) {
    && handled + Leading(queue') == Leading(queue)
    && Remaining(queue') == Remaining(queue)
    && orders' == orders + OrderedByAll(handled)
  }

  lemma HandlingGoesOn(queue: seq<Option<Command>>, queue': seq<Option<Command>>, handled: seq<Command>,
                       orders: seq<Step>, orders': seq<Step>)
    requires Handling(queue, queue', handled, orders, orders') && queue' != [] && queue'[0].Some?
    ensures Handling(queue, queue'[1..], handled + [queue'[0].value], orders, orders' + Ordered(queue'[0].value))
  {
    FirstHandled(queue', handled);
    OneMoreOrdered(handled, queue'[0].value);
  }

  lemma HandlingEnds(queue: seq<Option<Command>>, queue': seq<Option<Command>>, handled: seq<Command>,
                     orders: seq<Step>, orders': seq<Step>)
    requires Handling(queue, queue', handled, orders, orders') && (queue' == [] || queue'[0].None?)
    ensures handled == Leading(queue) && orders' == orders + OrderedByAll(Leading(queue))
    ensures Remaining(queue) == if queue' == [] then [] else queue'[1..]
  {
    assert handled + [] == handled;
  }

  /** From the request to the supervisor: what it does about the commands that were sent to an empty
      queue is, over all its drain calls, what those ask for that it pops within 300 seconds, in the
      order in which they were sent. */
  lemma RequestsReachSupervisor(sign: string -> string, bodies: seq<Command>, clock: nat -> int, popped: nat)
    requires forall s :: sign(s) != ""
    requires forall i | 0 <= i < |bodies| :: bodies[i].expiresAt == bodies[i].ts + COMMAND_TTL
    ensures var policy := CommandPolicy(sign);
            var verdicts := JudgeAll(policy, clock, Sent(policy, bodies), popped);
            OrdersByCalls(verdicts, CallsToEmpty(verdicts)) == OrderedByAll(InTime(bodies, clock, popped))
  {
    var policy := CommandPolicy(sign);
    var verdicts := JudgeAll(policy, clock, Sent(policy, bodies), popped);
    SentCommandsHandled(sign, bodies, clock, popped);
    OrdersOfHandled(verdicts, CallsToEmpty(verdicts));
  }

  /** One request, from the arguments of `send` to what is done about it: within 300 seconds a start
      request for a userbot is a start of that userbot, a stop request marks it stopped, a restart does
      both, and any other action nothing; later nothing is done. */
  lemma RequestObeyed(sign: string -> string, commandId: string, action: string, target: int, actorId: Option<int>,
                      actorRole: Option<string>, sentAt: int, clock: nat -> int, popped: nat)
    requires forall s :: sign(s) != ""
    ensures var policy := CommandPolicy(sign);
            var sent := [SentEntry(policy, CommandBody(commandId, action, target, actorId, actorRole, sentAt))];
            var verdicts := JudgeAll(policy, clock, sent, popped);
            OrdersByCalls(verdicts, CallsToEmpty(verdicts)) ==
              if clock(popped) - sentAt > 300 then []
              else if action == "start" then [HandleStart(target)]
              else if action == "stop" then [MarkStopped(target)]
              else if action == "restart" then [MarkStopped(target), HandleStart(target)]
              else []
  {
    var policy := CommandPolicy(sign);
    var body := CommandBody(commandId, action, target, actorId, actorRole, sentAt);
    var none: seq<Command> := [];
    assert [body][1..] == none && Sent(policy, none) == [];
    assert Sent(policy, [body]) == [SentEntry(policy, body)];
    RequestsReachSupervisor(sign, [body], clock, popped);
    assert InTime(none, clock, popped + 1) == [];
    OneMoreOrdered(none, body);
    assert none + [body] == [body];
  }

  /** What a number of calls of `_process_commands` do, one after the other. */
  ghost function OrdersByCalls(verdicts: seq<Option<Command>>, calls: nat): seq<Step>
    decreases calls
  {
    if calls == 0 then [] else OrderedByAll(Leading(verdicts)) + OrdersByCalls(Remaining(verdicts), calls - 1)
  }

  lemma {:induction false} OrdersOfHandled(verdicts: seq<Option<Command>>, calls: nat)
    ensures OrdersByCalls(verdicts, calls) == OrderedByAll(HandledByCalls(verdicts, calls))
    decreases calls
  {
    if calls == 0 {
    } else {
      OrdersOfHandled(Remaining(verdicts), calls - 1);
      FlatMapConcat(Ordered, Leading(verdicts), HandledByCalls(Remaining(verdicts), calls - 1));
    }
  }

  // ----- What the awaits of the supervisor leave alone -----

  /** What may have changed while coroutines went on and others wrote to the rows: `tasks` loses
      exactly the userbots whose coroutines ended and no coroutine is new; no row is removed but by
      others, and that of a userbot without a coroutine changes only if others wrote that row. */
  ghost predicate Elapsed(w: World, w': World, events: seq<Event>) {
    && w'.runnable == w.runnable && w'.nextCo == w.nextCo
    && (forall b :: b in w'.tasks <==> b in w.tasks && !EndedIn(events, b))
    && (forall b | b in w'.tasks :: w'.tasks[b] == w.tasks[b])
    && (forall c | c in w'.live :: c in w.live && w'.live[c].botId == w.live[c].botId)
    && (forall b | b in w.rows && !RewrittenIn(events, b) :: RowKept(w, w', b))
  }

  ghost predicate RowKept(w: World, w': World, b: int)
    requires b in w.rows
  {
    b in w'.rows && (b !in w.tasks ==> w'.rows[b] == w.rows[b])
  }

  predicate InError(rows: map<int, Row>, botId: int, reason: string) {
    botId in rows && rows[botId].status == Userbots.Error && rows[botId].error == Some(Clipped(reason))
  }

  /** The steps that are not the supervisor's own. */
  predicate FromOutside(step: Step) {
    step.Started? || step.Disconnected? || step.Crashed? || step.Woke? || step.OtherWrites? || step.Tick?
  }

  lemma ElapsedStep(w: World, step: Step)
    requires OneToOne(w) && Enabled(w, step) && (FromOutside(step) || step.TimedOut?)
    ensures Elapsed(w, Apply(w, step), EventsOf(w, step))
  {
    var w', events := Apply(w, step), EventsOf(w, step);
    if step.OtherWrites? {
      assert events[0] in events;
    }
    forall b | b in w.rows && !RewrittenIn(events, b) ensures RowKept(w, w', b) {
    }
  }

  lemma NewEntries<T>(log: seq<T>, entries: seq<T>)
    ensures (log + entries)[|log|..] == entries
  {
  }

  lemma OutsideStep(w: World, step: Step, log: seq<Event>)
    requires OneToOne(w) && Enabled(w, step) && FromOutside(step)
    ensures Elapsed(w, Apply(w, step), (log + EventsOf(w, step))[|log|..])
    ensures Apply(w, step).waiting == w.waiting && OrderedBy(step) == []
  {
    ElapsedStep(w, step);
    NewEntries(log, EventsOf(w, step));
  }

  lemma NothingElapsed(w: World, log: seq<Event>)
    ensures Elapsed(w, w, log[|log|..])
  {
    assert log[|log|..] == [];
  }

  lemma ElapsedTwice(a: World, b: World, c: World, logA: seq<Event>, logB: seq<Event>, logC: seq<Event>)
    requires logA <= logB <= logC
    requires Elapsed(a, b, logB[|logA|..]) && Elapsed(b, c, logC[|logB|..])
    ensures Elapsed(a, c, logC[|logA|..])
  {
    var first, second, both := logB[|logA|..], logC[|logB|..], logC[|logA|..];
    BothEvents(first, second, both);
    forall x | x in a.rows && !RewrittenIn(both, x) ensures RowKept(a, c, x) {
      assert RowKept(a, b, x) && RowKept(b, c, x);
    }
  }

  lemma BothEvents(first: seq<Event>, second: seq<Event>, both: seq<Event>)
    requires both == first + second
    ensures forall b :: EndedIn(both, b) <==> EndedIn(first, b) || EndedIn(second, b)
    ensures forall b :: RewrittenIn(both, b) <==> RewrittenIn(first, b) || RewrittenIn(second, b)
  {
    assert forall e :: e in both <==> e in first || e in second;
  }

  /** What a listed userbot can expect of a pass, where it is spared: one that did not end meanwhile
      runs if it ran before or could be started; one that could not is down, and in error with the
      reason, unless others wrote its row. */
  ghost predicate Served(w: World, w': World, botId: int, failures: map<int, string>, events: seq<Event>) {
    && (!EndedIn(events, botId) ==> (botId in w'.tasks <==> botId in w.tasks || botId !in failures))
    && (botId !in w.tasks && botId in failures ==>
          && botId !in w'.tasks
          && (botId in w.rows && !RewrittenIn(events, botId) ==> InError(w'.rows, botId, failures[botId])))
  }

  /** One whose turn has not come. */
  ghost predicate Pending(w: World, w': World, botId: int, events: seq<Event>) {
    && (botId in w'.tasks <==> botId in w.tasks && !EndedIn(events, botId))
    && (botId in w.rows && !RewrittenIn(events, botId) ==> botId in w'.rows)
  }

  /** The second loop of `_sync` when it has dealt with the first `n` listed userbots. */
  ghost predicate StartedUpTo(w: World, w': World, listed: seq<int>, n: nat, failures: map<int, string>,
                              events: seq<Event>)
    requires n <= |listed|
  {
    && (forall b | b in w'.tasks :: b in listed)
    && (forall k | 0 <= k < n :: Served(w, w', listed[k], failures, events))
    && (forall k | n <= k < |listed| :: Pending(w, w', listed[k], events))
  }

  lemma AwaitBetweenStarts(a: World, b: World, c: World, listed: seq<int>, n: nat, failures: map<int, string>,
                           first: seq<Event>, second: seq<Event>)
    requires n <= |listed| && StartedUpTo(a, b, listed, n, failures, first) && Elapsed(b, c, second)
    ensures StartedUpTo(a, c, listed, n, failures, first + second)
  {
    BothEvents(first, second, first + second);
    forall k | 0 <= k < n ensures Served(a, c, listed[k], failures, first + second) {
      ServedStill(a, b, c, listed[k], failures, first, second);
    }
    forall k | n <= k < |listed| ensures Pending(a, c, listed[k], first + second) {
      var x := listed[k];
      assert Pending(a, b, x, first);
      assert x in b.rows && !RewrittenIn(second, x) ==> RowKept(b, c, x);
    }
  }

  lemma ServedStill(a: World, b: World, c: World, x: int, failures: map<int, string>, first: seq<Event>,
                    second: seq<Event>)
    requires Served(a, b, x, failures, first) && Elapsed(b, c, second)
    ensures Served(a, c, x, failures, first + second)
  {
    BothEvents(first, second, first + second);
    assert x in b.rows && !RewrittenIn(second, x) ==> RowKept(b, c, x);
  }

  lemma OneMoreStart(a: World, b: World, listed: seq<int>, n: nat, failures: map<int, string>, events: seq<Event>)
    requires n < |listed| && StartedUpTo(a, b, listed, n, failures, events)
    requires forall i, j | 0 <= i < j < |listed| :: listed[i] != listed[j]
    requires b.waiting.None? && listed[n] in b.runnable && listed[n] !in b.tasks
    ensures var failure := if listed[n] in failures then Some(failures[listed[n]]) else None;
            StartedUpTo(a, Apply(b, Start(listed[n], failure)), listed, n + 1, failures, events)
  {
    var failure := if listed[n] in failures then Some(failures[listed[n]]) else None;
    var c := Apply(b, Start(listed[n], failure));
    assert Pending(a, b, listed[n], events);
    forall k | 0 <= k < n + 1 ensures Served(a, c, listed[k], failures, events) {
      assert k < n ==> Served(a, b, listed[k], failures, events);
    }
    forall k | n + 1 <= k < |listed| ensures Pending(a, c, listed[k], events) {
      assert Pending(a, b, listed[k], events);
    }
  }

  /** A userbot whose turn comes and that has a coroutine is passed over. */
  lemma NoStartNeeded(a: World, b: World, listed: seq<int>, n: nat, failures: map<int, string>, events: seq<Event>)
    requires n < |listed| && StartedUpTo(a, b, listed, n, failures, events) && listed[n] in b.tasks
    ensures StartedUpTo(a, b, listed, n + 1, failures, events)
  {
    assert Pending(a, b, listed[n], events);
  }

  lemma NextListed(a: World, b: World, mid: World, c: World, listed: seq<int>, n: nat, failures: map<int, string>,
                   logA: seq<Event>, logB: seq<Event>, logC: seq<Event>)
    requires n < |listed| && (forall i, j | 0 <= i < j < |listed| :: listed[i] != listed[j])
    requires logA <= logB <= logC
    requires StartedUpTo(a, b, listed, n, failures, logB[|logA|..]) && Elapsed(b, mid, logC[|logB|..])
    requires var failure := if listed[n] in failures then Some(failures[listed[n]]) else None;
             if listed[n] in b.tasks then b == mid == c
             else Enabled(mid, Start(listed[n], failure)) && c == Apply(mid, Start(listed[n], failure))
    ensures StartedUpTo(a, c, listed, n + 1, failures, logC[|logA|..])
  {
    assert logC[|logA|..] == logB[|logA|..] + logC[|logB|..];
    AwaitBetweenStarts(a, b, mid, listed, n, failures, logB[|logA|..], logC[|logB|..]);
    if listed[n] in b.tasks {
      NoStartNeeded(a, mid, listed, n, failures, logC[|logA|..]);
    } else {
      OneMoreStart(a, mid, listed, n, failures, logC[|logA|..]);
    }
  }

  lemma OwnerGone(w: World)
    requires OneToOne(w) && w.waiting.Some? && w.waiting.value.co !in w.live
    ensures w.waiting.value.botId !in w.tasks
  {
  }

  lemma SameButTime(w: World, later: World, w': World, events: seq<Event>)
    requires later == w.(now := later.now) && Elapsed(later, w', events)
    ensures Elapsed(w, w', events)
  {
    forall b | b in w.rows && !RewrittenIn(events, b) ensures RowKept(w, w', b) {
      assert RowKept(later, w', b);
    }
  }

  /** The wait of a stop is not visible in what has changed. */
  lemma WaitingAside(w0: World, w1: World, w2: World, w3: World, events: seq<Event>)
    requires w1 == w0.(waiting := w1.waiting) && w3 == w2.(waiting := w3.waiting)
    requires Elapsed(w1, w2, events)
    ensures Elapsed(w0, w3, events)
  {
    forall b | b in w0.rows && !RewrittenIn(events, b) ensures RowKept(w0, w3, b) {
      assert RowKept(w1, w2, b);
    }
  }

  /** The result of `_sync`: only listed userbots run afterwards, and each of them is served. */
  ghost predicate Converged(w: World, w': World, listed: seq<int>, failures: map<int, string>, events: seq<Event>) {
    && (forall b | b in w'.tasks :: b in listed)
    && (forall b | b in listed :: Served(w, w', b, failures, events))
  }

  lemma SyncConverges(a: World, b: World, c: World, listed: seq<int>, failures: map<int, string>,
                      logA: seq<Event>, logB: seq<Event>, logC: seq<Event>)
    requires logA <= logB <= logC && IsListing(a, listed)
    requires Elapsed(a.(runnable := b.runnable), b, logB[|logA|..])
    requires StartedUpTo(b, c, listed, |listed|, failures, logC[|logB|..])
    ensures Converged(a, c, listed, failures, logC[|logA|..])
  {
    var first, second := logB[|logA|..], logC[|logB|..];
    assert logC[|logA|..] == first + second;
    BothEvents(first, second, first + second);
    forall x | x in listed ensures Served(a, c, x, failures, first + second) {
      var k :| 0 <= k < |listed| && listed[k] == x;
      assert Served(b, c, listed[k], failures, second);
      assert x in a.rows && !RewrittenIn(first, x) ==> RowKept(a.(runnable := b.runnable), b, x);
    }
  }

  /** The userbots in the four states in which one should be online. */
  ghost function Wanted(w: World): set<int> {
    set b | b in w.rows
      && w.rows[b].status in {Userbots.Starting, Userbots.Running, Userbots.Recovering, Userbots.Authorized}
  }

  /** Main result on a pass, state by state: with at most 1000 userbots in the states STARTING, RUNNING,
      RECOVERING and AUTHORIZED, each of them that did not end meanwhile runs afterwards if and only if
      it ran before or its start succeeded; and whatever their number, one in any of the other states
      does not run. */
  lemma SyncByStatus(w: World, w': World, listed: seq<int>, failures: map<int, string>, events: seq<Event>, b: int)
    requires IsListing(w, listed) && Converged(w, w', listed, failures, events) && b in w.rows
    ensures match w.rows[b].status
            case Starting | Running | Recovering | Authorized =>
              |Wanted(w)| <= 1000 && !EndedIn(events, b) ==> (b in w'.tasks <==> b in w.tasks || b !in failures)
            case Created | Authenticating | Stopping | Stopped | Error | Suspended => b !in w'.tasks
  {
    ListingIsCompleteIff(w, listed);
    if b in listed {
      var i :| 0 <= i < |listed| && listed[i] == b;
      assert IsRunnable(w, listed[i]);
    }
  }

  /** Within the limit of 1000, the pass lists every userbot in those states and loses none: with no
      failure and no ending, exactly these run afterwards. Beyond it some such userbot is not listed,
      and the pass stops its coroutine if it has one. */
  lemma ListingIsCompleteIff(w: World, listed: seq<int>)
    requires IsListing(w, listed)
    ensures (forall b | b in Wanted(w) :: b in listed) <==> |Wanted(w)| <= 1000
    ensures forall b | b in listed :: b in Wanted(w)
  {
    var all, taken := Wanted(w), set b | b in listed;
    DistinctCardinality(listed);
    forall b | b in taken ensures b in all {
      var i :| 0 <= i < |listed| && listed[i] == b;
      assert IsRunnable(w, listed[i]);
    }
    SubsetCardinality(taken, all);
    if |all| <= 1000 {
      forall b | b in all ensures b in listed {
        assert IsRunnable(w, b);
      }
    }
    if forall b | b in all :: b in listed {
      assert all == taken;
    }
  }
}
