/** The userbot supervisor of `app/workers/manager.py` as a transition system.

    The supervisor and the coroutines of the userbots run on one event loop, and a run is any
    interleaving of steps. A step is what happens between two awaits, except that a status write of
    a coroutine, which awaits the database, is one step with what follows it up to the next await.
    The status rows are also written by the rest of the platform. Times are in seconds. */
module Supervisor {
  import opened Common
  import Userbots

  const MAX_RUNNABLE := 1000
  const STOP_TIMEOUT := 10
  const MAX_DELAY := 300

  datatype Row = Row(userId: int, status: Userbots.Status, error: Option<string>)

  /** Where a coroutine of `_run_userbot` is suspended. */
  datatype Phase = Starting | Running | Backoff(wakeAt: int)

  datatype Coroutine = Coroutine(botId: int, phase: Phase)

  /** `_stop_userbot` waiting for a coroutine, at most until the deadline. */
  datatype Wait = Wait(botId: int, co: nat, deadline: int)

  /** `tasks` and `runtimes` map userbots to the coroutine they belong to; `live` holds the
      coroutines that have not finished, by number. `runnable` is the answer of `list_runnable`
      that the present `_sync` works on, and empty outside of it. */
  datatype World = World(rows: map<int, Row>, tasks: map<int, nat>, runtimes: map<int, nat>, retries: map<int, nat>,
                         live: map<nat, Coroutine>, nextCo: nat, runnable: set<int>, waiting: Option<Wait>, now: int)

  /** How the database takes the write of `_set_status`; errors are logged and swallowed. */
  datatype Write = Written | Unread | Uncommitted

  datatype Step =
    // a coroutine of _run_userbot
    | Started(co: nat, write: Write)
    | Disconnected(co: nat, write: Write)
    | Crashed(co: nat, error: string, write: Write)
    | Woke(co: nat, write: Write)
    // the supervisor
    | BeginSync(listed: seq<int>)
    | EndSync
    | Start(botId: int, failure: Option<string>)
    | BeginStop(botId: int)
    | TimedOut
    | StopReturns
    | HandleStart(botId: int)
    | MarkStopped(botId: int)
    // everything else
    | OtherWrites(rows: map<int, Row>)
    | Tick(seconds: nat)

  function Pow2(n: nat): nat {
    if n == 0 then 1 else 2 * Pow2(n - 1)
  }

  /** The backoff after the n-th crash in a row. */
  function Delay(n: nat): nat {
    Min(Pow2(n), MAX_DELAY)
  }

  /** `str(exc)[:500]`: the part of an error text that is stored. */
  function Clipped(text: string): (stored: string)
    ensures stored <= text && |stored| == Min(|text|, 500)
  {
    if |text| <= 500 then text else text[..500]
  }

  predicate IsRunnable(w: World, botId: int) {
    botId in w.rows && Userbots.Runnable(w.rows[botId].status)
  }

  /** What `list_runnable` may return: different runnable userbots in any order, at most 1000, and
      all of them unless there are more. */
  ghost predicate IsListing(w: World, listed: seq<int>) {
    && |listed| <= MAX_RUNNABLE
    && (forall i, j | 0 <= i < j < |listed| :: listed[i] != listed[j])
    && (forall i | 0 <= i < |listed| :: IsRunnable(w, listed[i]))
    && (|listed| < MAX_RUNNABLE ==> forall b | b in w.rows && IsRunnable(w, b) :: b in listed)
  }

  function WithStatus(rows: map<int, Row>, botId: int, status: Userbots.Status, error: Option<string>,
                      write: Write): map<int, Row>
  {
    if botId in rows && write.Written?
    then rows[botId := Row(rows[botId].userId, status, if error.Some? then error else rows[botId].error)]
    else rows
  }

  /** The `finally` of `_run_userbot`: it removes whatever stands under the userbot's id. */
  function Finished(w: World, co: nat): World
    requires co in w.live
  {
    var botId := w.live[co].botId;
    w.(tasks := w.tasks - {botId}, runtimes := w.runtimes - {botId}, live := w.live - {co})
  }

  function Retries(w: World, botId: int): nat {
    if botId in w.retries then w.retries[botId] else 0
  }

  ghost predicate Enabled(w: World, step: Step) {
    match step
    case Started(co, _) => co in w.live && w.live[co].phase.Starting?
    case Disconnected(co, _) => co in w.live && w.live[co].phase.Running?
    case Crashed(co, _, _) => co in w.live && !w.live[co].phase.Backoff?
    case Woke(co, _) => co in w.live && w.live[co].phase.Backoff? && w.live[co].phase.wakeAt <= w.now
    case BeginSync(listed) => w.waiting.None? && IsListing(w, listed)
    case EndSync => w.waiting.None?
    case Start(botId, _) => w.waiting.None? && botId in w.runnable && botId !in w.tasks
    case BeginStop(_) => w.waiting.None?
    case TimedOut => w.waiting.Some? && w.waiting.value.co in w.live && w.waiting.value.deadline <= w.now
    case StopReturns => w.waiting.Some? && w.waiting.value.co !in w.live
    case HandleStart(_) => w.waiting.None?
    case MarkStopped(_) => w.waiting.None?
    case OtherWrites(_) => true
    case Tick(_) => true
  }

  ghost function Apply(w: World, step: Step): World
    requires Enabled(w, step)
  {
    match step
    case Started(co, write) =>
      var botId := w.live[co].botId;
      w.(rows := WithStatus(w.rows, botId, Userbots.Running, None, write),
         retries := if botId in w.rows && !write.Unread? then w.retries[botId := 0] else w.retries,
         live := w.live[co := w.live[co].(phase := Running)])
    case Disconnected(co, write) =>
      Finished(w.(rows := WithStatus(w.rows, w.live[co].botId, Userbots.Stopped, None, write)), co)
    case Crashed(co, error, write) =>
      var botId := w.live[co].botId;
      var n := Retries(w, botId) + 1;
      w.(rows := WithStatus(w.rows, botId, Userbots.Error, Some(Clipped(error)), write),
         retries := w.retries[botId := n],
         live := w.live[co := w.live[co].(phase := Backoff(w.now + Delay(n)))])
    case Woke(co, write) =>
      Finished(w.(rows := WithStatus(w.rows, w.live[co].botId, Userbots.Recovering, None, write)), co)
    case BeginSync(listed) => w.(runnable := set b | b in listed)
    case EndSync => w.(runnable := {})
    case Start(botId, None) =>
      w.(rows := if botId in w.rows
                 then w.rows[botId := w.rows[botId].(status := Userbots.Starting, error := None)] else w.rows,
         tasks := w.tasks[botId := w.nextCo],
         runtimes := w.runtimes[botId := w.nextCo],
         live := w.live[w.nextCo := Coroutine(botId, Starting)],
         nextCo := w.nextCo + 1)
    case Start(botId, Some(reason)) =>
      w.(rows := if botId in w.rows
                 then w.rows[botId := w.rows[botId].(status := Userbots.Error, error := Some(Clipped(reason)))]
                 else w.rows)
    case BeginStop(botId) =>
      if botId in w.tasks then w.(waiting := Some(Wait(botId, w.tasks[botId], w.now + STOP_TIMEOUT))) else w
    case TimedOut => Finished(w, w.waiting.value.co)
    case StopReturns => w.(waiting := None)
    case HandleStart(botId) =>
      if botId in w.rows
      then w.(rows := w.rows[botId := w.rows[botId].(status := Userbots.Starting)], retries := w.retries - {botId})
      else w
    case MarkStopped(botId) =>
      if botId in w.rows then w.(rows := w.rows[botId := w.rows[botId].(status := Userbots.Stopped)]) else w
    case OtherWrites(rows) => w.(rows := rows)
    case Tick(seconds) => w.(now := w.now + seconds)
  }

  // ----- Runs -----

  ghost predicate IsRun(w: World, steps: seq<Step>)
    decreases |steps|, 0
  {
    steps == [] || (IsRun(w, Init(steps)) && Enabled(After(w, Init(steps)), Last(steps)))
  }

  ghost function After(w: World, steps: seq<Step>): World
    requires IsRun(w, steps)
    decreases |steps|, 1
  {
    if steps == [] then w else Apply(After(w, Init(steps)), Last(steps))
  }

  // ----- One coroutine for one entry -----

  /** Live coroutines and table entries correspond one to one, and the tables agree; a stop waits
      for the coroutine that stands under its userbot, unless that one is gone. */
  ghost predicate OneToOne(w: World) {
    && w.tasks == w.runtimes
    && (forall b | b in w.tasks :: w.tasks[b] in w.live && w.live[w.tasks[b]].botId == b)
    && (forall c | c in w.live :: c < w.nextCo && w.live[c].botId in w.tasks && w.tasks[w.live[c].botId] == c)
    && (w.waiting.Some? ==> WaitsForOwner(w, w.waiting.value))
  }

  ghost predicate WaitsForOwner(w: World, wait: Wait) {
    && wait.co < w.nextCo
    && (wait.botId in w.tasks ==> w.tasks[wait.botId] == wait.co)
    && (wait.co in w.live ==> w.live[wait.co].botId == wait.botId)
  }

  /** A finishing coroutine removes its own entry and no other. */
  lemma FinishRemovesOwnEntry(w: World, co: nat)
    requires OneToOne(w) && co in w.live
    ensures OneToOne(Finished(w, co))
    ensures w.tasks[w.live[co].botId] == co
    ensures forall b :: b in Finished(w, co).tasks <==> b in w.tasks && w.tasks[b] != co
  {
  }

  lemma EndKeepsOneToOne(w: World, step: Step)
    requires OneToOne(w) && Enabled(w, step) && (step.Disconnected? || step.Woke? || step.TimedOut?)
    ensures OneToOne(Apply(w, step))
  {
    match step
    case Disconnected(co, write) =>
      FinishRemovesOwnEntry(w.(rows := WithStatus(w.rows, w.live[co].botId, Userbots.Stopped, None, write)), co);
    case Woke(co, write) =>
      FinishRemovesOwnEntry(w.(rows := WithStatus(w.rows, w.live[co].botId, Userbots.Recovering, None, write)), co);
    case TimedOut => FinishRemovesOwnEntry(w, w.waiting.value.co);
  }

  lemma StartKeepsOneToOne(w: World, step: Step)
    requires OneToOne(w) && Enabled(w, step) && step.Start?
    ensures OneToOne(Apply(w, step))
  {
  }

  lemma StepKeepsOneToOne(w: World, step: Step)
    requires OneToOne(w) && Enabled(w, step)
    ensures OneToOne(Apply(w, step))
  {
    if step.Disconnected? || step.Woke? || step.TimedOut? {
      EndKeepsOneToOne(w, step);
    } else if step.Start? {
      StartKeepsOneToOne(w, step);
    }
  }

  /** Main result: in every reachable interleaving the correspondence holds, so no userbot ever
      has two live coroutines, or two clients. */
  lemma {:induction false} AlwaysOneToOne(w: World, steps: seq<Step>)
    requires OneToOne(w) && IsRun(w, steps)
    ensures OneToOne(After(w, steps))
    ensures forall c, d | c in After(w, steps).live && d in After(w, steps).live
              && After(w, steps).live[c].botId == After(w, steps).live[d].botId :: c == d
  {
    if steps == [] {
    } else {
      AlwaysOneToOne(w, Init(steps));
      StepKeepsOneToOne(After(w, Init(steps)), Last(steps));
    }
  }

  // ----- Quiescence -----

  /** The userbot is not to run and does not run, and the pass under way does not have it on its list. */
  ghost predicate Quiet(w: World, botId: int) {
    botId !in w.tasks && botId !in w.runnable && !IsRunnable(w, botId)
  }

  /** The only steps that can wake a userbot: a start command, or a write by another part of the
      platform that makes it runnable. */
  ghost predicate Wakes(w: World, step: Step, botId: int) {
    || (step.HandleStart? && step.botId == botId && botId in w.rows)
    || (step.OtherWrites? && botId in step.rows && Userbots.Runnable(step.rows[botId].status))
  }

  lemma QuietUnlessWoken(w: World, step: Step, botId: int)
    requires OneToOne(w) && Enabled(w, step) && Quiet(w, botId)
    ensures Quiet(Apply(w, step), botId) <==> !Wakes(w, step, botId)
  {
    match step
    case BeginSync(listed) => assert forall i | 0 <= i < |listed| :: IsRunnable(w, listed[i]);
    case _ =>
  }

  ghost predicate NeverWoken(w: World, steps: seq<Step>, botId: int)
    requires IsRun(w, steps)
  {
    steps == [] || (NeverWoken(w, Init(steps), botId) && !Wakes(After(w, Init(steps)), Last(steps), botId))
  }

  /** Over any run without such a step, whatever passes, commands to other userbots and coroutines
      of other userbots it contains, the userbot stays down. */
  lemma {:induction false} QuietStaysQuiet(w: World, steps: seq<Step>, botId: int)
    requires OneToOne(w) && IsRun(w, steps) && Quiet(w, botId) && NeverWoken(w, steps, botId)
    ensures Quiet(After(w, steps), botId)
  {
    if steps == [] {
    } else {
      QuietStaysQuiet(w, Init(steps), botId);
      AlwaysOneToOne(w, Init(steps));
      QuietUnlessWoken(After(w, Init(steps)), Last(steps), botId);
    }
  }

  /** The steps after which the status of a userbot may be another one. The coroutine of the
      userbot is among their authors, for `_set_status` does not look at what it overwrites. */
  ghost predicate Overwrites(w: World, step: Step, botId: int)
    requires Enabled(w, step)
  {
    match step
    case Started(co, write) => w.live[co].botId == botId && write.Written?
    case Disconnected(co, write) => w.live[co].botId == botId && write.Written?
    case Crashed(co, _, write) => w.live[co].botId == botId && write.Written?
    case Woke(co, write) => w.live[co].botId == botId && write.Written?
    case Start(b, _) => b == botId
    case HandleStart(b) => b == botId
    case MarkStopped(b) => b == botId
    case OtherWrites(rows) => botId !in rows || rows[botId].status != Userbots.Suspended
    case _ => false
  }

  lemma SuspensionEndsIff(w: World, step: Step, botId: int)
    requires Enabled(w, step) && botId in w.rows && w.rows[botId].status == Userbots.Suspended
    ensures var rows := Apply(w, step).rows;
            botId !in rows || rows[botId].status != Userbots.Suspended <==> Overwrites(w, step, botId)
  {
  }

  ghost predicate LeavesRow(step: Step, botId: int, row: Row) {
    && (step.HandleStart? || step.MarkStopped? ==> step.botId != botId)
    && (step.OtherWrites? ==> botId in step.rows && step.rows[botId] == row)
  }

  /** A suspension therefore lasts exactly where no coroutine is left to end it: a quiet userbot
      keeps its whole row over every run without a command for it or an outside write to it. */
  lemma {:induction false} QuietRowLasts(w: World, steps: seq<Step>, botId: int)
    requires OneToOne(w) && IsRun(w, steps) && Quiet(w, botId) && botId in w.rows
    requires forall i | 0 <= i < |steps| :: LeavesRow(steps[i], botId, w.rows[botId])
    ensures Quiet(After(w, steps), botId)
    ensures botId in After(w, steps).rows && After(w, steps).rows[botId] == w.rows[botId]
  {
    if steps == [] {
    } else {
      var init := Init(steps);
      assert forall i | 0 <= i < |init| :: init[i] == steps[i];
      QuietRowLasts(w, init, botId);
      AlwaysOneToOne(w, init);
      assert LeavesRow(steps[|steps| - 1], botId, w.rows[botId]);
      QuietUnlessWoken(After(w, init), Last(steps), botId);
    }
  }

  /** And it does not last where one is left: a suspended userbot that is just coming up is
      RUNNING when it has, one that runs is STOPPED when it is disconnected, and one that sleeps in
      its backoff is RECOVERING, and so to be started again, when its sleep is over. */
  lemma SuspensionLiftedByOwnCoroutine(w: World, botId: int)
    requires OneToOne(w) && botId in w.tasks && botId in w.rows && w.rows[botId].status == Userbots.Suspended
    ensures var co := w.tasks[botId];
            match w.live[co].phase
            case Starting =>
              var step := Started(co, Written);
              Enabled(w, step) && Apply(w, step).rows[botId].status == Userbots.Running
            case Running =>
              var step := Disconnected(co, Written);
              Enabled(w, step) && Apply(w, step).rows[botId].status == Userbots.Stopped
            case Backoff(wakeAt) =>
              var step := Woke(co, Written);
              w.now >= wakeAt ==> Enabled(w, step) && IsRunnable(Apply(w, step), botId)
  {
  }

  /** That the list of the pass under way matters: a userbot on it that is asked to stop before its
      turn, and has no coroutine, is started all the same and the request is overwritten. */
  lemma StopRequestOverwritten(w: World, botId: int, stopping: Row)
    requires OneToOne(w) && w.waiting.None? && botId in w.runnable && botId !in w.tasks && botId in w.rows
    requires stopping.status == Userbots.Stopping
    ensures var steps := [OtherWrites(w.rows[botId := stopping]), Start(botId, None)];
            IsRun(w, steps) && botId in After(w, steps).tasks
            && botId in After(w, steps).rows && After(w, steps).rows[botId].status == Userbots.Starting
  {
    var a, b := OtherWrites(w.rows[botId := stopping]), Start(botId, None);
    InitOfAppend([], a);
    InitOfAppend([a], b);
    assert [a] == [] + [a] && [a, b] == [a] + [b];
    assert IsRun(w, []) && After(w, []) == w;
    assert IsRun(w, [a]) && After(w, [a]) == Apply(w, a);
  }

  // ----- The backoff series -----

  /** The delays of the crashes of one userbot, in order. */
  ghost function Delays(w: World, steps: seq<Step>, botId: int): seq<nat>
    requires IsRun(w, steps)
  {
    if steps == [] then [] else
    Delays(w, Init(steps), botId) + NewDelay(After(w, Init(steps)), Last(steps), botId)
  }

  ghost function NewDelay(w: World, step: Step, botId: int): seq<nat>
    requires Enabled(w, step)
  {
    if step.Crashed? && w.live[step.co].botId == botId then [Apply(w, step).live[step.co].phase.wakeAt - w.now] else []
  }

  /** The steps that restart the series: reaching RUNNING, and a start command. */
  ghost predicate Resets(w: World, step: Step, botId: int)
    requires Enabled(w, step)
  {
    || (step.Started? && w.live[step.co].botId == botId && botId in w.rows && !step.write.Unread?)
    || (step.HandleStart? && step.botId == botId && botId in w.rows)
  }

  ghost predicate NeverReset(w: World, steps: seq<Step>, botId: int)
    requires IsRun(w, steps)
  {
    steps == [] || (NeverReset(w, Init(steps), botId) && !Resets(After(w, Init(steps)), Last(steps), botId))
  }

  function Sum(delays: seq<nat>): nat {
    if delays == [] then 0 else Sum(Init(delays)) + Last(delays)
  }

  lemma {:induction false} CrashesAreCounted(w: World, steps: seq<Step>, botId: int)
    requires IsRun(w, steps) && NeverReset(w, steps, botId) && Retries(w, botId) == 0
    ensures Retries(After(w, steps), botId) == |Delays(w, steps, botId)|
    ensures forall i | 0 <= i < |Delays(w, steps, botId)| :: Delays(w, steps, botId)[i] == Delay(i + 1)
  {
    if steps == [] {
    } else {
      CrashesAreCounted(w, Init(steps), botId);
      StepCountsCrash(After(w, Init(steps)), Last(steps), botId);
    }
  }

  lemma StepCountsCrash(w: World, step: Step, botId: int)
    requires Enabled(w, step) && !Resets(w, step, botId)
    ensures Retries(Apply(w, step), botId) == Retries(w, botId) + |NewDelay(w, step, botId)|
    ensures NewDelay(w, step, botId) == [] || NewDelay(w, step, botId) == [Delay(Retries(w, botId) + 1)]
  {
  }

  lemma {:induction false} Pow2Grows(m: nat, n: nat)
    requires m <= n
    ensures 1 <= Pow2(m) <= Pow2(n)
  {
    if m < n {
      Pow2Grows(m, n - 1);
    } else if n == 0 {
    } else {
      Pow2Grows(n - 1, n - 1);
    }
  }

  lemma FirstPowers()
    ensures Pow2(0) == 1 && Pow2(1) == 2 && Pow2(2) == 4 && Pow2(3) == 8 && Pow2(4) == 16
    ensures Pow2(5) == 32 && Pow2(6) == 64 && Pow2(7) == 128 && Pow2(8) == 256 && Pow2(9) == 512
  {
    assert Pow2(1) == 2 * Pow2(0) && Pow2(2) == 2 * Pow2(1) && Pow2(3) == 2 * Pow2(2);
    assert Pow2(4) == 2 * Pow2(3) && Pow2(5) == 2 * Pow2(4) && Pow2(6) == 2 * Pow2(5);
    assert Pow2(7) == 2 * Pow2(6) && Pow2(8) == 2 * Pow2(7) && Pow2(9) == 2 * Pow2(8);
  }

  lemma DelayShape(n: nat)
    requires n >= 1
    ensures 2 <= Delay(n) <= MAX_DELAY && Delay(n) <= Delay(n + 1)
    ensures Delay(n) == if n <= 8 then Pow2(n) else MAX_DELAY
  {
    FirstPowers();
    Pow2Grows(1, n);
    Pow2Grows(n, n + 1);
    if n <= 8 {
      Pow2Grows(n, 8);
    } else {
      Pow2Grows(9, n);
    }
  }

  lemma {:induction false} SeriesTotal(delays: seq<nat>)
    requires forall i | 0 <= i < |delays| :: delays[i] == Delay(i + 1)
    ensures Sum(delays) == if |delays| <= 8 then Pow2(|delays| + 1) - 2 else 510 + 300 * (|delays| - 8)
  {
    FirstPowers();
    if delays == [] {
    } else {
      SeriesTotal(Init(delays));
      DelayShape(|delays|);
    }
  }

  /** Main result on the series: over n crashes of a userbot that neither reaches RUNNING nor gets
      a start command, whatever else happens, the delays are 2, 4, 8, ... up to 300, and their
      total has a closed form. */
  lemma BackoffSeries(w: World, steps: seq<Step>, botId: int)
    requires IsRun(w, steps) && NeverReset(w, steps, botId) && Retries(w, botId) == 0
    ensures var delays := Delays(w, steps, botId);
            var n := |delays|;
            && (forall i | 0 <= i < n :: 2 <= delays[i] <= 300)
            && (forall i | 0 < i < n :: delays[i - 1] <= delays[i])
            && (n > 0 ==> delays[0] == 2)
            && Sum(delays) == if n <= 8 then Pow2(n + 1) - 2 else 510 + 300 * (n - 8)
  {
    CrashesAreCounted(w, steps, botId);
    var delays := Delays(w, steps, botId);
    SeriesTotal(delays);
    FirstPowers();
    forall i | 0 <= i < |delays| ensures 2 <= delays[i] <= 300 && (i > 0 ==> delays[i - 1] <= delays[i]) {
      DelayShape(i + 1);
      if i > 0 {
        DelayShape(i);
      }
    }
  }

  /** After such a step the next crash waits 2 seconds again. */
  lemma ResetRestartsSeries(w: World, step: Step, botId: int)
    requires Enabled(w, step) && Resets(w, step, botId)
    ensures Retries(Apply(w, step), botId) == 0 && Delay(Retries(Apply(w, step), botId) + 1) == 2
  {
    FirstPowers();
  }

  // ----- When a crash recovers -----

  /** Time does not run past the end of a backoff or of a stop wait. */
  ghost predicate SkipsNoTimer(w: World, seconds: nat) {
    && (forall c | c in w.live && w.live[c].phase.Backoff? :: w.now + seconds <= w.live[c].phase.wakeAt)
    && (w.waiting.Some? && w.waiting.value.co in w.live ==> w.now + seconds <= w.waiting.value.deadline)
  }

  /** Timers fire when they are due. */
  ghost predicate Prompt(w: World, steps: seq<Step>)
    requires IsRun(w, steps)
  {
    if steps == [] then true else
    var before, step := After(w, Init(steps)), Last(steps);
    && Prompt(w, Init(steps))
    && (step.Tick? ==> SkipsNoTimer(before, step.seconds))
  }

  /** `_stop_userbot` waits for a coroutine that sleeps in its backoff. */
  ghost predicate StoppingSleeper(w: World, botId: int, co: nat, wakeAt: int, deadline: int) {
    && co in w.live && w.live[co] == Coroutine(botId, Backoff(wakeAt))
    && w.waiting == Some(Wait(botId, co, deadline))
    && w.now <= wakeAt && w.now <= deadline
  }

  /** Coroutine numbers are not used again. */
  lemma StepUsesNewNumbers(w: World, step: Step, co: nat)
    requires Enabled(w, step) && co < w.nextCo
    ensures co < Apply(w, step).nextCo
    ensures co in Apply(w, step).live ==> co in w.live
  {
  }

  lemma {:induction false} NumbersNotReused(w: World, steps: seq<Step>, co: nat)
    requires IsRun(w, steps) && co < w.nextCo
    ensures co < After(w, steps).nextCo
  {
    if steps == [] {
    } else {
      NumbersNotReused(w, Init(steps), co);
      StepUsesNewNumbers(After(w, Init(steps)), Last(steps), co);
    }
  }

  lemma StepKeepsSleeper(w: World, step: Step, botId: int, co: nat, wakeAt: int, deadline: int)
    requires OneToOne(w) && Enabled(w, step) && StoppingSleeper(w, botId, co, wakeAt, deadline)
    requires step.Tick? ==> SkipsNoTimer(w, step.seconds)
    requires co in Apply(w, step).live
    ensures StoppingSleeper(Apply(w, step), botId, co, wakeAt, deadline)
  {
  }

  lemma {:induction false} SleeperUntilDecided(w: World, steps: seq<Step>, botId: int, co: nat, wakeAt: int,
                                               deadline: int)
    requires OneToOne(w) && IsRun(w, steps) && Prompt(w, steps) && StoppingSleeper(w, botId, co, wakeAt, deadline)
    requires co in After(w, steps).live
    ensures StoppingSleeper(After(w, steps), botId, co, wakeAt, deadline)
  {
    if steps == [] {
    } else {
      var before := After(w, Init(steps));
      AlwaysOneToOne(w, Init(steps));
      NumbersNotReused(w, Init(steps), co);
      StepUsesNewNumbers(before, Last(steps), co);
      SleeperUntilDecided(w, Init(steps), botId, co, wakeAt, deadline);
      StepKeepsSleeper(before, Last(steps), botId, co, wakeAt, deadline);
    }
  }

  /** Exactly when it recovers: the step that ends such a coroutine is the end of its sleep, with
      status RECOVERING, only if that comes no later than the deadline of the stop, and the
      timeout, which writes no status, only if it comes no earlier. */
  lemma SleeperFate(w: World, steps: seq<Step>, step: Step, botId: int, co: nat, wakeAt: int, deadline: int)
    requires OneToOne(w) && IsRun(w, steps) && Prompt(w, steps) && StoppingSleeper(w, botId, co, wakeAt, deadline)
    requires Enabled(After(w, steps), step) && co in After(w, steps).live && co !in Apply(After(w, steps), step).live
    ensures (step.Woke? && step.co == co && wakeAt <= deadline) || (step.TimedOut? && deadline <= wakeAt)
    ensures step.TimedOut? ==> Apply(After(w, steps), step).rows == After(w, steps).rows
    ensures step.Woke? && step.write.Written? && botId in After(w, steps).rows ==>
              Apply(After(w, steps), step).rows[botId].status == Userbots.Recovering
  {
    SleeperUntilDecided(w, steps, botId, co, wakeAt, deadline);
  }

  /** A userbot that is down for good: either quiet, or asleep in a backoff that its stop will not
      wait out. */
  ghost predicate Doomed(w: World, botId: int, co: nat) {
    || Quiet(w, botId)
    || (exists wakeAt, deadline :: StoppingSleeper(w, botId, co, wakeAt, deadline) && deadline < wakeAt
          && botId !in w.runnable && !IsRunnable(w, botId))
  }

  lemma StepKeepsDoomed(w: World, step: Step, botId: int, co: nat, wakeAt: int, deadline: int)
    requires OneToOne(w) && Enabled(w, step) && !Wakes(w, step, botId)
    requires StoppingSleeper(w, botId, co, wakeAt, deadline) && deadline < wakeAt && botId !in w.runnable
               && !IsRunnable(w, botId)
    requires step.Tick? ==> w.now + step.seconds <= deadline
    ensures Doomed(Apply(w, step), botId, co)
  {
    var w' := Apply(w, step);
    if step.TimedOut? {
      assert Quiet(w', botId);
    } else {
      assert StoppingSleeper(w', botId, co, wakeAt, deadline);
    }
  }

  /** Once the deadline of the stop lies before the end of the sleep, the userbot never comes up
      again by itself: over every prompt run without a start command for it or an outside write
      that makes it runnable, it is never runnable and never restarted. */
  lemma {:induction false} DoomedStaysDown(w: World, steps: seq<Step>, botId: int, co: nat)
    requires OneToOne(w) && IsRun(w, steps) && Prompt(w, steps) && NeverWoken(w, steps, botId) && Doomed(w, botId, co)
    ensures Doomed(After(w, steps), botId, co) && !IsRunnable(After(w, steps), botId)
  {
    if steps == [] {
    } else {
      var before := After(w, Init(steps));
      AlwaysOneToOne(w, Init(steps));
      DoomedStaysDown(w, Init(steps), botId, co);
      if Quiet(before, botId) {
        QuietUnlessWoken(before, Last(steps), botId);
      } else {
        var wakeAt, deadline :| StoppingSleeper(before, botId, co, wakeAt, deadline) && deadline < wakeAt
          && botId !in before.runnable && !IsRunnable(before, botId);
        StepKeepsDoomed(before, Last(steps), botId, co, wakeAt, deadline);
      }
    }
  }

  // ----- From the crash to its end -----

  /** What a coroutine writes, status by status: its own row, with the error text only of a crash, and
      nothing at all when the database does not take the write. */
  lemma CoroutineWrites(w: World, step: Step, co: nat, write: Write)
    requires Enabled(w, step) && co in w.live && w.live[co].botId in w.rows
    requires step in {Started(co, write), Disconnected(co, write), Woke(co, write)}
          || (step.Crashed? && step.co == co && step.write == write)
    ensures var old', rows := w.rows[w.live[co].botId], Apply(w, step).rows;
            var own := if step.Started? then Row(old'.userId, Userbots.Running, old'.error)
                       else if step.Disconnected? then Row(old'.userId, Userbots.Stopped, old'.error)
                       else if step.Woke? then Row(old'.userId, Userbots.Recovering, old'.error)
                       else Row(old'.userId, Userbots.Error, Some(Clipped(step.error)));
            rows == if write.Written? then w.rows[w.live[co].botId := own] else w.rows
  {
  }

  /** What a start writes: STARTING and no error, or ERROR with the first 500 characters of the reason. */
  lemma StartWrites(w: World, botId: int, failure: Option<string>)
    requires Enabled(w, Start(botId, failure)) && botId in w.rows
    ensures var row, rows := w.rows[botId], Apply(w, Start(botId, failure)).rows;
            rows == w.rows[botId := match failure
                                    case None => Row(row.userId, Userbots.Starting, None)
                                    case Some(reason) => Row(row.userId, Userbots.Error, Some(Clipped(reason)))]
  {
  }

  /** A coroutine asleep in its backoff that no stop is waiting for, of a userbot that is not to run. */
  ghost predicate Asleep(w: World, botId: int, co: nat, wakeAt: int) {
    && co in w.live && w.live[co] == Coroutine(botId, Backoff(wakeAt)) && w.now <= wakeAt
    && (w.waiting.Some? ==> w.waiting.value.co != co)
    && !IsRunnable(w, botId)
  }

  lemma StepKeepsAsleep(w: World, step: Step, botId: int, co: nat, wakeAt: int)
    requires OneToOne(w) && Enabled(w, step) && Asleep(w, botId, co, wakeAt)
    requires !Wakes(w, step, botId) && step != BeginStop(botId)
    requires step.Tick? ==> SkipsNoTimer(w, step.seconds)
    requires co in Apply(w, step).live || w.now < wakeAt
    ensures Asleep(Apply(w, step), botId, co, wakeAt)
  {
    StepKeepsCoroutineAsleep(w, step, botId, co, wakeAt);
    StepKeepsNotRunnable(w, step, botId, co);
  }

  lemma StepKeepsCoroutineAsleep(w: World, step: Step, botId: int, co: nat, wakeAt: int)
    requires OneToOne(w) && Enabled(w, step) && Asleep(w, botId, co, wakeAt) && step != BeginStop(botId)
    requires step.Tick? ==> SkipsNoTimer(w, step.seconds)
    requires co in Apply(w, step).live || w.now < wakeAt
    ensures var w' := Apply(w, step);
            && co in w'.live && w'.live[co] == Coroutine(botId, Backoff(wakeAt)) && w'.now <= wakeAt
            && (w'.waiting.Some? ==> w'.waiting.value.co != co)
  {
    if step.BeginStop? && step.botId in w.tasks {
      assert w.live[w.tasks[step.botId]].botId == step.botId;
    }
  }

  /** As long as its coroutine sleeps on, only a waking step makes a userbot runnable. */
  lemma StepKeepsNotRunnable(w: World, step: Step, botId: int, co: nat)
    requires OneToOne(w) && Enabled(w, step) && !IsRunnable(w, botId) && !Wakes(w, step, botId)
    requires co in w.live && w.live[co].botId == botId && w.live[co].phase.Backoff? && co in Apply(w, step).live
    ensures !IsRunnable(Apply(w, step), botId)
  {
    if (step.Started? || step.Disconnected? || step.Crashed? || step.Woke?) && w.live[step.co].botId == botId {
      assert step.co == co;
    }
  }

  lemma TimeGoesOn(w: World, step: Step)
    requires Enabled(w, step)
    ensures w.now <= Apply(w, step).now
  {
  }

  lemma {:induction false} SleepsOn(w: World, steps: seq<Step>, botId: int, co: nat, wakeAt: int)
    requires OneToOne(w) && IsRun(w, steps) && Prompt(w, steps) && Asleep(w, botId, co, wakeAt) && co < w.nextCo
    requires NeverWoken(w, steps, botId) && BeginStop(botId) !in steps
    requires co in After(w, steps).live || After(w, steps).now < wakeAt
    ensures Asleep(After(w, steps), botId, co, wakeAt)
  {
    if steps == [] {
    } else {
      var before, step := After(w, Init(steps)), Last(steps);
      AlwaysOneToOne(w, Init(steps));
      NumbersNotReused(w, Init(steps), co);
      StepUsesNewNumbers(before, step, co);
      TimeGoesOn(before, step);
      assert forall x | x in Init(steps) :: x in steps;
      assert step in steps;
      SleepsOn(w, Init(steps), botId, co, wakeAt);
      StepKeepsAsleep(before, step, botId, co, wakeAt);
    }
  }

  /** The crash itself: ERROR is written, the row is not runnable, and the coroutine sleeps. */
  lemma CrashFallsAsleep(w: World, co: nat, error: string)
    requires OneToOne(w) && Enabled(w, Crashed(co, error, Written)) && w.live[co].botId in w.rows
    requires w.waiting.Some? ==> w.waiting.value.co != co
    ensures var botId, w' := w.live[co].botId, Apply(w, Crashed(co, error, Written));
            && w'.rows[botId] == Row(w.rows[botId].userId, Userbots.Error, Some(Clipped(error)))
            && OneToOne(w') && co < w'.nextCo && Asleep(w', botId, co, w.now + Delay(Retries(w, botId) + 1))
  {
    StepKeepsOneToOne(w, Crashed(co, error, Written));
    DelayShape(Retries(w, w.live[co].botId) + 1);
  }

  /** From a crash to the beginning of the stop that follows it: any run in which the userbot is not
      woken up and no stop of it begins. */
  ghost predicate UntilStop(w: World, steps: seq<Step>, botId: int)
  {
    && IsRun(w, steps) && Prompt(w, steps) && NeverWoken(w, steps, botId) && BeginStop(botId) !in steps
    && After(w, steps).waiting.None? && botId !in After(w, steps).runnable
  }

  /** After the stop has begun: any run in which the userbot is not woken up. */
  ghost predicate AfterStop(w: World, steps: seq<Step>, botId: int)
  {
    Enabled(w, BeginStop(botId)) && var w' := Apply(w, BeginStop(botId));
    IsRun(w', steps) && Prompt(w', steps) && NeverWoken(w', steps, botId)
  }

  lemma SleepsOnSoundly(w: World, steps: seq<Step>, botId: int, co: nat, wakeAt: int)
    requires OneToOne(w) && Asleep(w, botId, co, wakeAt) && co < w.nextCo && UntilStop(w, steps, botId)
    requires co in After(w, steps).live || After(w, steps).now < wakeAt
    ensures OneToOne(After(w, steps)) && Asleep(After(w, steps), botId, co, wakeAt)
  {
    SleepsOn(w, steps, botId, co, wakeAt);
    AlwaysOneToOne(w, steps);
  }

  /** Main result on crashes, one half: if the stop that follows a crash begins more than ten seconds
      before the end of the delay, the userbot stays down for good. */
  lemma CrashIsFinal(w: World, co: nat, error: string, steps: seq<Step>, steps': seq<Step>)
    requires OneToOne(w) && Enabled(w, Crashed(co, error, Written)) && w.live[co].botId in w.rows
    requires w.waiting.Some? ==> w.waiting.value.co != co
    requires var botId, w1 := w.live[co].botId, Apply(w, Crashed(co, error, Written));
             && UntilStop(w1, steps, botId) && AfterStop(After(w1, steps), steps', botId)
             && After(w1, steps).now + 10 < w.now + Delay(Retries(w, botId) + 1)
    ensures var botId, w1 := w.live[co].botId, Apply(w, Crashed(co, error, Written));
            !IsRunnable(After(Apply(After(w1, steps), BeginStop(botId)), steps'), botId)
  {
    var botId, w1 := w.live[co].botId, Apply(w, Crashed(co, error, Written));
    var wakeAt, w2 := w.now + Delay(Retries(w, botId) + 1), After(w1, steps);
    CrashFallsAsleep(w, co, error);
    SleepsOn(w1, steps, botId, co, wakeAt);
    AlwaysOneToOne(w1, steps);
    StepKeepsOneToOne(w2, BeginStop(botId));
    StopOfSleeper(w2, botId, co, wakeAt);
    DoomedStaysDown(Apply(w2, BeginStop(botId)), steps', botId, co);
  }

  lemma StopOfSleeper(w: World, botId: int, co: nat, wakeAt: int)
    requires OneToOne(w) && Asleep(w, botId, co, wakeAt) && w.waiting.None? && botId !in w.runnable
    ensures var w' := Apply(w, BeginStop(botId));
            StoppingSleeper(w', botId, co, wakeAt, w.now + 10) && (w.now + 10 < wakeAt ==> Doomed(w', botId, co))
  {
    var w' := Apply(w, BeginStop(botId));
    assert StoppingSleeper(w', botId, co, wakeAt, w.now + 10);
  }

  /** The step that ends the coroutine `co` in the run after the stop. */
  ghost predicate EndsIt(w: World, steps: seq<Step>, step: Step, botId: int, co: nat)
    requires AfterStop(w, steps, botId)
  {
    var w' := After(Apply(w, BeginStop(botId)), steps);
    Enabled(w', step) && co in w'.live && co !in Apply(w', step).live
  }

  lemma LateStop(w: World, steps: seq<Step>, step: Step, botId: int, co: nat, wakeAt: int)
    requires OneToOne(w) && Asleep(w, botId, co, wakeAt) && w.waiting.None? && botId !in w.runnable
    requires wakeAt < w.now + 10 && AfterStop(w, steps, botId) && EndsIt(w, steps, step, botId, co)
    ensures step.Woke? && step.co == co
    ensures var w' := After(Apply(w, BeginStop(botId)), steps);
            step.write.Written? && botId in w'.rows ==> IsRecovering(Apply(w', step), botId)
  {
    StepKeepsOneToOne(w, BeginStop(botId));
    StopOfSleeper(w, botId, co, wakeAt);
    SleeperFate(Apply(w, BeginStop(botId)), steps, step, botId, co, wakeAt, w.now + 10);
  }

  predicate IsRecovering(w: World, botId: int) {
    botId in w.rows && w.rows[botId].status == Userbots.Recovering
  }

  /** The other half: if it begins less than ten seconds before, what ends the coroutine is the end of
      its sleep, and RECOVERING is written, so that the next pass starts the userbot again. */
  lemma CrashRecovers(w: World, co: nat, error: string, steps: seq<Step>, steps': seq<Step>, step: Step)
    requires OneToOne(w) && Enabled(w, Crashed(co, error, Written)) && w.live[co].botId in w.rows
    requires w.waiting.Some? ==> w.waiting.value.co != co
    requires var botId, w1 := w.live[co].botId, Apply(w, Crashed(co, error, Written));
             && UntilStop(w1, steps, botId) && co in After(w1, steps).live
             && w.now + Delay(Retries(w, botId) + 1) < After(w1, steps).now + 10
             && AfterStop(After(w1, steps), steps', botId) && EndsIt(After(w1, steps), steps', step, botId, co)
    ensures step.Woke? && step.co == co
    ensures var botId, w1 := w.live[co].botId, Apply(w, Crashed(co, error, Written));
            var w4 := After(Apply(After(w1, steps), BeginStop(botId)), steps');
            step.write.Written? && botId in w4.rows ==> IsRecovering(Apply(w4, step), botId)
  {
    var botId, w1 := w.live[co].botId, Apply(w, Crashed(co, error, Written));
    var wakeAt := w.now + Delay(Retries(w, botId) + 1);
    CrashFallsAsleep(w, co, error);
    SleepsOnSoundly(w1, steps, botId, co, wakeAt);
    LateStop(After(w1, steps), steps', step, botId, co, wakeAt);
  }

  /** By its place in the series: after the first three crashes in a row a stop always waits the delay
      out; from the fifth on, one that begins less than 22 seconds after the crash never does. */
  lemma CrashLoopEnds(w: World, co: nat)
    requires co in w.live
    ensures var n, delay := Retries(w, w.live[co].botId) + 1, Delay(Retries(w, w.live[co].botId) + 1);
            && (n <= 3 <==> delay < 10) && (n >= 5 <==> 22 + 10 <= delay)
  {
    var n := Retries(w, w.live[co].botId) + 1;
    FirstPowers();
    DelayShape(n);
    Pow2Grows(1, n);
    if n <= 3 {
      Pow2Grows(n, 3);
    } else {
      Pow2Grows(4, n);
      if n >= 5 {
        Pow2Grows(5, n);
      }
    }
  }

  /** Main result on crash loops: a userbot that crashes for the fifth time in a row, and that a pass
      begins to stop less than 22 seconds later, stays down for good. So with passes every ten
      seconds the longer delays of the series, up to 300 seconds, are never waited out. */
  lemma FifthCrashIsFinal(w: World, co: nat, error: string, steps: seq<Step>, steps': seq<Step>)
    requires OneToOne(w) && Enabled(w, Crashed(co, error, Written)) && w.live[co].botId in w.rows
    requires (w.waiting.Some? ==> w.waiting.value.co != co) && Retries(w, w.live[co].botId) >= 4
    requires var botId, w1 := w.live[co].botId, Apply(w, Crashed(co, error, Written));
             && UntilStop(w1, steps, botId) && AfterStop(After(w1, steps), steps', botId)
             && After(w1, steps).now < w.now + 22
    ensures var botId, w1 := w.live[co].botId, Apply(w, Crashed(co, error, Written));
            && w1.rows[botId] == Row(w.rows[botId].userId, Userbots.Error, Some(Clipped(error)))
            && !IsRunnable(After(Apply(After(w1, steps), BeginStop(botId)), steps'), botId)
  {
    CrashLoopEnds(w, co);
    CrashIsFinal(w, co, error, steps, steps');
  }
}
