/**
 MessageQueue as a machine of atomic steps: calls from any thread, each inside the queue's lock,
 interleaved with the steps of the processor coroutine, the cleanup that follows a stop, and
 the passing of time.

 A message is its acceptance number: the n-th accepted message is n.
 */
module QueueMachine {
  import opened Wrappers

  type Msg = nat

  /** Where a processor coroutine is.  `Top` through `Starting` run without awaiting; the
      others are `await` expressions. */
  datatype Pc =
    | Created
    | Top(held: Option<Msg>)
    | Checking(m: Msg)
    | Pacing(m: Msg)
    | Waiting(m: Msg, until: real)
    | Rechecking(m: Msg)
    | Ready(m: Msg)
    | Starting(m: Msg)
    | Sending(m: Msg, started: real)
    | Mapping(m: Msg)
    | Clearing(m: Msg)
    | Sleeping(held: Option<Msg>, until: real)
    | BackOff(m: Msg, until: real)
    | Closed(held: Option<Msg>)  // its event loop is closed: never done, and never runs again
  {
    /** The coroutine's `current_message`. */
    function Held(): Option<Msg> {
      match this
      case Created => None
      case Top(held) => held
      case Sleeping(held, _) => held
      case Closed(held) => held
      case _ => Some(m)
    }

    /** The message whose fate is still open: held, and not yet sent or given up. */
    function Pending(): Option<Msg> {
      if Mapping? || Clearing? || Closed? then None else Held()
    }

    predicate Awaiting() {
      Created? || Waiting? || Sending? || Mapping? || Sleeping? || BackOff?
    }
  }

  /** One `stop()` whose cleanup is under way: what it captured, and which cleanup is complete. */
  datatype StopOp = StopOp(task: Option<nat>, executor: Option<nat>, taskDone: bool, executorDone: bool)

  /** A recorded send: when it started, when it returned, and the delay then in force. */
  datatype Sent = Sent(msg: Msg, started: real, recorded: real, delay: real)

  /** `_running`, `_stopping`, `_stop_failed`, `_processor_task` and `_executor`, with the
      executors that are alive, the stop in progress, and the watchdogs, of this stop or an earlier
      one, whose wait has timed out and that are about to mark the stop as failed. */
  datatype Life = Life(
    running: bool, stopping: bool, stopFailed: bool, task: Option<nat>, executor: Option<nat>,
    executors: set<nat>, nextId: nat, stop: Option<StopOp>, lateMarks: nat)

  /** What became of the messages accepted so far.  `refused` counts offers that met a full queue. */
  datatype History = History(
    accepted: nat, refused: nat, sent: seq<Sent>, failed: set<Msg>, lost: set<Msg>, abandoned: set<Msg>)

  datatype Flags = Flags(inFlight: bool, hasCurrent: bool)

  const CLEARED := Flags(false, false)

  /** `tasks` are the processor coroutines that are not done. */
  datatype State = State(
    life: Life, tasks: map<nat, Pc>, queue: seq<Msg>, limit: nat, flags: Flags, dropped: nat,
    delay: real, lastSend: real, clock: real, history: History)

  function Initial(limit: nat, delay: real, clock: real): State {
    State(Life(false, false, false, None, None, {}, 0, None, 0), map[], [], limit, CLEARED, 0,
          delay, 0.0, clock, History(0, 0, [], {}, {}, {}))
  }

  // ---------- life cycle ----------

  predicate TaskActive(s: State) {
    s.life.task.Some? && s.life.task.value in s.tasks
  }

  /** `_clear_failed_stop_state_if_recovered_locked`. */
  function ClearFailed(s: State): State {
    if !s.life.stopFailed || s.life.running || TaskActive(s) || s.life.executor.Some? then s
    else s.(life := s.life.(task := None, stopping := false, stopFailed := false))
  }

  function CreateTask(s: State): State {
    var id := s.life.nextId;
    s.(life := s.life.(task := Some(id), nextId := id + 1), tasks := s.tasks[id := Created])
  }

  /** `start`, with or without a running event loop. */
  function Start(s: State, delay: real, loop: bool): State {
    var s := ClearFailed(s);
    if s.life.stopFailed || s.life.running || s.life.stopping then s else TurnOn(s, delay, loop)
  }

  function TurnOn(s: State, delay: real, loop: bool): State {
    var id := s.life.nextId;
    var life := if s.life.executor.Some? then s.life
                else s.life.(executor := Some(id), executors := s.life.executors + {id}, nextId := id + 1);
    var s := s.(delay := delay, life := life.(running := true));
    if loop then CreateTask(s) else s
  }

  /** `ensure_processor_started`. */
  function Ensure(s: State, loop: bool): State {
    var inactive := !TaskActive(s);
    var s := if inactive then s.(life := s.life.(task := None)) else s;
    if s.life.running && !s.life.stopFailed && inactive && loop then CreateTask(s) else s
  }

  /** The locked section at the head of `stop`. */
  function BeginStop(s: State): State {
    if !s.life.running then s
    else
      var op := StopOp(s.life.task, s.life.executor, s.life.task.None?, s.life.executor.None?);
      s.(life := s.life.(running := false, stopping := true, stop := Some(op)))
  }

  /** The queue lets go of the coroutine and the executor that `op` captured. */
  function Release(s: State, op: StopOp): State {
    var ownsTask := op.task.Some? && s.life.task == op.task;
    var ownsExecutor := op.executor.Some? && s.life.executor == op.executor;
    s.(flags := if ownsTask then CLEARED else s.flags,
       tasks := if ownsTask then s.tasks - {op.task.value} else s.tasks,
       life := s.life.(stop := None,
                       task := if ownsTask then None else s.life.task,
                       executor := if ownsExecutor then None else s.life.executor))
  }

  /** `_finalize_stop_state`. */
  function Finalize(s: State): State {
    if s.life.stop.None? || !s.life.stop.value.taskDone || !s.life.stop.value.executorDone then s
    else
      var s := Release(s, s.life.stop.value);
      if s.life.stopFailed then ClearFailed(s) else s.(life := s.life.(stopping := false))
  }

  /** The coroutine has not ended, and its event loop can still run it. */
  predicate CanRun(s: State, t: nat) {
    t in s.tasks && !s.tasks[t].Closed?
  }

  /** The captured task is done, or its loop is closed: its cleanup event is set and the stop finalised. */
  function TaskCleaned(s: State): State {
    if s.life.stop.None? || s.life.stop.value.task.None? || CanRun(s, s.life.stop.value.task.value) then s
    else Finalize(s.(life := s.life.(stop := Some(s.life.stop.value.(taskDone := true)))))
  }

  /** The captured executor has shut down: its cleanup event is set and the stop finalised. */
  function ExecutorCleaned(s: State): State {
    if s.life.stop.None? || s.life.stop.value.executor.None? then s
    else
      var op := s.life.stop.value;
      Finalize(s.(life := s.life.(executors := s.life.executors - {op.executor.value},
                                  stop := Some(op.(executorDone := true)))))
  }

  /** A watchdog's wait runs out before its cleanup event is set; it has not taken the lock yet. */
  function TimeOut(s: State, ofTask: bool): State {
    if s.life.stop.None? then s
    else
      var op := s.life.stop.value;
      if (if ofTask then op.task.Some? && !op.taskDone else op.executor.Some? && !op.executorDone)
      then s.(life := s.life.(lateMarks := s.life.lateMarks + 1)) else s
  }

  /** The watchdog takes the lock, however late, and marks the stop as failed. */
  function MarkStopFailed(s: State): State {
    if s.life.lateMarks == 0 then s
    else s.(life := s.life.(lateMarks := s.life.lateMarks - 1, stopFailed := true))
  }

  /** `reset_failed_stop_state`. */
  function Reset(s: State): State {
    if s.life.stopping || !s.life.stopFailed then s else ClearFailed(s)
  }

  // ---------- messages in ----------

  /** What a caller does when the queue is full: give up, wait and retry, or give up because its
      timeout has passed. */
  datatype WhenFull = Drop | Wait | TimedOut

  /** The locked section of `enqueue`; `retry` when the caller comes back from waiting. */
  function Offer(s: State, whenFull: WhenFull, retry: bool): State {
    var s := if retry then s else ClearFailed(s);
    if (!retry && s.life.stopFailed) || !s.life.running || s.life.stopping then s
    else if |s.queue| >= s.limit then
      if whenFull.Wait? then s
      else s.(dropped := s.dropped + 1, history := s.history.(refused := s.history.refused + 1))
    else
      var m := s.history.accepted;
      s.(queue := s.queue + [m], history := s.history.(accepted := m + 1))
  }

  /** `_requeue_message`. */
  function Requeue(s: State, m: Msg): State {
    if |s.queue| >= s.limit then
      s.(dropped := s.dropped + 1, history := s.history.(lost := s.history.lost + {m}))
    else s.(queue := [m] + s.queue)
  }

  // ---------- the processor ----------

  /** What the outside world answers at a step: the connection check, the send, the scheduler. */
  datatype Answer =
    | Go(sleep: real)        // connection ready, or nothing to ask
    | NotReady(sleep: real)  // connection not ready
    | Raises(sleep: real)    // the check raises an unexpected exception
    | Returned(mapping: bool)
    | ConnectionError(sleep: real)
    | OtherError

  function Put(s: State, t: nat, pc: Pc): State {
    s.(tasks := s.tasks[t := pc])
  }

  function Fail(s: State, m: Msg): State {
    s.(history := s.history.(failed := s.history.failed + {m}))
  }

  /** The coroutine is over; a message whose fate is open goes with it. */
  function End(s: State, t: nat, flags: Flags): State
    requires t in s.tasks
  {
    var pending := s.tasks[t].Pending();
    var s := s.(tasks := s.tasks - {t}, flags := flags);
    if pending.None? then s
    else s.(history := s.history.(abandoned := s.history.abandoned + {pending.value}))
  }

  /** The coroutine is over and did not clear its flags. */
  function EndAbruptly(s: State, t: nat): State
    requires t in s.tasks
  {
    End(s, t, s.flags)
  }

  /** Put the message back, forget it, and sleep before the next try. */
  function RequeueAndSleep(s: State, t: nat, m: Msg, sleep: real, inFlight: bool): State {
    Put(Requeue(s, m).(flags := Flags(inFlight, false)), t, Sleeping(None, s.clock + sleep))
  }

  /** The event loop of the coroutine is closed; a message whose fate is open is stuck for good. */
  function CloseLoop(s: State, t: nat): State
    requires t in s.tasks
  {
    var pc := s.tasks[t];
    if !pc.Awaiting() then s
    else
      var s := s.(tasks := s.tasks[t := Closed(pc.Held())]);
      if pc.Pending().None? then s
      else s.(history := s.history.(abandoned := s.history.abandoned + {pc.Pending().value}))
  }

  /** The top of the loop, and the steps that only wait for the clock. */
  function AdvanceLoop(s: State, t: nat, a: Answer): State
    requires t in s.tasks
  {
    match s.tasks[t]
    case Created => Put(s, t, Top(None))
    case Top(held) =>
      if !s.life.running then EndAbruptly(s, t)
      else if held.Some? then Put(s, t, Checking(held.value))
      else if s.queue != [] then
        Put(s.(queue := s.queue[1..], flags := s.flags.(hasCurrent := true)), t, Checking(s.queue[0]))
      else if a.Go? then Put(s, t, Sleeping(None, s.clock + a.sleep)) else s
    case Waiting(m, until) => if s.clock >= until then Put(s, t, Rechecking(m)) else s
    case Sleeping(held, until) => if s.clock >= until then Put(s, t, Top(held)) else s
    case BackOff(m, until) => if s.clock >= until then Put(s, t, Top(Some(m))) else s
    case _ => s
  }

  /** The connection checks and the rate limit. */
  function AdvanceChecks(s: State, t: nat, a: Answer): State
    requires t in s.tasks
  {
    match s.tasks[t]
    case Checking(m) =>
      if a.Go? then Put(s, t, Pacing(m))
      else if a.NotReady? then Put(s, t, Sleeping(Some(m), s.clock + a.sleep))
      else if a.Raises? then Put(s, t, BackOff(m, s.clock + a.sleep)) else s
    case Pacing(m) =>
      var sinceLast := s.clock - s.lastSend;
      if s.lastSend > 0.0 && sinceLast < s.delay then Put(s, t, Waiting(m, s.clock + (s.delay - sinceLast)))
      else Put(s, t, Ready(m))
    case Rechecking(m) =>
      if a.Go? then Put(s, t, Ready(m))
      else if a.NotReady? then RequeueAndSleep(s, t, m, a.sleep, s.flags.inFlight)
      else if a.Raises? then Put(s, t, BackOff(m, s.clock + a.sleep)) else s
    case Ready(m) =>
      if a.Go? then Put(s, t, Starting(m))
      else if a.NotReady? then RequeueAndSleep(s, t, m, a.sleep, s.flags.inFlight)
      else if a.Raises? then Put(s, t, BackOff(m, s.clock + a.sleep)) else s
    case _ => s
  }

  /** The executor takes work: it exists and its shutdown, if any, has not been called yet. */
  predicate ExecutorAccepts(s: State, a: Answer) {
    && s.life.executor.Some? && s.life.executor.value in s.life.executors
    && (s.life.stop.Some? ==> a.Go?)
  }

  /** Hand message `m` to the executor, or fail when there is none that accepts it. */
  function StartSend(s: State, t: nat, m: Msg, a: Answer): State {
    var s := s.(flags := s.flags.(inFlight := true));
    if ExecutorAccepts(s, a) then Put(s, t, Sending(m, s.clock))
    else Put(Fail(s, m), t, Clearing(m))
  }

  /** What the executor's answer makes of message `m`. */
  function SendOutcome(s: State, t: nat, m: Msg, started: real, a: Answer): State {
    if a.Returned? then
      var sent := s.history.sent + [Sent(m, started, s.clock, s.delay)];
      Put(s.(lastSend := s.clock, history := s.history.(sent := sent)),
          t, if a.mapping then Mapping(m) else Clearing(m))
    else if a.ConnectionError? then RequeueAndSleep(s, t, m, a.sleep, false)
    else if a.OtherError? then Put(Fail(s, m), t, Clearing(m)) else s
  }

  /** The send and what follows it. */
  function AdvanceSend(s: State, t: nat, a: Answer): State
    requires t in s.tasks
  {
    match s.tasks[t]
    case Starting(m) => StartSend(s, t, m, a)
    case Sending(m, started) => SendOutcome(s, t, m, started, a)
    case Mapping(m) => Put(s, t, Clearing(m))
    case Clearing(_) => Put(s.(flags := CLEARED), t, Top(None))
    case _ => s
  }

  /** One step of `_process_queue` in task `t`.  An answer that does not fit the step changes nothing. */
  function Advance(s: State, t: nat, a: Answer): State
    requires t in s.tasks
  {
    var pc := s.tasks[t];
    if pc.Checking? || pc.Pacing? || pc.Rechecking? || pc.Ready? then AdvanceChecks(s, t, a)
    else if pc.Starting? || pc.Sending? || pc.Mapping? || pc.Clearing? then AdvanceSend(s, t, a)
    else AdvanceLoop(s, t, a)
  }

  /** CancelledError arrives at an await.  Only the sleep after an unexpected exception is
      outside the handler that clears the flags. */
  function Cancel(s: State, t: nat): State
    requires t in s.tasks
  {
    var pc := s.tasks[t];
    if !pc.Awaiting() then s
    else if pc.Created? || pc.BackOff? then EndAbruptly(s, t)
    else End(s, t, CLEARED)
  }

  datatype Action =
    | AStart(delay: real, loop: bool)
    | AEnsure(loop: bool)
    | AOffer(whenFull: WhenFull, retry: bool)
    | ABeginStop
    | AFinalize
    | ATaskCleaned
    | AExecutorCleaned
    | ATimeOut(ofTask: bool)
    | AMarkStopFailed
    | AReset
    | AAdvance(t: nat, answer: Answer)
    | ACancel(t: nat)
    | ALoopClosed(t: nat)
    | ATick(dt: real)

  function Next(s: State, a: Action): State {
    match a
    case AStart(delay, loop) => Start(s, delay, loop)
    case AEnsure(loop) => Ensure(s, loop)
    case AOffer(whenFull, retry) => Offer(s, whenFull, retry)
    case ABeginStop => BeginStop(s)
    case AFinalize => Finalize(s)
    case ATaskCleaned => TaskCleaned(s)
    case AExecutorCleaned => ExecutorCleaned(s)
    case ATimeOut(ofTask) => TimeOut(s, ofTask)
    case AMarkStopFailed => MarkStopFailed(s)
    case AReset => Reset(s)
    case AAdvance(t, answer) => if t in s.tasks then Advance(s, t, answer) else s
    case ACancel(t) => if t in s.tasks then Cancel(s, t) else s
    case ALoopClosed(t) => if t in s.tasks then CloseLoop(s, t) else s
    case ATick(dt) => if dt > 0.0 then s.(clock := s.clock + dt) else s
  }

  function Execute(s: State, actions: seq<Action>): State {
    if actions == [] then s else Next(Execute(s, actions[..|actions| - 1]), actions[|actions| - 1])
  }
}
