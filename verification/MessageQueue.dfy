/**
 The MessageQueue object.  Each method is one section that the program runs without being
 interrupted (a locked section, or the stretch of the processor between two points where other
 threads matter) and does to the object exactly what the machine of QueueMachine says.
 */
module MessageQueues {
  import opened Wrappers
  import opened QueueMachine
  import opened QueueSafety
  import opened QueueDrain

  class MessageQueue {
    const maxQueueSize: nat
    var queue: seq<Msg>
    var processorTask: Option<nat>
    var running: bool
    var stopping: bool
    var stopFailed: bool
    var messageDelay: real
    var lastSendMono: real
    var executor: Option<nat>
    var inFlight: bool
    var hasCurrent: bool
    var droppedMessages: nat

    // the event loop's coroutines, the live executors, the stop in progress, the clock
    var tasks: map<nat, Pc>
    var executors: set<nat>
    var nextId: nat
    var stop: Option<StopOp>
    var lateMarks: nat
    var clock: real
    var accepted: nat
    ghost var history: History

    ghost function View(): State
      reads this
    {
      State(Life(running, stopping, stopFailed, processorTask, executor, executors, nextId, stop, lateMarks),
            tasks, queue, maxQueueSize, Flags(inFlight, hasCurrent), droppedMessages,
            messageDelay, lastSendMono, clock, history)
    }

    ghost predicate Valid()
      reads this
    {
      Safe(View()) && accepted == history.accepted
    }

    constructor (maxQueueSize: nat, delay: real, clock: real)
      requires clock > 0.0
      ensures Valid() && View() == Initial(maxQueueSize, delay, clock)
    {
      this.maxQueueSize := maxQueueSize;
      queue, processorTask, executor, stop := [], None, None, None;
      running, stopping, stopFailed, inFlight, hasCurrent := false, false, false, false, false;
      messageDelay, lastSendMono, this.clock := delay, 0.0, clock;
      droppedMessages, accepted, nextId, lateMarks := 0, 0, 0, 0;
      tasks, executors := map[], {};
      history := History(0, 0, [], {}, {}, {});
      ReachableIsSafe(maxQueueSize, delay, clock, []);
    }

    method ClearFailedStopState() returns (cleared: bool)
      modifies this
      ensures View() == ClearFailed(old(View())) && accepted == old(accepted)
      ensures cleared == (View() != old(View()))
    {
      if !stopFailed {
        return false;
      }
      var taskActive := processorTask.Some? && processorTask.value in tasks;
      if running || taskActive || executor.Some? {
        return false;
      }
      processorTask, stopping, stopFailed := None, false, false;
      return true;
    }

    method NewTask()
      modifies this
      ensures View() == CreateTask(old(View())) && accepted == old(accepted)
    {
      processorTask, tasks, nextId := Some(nextId), tasks[nextId := Created], nextId + 1;
    }

    method Start(delay: real, loop: bool) returns (ok: bool)
      requires Valid()
      modifies this
      ensures Valid() && View() == Next(old(View()), AStart(delay, loop))
      ensures ok == (running && !stopFailed)
    {
      NextKeeps(AStart(delay, loop));
      hide Safe, TurnOn, ClearFailed;
      var _ := ClearFailedStopState();
      if stopFailed {
        return false;
      }
      if running {
        return true;
      }
      if stopping {
        return false;
      }
      TurnOnWith(delay, loop);
      return true;
    }

    /** The delay, the executor if there is none, and the processor if there is a loop. */
    method TurnOnWith(delay: real, loop: bool)
      modifies this
      ensures View() == TurnOn(old(View()), delay, loop) && accepted == old(accepted)
      ensures running && stopFailed == old(stopFailed)
    {
      messageDelay, running := delay, true;
      if executor == None {
        executor, executors, nextId := Some(nextId), executors + {nextId}, nextId + 1;
      }
      if loop {
        NewTask();
      }
    }

    method EnsureProcessorStarted(loop: bool)
      requires Valid()
      modifies this
      ensures Valid() && View() == Next(old(View()), AEnsure(loop))
    {
      NextKeeps(AEnsure(loop));
      assert Next(View(), AEnsure(loop)) == Ensure(View(), loop);
      hide Safe, Next;
      var taskInactive := !(processorTask.Some? && processorTask.value in tasks);
      if taskInactive {
        processorTask := None;
      }
      if running && !stopFailed && taskInactive && loop {
        NewTask();
      }
    }

    method BeginStop()
      requires Valid()
      modifies this
      ensures Valid() && View() == Next(old(View()), ABeginStop)
    {
      NextKeeps(ABeginStop);
      assert Next(View(), ABeginStop) == QueueMachine.BeginStop(View());
      hide Safe, Next;
      if !running {
        return;
      }
      running, stopping := false, true;
      stop := Some(StopOp(processorTask, executor, processorTask == None, executor == None));
    }

    method ForgetTask(task: nat)
      modifies this
      ensures var s := old(View());
        View() == s.(flags := CLEARED, tasks := s.tasks - {task}, life := s.life.(task := None))
      ensures accepted == old(accepted)
    {
      processorTask, inFlight, hasCurrent := None, false, false;
      tasks := tasks - {task};
    }

    method ReleaseCaptured(op: StopOp)
      modifies this
      ensures View() == Release(old(View()), op) && accepted == old(accepted)
    {
      stop := None;
      if op.task.Some? && processorTask == op.task {
        ForgetTask(op.task.value);
      }
      if op.executor.Some? && executor == op.executor {
        executor := None;
      }
    }

    method FinalizeStopState()
      modifies this
      ensures View() == Finalize(old(View())) && accepted == old(accepted)
    {
      if stop == None || !stop.value.taskDone || !stop.value.executorDone {
        return;
      }
      hide Release, ClearFailed;
      ReleaseCaptured(stop.value);
      if stopFailed {
        var _ := ClearFailedStopState();
      } else {
        stopping := false;
      }
    }

    /** The done callback of the captured task. */
    method OnTaskDone()
      requires Valid()
      modifies this
      ensures Valid() && View() == Next(old(View()), ATaskCleaned)
    {
      NextKeeps(ATaskCleaned);
      assert Next(View(), ATaskCleaned) == TaskCleaned(View());
      hide Safe, Finalize, Next;
      if stop.Some? && stop.value.task.Some?
        && !(stop.value.task.value in tasks && !tasks[stop.value.task.value].Closed?) {
        stop := Some(stop.value.(taskDone := true));
        FinalizeStopState();
      }
    }

    /** `_shutdown_and_finalize`, once the executor has shut down. */
    method OnExecutorDone()
      requires Valid()
      modifies this
      ensures Valid() && View() == Next(old(View()), AExecutorCleaned)
    {
      NextKeeps(AExecutorCleaned);
      assert Next(View(), AExecutorCleaned) == ExecutorCleaned(View());
      hide Safe, Finalize, Next;
      if stop.Some? && stop.value.executor.Some? {
        executors := executors - {stop.value.executor.value};
        stop := Some(stop.value.(executorDone := true));
        FinalizeStopState();
      }
    }

    /** A watchdog's wait ends; true when its event is not set. */
    method WaitForCleanup(ofTask: bool) returns (timedOut: bool)
      requires Valid()
      modifies this
      ensures Valid() && View() == Next(old(View()), ATimeOut(ofTask))
      ensures timedOut <==> stop.Some? && (if ofTask then stop.value.task.Some? && !stop.value.taskDone
                                           else stop.value.executor.Some? && !stop.value.executorDone)
      ensures lateMarks == old(lateMarks) + (if timedOut then 1 else 0)
    {
      NextKeeps(ATimeOut(ofTask));
      assert Next(View(), ATimeOut(ofTask)) == TimeOut(View(), ofTask);
      hide Safe, Next;
      if stop == None {
        return false;
      }
      timedOut := if ofTask then stop.value.task.Some? && !stop.value.taskDone
                  else stop.value.executor.Some? && !stop.value.executorDone;
      if timedOut {
        lateMarks := lateMarks + 1;
      }
    }

    /** `_mark_stop_failed`, by a watchdog whose wait has timed out some time ago. */
    method MarkFailed()
      requires Valid() && lateMarks > 0
      modifies this`lateMarks, this`stopFailed
      ensures Valid() && View() == Next(old(View()), AMarkStopFailed)
      ensures stopFailed
    {
      NextKeeps(AMarkStopFailed);
      assert Next(View(), AMarkStopFailed) == MarkStopFailed(View());
      hide Safe, Next, MarkStopFailed;
      SetFailed();
    }

    method SetFailed()
      requires lateMarks > 0
      modifies this`lateMarks, this`stopFailed
      ensures View() == MarkStopFailed(old(View())) && stopFailed
    {
      lateMarks := lateMarks - 1;
      stopFailed := true;
    }

    method ResetFailedStopState() returns (ok: bool)
      modifies this
      ensures View() == Next(old(View()), AReset) && accepted == old(accepted)
      ensures ok == (!old(stopping) && !stopFailed)
    {
      if stopping {
        return false;
      }
      if !stopFailed {
        return true;
      }
      ok := ClearFailedStopState();
    }

    /** One pass of `enqueue` under the lock; None means wait for space and come back. */
    method Enqueue(whenFull: WhenFull, retry: bool) returns (result: Option<bool>)
      requires Valid()
      modifies this
      ensures Valid() && View() == Next(old(View()), AOffer(whenFull, retry))
      ensures result == Some(true) <==> accepted == old(accepted) + 1
      ensures result == None <==>
        whenFull.Wait? && old(running) && |old(queue)| >= maxQueueSize && (retry || !old(stopFailed))
    {
      NextKeeps(AOffer(whenFull, retry));
      assert running ==> !stopping;
      OfferSplits(whenFull, retry);
      assert Next(View(), AOffer(whenFull, retry)) == Offer(View(), whenFull, retry);
      hide Safe, Offer, ClearFailed, Next;
      if !retry {
        var _ := ClearFailedStopState();
        if stopFailed {
          return Some(false);
        }
      }
      if !running || stopping {
        return Some(false);
      }
      result := TryAppend(whenFull);
    }

    /** The recovery check comes first, unless the caller is back from waiting. */
    lemma OfferSplits(whenFull: WhenFull, retry: bool)
      ensures var s := ClearFailed(View());
        && (!retry && s.life.stopFailed ==> Offer(View(), whenFull, false) == s)
        && (!retry && !s.life.stopFailed ==> Offer(View(), whenFull, false) == Offer(s, whenFull, true))
        && (!s.life.running || s.life.stopping ==> Offer(s, whenFull, true) == s)
        && (!running || stopping ==> Offer(View(), whenFull, true) == View())
        && s.life.running == running && s.queue == queue && s.history == history
        && (running ==> s == View())
    {
    }

    /** The capacity check and the append. */
    method TryAppend(whenFull: WhenFull) returns (result: Option<bool>)
      requires running && !stopping && accepted == history.accepted
      modifies this
      ensures View() == Offer(old(View()), whenFull, true) && accepted == history.accepted
      ensures result == (if |old(queue)| < maxQueueSize then Some(true) else if whenFull.Wait? then None else Some(false))
      ensures accepted == old(accepted) + (if result == Some(true) then 1 else 0)
    {
      if |queue| >= maxQueueSize {
        if whenFull.Wait? {
          return None;
        }
        droppedMessages := droppedMessages + 1;
        history := history.(refused := history.refused + 1);
        return Some(false);
      }
      queue := queue + [accepted];
      accepted := accepted + 1;
      history := history.(accepted := accepted);
      return Some(true);
    }

    method RequeueMessage(m: Msg) returns (ok: bool)
      modifies this
      ensures View() == Requeue(old(View()), m) && accepted == old(accepted)
      ensures ok == (|old(queue)| < maxQueueSize)
      ensures ok ==> queue == [m] + old(queue) && history == old(history) && droppedMessages == old(droppedMessages)
      ensures !ok ==> queue == old(queue) && history.lost == old(history.lost) + {m}
                      && droppedMessages == old(droppedMessages) + 1
    {
      if |queue| >= maxQueueSize {
        droppedMessages := droppedMessages + 1;
        history := history.(lost := history.lost + {m});
        return false;
      }
      queue := [m] + queue;
      return true;
    }

    method ClearCurrent()
      modifies this`inFlight, this`hasCurrent
      ensures !inFlight && !hasCurrent
    {
      inFlight, hasCurrent := false, false;
    }

    method RequeueAndPause(t: nat, m: Msg, sleep: real, attempted: bool)
      modifies this
      ensures View() == RequeueAndSleep(old(View()), t, m, sleep, old(inFlight) && !attempted)
      ensures accepted == old(accepted)
    {
      var _ := RequeueMessage(m);
      hasCurrent := false;
      if attempted {
        inFlight := false;
      }
      tasks := tasks[t := Sleeping(None, clock + sleep)];
    }

    /** The coroutine ends; `clears` when its cancellation handler resets the flags. */
    method EndTask(t: nat, clears: bool)
      requires t in tasks
      modifies this
      ensures View() == (if clears then End(old(View()), t, CLEARED) else EndAbruptly(old(View()), t))
      ensures accepted == old(accepted)
    {
      if tasks[t].Pending().Some? {
        history := history.(abandoned := history.abandoned + {tasks[t].Pending().value});
      }
      if clears {
        ClearCurrent();
      }
      tasks := tasks - {t};
    }

    /** The top of the processor loop: end, keep the held message, take the next one, or rest. */
    method RunTop(t: nat, held: Option<Msg>, a: Answer)
      requires t in tasks && tasks[t] == Top(held)
      modifies this
      ensures View() == AdvanceLoop(old(View()), t, a) && accepted == old(accepted)
    {
      hide EndAbruptly;
      if !running {
        EndTask(t, false);
      } else if held.Some? {
        tasks := tasks[t := Checking(held.value)];
      } else if queue != [] {
        var current := queue[0];
        queue, hasCurrent := queue[1..], true;
        tasks := tasks[t := Checking(current)];
      } else if a.Go? {
        tasks := tasks[t := Sleeping(None, clock + a.sleep)];
      }
    }

    /** The top of the loop and the sleeps. */
    method RunLoop(t: nat, a: Answer)
      requires t in tasks
      modifies this
      ensures View() == AdvanceLoop(old(View()), t, a) && accepted == old(accepted)
    {
      match tasks[t] {
        case Created => tasks := tasks[t := Top(None)];
        case Top(held) => RunTop(t, held, a);
        case Waiting(m, until) => if clock >= until { tasks := tasks[t := Rechecking(m)]; }
        case Sleeping(held, until) => if clock >= until { tasks := tasks[t := Top(held)]; }
        case BackOff(m, until) => if clock >= until { tasks := tasks[t := Top(Some(m))]; }
        case _ =>
      }
    }

    /** The connection checks and the rate limit. */
    method RunChecks(t: nat, a: Answer)
      requires t in tasks
      modifies this
      ensures View() == AdvanceChecks(old(View()), t, a) && accepted == old(accepted)
    {
      match tasks[t] {
        case Checking(m) =>
          if a.Go? {
            tasks := tasks[t := Pacing(m)];
          } else if a.NotReady? {
            tasks := tasks[t := Sleeping(Some(m), clock + a.sleep)];
          } else if a.Raises? {
            tasks := tasks[t := BackOff(m, clock + a.sleep)];
          }
        case Pacing(m) =>
          if lastSendMono > 0.0 {
            var timeSinceLast := clock - lastSendMono;
            if timeSinceLast < messageDelay {
              var waitTime := messageDelay - timeSinceLast;
              tasks := tasks[t := Waiting(m, clock + waitTime)];
              return;
            }
          }
          tasks := tasks[t := Ready(m)];
        case Rechecking(m) =>
          if a.Go? {
            tasks := tasks[t := Ready(m)];
          } else if a.NotReady? {
            RequeueAndPause(t, m, a.sleep, false);
          } else if a.Raises? {
            tasks := tasks[t := BackOff(m, clock + a.sleep)];
          }
        case Ready(m) =>
          if a.Go? {
            tasks := tasks[t := Starting(m)];
          } else if a.NotReady? {
            RequeueAndPause(t, m, a.sleep, false);
          } else if a.Raises? {
            tasks := tasks[t := BackOff(m, clock + a.sleep)];
          }
        case _ =>
      }
    }

    method BeginSend(t: nat, m: Msg, a: Answer)
      modifies this
      ensures View() == StartSend(old(View()), t, m, a) && accepted == old(accepted)
    {
      inFlight := true;
      var accepts := executor.Some? && executor.value in executors && (stop.Some? ==> a.Go?);
      if accepts {
        tasks := tasks[t := Sending(m, clock)];
      } else {
        history := history.(failed := history.failed + {m});
        tasks := tasks[t := Clearing(m)];
      }
    }

    method FinishSend(t: nat, m: Msg, started: real, a: Answer)
      modifies this
      ensures View() == SendOutcome(old(View()), t, m, started, a) && accepted == old(accepted)
    {
      if a.Returned? {
        history := history.(sent := history.sent + [Sent(m, started, clock, messageDelay)]);
        lastSendMono := clock;
        tasks := tasks[t := if a.mapping then Mapping(m) else Clearing(m)];
      } else if a.ConnectionError? {
        RequeueAndPause(t, m, a.sleep, true);
      } else if a.OtherError? {
        history := history.(failed := history.failed + {m});
        tasks := tasks[t := Clearing(m)];
      }
    }

    /** The send and what follows it. */
    method RunSend(t: nat, a: Answer)
      requires t in tasks
      modifies this
      ensures View() == AdvanceSend(old(View()), t, a) && accepted == old(accepted)
    {
      hide SendOutcome, StartSend;
      match tasks[t] {
        case Starting(m) =>
          BeginSend(t, m, a);
        case Sending(m, started) =>
          FinishSend(t, m, started, a);
        case Mapping(m) => tasks := tasks[t := Clearing(m)];
        case Clearing(_) =>
          ClearCurrent();
          tasks := tasks[t := Top(None)];
        case _ =>
      }
    }

    /** One step of `_process_queue`. */
    method ProcessQueueStep(t: nat, a: Answer)
      requires Valid() && t in tasks
      modifies this
      ensures Valid() && View() == Next(old(View()), AAdvance(t, a))
    {
      NextKeeps(AAdvance(t, a));
      assert Next(View(), AAdvance(t, a)) == Advance(View(), t, a);
      hide Safe, Next, AdvanceLoop, AdvanceChecks, AdvanceSend;
      var pc := tasks[t];
      if pc.Checking? || pc.Pacing? || pc.Rechecking? || pc.Ready? {
        RunChecks(t, a);
      } else if pc.Starting? || pc.Sending? || pc.Mapping? || pc.Clearing? {
        RunSend(t, a);
      } else {
        RunLoop(t, a);
      }
    }

    /** CancelledError reaches the coroutine. */
    method CancelTask(t: nat)
      requires Valid() && t in tasks
      modifies this
      ensures Valid() && View() == Next(old(View()), ACancel(t))
    {
      NextKeeps(ACancel(t));
      hide Safe;
      var pc := tasks[t];
      if pc.Awaiting() {
        EndTask(t, !pc.Created? && !pc.BackOff?);
      }
    }

    /** One turn of `drain`; None means sleep and look again. */
    method DrainOnce(expired: bool) returns (result: Option<bool>)
      requires Valid()
      ensures result == Some(true) <==> Drained(View())
      ensures result == Some(true) ==> forall m | m < accepted :: m !in queue && m !in Pending(View())
      ensures result == None <==> !Drained(View()) && running && !expired
    {
      if queue != [] || inFlight || hasCurrent {
        if !running {
          return Some(false);
        }
        if expired {
          return Some(false);
        }
        return None;
      }
      return Some(true);
    }

    ghost method NextKeeps(a: Action)
      requires Valid()
      ensures Safe(Next(View(), a))
    {
      NextKeepsSafe(View(), a);
    }
  }
}
