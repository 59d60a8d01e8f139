/**
 What every reachable state of the queue guarantees: at most one processor, every accepted
 message in exactly one place, sends in order of acceptance and never closer than the delay.
 */
module QueueSafety {
  import opened Wrappers
  import opened QueueMachine

  // ---------- life cycle ----------

  /** Anything alive is the one the queue refers to, and then the queue is running or stopping. */
  ghost predicate Alive(life: Life, tasks: set<nat>) {
    && (forall t | t in tasks :: life.task == Some(t))
    && (forall e | e in life.executors :: life.executor == Some(e))
    && (tasks != {} || life.executor.Some? ==> life.running || life.stopping)
    && (life.running ==> life.executor.Some? && life.executor.value in life.executors)
  }

  /** The coroutines that can still run. */
  function Runnable(s: State): set<nat> {
    set t | t in s.tasks && CanRun(s, t)
  }

  /** A stop in progress still holds what it captured. */
  ghost predicate Captured(life: Life, runnable: set<nat>, op: StopOp) {
    && life.executor.Some? && op.executor == life.executor
    && (life.task.Some? ==> life.task == op.task)
    && (op.task.None? ==> op.taskDone)
    && (op.taskDone ==> runnable == {})
    && (op.executorDone ==> life.executors == {})
  }

  /** A stop is in progress exactly while the queue is stopping. */
  ghost predicate Stopping(life: Life, runnable: set<nat>) {
    && (life.stopping <==> life.stop.Some?)
    && !(life.running && life.stopping)
    && (life.stop.Some? ==>
          && Captured(life, runnable, life.stop.value)
          && !(life.stop.value.taskDone && life.stop.value.executorDone))
  }

  ghost predicate FreshIds(life: Life, tasks: set<nat>) {
    && (forall t | t in tasks :: t < life.nextId)
    && (forall e | e in life.executors :: e < life.nextId)
    && (life.task.Some? ==> life.task.value < life.nextId)
  }

  ghost predicate LifeCycle(s: State) {
    Alive(s.life, s.tasks.Keys) && Stopping(s.life, Runnable(s)) && FreshIds(s.life, s.tasks.Keys)
  }

  /** Only task `t` may have moved or ended. */
  ghost predicate Touches(s: State, s': State, t: nat)
    requires t in s.tasks
  {
    && s'.life == s.life && (s.tasks[t].Closed? ==> s' == s)
    && (s'.tasks == s.tasks - {t} || (t in s'.tasks && s'.tasks == s.tasks[t := s'.tasks[t]]))
  }

  lemma LoopTouches(s: State, t: nat, a: Answer)
    requires t in s.tasks
    ensures Touches(s, AdvanceLoop(s, t, a), t)
  {
  }

  lemma ChecksTouch(s: State, t: nat, a: Answer)
    requires t in s.tasks
    ensures Touches(s, AdvanceChecks(s, t, a), t)
  {
  }

  lemma SendTouches(s: State, t: nat, a: Answer)
    requires t in s.tasks
    ensures Touches(s, AdvanceSend(s, t, a), t)
  {
  }

  /** A processor step changes nothing of the life cycle, except that the coroutine may end. */
  lemma AdvanceKeepsLife(s: State, t: nat, a: Answer)
    requires t in s.tasks
    ensures var s' := Advance(s, t, a);
      s'.life == s.life && s'.tasks.Keys <= s.tasks.Keys && Runnable(s') <= Runnable(s)
  {
    LoopTouches(s, t, a);
    ChecksTouch(s, t, a);
    SendTouches(s, t, a);
    hide AdvanceLoop, AdvanceChecks, AdvanceSend;
    assert Touches(s, Advance(s, t, a), t);
  }

  lemma TasksEnd(s: State, s': State)
    requires LifeCycle(s) && s'.life == s.life && s'.tasks.Keys <= s.tasks.Keys && Runnable(s') <= Runnable(s)
    ensures LifeCycle(s')
  {
  }

  /** A failed stop is forgiven only when nothing of it is left: while a stop is in progress its
      executor is still there. */
  lemma ForgivenWhenIdle(s: State)
    requires LifeCycle(s)
    ensures LifeCycle(ClearFailed(s))
    ensures ClearFailed(s) != s ==>
      && !s.life.running && !s.life.stopping && s.tasks == map[] && s.life.executors == {}
      && ClearFailed(s) == s.(life := s.life.(task := None, stopFailed := false))
  {
  }

  lemma CreateTaskKeeps(s: State)
    requires LifeCycle(s) && s.tasks == map[] && s.life.running
    ensures LifeCycle(CreateTask(s))
  {
  }

  lemma StartKeeps(s: State, delay: real, loop: bool)
    requires LifeCycle(s)
    ensures LifeCycle(Start(s, delay, loop))
  {
    ForgivenWhenIdle(s);
    var c := ClearFailed(s);
    if !c.life.stopFailed && !c.life.running && !c.life.stopping {
      assert LifeCycle(Start(s, delay, false));
      if loop { CreateTaskKeeps(Start(s, delay, false)); }
    }
  }

  lemma EnsureKeeps(s: State, loop: bool)
    requires LifeCycle(s)
    ensures LifeCycle(Ensure(s, loop))
  {
    assert LifeCycle(Ensure(s, false));
    if Ensure(s, loop) != Ensure(s, false) { CreateTaskKeeps(Ensure(s, false)); }
  }

  lemma FinalizeKeeps(s: State)
    requires s.life.stop.Some? && s.life.stopping && !s.life.running
    requires Alive(s.life, s.tasks.Keys) && FreshIds(s.life, s.tasks.Keys)
    requires Captured(s.life, Runnable(s), s.life.stop.value)
    ensures LifeCycle(Finalize(s))
  {
  }

  lemma NextKeepsLifeCycle(s: State, a: Action)
    requires LifeCycle(s)
    ensures LifeCycle(Next(s, a))
  {
    match a {
      case AStart(delay, loop) => StartKeeps(s, delay, loop);
      case AEnsure(loop) => EnsureKeeps(s, loop);
      case AOffer(whenFull, retry) =>
        ForgivenWhenIdle(s);
        TasksEnd(if retry then s else ClearFailed(s), Offer(s, whenFull, retry));
      case ABeginStop =>
      case AFinalize => if s.life.stop.Some? { FinalizeKeeps(s); }
      case ATaskCleaned =>
        if TaskCleaned(s) != s {
          FinalizeKeeps(s.(life := s.life.(stop := Some(s.life.stop.value.(taskDone := true)))));
        }
      case AExecutorCleaned =>
        if s.life.stop.Some? {
          var op := s.life.stop.value;
          FinalizeKeeps(s.(life := s.life.(executors := s.life.executors - {op.executor.value},
                                           stop := Some(op.(executorDone := true)))));
        }
      case ATimeOut(_) =>
      case AMarkStopFailed =>
      case AReset => ForgivenWhenIdle(s);
      case AAdvance(t, answer) =>
        if t in s.tasks { AdvanceKeepsLife(s, t, answer); TasksEnd(s, Advance(s, t, answer)); }
      case ACancel(t) => TasksEnd(s, Next(s, a));
      case ALoopClosed(t) => TasksEnd(s, Next(s, a));
      case ATick(_) => TasksEnd(s, Next(s, a));
    }
  }

  // ---------- where the messages are ----------

  /** Where the processor is, if there is one. */
  function Current(s: State): Option<Pc> {
    if TaskActive(s) then Some(s.tasks[s.life.task.value]) else None
  }

  /** The message the processor holds and whose fate is still open. */
  function Pending(s: State): seq<Msg> {
    if Current(s).Some? && Current(s).value.Pending().Some? then [Current(s).value.Pending().value] else []
  }

  /** The calls that concern the life cycle touch no message.  They leave the processor where it is,
      create one where there was none, or forget one whose event loop is closed. */
  ghost predicate Calm(s: State, s': State) {
    && s'.queue == s.queue && s'.limit == s.limit && s'.dropped == s.dropped && s'.history == s.history
    && s'.lastSend == s.lastSend && s'.clock == s.clock
    && (if Current(s') == Current(s) then s'.flags == s.flags || (s'.flags == CLEARED && Current(s) == None)
        else if Current(s) == None then Current(s') == Some(Created) && s'.flags == s.flags
        else Current(s).value.Closed? && Current(s') == None && s'.flags == CLEARED)
    && (s'.delay == s.delay || Current(s) == None)
  }

  predicate Managing(a: Action) {
    a.AStart? || a.AEnsure? || a.ABeginStop? || a.AFinalize? || a.ATaskCleaned? || a.AExecutorCleaned?
    || a.ATimeOut? || a.AMarkStopFailed? || a.AReset?
  }

  lemma FinalizeIsCalm(s: State)
    requires s.life.stop.Some? && Captured(s.life, Runnable(s), s.life.stop.value)
    requires Alive(s.life, s.tasks.Keys)
    ensures Calm(s, Finalize(s))
  {
  }

  lemma ManagingIsCalm(s: State, a: Action)
    requires LifeCycle(s) && Managing(a)
    ensures Calm(s, Next(s, a))
  {
    ForgivenWhenIdle(s);
    match a {
      case AFinalize => if s.life.stop.Some? { FinalizeIsCalm(s); }
      case ATaskCleaned =>
        if TaskCleaned(s) != s {
          FinalizeIsCalm(s.(life := s.life.(stop := Some(s.life.stop.value.(taskDone := true)))));
        }
      case AExecutorCleaned =>
        if s.life.stop.Some? {
          var op := s.life.stop.value;
          FinalizeIsCalm(s.(life := s.life.(executors := s.life.executors - {op.executor.value},
                                            stop := Some(op.(executorDone := true)))));
        }
      case _ =>
    }
  }

  function Messages(sent: seq<Sent>): seq<Msg> {
    seq(|sent|, i requires 0 <= i < |sent| => sent[i].msg)
  }

  /** All messages that were sent, are held or wait, in that order. */
  function Line(s: State): seq<Msg> {
    Messages(s.history.sent) + Pending(s) + s.queue
  }

  ghost predicate Increasing(line: seq<Msg>) {
    forall i, j | 0 <= i < j < |line| :: line[i] < line[j]
  }

  /** The accepted messages are those in the line, failed, lost and abandoned, without overlap. */
  ghost predicate Partition(line: seq<Msg>, h: History) {
    && (forall m: Msg :: m < h.accepted <==> m in line || m in h.failed || m in h.lost || m in h.abandoned)
    && (forall m | m in line :: m !in h.failed && m !in h.lost && m !in h.abandoned)
    && h.failed !! h.lost && h.failed !! h.abandoned && h.lost !! h.abandoned
  }

  ghost predicate Counted(s: State) {
    |s.queue| <= s.limit && s.dropped == s.history.refused + |s.history.lost|
  }

  ghost predicate Accounted(s: State) {
    Increasing(Line(s)) && Partition(Line(s), s.history) && Counted(s)
  }

  lemma Without(line: seq<Msg>, k: nat)
    requires Increasing(line) && k < |line|
    ensures Increasing(line[..k] + line[k + 1..])
    ensures forall m :: m in line[..k] + line[k + 1..] <==> m in line && m != line[k]
  {
    assert line == line[..k] + [line[k]] + line[k + 1..];
  }

  /** The message after the sent ones leaves the line for one of the three sets. */
  lemma Leaves(line: seq<Msg>, k: nat, h: History, h': History)
    requires Increasing(line) && Partition(line, h) && k < |line|
    requires || h' == h.(failed := h.failed + {line[k]})
             || h' == h.(lost := h.lost + {line[k]})
             || h' == h.(abandoned := h.abandoned + {line[k]})
    ensures Increasing(line[..k] + line[k + 1..]) && Partition(line[..k] + line[k + 1..], h')
  {
    Without(line, k);
    hide Increasing;
    assert line[k] in line;
    ghost var rest := line[..k] + line[k + 1..];
    assert forall m: Msg :: m in rest <==> m in line && m != line[k];
  }

  lemma LostIsNew(line: seq<Msg>, h: History, m: Msg)
    requires Partition(line, h) && m in line
    ensures m !in h.lost
  {
  }

  /** A pending message that is taken out of the line. */
  lemma PendingLeaves(s: State, s': State)
    requires Accounted(s) && Pending(s) != [] && Pending(s') == [] && s'.queue == s.queue && s'.limit == s.limit
    requires var m := Pending(s)[0]; var h := s.history;
      || (s'.history == h.(failed := h.failed + {m}) && s'.dropped == s.dropped)
      || (s'.history == h.(lost := h.lost + {m}) && s'.dropped == s.dropped + 1)
      || (s'.history == h.(abandoned := h.abandoned + {m}) && s'.dropped == s.dropped)
    ensures Accounted(s')
  {
    hide Increasing, Partition, Current;
    LineWithoutPending(s, s');
    hide Line, Pending;
    Leaves(Line(s), |s.history.sent|, s.history, s'.history);
    LostIsNew(Line(s), s.history, Pending(s)[0]);
  }

  lemma LineWithoutPending(s: State, s': State)
    requires Pending(s) != [] && Pending(s') == [] && s'.queue == s.queue && s'.history.sent == s.history.sent
    ensures var line, k := Line(s), |s.history.sent|;
      k < |line| && line[k] == Pending(s)[0] && line[k] in line && Line(s') == line[..k] + line[k + 1..]
  {
    hide Current;
  }

  lemma OfferKeepsAccount(s: State, whenFull: WhenFull, retry: bool)
    requires LifeCycle(s) && Accounted(s)
    ensures Accounted(Offer(s, whenFull, retry))
  {
    ForgivenWhenIdle(s);
    var s' := Offer(s, whenFull, retry);
    if s'.history.accepted != s.history.accepted {
      assert Line(s') == Line(s) + [s.history.accepted];
      assert forall i | 0 <= i < |Line(s)| :: Line(s)[i] in Line(s);
    } else {
      assert Line(s') == Line(s);
    }
  }

  lemma RequeueAndSleepKeepsAccount(s: State, t: nat, m: Msg, sleep: real, inFlight: bool)
    requires LifeCycle(s) && Accounted(s) && t in s.tasks && s.tasks[t].Pending() == Some(m)
    ensures Accounted(RequeueAndSleep(s, t, m, sleep, inFlight))
  {
    var s' := RequeueAndSleep(s, t, m, sleep, inFlight);
    assert Pending(s) == [m] && Pending(s') == [];
    if |s.queue| >= s.limit {
      PendingLeaves(s, s');
    } else {
      assert Line(s') == Line(s);
    }
  }

  lemma EndKeepsAccount(s: State, t: nat, flags: Flags)
    requires LifeCycle(s) && Accounted(s) && t in s.tasks
    ensures Accounted(End(s, t, flags))
  {
    var s' := End(s, t, flags);
    assert Pending(s') == [];
    if s.tasks[t].Pending().Some? {
      PendingLeaves(s, s');
    } else {
      assert Line(s') == Line(s);
    }
  }

  lemma CloseLoopKeepsAccount(s: State, t: nat)
    requires LifeCycle(s) && Accounted(s) && t in s.tasks
    ensures Accounted(CloseLoop(s, t))
  {
    var s' := CloseLoop(s, t);
    if s.tasks[t].Awaiting() && s.tasks[t].Pending().Some? {
      PendingLeaves(s, s');
    } else {
      assert Line(s') == Line(s);
    }
  }

  lemma AdvanceLoopKeepsAccount(s: State, t: nat, a: Answer)
    requires LifeCycle(s) && Accounted(s) && t in s.tasks
    ensures Accounted(AdvanceLoop(s, t, a))
  {
    var s' := AdvanceLoop(s, t, a);
    if s.tasks[t].Top? && !s.life.running {
      EndKeepsAccount(s, t, s'.flags);
    } else {
      assert Line(s') == Line(s);
    }
  }

  lemma AdvanceChecksKeepsAccount(s: State, t: nat, a: Answer)
    requires LifeCycle(s) && Accounted(s) && t in s.tasks
    ensures Accounted(AdvanceChecks(s, t, a))
  {
    var pc := s.tasks[t];
    if (pc.Rechecking? || pc.Ready?) && a.NotReady? {
      RequeueAndSleepKeepsAccount(s, t, pc.m, a.sleep, s.flags.inFlight);
    } else {
      assert Line(AdvanceChecks(s, t, a)) == Line(s);
    }
  }

  lemma AdvanceSendKeepsAccount(s: State, t: nat, a: Answer)
    requires LifeCycle(s) && Accounted(s) && t in s.tasks
    ensures Accounted(AdvanceSend(s, t, a))
  {
    var pc := s.tasks[t];
    var s' := AdvanceSend(s, t, a);
    if pc.Sending? && a.ConnectionError? {
      RequeueAndSleepKeepsAccount(s, t, pc.m, a.sleep, false);
    } else if (pc.Starting? && !ExecutorAccepts(s.(flags := s.flags.(inFlight := true)), a)) || (pc.Sending? && a.OtherError?) {
      PendingLeaves(s, s');
    } else {
      assert Line(s') == Line(s);
    }
  }

  lemma NextKeepsAccount(s: State, a: Action)
    requires LifeCycle(s) && Accounted(s)
    ensures Accounted(Next(s, a))
  {
    match a {
      case AOffer(whenFull, retry) => OfferKeepsAccount(s, whenFull, retry);
      case AAdvance(t, answer) =>
        if t in s.tasks {
          AdvanceLoopKeepsAccount(s, t, answer);
          AdvanceChecksKeepsAccount(s, t, answer);
          AdvanceSendKeepsAccount(s, t, answer);
        }
      case ACancel(t) => if t in s.tasks { EndKeepsAccount(s, t, Cancel(s, t).flags); }
      case ALoopClosed(t) => if t in s.tasks { CloseLoopKeepsAccount(s, t); }
      case ATick(_) => assert Line(Next(s, a)) == Line(s);
      case _ =>
        ManagingIsCalm(s, a);
        hide Next;
        assert Line(Next(s, a)) == Line(s);
    }
  }

  // ---------- the flags ----------

  predicate Holding(s: State) {
    Current(s).Some? && Current(s).value.Held().Some?
  }

  predicate InFlight(pc: Pc) {
    pc.Sending? || pc.Mapping? || pc.Clearing?
  }

  ghost predicate FlagsTell(s: State) {
    && (Holding(s) ==> s.flags.hasCurrent)
    && (s.flags.inFlight ==> Current(s).Some? && (InFlight(Current(s).value) || Current(s).value.Closed?) && Holding(s))
    && (Current(s).Some? && InFlight(Current(s).value) ==> s.flags.inFlight)
  }

  lemma NextKeepsFlags(s: State, a: Action)
    requires LifeCycle(s) && FlagsTell(s)
    ensures FlagsTell(Next(s, a))
  {
    match a {
      case AAdvance(t, answer) =>
        if t in s.tasks {
          AdvanceLoopKeepsFlags(s, t, answer);
          AdvanceChecksKeepsFlags(s, t, answer);
          AdvanceSendKeepsFlags(s, t, answer);
        }
      case AOffer(_, _) => ForgivenWhenIdle(s);
      case ACancel(t) =>
      case ALoopClosed(t) =>
      case ATick(_) =>
      case _ =>
        ManagingIsCalm(s, a);
        hide Next;
    }
  }

  lemma AdvanceLoopKeepsFlags(s: State, t: nat, a: Answer)
    requires LifeCycle(s) && FlagsTell(s) && t in s.tasks
    ensures FlagsTell(AdvanceLoop(s, t, a))
  {
  }

  lemma AdvanceChecksKeepsFlags(s: State, t: nat, a: Answer)
    requires LifeCycle(s) && FlagsTell(s) && t in s.tasks
    ensures FlagsTell(AdvanceChecks(s, t, a))
  {
  }

  lemma AdvanceSendKeepsFlags(s: State, t: nat, a: Answer)
    requires LifeCycle(s) && FlagsTell(s) && t in s.tasks
    ensures FlagsTell(AdvanceSend(s, t, a))
  {
  }

  // ---------- the rate ----------

  predicate Spaced(s: State, time: real) {
    s.lastSend > 0.0 ==> time >= s.lastSend + s.delay
  }

  ghost predicate PcPaced(s: State, pc: Pc) {
    match pc
    case Waiting(_, until) => Spaced(s, until)
    case Rechecking(_) => Spaced(s, s.clock)
    case Ready(_) => Spaced(s, s.clock)
    case Starting(_) => Spaced(s, s.clock)
    case Sending(_, started) => Spaced(s, started) && started <= s.clock
    case _ => true
  }

  /** Each recorded send started at least its delay after the one before was recorded. */
  ghost predicate SendsSpaced(sent: seq<Sent>) {
    && (forall i | 0 <= i < |sent| :: 0.0 < sent[i].recorded && sent[i].started <= sent[i].recorded)
    && (forall i | 0 < i < |sent| :: sent[i].started >= sent[i - 1].recorded + sent[i].delay)
  }

  ghost predicate Paced(s: State) {
    && s.clock > 0.0 && 0.0 <= s.lastSend <= s.clock
    && (if s.history.sent == [] then s.lastSend == 0.0
        else s.lastSend == s.history.sent[|s.history.sent| - 1].recorded)
    && SendsSpaced(s.history.sent)
    && (Current(s).Some? ==> PcPaced(s, Current(s).value))
  }

  lemma AdvanceLoopKeepsPace(s: State, t: nat, a: Answer)
    requires LifeCycle(s) && Paced(s) && t in s.tasks
    ensures Paced(AdvanceLoop(s, t, a))
  {
  }

  lemma AdvanceChecksKeepsPace(s: State, t: nat, a: Answer)
    requires LifeCycle(s) && Paced(s) && t in s.tasks
    ensures Paced(AdvanceChecks(s, t, a))
  {
  }

  /** A send is recorded, and is spaced from the one before. */
  lemma SendRecorded(sent: seq<Sent>, last: Sent)
    requires SendsSpaced(sent) && 0.0 < last.recorded && last.started <= last.recorded
    requires sent != [] ==> last.started >= sent[|sent| - 1].recorded + last.delay
    ensures SendsSpaced(sent + [last])
  {
  }

  lemma AdvanceSendKeepsPace(s: State, t: nat, a: Answer)
    requires LifeCycle(s) && Paced(s) && t in s.tasks
    ensures Paced(AdvanceSend(s, t, a))
  {
    assert Current(s) == Some(s.tasks[t]);
    if s.tasks[t].Sending? {
      var started := s.tasks[t].started;
      if a.Returned? { SendRecorded(s.history.sent, Sent(s.tasks[t].m, started, s.clock, s.delay)); }
    }
    hide SendsSpaced;
  }

  lemma AdvanceKeepsPace(s: State, t: nat, a: Answer)
    requires LifeCycle(s) && Paced(s) && t in s.tasks
    ensures Paced(Advance(s, t, a))
  {
    AdvanceLoopKeepsPace(s, t, a);
    AdvanceChecksKeepsPace(s, t, a);
    AdvanceSendKeepsPace(s, t, a);
    hide Paced, LifeCycle, AdvanceLoop, AdvanceChecks, AdvanceSend;
  }

  lemma EndKeepsPace(s: State, t: nat, flags: Flags)
    requires LifeCycle(s) && Paced(s) && t in s.tasks
    ensures Paced(End(s, t, flags))
  {
    hide SendsSpaced;
  }

  lemma CloseLoopKeepsPace(s: State, t: nat)
    requires LifeCycle(s) && Paced(s) && t in s.tasks
    ensures Paced(CloseLoop(s, t))
  {
    hide SendsSpaced;
  }

  lemma CalmKeepsPace(s: State, s': State)
    requires Paced(s) && Calm(s, s')
    ensures Paced(s')
  {
    hide SendsSpaced;
  }

  lemma OfferKeepsPace(s: State, whenFull: WhenFull, retry: bool)
    requires LifeCycle(s) && Paced(s)
    ensures Paced(Offer(s, whenFull, retry))
  {
    ForgivenWhenIdle(s);
    hide SendsSpaced;
  }

  lemma TickKeepsPace(s: State, dt: real)
    requires Paced(s)
    ensures Paced(Next(s, ATick(dt)))
  {
    hide SendsSpaced;
  }

  lemma NextKeepsPace(s: State, a: Action)
    requires LifeCycle(s) && Paced(s)
    ensures Paced(Next(s, a))
  {
    if Managing(a) {
      ManagingIsCalm(s, a);
      CalmKeepsPace(s, Next(s, a));
    } else {
      match a {
        case AOffer(whenFull, retry) => OfferKeepsPace(s, whenFull, retry);
        case AAdvance(t, answer) => if t in s.tasks { AdvanceKeepsPace(s, t, answer); }
        case ACancel(t) => if t in s.tasks { EndKeepsPace(s, t, Cancel(s, t).flags); }
        case ALoopClosed(t) => if t in s.tasks { CloseLoopKeepsPace(s, t); }
        case ATick(dt) => TickKeepsPace(s, dt);
      }
    }
    hide Paced, LifeCycle, Offer, Advance, End, CloseLoop;
  }

  // ---------- every reachable state ----------

  ghost predicate Safe(s: State) {
    LifeCycle(s) && Accounted(s) && FlagsTell(s) && Paced(s)
  }

  lemma NextKeepsSafe(s: State, a: Action)
    requires Safe(s)
    ensures Safe(Next(s, a))
  {
    NextKeepsLifeCycle(s, a);
    NextKeepsAccount(s, a);
    NextKeepsFlags(s, a);
    NextKeepsPace(s, a);
    hide Next, LifeCycle, Accounted, FlagsTell, Paced;
  }

  lemma {:induction false} ReachableIsSafe(limit: nat, delay: real, clock: real, actions: seq<Action>)
    requires clock > 0.0
    ensures Safe(Execute(Initial(limit, delay, clock), actions))
  {
    if actions == [] {
      assert Line(Initial(limit, delay, clock)) == [];
    } else {
      ReachableIsSafe(limit, delay, clock, actions[..|actions| - 1]);
      NextKeepsSafe(Execute(Initial(limit, delay, clock), actions[..|actions| - 1]), actions[|actions| - 1]);
    }
  }

  /** There is never more than one processor, and one that is alive belongs to a queue that is
      running or stopping. */
  lemma AtMostOneProcessor(s: State)
    requires Safe(s)
    ensures |s.tasks| <= 1 && |s.life.executors| <= 1
    ensures s.tasks != map[] || s.life.executors != {} ==> s.life.running || s.life.stopping
  {
    if s.tasks != map[] {
      var t :| t in s.tasks;
      assert s.tasks.Keys == {t};
    }
    if s.life.executors != {} {
      var e :| e in s.life.executors;
      assert s.life.executors == {e};
    }
  }

  /** The queue is only ever turned on when nothing of an earlier run is alive. */
  lemma StartsClean(s: State, delay: real, loop: bool)
    requires Safe(s) && !s.life.running && Start(s, delay, loop).life.running
    ensures s.tasks == map[] && s.life.executors == {} && !s.life.stopping
  {
    ForgivenWhenIdle(s);
    AtMostOneProcessor(s);
  }

  /** Nothing else turns it on, and the only other call that creates a processor does so for a
      running queue that has none. */
  lemma OnlyStartStarts(s: State, a: Action)
    requires Safe(s) && !a.AStart?
    ensures Next(s, a).life.running ==> s.life.running
    ensures !(Next(s, a).tasks.Keys <= s.tasks.Keys) ==> a.AEnsure? && s.life.running && s.tasks == map[]
  {
    hide Accounted, FlagsTell, Paced;
    if Managing(a) {
      ManagingStartsNothing(s, a);
    } else {
      ForgivenWhenIdle(s);
      if a.AAdvance? && a.t in s.tasks { AdvanceKeepsLife(s, a.t, a.answer); }
      hide Advance, LifeCycle;
    }
  }

  lemma ManagingStartsNothing(s: State, a: Action)
    requires LifeCycle(s) && Managing(a) && !a.AStart?
    ensures Next(s, a).life.running ==> s.life.running
    ensures !(Next(s, a).tasks.Keys <= s.tasks.Keys) ==> a.AEnsure? && s.life.running && s.tasks == map[]
  {
  }

  /** However late the two cleanups come, and whether or not a watchdog has given up on them, once
      both are in, the stop is over, nothing of it is left, and the queue can be started again. */
  lemma LateCleanupRecovers(s: State, delay: real)
    requires Safe(s) && s.life.stop.Some?
    requires s.life.stop.value.task.Some? ==> !CanRun(s, s.life.stop.value.task.value)
    ensures Recovered(ExecutorCleaned(TaskCleaned(s))) && Recovered(TaskCleaned(ExecutorCleaned(s)))
    ensures Start(ExecutorCleaned(TaskCleaned(s)), delay, false).life.running
  {
    hide Accounted, FlagsTell, Paced;
    CleanupRecovers(s);
  }

  predicate Recovered(s: State) {
    && s.life.stop == None && !s.life.running && !s.life.stopping && !s.life.stopFailed
    && s.life.task == None && s.life.executor == None && s.tasks == map[] && s.life.executors == {}
  }

  lemma FinalizeRecovers(s: State)
    requires Alive(s.life, s.tasks.Keys) && s.life.stop.Some? && !s.life.running
    requires Captured(s.life, Runnable(s), s.life.stop.value)
    requires s.life.stop.value.taskDone && s.life.stop.value.executorDone
    ensures Recovered(Finalize(s))
  {
  }

  lemma FinalizeWaits(s: State)
    requires s.life.stop.Some? && !(s.life.stop.value.taskDone && s.life.stop.value.executorDone)
    ensures Finalize(s) == s
  {
  }

  /** The stop after its two cleanups, whichever came first. */
  function Cleaned(s: State): State
    requires s.life.stop.Some?
  {
    var op := s.life.stop.value.(taskDone := true, executorDone := true);
    s.(life := s.life.(executors := if op.executor.Some? then s.life.executors - {op.executor.value} else s.life.executors,
                       stop := Some(op)))
  }

  lemma TaskThenExecutor(s: State)
    requires LifeCycle(s) && s.life.stop.Some?
    requires s.life.stop.value.task.Some? ==> !CanRun(s, s.life.stop.value.task.value)
    ensures ExecutorCleaned(TaskCleaned(s)) == Finalize(Cleaned(s))
  {
    var op := s.life.stop.value;
    if op.executorDone {
      assert TaskCleaned(s) == Finalize(Cleaned(s));
      CleanedRecovers(s);
    } else {
      FinalizeWaits(s.(life := s.life.(stop := Some(op.(taskDone := true)))));
    }
    hide Finalize;
  }

  lemma ExecutorThenTask(s: State)
    requires LifeCycle(s) && s.life.stop.Some?
    requires s.life.stop.value.task.Some? ==> !CanRun(s, s.life.stop.value.task.value)
    ensures TaskCleaned(ExecutorCleaned(s)) == Finalize(Cleaned(s))
  {
    var op := s.life.stop.value;
    if op.taskDone {
      assert ExecutorCleaned(s) == Finalize(Cleaned(s));
      CleanedRecovers(s);
    } else {
      FinalizeWaits(s.(life := s.life.(executors := s.life.executors - {op.executor.value}, stop := Some(op.(executorDone := true)))));
    }
    hide Finalize;
  }

  lemma CleanedRecovers(s: State)
    requires LifeCycle(s) && s.life.stop.Some?
    requires s.life.stop.value.task.Some? ==> !CanRun(s, s.life.stop.value.task.value)
    ensures Recovered(Finalize(Cleaned(s)))
  {
    FinalizeRecovers(Cleaned(s));
  }

  lemma CleanupRecovers(s: State)
    requires LifeCycle(s) && s.life.stop.Some?
    requires s.life.stop.value.task.Some? ==> !CanRun(s, s.life.stop.value.task.value)
    ensures Recovered(ExecutorCleaned(TaskCleaned(s))) && Recovered(TaskCleaned(ExecutorCleaned(s)))
  {
    TaskThenExecutor(s);
    ExecutorThenTask(s);
    CleanedRecovers(s);
    hide LifeCycle, Finalize, TaskCleaned, ExecutorCleaned, Recovered;
  }

  datatype Place = Queued | HeldByProcessor | SendReturned | FailedToSend | LostAtRequeue | Abandoned

  predicate At(s: State, m: Msg, p: Place) {
    match p
    case Queued => m in s.queue
    case HeldByProcessor => m in Pending(s)
    case SendReturned => m in Messages(s.history.sent)
    case FailedToSend => m in s.history.failed
    case LostAtRequeue => m in s.history.lost
    case Abandoned => m in s.history.abandoned
  }

  /** Conservation: an accepted message is in one place and no other, and the counter of dropped
      messages counts the offers refused by a full queue and the messages lost at a requeue. */
  lemma MessagesAreConserved(s: State, m: Msg)
    requires Safe(s)
    ensures m < s.history.accepted <==> exists p: Place :: At(s, m, p)
    ensures forall p: Place, q: Place :: At(s, m, p) && At(s, m, q) ==> p == q
    ensures s.dropped == s.history.refused + |s.history.lost| && |s.queue| <= s.limit
  {
    var sent, pending := Messages(s.history.sent), Pending(s);
    assert m in Line(s) <==> At(s, m, SendReturned) || At(s, m, HeldByProcessor) || At(s, m, Queued);
    forall p: Place, q: Place | At(s, m, p) && At(s, m, q) ensures p == q {
      InOnePart(sent, pending, s.queue, m);
    }
    if m < s.history.accepted {
      var p := if m in s.queue then Queued else if m in pending then HeldByProcessor
               else if m in sent then SendReturned else if m in s.history.failed then FailedToSend
               else if m in s.history.lost then LostAtRequeue else Abandoned;
      assert At(s, m, p);
    }
  }

  lemma InOnePart(a: seq<Msg>, b: seq<Msg>, c: seq<Msg>, m: Msg)
    requires Increasing(a + b + c)
    ensures !(m in a && m in b) && !(m in a && m in c) && !(m in b && m in c)
  {
    var line := a + b + c;
    forall i, j | 0 <= i < |a| && 0 <= j < |b| ensures a[i] < b[j] {
      assert line[i] == a[i] && line[|a| + j] == b[j];
    }
    forall i, j | 0 <= i < |a| && 0 <= j < |c| ensures a[i] < c[j] {
      assert line[i] == a[i] && line[|a| + |b| + j] == c[j];
    }
    forall i, j | 0 <= i < |b| && 0 <= j < |c| ensures b[i] < c[j] {
      assert line[|a| + i] == b[i] && line[|a| + |b| + j] == c[j];
    }
  }

  /** Sends return in the order of acceptance, none twice, and everything still held or queued
      was accepted after everything sent. */
  lemma SendsAreInOrder(s: State)
    requires Safe(s)
    ensures forall i, j | 0 <= i < j < |s.history.sent| :: s.history.sent[i].msg < s.history.sent[j].msg
    ensures forall i, m | 0 <= i < |s.history.sent| && (m in s.queue || m in Pending(s)) :: s.history.sent[i].msg < m
  {
    var line, n := Line(s), |s.history.sent|;
    forall i | 0 <= i < n ensures line[i] == s.history.sent[i].msg {}
    forall i, m | 0 <= i < n && (m in s.queue || m in Pending(s)) ensures s.history.sent[i].msg < m {
      assert m in Pending(s) + s.queue;
      var k :| 0 <= k < |Pending(s) + s.queue| && (Pending(s) + s.queue)[k] == m;
      assert line == Messages(s.history.sent) + (Pending(s) + s.queue);
      assert line[n + k] == m;
    }
  }

  /** Whether or not it succeeds, an attempt starts no sooner than the delay after the last recorded send. */
  lemma AttemptsAreSpaced(s: State, t: nat, a: Answer)
    requires Safe(s) && t in s.tasks && !s.tasks[t].Sending?
    requires t in Advance(s, t, a).tasks && Advance(s, t, a).tasks[t].Sending?
    ensures Advance(s, t, a).tasks[t].started == s.clock
    ensures s.history.sent != [] ==> s.clock >= s.history.sent[|s.history.sent| - 1].recorded + s.delay
  {
    OnlyStartingSends(s, t, a);
    hide Advance;
    assert Current(s) == Some(s.tasks[t]);
  }

  lemma OnlyStartingSends(s: State, t: nat, a: Answer)
    requires t in s.tasks && !s.tasks[t].Sending?
    requires t in Advance(s, t, a).tasks && Advance(s, t, a).tasks[t].Sending?
    ensures s.tasks[t].Starting? && Advance(s, t, a).tasks[t].started == s.clock
  {
  }

  lemma {:induction false} SendsDrift(sent: seq<Sent>, i: nat, j: nat, d: real)
    requires SendsSpaced(sent) && i <= j < |sent|
    requires forall k | i < k <= j :: sent[k].delay >= d
    ensures sent[j].recorded - sent[i].recorded >= (j - i) as real * d
    decreases j
  {
    if i < j {
      SendsDrift(sent, i, j - 1, d);
      assert (j - i) as real * d == (j - 1 - i) as real * d + d;
    }
  }

  /** The rate limit: while the delay is at least d, a window of length w holds at most
      floor(w/d) + 1 recorded sends. */
  lemma WindowIsBounded(s: State, i: nat, j: nat, d: real, w: real)
    requires Safe(s) && i <= j < |s.history.sent| && d > 0.0
    requires forall k | i < k <= j :: s.history.sent[k].delay >= d
    requires s.history.sent[j].recorded - s.history.sent[i].recorded <= w
    ensures j - i + 1 <= (w / d).Floor + 1
  {
    SendsDrift(s.history.sent, i, j, d);
    QuotientBound(j - i, d, w);
  }

  lemma QuotientBound(n: nat, d: real, w: real)
    requires d > 0.0 && n as real * d <= w
    ensures n <= (w / d).Floor
  {
    assert w / d * d == w;
    CancelFactor(n as real, w / d, d);
  }

  lemma CancelFactor(a: real, b: real, d: real)
    requires d > 0.0 && a * d <= b * d
    ensures a <= b
  {
  }
}
