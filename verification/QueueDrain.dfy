/**
 When `drain` can succeed: facts about whole runs of the machine.
 */
module QueueDrain {
  import opened Wrappers
  import opened QueueMachine
  import opened QueueSafety

  // ---------- drain ----------

  /** The loop condition of `drain` is false. */
  predicate Drained(s: State) {
    s.queue == [] && !s.flags.inFlight && !s.flags.hasCurrent
  }

  /** When `drain` returns True, no accepted message is queued or held. */
  lemma DrainIsSound(s: State, m: Msg)
    requires Safe(s) && Drained(s) && m < s.history.accepted
    ensures At(s, m, SendReturned) || At(s, m, FailedToSend) || At(s, m, LostAtRequeue) || At(s, m, Abandoned)
  {
    MessagesAreConserved(s, m);
    var p: Place :| At(s, m, p);
  }

  /** The step ends a coroutine that holds a message and leaves the flags as they are: the loop
      exits because the queue is off, or a cancellation arrives in the sleep after an exception. */
  predicate LeavesFlag(s: State, a: Action) {
    || (a.AAdvance? && a.t in s.tasks && s.tasks[a.t].Top? && s.tasks[a.t].held.Some? && !s.life.running)
    || (a.ACancel? && a.t in s.tasks && s.tasks[a.t].BackOff?)
  }

  /** A stop is finalised while the queue still refers to the coroutine that it captured. */
  predicate FinalizesItsTask(s: State, a: Action) {
    (a.AFinalize? || a.ATaskCleaned? || a.AExecutorCleaned?)
    && s.life.stop.Some? && s.life.task.Some? && s.life.task == s.life.stop.value.task
    && Next(s, a).life.stop.None?
  }

  /** The step resets the has-current flag: a message is done with or goes back to the queue, a
      cancellation arrives at any other sleep, or a stop is finalised that still has its task. */
  predicate ClearsFlag(s: State, a: Action) {
    || (a.AAdvance? && a.t in s.tasks &&
          var pc := s.tasks[a.t];
          pc.Clearing? || ((pc.Rechecking? || pc.Ready?) && a.answer.NotReady?) || (pc.Sending? && a.answer.ConnectionError?))
    || (a.ACancel? && a.t in s.tasks && s.tasks[a.t].Awaiting() && !s.tasks[a.t].Created? && !s.tasks[a.t].BackOff?)
    || FinalizesItsTask(s, a)
  }

  /** Some step of the run left the flag, and no later one has cleared it. */
  ghost predicate FlagLeft(s: State, actions: seq<Action>) {
    exists i :: FlagLeftAt(s, actions, i)
  }

  ghost predicate FlagLeftAt(s: State, actions: seq<Action>, i: int) {
    && 0 <= i < |actions| && LeavesFlag(Execute(s, actions[..i]), actions[i])
    && forall j | i < j < |actions| :: !ClearsFlag(Execute(s, actions[..j]), actions[j])
  }

  lemma FlagLeftStep(s: State, actions: seq<Action>)
    requires actions != []
    ensures var before, a := Execute(s, actions[..|actions| - 1]), actions[|actions| - 1];
      FlagLeft(s, actions) <==> LeavesFlag(before, a) || (FlagLeft(s, actions[..|actions| - 1]) && !ClearsFlag(before, a))
  {
    hide Execute, Next, LeavesFlag, ClearsFlag;
    var n := |actions| - 1;
    var p := actions[..n];
    assert forall i | 0 <= i <= n :: p[..i] == actions[..i];
    if FlagLeft(s, actions) {
      var i :| FlagLeftAt(s, actions, i);
      if i < n { assert FlagLeftAt(s, p, i); }
    }
    if LeavesFlag(Execute(s, p), actions[n]) { assert FlagLeftAt(s, actions, n); }
    if FlagLeft(s, p) && !ClearsFlag(Execute(s, p), actions[n]) {
      var i :| FlagLeftAt(s, p, i);
      assert FlagLeftAt(s, actions, i);
    }
  }

  /** One step: the flag is set exactly when a message is held, or the flag has been left. */
  ghost predicate Tells(s: State, left: bool) {
    s.flags.hasCurrent <==> Holding(s) || left
  }

  lemma AdvanceTells(s: State, t: nat, answer: Answer, left: bool)
    requires Safe(s) && Tells(s, left) && t in s.tasks
    ensures var a := AAdvance(t, answer);
      Tells(Advance(s, t, answer), LeavesFlag(s, a) || (left && !ClearsFlag(s, a)))
  {
    hide Accounted, Paced;
    assert Current(s) == Some(s.tasks[t]);
    LoopTells(s, t, answer, left);
    ChecksTell(s, t, answer, left);
    SendTells(s, t, answer, left);
    hide Safe, AdvanceLoop, AdvanceChecks, AdvanceSend;
  }

  lemma LoopTells(s: State, t: nat, answer: Answer, left: bool)
    requires LifeCycle(s) && FlagsTell(s) && Tells(s, left) && t in s.tasks
    ensures var a := AAdvance(t, answer); var pc := s.tasks[t];
      pc.Checking? || pc.Pacing? || pc.Rechecking? || pc.Ready? || pc.Starting? || pc.Sending? || pc.Mapping? || pc.Clearing?
      || Tells(AdvanceLoop(s, t, answer), LeavesFlag(s, a) || (left && !ClearsFlag(s, a)))
  {
  }

  lemma ChecksTell(s: State, t: nat, answer: Answer, left: bool)
    requires LifeCycle(s) && FlagsTell(s) && Tells(s, left) && t in s.tasks
    ensures var a := AAdvance(t, answer); var pc := s.tasks[t];
      pc.Checking? || pc.Pacing? || pc.Rechecking? || pc.Ready? ==>
        Tells(AdvanceChecks(s, t, answer), LeavesFlag(s, a) || (left && !ClearsFlag(s, a)))
  {
  }

  lemma SendTells(s: State, t: nat, answer: Answer, left: bool)
    requires LifeCycle(s) && FlagsTell(s) && Tells(s, left) && t in s.tasks
    ensures var a := AAdvance(t, answer); var pc := s.tasks[t];
      pc.Starting? || pc.Sending? || pc.Mapping? || pc.Clearing? ==>
        Tells(AdvanceSend(s, t, answer), LeavesFlag(s, a) || (left && !ClearsFlag(s, a)))
  {
  }

  lemma FinalizeTells(s: State, a: Action, left: bool)
    requires Safe(s) && Tells(s, left) && (a.AFinalize? || a.ATaskCleaned? || a.AExecutorCleaned?)
    ensures Tells(Next(s, a), left && !ClearsFlag(s, a))
  {
    hide Accounted, Paced;
  }

  lemma ManagingTells(s: State, a: Action, left: bool)
    requires Safe(s) && Tells(s, left) && Managing(a) && !a.AFinalize? && !a.ATaskCleaned? && !a.AExecutorCleaned?
    ensures Tells(Next(s, a), left)
  {
    ManagingIsCalm(s, a);
    ManagingKeepsFlags(s, a);
    hide Next, Safe;
  }

  lemma OtherTells(s: State, a: Action, left: bool)
    requires Safe(s) && Tells(s, left) && !Managing(a) && !a.AAdvance?
    ensures Tells(Next(s, a), LeavesFlag(s, a) || (left && !ClearsFlag(s, a)))
  {
    ForgivenWhenIdle(s);
    hide Advance, Accounted, Paced;
  }

  lemma StepTells(s: State, a: Action, left: bool)
    requires Safe(s) && Tells(s, left)
    ensures Tells(Next(s, a), LeavesFlag(s, a) || (left && !ClearsFlag(s, a)))
  {
    hide Safe, Tells, Advance;
    if a.AAdvance? {
      if a.t in s.tasks { AdvanceTells(s, a.t, a.answer, left); }
    } else if a.AFinalize? || a.ATaskCleaned? || a.AExecutorCleaned? {
      FinalizeTells(s, a, left);
    } else if Managing(a) {
      ManagingTells(s, a, left);
    } else {
      OtherTells(s, a, left);
    }
  }

  lemma ManagingKeepsFlags(s: State, a: Action)
    requires Managing(a) && !a.AFinalize? && !a.ATaskCleaned? && !a.AExecutorCleaned?
    ensures Next(s, a).flags == s.flags
  {
  }

  lemma {:induction false} RunTells(limit: nat, delay: real, clock: real, actions: seq<Action>)
    requires clock > 0.0
    ensures var s0 := Initial(limit, delay, clock); Tells(Execute(s0, actions), FlagLeft(s0, actions))
  {
    if actions != [] {
      var s0, p := Initial(limit, delay, clock), actions[..|actions| - 1];
      RunTells(limit, delay, clock, p);
      ReachableIsSafe(limit, delay, clock, p);
      StepTells(Execute(s0, p), actions[|actions| - 1], FlagLeft(s0, p));
      FlagLeftStep(s0, actions);
      hide Next, Safe, Tells, LeavesFlag, ClearsFlag, FlagLeft;
    }
  }

  /** After any run, `drain` can return True exactly when nothing is queued, the processor holds no
      message, and no step left the has-current flag that no later step has cleared. */
  lemma DrainIsExact(limit: nat, delay: real, clock: real, actions: seq<Action>)
    requires clock > 0.0
    ensures var s0 := Initial(limit, delay, clock); var s := Execute(s0, actions);
      Drained(s) <==> s.queue == [] && !Holding(s) && !FlagLeft(s0, actions)
  {
    RunTells(limit, delay, clock, actions);
    ReachableIsSafe(limit, delay, clock, actions);
    hide FlagLeft;
  }

  /** So a stop that is finalised before any call drops its finished task leaves no flag behind:
      until a later coroutine leaves one, `drain` waits for nothing but messages. */
  lemma FinalizedStopLeavesNothing(limit: nat, delay: real, clock: real, before: seq<Action>, a: Action, after: seq<Action>)
    requires clock > 0.0
    requires var s0 := Initial(limit, delay, clock);
      && FinalizesItsTask(Execute(s0, before), a)
      && forall j | 0 <= j < |after| :: !LeavesFlag(Execute(s0, before + [a] + after[..j]), after[j])
    ensures var s := Execute(Initial(limit, delay, clock), before + [a] + after);
      Drained(s) <==> s.queue == [] && !Holding(s)
  {
    var s0, actions := Initial(limit, delay, clock), before + [a] + after;
    hide Safe;
    DrainIsExact(limit, delay, clock, actions);
    FinalizingClears(Execute(s0, before), a);
    hide Initial, Execute, Next, FinalizesItsTask, ClearsFlag, LeavesFlag, Drained, Holding, FlagLeftAt;
    NotLeftAfter(s0, before, a, after);
  }

  lemma FinalizingClears(s: State, a: Action)
    requires FinalizesItsTask(s, a)
    ensures ClearsFlag(s, a) && !LeavesFlag(s, a)
  {
  }

  lemma NotLeftAfter(s0: State, before: seq<Action>, a: Action, after: seq<Action>)
    requires ClearsFlag(Execute(s0, before), a) && !LeavesFlag(Execute(s0, before), a)
    requires forall j | 0 <= j < |after| :: !LeavesFlag(Execute(s0, before + [a] + after[..j]), after[j])
    ensures !FlagLeft(s0, before + [a] + after)
  {
    hide Execute, Next, ClearsFlag, LeavesFlag;
    var actions, n := before + [a] + after, |before|;
    assert actions[..n] == before && actions[n] == a;
    forall i ensures !FlagLeftAt(s0, actions, i) {
      if n < i < |actions| {
        assert actions[..i] == before + [a] + after[..i - n - 1];
      }
    }
  }

  // ---------- a flag left behind ----------

  const UNTIL_ASLEEP: seq<Action> :=
    [AStart(1.0, true), AOffer(Drop, false), AAdvance(1, OtherError), AAdvance(1, OtherError), AAdvance(1, NotReady(0.0))]

  const STOP_AND_RESTART: seq<Action> :=
    [ABeginStop, AAdvance(1, OtherError), AAdvance(1, OtherError), AEnsure(false), ATaskCleaned, AExecutorCleaned,
     AStart(1.0, false)]

  /** The processor sleeps with message 0 because the connection is not ready. */
  function Asleep(limit: nat): State {
    State(Life(true, false, false, Some(1), Some(0), {0}, 2, None, 0), map[1 := Sleeping(Some(0), 1.0)], [], limit,
          Flags(false, true), 0, 1.0, 0.0, 1.0, History(1, 0, [], {}, {}, {}))
  }

  lemma FallsAsleep(limit: nat)
    requires limit > 0
    ensures Execute(Initial(limit, 1.0, 1.0), UNTIL_ASLEEP) == Asleep(limit)
  {
    var s0 := Initial(limit, 1.0, 1.0);
    var s1 := Next(s0, UNTIL_ASLEEP[0]);
    var s2 := Next(s1, UNTIL_ASLEEP[1]);
    var s3 := Next(s2, UNTIL_ASLEEP[2]);
    var s4 := Next(s3, UNTIL_ASLEEP[3]);
    var s5 := Next(s4, UNTIL_ASLEEP[4]);
    assert s4.tasks == map[1 := Checking(0)];
    assert s5 == Asleep(limit);
    hide Next;
    RunsTo(s0, [s1, s2, s3, s4, s5], UNTIL_ASLEEP);
  }

  lemma RestartsWithFlag(limit: nat)
    ensures var s := Execute(Asleep(limit), STOP_AND_RESTART);
      s.life.running && s.queue == [] && s.tasks == map[] && s.history.abandoned == {0} && s.flags.hasCurrent
  {
    var s0 := Asleep(limit);
    var s1 := Next(s0, STOP_AND_RESTART[0]);
    var s2 := Next(s1, STOP_AND_RESTART[1]);
    assert s2.tasks == map[1 := Top(Some(0))];
    var s3 := Next(s2, STOP_AND_RESTART[2]);
    assert s3.tasks == map[] && s3.flags == Flags(false, true);
    var s4 := Next(s3, STOP_AND_RESTART[3]);
    var s5 := Next(s4, STOP_AND_RESTART[4]);
    var s6 := Next(s5, STOP_AND_RESTART[5]);
    var s7 := Next(s6, STOP_AND_RESTART[6]);
    assert s7.life.running && s7.tasks == map[] && s7.flags.hasCurrent && s7.history.abandoned == {0};
    hide Next;
    RunsTo(s0, [s1, s2, s3, s4, s5, s6, s7], STOP_AND_RESTART);
  }

  /** A flag can indeed be left.  A processor sleeps with a message because the connection is
      down; the queue stops; the sleep ends and the loop exits; a caller's `ensure_processor_started`
      drops the finished task before the stop is finalised, so that its flags stay set.  After a
      restart nothing is queued or held, and still `drain` cannot return True. */
  lemma LeftoverFlagBlocksDrain(limit: nat)
    requires limit > 0
    ensures var s := Execute(Initial(limit, 1.0, 1.0), UNTIL_ASLEEP + STOP_AND_RESTART);
      s.life.running && s.queue == [] && s.tasks == map[] && s.history.abandoned == {0} && !Drained(s)
  {
    hide UNTIL_ASLEEP, STOP_AND_RESTART;
    FallsAsleep(limit);
    RestartsWithFlag(limit);
    ExecuteAppends(Initial(limit, 1.0, 1.0), UNTIL_ASLEEP, STOP_AND_RESTART);
  }

  lemma {:induction false} RunsTo(s: State, states: seq<State>, actions: seq<Action>)
    requires |states| == |actions| > 0
    requires states[0] == Next(s, actions[0])
    requires forall i | 0 < i < |states| :: states[i] == Next(states[i - 1], actions[i])
    ensures Execute(s, actions) == states[|states| - 1]
  {
    var n := |actions| - 1;
    if n > 0 {
      RunsTo(s, states[..n], actions[..n]);
    } else {
      assert Execute(s, actions[..0]) == s;
    }
  }

  lemma {:induction false} ExecuteAppends(s: State, a: seq<Action>, b: seq<Action>)
    ensures Execute(s, a + b) == Execute(Execute(s, a), b)
  {
    hide Next;
    if b == [] {
      assert a + b == a;
    } else {
      ExecuteAppends(s, a, b[..|b| - 1]);
      assert (a + b)[..|a + b| - 1] == a + b[..|b| - 1];
    }
  }
}
