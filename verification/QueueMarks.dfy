/**
 What a watchdog that takes the lock late does to the queue: when a running queue gets marked as
 failed, what it does then, and what leads out.
 */
module QueueMarks {
  import opened Wrappers
  import opened QueueMachine
  import opened QueueSafety
  import opened QueueDrain

  /** The queue runs, and is marked as failed all the same. */
  predicate Jammed(s: State) {
    s.life.running && s.life.stopFailed
  }

  const LATE_MARK: seq<Action> :=
    [AStart(1.0, false), ABeginStop, ATimeOut(false), AExecutorCleaned, AStart(1.0, false), AMarkStopFailed]

  /** A watchdog times out, the stop is finalised, the queue starts again, and only then does the
      watchdog take the lock: the running queue is marked as failed. */
  lemma LateMarkJamsRunningQueue(limit: nat)
    ensures var s := Execute(Initial(limit, 1.0, 1.0), LATE_MARK); Jammed(s)
  {
    var s0 := Initial(limit, 1.0, 1.0);
    var s1 := Next(s0, LATE_MARK[0]);
    var s2 := Next(s1, LATE_MARK[1]);
    var s3 := Next(s2, LATE_MARK[2]);
    var s4 := Next(s3, LATE_MARK[3]);
    assert s3.life.lateMarks == 1 && s4.life.stop == None && !s4.life.stopping;
    var s5 := Next(s4, LATE_MARK[4]);
    var s6 := Next(s5, LATE_MARK[5]);
    assert s6.life.running && s6.life.stopFailed;
    hide Next;
    RunsTo(s0, [s1, s2, s3, s4, s5, s6], LATE_MARK);
  }

  // ---------- exactly when ----------

  /** A watchdog whose wait has timed out takes the lock while the queue runs. */
  predicate MarksRunning(s: State, a: Action) {
    a.AMarkStopFailed? && s.life.lateMarks > 0 && s.life.running
  }

  /** A step leads to a jammed queue exactly when it is such a mark, or the queue was jammed and
      the step is not a stop. */
  lemma JamStep(s: State, a: Action)
    requires Safe(s)
    ensures Jammed(Next(s, a)) <==> MarksRunning(s, a) || (Jammed(s) && !a.ABeginStop?)
  {
    hide Accounted, FlagsTell, Paced;
    if Managing(a) {
      ManagingJams(s, a);
    } else {
      ForgivenWhenIdle(s);
      if a.AAdvance? && a.t in s.tasks { AdvanceKeepsLife(s, a.t, a.answer); }
      hide Advance, LifeCycle;
    }
  }

  lemma ManagingJams(s: State, a: Action)
    requires LifeCycle(s) && Managing(a)
    ensures Jammed(Next(s, a)) <==> MarksRunning(s, a) || (Jammed(s) && !a.ABeginStop?)
  {
    if a.AStart? { ForgivenWhenIdle(s); }
  }

  ghost predicate JamLeft(s: State, actions: seq<Action>) {
    exists i :: JamLeftAt(s, actions, i)
  }

  /** Step `i` marks a running queue, and no later step is a stop. */
  ghost predicate JamLeftAt(s: State, actions: seq<Action>, i: int) {
    && 0 <= i < |actions| && MarksRunning(Execute(s, actions[..i]), actions[i])
    && forall j | i < j < |actions| :: !actions[j].ABeginStop?
  }

  lemma JamLeftStep(s: State, actions: seq<Action>)
    requires actions != []
    ensures var before, a := Execute(s, actions[..|actions| - 1]), actions[|actions| - 1];
      JamLeft(s, actions) <==> MarksRunning(before, a) || (JamLeft(s, actions[..|actions| - 1]) && !a.ABeginStop?)
  {
    hide Execute, Next, MarksRunning;
    var n := |actions| - 1;
    var p := actions[..n];
    assert forall i | 0 <= i <= n :: p[..i] == actions[..i];
    if JamLeft(s, actions) {
      var i :| JamLeftAt(s, actions, i);
      if i < n { assert JamLeftAt(s, p, i); }
    }
    if MarksRunning(Execute(s, p), actions[n]) { assert JamLeftAt(s, actions, n); }
    if JamLeft(s, p) && !actions[n].ABeginStop? {
      var i :| JamLeftAt(s, p, i);
      assert JamLeftAt(s, actions, i);
    }
  }

  /** After any run the queue is jammed exactly when some step marked it while it ran, and no later
      step is a stop. */
  lemma {:induction false} JammedIffMarked(limit: nat, delay: real, clock: real, actions: seq<Action>)
    requires clock > 0.0
    ensures var s0 := Initial(limit, delay, clock); Jammed(Execute(s0, actions)) <==> JamLeft(s0, actions)
  {
    if actions != [] {
      var s0, p := Initial(limit, delay, clock), actions[..|actions| - 1];
      JammedIffMarked(limit, delay, clock, p);
      ReachableIsSafe(limit, delay, clock, p);
      JamStep(Execute(s0, p), actions[|actions| - 1]);
      JamLeftStep(s0, actions);
      hide Next, Safe, Jammed, MarksRunning, JamLeft;
    }
  }

  ghost predicate NoStop(actions: seq<Action>) {
    forall a | a in actions :: !a.ABeginStop?
  }

  /** No watchdog is on its way to the lock, and the queue is not marked. */
  predicate Unmarked(s: State) {
    s.life.lateMarks == 0 && !s.life.stopFailed
  }

  lemma UnmarkedStep(s: State, a: Action)
    requires Safe(s) && Unmarked(s) && (s.life.running || !a.ATimeOut?)
    ensures Unmarked(Next(s, a))
    ensures s.life.running && !a.ABeginStop? ==> Next(s, a).life.running
  {
    hide Accounted, FlagsTell, Paced;
    if a.AAdvance? && a.t in s.tasks { AdvanceKeepsLife(s, a.t, a.answer); }
    hide Advance;
  }

  lemma {:induction false} UnmarkedStays(s: State, actions: seq<Action>)
    requires Safe(s) && s.life.running && Unmarked(s) && NoStop(actions)
    ensures var t := Execute(s, actions); Safe(t) && t.life.running && Unmarked(t)
  {
    if actions != [] {
      var p, a := actions[..|actions| - 1], actions[|actions| - 1];
      UnmarkedStays(s, p);
      UnmarkedStep(Execute(s, p), a);
      NextKeepsSafe(Execute(s, p), a);
      hide Next, Safe;
    }
  }

  /** A queue that runs unmarked can be jammed without a stop exactly when a watchdog of an earlier
      stop has timed out and still waits for the lock. */
  lemma NeverJamsIff(s: State)
    requires Safe(s) && s.life.running && !s.life.stopFailed
    ensures (forall actions | NoStop(actions) :: !Jammed(Execute(s, actions))) <==> s.life.lateMarks == 0
  {
    if s.life.lateMarks == 0 {
      forall actions | NoStop(actions) ensures !Jammed(Execute(s, actions)) {
        UnmarkedStays(s, actions);
      }
    } else {
      var actions := [AMarkStopFailed];
      assert actions[..0] == [];
      assert Execute(s, actions) == MarkStopFailed(s);
      assert NoStop(actions) && Jammed(Execute(s, actions));
    }
  }

  /** A run in which no watchdog times out never marks the queue. */
  lemma {:induction false} NoTimeOutNoMark(limit: nat, delay: real, clock: real, actions: seq<Action>)
    requires clock > 0.0 && forall a | a in actions :: !a.ATimeOut?
    ensures Unmarked(Execute(Initial(limit, delay, clock), actions))
  {
    if actions != [] {
      var s0, p := Initial(limit, delay, clock), actions[..|actions| - 1];
      NoTimeOutNoMark(limit, delay, clock, p);
      ReachableIsSafe(limit, delay, clock, p);
      UnmarkedStep(Execute(s0, p), actions[|actions| - 1]);
      hide Next, Safe, Unmarked;
    }
  }

  // ---------- what a jammed queue does, and what leads out ----------

  /** Such a queue stays as it is under every call but a stop: it takes no new offer, except from
      a caller that was already waiting for space, and gets no new processor. */
  lemma OnlyStopUnjams(s: State, a: Action)
    requires Safe(s) && Jammed(s) && !a.ABeginStop?
    ensures Jammed(Next(s, a))
    ensures Next(s, a).tasks.Keys <= s.tasks.Keys
    ensures Next(s, a).history.accepted > s.history.accepted ==> a.AOffer? && a.retry
  {
    if a.AAdvance? && a.t in s.tasks {
      AdvanceKeepsLife(s, a.t, a.answer);
      AdvanceAcceptsNothing(s, a.t, a.answer);
    }
    hide Advance, Accounted, FlagsTell, Paced;
  }

  lemma AdvanceAcceptsNothing(s: State, t: nat, a: Answer)
    requires t in s.tasks
    ensures Advance(s, t, a).history.accepted == s.history.accepted
  {
  }

  /** Over whole runs: without a stop the queue stays jammed, no processor is added, and nothing is
      accepted except from callers that were already waiting. */
  lemma {:induction false} JamLasts(s: State, actions: seq<Action>)
    requires Safe(s) && Jammed(s) && NoStop(actions)
    ensures var t := Execute(s, actions);
      && Safe(t) && Jammed(t) && t.tasks.Keys <= s.tasks.Keys
      && ((forall a | a in actions :: a.AOffer? ==> !a.retry) ==> t.history.accepted <= s.history.accepted)
  {
    if actions != [] {
      var p, a := actions[..|actions| - 1], actions[|actions| - 1];
      assert forall b | b in p :: b in actions;
      JamLasts(s, p);
      OnlyStopUnjams(Execute(s, p), a);
      NextKeepsSafe(Execute(s, p), a);
      hide Next, Safe, Jammed;
    }
  }

  /** While the queue is off and no stop is under way, `reset_failed_stop_state` forgives the mark. */
  lemma ResetForgives(s: State)
    requires Safe(s) && !s.life.running && !s.life.stopping
    ensures !Reset(s).life.stopFailed
  {
    hide Accounted, FlagsTell, Paced;
  }

  /** CancelledError reaches the processor, if there is one. */
  function CancelProcessor(s: State): State {
    if TaskActive(s) then Cancel(s, s.life.task.value) else s
  }

  /** A stop does lead out, whatever the watchdogs of earlier stops still do: once the processor
      is cancelled and the executor shut down, the queue can be started, and a mark that comes
      even then is forgiven by that start. */
  lemma StopUnjams(s: State, delay: real)
    requires Safe(s) && s.life.running
    requires TaskActive(s) ==> Current(s).value.Awaiting() || Current(s).value.Closed?
    ensures var off := ExecutorCleaned(TaskCleaned(CancelProcessor(BeginStop(s))));
      && Recovered(off)
      && Start(off, delay, false).life.running && !Start(off, delay, false).life.stopFailed
      && Start(MarkStopFailed(off), delay, false).life.running && !Start(MarkStopFailed(off), delay, false).life.stopFailed
  {
    NextKeepsLifeCycle(s, ABeginStop);
    var stopped := BeginStop(s);
    assert Next(s, ABeginStop) == stopped && TaskActive(stopped) == TaskActive(s);
    if TaskActive(s) { NextKeepsLifeCycle(stopped, ACancel(s.life.task.value)); }
    hide Accounted, FlagsTell, Paced, TaskCleaned, ExecutorCleaned, LifeCycle;
    CleanupRecovers(CancelProcessor(stopped));
  }
}
