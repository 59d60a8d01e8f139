/**
 What each step of the queue does to the messages, said by its effects: who may enter, what is
 lost and when, what goes back and where, and that a ready connection delivers the whole queue.
 */
module QueueLaws {
  import opened Wrappers
  import opened QueueMachine
  import opened QueueSafety
  import opened QueueDrain

  // ---------- messages in ----------

  /** An offer is considered by a running queue that is not marked as failed; a caller that comes back
      from waiting is considered even then. */
  predicate Considered(s: State, retry: bool) {
    s.life.running && (retry || !s.life.stopFailed)
  }

  /** A message is accepted, at the end of the queue, exactly when it is considered and there is room.
      A full queue refuses and counts it, unless the caller waits; otherwise nothing happens. */
  lemma OfferLaw(s: State, whenFull: WhenFull, retry: bool)
    requires Safe(s)
    ensures var s', h := Next(s, AOffer(whenFull, retry)), s.history;
      if Considered(s, retry) && |s.queue| < s.limit then
        s'.queue == s.queue + [h.accepted] && s'.history == h.(accepted := h.accepted + 1) && s'.dropped == s.dropped
      else if Considered(s, retry) && whenFull != Wait then
        s'.queue == s.queue && s'.history == h.(refused := h.refused + 1) && s'.dropped == s.dropped + 1
      else
        s'.queue == s.queue && s'.history == h && s'.dropped == s.dropped
  {
    ForgivenWhenIdle(s);
    hide Accounted, FlagsTell, Paced;
  }

  /** A fresh offer also forgives a failed stop of which nothing is left, so the queue can be started. */
  lemma OfferForgives(s: State, whenFull: WhenFull)
    requires s.life.stopFailed && !s.life.running && !TaskActive(s) && s.life.executor.None?
    ensures var life := Next(s, AOffer(whenFull, false)).life;
      !life.stopFailed && !life.stopping && !life.running && life.task.None? && life.executor.None?
  {
  }

  // ---------- messages on their way ----------

  /** The processor gives message `m` back: a later connection check fails, or the send does with a
      connection error. */
  predicate GivesBack(s: State, a: Action, m: Msg) {
    a.AAdvance? && a.t in s.tasks &&
      ( ((s.tasks[a.t].Rechecking? || s.tasks[a.t].Ready?) && s.tasks[a.t].m == m && a.answer.NotReady?)
      || (s.tasks[a.t].Sending? && s.tasks[a.t].m == m && a.answer.ConnectionError?))
  }

  /** The send of `m` fails for another reason, or there is no executor that takes it. */
  predicate FailsToSend(s: State, a: Action, m: Msg) {
    a.AAdvance? && a.t in s.tasks &&
      ( (s.tasks[a.t].Sending? && s.tasks[a.t].m == m && a.answer.OtherError?)
      || (s.tasks[a.t].Starting? && s.tasks[a.t].m == m
          && (s.life.executor.None? || s.life.executor.value !in s.life.executors || (s.life.stop.Some? && !a.answer.Go?))))
  }

  /** The coroutine that holds `m`, not sent yet, exits, is cancelled at a sleep or a send, or loses its loop. */
  predicate GivesUp(s: State, a: Action, m: Msg) {
    || (a.AAdvance? && a.t in s.tasks && s.tasks[a.t] == Top(Some(m)) && !s.life.running)
    || ((a.ACancel? || a.ALoopClosed?) && a.t in s.tasks &&
          match s.tasks[a.t]
          case Waiting(n, _) => n == m
          case Sending(n, _) => n == m
          case BackOff(n, _) => n == m
          case Sleeping(held, _) => held == Some(m)
          case _ => false)
  }

  /** A message that is given back goes to the front of the queue if there is room; only if the
      queue is full is it lost, and counted. */
  lemma GivenBackLaw(s: State, a: Action, m: Msg)
    requires Safe(s) && GivesBack(s, a, m)
    ensures var s', h := Next(s, a), s.history;
      if |s.queue| < s.limit then s'.queue == [m] + s.queue && s'.history == h && s'.dropped == s.dropped
      else s'.queue == s.queue && s'.history == h.(lost := h.lost + {m}) && s'.dropped == s.dropped + 1
  {
    hide Safe;
  }

  lemma FailedLaw(s: State, a: Action, m: Msg)
    requires Safe(s) && FailsToSend(s, a, m)
    ensures var s', h := Next(s, a), s.history;
      s'.queue == s.queue && s'.history == h.(failed := h.failed + {m}) && s'.dropped == s.dropped
  {
    hide Safe;
  }

  lemma GivenUpLaw(s: State, a: Action, m: Msg)
    requires Safe(s) && GivesUp(s, a, m)
    ensures var s', h := Next(s, a), s.history;
      s'.queue == s.queue && s'.history == h.(abandoned := h.abandoned + {m}) && s'.dropped == s.dropped
  {
    hide Safe;
  }

  /** A send that returns is recorded with its times and the delay in force. */
  lemma ReturnedLaw(s: State, t: nat, m: Msg, started: real, mapping: bool)
    requires Safe(s) && t in s.tasks && s.tasks[t] == Sending(m, started)
    ensures var s', h := Next(s, AAdvance(t, Returned(mapping))), s.history;
      && s'.queue == s.queue && s'.history == h.(sent := h.sent + [Sent(m, started, s.clock, s.delay)])
      && s'.dropped == s.dropped && s'.lastSend == s.clock
  {
    hide Safe;
  }

  /** The processor takes the oldest message, while the queue runs and it holds none. */
  lemma TakenLaw(s: State, t: nat, answer: Answer)
    requires Safe(s) && t in s.tasks && s.tasks[t] == Top(None) && s.life.running && s.queue != []
    ensures var s' := Next(s, AAdvance(t, answer));
      && s'.queue == s.queue[1..] && s'.history == s.history && s'.dropped == s.dropped
      && t in s'.tasks && s'.tasks[t] == Checking(s.queue[0])
  {
    hide Safe;
  }

  /** Some message is given back, fails, is given up, is sent or is taken by the step. */
  ghost predicate Moves(s: State, a: Action) {
    || (exists m :: GivesBack(s, a, m)) || (exists m :: FailsToSend(s, a, m)) || (exists m :: GivesUp(s, a, m))
    || (a.AAdvance? && a.t in s.tasks && s.tasks[a.t].Sending? && a.answer.Returned?)
    || (a.AAdvance? && a.t in s.tasks && s.tasks[a.t] == Top(None) && s.life.running && s.queue != [])
    || a.AOffer?
  }

  /** And no other step moves a message or counts one. */
  lemma NothingElseMoves(s: State, a: Action)
    requires Safe(s) && !Moves(s, a)
    ensures Next(s, a).queue == s.queue && Next(s, a).history == s.history && Next(s, a).dropped == s.dropped
  {
    hide Accounted, FlagsTell, Paced;
    if Managing(a) {
      ManagingIsCalm(s, a);
    } else if a.AAdvance? {
      if a.t in s.tasks { AdvanceMovesNothing(s, a.t, a.answer); }
    } else if a.ACancel? || a.ALoopClosed? {
      EndMovesNothing(s, a);
    }
    hide Advance, LifeCycle;
  }

  lemma AdvanceMovesNothing(s: State, t: nat, answer: Answer)
    requires t in s.tasks && !Moves(s, AAdvance(t, answer))
    ensures var s' := Advance(s, t, answer); s'.queue == s.queue && s'.history == s.history && s'.dropped == s.dropped
  {
    var a, pc := AAdvance(t, answer), s.tasks[t];
    if pc.Rechecking? || pc.Ready? || pc.Sending? || pc.Starting? {
      assert !GivesBack(s, a, pc.m) && !FailsToSend(s, a, pc.m);
    }
    if pc.Top? && pc.held.Some? {
      assert !GivesUp(s, a, pc.held.value);
    }
  }

  lemma EndMovesNothing(s: State, a: Action)
    requires (a.ACancel? || a.ALoopClosed?) && !Moves(s, a)
    ensures Next(s, a).queue == s.queue && Next(s, a).history == s.history && Next(s, a).dropped == s.dropped
  {
    if a.t in s.tasks && s.tasks[a.t].Pending().Some? {
      assert !GivesUp(s, a, s.tasks[a.t].Pending().value);
    }
  }

  /** Over any run: a message is lost only at a step that gives it back to a full queue, fails only at
      a step that fails to send it, and is abandoned only at a step that gives it up. */
  lemma {:induction false} WhatBecameOfIt(limit: nat, delay: real, clock: real, actions: seq<Action>, m: Msg)
    requires clock > 0.0
    ensures var s0 := Initial(limit, delay, clock); var h := Execute(s0, actions).history;
      && (m in h.lost ==> exists i | 0 <= i < |actions| ::
            var s := Execute(s0, actions[..i]); GivesBack(s, actions[i], m) && |s.queue| == limit)
      && (m in h.failed ==> exists i | 0 <= i < |actions| :: FailsToSend(Execute(s0, actions[..i]), actions[i], m))
      && (m in h.abandoned ==> exists i | 0 <= i < |actions| :: GivesUp(Execute(s0, actions[..i]), actions[i], m))
  {
    if actions != [] {
      var s0, n := Initial(limit, delay, clock), |actions| - 1;
      var p := actions[..n];
      var s, a := Execute(s0, p), actions[n];
      WhatBecameOfIt(limit, delay, clock, p, m);
      ReachableIsSafe(limit, delay, clock, p);
      SameLimit(s0, p);
      WhatHappens(s, a, m);
      assert forall i | 0 <= i <= n :: p[..i] == actions[..i];
      hide Next, Safe, GivesBack, FailsToSend, GivesUp;
    }
  }

  lemma {:induction false} SameLimit(s: State, actions: seq<Action>)
    ensures Execute(s, actions).limit == s.limit
  {
    if actions != [] {
      SameLimit(s, actions[..|actions| - 1]);
      NextSameLimit(Execute(s, actions[..|actions| - 1]), actions[|actions| - 1]);
      hide Next;
    }
  }

  lemma NextSameLimit(s: State, a: Action)
    ensures Next(s, a).limit == s.limit
  {
    if a.AAdvance? && a.t in s.tasks { AdvanceSameLimit(s, a.t, a.answer); }
    hide Advance;
  }

  lemma AdvanceSameLimit(s: State, t: nat, a: Answer)
    requires t in s.tasks
    ensures Advance(s, t, a).limit == s.limit
  {
  }

  /** One step, for one message. */
  lemma WhatHappens(s: State, a: Action, m: Msg)
    requires Safe(s)
    ensures var h, h' := s.history, Next(s, a).history;
      && (m in h'.lost && m !in h.lost ==> GivesBack(s, a, m) && |s.queue| == s.limit)
      && (m in h'.failed && m !in h.failed ==> FailsToSend(s, a, m))
      && (m in h'.abandoned && m !in h.abandoned ==> GivesUp(s, a, m))
  {
    assert |s.queue| <= s.limit;
    if n :| GivesBack(s, a, n) {
      GivenBackLaw(s, a, n);
    } else if n :| FailsToSend(s, a, n) {
      FailedLaw(s, a, n);
    } else if n :| GivesUp(s, a, n) {
      GivenUpLaw(s, a, n);
    } else if a.AOffer? {
      OfferLaw(s, a.whenFull, a.retry);
    } else if a.AAdvance? && a.t in s.tasks && s.tasks[a.t].Sending? && a.answer.Returned? {
      ReturnedLaw(s, a.t, s.tasks[a.t].m, s.tasks[a.t].started, a.answer.mapping);
    } else if a.AAdvance? && a.t in s.tasks && s.tasks[a.t] == Top(None) && s.life.running && s.queue != [] {
      TakenLaw(s, a.t, a.answer);
    } else {
      NothingElseMoves(s, a);
    }
    hide Next, Safe, GivesBack, FailsToSend, GivesUp;
  }

  // ---------- the checks before a send ----------

  /** A message reaches the send only past its last connection check: nothing but a positive answer
      there leads to it. */
  lemma SendNeedsGo(s: State, a: Action, t: nat)
    requires Safe(s) && t in Next(s, a).tasks && Next(s, a).tasks[t].Starting?
    requires !(t in s.tasks && s.tasks[t].Starting?)
    ensures a.AAdvance? && a.t == t && a.answer.Go? && t in s.tasks && s.tasks[t] == Ready(Next(s, a).tasks[t].m)
  {
    hide Safe;
    if !a.AAdvance? {
      OthersLeavePcs(s, a, t);
    } else if a.t in s.tasks {
      AdvanceTouchesOne(s, a.t, a.answer);
      if a.t == t { OnlyReadyStarts(s, t, a.answer); }
    }
    hide Advance;
  }

  lemma OnlyReadyStarts(s: State, t: nat, a: Answer)
    requires t in s.tasks && !s.tasks[t].Starting? && t in Advance(s, t, a).tasks && Advance(s, t, a).tasks[t].Starting?
    ensures a.Go? && s.tasks[t] == Ready(Advance(s, t, a).tasks[t].m)
  {
  }

  lemma AdvanceTouchesOne(s: State, t: nat, a: Answer)
    requires t in s.tasks
    ensures var s' := Advance(s, t, a);
      && (forall u | u != t :: u in s'.tasks <==> u in s.tasks)
      && (forall u | u != t && u in s.tasks :: s'.tasks[u] == s.tasks[u])
  {
    LoopTouches(s, t, a);
    ChecksTouch(s, t, a);
    SendTouches(s, t, a);
    hide AdvanceLoop, AdvanceChecks, AdvanceSend;
    assert Touches(s, Advance(s, t, a), t);
  }

  /** Any other action leaves a coroutine where it is, ends it, closes its loop, or creates one. */
  lemma OthersLeavePcs(s: State, a: Action, t: nat)
    requires !a.AAdvance? && t in Next(s, a).tasks
    ensures var pc := Next(s, a).tasks[t]; pc.Created? || pc.Closed? || (t in s.tasks && pc == s.tasks[t])
  {
  }

  /** What the checks answer is what happens: ready goes on, not ready keeps or gives back the message,
      and an exception keeps it. */
  lemma CheckLaw(s: State, t: nat, answer: Answer)
    requires Safe(s) && t in s.tasks && s.tasks[t].Checking?
    ensures var s', m := Next(s, AAdvance(t, answer)), s.tasks[t].m;
      t in s'.tasks && s'.tasks[t] ==
        if answer.Go? then Pacing(m) else if answer.NotReady? then Sleeping(Some(m), s.clock + answer.sleep)
        else if answer.Raises? then BackOff(m, s.clock + answer.sleep) else Checking(m)
  {
    hide Safe;
  }

  /** The wait before a send is exactly what is missing to the delay. */
  lemma PaceLaw(s: State, t: nat, answer: Answer)
    requires Safe(s) && t in s.tasks && s.tasks[t].Pacing?
    ensures var s', m := Next(s, AAdvance(t, answer)), s.tasks[t].m;
      t in s'.tasks && s'.tasks[t] ==
        if s.lastSend > 0.0 && s.clock < s.lastSend + s.delay then Waiting(m, s.lastSend + s.delay) else Ready(m)
  {
    hide Safe;
  }

  /** The later checks: ready goes on towards the send, not ready gives the message back and sleeps, an
      exception keeps it for another try. */
  lemma RecheckLaw(s: State, t: nat, answer: Answer)
    requires Safe(s) && t in s.tasks && (s.tasks[t].Rechecking? || s.tasks[t].Ready?)
    ensures var s', m := Next(s, AAdvance(t, answer)), s.tasks[t].m;
      && t in s'.tasks && s'.flags == (if answer.NotReady? then Flags(s.flags.inFlight, false) else s.flags)
      && s'.tasks[t] ==
        if answer.Go? then if s.tasks[t].Ready? then Starting(m) else Ready(m)
        else if answer.NotReady? then Sleeping(None, s.clock + answer.sleep)
        else if answer.Raises? then BackOff(m, s.clock + answer.sleep) else s.tasks[t]
  {
    hide Safe;
  }

  /** The send: a message that returned gets its mapping if there is one, a connection error makes the
      processor sleep with nothing in hand, and any other error is final. */
  lemma AfterSendLaw(s: State, t: nat, answer: Answer)
    requires Safe(s) && t in s.tasks && s.tasks[t].Sending?
    ensures var s', m := Next(s, AAdvance(t, answer)), s.tasks[t].m;
      && t in s'.tasks && s'.flags == (if answer.ConnectionError? then CLEARED else s.flags)
      && s'.tasks[t] ==
        if answer.Returned? then if answer.mapping then Mapping(m) else Clearing(m)
        else if answer.ConnectionError? then Sleeping(None, s.clock + answer.sleep)
        else if answer.OtherError? then Clearing(m) else s.tasks[t]
  {
    hide Safe;
  }

  /** A sleep ends when its time has come, not before, and the processor goes on with what it held. */
  lemma WakeLaw(s: State, t: nat, answer: Answer)
    requires Safe(s) && t in s.tasks && (s.tasks[t].Waiting? || s.tasks[t].Sleeping? || s.tasks[t].BackOff?)
    ensures var s', pc := Next(s, AAdvance(t, answer)), s.tasks[t];
      t in s'.tasks && s'.tasks[t] ==
        if s.clock < pc.until then pc else if pc.Waiting? then Rechecking(pc.m) else Top(pc.Held())
  {
    hide Safe;
  }

  // ---------- a ready connection delivers everything ----------

  /** The processor `t` is at the top of its loop and holds nothing. */
  predicate Resting(s: State, t: nat) {
    s.life.running && s.life.task == Some(t) && t in s.tasks && s.tasks[t] == Top(None)
  }

  /** When the next message may be sent. */
  function SendTime(s: State): real {
    if s.lastSend > 0.0 && s.clock < s.lastSend + s.delay then s.lastSend + s.delay else s.clock
  }

  lemma OneStep(s: State, a: Action)
    ensures Execute(s, [a]) == Next(s, a)
  {
    assert [a][..0] == [];
  }

  lemma Taken(s: State, t: nat) returns (actions: seq<Action>)
    requires Resting(s, t) && s.queue != []
    ensures Execute(s, actions) ==
      s.(queue := s.queue[1..], flags := s.flags.(hasCurrent := true), tasks := s.tasks[t := Pacing(s.queue[0])])
  {
    var s1 := Next(s, AAdvance(t, Go(0.0)));
    var s2 := Next(s1, AAdvance(t, Go(0.0)));
    assert s.tasks[t := Checking(s.queue[0])][t := Pacing(s.queue[0])] == s.tasks[t := Pacing(s.queue[0])];
    actions := [AAdvance(t, Go(0.0)), AAdvance(t, Go(0.0))];
    hide Next;
    RunsTo(s, [s1, s2], actions);
  }

  lemma Waits(s: State, t: nat, m: Msg) returns (actions: seq<Action>)
    requires t in s.tasks && s.tasks[t] == Pacing(m)
    ensures Execute(s, actions) == s.(clock := SendTime(s), tasks := s.tasks[t := Ready(m)])
  {
    var s1 := Next(s, AAdvance(t, Go(0.0)));
    if s.lastSend > 0.0 && s.clock < s.lastSend + s.delay {
      var s2 := Next(s1, ATick(s.lastSend + s.delay - s.clock));
      var s3 := Next(s2, AAdvance(t, Go(0.0)));
      var s4 := Next(s3, AAdvance(t, Go(0.0)));
      assert s1.tasks[t] == Waiting(m, s.lastSend + s.delay);
      assert s4.tasks == s.tasks[t := Ready(m)];
      actions := [AAdvance(t, Go(0.0)), ATick(s.lastSend + s.delay - s.clock), AAdvance(t, Go(0.0)), AAdvance(t, Go(0.0))];
      hide Next;
      RunsTo(s, [s1, s2, s3, s4], actions);
    } else {
      actions := [AAdvance(t, Go(0.0))];
      OneStep(s, AAdvance(t, Go(0.0)));
    }
  }

  lemma Sends(s: State, t: nat, m: Msg) returns (actions: seq<Action>)
    requires t in s.tasks && s.tasks[t] == Ready(m) && s.life.stop.None?
    requires s.life.executor.Some? && s.life.executor.value in s.life.executors
    ensures Execute(s, actions) ==
      s.(flags := s.flags.(inFlight := true), lastSend := s.clock, tasks := s.tasks[t := Mapping(m)],
         history := s.history.(sent := s.history.sent + [Sent(m, s.clock, s.clock, s.delay)]))
  {
    var s1 := Next(s, AAdvance(t, Go(0.0)));
    var s2 := Next(s1, AAdvance(t, Go(0.0)));
    var s3 := Next(s2, AAdvance(t, Returned(true)));
    assert s2.tasks == s.tasks[t := Sending(m, s.clock)];
    assert s3.tasks == s.tasks[t := Mapping(m)];
    actions := [AAdvance(t, Go(0.0)), AAdvance(t, Go(0.0)), AAdvance(t, Returned(true))];
    hide Next;
    RunsTo(s, [s1, s2, s3], actions);
  }

  lemma Rests(s: State, t: nat, m: Msg) returns (actions: seq<Action>)
    requires t in s.tasks && s.tasks[t] == Mapping(m)
    ensures Execute(s, actions) == s.(flags := CLEARED, tasks := s.tasks[t := Top(None)])
  {
    var s1 := Next(s, AAdvance(t, Go(0.0)));
    var s2 := Next(s1, AAdvance(t, Go(0.0)));
    assert s2.tasks == s.tasks[t := Top(None)];
    actions := [AAdvance(t, Go(0.0)), AAdvance(t, Go(0.0))];
    hide Next;
    RunsTo(s, [s1, s2], actions);
  }

  /** What one delivery leaves. */
  function Delivered(s: State): State
    requires s.queue != []
  {
    var at := SendTime(s);
    s.(queue := s.queue[1..], flags := CLEARED, lastSend := at, clock := at,
       history := s.history.(sent := s.history.sent + [Sent(s.queue[0], at, at, s.delay)]))
  }

  /** With a connection that answers ready and sends that return, the oldest message is sent as soon
      as the delay allows, and the processor is ready for the next. */
  lemma DeliversOne(s: State, t: nat) returns (actions: seq<Action>)
    requires Safe(s) && Resting(s, t) && s.queue != []
    ensures Execute(s, actions) == Delivered(s)
  {
    assert s.life.stop.None? && s.life.executor.Some? && s.life.executor.value in s.life.executors;
    hide Safe;
    var m := s.queue[0];
    var a1 := Taken(s, t);
    var s1 := Execute(s, a1);
    var a2 := Waits(s1, t, m);
    var s2 := Execute(s1, a2);
    var a3 := Sends(s2, t, m);
    var s3 := Execute(s2, a3);
    var a4 := Rests(s3, t, m);
    actions := a1 + a2 + a3 + a4;
    Chain(s, a1, a2, a3, a4);
    hide Next, Execute;
    assert s.tasks[t := Pacing(m)][t := Ready(m)][t := Mapping(m)][t := Top(None)] == s.tasks;
  }

  lemma Chain(s: State, a1: seq<Action>, a2: seq<Action>, a3: seq<Action>, a4: seq<Action>)
    ensures Execute(s, a1 + a2 + a3 + a4) == Execute(Execute(Execute(Execute(s, a1), a2), a3), a4)
  {
    hide Execute, Next;
    ExecuteAppends(s, a1, a2);
    ExecuteAppends(s, a1 + a2, a3);
    ExecuteAppends(s, a1 + a2 + a3, a4);
  }

  /** And so the whole queue is sent, in order, and nothing is lost on the way. */
  lemma {:induction false} DeliversAll(s: State, t: nat) returns (actions: seq<Action>)
    requires Safe(s) && Resting(s, t)
    ensures var s', h := Execute(s, actions), s.history;
      && s'.queue == [] && Messages(s'.history.sent) == Messages(h.sent) + s.queue
      && s'.history.accepted == h.accepted && s'.history.failed == h.failed
      && s'.history.lost == h.lost && s'.history.abandoned == h.abandoned
    decreases |s.queue|
  {
    if s.queue == [] {
      actions := [];
    } else {
      var first := DeliversOne(s, t);
      RunKeepsSafe(s, first);
      var s1 := Execute(s, first);
      hide Safe, Next, Execute;
      OneMoreSent(s);
      var rest := DeliversAll(s1, t);
      ExecuteAppends(s, first, rest);
      actions := first + rest;
      hide Messages;
    }
  }

  lemma OneMoreSent(s: State)
    requires s.queue != []
    ensures Messages(s.history.sent) + s.queue == Messages(Delivered(s).history.sent) + Delivered(s).queue
  {
    assert Messages(Delivered(s).history.sent) == Messages(s.history.sent) + [s.queue[0]];
  }

  lemma {:induction false} RunKeepsSafe(s: State, actions: seq<Action>)
    requires Safe(s)
    ensures Safe(Execute(s, actions))
  {
    hide Safe, Next;
    if actions != [] {
      RunKeepsSafe(s, actions[..|actions| - 1]);
      NextKeepsSafe(Execute(s, actions[..|actions| - 1]), actions[|actions| - 1]);
    }
  }

  // ---------- starting ----------

  /** A start of a queue that is off and has nothing unfinished turns it on with the given delay and a
      live executor, and creates a processor if there is a loop. */
  lemma StartLaw(s: State, delay: real, loop: bool)
    requires Safe(s) && !s.life.running && !s.life.stopping
    ensures var s' := Next(s, AStart(delay, loop));
      && s'.life.running && !s'.life.stopping && !s'.life.stopFailed && s'.delay == delay
      && s'.life.executor.Some? && s'.life.executor.value in s'.life.executors
      && (loop ==> s'.life.task.Some? && s'.tasks == map[s'.life.task.value := Created])
      && (!loop ==> s'.tasks == map[])
  {
    ForgivenWhenIdle(s);
    hide Accounted, FlagsTell, Paced;
  }

  /** A call on a running queue without processor creates one, if there is a loop. */
  lemma EnsureLaw(s: State)
    requires Safe(s) && s.life.running && !s.life.stopFailed && !TaskActive(s)
    ensures var s' := Next(s, AEnsure(true));
      s'.life.running && s'.life.task.Some? && s'.tasks == map[s'.life.task.value := Created] && s'.delay == s.delay
  {
    hide Accounted, FlagsTell, Paced;
  }

  /** A new processor goes to the top of its loop. */
  lemma CreatedLaw(s: State, t: nat, answer: Answer)
    requires Safe(s) && s.life.running && t in s.tasks && s.tasks[t].Created?
    ensures Resting(Next(s, AAdvance(t, answer)), t)
  {
    hide Accounted, FlagsTell, Paced;
  }
}
