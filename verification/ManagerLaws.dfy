/**
 What becomes of a submitted job, said by the actions of the run: it is of the kind it was
 submitted as, and it is committed or rolled back by what its function and its commit did.
 */
module ManagerLaws {
  import opened Wrappers
  import opened ManagerMachine
  import opened ManagerSafety

  // ---------- submission ----------

  /** A submission adds exactly the job that was asked for, while submissions are accepted. */
  lemma SubmitLaw(s: State, write: bool)
    ensures var s' := Next(s, ASubmit(write));
      s'.jobs == if s.accepting then s.jobs + [Job(write, Waiting, 0, 0, 0, false)] else s.jobs
  {
  }

  /** The jobs that were there are still there, and of the same kind; `more` are new. */
  ghost predicate SameKinds(s: State, s': State, more: nat) {
    |s'.jobs| == |s.jobs| + more && forall j | 0 <= j < |s.jobs| :: s'.jobs[j].write == s.jobs[j].write
  }

  lemma EnterKinds(s: State, t: nat, write: bool)
    ensures SameKinds(s, Enter(s, t, write), 0)
  {
  }

  lemma LeaveKinds(s: State, t: nat)
    ensures SameKinds(s, Leave(s, t), 0)
  {
  }

  lemma CallKinds(s: State, t: nat)
    ensures SameKinds(s, Call(s, t), 0)
  {
  }

  lemma SettleKinds(s: State, t: nat, commitFails: bool)
    ensures SameKinds(s, Settle(s, t, commitFails), 0)
  {
  }

  lemma ExecutorKinds(s: State, a: Action)
    requires a.AStartJob? || a.AFinishJob? || a.ACancelCaller?
    ensures SameKinds(s, Next(s, a), 0)
  {
  }

  /** No action changes the kind of a job that is there, or removes it; only a submission adds one. */
  lemma KindsStay(s: State, a: Action)
    ensures SameKinds(s, Next(s, a), if a.ASubmit? && s.accepting then 1 else 0)
  {
    match a {
      case AEnter(t, write) => EnterKinds(s, t, write);
      case ALeave(t) => LeaveKinds(s, t);
      case ACall(t) => CallKinds(s, t);
      case ASettle(t, commitFails) => SettleKinds(s, t, commitFails);
      case AStartJob(_, _) => ExecutorKinds(s, a);
      case AFinishJob(_) => ExecutorKinds(s, a);
      case ACancelCaller(_) => ExecutorKinds(s, a);
      case _ =>
    }
    hide Enter, Leave, Call, Settle, StartJob, FinishJob, CancelCaller;
  }

  lemma Unfold(s0: State, actions: seq<Action>, n: nat)
    requires n < |actions|
    ensures Execute(s0, actions[..n + 1]) == Next(Execute(s0, actions[..n]), actions[n])
  {
    assert actions[..n + 1][..n] == actions[..n];
  }

  /** Over any run, job `j` is a write exactly if the submission that made it asked for a write. */
  lemma {:induction false} KindIsAsSubmitted(threads: nat, creator: nat, actions: seq<Action>, j: nat)
    requires creator < threads && j < |Execute(Initial(threads, creator), actions).jobs|
    ensures exists i | 0 <= i < |actions| :: MakesJob(Initial(threads, creator), actions, i, j)
    ensures forall i | 0 <= i < |actions| && MakesJob(Initial(threads, creator), actions, i, j) ::
      actions[i].write == Execute(Initial(threads, creator), actions).jobs[j].write
  {
    var s0, n := Initial(threads, creator), |actions| - 1;
    assert n >= 0;
    var p := actions[..n];
    var s, a := Execute(s0, p), actions[n];
    assert actions[..n + 1] == actions && forall i | 0 <= i <= n :: p[..i] == actions[..i];
    Unfold(s0, actions, n);
    KindsStay(s, a);
    hide Next, Execute, Initial;
    forall i | 0 <= i < n ensures MakesJob(s0, p, i, j) <==> MakesJob(s0, actions, i, j) {}
    if j < |s.jobs| {
      KindIsAsSubmitted(threads, creator, p, j);
    } else {
      SubmitLaw(s, a.write);
      assert MakesJob(s0, actions, n, j);
      forall i | 0 <= i < n ensures !MakesJob(s0, actions, i, j) {
        if MakesJob(s0, actions, i, j) { StillThere(s0, actions, i, n, j); }
      }
    }
  }

  /** Step `i` of the run is the submission that makes job `j`. */
  ghost predicate MakesJob(s0: State, actions: seq<Action>, i: int, j: nat) {
    && 0 <= i < |actions| && actions[i].ASubmit?
    && var s := Execute(s0, actions[..i]); s.accepting && |s.jobs| == j
  }

  lemma MakesOne(s0: State, actions: seq<Action>, i: int, j: nat)
    requires MakesJob(s0, actions, i, j)
    ensures |Execute(s0, actions[..i + 1]).jobs| == j + 1
  {
    Unfold(s0, actions, i);
    var s := Execute(s0, actions[..i]);
    hide Execute;
    SubmitLaw(s, actions[i].write);
    hide Next;
  }

  lemma OneMore(s0: State, actions: seq<Action>, n: nat)
    requires n < |actions|
    ensures |Execute(s0, actions[..n]).jobs| <= |Execute(s0, actions[..n + 1]).jobs|
  {
    Unfold(s0, actions, n);
    KindsStay(Execute(s0, actions[..n]), actions[n]);
    hide Next, Execute;
  }

  lemma {:induction false} StillThere(s0: State, actions: seq<Action>, i: int, n: int, j: nat)
    requires MakesJob(s0, actions, i, j) && i < n <= |actions|
    ensures j < |Execute(s0, actions[..n]).jobs|
    decreases n
  {
    hide Execute;
    if i < n - 1 {
      StillThere(s0, actions, i, n - 1, j);
      OneMore(s0, actions, n - 1);
    } else {
      MakesOne(s0, actions, i, j);
    }
  }

  // ---------- how a job ends ----------

  /** Thread `t` is in the outermost operation of job `j`. */
  predicate InOwnOperation(s: State, t: nat, j: nat) {
    t < |s.threads| && s.threads[t].job == Some(j) && |s.threads[t].frames| == 1
  }

  /** The function of job `j` returns or raises. */
  predicate EndsFunction(s: State, a: Action, j: nat) {
    a.AEndCall? && InOwnOperation(s, a.t, j) && s.threads[a.t].frames[0].phase == InBody
  }

  /** The write of job `j` comes to its commit or rollback. */
  predicate EndsWrite(s: State, a: Action, j: nat) {
    a.ASettle? && InOwnOperation(s, a.t, j) && s.threads[a.t].frames[0].write && s.threads[a.t].frames[0].phase.Ended?
  }

  /** The `raised` of all actions of the run that end the function of job `j`. */
  function Raised(s0: State, actions: seq<Action>, j: nat): set<bool> {
    if actions == [] then {}
    else
      var p, a := actions[..|actions| - 1], actions[|actions| - 1];
      Raised(s0, p, j) + (if EndsFunction(Execute(s0, p), a, j) then {a.raised} else {})
  }

  /** The `commitFails` of all actions of the run that end the write of job `j`. */
  function CommitFailed(s0: State, actions: seq<Action>, j: nat): set<bool> {
    if actions == [] then {}
    else
      var p, a := actions[..|actions| - 1], actions[|actions| - 1];
      CommitFailed(s0, p, j) + (if EndsWrite(Execute(s0, p), a, j) then {a.commitFails} else {})
  }

  datatype Stage = Early | Returned(raised: bool) | Decided(committed: bool) | Done

  /** How far job `j` has come. */
  function StageOf(s: State, j: nat): Stage
    requires j < |s.jobs|
  {
    match s.jobs[j].status
    case Waiting => Early
    case Cancelled => Early
    case Finished => Done
    case Running(t, entered) =>
      if t >= |s.threads| || !entered then Early
      else if s.threads[t].frames == [] then Done
      else
        match s.threads[t].frames[0].phase
        case Ended(raised) => Returned(raised)
        case Settled(committed) => Decided(committed)
        case _ => Early
  }

  /** What the run has shown of job `j` so far fits its stage. */
  ghost predicate Fits(s: State, j: nat, raised: set<bool>, failed: set<bool>)
    requires j < |s.jobs|
  {
    var job := s.jobs[j];
    match StageOf(s, j)
    case Early => raised == {} && failed == {}
    case Returned(r) => raised == {r} && failed == {}
    case Decided(c) => exists r, f :: raised == {r} && failed == {f} && c == (!r && !f)
    case Done =>
      if job.broken then raised == {} && failed == {}
      else if job.write then exists r, f :: raised == {r} && failed == {f} && job.commits == (if !r && !f then 1 else 0)
      else failed == {} && exists r :: raised == {r}
  }

  ghost predicate Known(s: State, j: nat, raised: set<bool>, failed: set<bool>) {
    if j < |s.jobs| then Fits(s, j, raised, failed) else raised == {} && failed == {}
  }

  /** The thread of a job under way is its own. */
  lemma OwnThread(s: State, t: nat, j: nat)
    requires Safe(s) && t < |s.threads| && s.threads[t].job == Some(j)
    ensures j < |s.jobs| && s.jobs[j].status.Running? && s.jobs[j].status.thread == t && JobOk(s, j)
  {
    assert s.threads[t].job.Some?;
  }

  /** A thread that does not act keeps the stage of its job; so does an action that does not end,
      decide or leave the job's own operation. */
  lemma EndStage(s: State, a: Action, j: nat)
    requires Safe(s) && EndsFunction(s, a, j)
    ensures j < |s.jobs| && StageOf(s, j) == Early
    ensures j < |Next(s, a).jobs| && StageOf(Next(s, a), j) == Returned(a.raised)
  {
    OwnThread(s, a.t, j);
    hide Safe;
  }

  lemma SettleStage(s: State, a: Action, j: nat)
    requires Safe(s) && EndsWrite(s, a, j)
    ensures j < |s.jobs| && StageOf(s, j).Returned?
    ensures j < |Next(s, a).jobs| && StageOf(Next(s, a), j) == Decided(!StageOf(s, j).raised && !a.commitFails)
  {
    OwnThread(s, a.t, j);
    hide Safe;
  }

  /** The job's own operation is left. */
  predicate LeavesOwn(s: State, a: Action, j: nat) {
    a.ALeave? && InOwnOperation(s, a.t, j) && CanLeave(s.threads[a.t].frames[0])
  }

  lemma LeaveStage(s: State, a: Action, j: nat)
    requires Safe(s) && LeavesOwn(s, a, j)
    ensures j < |s.jobs| && j < |Next(s, a).jobs| && StageOf(Next(s, a), j) == Done
    ensures var job, job' := s.jobs[j], Next(s, a).jobs[j];
      && job'.write == job.write && job'.commits == job.commits && !job.broken
      && match StageOf(s, j)
         case Early => job'.broken
         case Returned(_) => !job'.broken && !job.write
         case Decided(c) => !job'.broken && job.write && job.commits == (if c then 1 else 0)
         case Done => false
  {
    var t := a.t;
    OwnThread(s, t, j);
    OperationsAreSound(s, t, 0);
    assert ThreadOk(s.threads[t], s.connections);
    assert FrameOk(s.threads[t].frames[0], true, true, true, s.connections);
    assert UnderWay(s.jobs[j], s.threads[t].frames[0]);
    hide Safe, ThreadOk;
    assert Next(s, a) == Leave(s, t) == Depart(ReportBroken(s, t), t);
  }

  /** The stage of a job, and what `Done` says about it, are as before. */
  ghost predicate StageStays(s: State, s': State, j: nat)
    requires j < |s.jobs|
  {
    && j < |s'.jobs| && StageOf(s', j) == StageOf(s, j)
    && (StageOf(s, j).Done? ==> s'.jobs[j] == s.jobs[j].(status := s'.jobs[j].status))
  }

  /** The job, and the operation its thread is in, are as before. */
  lemma UntouchedStays(s: State, s': State, j: nat)
    requires j < |s.jobs| && j < |s'.jobs| && s'.jobs[j] == s.jobs[j]
    requires s.jobs[j].status.Running? && s.jobs[j].status.thread < |s.threads| ==>
      var t := s.jobs[j].status.thread;
      t < |s'.threads|
      && (s'.threads[t].frames == [] <==> s.threads[t].frames == [])
      && (s.threads[t].frames != [] ==> s'.threads[t].frames[0] == s.threads[t].frames[0])
    requires |s'.threads| == |s.threads|
    ensures StageStays(s, s', j)
  {
  }

  lemma EnterStage(s: State, t: nat, write: bool, j: nat)
    requires Safe(s) && j < |s.jobs|
    ensures StageStays(s, Enter(s, t, write), j)
  {
    var s' := Enter(s, t, write);
    if s' != s {
      if s.threads[t].job.Some? { OwnThread(s, t, s.threads[t].job.value); }
      assert JobOk(s, j);
      hide Safe;
      if s.threads[t].job == Some(j) && s.threads[t].frames == [] {
        assert s'.jobs[j].status == Running(t, true) && s'.threads[t].frames[0].phase.Opening?;
      } else {
        UntouchedStays(s, s', j);
      }
    }
  }

  /** The phase of the top frame changes, not of an own operation beyond what counts as early. */
  lemma TopStays(s: State, s': State, t: nat, j: nat)
    requires Safe(s) && j < |s.jobs| && HasTop(s, t) && HasTop(s', t)
    requires |s'.threads| == |s.threads| && s'.threads == s.threads[t := s'.threads[t]]
    requires s'.threads[t].frames == s.threads[t].frames[|s.threads[t].frames| - 1 := Top(s', t)]
    requires j < |s'.jobs| && s'.jobs[j].status == s.jobs[j].status
    requires StageOf(s, j).Done? ==> s'.jobs[j] == s.jobs[j]
    requires InOwnOperation(s, t, j) ==>
      !Top(s, t).phase.Ended? && !Top(s, t).phase.Settled? && !Top(s', t).phase.Ended? && !Top(s', t).phase.Settled?
    ensures StageStays(s, s', j)
  {
    assert JobOk(s, j);
    hide Safe;
  }

  lemma ConnectStage(s: State, t: nat, j: nat)
    requires Safe(s) && j < |s.jobs|
    ensures StageStays(s, Connect(s, t), j)
  {
    if Connect(s, t) != s { TopStays(s, Connect(s, t), t, j); }
    hide Safe;
  }

  lemma TakeLockStage(s: State, t: nat, j: nat)
    requires Safe(s) && j < |s.jobs|
    ensures StageStays(s, TakeLock(s, t), j)
  {
    if TakeLock(s, t) != s { TopStays(s, TakeLock(s, t), t, j); }
    hide Safe;
  }

  lemma CallStage(s: State, t: nat, j: nat)
    requires Safe(s) && j < |s.jobs|
    ensures StageStays(s, Call(s, t), j)
  {
    if Call(s, t) != s {
      if s.threads[t].job.Some? { OwnThread(s, t, s.threads[t].job.value); }
      CallChanges(s, t, j);
      TopStays(s, Call(s, t), t, j);
    }
    hide Safe;
  }

  lemma CallChanges(s: State, t: nat, j: nat)
    requires Call(s, t) != s && j < |s.jobs|
    ensures var s' := Call(s, t);
      && HasTop(s, t) && HasTop(s', t) && |s'.threads| == |s.threads| && s'.threads == s.threads[t := s'.threads[t]]
      && s'.threads[t].frames == s.threads[t].frames[|s.threads[t].frames| - 1 := Top(s', t)]
      && Top(s', t).phase.InBody? && !Top(s, t).phase.Ended? && !Top(s, t).phase.Settled?
      && j < |s'.jobs| && s'.jobs[j].status == s.jobs[j].status
      && (!InOwnOperation(s, t, j) ==> s'.jobs[j] == s.jobs[j])
  {
  }

  lemma EndCallStage(s: State, t: nat, raised: bool, j: nat)
    requires Safe(s) && j < |s.jobs| && !EndsFunction(s, AEndCall(t, raised), j)
    ensures StageStays(s, EndCall(s, t, raised), j)
  {
    if EndCall(s, t, raised) != s { TopStays(s, EndCall(s, t, raised), t, j); }
    hide Safe;
  }

  lemma SettleOtherStage(s: State, t: nat, commitFails: bool, j: nat)
    requires Safe(s) && j < |s.jobs| && !EndsWrite(s, ASettle(t, commitFails), j)
    ensures StageStays(s, Settle(s, t, commitFails), j)
  {
    if Settle(s, t, commitFails) != s {
      if s.threads[t].job.Some? { OwnThread(s, t, s.threads[t].job.value); }
      SettleChanges(s, t, commitFails, j);
      TopStays(s, Settle(s, t, commitFails), t, j);
    }
    hide Safe;
  }

  lemma SettleChanges(s: State, t: nat, commitFails: bool, j: nat)
    requires Settle(s, t, commitFails) != s && j < |s.jobs|
    ensures var s' := Settle(s, t, commitFails);
      && HasTop(s, t) && HasTop(s', t) && |s'.threads| == |s.threads| && s'.threads == s.threads[t := s'.threads[t]]
      && s'.threads[t].frames == s.threads[t].frames[|s.threads[t].frames| - 1 := Top(s', t)]
      && Top(s, t).write && Top(s, t).phase.Ended?
      && j < |s'.jobs| && s'.jobs[j].status == s.jobs[j].status
      && (!InOwnOperation(s, t, j) ==> s'.jobs[j] == s.jobs[j])
  {
  }

  lemma LeaveOtherStage(s: State, t: nat, j: nat)
    requires Safe(s) && j < |s.jobs| && !LeavesOwn(s, ALeave(t), j)
    ensures StageStays(s, Leave(s, t), j)
  {
    var s' := Leave(s, t);
    if s' != s {
      if s.threads[t].job.Some? { OwnThread(s, t, s.threads[t].job.value); }
      assert JobOk(s, j);
      hide Safe;
      UntouchedStays(s, s', j);
    }
  }

  lemma SubmitStage(s: State, write: bool, j: nat)
    requires j < |s.jobs|
    ensures StageStays(s, Submit(s, write), j)
  {
    UntouchedStays(s, Submit(s, write), j);
  }

  lemma StartStage(s: State, i: nat, t: nat, j: nat)
    requires Safe(s) && j < |s.jobs|
    ensures StageStays(s, StartJob(s, i, t), j)
  {
    assert JobOk(s, j);
    hide Safe;
    if i != j { UntouchedStays(s, StartJob(s, i, t), j); }
  }

  lemma FinishStage(s: State, t: nat, j: nat)
    requires Safe(s) && j < |s.jobs|
    ensures StageStays(s, FinishJob(s, t), j)
  {
    var s' := FinishJob(s, t);
    assert JobOk(s, j);
    if s' != s {
      OwnThread(s, t, s.threads[t].job.value);
      hide Safe;
      if s.threads[t].job != Some(j) { UntouchedStays(s, s', j); }
    }
  }

  lemma CancelStage(s: State, i: nat, j: nat)
    requires j < |s.jobs|
    ensures StageStays(s, CancelCaller(s, i), j)
  {
    if i != j { UntouchedStays(s, CancelCaller(s, i), j); }
  }

  lemma BeginCloseStage(s: State, t: nat, j: nat)
    requires j < |s.jobs|
    ensures StageStays(s, BeginClose(s, t), j)
  {
    UntouchedStays(s, BeginClose(s, t), j);
  }

  lemma ShutDownStage(s: State, j: nat)
    requires j < |s.jobs|
    ensures StageStays(s, ShutDown(s), j)
  {
    UntouchedStays(s, ShutDown(s), j);
  }

  lemma CloseStage(s: State, j: nat)
    requires Safe(s) && j < |s.jobs|
    ensures StageStays(s, CloseConnections(s), j)
  {
    Quiet(s);
    assert JobOk(s, j);
    hide Safe;
  }

  /** Every other action leaves the stage of a job, and what `Done` says about it, as it is. */
  lemma OtherStage(s: State, a: Action, j: nat)
    requires Safe(s) && j < |s.jobs| && !EndsFunction(s, a, j) && !EndsWrite(s, a, j) && !LeavesOwn(s, a, j)
    ensures StageStays(s, Next(s, a), j)
  {
    match a {
      case AEnter(t, write) => EnterStage(s, t, write, j);
      case AConnect(t) => ConnectStage(s, t, j);
      case ATakeLock(t) => TakeLockStage(s, t, j);
      case ACall(t) => CallStage(s, t, j);
      case AEndCall(t, raised) => EndCallStage(s, t, raised, j);
      case ASettle(t, commitFails) => SettleOtherStage(s, t, commitFails, j);
      case ALeave(t) => LeaveOtherStage(s, t, j);
      case ACloseConnections => CloseStage(s, j);
      case ASubmit(write) => SubmitStage(s, write, j);
      case AStartJob(i, t) => StartStage(s, i, t, j);
      case AFinishJob(t) => FinishStage(s, t, j);
      case ACancelCaller(i) => CancelStage(s, i, j);
      case ABeginClose(t) => BeginCloseStage(s, t, j);
      case AShutDown => ShutDownStage(s, j);
    }
    hide Safe, StageStays, Enter, Connect, TakeLock, Call, EndCall, Settle, Leave, CloseConnections,
         Submit, StartJob, FinishJob, CancelCaller, BeginClose, ShutDown, EndsFunction, EndsWrite, LeavesOwn;
  }

  // ---------- over whole runs ----------

  lemma EndKnown(s: State, a: Action, j: nat, raised: set<bool>, failed: set<bool>)
    requires Safe(s) && Known(s, j, raised, failed) && EndsFunction(s, a, j)
    ensures Known(Next(s, a), j, raised + {a.raised}, failed)
  {
    EndStage(s, a, j);
    hide Safe, Next, StageOf, EndsFunction;
    assert raised + {a.raised} == {a.raised};
  }

  lemma SettleKnown(s: State, a: Action, j: nat, raised: set<bool>, failed: set<bool>)
    requires Safe(s) && Known(s, j, raised, failed) && EndsWrite(s, a, j)
    ensures Known(Next(s, a), j, raised, failed + {a.commitFails})
  {
    SettleStage(s, a, j);
    hide Safe, Next, StageOf, EndsWrite;
    assert failed + {a.commitFails} == {a.commitFails};
  }

  lemma LeaveKnown(s: State, a: Action, j: nat, raised: set<bool>, failed: set<bool>)
    requires Safe(s) && Known(s, j, raised, failed) && LeavesOwn(s, a, j)
    ensures Known(Next(s, a), j, raised, failed)
  {
    LeaveStage(s, a, j);
    hide Safe, Next, StageOf, LeavesOwn;
  }

  lemma OtherKnown(s: State, a: Action, j: nat, raised: set<bool>, failed: set<bool>)
    requires Safe(s) && j < |s.jobs| && !EndsFunction(s, a, j) && !EndsWrite(s, a, j) && !LeavesOwn(s, a, j)
    requires Known(s, j, raised, failed)
    ensures Known(Next(s, a), j, raised, failed)
  {
    OtherStage(s, a, j);
    hide Safe, Next, StageOf, LeavesOwn, EndsFunction, EndsWrite;
  }

  /** A job that is not there yet is at best waiting after the step. */
  lemma NewKnown(s: State, a: Action, j: nat)
    requires Safe(s) && |s.jobs| <= j
    ensures !EndsFunction(s, a, j) && !EndsWrite(s, a, j) && Known(Next(s, a), j, {}, {})
  {
    if a.AEndCall? && InOwnOperation(s, a.t, j) { OwnThread(s, a.t, j); }
    if a.ASettle? && InOwnOperation(s, a.t, j) { OwnThread(s, a.t, j); }
    KindsStay(s, a);
    if a.ASubmit? { SubmitLaw(s, a.write); }
    hide Safe, Next;
  }

  lemma StepKnown(s: State, a: Action, j: nat, raised: set<bool>, failed: set<bool>)
    requires Safe(s) && Known(s, j, raised, failed)
    ensures Known(Next(s, a), j,
                  raised + (if EndsFunction(s, a, j) then {a.raised} else {}),
                  failed + (if EndsWrite(s, a, j) then {a.commitFails} else {}))
  {
    hide Safe, Next, InOwnOperation, LeavesOwn;
    assert raised + {} == raised && failed + {} == failed;
    if j >= |s.jobs| {
      NewKnown(s, a, j);
    } else {
      hide Known;
      if EndsFunction(s, a, j) { EndKnown(s, a, j, raised, failed); }
      else if EndsWrite(s, a, j) { SettleKnown(s, a, j, raised, failed); }
      else if LeavesOwn(s, a, j) { LeaveKnown(s, a, j, raised, failed); }
      else { OtherKnown(s, a, j, raised, failed); }
    }
  }

  lemma {:induction false} RunKnown(threads: nat, creator: nat, actions: seq<Action>, j: nat)
    requires creator < threads
    ensures var s0 := Initial(threads, creator);
      Known(Execute(s0, actions), j, Raised(s0, actions, j), CommitFailed(s0, actions, j))
  {
    if actions != [] {
      var s0, p := Initial(threads, creator), actions[..|actions| - 1];
      RunKnown(threads, creator, p, j);
      ReachableIsSafe(threads, creator, p);
      StepKnown(Execute(s0, p), actions[|actions| - 1], j, Raised(s0, p, j), CommitFailed(s0, p, j));
      hide Next, Safe, Known, EndsFunction, EndsWrite, Initial;
    }
  }

  /** What the actions of the run have shown of a finished write. */
  ghost predicate EndedAsItRan(job: Job, raised: set<bool>, failed: set<bool>) {
    if raised == {} then job.broken && job.commits == 0 && job.rollbacks == 0
    else
      && (raised == {true} || raised == {false}) && (failed == {true} || failed == {false})
      && job.commits == (if raised == {false} && failed == {false} then 1 else 0)
      && job.rollbacks == 1 - job.commits
  }

  lemma SetOf(flag: bool)
    ensures {flag} == {true} <==> flag
    ensures {flag} == {false} <==> !flag
  {
    assert flag in {flag} && (true in {false} <==> false);
  }

  lemma OnceEach(job: Job, r: bool, f: bool)
    requires !job.broken && job.commits == (if !r && !f then 1 else 0) && job.commits + job.rollbacks == 1
    ensures EndedAsItRan(job, {r}, {f})
  {
    SetOf(r);
    SetOf(f);
    assert r in {r};
  }

  /** What a finished write and the actions seen so far have to do with each other. */
  lemma FinishedWrite(s: State, j: nat, raised: set<bool>, failed: set<bool>)
    requires j < |s.jobs| && Known(s, j, raised, failed) && s.jobs[j].write && s.jobs[j].status == Finished
    ensures if s.jobs[j].broken then raised == {} && failed == {}
      else exists r, f :: raised == {r} && failed == {f} && s.jobs[j].commits == (if !r && !f then 1 else 0)
  {
  }

  lemma NeverEnded(job: Job)
    requires Complete(job) && job.broken
    ensures EndedAsItRan(job, {}, {})
  {
  }

  lemma EndedOnce(job: Job, raised: set<bool>, failed: set<bool>)
    requires Complete(job) && job.write && !job.broken
    requires exists r, f :: raised == {r} && failed == {f} && job.commits == (if !r && !f then 1 else 0)
    ensures EndedAsItRan(job, raised, failed)
  {
    hide EndedAsItRan;
    var r, f :| raised == {r} && failed == {f} && job.commits == (if !r && !f then 1 else 0);
    OnceEach(job, r, f);
  }

  lemma FinishedFits(s: State, j: nat, raised: set<bool>, failed: set<bool>)
    requires j < |s.jobs| && JobOk(s, j) && Known(s, j, raised, failed)
    requires s.jobs[j].write && s.jobs[j].status == Finished
    ensures EndedAsItRan(s.jobs[j], raised, failed)
  {
    var job := s.jobs[j];
    FinishedWrite(s, j, raised, failed);
    assert Complete(job);
    hide Known, JobOk, EndedAsItRan, Complete;
    if job.broken { NeverEnded(job); } else { EndedOnce(job, raised, failed); }
  }

  /** A write job that has finished ended its function once and its write once; it is committed if
      neither its function raised nor its commit failed in these actions, and rolled back otherwise.
      The only exception is a job whose cursor could not be opened: its function never ended. */
  lemma WriteEndsAsItRan(threads: nat, creator: nat, actions: seq<Action>, j: nat)
    requires creator < threads
    requires var s := Execute(Initial(threads, creator), actions);
      j < |s.jobs| && s.jobs[j].write && s.jobs[j].status == Finished
    ensures var s0 := Initial(threads, creator);
      EndedAsItRan(Execute(s0, actions).jobs[j], Raised(s0, actions, j), CommitFailed(s0, actions, j))
  {
    RunKnown(threads, creator, actions, j);
    ReachableIsSafe(threads, creator, actions);
    var s0 := Initial(threads, creator);
    assert JobOk(Execute(s0, actions), j);
    FinishedFits(Execute(s0, actions), j, Raised(s0, actions, j), CommitFailed(s0, actions, j));
    hide Safe, JobOk, Known, EndedAsItRan, Next, Execute, Initial, Raised, CommitFailed;
  }

  // ---------- progress ----------

  /** The steps of one job on worker thread `t`, from its submission to its end. */
  function JobRun(j: nat, t: nat, write: bool, raised: bool, commitFails: bool): seq<Action> {
    var begin := [ASubmit(write), AStartJob(j, t), AEnter(t, write), AConnect(t)];
    if write then begin + [ATakeLock(t), ACall(t), AEndCall(t, raised), ASettle(t, commitFails), ALeave(t), AFinishJob(t)]
    else begin + [ACall(t), AEndCall(t, raised), ALeave(t), AFinishJob(t)]
  }

  /** Thread `t` is in the operation of the job submitted after the jobs `before`. */
  ghost predicate InJob(s: State, before: seq<Job>, t: nat, phase: Phase, job: Job) {
    && t < |s.threads| && s.threads[t].job == Some(|before|) && s.threads[t].allow && s.active > 0
    && |s.threads[t].frames| == 1 && s.threads[t].frames[0].write == job.write && s.threads[t].frames[0].phase == phase
    && s.jobs == before + [job] && job.status == Running(t, true)
  }

  lemma JobBegins(s: State, t: nat, write: bool)
    requires s.accepting && t < |s.threads| && s.threads[t].job.None? && s.threads[t].frames == []
    ensures var s' := Next(Next(Next(s, ASubmit(write)), AStartJob(|s.jobs|, t)), AEnter(t, write));
      InJob(s', s.jobs, t, Opening, Job(write, Running(t, true), 0, 0, 0, false)) && s'.lock == s.lock && |s'.threads| == |s.threads|
  {
    var j := |s.jobs|;
    var s1 := Next(s, ASubmit(write));
    assert s1.jobs == s.jobs + [Job(write, Waiting, 0, 0, 0, false)] && s1.threads == s.threads && s1.lock == s.lock;
    var s2 := Next(s1, AStartJob(j, t));
    assert s2.jobs == s.jobs + [Job(write, Running(t, false), 0, 0, 0, false)] && s2.lock == s.lock;
    assert s2.threads[t].job == Some(j) && s2.threads[t].frames == [] && s2.threads[t].allow;
    hide Submit, StartJob;
    var s3 := Next(s2, AEnter(t, write));
    assert s3.jobs == s.jobs + [Job(write, Running(t, true), 0, 0, 0, false)];
  }

  lemma JobConnects(s: State, before: seq<Job>, t: nat, job: Job)
    requires InJob(s, before, t, Opening, job)
    ensures var s' := Next(s, AConnect(t));
      InJob(s', before, t, Connected, job) && s'.lock == s.lock && |s'.threads| == |s.threads|
  {
  }

  lemma JobLocks(s: State, before: seq<Job>, t: nat, job: Job)
    requires InJob(s, before, t, Connected, job) && job.write && s.lock.None?
    ensures InJob(Next(s, ATakeLock(t)), before, t, Locked, job)
  {
  }

  lemma JobCalls(s: State, before: seq<Job>, t: nat, job: Job)
    requires InJob(s, before, t, if job.write then Locked else Connected, job)
    ensures InJob(Next(s, ACall(t)), before, t, InBody, job.(calls := job.calls + 1))
  {
    assert Next(s, ACall(t)).jobs == before + [job.(calls := job.calls + 1)];
  }

  lemma JobReturns(s: State, before: seq<Job>, t: nat, job: Job, raised: bool)
    requires InJob(s, before, t, InBody, job)
    ensures InJob(Next(s, AEndCall(t, raised)), before, t, Ended(raised), job)
  {
  }

  lemma JobSettles(s: State, before: seq<Job>, t: nat, job: Job, raised: bool, commitFails: bool)
    requires InJob(s, before, t, Ended(raised), job) && job.write
    ensures var committed := !raised && !commitFails;
      InJob(Next(s, ASettle(t, commitFails)), before, t, Settled(committed),
            if committed then job.(commits := job.commits + 1) else job.(rollbacks := job.rollbacks + 1))
  {
    var job' := if !raised && !commitFails then job.(commits := job.commits + 1) else job.(rollbacks := job.rollbacks + 1);
    assert Next(s, ASettle(t, commitFails)).jobs == before + [job'];
  }

  lemma JobLeaves(s: State, before: seq<Job>, t: nat, phase: Phase, job: Job)
    requires InJob(s, before, t, phase, job) && (if job.write then phase.Settled? else phase.Ended?)
    ensures var s' := Next(s, ALeave(t));
      && s'.jobs == s.jobs && |s'.threads| == |s.threads|
      && s'.threads[t].frames == [] && s'.threads[t].job == Some(|before|)
  {
  }

  lemma JobFinishes(s: State, before: seq<Job>, t: nat, job: Job)
    requires t < |s.threads| && s.threads[t].frames == [] && s.threads[t].job == Some(|before|)
    requires s.jobs == before + [job] && job.status == Running(t, true)
    ensures var s' := Next(s, AFinishJob(t));
      && s'.jobs == before + [job.(status := Finished)]
      && |s'.threads| == |s.threads| && s'.threads[t].job.None? && s'.threads[t].frames == [] && !s'.threads[t].allow
  {
    assert Next(s, AFinishJob(t)).jobs == before + [job.(status := Finished)];
  }

  lemma JobEnds(s: State, before: seq<Job>, t: nat, phase: Phase, job: Job)
    requires InJob(s, before, t, phase, job) && (if job.write then phase.Settled? else phase.Ended?)
    ensures var s' := Next(Next(s, ALeave(t)), AFinishJob(t));
      && s'.jobs == before + [job.(status := Finished)]
      && |s'.threads| == |s.threads| && s'.threads[t].job.None? && s'.threads[t].frames == [] && !s'.threads[t].allow
  {
    hide Next;
    JobLeaves(s, before, t, phase, job);
    JobFinishes(Next(s, ALeave(t)), before, t, job);
  }

  lemma Then(s: State, actions: seq<Action>, a: Action)
    ensures Execute(s, actions + [a]) == Next(Execute(s, actions), a)
  {
    assert (actions + [a])[..|actions|] == actions;
    hide Next;
  }

  lemma {:induction false} Follow(s: State, first: seq<Action>, rest: seq<Action>)
    ensures Execute(s, first + rest) == Execute(Execute(s, first), rest)
  {
    hide Next;
    if rest == [] {
      assert first + rest == first;
    } else {
      var n := |rest| - 1;
      assert (first + rest)[..|first| + n] == first + rest[..n];
      Follow(s, first, rest[..n]);
    }
  }

  lemma Four(s: State, a: Action, b: Action, c: Action, d: Action)
    ensures Execute(s, [a, b, c, d]) == Next(Next(Next(Next(s, a), b), c), d)
  {
    hide Next;
    assert [a, b, c, d] == [] + [a] + [b] + [c] + [d];
    Then(s, [], a);
    Then(s, [] + [a], b);
    Then(s, [] + [a] + [b], c);
    Then(s, [] + [a] + [b] + [c], d);
  }

  lemma Two(s: State, a: Action, b: Action)
    ensures Execute(s, [a, b]) == Next(Next(s, a), b)
  {
    hide Next;
    assert [a, b] == [] + [a] + [b];
    Then(s, [], a);
    Then(s, [] + [a], b);
  }

  /** Whenever submissions are accepted, a worker thread is idle and the write lock is free, a
      function submitted can run to its end: it is called once, and a write is committed if neither
      it nor its commit raised and rolled back otherwise; the other jobs are as they were. */
  lemma JobRunsThrough(s: State, t: nat, write: bool, raised: bool, commitFails: bool)
    requires s.accepting && t < |s.threads| && s.threads[t].job.None? && s.threads[t].frames == []
    requires write ==> s.lock.None?
    ensures var s' := Execute(s, JobRun(|s.jobs|, t, write, raised, commitFails));
      && s'.jobs == s.jobs + [Job(write, Finished, 1, if write && !raised && !commitFails then 1 else 0,
                                  if write && (raised || commitFails) then 1 else 0, false)]
      && t < |s'.threads| && s'.threads[t].job.None? && s'.threads[t].frames == [] && !s'.threads[t].allow
  {
    var j := |s.jobs|;
    var job := Job(write, Running(t, true), 0, 0, 0, false);
    var begin := [ASubmit(write), AStartJob(j, t), AEnter(t, write), AConnect(t)];
    JobOpens(s, t, write);
    hide Next, Execute, InJob;
    var middle := if write then [ATakeLock(t), ACall(t), AEndCall(t, raised), ASettle(t, commitFails)]
                  else [ACall(t), AEndCall(t, raised)];
    var end, committed := [ALeave(t), AFinishJob(t)], !raised && !commitFails;
    assert JobRun(j, t, write, raised, commitFails) == begin + middle + end;
    Follow(s, begin, middle);
    Follow(s, begin + middle, end);
    Two(Execute(s, begin + middle), ALeave(t), AFinishJob(t));
    if write {
      WriteRuns(Execute(s, begin), s.jobs, t, job, raised, commitFails);
      JobEnds(Execute(s, begin + middle), s.jobs, t, Settled(committed),
              job.(calls := 1, commits := if committed then 1 else 0, rollbacks := if committed then 0 else 1));
    } else {
      ReadRuns(Execute(s, begin), s.jobs, t, job, raised);
      JobEnds(Execute(s, begin + middle), s.jobs, t, Ended(raised), job.(calls := 1));
    }
  }

  lemma JobOpens(s: State, t: nat, write: bool)
    requires s.accepting && t < |s.threads| && s.threads[t].job.None? && s.threads[t].frames == []
    ensures var s' := Execute(s, [ASubmit(write), AStartJob(|s.jobs|, t), AEnter(t, write), AConnect(t)]);
      && |s'.threads| == |s.threads| && s'.lock == s.lock
      && InJob(s', s.jobs, t, Connected, Job(write, Running(t, true), 0, 0, 0, false))
  {
    var j := |s.jobs|;
    Four(s, ASubmit(write), AStartJob(j, t), AEnter(t, write), AConnect(t));
    JobBegins(s, t, write);
    var s3 := Next(Next(Next(s, ASubmit(write)), AStartJob(j, t)), AEnter(t, write));
    JobConnects(s3, s.jobs, t, Job(write, Running(t, true), 0, 0, 0, false));
    hide Next, Execute, InJob;
  }

  lemma WriteRuns(s: State, before: seq<Job>, t: nat, job: Job, raised: bool, commitFails: bool)
    requires InJob(s, before, t, Connected, job) && job == Job(true, Running(t, true), 0, 0, 0, false) && s.lock.None?
    ensures var committed := !raised && !commitFails;
      InJob(Execute(s, [ATakeLock(t), ACall(t), AEndCall(t, raised), ASettle(t, commitFails)]), before, t, Settled(committed),
            job.(calls := 1, commits := if committed then 1 else 0, rollbacks := if committed then 0 else 1))
  {
    hide Next, Execute, InJob;
    Four(s, ATakeLock(t), ACall(t), AEndCall(t, raised), ASettle(t, commitFails));
    var s1 := Next(s, ATakeLock(t));
    var s2 := Next(s1, ACall(t));
    JobLocks(s, before, t, job);
    JobCalls(s1, before, t, job);
    JobReturns(s2, before, t, job.(calls := 1), raised);
    JobSettles(Next(s2, AEndCall(t, raised)), before, t, job.(calls := 1), raised, commitFails);
  }

  lemma ReadRuns(s: State, before: seq<Job>, t: nat, job: Job, raised: bool)
    requires InJob(s, before, t, Connected, job) && job == Job(false, Running(t, true), 0, 0, 0, false)
    ensures InJob(Execute(s, [ACall(t), AEndCall(t, raised)]), before, t, Ended(raised), job.(calls := 1))
  {
    hide Next, Execute, InJob;
    Two(s, ACall(t), AEndCall(t, raised));
    JobCalls(s, before, t, job);
    JobReturns(Next(s, ACall(t)), before, t, job.(calls := 1), raised);
  }
}
