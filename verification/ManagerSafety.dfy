/**
 What every reachable state of the database manager guarantees: the count of active operations
 is exact, `close` closes every connection and no connection in use, and every accepted write
 runs to its commit or rollback before `close` returns.
 */
module ManagerSafety {
  import opened Wrappers
  import opened ManagerMachine

  /** Open operations, summed over threads and nesting. */
  function OpenOperations(threads: seq<Thread>): nat {
    if threads == [] then 0 else |threads[0].frames| + OpenOperations(threads[1..])
  }

  lemma {:induction false} OpenOperationsUpdate(threads: seq<Thread>, t: nat, th: Thread)
    requires t < |threads|
    ensures OpenOperations(threads[t := th]) == OpenOperations(threads) - |threads[t].frames| + |th.frames|
  {
    var updated := threads[t := th];
    if t == 0 {
      assert updated[1..] == threads[1..];
    } else {
      assert updated[1..] == threads[1..][t - 1 := th];
      OpenOperationsUpdate(threads[1..], t - 1, th);
    }
  }

  lemma {:induction false} NoOpenOperations(threads: seq<Thread>)
    requires OpenOperations(threads) == 0
    ensures forall t | 0 <= t < |threads| :: threads[t].frames == []
  {
    if threads != [] {
      NoOpenOperations(threads[1..]);
      forall t | 0 <= t < |threads| ensures threads[t].frames == [] {
        if t > 0 { assert threads[t] == threads[1..][t - 1]; }
      }
    }
  }

  // ---------- the invariant ----------

  ghost predicate FrameOk(f: Frame, first: bool, top: bool, inJob: bool, connections: set<nat>) {
    && f.prior == (if first then inJob else true)
    && (!top ==> f.phase.InBody?)
    && (f.conn.Some? <==> !f.phase.Opening?)
    && (f.conn.Some? ==> f.conn.value in connections)
    && (!f.write ==> !f.phase.Locked? && !f.phase.Settled?)
  }

  /** The admission flag is set exactly inside an operation or a job, and every connection in
      use is still tracked. */
  ghost predicate ThreadOk(th: Thread, connections: set<nat>) {
    && (th.allow <==> th.job.Some? || th.frames != [])
    && (th.conn.Some? ==> th.conn.value in connections)
    && forall i | 0 <= i < |th.frames| ::
         FrameOk(th.frames[i], i == 0, i == |th.frames| - 1, th.job.Some?, connections)
  }

  ghost predicate ThreadsOk(s: State) {
    forall t | 0 <= t < |s.threads| :: ThreadOk(s.threads[t], s.connections)
  }

  /** A connection ever made is tracked or closed, never both. */
  ghost predicate ConnectionsOk(s: State) {
    && s.connections !! s.closed
    && forall c: nat :: c < s.nextConn <==> c in s.connections || c in s.closed
  }

  ghost predicate CountOk(s: State) {
    s.active == OpenOperations(s.threads)
  }

  /** The write lock belongs to the one thread that has a write under way. */
  ghost predicate LockOk(s: State) {
    forall t | 0 <= t < |s.threads| :: AnyLocked(s.threads[t].frames) <==> s.lock == Some(t)
  }

  ghost predicate CloseOk(s: State) {
    && (s.accepting <==> !s.closing)
    && (s.executorDown ==> s.closing && forall j | 0 <= j < |s.jobs| :: Over(s.jobs[j]))
    && (s.finished ==> s.executorDown && s.active == 0 && s.connections == {})
  }

  lemma ThreadsStay(s: State, s': State, t: nat)
    requires ThreadsOk(s) && t < |s.threads| && s'.connections >= s.connections
    requires |s'.threads| == |s.threads| && s'.threads == s.threads[t := s'.threads[t]]
    requires ThreadOk(s'.threads[t], s'.connections)
    ensures ThreadsOk(s')
  {
  }

  lemma EnterKeepsThreads(s: State, t: nat, write: bool)
    requires ThreadsOk(s)
    ensures ThreadsOk(Enter(s, t, write))
  {
    if Enter(s, t, write) != s { ThreadsStay(s, Enter(s, t, write), t); }
  }

  lemma ConnectKeepsThreads(s: State, t: nat)
    requires ThreadsOk(s) && ConnectionsOk(s)
    ensures ThreadsOk(Connect(s, t)) && ConnectionsOk(Connect(s, t))
  {
    if Connect(s, t) != s { ThreadsStay(s, Connect(s, t), t); }
  }

  lemma PhaseKeepsThreads(s: State, s': State, t: nat, phase: Phase)
    requires ThreadsOk(s) && HasTop(s, t) && !Top(s, t).phase.Opening? && !phase.Opening?
    requires !Top(s, t).write ==> !phase.Locked? && !phase.Settled?
    requires s'.threads == PutTop(s, t, Top(s, t).(phase := phase)).threads && s'.connections == s.connections
    ensures ThreadsOk(s')
  {
    ThreadsStay(s, s', t);
  }

  lemma TakeLockKeepsThreads(s: State, t: nat)
    requires ThreadsOk(s)
    ensures ThreadsOk(TakeLock(s, t))
  {
    if TakeLock(s, t) != s { PhaseKeepsThreads(s, TakeLock(s, t), t, Locked); }
    hide ThreadsOk;
  }

  lemma CallKeepsThreads(s: State, t: nat)
    requires ThreadsOk(s)
    ensures ThreadsOk(Call(s, t))
  {
    if Call(s, t) != s { PhaseKeepsThreads(s, Call(s, t), t, InBody); }
    hide ThreadsOk;
  }

  lemma EndCallKeepsThreads(s: State, t: nat, raised: bool)
    requires ThreadsOk(s)
    ensures ThreadsOk(EndCall(s, t, raised))
  {
    if EndCall(s, t, raised) != s { PhaseKeepsThreads(s, EndCall(s, t, raised), t, Ended(raised)); }
    hide ThreadsOk;
  }

  lemma SettleKeepsThreads(s: State, t: nat, commitFails: bool)
    requires ThreadsOk(s)
    ensures ThreadsOk(Settle(s, t, commitFails))
  {
    if Settle(s, t, commitFails) != s {
      PhaseKeepsThreads(s, Settle(s, t, commitFails), t, Settled(!Top(s, t).phase.raised && !commitFails));
    }
    hide ThreadsOk;
  }

  lemma LeaveKeepsThreads(s: State, t: nat)
    requires ThreadsOk(s)
    ensures ThreadsOk(Leave(s, t))
  {
    if Leave(s, t) != s { ThreadsStay(s, Leave(s, t), t); }
  }

  lemma StartJobKeepsThreads(s: State, j: nat, t: nat)
    requires ThreadsOk(s)
    ensures ThreadsOk(StartJob(s, j, t))
  {
    if StartJob(s, j, t) != s { ThreadsStay(s, StartJob(s, j, t), t); }
  }

  lemma FinishJobKeepsThreads(s: State, t: nat)
    requires ThreadsOk(s)
    ensures ThreadsOk(FinishJob(s, t))
  {
    if FinishJob(s, t) != s { ThreadsStay(s, FinishJob(s, t), t); }
  }

  // ---------- jobs ----------

  ghost predicate Untouched(job: Job) {
    job.calls == 0 && job.commits == 0 && job.rollbacks == 0 && !job.broken
  }

  /** Called once and, if it writes, committed or rolled back once; or never called because no
      cursor could be opened. */
  ghost predicate Complete(job: Job) {
    if job.broken then job.calls == 0 && job.commits == 0 && job.rollbacks == 0
    else job.calls == 1 && job.commits + job.rollbacks == (if job.write then 1 else 0)
  }

  /** A job whose own operation is open at `f`. */
  ghost predicate UnderWay(job: Job, f: Frame) {
    && f.write == job.write && !job.broken
    && job.calls == (if f.phase.InBody? || f.phase.Ended? || f.phase.Settled? then 1 else 0)
    && job.commits == (if f.phase.Settled? && f.phase.committed then 1 else 0)
    && job.rollbacks == (if f.phase.Settled? && !f.phase.committed then 1 else 0)
  }

  ghost predicate JobOk(s: State, j: nat)
    requires j < |s.jobs|
  {
    var job := s.jobs[j];
    match job.status
    case Waiting => Untouched(job)
    case Cancelled => Untouched(job) && !job.write
    case Finished => Complete(job)
    case Running(t, entered) =>
      && t < |s.threads| && s.threads[t].job == Some(j)
      && (if !entered then Untouched(job) && s.threads[t].frames == []
          else if s.threads[t].frames == [] then Complete(job)
          else UnderWay(job, s.threads[t].frames[0]))
  }

  ghost predicate JobsOk(s: State) {
    && (forall t | 0 <= t < |s.threads| && s.threads[t].job.Some? ::
          var j := s.threads[t].job.value;
          j < |s.jobs| && s.jobs[j].status.Running? && s.jobs[j].status.thread == t)
    && (forall j | 0 <= j < |s.jobs| :: JobOk(s, j))
  }

  /** A thread and its job refer to each other. */
  ghost predicate Bound(s: State, t: nat) {
    t < |s.threads| && s.threads[t].job.Some? ==>
      var j := s.threads[t].job.value;
      j < |s.jobs| && s.jobs[j].status.Running? && s.jobs[j].status.thread == t
  }

  lemma OwnJobOk(s: State, t: nat)
    requires JobsOk(s) && t < |s.threads|
    ensures Bound(s, t)
    ensures s.threads[t].job.Some? ==> JobOk(s, s.threads[t].job.value)
  {
  }

  /** A step of thread `t` in or around an operation concerns at most its own job. */
  lemma JobsStep(s: State, s': State, t: nat)
    requires JobsOk(s) && t < |s.threads| && |s'.threads| == |s.threads| && |s'.jobs| == |s.jobs|
    requires forall i | 0 <= i < |s.threads| && i != t :: s'.threads[i] == s.threads[i]
    requires forall j | 0 <= j < |s.jobs| && s.threads[t].job != Some(j) :: s'.jobs[j] == s.jobs[j]
    requires s'.threads[t].job == s.threads[t].job && Bound(s', t)
    requires s.threads[t].job.Some? ==> JobOk(s', s.threads[t].job.value)
    ensures JobsOk(s')
  {
    forall j | 0 <= j < |s'.jobs| ensures JobOk(s', j) {
      assert JobOk(s, j);
    }
  }

  lemma ConnectKeepsJobs(s: State, t: nat)
    requires JobsOk(s) && ThreadsOk(s)
    ensures JobsOk(Connect(s, t))
  {
    if Connect(s, t) != s {
      OwnJobOk(s, t);
      hide JobsOk, ThreadsOk;
      JobsStep(s, Connect(s, t), t);
    }
  }

  lemma TakeLockKeepsJobs(s: State, t: nat)
    requires JobsOk(s) && ThreadsOk(s)
    ensures JobsOk(TakeLock(s, t))
  {
    if TakeLock(s, t) != s {
      OwnJobOk(s, t);
      hide JobsOk, ThreadsOk;
      JobsStep(s, TakeLock(s, t), t);
    }
  }

  lemma CallKeepsJobs(s: State, t: nat)
    requires JobsOk(s) && ThreadsOk(s)
    ensures JobsOk(Call(s, t))
  {
    if Call(s, t) != s {
      OwnJobOk(s, t);
      hide JobsOk, ThreadsOk;
      JobsStep(s, Call(s, t), t);
    }
  }

  lemma EndCallKeepsJobs(s: State, t: nat, raised: bool)
    requires JobsOk(s) && ThreadsOk(s)
    ensures JobsOk(EndCall(s, t, raised))
  {
    if EndCall(s, t, raised) != s {
      OwnJobOk(s, t);
      hide JobsOk, ThreadsOk;
      JobsStep(s, EndCall(s, t, raised), t);
    }
  }

  lemma SettleKeepsJobs(s: State, t: nat, commitFails: bool)
    requires JobsOk(s) && ThreadsOk(s)
    ensures JobsOk(Settle(s, t, commitFails))
  {
    if Settle(s, t, commitFails) != s {
      OwnJobOk(s, t);
      hide JobsOk, ThreadsOk;
      JobsStep(s, Settle(s, t, commitFails), t);
    }
  }

  lemma EnterKeepsJobs(s: State, t: nat, write: bool)
    requires JobsOk(s)
    ensures JobsOk(Enter(s, t, write))
  {
    if Enter(s, t, write) != s {
      OwnJobOk(s, t);
      hide JobsOk;
      JobsStep(s, Enter(s, t, write), t);
    }
  }

  lemma LeaveOwnJob(s: State, t: nat)
    requires HasTop(s, t) && CanLeave(Top(s, t)) && s.active > 0
    requires s.threads[t].job.Some? && Bound(s, t) && JobOk(s, s.threads[t].job.value)
    requires ThreadOk(s.threads[t], s.connections)
    ensures Bound(Leave(s, t), t) && JobOk(Leave(s, t), s.threads[t].job.value)
  {
    var job := s.jobs[s.threads[t].job.value];
    var f := Top(s, t);
    assert Leave(s, t).threads[t].frames == s.threads[t].frames[..|s.threads[t].frames| - 1];
    if |s.threads[t].frames| > 1 {
      assert Leave(s, t).threads[t].frames[0] == s.threads[t].frames[0];
      assert Leave(s, t).jobs == s.jobs;
    } else {
      assert FrameOk(f, true, true, true, s.connections);
      assert UnderWay(job, f);
    }
  }

  lemma LeaveKeepsJobs(s: State, t: nat)
    requires JobsOk(s) && ThreadsOk(s)
    ensures JobsOk(Leave(s, t))
  {
    if Leave(s, t) != s {
      OwnJobOk(s, t);
      assert ThreadOk(s.threads[t], s.connections);
      if s.threads[t].job.Some? { LeaveOwnJob(s, t); }
      hide JobsOk, ThreadsOk, JobOk;
      JobsStep(s, Leave(s, t), t);
    }
  }

  lemma SubmitKeepsJobs(s: State, write: bool)
    requires JobsOk(s)
    ensures JobsOk(Submit(s, write))
  {
    var s' := Submit(s, write);
    forall j | 0 <= j < |s'.jobs| ensures JobOk(s', j) {
      if j < |s.jobs| { assert JobOk(s, j); }
    }
  }

  lemma StartJobKeepsJobs(s: State, j: nat, t: nat)
    requires JobsOk(s)
    ensures JobsOk(StartJob(s, j, t))
  {
    var s' := StartJob(s, j, t);
    forall k | 0 <= k < |s'.jobs| ensures JobOk(s', k) { assert JobOk(s, k); }
  }

  lemma FinishJobKeepsJobs(s: State, t: nat)
    requires JobsOk(s)
    ensures JobsOk(FinishJob(s, t))
  {
    var s' := FinishJob(s, t);
    forall k | 0 <= k < |s'.jobs| ensures JobOk(s', k) { assert JobOk(s, k); }
  }

  lemma CancelCallerKeepsJobs(s: State, j: nat)
    requires JobsOk(s)
    ensures JobsOk(CancelCaller(s, j))
  {
    var s' := CancelCaller(s, j);
    forall k | 0 <= k < |s'.jobs| ensures JobOk(s', k) { assert JobOk(s, k); }
  }

  // ---------- count, lock, close ----------

  lemma CountStep(s: State, s': State, t: nat)
    requires CountOk(s) && t < |s.threads| && |s'.threads| == |s.threads|
    requires s'.threads == s.threads[t := s'.threads[t]]
    requires s'.active as int - s.active as int == |s'.threads[t].frames| as int - |s.threads[t].frames| as int
    ensures CountOk(s')
  {
    OpenOperationsUpdate(s.threads, t, s'.threads[t]);
  }

  lemma {:induction false} SameFramesSameCount(a: seq<Thread>, b: seq<Thread>)
    requires |a| == |b| && forall t | 0 <= t < |a| :: a[t].frames == b[t].frames
    ensures OpenOperations(a) == OpenOperations(b)
  {
    if a != [] {
      SameFramesSameCount(a[1..], b[1..]);
    }
  }

  lemma LockStep(s: State, s': State, t: nat)
    requires LockOk(s) && t < |s.threads| && |s'.threads| == |s.threads|
    requires forall i | 0 <= i < |s.threads| && i != t :: s'.threads[i].frames == s.threads[i].frames
    requires AnyLocked(s'.threads[t].frames) <==> s'.lock == Some(t)
    requires forall i: nat | i != t :: (s'.lock == Some(i) <==> s.lock == Some(i))
    ensures LockOk(s')
  {
  }

  /** Replacing the top frame. */
  lemma TopLocked(frames: seq<Frame>, f: Frame)
    requires frames != []
    ensures AnyLocked(frames[|frames| - 1 := f]) <==> AnyLocked(frames[..|frames| - 1]) || f.HoldsLock()
    ensures AnyLocked(frames) <==> AnyLocked(frames[..|frames| - 1]) || frames[|frames| - 1].HoldsLock()
  {
    var last := |frames| - 1;
    var updated := frames[last := f];
    if AnyLocked(frames[..last]) {
      var i :| 0 <= i < last && frames[..last][i].HoldsLock();
      assert frames[i].HoldsLock() && updated[i].HoldsLock();
    }
    if f.HoldsLock() { assert updated[last].HoldsLock(); }
    if frames[last].HoldsLock() { assert AnyLocked(frames); }
    if AnyLocked(updated) {
      var i :| 0 <= i < |updated| && updated[i].HoldsLock();
      assert i < last ==> frames[..last][i].HoldsLock();
    }
    if AnyLocked(frames) {
      var i :| 0 <= i < |frames| && frames[i].HoldsLock();
      assert i < last ==> frames[..last][i].HoldsLock();
    }
  }

  lemma PushLocked(frames: seq<Frame>, f: Frame)
    requires !f.HoldsLock()
    ensures AnyLocked(frames + [f]) <==> AnyLocked(frames)
  {
    TopLocked(frames + [f], f);
    assert (frames + [f])[..|frames|] == frames;
  }

  // Each step of one thread keeps the count and the lock in step with its frames.

  lemma EnterKeepsCountAndLock(s: State, t: nat, write: bool)
    requires CountOk(s) && LockOk(s)
    ensures CountOk(Enter(s, t, write)) && LockOk(Enter(s, t, write))
  {
    var s' := Enter(s, t, write);
    if s' != s {
      assert AnyLocked(s.threads[t].frames) <==> s.lock == Some(t);
      PushLocked(s.threads[t].frames, Frame(s.threads[t].allow, write, None, Opening));
      hide AnyLocked, CountOk, LockOk, OpenOperations;
      CountStep(s, s', t);
      LockStep(s, s', t);
    }
  }

  lemma ConnectKeepsCountAndLock(s: State, t: nat)
    requires CountOk(s) && LockOk(s)
    ensures CountOk(Connect(s, t)) && LockOk(Connect(s, t))
  {
    var s' := Connect(s, t);
    if s' != s {
      assert AnyLocked(s.threads[t].frames) <==> s.lock == Some(t);
      TopLocked(s.threads[t].frames, s'.threads[t].frames[|s.threads[t].frames| - 1]);
      hide AnyLocked, CountOk, LockOk, OpenOperations;
      CountStep(s, s', t);
      LockStep(s, s', t);
    }
  }

  lemma TakeLockKeepsCountAndLock(s: State, t: nat)
    requires CountOk(s) && LockOk(s)
    ensures CountOk(TakeLock(s, t)) && LockOk(TakeLock(s, t))
  {
    var s' := TakeLock(s, t);
    if s' != s {
      assert AnyLocked(s.threads[t].frames) <==> s.lock == Some(t);
      TopLocked(s.threads[t].frames, s'.threads[t].frames[|s.threads[t].frames| - 1]);
      hide AnyLocked, CountOk, LockOk, OpenOperations;
      CountStep(s, s', t);
      LockStep(s, s', t);
    }
  }

  lemma CallKeepsCountAndLock(s: State, t: nat)
    requires CountOk(s) && LockOk(s)
    ensures CountOk(Call(s, t)) && LockOk(Call(s, t))
  {
    var s' := Call(s, t);
    if s' != s {
      assert AnyLocked(s.threads[t].frames) <==> s.lock == Some(t);
      TopLocked(s.threads[t].frames, s'.threads[t].frames[|s.threads[t].frames| - 1]);
      hide AnyLocked, CountOk, LockOk, OpenOperations;
      CountStep(s, s', t);
      LockStep(s, s', t);
    }
  }

  lemma EndCallKeepsCountAndLock(s: State, t: nat, raised: bool)
    requires CountOk(s) && LockOk(s)
    ensures CountOk(EndCall(s, t, raised)) && LockOk(EndCall(s, t, raised))
  {
    var s' := EndCall(s, t, raised);
    if s' != s {
      assert AnyLocked(s.threads[t].frames) <==> s.lock == Some(t);
      TopLocked(s.threads[t].frames, s'.threads[t].frames[|s.threads[t].frames| - 1]);
      hide AnyLocked, CountOk, LockOk, OpenOperations;
      CountStep(s, s', t);
      LockStep(s, s', t);
    }
  }

  lemma SettleKeepsCountAndLock(s: State, t: nat, commitFails: bool)
    requires CountOk(s) && LockOk(s)
    ensures CountOk(Settle(s, t, commitFails)) && LockOk(Settle(s, t, commitFails))
  {
    var s' := Settle(s, t, commitFails);
    if s' != s {
      assert AnyLocked(s.threads[t].frames) <==> s.lock == Some(t);
      TopLocked(s.threads[t].frames, s'.threads[t].frames[|s.threads[t].frames| - 1]);
      hide AnyLocked, CountOk, LockOk, OpenOperations;
      CountStep(s, s', t);
      LockStep(s, s', t);
    }
  }

  lemma LeaveKeepsCountAndLock(s: State, t: nat)
    requires CountOk(s) && LockOk(s)
    ensures CountOk(Leave(s, t)) && LockOk(Leave(s, t))
  {
    var s' := Leave(s, t);
    if s' != s {
      assert AnyLocked(s.threads[t].frames) <==> s.lock == Some(t);
      TopLocked(s.threads[t].frames, Top(s, t));
      hide AnyLocked, CountOk, LockOk, OpenOperations;
      CountStep(s, s', t);
      LockStep(s, s', t);
    }
  }

  lemma StartJobKeepsCountAndLock(s: State, j: nat, t: nat)
    requires CountOk(s) && LockOk(s)
    ensures CountOk(StartJob(s, j, t)) && LockOk(StartJob(s, j, t))
  {
    var s' := StartJob(s, j, t);
    if s' != s {
      assert AnyLocked(s.threads[t].frames) <==> s.lock == Some(t);
      hide AnyLocked, CountOk, LockOk, OpenOperations;
      CountStep(s, s', t);
      LockStep(s, s', t);
    }
  }

  lemma FinishJobKeepsCountAndLock(s: State, t: nat)
    requires CountOk(s) && LockOk(s)
    ensures CountOk(FinishJob(s, t)) && LockOk(FinishJob(s, t))
  {
    var s' := FinishJob(s, t);
    if s' != s {
      assert AnyLocked(s.threads[t].frames) <==> s.lock == Some(t);
      hide AnyLocked, CountOk, LockOk, OpenOperations;
      CountStep(s, s', t);
      LockStep(s, s', t);
    }
  }

  // ---------- every reachable state ----------

  ghost predicate Safe(s: State) {
    ThreadsOk(s) && ConnectionsOk(s) && CountOk(s) && LockOk(s) && JobsOk(s) && CloseOk(s)
  }

  /** Once the executor is down no thread runs a job; once close has finished none is in an operation. */
  lemma Quiet(s: State)
    requires Safe(s)
    ensures s.executorDown ==> forall t | 0 <= t < |s.threads| :: s.threads[t].job == None
    ensures s.active == 0 ==> forall t | 0 <= t < |s.threads| :: s.threads[t].frames == []
    ensures s.executorDown && s.active == 0 ==> forall t | 0 <= t < |s.threads| :: !s.threads[t].allow
  {
    if s.active == 0 { NoOpenOperations(s.threads); }
    forall t | 0 <= t < |s.threads| ensures s.executorDown ==> s.threads[t].job == None {
      OwnJobOk(s, t);
    }
    forall t | 0 <= t < |s.threads| ensures ThreadOk(s.threads[t], s.connections) {}
  }

  lemma CloseConnectionsKeepsSafe(s: State)
    requires Safe(s)
    ensures Safe(CloseConnections(s))
  {
    var s' := CloseConnections(s);
    if s' != s {
      Quiet(s);
      SameFramesSameCount(s.threads, s'.threads);
      forall j | 0 <= j < |s'.jobs| ensures JobOk(s', j) { assert JobOk(s, j); }
      forall t | 0 <= t < |s'.threads| ensures AnyLocked(s'.threads[t].frames) <==> s'.lock == Some(t) {
        assert AnyLocked(s.threads[t].frames) <==> s.lock == Some(t);
      }
    }
  }

  lemma EnterKeepsClose(s: State, t: nat, write: bool)
    requires Safe(s)
    ensures CloseOk(Enter(s, t, write))
  {
    Quiet(s);
    hide ThreadsOk, JobsOk, LockOk, CountOk, ConnectionsOk;
  }

  lemma ConnectKeepsClose(s: State, t: nat)
    requires Safe(s)
    ensures CloseOk(Connect(s, t))
  {
    Quiet(s);
    hide ThreadsOk, JobsOk, LockOk, CountOk, ConnectionsOk;
  }

  lemma CallKeepsClose(s: State, a: Action)
    requires Safe(s)
    requires a.ATakeLock? || a.ACall? || a.AEndCall? || a.ASettle?
    ensures CloseOk(Next(s, a))
  {
    Quiet(s);
    hide ThreadsOk, JobsOk, LockOk, CountOk, ConnectionsOk;
  }

  lemma LeaveKeepsClose(s: State, t: nat)
    requires Safe(s)
    ensures CloseOk(Leave(s, t))
  {
    Quiet(s);
    hide ThreadsOk, JobsOk, LockOk, CountOk, ConnectionsOk;
  }

  lemma ExecutorKeepsClose(s: State, a: Action)
    requires Safe(s)
    requires a.ASubmit? || a.AStartJob? || a.AFinishJob? || a.ACancelCaller?
    ensures CloseOk(Next(s, a))
  {
    Quiet(s);
    hide ThreadsOk, JobsOk, LockOk, CountOk, ConnectionsOk;
  }

  /** Only connecting and closing change the connections. */
  lemma ConnectionsStay(s: State, a: Action)
    requires ConnectionsOk(s) && !a.AConnect? && !a.ACloseConnections?
    ensures ConnectionsOk(Next(s, a))
  {
    SameConnections(s, a);
    hide Next;
  }

  predicate KeepsConnections(s: State, s': State) {
    s'.connections == s.connections && s'.closed == s.closed && s'.nextConn == s.nextConn
  }

  lemma EnterKeepsConnections(s: State, t: nat, write: bool)
    ensures KeepsConnections(s, Enter(s, t, write))
  {
    hide CanOpen;
  }

  lemma CallKeepsConnections(s: State, t: nat)
    ensures KeepsConnections(s, TakeLock(s, t)) && KeepsConnections(s, Call(s, t))
  {
  }

  lemma SettleKeepsConnections(s: State, t: nat, fails: bool)
    ensures KeepsConnections(s, EndCall(s, t, fails)) && KeepsConnections(s, Settle(s, t, fails))
  {
  }

  lemma LeaveKeepsConnections(s: State, t: nat)
    ensures KeepsConnections(s, Leave(s, t))
  {
    if Leave(s, t) != s {
      assert KeepsConnections(s, ReportBroken(s, t));
      hide ReportBroken;
    }
  }

  lemma JobsKeepConnections(s: State, j: nat, t: nat)
    ensures KeepsConnections(s, StartJob(s, j, t)) && KeepsConnections(s, FinishJob(s, t))
    ensures KeepsConnections(s, CancelCaller(s, j))
  {
  }

  lemma SameConnections(s: State, a: Action)
    requires !a.AConnect? && !a.ACloseConnections?
    ensures KeepsConnections(s, Next(s, a))
  {
    match a {
      case AEnter(t, write) => EnterKeepsConnections(s, t, write);
      case ATakeLock(t) => CallKeepsConnections(s, t);
      case ACall(t) => CallKeepsConnections(s, t);
      case AEndCall(t, raised) => SettleKeepsConnections(s, t, raised);
      case ASettle(t, commitFails) => SettleKeepsConnections(s, t, commitFails);
      case ALeave(t) => LeaveKeepsConnections(s, t);
      case AStartJob(j, t) => JobsKeepConnections(s, j, t);
      case AFinishJob(t) => JobsKeepConnections(s, 0, t);
      case ACancelCaller(j) => JobsKeepConnections(s, j, 0);
      case _ =>
    }
    hide Enter, TakeLock, Call, EndCall, Settle, Leave, StartJob, FinishJob, CancelCaller;
  }

  lemma SameThreadsStayOk(s: State, s': State)
    requires s'.threads == s.threads && s'.connections == s.connections && s'.active == s.active && s'.lock == s.lock
    ensures ThreadsOk(s') == ThreadsOk(s) && CountOk(s') == CountOk(s) && LockOk(s') == LockOk(s)
  {
  }

  lemma NextKeepsSafe(s: State, a: Action)
    requires Safe(s)
    ensures Safe(Next(s, a))
  {
    var s' := Next(s, a);
    if !a.AConnect? && !a.ACloseConnections? {
      ConnectionsStay(s, a);
    }
    if a.ASubmit? || a.ACancelCaller? || a.ABeginClose? || a.AShutDown? {
      SameThreadsStayOk(s, s');
    }
    if a.ABeginClose? || a.AShutDown? {
      SameJobsStayOk(s, s');
      assert CloseOk(s');
    }
    hide ThreadsOk, JobsOk, LockOk, CountOk, ConnectionsOk, CloseOk;
    match a {
      case AEnter(t, write) =>
        EnterKeepsThreads(s, t, write);
        EnterKeepsJobs(s, t, write);
        EnterKeepsCountAndLock(s, t, write);
        EnterKeepsClose(s, t, write);
      case AConnect(t) =>
        ConnectKeepsThreads(s, t);
        ConnectKeepsJobs(s, t);
        ConnectKeepsCountAndLock(s, t);
        ConnectKeepsClose(s, t);
      case ATakeLock(t) =>
        TakeLockKeepsThreads(s, t);
        TakeLockKeepsJobs(s, t);
        TakeLockKeepsCountAndLock(s, t);
        CallKeepsClose(s, a);
      case ACall(t) =>
        CallKeepsThreads(s, t);
        CallKeepsJobs(s, t);
        CallKeepsCountAndLock(s, t);
        CallKeepsClose(s, a);
      case AEndCall(t, raised) =>
        EndCallKeepsThreads(s, t, raised);
        EndCallKeepsJobs(s, t, raised);
        EndCallKeepsCountAndLock(s, t, raised);
        CallKeepsClose(s, a);
      case ASettle(t, commitFails) =>
        SettleKeepsThreads(s, t, commitFails);
        SettleKeepsJobs(s, t, commitFails);
        SettleKeepsCountAndLock(s, t, commitFails);
        CallKeepsClose(s, a);
      case ALeave(t) =>
        LeaveKeepsThreads(s, t);
        LeaveKeepsJobs(s, t);
        LeaveKeepsCountAndLock(s, t);
        LeaveKeepsClose(s, t);
      case ASubmit(write) =>
        SubmitKeepsJobs(s, write);
        ExecutorKeepsClose(s, a);
      case AStartJob(j, t) =>
        StartJobKeepsThreads(s, j, t);
        StartJobKeepsJobs(s, j, t);
        StartJobKeepsCountAndLock(s, j, t);
        ExecutorKeepsClose(s, a);
      case AFinishJob(t) =>
        FinishJobKeepsThreads(s, t);
        FinishJobKeepsJobs(s, t);
        FinishJobKeepsCountAndLock(s, t);
        ExecutorKeepsClose(s, a);
      case ACancelCaller(j) =>
        CancelCallerKeepsJobs(s, j);
        ExecutorKeepsClose(s, a);
      case ABeginClose(_) =>
      case AShutDown =>
      case ACloseConnections => CloseConnectionsKeepsSafe(s);
    }
  }

  lemma SameJobsStayOk(s: State, s': State)
    requires JobsOk(s) && s'.jobs == s.jobs && s'.threads == s.threads
    ensures JobsOk(s')
  {
    forall j | 0 <= j < |s'.jobs| ensures JobOk(s', j) { assert JobOk(s, j); }
  }

  lemma {:induction false} AllIdleSum(threads: seq<Thread>)
    requires forall t | 0 <= t < |threads| :: threads[t].frames == []
    ensures OpenOperations(threads) == 0
  {
    if threads != [] {
      AllIdleSum(threads[1..]);
    }
  }

  lemma {:induction false} ReachableIsSafe(threads: nat, creator: nat, actions: seq<Action>)
    requires creator < threads
    ensures Safe(Execute(Initial(threads, creator), actions))
  {
    if actions == [] {
      AllIdleSum(Initial(threads, creator).threads);
    } else {
      ReachableIsSafe(threads, creator, actions[..|actions| - 1]);
      NextKeepsSafe(Execute(Initial(threads, creator), actions[..|actions| - 1]), actions[|actions| - 1]);
    }
  }

  /** The count of active operations is the number of open ones, over threads and nesting, and no
      operation, however nested and whenever opened, uses a connection that has been closed. */
  lemma OperationsAreSound(s: State, t: nat, i: nat)
    requires Safe(s) && t < |s.threads| && i < |s.threads[t].frames|
    ensures s.active == OpenOperations(s.threads) && s.active > 0
    ensures var c := s.threads[t].frames[i].conn; c.Some? ==> c.value !in s.closed && c.value in s.connections
  {
    if s.active == 0 { NoOpenOperations(s.threads); }
    assert ThreadOk(s.threads[t], s.connections);
    assert FrameOk(s.threads[t].frames[i], i == 0, i == |s.threads[t].frames| - 1, s.threads[t].job.Some?, s.connections);
  }

  /** Only one thread at a time is inside a write. */
  lemma OneWriter(s: State, t: nat, u: nat)
    requires Safe(s) && t < |s.threads| && u < |s.threads|
    requires AnyLocked(s.threads[t].frames) && AnyLocked(s.threads[u].frames)
    ensures t == u
  {
  }

  ghost predicate Shut(s: State) {
    && s.connections == {} && (forall c: nat :: c < s.nextConn <==> c in s.closed)
    && (forall t | 0 <= t < |s.threads| :: s.threads[t].frames == [] && s.threads[t].job == None)
    && (forall j | 0 <= j < |s.jobs| :: Over(s.jobs[j]))
  }

  lemma FinishedStays(s: State, a: Action)
    requires Safe(s) && s.finished
    ensures Next(s, a).finished && Next(s, a).nextConn == s.nextConn
  {
    Quiet(s);
  }

  /** Once `close` has returned nothing enters any more, whatever is tried: no operation is open,
      no connection is made, and every connection ever made, those opened by admitted work during
      closing included, is closed. */
  lemma {:induction false} ClosedForGood(s: State, actions: seq<Action>)
    requires Safe(s) && s.finished
    ensures var s' := Execute(s, actions); Safe(s') && s'.finished && Shut(s') && s'.nextConn == s.nextConn
  {
    if actions == [] {
      Quiet(s);
    } else {
      var before, a := Execute(s, actions[..|actions| - 1]), actions[|actions| - 1];
      ClosedForGood(s, actions[..|actions| - 1]);
      NextKeepsSafe(before, a);
      FinishedStays(before, a);
      Quiet(Next(before, a));
      hide Next;
    }
  }

  /** `close` returns only when nothing is open. */
  lemma CloseWaits(s: State, a: Action)
    requires Safe(s) && !s.finished && Next(s, a).finished
    ensures s.closing && s.executorDown && forall t | 0 <= t < |s.threads| :: s.threads[t].frames == []
  {
    Quiet(s);
  }

  /** A job is never called twice, and a cancelled one was a read that never started. */
  lemma JobsRunAtMostOnce(s: State, j: nat)
    requires Safe(s) && j < |s.jobs|
    ensures s.jobs[j].calls <= 1 && s.jobs[j].commits + s.jobs[j].rollbacks <= s.jobs[j].calls
    ensures s.jobs[j].status.Cancelled? ==> !s.jobs[j].write && s.jobs[j].calls == 0
  {
    assert JobOk(s, j);
    var job := s.jobs[j];
    if job.status.Finished? && !job.write { assert job.commits + job.rollbacks == 0; }
  }

  /** When `close` has returned, every write that `run_async` ever accepted has been called once
      and been committed or rolled back once, whether or not its caller was cancelled; the only
      exception is a write whose cursor could not be opened, which was not called at all. */
  lemma AcceptedWritesHaveRun(s: State, j: nat)
    requires Safe(s) && s.finished && j < |s.jobs| && s.jobs[j].write
    ensures s.jobs[j].status == Finished
    ensures if s.jobs[j].broken then s.jobs[j].calls == 0 && s.jobs[j].commits + s.jobs[j].rollbacks == 0
            else s.jobs[j].calls == 1 && s.jobs[j].commits + s.jobs[j].rollbacks == 1
  {
    assert JobOk(s, j);
    assert Over(s.jobs[j]);
  }

  /** A write job is committed exactly when neither its function nor the commit raised. */
  lemma CommitIffSuccess(s: State, t: nat, commitFails: bool)
    requires Safe(s) && t < |s.threads| && |s.threads[t].frames| == 1 && s.threads[t].job.Some?
    requires Top(s, t).write && Top(s, t).phase.Ended?
    ensures s.threads[t].job.value < |s.jobs|
    ensures var job := Settle(s, t, commitFails).jobs[s.threads[t].job.value];
      && job.commits == (if !Top(s, t).phase.raised && !commitFails then 1 else 0)
      && job.rollbacks == 1 - job.commits
  {
    OwnJobOk(s, t);
  }
}
