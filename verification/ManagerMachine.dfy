/**
 DatabaseManager as a machine of atomic steps: threads that enter and leave database
 operations, possibly nested; jobs on the async executor; and `close`.
 */
module ManagerMachine {
  import opened Wrappers

  /** How far an operation has come.  Reads go from Connected straight to InBody, writes take the
      write lock in between and commit or roll back at the end. */
  datatype Phase = Opening | Connected | Locked | InBody | Ended(raised: bool) | Settled(committed: bool)

  /** One open `read()` or `write()`: the admission flag it found, and its connection. */
  datatype Frame = Frame(prior: bool, write: bool, conn: Option<nat>, phase: Phase) {
    predicate HoldsLock() {
      write && (phase.Locked? || phase.InBody? || phase.Ended? || phase.Settled?)
    }
  }

  /** A thread and its thread-local values: `_allow_during_close` and `connection`. */
  datatype Thread = Thread(allow: bool, conn: Option<nat>, job: Option<nat>, frames: seq<Frame>)

  const IDLE := Thread(false, None, None, [])

  /** `entered`: the job's own operation has been entered. */
  datatype Status = Waiting | Running(thread: nat, entered: bool) | Finished | Cancelled

  /** A function submitted to `run_async`, with how often it was called, committed and rolled
      back; `broken` when it was never called because no cursor could be opened. */
  datatype Job = Job(write: bool, status: Status, calls: nat, commits: nat, rollbacks: nat, broken: bool)

  datatype State = State(
    threads: seq<Thread>, active: nat, closing: bool, accepting: bool, executorDown: bool, finished: bool,
    connections: set<nat>, closed: set<nat>, nextConn: nat, lock: Option<nat>, jobs: seq<Job>)

  /** A new manager: thread `creator` has opened the first connection. */
  function Initial(threads: nat, creator: nat): State
    requires creator < threads
  {
    State(seq(threads, i => if i == creator then IDLE.(conn := Some(0)) else IDLE),
          0, false, true, false, false, {0}, {}, 1, None, [])
  }

  function Put(s: State, t: nat, thread: Thread): State
    requires t < |s.threads|
  {
    s.(threads := s.threads[t := thread])
  }

  predicate HasTop(s: State, t: nat) {
    t < |s.threads| && s.threads[t].frames != []
  }

  function Top(s: State, t: nat): Frame
    requires HasTop(s, t)
  {
    s.threads[t].frames[|s.threads[t].frames| - 1]
  }

  function PutTop(s: State, t: nat, f: Frame): State
    requires HasTop(s, t)
  {
    var th := s.threads[t];
    Put(s, t, th.(frames := th.frames[|th.frames| - 1 := f]))
  }

  /** The job whose own operation is the top frame of thread `t`. */
  function OwnJob(s: State, t: nat): Option<nat>
    requires t < |s.threads|
  {
    if |s.threads[t].frames| == 1 && s.threads[t].job.Some? && s.threads[t].job.value < |s.jobs|
    then s.threads[t].job else None
  }

  function PutJob(s: State, j: Option<nat>, job: Job): State {
    if j.Some? && j.value < |s.jobs| then s.(jobs := s.jobs[j.value := job]) else s
  }

  // ---------- operations ----------

  /** May thread `t` open an operation here: idle, inside another one's body, or as its job. */
  predicate CanOpen(s: State, t: nat, write: bool) {
    && t < |s.threads|
    && var th := s.threads[t];
       if th.frames != [] then Top(s, t).phase.InBody?
       else if th.job.Some? && th.job.value < |s.jobs| then
         var job := s.jobs[th.job.value];
         job.status == Running(t, false) && job.write == write
       else true
  }

  /** The thread's own job enters its operation. */
  function Entered(s: State, t: nat): State
    requires t < |s.threads|
  {
    var th := s.threads[t];
    if th.frames == [] && th.job.Some? && th.job.value < |s.jobs| then
      PutJob(s, th.job, s.jobs[th.job.value].(status := Running(t, true)))
    else s
  }

  /** One more open operation. */
  function Push(s: State, t: nat, write: bool): State
    requires t < |s.threads|
  {
    var th := s.threads[t];
    Put(s.(active := s.active + 1), t,
        th.(allow := true, frames := th.frames + [Frame(th.allow, write, None, Opening)]))
  }

  /** Entering `_sync_activity`; refused when closing and the thread is not already admitted. */
  function Enter(s: State, t: nat, write: bool): State {
    if !CanOpen(s, t, write) then s
    else
      var th := s.threads[t];
      if s.closing && !th.allow then s else Push(Entered(s, t), t, write)
  }

  /** `_get_connection`: the thread's connection if it is still open, a new one otherwise. */
  function Connect(s: State, t: nat): State {
    if !HasTop(s, t) || !Top(s, t).phase.Opening? || (s.closing && !s.threads[t].allow) then s
    else
      var th := s.threads[t];
      var reuse := th.conn.Some? && th.conn.value !in s.closed;
      var c := if reuse then th.conn.value else s.nextConn;
      var s1 := if reuse then s
                else
                  var kept := if th.conn.Some? then s.connections - {th.conn.value} else s.connections;
                  s.(connections := kept + {c}, nextConn := c + 1);
      var f := Top(s, t).(conn := Some(c), phase := Connected);
      Put(s1, t, th.(conn := Some(c), frames := th.frames[|th.frames| - 1 := f]))
  }

  /** A write takes the re-entrant write lock. */
  function TakeLock(s: State, t: nat): State {
    if !HasTop(s, t) || Top(s, t).phase != Connected || !Top(s, t).write then s
    else if s.lock.Some? && s.lock != Some(t) then s
    else PutTop(s.(lock := Some(t)), t, Top(s, t).(phase := Locked))
  }

  /** The call of the thread's own job. */
  function Counted(s: State, t: nat): State
    requires t < |s.threads|
  {
    var j := OwnJob(s, t);
    if j.None? then s else PutJob(s, j, s.jobs[j.value].(calls := s.jobs[j.value].calls + 1))
  }

  /** The caller's function, or the body of the with statement, is called. */
  function Call(s: State, t: nat): State {
    if !HasTop(s, t) || Top(s, t).phase != (if Top(s, t).write then Locked else Connected) then s
    else
      PutTop(Counted(s, t), t, Top(s, t).(phase := InBody))
  }

  /** It returns or raises. */
  function EndCall(s: State, t: nat, raised: bool): State {
    if !HasTop(s, t) || Top(s, t).phase != InBody then s
    else PutTop(s, t, Top(s, t).(phase := Ended(raised)))
  }

  /** The commit or rollback of the thread's own job. */
  function Recorded(s: State, t: nat, committed: bool): State
    requires t < |s.threads|
  {
    var j := OwnJob(s, t);
    if j.None? then s
    else
      var job := s.jobs[j.value];
      PutJob(s, j, if committed then job.(commits := job.commits + 1) else job.(rollbacks := job.rollbacks + 1))
  }

  /** Commit, or roll back when the function or the commit raised. */
  function Settle(s: State, t: nat, commitFails: bool): State {
    if !HasTop(s, t) || !Top(s, t).write || !Top(s, t).phase.Ended? then s
    else
      var committed := !Top(s, t).phase.raised && !commitFails;
      PutTop(Recorded(s, t, committed), t, Top(s, t).(phase := Settled(committed)))
  }

  /** An operation may leave when it is done, or when it could not open a cursor. */
  predicate CanLeave(f: Frame) {
    f.phase.Opening? || f.phase.Connected? || (if f.write then f.phase.Settled? else f.phase.Ended?)
  }

  predicate AnyLocked(frames: seq<Frame>) {
    exists i :: 0 <= i < |frames| && frames[i].HoldsLock()
  }

  /** The lock, the count and the admission flag go back. */
  function Depart(s: State, t: nat): State
    requires HasTop(s, t) && s.active > 0
  {
    var th := s.threads[t];
    var rest := th.frames[..|th.frames| - 1];
    Put(s.(active := s.active - 1, lock := if Top(s, t).HoldsLock() && !AnyLocked(rest) then None else s.lock),
        t, th.(allow := Top(s, t).prior, frames := rest))
  }

  /** A job whose own operation leaves before its function was called reports an error. */
  function ReportBroken(s: State, t: nat): State
    requires HasTop(s, t)
  {
    var j := OwnJob(s, t);
    if j.Some? && (Top(s, t).phase.Opening? || Top(s, t).phase.Connected?)
    then PutJob(s, j, s.jobs[j.value].(broken := true)) else s
  }

  /** Leaving the operation. */
  function Leave(s: State, t: nat): State {
    if !HasTop(s, t) || !CanLeave(Top(s, t)) || s.active == 0 then s
    else Depart(ReportBroken(s, t), t)
  }

  // ---------- the executor ----------

  /** `run_async` submits a job while submissions are accepted. */
  function Submit(s: State, write: bool): State {
    if !s.accepting then s
    else s.(jobs := s.jobs + [Job(write, Waiting, 0, 0, 0, false)])
  }

  /** An idle worker thread takes a job: `executor_func` begins. */
  function StartJob(s: State, j: nat, t: nat): State {
    if j >= |s.jobs| || t >= |s.threads| || s.jobs[j].status != Waiting then s
    else if s.threads[t].job.Some? || s.threads[t].frames != [] then s
    else PutJob(Put(s, t, s.threads[t].(job := Some(j), allow := true)), Some(j),
                s.jobs[j].(status := Running(t, false)))
  }

  /** `executor_func` returns. */
  function FinishJob(s: State, t: nat): State {
    if t >= |s.threads| || s.threads[t].job.None? || s.threads[t].frames != [] then s
    else
      var j := s.threads[t].job.value;
      if j >= |s.jobs| || s.jobs[j].status != Running(t, true) then s
      else PutJob(Put(s, t, s.threads[t].(job := None, allow := false)), Some(j), s.jobs[j].(status := Finished))
  }

  /** The awaiting caller is cancelled: a write goes on, a read is cancelled if it has not started. */
  function CancelCaller(s: State, j: nat): State {
    if j >= |s.jobs| || s.jobs[j].write || s.jobs[j].status != Waiting then s
    else PutJob(s, Some(j), s.jobs[j].(status := Cancelled))
  }

  // ---------- close ----------

  /** The first part of `close`; an error when the thread is inside an operation. */
  function BeginClose(s: State, t: nat): State {
    if t >= |s.threads| || s.threads[t].allow then s
    else s.(accepting := false, closing := true)
  }

  predicate Over(job: Job) {
    job.status == Finished || job.status == Cancelled
  }

  /** `shutdown(wait=True)` returns once every submitted job is over. */
  function ShutDown(s: State): State {
    if !s.closing || (exists j :: 0 <= j < |s.jobs| && !Over(s.jobs[j])) then s
    else s.(executorDown := true)
  }

  /** The last part of `close`, which waits for the count to reach zero. */
  function CloseConnections(s: State): State {
    if !s.closing || !s.executorDown || s.active > 0 then s
    else s.(closed := s.closed + s.connections, connections := {}, finished := true,
            threads := seq(|s.threads|, i requires 0 <= i < |s.threads| => s.threads[i].(allow := false, conn := None)))
  }

  datatype Action =
    | AEnter(t: nat, write: bool)
    | AConnect(t: nat)
    | ATakeLock(t: nat)
    | ACall(t: nat)
    | AEndCall(t: nat, raised: bool)
    | ASettle(t: nat, commitFails: bool)
    | ALeave(t: nat)
    | ASubmit(write: bool)
    | AStartJob(j: nat, t: nat)
    | AFinishJob(t: nat)
    | ACancelCaller(j: nat)
    | ABeginClose(t: nat)
    | AShutDown
    | ACloseConnections

  function Next(s: State, a: Action): State {
    match a
    case AEnter(t, write) => Enter(s, t, write)
    case AConnect(t) => Connect(s, t)
    case ATakeLock(t) => TakeLock(s, t)
    case ACall(t) => Call(s, t)
    case AEndCall(t, raised) => EndCall(s, t, raised)
    case ASettle(t, commitFails) => Settle(s, t, commitFails)
    case ALeave(t) => Leave(s, t)
    case ASubmit(write) => Submit(s, write)
    case AStartJob(j, t) => StartJob(s, j, t)
    case AFinishJob(t) => FinishJob(s, t)
    case ACancelCaller(j) => CancelCaller(s, j)
    case ABeginClose(t) => BeginClose(s, t)
    case AShutDown => ShutDown(s)
    case ACloseConnections => CloseConnections(s)
  }

  function Execute(s: State, actions: seq<Action>): State {
    if actions == [] then s else Next(Execute(s, actions[..|actions| - 1]), actions[|actions| - 1])
  }
}
