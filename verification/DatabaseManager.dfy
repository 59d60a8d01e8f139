/**
 The DatabaseManager object.  Each method is one section under the manager's locks, or one step
 of an operation between them, and does what the machine of ManagerMachine says.
 */
module DatabaseManagers {
  import opened Wrappers
  import opened ManagerMachine
  import opened ManagerSafety

  class DatabaseManager {
    var threads: seq<Thread>        // the threads and their thread-local values
    var activeSyncCount: nat
    var closing: bool
    var acceptingSubmissions: bool
    var executorDown: bool
    var finished: bool
    var connections: set<nat>
    var closed: set<nat>            // connections that close() has closed
    var nextConnection: nat
    var writeLock: Option<nat>
    var jobs: seq<Job>              // everything submitted to the executor

    ghost function View(): State
      reads this
    {
      State(threads, activeSyncCount, closing, acceptingSubmissions, executorDown, finished,
            connections, closed, nextConnection, writeLock, jobs)
    }

    ghost predicate Valid()
      reads this
    {
      Safe(View())
    }

    constructor (threadCount: nat, creator: nat)
      requires creator < threadCount
      ensures Valid() && View() == Initial(threadCount, creator)
    {
      threads := Initial(threadCount, creator).threads;
      activeSyncCount, nextConnection := 0, 1;
      closing, acceptingSubmissions, executorDown, finished := false, true, false, false;
      connections, closed, writeLock, jobs := {0}, {}, None, [];
      ReachableIsSafe(threadCount, creator, []);
    }

    /** The head of `_sync_activity`; false stands for the ProgrammingError. */
    method EnterActivity(t: nat, write: bool) returns (ok: bool)
      requires Valid() && CanOpen(View(), t, write)
      modifies this
      ensures Valid() && View() == Next(old(View()), AEnter(t, write))
      ensures ok == (!closing || old(threads[t].allow))
      ensures ok ==> activeSyncCount == old(activeSyncCount) + 1
      ensures ok ==> threads == old(threads)[t := old(threads[t]).(allow := true,
                       frames := old(threads[t].frames) + [Frame(old(threads[t].allow), write, None, Opening)])]
      ensures !ok ==> View() == old(View())
    {
      NextKeepsSafe(View(), AEnter(t, write));
      assert Next(View(), AEnter(t, write)) == Enter(View(), t, write);
      hide Safe, Next, CanOpen;
      var previouslyAdmitted := threads[t].allow;
      if closing && !previouslyAdmitted {
        return false;
      }
      hide Entered, Push;
      EnterJob(t);
      PushFrame(t, write);
      return true;
    }

    method EnterJob(t: nat)
      requires t < |threads|
      modifies this`jobs
      ensures View() == Entered(old(View()), t)
    {
      var job := threads[t].job;
      if threads[t].frames == [] && job.Some? && job.value < |jobs| {
        jobs := jobs[job.value := jobs[job.value].(status := Running(t, true))];
      }
    }

    method PushFrame(t: nat, write: bool)
      requires t < |threads|
      modifies this`threads, this`activeSyncCount
      ensures View() == Push(old(View()), t, write)
      ensures activeSyncCount == old(activeSyncCount) + 1
    {
      var frame := Frame(threads[t].allow, write, None, Opening);
      threads := threads[t := threads[t].(allow := true, frames := threads[t].frames + [frame])];
      activeSyncCount := activeSyncCount + 1;
    }

    /** `_get_connection` for the operation just entered. */
    method GetConnection(t: nat) returns (conn: nat)
      requires HasTop(View(), t) && Top(View(), t).phase.Opening? && threads[t].allow
      modifies this
      ensures View() == Next(old(View()), AConnect(t)) && threads[t].conn == Some(conn)
      ensures old(threads[t].conn.Some? && threads[t].conn.value !in closed) ==> old(threads[t].conn) == Some(conn)
      ensures old(Valid()) ==> Valid() && conn in connections && conn !in closed
    {
      ConnectKeepsValid(t);
      hide Safe;
      var known := threads[t].conn;
      if known.Some? && known.value !in closed {
        conn := known.value;
      } else {
        if known.Some? {
          connections := connections - {known.value};
        }
        conn := nextConnection;
        connections, nextConnection := connections + {conn}, nextConnection + 1;
      }
      var frames := threads[t].frames;
      var frame := frames[|frames| - 1].(conn := Some(conn), phase := Connected);
      threads := threads[t := threads[t].(conn := Some(conn), frames := frames[|frames| - 1 := frame])];
    }

    /** In a valid state the thread's connection, if it has one, is open and tracked. */
    lemma ConnectKeepsValid(t: nat)
      requires HasTop(View(), t) && Top(View(), t).phase.Opening? && threads[t].allow
      ensures Valid() ==>
        var s := Connect(View(), t);
        Safe(s) && s.threads[t].conn.Some? && s.threads[t].conn.value in s.connections && s.threads[t].conn.value !in s.closed
    {
      if Valid() {
        NextKeepsSafe(View(), AConnect(t));
        assert ThreadOk(Connect(View(), t).threads[t], Connect(View(), t).connections);
      }
    }

    method SetPhase(t: nat, phase: Phase)
      requires HasTop(View(), t)
      modifies this`threads
      ensures View() == PutTop(old(View()), t, Top(old(View()), t).(phase := phase))
    {
      var frames := threads[t].frames;
      threads := threads[t := threads[t].(frames := frames[|frames| - 1 := frames[|frames| - 1].(phase := phase)])];
    }

    /** `with self._write_lock`; false while another thread holds it. */
    method AcquireWriteLock(t: nat) returns (acquired: bool)
      requires Valid() && HasTop(View(), t) && Top(View(), t).write && Top(View(), t).phase.Connected?
      modifies this
      ensures Valid() && View() == Next(old(View()), ATakeLock(t))
      ensures if acquired then writeLock == Some(t) && HasTop(View(), t) && Top(View(), t).phase == Locked
              else View() == old(View())
      ensures acquired == (old(writeLock) == None || old(writeLock) == Some(t))
    {
      NextKeepsSafe(View(), ATakeLock(t));
      assert Next(View(), ATakeLock(t)) == TakeLock(View(), t);
      hide Safe, Next;
      if writeLock.Some? && writeLock != Some(t) {
        return false;
      }
      LockFor(t);
      return true;
    }

    method LockFor(t: nat)
      requires HasTop(View(), t)
      modifies this`writeLock, this`threads
      ensures var s := old(View());
        View() == PutTop(s.(lock := Some(t)), t, Top(s, t).(phase := Locked))
    {
      writeLock := Some(t);
      SetPhase(t, Locked);
    }

    /** Hand the cursor to the caller's function. */
    method BeginBody(t: nat)
      requires Valid() && HasTop(View(), t)
      requires Top(View(), t).phase == if Top(View(), t).write then Locked else Connected
      modifies this
      ensures Valid() && View() == Next(old(View()), ACall(t))
    {
      NextKeepsSafe(View(), ACall(t));
      assert Next(View(), ACall(t)) == Call(View(), t);
      hide Safe, Next, Counted;
      CountCall(t);
      SetPhase(t, InBody);
    }

    method CountCall(t: nat)
      requires t < |threads|
      modifies this`jobs
      ensures View() == Counted(old(View()), t)
    {
      var job := threads[t].job;
      if |threads[t].frames| == 1 && job.Some? && job.value < |jobs| {
        jobs := jobs[job.value := jobs[job.value].(calls := jobs[job.value].calls + 1)];
      }
    }

    method EndBody(t: nat, raised: bool)
      requires Valid() && HasTop(View(), t) && Top(View(), t).phase.InBody?
      modifies this
      ensures Valid() && View() == Next(old(View()), AEndCall(t, raised))
      ensures HasTop(View(), t) && Top(View(), t).phase == Ended(raised)
    {
      NextKeepsSafe(View(), AEndCall(t, raised));
      hide Safe;
      SetPhase(t, Ended(raised));
    }

    /** `conn.commit()`, or `conn.rollback()` when the function or the commit raised. */
    method CommitOrRollback(t: nat, commitFails: bool) returns (committed: bool)
      requires Valid() && HasTop(View(), t) && Top(View(), t).write && Top(View(), t).phase.Ended?
      modifies this
      ensures Valid() && View() == Next(old(View()), ASettle(t, commitFails))
      ensures committed == (!old(Top(View(), t)).phase.raised && !commitFails)
      ensures HasTop(View(), t) && Top(View(), t).phase == Settled(committed)
    {
      NextKeepsSafe(View(), ASettle(t, commitFails));
      assert Next(View(), ASettle(t, commitFails)) == Settle(View(), t, commitFails);
      hide Safe, Next, Recorded;
      var frames := threads[t].frames;
      committed := !frames[|frames| - 1].phase.raised && !commitFails;
      RecordOutcome(t, committed);
      SetPhase(t, Settled(committed));
    }

    method RecordOutcome(t: nat, committed: bool)
      requires t < |threads|
      modifies this`jobs
      ensures View() == Recorded(old(View()), t, committed)
    {
      var job := threads[t].job;
      if |threads[t].frames| == 1 && job.Some? && job.value < |jobs| {
        var record := jobs[job.value];
        jobs := jobs[job.value := if committed then record.(commits := record.commits + 1)
                                  else record.(rollbacks := record.rollbacks + 1)];
      }
    }

    /** The tail of `_sync_activity`, after the cursor is closed and the write lock released. */
    method LeaveActivity(t: nat)
      requires Valid() && HasTop(View(), t) && CanLeave(Top(View(), t))
      modifies this
      ensures Valid() && View() == Next(old(View()), ALeave(t))
      ensures activeSyncCount == old(activeSyncCount) - 1
      ensures t < |threads| && threads[t].frames == old(threads[t].frames[..|threads[t].frames| - 1])
      ensures threads[t].allow == old(Top(View(), t).prior)
    {
      NextKeepsSafe(View(), ALeave(t));
      OperationsAreSound(View(), t, |threads[t].frames| - 1);
      assert Next(View(), ALeave(t)) == Leave(View(), t);
      hide Safe, ReportBroken, Depart, Next;
      MarkBroken(t);
      GoBack(t);
    }

    /** The lock, the count and the admission flag go back. */
    method GoBack(t: nat)
      requires HasTop(View(), t) && activeSyncCount > 0
      modifies this
      ensures View() == Depart(old(View()), t)
    {
      var frames := threads[t].frames;
      var frame, rest := frames[|frames| - 1], frames[..|frames| - 1];
      if frame.HoldsLock() && !AnyLocked(rest) {
        writeLock := None;
      }
      activeSyncCount := activeSyncCount - 1;
      threads := threads[t := threads[t].(allow := frame.prior, frames := rest)];
    }

    /** A job whose own operation leaves before its function was called reports the error. */
    method MarkBroken(t: nat)
      requires HasTop(View(), t)
      modifies this`jobs
      ensures View() == ReportBroken(old(View()), t)
    {
      var frames := threads[t].frames;
      var frame, job := frames[|frames| - 1], threads[t].job;
      if |frames| == 1 && job.Some? && job.value < |jobs| && (frame.phase.Opening? || frame.phase.Connected?) {
        jobs := jobs[job.value := jobs[job.value].(broken := true)];
      }
    }

    /** The submission in `run_async`; None stands for the ProgrammingError. */
    method RunAsync(write: bool) returns (job: Option<nat>)
      requires Valid()
      modifies this
      ensures Valid() && View() == Next(old(View()), ASubmit(write))
      ensures job == (if old(acceptingSubmissions) then Some(|old(jobs)|) else None)
      ensures jobs == if old(acceptingSubmissions) then old(jobs) + [Job(write, Waiting, 0, 0, 0, false)] else old(jobs)
    {
      NextKeepsSafe(View(), ASubmit(write));
      hide Safe;
      if !acceptingSubmissions {
        return None;
      }
      jobs := jobs + [Job(write, Waiting, 0, 0, 0, false)];
      return Some(|jobs| - 1);
    }

    /** A worker begins `executor_func` for job `j`. */
    method TakeJob(j: nat, t: nat)
      requires Valid() && j < |jobs| && jobs[j].status == Waiting
      requires t < |threads| && threads[t].job == None && threads[t].frames == []
      modifies this
      ensures Valid() && View() == Next(old(View()), AStartJob(j, t))
      ensures t < |threads| && threads[t].job == Some(j) && threads[t].allow && j < |jobs| && jobs[j].status == Running(t, false)
    {
      NextKeepsSafe(View(), AStartJob(j, t));
      hide Safe;
      threads := threads[t := threads[t].(job := Some(j), allow := true)];
      jobs := jobs[j := jobs[j].(status := Running(t, false))];
    }

    /** `executor_func` returns. */
    method ReturnJob(t: nat)
      requires Valid() && t < |threads| && threads[t].job.Some? && threads[t].frames == []
      requires threads[t].job.value < |jobs| && jobs[threads[t].job.value].status == Running(t, true)
      modifies this
      ensures Valid() && View() == Next(old(View()), AFinishJob(t))
      ensures t < |threads| && threads[t].job == None && !threads[t].allow
      ensures var j := old(threads[t].job.value); j < |jobs| && jobs[j] == old(jobs[threads[t].job.value]).(status := Finished)
    {
      NextKeepsSafe(View(), AFinishJob(t));
      hide Safe;
      var j := threads[t].job.value;
      jobs := jobs[j := jobs[j].(status := Finished)];
      threads := threads[t := threads[t].(job := None, allow := false)];
    }

    /** The cancellation handler of `run_async`. */
    method CallerCancelled(j: nat)
      requires Valid() && j < |jobs|
      modifies this
      ensures Valid() && View() == Next(old(View()), ACancelCaller(j))
      ensures jobs == if old(jobs[j]).write || old(jobs[j]).status != Waiting then old(jobs)
                      else old(jobs)[j := old(jobs[j]).(status := Cancelled)]
    {
      NextKeepsSafe(View(), ACancelCaller(j));
      hide Safe;
      if jobs[j].write {
        return;  // only its errors are logged
      }
      if jobs[j].status == Waiting {
        jobs := jobs[j := jobs[j].(status := Cancelled)];
      }
    }

    /** The first part of `close`; false stands for the RuntimeError. */
    method BeginClose(t: nat) returns (ok: bool)
      requires Valid() && t < |threads|
      modifies this
      ensures Valid() && View() == Next(old(View()), ABeginClose(t))
      ensures ok <==> threads[t].frames == [] && threads[t].job == None
      ensures ok ==> closing && !acceptingSubmissions
    {
      NextKeepsSafe(View(), ABeginClose(t));
      assert ThreadOk(threads[t], connections);
      hide Safe;
      if threads[t].allow {
        return false;
      }
      acceptingSubmissions, closing := false, true;
      return true;
    }

    /** `shutdown(wait=True)`; false while it still waits for a job. */
    method ShutDownExecutor() returns (down: bool)
      requires Valid() && closing
      modifies this
      ensures Valid() && View() == Next(old(View()), AShutDown)
      ensures down <==> forall j | 0 <= j < |jobs| :: jobs[j].status == Finished || jobs[j].status == Cancelled
      ensures down ==> executorDown
    {
      NextKeepsSafe(View(), AShutDown);
      hide Safe;
      for i := 0 to |jobs|
        invariant View() == old(View())
        invariant forall k | 0 <= k < i :: Over(jobs[k])
      {
        if !Over(jobs[i]) {
          return false;
        }
      }
      executorDown := true;
      return true;
    }

    /** The last part of `close`, once the executor is down and the count is zero: every tracked
        connection is closed, one after the other, and the thread-local values are dropped. */
    method CloseConnections()
      requires Valid() && closing && executorDown && activeSyncCount == 0
      modifies this
      ensures Valid() && View() == Next(old(View()), ACloseConnections)
      ensures Shut(View())
    {
      ghost var after := Next(View(), ACloseConnections);
      NextKeepsSafe(View(), ACloseConnections);
      ClosedForGood(after, []);
      hide Safe, Shut;
      var tracked := connections;
      connections := {};
      while tracked != {}
        invariant closed + tracked == old(closed) + old(connections)
        invariant View() == old(View()).(connections := {}, closed := closed)
      {
        var conn :| conn in tracked;
        closed, tracked := closed + {conn}, tracked - {conn};
      }
      finished := true;
      var locals := threads;
      threads := seq(|locals|, i requires 0 <= i < |locals| => locals[i].(allow := false, conn := None));
      assert closed == old(closed) + old(connections);
      assert View() == after;
    }
  }
}
