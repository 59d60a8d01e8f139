/**
 What becomes of the changes that write operations make.  A connection has one transaction:
 a commit makes all its pending changes durable and a rollback discards them, and nested writes
 of a thread share its connection.
 */
module WriteLedger {
  import opened Wrappers
  import opened ManagerMachine
  import opened ManagerSafety

  datatype Outcome = Pending | Durable | Discarded

  /** One modifying statement: who executed it, on which connection, and what became of it. */
  datatype Change = Change(thread: nat, conn: nat, outcome: Outcome)

  /** The operation a thread is in: how many changes there were when it began, and whether one of
      its writes has been committed or rolled back since. */
  datatype Span = Span(from: nat, settled: bool)

  datatype Ledger = Ledger(s: State, changes: seq<Change>, spans: map<nat, Span>)

  datatype Event = Machine(a: Action) | Modify(t: nat)

  function Decide(changes: seq<Change>, conn: nat, outcome: Outcome): seq<Change> {
    seq(|changes|, i requires 0 <= i < |changes| =>
      if changes[i].conn == conn && changes[i].outcome == Pending then changes[i].(outcome := outcome) else changes[i])
  }

  /** The commit or rollback of the top frame takes place. */
  predicate Settles(s: State, t: nat) {
    HasTop(s, t) && Top(s, t).write && Top(s, t).phase.Ended? && Top(s, t).conn.Some?
  }

  function OutcomeOf(s: State, t: nat, commitFails: bool): Outcome
    requires Settles(s, t)
  {
    if !Top(s, t).phase.raised && !commitFails then Durable else Discarded
  }

  predicate Begins(s: State, a: Action) {
    a.AEnter? && a.t < |s.threads| && s.threads[a.t].frames == []
  }

  function Step(l: Ledger, e: Event): Ledger {
    match e
    case Modify(t) =>
      if HasTop(l.s, t) && Top(l.s, t).write && Top(l.s, t).phase.InBody? && Top(l.s, t).conn.Some? then
        l.(changes := l.changes + [Change(t, Top(l.s, t).conn.value, Pending)])
      else l
    case Machine(a) =>
      var next := l.(s := Next(l.s, a));
      if Begins(l.s, a) then next.(spans := l.spans[a.t := Span(|l.changes|, false)])
      else if a.ASettle? && Settles(l.s, a.t) then
        next.(changes := Decide(l.changes, Top(l.s, a.t).conn.value, OutcomeOf(l.s, a.t, a.commitFails)),
              spans := if a.t in l.spans then l.spans[a.t := l.spans[a.t].(settled := true)] else l.spans)
      else next
  }

  function Run(l: Ledger, events: seq<Event>): Ledger {
    if events == [] then l else Step(Run(l, events[..|events| - 1]), events[|events| - 1])
  }

  function Start(threads: nat, creator: nat): Ledger
    requires creator < threads
  {
    Ledger(Initial(threads, creator), [], map[])
  }

  // ---------- every thread has its own connection ----------

  /** The operations of a thread use its connection, and no two threads share one. */
  ghost predicate OwnConnections(s: State) {
    && (forall t, i | 0 <= t < |s.threads| && 0 <= i < |s.threads[t].frames| ::
          s.threads[t].frames[i].conn.Some? ==> s.threads[t].frames[i].conn == s.threads[t].conn)
    && (forall t, u | 0 <= t < |s.threads| && 0 <= u < |s.threads| && s.threads[t].conn.Some? ::
          s.threads[t].conn == s.threads[u].conn ==> t == u)
  }

  /** Thread `t` may have changed its frames, the other threads nothing, and no connection differs. */
  ghost predicate SameConnection(s: State, s': State, t: nat) {
    && t < |s.threads| && |s'.threads| == |s.threads|
    && s'.threads == s.threads[t := s'.threads[t]] && s'.threads[t].conn == s.threads[t].conn
    && forall i | 0 <= i < |s'.threads[t].frames| ::
         s'.threads[t].frames[i].conn.Some? ==> s'.threads[t].frames[i].conn == s.threads[t].conn
  }

  lemma SameKeepsOwn(s: State, s': State, t: nat)
    requires OwnConnections(s) && SameConnection(s, s', t)
    ensures OwnConnections(s')
  {
  }

  lemma EnterKeepsOwn(s: State, t: nat, write: bool)
    requires OwnConnections(s)
    ensures OwnConnections(Enter(s, t, write))
  {
    if Enter(s, t, write) != s {
      assert SameConnection(s, Enter(s, t, write), t);
      SameKeepsOwn(s, Enter(s, t, write), t);
    }
  }

  lemma LeaveKeepsOwn(s: State, t: nat)
    requires OwnConnections(s)
    ensures OwnConnections(Leave(s, t))
  {
    if Leave(s, t) != s {
      assert SameConnection(s, Leave(s, t), t);
      SameKeepsOwn(s, Leave(s, t), t);
    }
  }

  lemma TopKeepsOwn(s: State, s': State, t: nat, phase: Phase)
    requires OwnConnections(s) && HasTop(s, t) && s'.threads == PutTop(s, t, Top(s, t).(phase := phase)).threads
    ensures OwnConnections(s')
  {
    assert SameConnection(s, s', t);
    SameKeepsOwn(s, s', t);
  }

  lemma ConnectKeepsOwn(s: State, t: nat)
    requires Safe(s) && OwnConnections(s)
    ensures OwnConnections(Connect(s, t))
  {
    if Connect(s, t) != s {
      forall u | 0 <= u < |s.threads| && s.threads[u].conn.Some? ensures s.threads[u].conn.value < s.nextConn {
        assert ThreadOk(s.threads[u], s.connections);
      }
      assert ThreadOk(s.threads[t], s.connections);
      hide Safe, ThreadOk, CanOpen;
    }
  }

  lemma JobsKeepOwn(s: State, a: Action)
    requires OwnConnections(s) && (a.ASubmit? || a.AStartJob? || a.AFinishJob? || a.ACancelCaller? || a.ABeginClose? || a.AShutDown?)
    ensures OwnConnections(Next(s, a))
  {
  }

  lemma PhasesKeepOwn(s: State, a: Action)
    requires OwnConnections(s) && (a.ATakeLock? || a.ACall? || a.AEndCall? || a.ASettle?)
    ensures OwnConnections(Next(s, a))
  {
    if Next(s, a) != s {
      PhaseChanges(s, a);
      hide Next;
      TopKeepsOwn(s, Next(s, a), a.t, Top(Next(s, a), a.t).phase);
      hide OwnConnections;
    }
  }

  /** These actions change the phase of the top frame and nothing else of the threads. */
  lemma PhaseChanges(s: State, a: Action)
    requires (a.ATakeLock? || a.ACall? || a.AEndCall? || a.ASettle?) && Next(s, a) != s
    ensures var s' := Next(s, a);
      && HasTop(s, a.t) && HasTop(s', a.t)
      && s'.threads == PutTop(s, a.t, Top(s, a.t).(phase := Top(s', a.t).phase)).threads
  {
  }

  lemma CloseKeepsOwn(s: State)
    requires Safe(s) && OwnConnections(s)
    ensures OwnConnections(CloseConnections(s))
  {
    Quiet(s);
    hide Safe;
  }

  lemma NextKeepsOwn(s: State, a: Action)
    requires Safe(s) && OwnConnections(s)
    ensures OwnConnections(Next(s, a))
  {
    hide Safe, OwnConnections;
    match a {
      case AEnter(t, write) => EnterKeepsOwn(s, t, write);
      case AConnect(t) => ConnectKeepsOwn(s, t);
      case ATakeLock(_) => PhasesKeepOwn(s, a);
      case ACall(_) => PhasesKeepOwn(s, a);
      case AEndCall(_, _) => PhasesKeepOwn(s, a);
      case ASettle(_, _) => PhasesKeepOwn(s, a);
      case ALeave(t) => LeaveKeepsOwn(s, t);
      case ACloseConnections => CloseKeepsOwn(s);
      case _ => JobsKeepOwn(s, a);
    }
    hide Enter, Connect, TakeLock, Call, EndCall, Settle, Leave, CloseConnections, StartJob, FinishJob;
  }

  // ---------- the pending changes ----------

  /** Some write of the thread has been called and neither committed nor rolled back. */
  ghost predicate Unsettled(frames: seq<Frame>) {
    exists i :: 0 <= i < |frames| && frames[i].write && (frames[i].phase.InBody? || frames[i].phase.Ended?)
  }

  /** A pending change belongs to an unsettled write of its thread, and to its present operation. */
  ghost predicate PendingOk(l: Ledger, i: nat)
    requires i < |l.changes|
  {
    var c := l.changes[i];
    c.outcome == Pending ==>
      && c.thread < |l.s.threads| && l.s.threads[c.thread].conn == Some(c.conn)
      && Unsettled(l.s.threads[c.thread].frames)
      && c.thread in l.spans && l.spans[c.thread].from <= i
  }

  /** As long as no write of an operation is settled, all its changes are pending. */
  ghost predicate SpanOk(l: Ledger, t: nat)
    requires t < |l.s.threads|
  {
    l.s.threads[t].frames != [] ==>
      && t in l.spans && l.spans[t].from <= |l.changes|
      && (!l.spans[t].settled ==>
            forall i | l.spans[t].from <= i < |l.changes| && l.changes[i].thread == t :: l.changes[i].outcome == Pending)
  }

  ghost predicate LedgerOk(l: Ledger) {
    && Safe(l.s) && OwnConnections(l.s)
    && (forall i | 0 <= i < |l.changes| :: PendingOk(l, i))
    && (forall t | 0 <= t < |l.s.threads| :: SpanOk(l, t))
  }

  /** The thread still has an unsettled write, on the same connection. */
  ghost predicate Stays(s: State, s': State, t: nat)
    requires t < |s.threads|
  {
    t < |s'.threads| && s'.threads[t].conn == s.threads[t].conn && Unsettled(s'.threads[t].frames)
  }

  /** The frames of thread `t` are as before, up to frames on top of them. */
  lemma MoreFramesStay(s: State, s': State, t: nat, n: nat)
    requires t < |s.threads| && t < |s'.threads| && s'.threads[t].conn == s.threads[t].conn
    requires n <= |s.threads[t].frames| && n <= |s'.threads[t].frames|
    requires s'.threads[t].frames[..n] == s.threads[t].frames[..n] && Unsettled(s.threads[t].frames[..n])
    ensures Stays(s, s', t)
  {
    var i :| 0 <= i < n && s.threads[t].frames[..n][i].write
             && (s.threads[t].frames[..n][i].phase.InBody? || s.threads[t].frames[..n][i].phase.Ended?);
    assert s'.threads[t].frames[i] == s'.threads[t].frames[..n][i];
  }

  /** An unsettled write below the top. */
  lemma BelowTop(frames: seq<Frame>)
    requires Unsettled(frames) && frames != []
    requires var f := frames[|frames| - 1]; !f.write || (!f.phase.InBody? && !f.phase.Ended?)
    ensures Unsettled(frames[..|frames| - 1])
  {
    var i :| 0 <= i < |frames| && frames[i].write && (frames[i].phase.InBody? || frames[i].phase.Ended?);
    assert frames[..|frames| - 1][i] == frames[i];
  }

  lemma EnterStays(s: State, t: nat, write: bool)
    requires t < |s.threads| && Unsettled(s.threads[t].frames)
    ensures Stays(s, Enter(s, t, write), t)
  {
    var s' := Enter(s, t, write);
    if s' != s {
      var frames := s.threads[t].frames;
      assert s'.threads[t].frames[..|frames|] == frames == frames[..|frames|];
      MoreFramesStay(s, s', t, |frames|);
    }
  }

  lemma ConnectStays(s: State, t: nat)
    requires Safe(s) && OwnConnections(s) && t < |s.threads| && Unsettled(s.threads[t].frames)
    ensures Stays(s, Connect(s, t), t)
  {
    var s', frames := Connect(s, t), s.threads[t].frames;
    if s' != s {
      var i :| 0 <= i < |frames| && frames[i].write && (frames[i].phase.InBody? || frames[i].phase.Ended?);
      assert ThreadOk(s.threads[t], s.connections);
      assert FrameOk(frames[i], i == 0, i == |frames| - 1, s.threads[t].job.Some?, s.connections);
      assert frames[i].conn == s.threads[t].conn;
      hide Safe, OwnConnections, ThreadOk;
      assert s'.threads[t].frames[..|frames| - 1] == frames[..|frames| - 1];
      BelowTop(frames);
      MoreFramesStay(s, s', t, |frames| - 1);
    }
  }

  lemma PhaseStays(s: State, s': State, t: nat, phase: Phase)
    requires HasTop(s, t) && Unsettled(s.threads[t].frames)
    requires s'.threads == PutTop(s, t, Top(s, t).(phase := phase)).threads
    requires Top(s, t).write && (Top(s, t).phase.InBody? || Top(s, t).phase.Ended?) ==> phase.InBody? || phase.Ended?
    ensures Stays(s, s', t)
  {
    var frames := s.threads[t].frames;
    if Top(s, t).write && (Top(s, t).phase.InBody? || Top(s, t).phase.Ended?) {
      assert s'.threads[t].frames[|frames| - 1].phase == phase;
    } else {
      BelowTop(frames);
      assert s'.threads[t].frames[..|frames| - 1] == frames[..|frames| - 1];
      MoreFramesStay(s, s', t, |frames| - 1);
    }
  }

  lemma LeaveStays(s: State, t: nat)
    requires t < |s.threads| && Unsettled(s.threads[t].frames)
    ensures Stays(s, Leave(s, t), t)
  {
    var s', frames := Leave(s, t), s.threads[t].frames;
    if s' != s {
      BelowTop(frames);
      assert s'.threads[t].frames == frames[..|frames| - 1];
      assert frames[..|frames| - 1][..|frames| - 1] == frames[..|frames| - 1];
      MoreFramesStay(s, s', t, |frames| - 1);
    }
  }

  lemma PhasesStay(s: State, a: Action)
    requires a.ATakeLock? || a.ACall? || a.AEndCall?
    requires a.t < |s.threads| && Unsettled(s.threads[a.t].frames)
    ensures Stays(s, Next(s, a), a.t)
  {
    if Next(s, a) != s {
      PhaseChanges(s, a);
      EndsAfterBody(s, a);
      hide Next;
      PhaseStays(s, Next(s, a), a.t, Top(Next(s, a), a.t).phase);
    }
  }

  lemma EndsAfterBody(s: State, a: Action)
    requires (a.ATakeLock? || a.ACall? || a.AEndCall?) && Next(s, a) != s
    ensures HasTop(s, a.t) && HasTop(Next(s, a), a.t) && !Top(s, a.t).phase.Ended?
    ensures Top(s, a.t).phase.InBody? ==> Top(Next(s, a), a.t).phase.Ended?
  {
  }

  /** The thread that acts in an operation, if the action is one of an operation. */
  predicate Operation(a: Action) {
    a.AEnter? || a.AConnect? || a.ATakeLock? || a.ACall? || a.AEndCall? || a.ASettle? || a.ALeave?
  }

  /** An action of an operation touches no other thread; the other actions touch no frames. */
  ghost predicate Untouched(s: State, s': State, t: nat)
    requires t < |s.threads|
  {
    t < |s'.threads| && s'.threads[t].frames == s.threads[t].frames && s'.threads[t].conn == s.threads[t].conn
  }

  lemma OthersUntouched(s: State, a: Action, t: nat)
    requires t < |s.threads| && Operation(a) && a.t != t
    ensures Untouched(s, Next(s, a), t)
  {
    match a {
      case AEnter(u, write) => EnterUntouched(s, u, write, t);
      case AConnect(u) => ConnectUntouched(s, u, t);
      case ALeave(u) => LeaveUntouched(s, u, t);
      case _ => PhasesUntouched(s, a, t);
    }
    hide Enter, Connect, TakeLock, Call, EndCall, Settle, Leave;
  }

  lemma EnterUntouched(s: State, u: nat, write: bool, t: nat)
    requires t < |s.threads| && u != t
    ensures Untouched(s, Enter(s, u, write), t)
  {
  }

  lemma ConnectUntouched(s: State, u: nat, t: nat)
    requires t < |s.threads| && u != t
    ensures Untouched(s, Connect(s, u), t)
  {
  }

  lemma PhasesUntouched(s: State, a: Action, t: nat)
    requires t < |s.threads| && (a.ATakeLock? || a.ACall? || a.AEndCall? || a.ASettle?) && a.t != t
    ensures Untouched(s, Next(s, a), t)
  {
    if Next(s, a) != s { PhaseChanges(s, a); }
    hide Next;
  }

  lemma LeaveUntouched(s: State, u: nat, t: nat)
    requires t < |s.threads| && u != t
    ensures Untouched(s, Leave(s, u), t)
  {
  }

  lemma JobsUntouched(s: State, a: Action, t: nat)
    requires t < |s.threads| && !Operation(a) && !a.ACloseConnections?
    ensures Untouched(s, Next(s, a), t)
  {
  }

  /** A step that does not settle the thread's top write leaves an unsettled write unsettled. */
  lemma StaysUnsettled(s: State, a: Action, t: nat)
    requires Safe(s) && OwnConnections(s) && t < |s.threads| && Unsettled(s.threads[t].frames)
    requires !(a.ASettle? && a.t == t && Settles(s, t))
    ensures Stays(s, Next(s, a), t)
  {
    if Operation(a) && a.t == t {
      match a {
        case AEnter(_, write) => EnterStays(s, t, write);
        case AConnect(_) => ConnectStays(s, t);
        case ASettle(_, commitFails) => SettleStays(s, t, commitFails);
        case ALeave(_) => LeaveStays(s, t);
        case _ => PhasesStay(s, a);
      }
    } else if Operation(a) {
      OthersUntouched(s, a, t);
    } else if a.ACloseConnections? {
      Quiet(s);
    } else {
      JobsUntouched(s, a, t);
    }
    hide Safe, OwnConnections, Enter, Connect, TakeLock, Call, EndCall, Settle, Leave;
  }

  lemma TopConnected(s: State, t: nat)
    requires Safe(s) && OwnConnections(s) && HasTop(s, t) && !Top(s, t).phase.Opening?
    ensures Top(s, t).conn.Some? && Top(s, t).conn == s.threads[t].conn
  {
    assert ThreadOk(s.threads[t], s.connections);
    var i := |s.threads[t].frames| - 1;
    assert FrameOk(s.threads[t].frames[i], i == 0, true, s.threads[t].job.Some?, s.connections);
  }

  lemma SettleStays(s: State, t: nat, commitFails: bool)
    requires Safe(s) && OwnConnections(s) && t < |s.threads| && Unsettled(s.threads[t].frames) && !Settles(s, t)
    ensures Stays(s, Settle(s, t, commitFails), t)
  {
    if HasTop(s, t) && !Top(s, t).phase.Opening? { TopConnected(s, t); }
  }

  /** Only an operation that begins gives a thread its first frame. */
  lemma StaysIdle(s: State, a: Action, t: nat)
    requires t < |s.threads| && s.threads[t].frames == [] && !(Begins(s, a) && a.t == t)
    ensures t < |Next(s, a).threads| && Next(s, a).threads[t].frames == []
  {
    if Operation(a) && a.t != t {
      OthersUntouched(s, a, t);
    } else if !Operation(a) && !a.ACloseConnections? {
      JobsUntouched(s, a, t);
    }
    hide CanOpen;
  }

  lemma SameThreadCount(s: State, a: Action)
    ensures |Next(s, a).threads| == |s.threads|
  {
    match a {
      case AEnter(t, write) => EnterCount(s, t, write);
      case ALeave(t) => LeaveCount(s, t);
      case ASettle(t, commitFails) => SettleCount(s, t, commitFails);
      case _ =>
    }
    hide Enter, Leave, Settle, CanOpen, CanLeave;
  }

  lemma EnterCount(s: State, t: nat, write: bool)
    ensures |Enter(s, t, write).threads| == |s.threads|
  {
  }

  lemma LeaveCount(s: State, t: nat)
    ensures |Leave(s, t).threads| == |s.threads|
  {
  }

  lemma SettleCount(s: State, t: nat, commitFails: bool)
    ensures |Settle(s, t, commitFails).threads| == |s.threads|
  {
  }

  // ---------- every step keeps the ledger ----------

  lemma ModifyKeepsLedger(l: Ledger, t: nat)
    requires LedgerOk(l)
    ensures LedgerOk(Step(l, Modify(t)))
  {
    var l' := Step(l, Modify(t));
    if l' != l {
      TopConnected(l.s, t);
      assert SpanOk(l, t);
      hide Safe, OwnConnections;
      assert Unsettled(l.s.threads[t].frames) by {
        var i := |l.s.threads[t].frames| - 1;
        assert l.s.threads[t].frames[i].write && l.s.threads[t].frames[i].phase.InBody?;
      }
      hide Unsettled;
      forall i | 0 <= i < |l'.changes| ensures PendingOk(l', i) {
        if i < |l.changes| { assert PendingOk(l, i); }
      }
      forall u | 0 <= u < |l'.s.threads| ensures SpanOk(l', u) { assert SpanOk(l, u); }
    }
  }

  lemma BeginKeepsLedger(l: Ledger, a: Action)
    requires LedgerOk(l) && Begins(l.s, a)
    ensures LedgerOk(Step(l, Machine(a)))
  {
    var l' := Step(l, Machine(a));
    NextKeepsSafe(l.s, a);
    NextKeepsOwn(l.s, a);
    SameThreadCount(l.s, a);
    forall u | 0 <= u < |l.s.threads| && u != a.t ensures Untouched(l.s, l'.s, u) { OthersUntouched(l.s, a, u); }
    hide Safe, OwnConnections, Next;
    forall i | 0 <= i < |l'.changes| ensures PendingOk(l', i) { assert PendingOk(l, i); }
    forall u | 0 <= u < |l'.s.threads| ensures SpanOk(l', u) { assert SpanOk(l, u); }
  }

  lemma SettleKeepsLedger(l: Ledger, t: nat, commitFails: bool)
    requires LedgerOk(l) && Settles(l.s, t)
    ensures LedgerOk(Step(l, Machine(ASettle(t, commitFails))))
  {
    var a := ASettle(t, commitFails);
    var l' := Step(l, Machine(a));
    NextKeepsSafe(l.s, a);
    NextKeepsOwn(l.s, a);
    SameThreadCount(l.s, a);
    TopConnected(l.s, t);
    forall u | 0 <= u < |l.s.threads| && u != t ensures Untouched(l.s, l'.s, u) { OthersUntouched(l.s, a, u); }
    hide Safe, Next;
    forall i | 0 <= i < |l'.changes| ensures PendingOk(l', i) {
      assert PendingOk(l, i);
      OnlyOwnDecided(l, t, commitFails, i);
      hide OwnConnections;
    }
    forall u | 0 <= u < |l'.s.threads| ensures SpanOk(l', u) {
      assert SpanOk(l, u);
      forall i | 0 <= i < |l.changes| && l.changes[i].thread == u && u != t ensures l'.changes[i] == l.changes[i] {
        OnlyOwnDecided(l, t, commitFails, i);
      }
      hide OwnConnections, PendingOk;
    }
  }

  /** A commit or rollback decides the pending changes of its own thread only. */
  lemma OnlyOwnDecided(l: Ledger, t: nat, commitFails: bool, i: nat)
    requires OwnConnections(l.s) && Settles(l.s, t) && i < |l.changes| && PendingOk(l, i)
    requires Top(l.s, t).conn == l.s.threads[t].conn
    ensures var outcome := OutcomeOf(l.s, t, commitFails);
      Decide(l.changes, Top(l.s, t).conn.value, outcome)[i] ==
        if l.changes[i].thread == t && l.changes[i].outcome == Pending then l.changes[i].(outcome := outcome) else l.changes[i]
  {
  }

  lemma OtherKeepsLedger(l: Ledger, a: Action)
    requires LedgerOk(l) && !Begins(l.s, a) && !(a.ASettle? && Settles(l.s, a.t))
    ensures LedgerOk(Step(l, Machine(a)))
  {
    var l' := Step(l, Machine(a));
    NextKeepsSafe(l.s, a);
    NextKeepsOwn(l.s, a);
    SameThreadCount(l.s, a);
    forall i | 0 <= i < |l.changes| ensures PendingOk(l', i) {
      assert PendingOk(l, i);
      if l.changes[i].outcome == Pending { StaysUnsettled(l.s, a, l.changes[i].thread); }
    }
    forall u | 0 <= u < |l.s.threads| ensures SpanOk(l', u) {
      assert SpanOk(l, u);
      if l.s.threads[u].frames == [] { StaysIdle(l.s, a, u); }
    }
    hide Safe, OwnConnections, Next, PendingOk, SpanOk;
  }

  lemma StepKeepsLedger(l: Ledger, e: Event)
    requires LedgerOk(l)
    ensures LedgerOk(Step(l, e))
  {
    hide LedgerOk;
    match e {
      case Modify(t) => ModifyKeepsLedger(l, t);
      case Machine(a) =>
        if Begins(l.s, a) {
          BeginKeepsLedger(l, a);
        } else if a.ASettle? && Settles(l.s, a.t) {
          SettleKeepsLedger(l, a.t, a.commitFails);
        } else {
          OtherKeepsLedger(l, a);
        }
    }
  }

  lemma {:induction false} RunKeepsLedger(threads: nat, creator: nat, events: seq<Event>)
    requires creator < threads
    ensures LedgerOk(Run(Start(threads, creator), events))
  {
    if events == [] {
      ReachableIsSafe(threads, creator, []);
    } else {
      RunKeepsLedger(threads, creator, events[..|events| - 1]);
      StepKeepsLedger(Run(Start(threads, creator), events[..|events| - 1]), events[|events| - 1]);
    }
  }

  // ---------- what this means ----------

  /** A write that is not nested, and in which no other write was nested, is atomic: its commit or
      rollback decides all its changes alike, and no other change. */
  lemma SoleWriteIsAtomic(l: Ledger, t: nat, commitFails: bool, i: nat)
    requires LedgerOk(l) && Settles(l.s, t) && |l.s.threads[t].frames| == 1 && i < |l.changes|
    requires t in l.spans && !l.spans[t].settled
    ensures var l' := Step(l, Machine(ASettle(t, commitFails)));
      |l'.changes| == |l.changes|
      && l'.changes[i].outcome == if l.changes[i].thread == t && l.spans[t].from <= i then OutcomeOf(l.s, t, commitFails)
                                  else l.changes[i].outcome
  {
    assert SpanOk(l, t) && PendingOk(l, i);
    TopConnected(l.s, t);
    OnlyOwnDecided(l, t, commitFails, i);
    hide Safe, Next, OwnConnections;
  }

  /** Any commit or rollback, nested or not, decides exactly the pending changes of its thread, those
      of the writes around it included. */
  lemma SettleDecides(l: Ledger, t: nat, commitFails: bool, i: nat)
    requires LedgerOk(l) && i < |l.changes|
    requires HasTop(l.s, t) && Top(l.s, t).write && Top(l.s, t).phase.Ended?
    ensures var l' := Step(l, Machine(ASettle(t, commitFails)));
      |l'.changes| == |l.changes|
      && l'.changes[i].thread == l.changes[i].thread
      && l'.changes[i].outcome == if l.changes[i].thread != t || l.changes[i].outcome != Pending then l.changes[i].outcome
                                  else if !Top(l.s, t).phase.raised && !commitFails then Durable else Discarded
  {
    assert PendingOk(l, i);
    TopConnected(l.s, t);
    OnlyOwnDecided(l, t, commitFails, i);
    hide Safe, Next, OwnConnections;
  }

  /** What is decided stays decided, in every later run. */
  lemma {:induction false} OutcomesAreFinal(l: Ledger, events: seq<Event>, i: nat)
    requires i < |l.changes| && l.changes[i].outcome != Pending
    ensures var l' := Run(l, events); i < |l'.changes| && l'.changes[i] == l.changes[i]
  {
    if events != [] {
      OutcomesAreFinal(l, events[..|events| - 1], i);
      hide Next;
    }
  }

  /** A thread without an open write has nothing pending, so nobody else can publish it later. */
  lemma NothingPendingOutside(l: Ledger, t: nat, i: nat)
    requires LedgerOk(l) && i < |l.changes| && l.changes[i].thread == t
    requires t < |l.s.threads| && !Unsettled(l.s.threads[t].frames)
    ensures l.changes[i].outcome != Pending
  {
    assert PendingOk(l, i);
  }

  /** A commit or rollback of thread `t`. */
  predicate SettlesFor(l: Ledger, e: Event, t: nat) {
    e.Machine? && e.a.ASettle? && e.a.t == t && Settles(l.s, t)
  }

  lemma StepKeepsPending(l: Ledger, e: Event, i: nat)
    requires LedgerOk(l) && i < |l.changes| && l.changes[i].outcome == Pending
    requires !SettlesFor(l, e, l.changes[i].thread)
    ensures i < |Step(l, e).changes| && Step(l, e).changes[i] == l.changes[i]
  {
    if e.Machine? && e.a.ASettle? && Settles(l.s, e.a.t) {
      assert PendingOk(l, i);
      TopConnected(l.s, e.a.t);
      OnlyOwnDecided(l, e.a.t, e.a.commitFails, i);
    }
    hide Safe, Next, OwnConnections;
  }

  /** None of the events is a commit or rollback of thread `t`. */
  ghost predicate NoneSettles(l: Ledger, events: seq<Event>, t: nat) {
    forall j | 0 <= j < |events| :: !SettlesFor(Run(l, events[..j]), events[j], t)
  }

  /** A change stays pending as long as its thread neither commits nor rolls back. */
  lemma {:induction false} StaysPending(l: Ledger, events: seq<Event>, i: nat)
    requires LedgerOk(l) && i < |l.changes| && l.changes[i].outcome == Pending && NoneSettles(l, events, l.changes[i].thread)
    ensures var l' := Run(l, events); LedgerOk(l') && i < |l'.changes| && l'.changes[i] == l.changes[i]
  {
    hide Step, SettlesFor, LedgerOk;
    if events != [] {
      var n := |events| - 1;
      NoneSettlesBefore(l, events, l.changes[i].thread);
      hide NoneSettles;
      StaysPending(l, events[..n], i);
      StepKeepsPending(Run(l, events[..n]), events[n], i);
      StepKeepsLedger(Run(l, events[..n]), events[n]);
    }
  }

  lemma NoneSettlesBefore(l: Ledger, events: seq<Event>, t: nat)
    requires events != [] && NoneSettles(l, events, t)
    ensures var n := |events| - 1;
      NoneSettles(l, events[..n], t) && !SettlesFor(Run(l, events[..n]), events[n], t)
  {
    hide Run, SettlesFor;
    var n := |events| - 1;
    assert forall j | 0 <= j < n :: events[..n][..j] == events[..j];
  }

  /** The law of the ledger: what becomes of a change is decided by the first commit or rollback of
      its thread after it, at whatever depth, and by nothing else. */
  lemma FirstSettleDecides(l: Ledger, t: nat, between: seq<Event>, commitFails: bool, after: seq<Event>)
    requires LedgerOk(l) && HasTop(l.s, t) && Top(l.s, t).write && Top(l.s, t).phase == InBody
    requires var made := Step(l, Modify(t)); NoneSettles(made, between, t)
    requires var s := Run(Step(l, Modify(t)), between).s; HasTop(s, t) && Top(s, t).write && Top(s, t).phase.Ended?
    ensures var at := Run(Step(l, Modify(t)), between);
            var end := Run(Step(at, Machine(ASettle(t, commitFails))), after);
      |l.changes| < |end.changes|
      && end.changes[|l.changes|].thread == t
      && end.changes[|l.changes|].outcome == if !Top(at.s, t).phase.raised && !commitFails then Durable else Discarded
  {
    var i, made := |l.changes|, Step(l, Modify(t));
    TopConnected(l.s, t);
    StepKeepsLedger(l, Modify(t));
    assert i < |made.changes| && made.changes[i].thread == t && made.changes[i].outcome == Pending;
    hide Step, LedgerOk, NoneSettles, Settles;
    StaysPending(made, between, i);
    var at := Run(made, between);
    SettleDecides(at, t, commitFails, i);
    OutcomesAreFinal(Step(at, Machine(ASettle(t, commitFails))), after, i);
  }

  /** So an outermost write ends with all changes of its operation alike exactly when no write nested
      in it has decided one of them the other way. */
  lemma AtomicIff(l: Ledger, t: nat, commitFails: bool)
    requires LedgerOk(l) && Settles(l.s, t) && t in l.spans
    ensures var outcome, l' := OutcomeOf(l.s, t, commitFails), Step(l, Machine(ASettle(t, commitFails)));
      |l'.changes| == |l.changes|
      && ((forall i | l.spans[t].from <= i < |l.changes| && l.changes[i].thread == t :: l'.changes[i].outcome == outcome)
          <==> (forall i | l.spans[t].from <= i < |l.changes| && l.changes[i].thread == t ::
                  l.changes[i].outcome == Pending || l.changes[i].outcome == outcome))
  {
    forall i | 0 <= i < |l.changes| { SettleDecides(l, t, commitFails, i); }
    hide LedgerOk, Next;
  }

  // ---------- nested writes ----------

  /** When a nested write commits, what the write around it did so far is durable, whatever comes
      later, its own rollback included. */
  lemma InnerCommitPublishes(l: Ledger, t: nat, i: nat, later: seq<Event>)
    requires LedgerOk(l) && HasTop(l.s, t) && Top(l.s, t).write && Top(l.s, t).phase == Ended(false)
    requires i < |l.changes| && l.changes[i].thread == t && l.changes[i].outcome == Pending
    ensures var l' := Run(Step(l, Machine(ASettle(t, false))), later);
      i < |l'.changes| && l'.changes[i].outcome == Durable
  {
    SettleDecides(l, t, false, i);
    OutcomesAreFinal(Step(l, Machine(ASettle(t, false))), later, i);
    hide Step, LedgerOk;
  }

  /** Thread 0 alone, with these frames, lock and outcomes of its changes. */
  function At(frames: seq<Frame>, lock: Option<nat>, outcomes: seq<Outcome>, settled: bool): Ledger {
    Ledger(State([Thread(frames != [], Some(0), None, frames)], |frames|, false, true, false, false, {0}, {}, 1, lock, []),
           seq(|outcomes|, i requires 0 <= i < |outcomes| => Change(0, 0, outcomes[i])), map[0 := Span(0, settled)])
  }

  /** A write of thread 0, outermost or nested. */
  function W(nested: bool, phase: Phase): Frame {
    Frame(nested, true, if phase.Opening? then None else Some(0), phase)
  }

  const NESTED: seq<Event> :=
    [Machine(AEnter(0, true)), Machine(AConnect(0)), Machine(ATakeLock(0)), Machine(ACall(0)), Modify(0),
     Machine(AEnter(0, true)), Machine(AConnect(0)), Machine(ATakeLock(0)), Machine(ACall(0)), Machine(AEndCall(0, false)),
     Machine(ASettle(0, false)), Machine(ALeave(0)), Machine(AEndCall(0, true)), Machine(ASettle(0, false))]

  lemma Same(l: Ledger, k: Ledger)
    requires |l.s.threads| == 1 && |k.s.threads| == 1 && l.s.threads[0].frames == k.s.threads[0].frames
    requires l.s.threads[0].(frames := []) == k.s.threads[0].(frames := []) && l.s.(threads := []) == k.s.(threads := [])
    requires l.changes == k.changes && l.spans == k.spans
    ensures l == k
  {
    assert l.s.threads == [l.s.threads[0]] && k.s.threads == [k.s.threads[0]];
  }

  lemma OuterBegins()
    ensures Step(Start(1, 0), Machine(AEnter(0, true)))
         == At([W(false, Opening)], None, [], false)
    ensures Step(At([W(false, Opening)], None, [], false), Machine(AConnect(0)))
         == At([W(false, Connected)], None, [], false)
    ensures Step(At([W(false, Connected)], None, [], false), Machine(ATakeLock(0)))
         == At([W(false, Locked)], Some(0), [], false)
  {
    assert Start(1, 0).s.threads == [Thread(false, Some(0), None, [])];
    Same(Step(Start(1, 0), Machine(AEnter(0, true))), At([W(false, Opening)], None, [], false));
    Same(Step(At([W(false, Opening)], None, [], false), Machine(AConnect(0))), At([W(false, Connected)], None, [], false));
    Same(Step(At([W(false, Connected)], None, [], false), Machine(ATakeLock(0))), At([W(false, Locked)], Some(0), [], false));
  }

  lemma OuterModifies()
    ensures Step(At([W(false, Locked)], Some(0), [], false), Machine(ACall(0)))
         == At([W(false, InBody)], Some(0), [], false)
    ensures Step(At([W(false, InBody)], Some(0), [], false), Modify(0))
         == At([W(false, InBody)], Some(0), [Pending], false)
  {
    Same(Step(At([W(false, Locked)], Some(0), [], false), Machine(ACall(0))), At([W(false, InBody)], Some(0), [], false));
    Same(Step(At([W(false, InBody)], Some(0), [], false), Modify(0)), At([W(false, InBody)], Some(0), [Pending], false));
  }

  lemma InnerBegins()
    ensures Step(At([W(false, InBody)], Some(0), [Pending], false), Machine(AEnter(0, true)))
         == At([W(false, InBody), W(true, Opening)], Some(0), [Pending], false)
    ensures Step(At([W(false, InBody), W(true, Opening)], Some(0), [Pending], false), Machine(AConnect(0)))
         == At([W(false, InBody), W(true, Connected)], Some(0), [Pending], false)
    ensures Step(At([W(false, InBody), W(true, Connected)], Some(0), [Pending], false), Machine(ATakeLock(0)))
         == At([W(false, InBody), W(true, Locked)], Some(0), [Pending], false)
  {
    Same(Step(At([W(false, InBody)], Some(0), [Pending], false), Machine(AEnter(0, true))), At([W(false, InBody), W(true, Opening)], Some(0), [Pending], false));
    Same(Step(At([W(false, InBody), W(true, Opening)], Some(0), [Pending], false), Machine(AConnect(0))), At([W(false, InBody), W(true, Connected)], Some(0), [Pending], false));
    Same(Step(At([W(false, InBody), W(true, Connected)], Some(0), [Pending], false), Machine(ATakeLock(0))), At([W(false, InBody), W(true, Locked)], Some(0), [Pending], false));
  }

  lemma InnerRuns()
    ensures Step(At([W(false, InBody), W(true, Locked)], Some(0), [Pending], false), Machine(ACall(0)))
         == At([W(false, InBody), W(true, InBody)], Some(0), [Pending], false)
    ensures Step(At([W(false, InBody), W(true, InBody)], Some(0), [Pending], false), Machine(AEndCall(0, false)))
         == At([W(false, InBody), W(true, Ended(false))], Some(0), [Pending], false)
  {
    Same(Step(At([W(false, InBody), W(true, Locked)], Some(0), [Pending], false), Machine(ACall(0))), At([W(false, InBody), W(true, InBody)], Some(0), [Pending], false));
    Same(Step(At([W(false, InBody), W(true, InBody)], Some(0), [Pending], false), Machine(AEndCall(0, false))), At([W(false, InBody), W(true, Ended(false))], Some(0), [Pending], false));
  }

  lemma InnerCommits()
    ensures Step(At([W(false, InBody), W(true, Ended(false))], Some(0), [Pending], false), Machine(ASettle(0, false)))
         == At([W(false, InBody), W(true, Settled(true))], Some(0), [Durable], true)
  {
    Same(Step(At([W(false, InBody), W(true, Ended(false))], Some(0), [Pending], false), Machine(ASettle(0, false))), At([W(false, InBody), W(true, Settled(true))], Some(0), [Durable], true));
  }

  lemma InnerLeaves()
    ensures Step(At([W(false, InBody), W(true, Settled(true))], Some(0), [Durable], true), Machine(ALeave(0)))
         == At([W(false, InBody)], Some(0), [Durable], true)
  {
    assert [W(false, InBody), W(true, Settled(true))][..1] == [W(false, InBody)];
    assert [W(false, InBody)][0].HoldsLock();
    Same(Step(At([W(false, InBody), W(true, Settled(true))], Some(0), [Durable], true), Machine(ALeave(0))), At([W(false, InBody)], Some(0), [Durable], true));
  }

  lemma OuterRollsBack()
    ensures Step(At([W(false, InBody)], Some(0), [Durable], true), Machine(AEndCall(0, true)))
         == At([W(false, Ended(true))], Some(0), [Durable], true)
    ensures Step(At([W(false, Ended(true))], Some(0), [Durable], true), Machine(ASettle(0, false)))
         == At([W(false, Settled(false))], Some(0), [Durable], true)
  {
    Same(Step(At([W(false, InBody)], Some(0), [Durable], true), Machine(AEndCall(0, true))), At([W(false, Ended(true))], Some(0), [Durable], true));
    Same(Step(At([W(false, Ended(true))], Some(0), [Durable], true), Machine(ASettle(0, false))), At([W(false, Settled(false))], Some(0), [Durable], true));
  }

  lemma {:induction false} RunsTo(l: Ledger, ledgers: seq<Ledger>, events: seq<Event>)
    requires |ledgers| == |events| > 0 && ledgers[0] == Step(l, events[0])
    requires forall i | 0 < i < |ledgers| :: ledgers[i] == Step(ledgers[i - 1], events[i])
    ensures Run(l, events) == ledgers[|ledgers| - 1]
  {
    hide Step;
    var n := |events| - 1;
    if n > 0 {
      RunsTo(l, ledgers[..n], events[..n]);
    } else {
      assert Run(l, events[..0]) == l;
    }
  }

  /** So atomicity does not extend to nested writes: the outer write changes something, an inner one
      commits, the outer one rolls back, and its change is durable. */
  lemma OuterChangeSurvivesRollback()
    ensures var l := Run(Start(1, 0), NESTED);
      && |l.changes| == 1 && l.changes[0].outcome == Durable
      && HasTop(l.s, 0) && Top(l.s, 0) == W(false, Settled(false))
  {
    OuterBegins();
    OuterModifies();
    InnerBegins();
    InnerRuns();
    InnerCommits();
    InnerLeaves();
    OuterRollsBack();
    hide Step;
    var o := W(false, InBody);
    RunsTo(Start(1, 0),
           [At([W(false, Opening)], None, [], false), At([W(false, Connected)], None, [], false),
            At([W(false, Locked)], Some(0), [], false), At([o], Some(0), [], false), At([o], Some(0), [Pending], false),
            At([o, W(true, Opening)], Some(0), [Pending], false), At([o, W(true, Connected)], Some(0), [Pending], false),
            At([o, W(true, Locked)], Some(0), [Pending], false), At([o, W(true, InBody)], Some(0), [Pending], false),
            At([o, W(true, Ended(false))], Some(0), [Pending], false),
            At([o, W(true, Settled(true))], Some(0), [Durable], true), At([o], Some(0), [Durable], true),
            At([W(false, Ended(true))], Some(0), [Durable], true), At([W(false, Settled(false))], Some(0), [Durable], true)],
           NESTED);
  }
}
