/** How long a dial and a write are given. The other bounds are from above; these are from below,
    in numbers. */
module EmitterTimers {
  import opened Wrappers
  import opened EmitterMachine
  import opened EmitterEffects
  import opened EmitterOwnership
  import opened EmitterOrder
  import opened EmitterProgress

  // ----- When a dial begins -----

  /** The step takes a frame that can be sent, or retries one, with nobody connected. */
  predicate NeedsDial(s: State, l: Label) {
    && !s.closed
    && ((l.LStart? && s.pc.Idle? && s.queue != [] && s.conn.None?
         && |s.queue[0].serialise(s.dropCount)| <= 0x10_0000)
        || (l.LAfterWrite? && s.pc.Written? && s.pc.failed && s.pc.job.attempt.First?))
  }

  /** One more socket, for which the frame waits, with its timer 500 ms ahead. */
  predicate NewDial(s: State, t: State) {
    && |t.sockets| == |s.sockets| + 1
    && t.sockets[|s.sockets|].timer == Some(s.clock + 500)
    && t.sockets[|s.sockets|].phase.Connecting?
    && t.pc.Dialing? && t.pc.sock == |s.sockets|
  }

  lemma StartDials(s: State)
    requires Enabled(s, LStart)
    ensures if NeedsDial(s, LStart) then NewDial(s, Start(s)) else Start(s).sockets == s.sockets
  {
  }

  lemma AfterWriteDials(s: State)
    requires s.pc.Written?
    ensures if NeedsDial(s, LAfterWrite) then NewDial(s, AfterWrite(s)) else |AfterWrite(s).sockets| == |s.sockets|
  {
  }

  lemma AfterDialDoesNotDial(s: State)
    requires s.pc.Dialed?
    ensures |AfterDial(s).sockets| == |s.sockets|
  {
  }

  lemma AfterRetryDoesNotDial(s: State)
    requires s.pc.Retried?
    ensures |AfterRetry(s).sockets| == |s.sockets|
  {
  }

  lemma ConnectDoesNotDial(s: State, i: nat)
    requires i < |s.sockets|
    ensures |OnConnect(s, i).sockets| == |s.sockets|
  {
  }

  /** A dial begins, with a timer of 500 ms, exactly when a frame that can be sent is taken with no
      connection, and when a first write has failed; and never in a closed emitter. */
  lemma DialBegins(s: State, l: Label)
    ensures if NeedsDial(s, l) then NewDial(s, Step(s, l)) else |Step(s, l).sockets| == |s.sockets|
  {
    if Enabled(s, l) {
      match l
      case LStart => StartDials(s);
      case LAfterDial => AfterDialDoesNotDial(s);
      case LAfterWrite => AfterWriteDials(s);
      case LAfterRetry => AfterRetryDoesNotDial(s);
      case LConnect(i) => ConnectDoesNotDial(s, i);
      case _ =>
    }
  }

  // ----- Its timer -----

  /** The timer of socket `i` is disarmed or still as it was set. */
  predicate TimerKept(s: State, i: nat, due: nat) {
    i < |s.sockets| && s.sockets[i].timer in {None, Some(due)}
  }

  lemma AfterDialKeepsTimer(s: State, i: nat, due: nat)
    requires s.pc.Dialed? && TimerKept(s, i, due)
    ensures TimerKept(AfterDial(s), i, due)
  {
  }

  lemma AfterWriteKeepsTimer(s: State, i: nat, due: nat)
    requires s.pc.Written? && TimerKept(s, i, due)
    ensures TimerKept(AfterWrite(s), i, due)
  {
  }

  lemma AfterRetryKeepsTimer(s: State, i: nat, due: nat)
    requires s.pc.Retried? && TimerKept(s, i, due)
    ensures TimerKept(AfterRetry(s), i, due)
  {
  }

  lemma ConnectKeepsTimer(s: State, i: nat, due: nat, j: nat)
    requires j < |s.sockets| && TimerKept(s, i, due)
    ensures TimerKept(OnConnect(s, j), i, due)
  {
  }

  lemma StartKeepsTimer(s: State, i: nat, due: nat)
    requires Enabled(s, LStart) && TimerKept(s, i, due)
    ensures TimerKept(Start(s), i, due)
  {
  }

  lemma DialFailureKeepsTimer(s: State, i: nat, due: nat, j: nat)
    requires TimerKept(s, i, due)
    ensures TimerKept(SettleDial(Destroy(s, j), j, true), i, due)
  {
  }

  lemma StepKeepsTimer(s: State, l: Label, i: nat, due: nat)
    requires TimerKept(s, i, due)
    ensures TimerKept(Step(s, l), i, due)
  {
    if Enabled(s, l) {
      match l
      case LStart => StartKeepsTimer(s, i, due);
      case LAfterDial => AfterDialKeepsTimer(s, i, due);
      case LAfterWrite => AfterWriteKeepsTimer(s, i, due);
      case LAfterRetry => AfterRetryKeepsTimer(s, i, due);
      case LConnect(j) => ConnectKeepsTimer(s, i, due, j);
      case LConnectError(j) => DialFailureKeepsTimer(s, i, due, j);
      case LDialTimer(j) => DialFailureKeepsTimer(s, i, due, j);
      case _ =>
    }
  }

  // ----- Main results -----

  /** Step `l` from `s` begins the dial on socket `i`. */
  predicate BeginsDial(s: State, l: Label, i: nat) {
    i == |s.sockets| && |Step(s, l).sockets| > i
  }

  lemma DialSteps(u: State, i: nat, due: nat, l: Label)
    requires Owned(u) && OnTime(u) && DialOpen(u, i) && TimerKept(u, i, due)
    ensures var t := Step(u, l);
            && u.clock <= due
            && (t.pc.Dialed? && t.pc.failed ==> l == LConnectError(i) || u.clock == due)
            && (l == LConnect(i) && !u.closed ==> t.conn == Some(i) && t.pc.Dialed? && !t.pc.failed)
  {
    assert SocketOk(u, i);
    if l.LConnect? && Enabled(u, l) {
      ConnectDialing(u, l.sock);
      assert SocketOk(u, l.sock);
    }
  }

  /** From the beginning of a dial on, as long as its frame waits: it fails only by an error of its
      socket or when 500 ms have passed; and a connection made before that is taken. */
  lemma DialGetsItsTime(s: State, l0: Label, i: nat, ls: seq<Label>, l: Label)
    requires Reachable(s) && BeginsDial(s, l0, i)
    requires DialOpen(RunFrom(Step(s, l0), ls), i)
    ensures var u := RunFrom(Step(s, l0), ls);
            var t := Step(u, l);
            && u.clock <= s.clock + 500
            && (t.pc.Dialed? && t.pc.failed ==> l == LConnectError(i) || u.clock == s.clock + 500)
            && (l == LConnect(i) && !u.closed ==> t.conn == Some(i) && t.pc.Dialed? && !t.pc.failed)
  {
    var s1, due := Step(s, l0), s.clock + 500;
    DialBegins(s, l0);
    StepReachable(s, l0);
    forall t, l | TimerKept(t, i, due) ensures TimerKept(Step(t, l), i, due) {
      StepKeepsTimer(t, l, i, due);
    }
    RunInvariant((t: State) => TimerKept(t, i, due), s1, ls);
    ReachableOwned(RunFrom(s1, ls));
    ReachablePunctual(RunFrom(s1, ls));
    DialSteps(RunFrom(s1, ls), i, due, l);
  }

  lemma DialBeginsNow(s: State, l: Label)
    requires NeedsDial(s, l)
    ensures Step(s, l).clock == s.clock && !Step(s, l).closed
  {
    match l
    case LStart => StartTakes(s);
    case LAfterWrite => AfterWriteClock(s);
  }

  /** A daemon that accepts within 500 ms is connected. */
  lemma PatientDialConnects(s: State, l0: Label, i: nat, ms: nat)
    requires Reachable(s) && BeginsDial(s, l0, i) && ms <= 500
    ensures var t := RunFrom(Step(s, l0), [LTick(ms), LConnect(i)]);
            t.conn == Some(i) && t.clock == s.clock + ms && t.pc.Dialed? && !t.pc.failed
  {
    var s1 := Step(s, l0);
    DialBegins(s, l0);
    StepReachable(s, l0);
    ReachableOwned(s1);
    assert SocketOk(s1, i);
    DialBeginsNow(s, l0);
    var s2 := Step(s1, LTick(ms));
    var ls := [LTick(ms), LConnect(i)];
    assert ls[1..] == [LConnect(i)] && ls[1..][1..] == [];
    assert RunFrom(s1, ls) == RunFrom(s2, [LConnect(i)]) == Step(s2, LConnect(i));
  }

  /** Step `l` from `s` begins a write. */
  predicate BeginsWrite(s: State, l: Label) {
    !s.pc.Writing? && Step(s, l).pc.Writing?
  }

  lemma WriteBegins(s: State, l: Label)
    requires BeginsWrite(s, l)
    ensures l == LAfterDial && Step(s, l).pc.deadline == s.clock + 100
  {
    match l
    case LStart => StartTakes(s);
    case LConnect(i) => ConnectLogs(s, i);
    case LAfterWrite =>
    case LAfterRetry => AfterRetryEffect(s);
    case _ =>
  }

  lemma WriteSteps(u: State, l: Label)
    requires OnTime(u) && u.pc.Writing?
    ensures var t := Step(u, l);
            && u.clock <= u.pc.deadline
            && (t.pc.Written? && t.pc.failed ==> l == LWriteCallback(true) || u.clock == u.pc.deadline)
            && (l == LWriteCallback(false) && Enabled(u, l) ==> t.pc == Written(u.pc.job, false))
  {
  }

  /** A write fails only by its callback or when 100 ms have passed. */
  lemma WriteGetsItsTime(s: State, l0: Label, ls: seq<Label>, l: Label)
    requires Reachable(s) && BeginsWrite(s, l0)
    requires RunFrom(Step(s, l0), ls).pc == Step(s, l0).pc
    ensures var u := RunFrom(Step(s, l0), ls);
            var t := Step(u, l);
            && u.clock <= s.clock + 100
            && (t.pc.Written? && t.pc.failed ==> l == LWriteCallback(true) || u.clock == s.clock + 100)
            && (l == LWriteCallback(false) && Enabled(u, l) ==> t.pc == Written(u.pc.job, false))
  {
    WriteBegins(s, l0);
    StepReachable(s, l0);
    RunInvariant((t: State) => true, Step(s, l0), ls);
    ReachablePunctual(RunFrom(Step(s, l0), ls));
    WriteSteps(RunFrom(Step(s, l0), ls), l);
  }
}
