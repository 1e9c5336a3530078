/** How many debug lines one peer reset leaves. */
module EmitterLogLines {
  import opened Wrappers
  import opened EmitterMachine
  import opened EmitterEffects
  import opened EmitterOwnership
  import opened EmitterProgress
  import opened EmitterOvercount

  /** In the run from `s`, an 'error' event of socket `i` comes while `i` is still the connection. */
  ghost predicate ErrorInTime(s: State, ls: seq<Label>, i: nat)
    decreases |ls|
  {
    && ls != []
    && ((ls[0] == LConnError(i) && s.conn == Some(i)) || ErrorInTime(Step(s, ls[0]), ls[1..], i))
  }

  // ----- From the first write to the end of the retry -----

  /** The frame in flight is being written, or has just been, on socket `i`. */
  predicate Trying(s: State, i: nat, attempt: Attempt) {
    && i < |s.sockets| && s.conn in {None, Some(i)}
    && ((s.pc.Writing? && s.pc.sock == i) || s.pc.Written?)
    && s.pc.job.attempt == attempt
  }

  predicate FirstTry(s: State, i: nat) {
    Trying(s, i, First)
  }

  /** It is being retried, with socket `i` behind it. */
  predicate SecondTry(s: State, i: nat, logDrop: bool) {
    && i < |s.sockets| && s.conn != Some(i) && !DialOpen(s, i)
    && !s.pc.Idle? && s.pc.job.attempt == Retry(logDrop)
  }

  lemma SettledGrows(s: State, l: Label)
    ensures |s.settled| <= |Step(s, l).settled|
  {
    if Enabled(s, l) {
      match l
      case LEmit(_) =>
      case LClose => CloseEffect(s);
      case LStart => StartTakes(s);
      case LAfterDial => AfterDialEffect(s);
      case LAfterWrite => AfterWriteEffect(s);
      case LAfterRetry => AfterRetryEffect(s);
      case _ => CallbackEffect(s, l);
    }
  }

  lemma {:induction false} RunSettledGrows(s: State, ls: seq<Label>)
    ensures |s.settled| <= |RunFrom(s, ls).settled|
    decreases |ls|
  {
    if ls != [] {
      SettledGrows(s, ls[0]);
      RunSettledGrows(Step(s, ls[0]), ls[1..]);
    }
  }

  lemma AfterWriteTries(s: State, i: nat)
    requires FirstTry(s, i) && s.pc.Written?
    ensures var t := AfterWrite(s);
            if s.pc.failed then SecondTry(t, i, !s.suppress) else |s.settled| < |t.settled|
  {
  }

  lemma ConnectKeepsTrying(s: State, i: nat, attempt: Attempt, j: nat)
    requires Owned(s) && Trying(s, i, attempt) && Enabled(s, LConnect(j))
    ensures Trying(OnConnect(s, j), i, attempt) && OnConnect(s, j).suppress == s.suppress
  {
    assert SocketOk(s, j);
  }

  /** Until the result of the write is looked at, the flag goes up exactly with an error in time. */
  lemma TryingStep(s: State, l: Label, i: nat, attempt: Attempt)
    requires Owned(s) && Trying(s, i, attempt) && !(Enabled(s, l) && l.LAfterWrite?)
    ensures Trying(Step(s, l), i, attempt)
    ensures Step(s, l).suppress == (s.suppress || (l == LConnError(i) && s.conn == Some(i)))
  {
    if Enabled(s, l) {
      match l
      case LConnect(j) => ConnectKeepsTrying(s, i, attempt, j);
      case LConnError(j) =>
      case _ =>
    }
  }

  lemma AfterDialSecondTry(s: State, i: nat, logDrop: bool)
    requires SecondTry(s, i, logDrop) && s.pc.Dialed?
    ensures SecondTry(AfterDial(s), i, logDrop)
  {
  }

  lemma AfterWriteSecondTry(s: State, i: nat, logDrop: bool)
    requires SecondTry(s, i, logDrop) && s.pc.Written?
    ensures SecondTry(AfterWrite(s), i, logDrop)
  {
  }

  lemma ConnectKeepsSecondTry(s: State, i: nat, logDrop: bool, j: nat)
    requires Owned(s) && SecondTry(s, i, logDrop) && Enabled(s, LConnect(j))
    ensures SecondTry(OnConnect(s, j), i, logDrop)
  {
    assert SocketOk(s, j);
  }

  lemma DialFailureKeepsSecondTry(s: State, i: nat, logDrop: bool, j: nat)
    requires SecondTry(s, i, logDrop)
    ensures SecondTry(SettleDial(Destroy(s, j), j, true), i, logDrop)
  {
  }

  lemma SecondTryStep(s: State, l: Label, i: nat, logDrop: bool)
    requires Owned(s) && SecondTry(s, i, logDrop)
    ensures |s.settled| < |Step(s, l).settled| || SecondTry(Step(s, l), i, logDrop)
  {
    if Enabled(s, l) {
      match l
      case LAfterDial => AfterDialSecondTry(s, i, logDrop);
      case LAfterWrite => AfterWriteSecondTry(s, i, logDrop);
      case LAfterRetry => AfterRetryEffect(s);
      case LConnect(j) => ConnectKeepsSecondTry(s, i, logDrop, j);
      case LConnectError(j) => DialFailureKeepsSecondTry(s, i, logDrop, j);
      case LDialTimer(j) => DialFailureKeepsSecondTry(s, i, logDrop, j);
      case _ =>
    }
  }

  lemma {:induction false} SecondTryRun(s: State, ls: seq<Label>, i: nat, logDrop: bool)
    requires Reachable(s) && SecondTry(s, i, logDrop) && |RunFrom(s, ls).settled| == |s.settled|
    ensures SecondTry(RunFrom(s, ls), i, logDrop) && !ErrorInTime(s, ls, i)
    decreases |ls|
  {
    if ls != [] {
      var t := Step(s, ls[0]);
      ReachableOwned(s);
      SecondTryStep(s, ls[0], i, logDrop);
      StepReachable(s, ls[0]);
      SettledGrows(s, ls[0]);
      RunSettledGrows(t, ls[1..]);
      SecondTryRun(t, ls[1..], i, logDrop);
    }
  }

  lemma {:induction false} FirstTryRun(s: State, ls: seq<Label>, i: nat)
    requires Reachable(s) && FirstTry(s, i)
    requires |RunFrom(s, ls).settled| == |s.settled| && RunFrom(s, ls).pc.Retried?
    ensures SecondTry(RunFrom(s, ls), i, !s.suppress && !ErrorInTime(s, ls, i))
    decreases |ls|
  {
    if ls != [] {
      var t := Step(s, ls[0]);
      ReachableOwned(s);
      StepReachable(s, ls[0]);
      SettledGrows(s, ls[0]);
      RunSettledGrows(t, ls[1..]);
      if Enabled(s, ls[0]) && ls[0].LAfterWrite? {
        AfterWriteTries(s, i);
        SecondTryRun(t, ls[1..], i, !s.suppress);
      } else {
        TryingStep(s, ls[0], i, First);
        FirstTryRun(t, ls[1..], i);
      }
    }
  }

  /** A retry that has returned stays so until its frame settles. */
  lemma {:induction false} RetriedRun(s: State, ls: seq<Label>)
    requires s.pc.Retried? && |RunFrom(s, ls).settled| == |s.settled|
    ensures RunFrom(s, ls).pc.Retried?
    decreases |ls|
  {
    if ls != [] {
      RunSettledGrows(Step(s, ls[0]), ls[1..]);
      if Enabled(s, ls[0]) && ls[0].LConnect? {
        ConnectLogs(s, ls[0].sock);
      } else if Enabled(s, ls[0]) && ls[0].LAfterRetry? {
        AfterRetryEffect(s);
      }
      RetriedRun(Step(s, ls[0]), ls[1..]);
    }
  }

  lemma {:induction false} RetryRun(s: State, ls: seq<Label>, i: nat, attempt: Attempt)
    requires Reachable(s) && Trying(s, i, attempt) && attempt.Retry?
    requires |RunFrom(s, ls).settled| == |s.settled| && RunFrom(s, ls).pc.Written?
    ensures Trying(RunFrom(s, ls), i, attempt)
    ensures RunFrom(s, ls).suppress == (s.suppress || ErrorInTime(s, ls, i))
    decreases |ls|
  {
    if ls != [] {
      var t := Step(s, ls[0]);
      ReachableOwned(s);
      StepReachable(s, ls[0]);
      SettledGrows(s, ls[0]);
      RunSettledGrows(t, ls[1..]);
      if Enabled(s, ls[0]) && ls[0].LAfterWrite? {
        RetriedRun(t, ls[1..]);
      } else {
        TryingStep(s, ls[0], i, attempt);
        RetryRun(t, ls[1..], i, attempt);
      }
    }
  }

  // ----- Lines and what they stand for -----

  function Lines(debug: seq<Stage>, stage: Stage): nat {
    if debug == [] then 0
    else Lines(debug[..|debug| - 1], stage) + if debug[|debug| - 1] == stage then 1 else 0
  }

  lemma LinesSnoc(debug: seq<Stage>, last: Stage, stage: Stage)
    ensures Lines(debug + [last], stage) == Lines(debug, stage) + if last == stage then 1 else 0
  {
    assert (debug + [last])[..|debug|] == debug;
  }

  /** Step `l` is a dial failing; an 'error' event of a connected socket. */
  predicate IsDialFailure(s: State, l: Label) {
    Enabled(s, l) && (l.LConnectError? || l.LDialTimer?)
  }

  predicate IsSocketError(s: State, l: Label) {
    Enabled(s, l) && l.LConnError?
  }

  /** How many of each happen in a run. */
  function DialFailures(s: State, ls: seq<Label>): nat
    decreases |ls|
  {
    if ls == [] then 0
    else (if IsDialFailure(s, ls[0]) then 1 else 0) + DialFailures(Step(s, ls[0]), ls[1..])
  }

  function SocketErrors(s: State, ls: seq<Label>): nat
    decreases |ls|
  {
    if ls == [] then 0
    else (if IsSocketError(s, ls[0]) then 1 else 0) + SocketErrors(Step(s, ls[0]), ls[1..])
  }

  /** A dial failure whose line is still to come. */
  function Pending(s: State): nat {
    if s.pc.Dialed? && s.pc.failed then 1 else 0
  }

  ghost predicate DialLinesGrow(s: State, t: State, n: nat) {
    Lines(t.debug, DialStage) + Pending(t) == Lines(s.debug, DialStage) + Pending(s) + n
  }

  ghost predicate ConnLinesGrow(s: State, t: State, n: nat) {
    Lines(t.debug, ConnStage) == Lines(s.debug, ConnStage) + n
  }

  ghost predicate SameLines(s: State, t: State) {
    DialLinesGrow(s, t, 0) && ConnLinesGrow(s, t, 0)
  }

  lemma LineAdded(s: State, t: State, stage: Stage)
    requires t.debug == s.debug + [stage]
    ensures Lines(t.debug, DialStage) == Lines(s.debug, DialStage) + if stage.DialStage? then 1 else 0
    ensures Lines(t.debug, ConnStage) == Lines(s.debug, ConnStage) + if stage.ConnStage? then 1 else 0
  {
    LinesSnoc(s.debug, stage, DialStage);
    LinesSnoc(s.debug, stage, ConnStage);
  }

  lemma AfterDialDebug(s: State)
    requires s.pc.Dialed?
    ensures AfterDial(s).debug == s.debug + if s.pc.failed then [DialStage] else []
    ensures Pending(AfterDial(s)) == 0
  {
  }

  lemma AfterDialLines(s: State)
    requires s.pc.Dialed?
    ensures SameLines(s, AfterDial(s))
  {
    AfterDialDebug(s);
    if s.pc.failed {
      LineAdded(s, AfterDial(s), DialStage);
    }
  }

  lemma AfterWriteDebug(s: State)
    requires s.pc.Written?
    ensures AfterWrite(s).debug in {s.debug, s.debug + [WriteStage]} && Pending(AfterWrite(s)) == 0
  {
  }

  lemma AfterWriteLines(s: State)
    requires s.pc.Written?
    ensures SameLines(s, AfterWrite(s))
  {
    AfterWriteDebug(s);
    if AfterWrite(s).debug != s.debug {
      LineAdded(s, AfterWrite(s), WriteStage);
    }
  }

  lemma AfterRetryDebug(s: State)
    requires s.pc.Retried?
    ensures AfterRetry(s).debug in {s.debug, s.debug + [WriteStage]} && Pending(AfterRetry(s)) == 0
  {
  }

  lemma AfterRetryLines(s: State)
    requires s.pc.Retried?
    ensures SameLines(s, AfterRetry(s))
  {
    AfterRetryDebug(s);
    if AfterRetry(s).debug != s.debug {
      LineAdded(s, AfterRetry(s), WriteStage);
    }
  }

  lemma StartLines(s: State)
    requires Enabled(s, LStart)
    ensures SameLines(s, Start(s))
  {
  }

  lemma ConnectLines(s: State, i: nat)
    requires Owned(s) && Enabled(s, LConnect(i))
    ensures SameLines(s, OnConnect(s, i))
  {
    assert SocketOk(s, i);
  }

  lemma DialFailureLines(s: State, i: nat)
    requires Owned(s) && (Enabled(s, LConnectError(i)) || Enabled(s, LDialTimer(i)))
    ensures var t := SettleDial(Destroy(s, i), i, true); DialLinesGrow(s, t, 1) && ConnLinesGrow(s, t, 0)
  {
    assert SocketOk(s, i);
  }

  lemma SocketErrorDebug(s: State, i: nat)
    ensures OnConnError(s, i).debug == s.debug + [ConnStage] && Pending(OnConnError(s, i)) == Pending(s)
  {
  }

  lemma SocketErrorLines(s: State, i: nat)
    ensures var t := OnConnError(s, i); DialLinesGrow(s, t, 0) && ConnLinesGrow(s, t, 1)
  {
    SocketErrorDebug(s, i);
    LineAdded(s, OnConnError(s, i), ConnStage);
  }

  lemma OtherLines(s: State, l: Label)
    requires Enabled(s, l) && !IsDialFailure(s, l) && !IsSocketError(s, l) && !l.LConnect?
    requires IsCallback(l) || l.LEmit? || l.LClose?
    ensures SameLines(s, Step(s, l))
  {
  }

  lemma StepLines(s: State, l: Label)
    requires Owned(s) && Enabled(s, l)
    ensures DialLinesGrow(s, Step(s, l), if IsDialFailure(s, l) then 1 else 0)
    ensures ConnLinesGrow(s, Step(s, l), if IsSocketError(s, l) then 1 else 0)
  {
    match l
    case LStart => StartLines(s);
    case LAfterDial => AfterDialLines(s);
    case LAfterWrite => AfterWriteLines(s);
    case LAfterRetry => AfterRetryLines(s);
    case LConnect(i) => ConnectLines(s, i);
    case LConnectError(i) => DialFailureLines(s, i);
    case LDialTimer(i) => DialFailureLines(s, i);
    case LConnError(i) => SocketErrorLines(s, i);
    case _ => OtherLines(s, l);
  }

  lemma {:induction false} RunLines(s: State, ls: seq<Label>)
    requires Reachable(s)
    ensures DialLinesGrow(s, RunFrom(s, ls), DialFailures(s, ls))
    ensures ConnLinesGrow(s, RunFrom(s, ls), SocketErrors(s, ls))
    decreases |ls|
  {
    if ls != [] {
      var t := Step(s, ls[0]);
      ReachableOwned(s);
      StepReachable(s, ls[0]);
      if Enabled(s, ls[0]) {
        StepLines(s, ls[0]);
      } else {
        assert t == s;
      }
      RunLines(t, ls[1..]);
    }
  }

  // ----- Main results -----

  /** In every run there are as many "dial" lines as failed dials, but for one whose frame has yet
      to resume, and as many "conn" lines as socket errors. */
  lemma EveryFailureHasItsLine(ls: seq<Label>)
    ensures var t := RunFrom(Init(), ls);
            && Lines(t.debug, DialStage) + Pending(t) == DialFailures(Init(), ls)
            && Lines(t.debug, ConnStage) == SocketErrors(Init(), ls)
  {
    InitReachable();
    RunLines(Init(), ls);
  }

  lemma StartKeepsFlag(s: State)
    requires Enabled(s, LStart)
    ensures Start(s).suppress == s.suppress
  {
  }

  lemma AfterDialKeepsFlag(s: State)
    requires s.pc.Dialed?
    ensures AfterDial(s).suppress == s.suppress
  {
  }

  lemma AfterWriteFlag(s: State)
    requires s.pc.Written?
    ensures AfterWrite(s).suppress == (!s.pc.failed && s.suppress)
  {
  }

  lemma AfterRetryKeepsFlag(s: State)
    requires s.pc.Retried?
    ensures AfterRetry(s).suppress == s.suppress
  {
  }

  /** The flag goes up with an error of the connection, down when a failed write is looked at, and
      stays otherwise. */
  lemma SuppressChanges(s: State, l: Label)
    ensures Step(s, l).suppress
            == if Enabled(s, l) && l.LConnError? && s.conn == Some(l.sock) then true
               else if Enabled(s, l) && l.LAfterWrite? && s.pc.failed then false
               else s.suppress
  {
    if Enabled(s, l) {
      match l
      case LStart => StartKeepsFlag(s);
      case LAfterDial => AfterDialKeepsFlag(s);
      case LAfterWrite => AfterWriteFlag(s);
      case LAfterRetry => AfterRetryKeepsFlag(s);
      case LConnect(i) => ConnectLogs(s, i);
      case _ =>
    }
  }

  /** The failure of a retried write gets a "write" line under the same condition. */
  lemma RetryLineIffNoErrorInTime(s: State, ls: seq<Label>)
    requires Reachable(s) && s.pc.Writing? && s.pc.job.attempt.Retry?
    requires var t := RunFrom(s, ls); |t.settled| == |s.settled| && t.pc.Written? && t.pc.failed
    ensures var t := RunFrom(s, ls);
            AfterWrite(t).debug
            == t.debug + if s.suppress || ErrorInTime(s, ls, s.pc.sock) then [] else [WriteStage]
  {
    ReachableOwned(s);
    RetryRun(s, ls, s.pc.sock, s.pc.job.attempt);
  }

  /** When a frame's write on socket `i` and its retry have both failed, the first failure gets its
      own "write" line if and only if the flag was down when the write began and no 'error' event
      of `i` came while `i` was still the connection. Such an event always gets a "conn" line: so a
      reset whose event comes later, or after `close`, leaves both. */
  lemma WriteLineIffNoErrorInTime(s: State, ls: seq<Label>)
    requires Reachable(s) && s.pc.Writing? && s.pc.job.attempt.First?
    requires var t := RunFrom(s, ls); |t.settled| == |s.settled| && t.pc.Retried? && !t.pc.delivered
    ensures var t := RunFrom(s, ls);
            AfterRetry(t).debug
            == t.debug + if s.suppress || ErrorInTime(s, ls, s.pc.sock) then [] else [WriteStage]
  {
    ReachableOwned(s);
    FirstTryRun(s, ls, s.pc.sock);
  }

  /** An 'error' event always leaves a line, and raises the flag exactly if it is in time. */
  lemma ErrorLine(s: State, i: nat)
    requires Reachable(s) && Enabled(s, LConnError(i))
    ensures var t := Step(s, LConnError(i));
            && t.debug == s.debug + [ConnStage]
            && t.suppress == (s.suppress || s.conn == Some(i))
  {
  }

  /** One reset, one lost frame, three lines: the failed write is handled before the event. */
  lemma OneResetThreeLines(f: Frame) returns (s: State)
    requires Fits(f, 0)
    ensures Reachable(s) && s.pc.Idle? && s.dropCount == 1
    ensures s.debug == [ConnStage, DialStage, WriteStage]
  {
    InitReachable();
    s := SubmitFrame(Init(), f, 0);
    ReachableOwned(s);
    s := Then(s, LWriteCallback(true));
    s := Then(s, LAfterWrite);
    s := Then(s, LConnError(0));
    s := Then(s, LConnectError(1));
    s := Then(s, LAfterDial);
    s := Then(s, LAfterRetry);
  }
}
