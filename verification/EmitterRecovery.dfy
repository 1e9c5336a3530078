/** After any failure the emitter recovers by itself: with a daemon that is there again, the next
    frame is delivered, and reports everything lost before it. */
module EmitterRecovery {
  import opened Wrappers
  import opened Framing
  import opened EmitterMachine
  import opened EmitterEffects
  import opened EmitterOwnership
  import opened EmitterStreams

  // ----- A daemon that is there -----

  /** Step `l` from `s` is smooth for sockets from number `n` on: nobody closes the emitter, and the
      daemon accepts their dials and takes their bytes. To older sockets anything may happen. */
  predicate Smooth(s: State, l: Label, n: nat) {
    match l
    case LClose => false
    case LConnectError(i) => i < n
    case LDialTimer(i) => i < n
    case LConnError(i) => i < n
    case LPeerClose(i) => i < n
    case LWriteCallback(failed) => failed && s.pc.Writing? ==> s.pc.sock < n
    case LWriteTimer => s.pc.Writing? ==> s.pc.sock < n
    case _ => true
  }

  ghost predicate SmoothRun(s: State, ls: seq<Label>, n: nat)
    decreases |ls|
  {
    ls == [] || (Smooth(s, ls[0], n) && SmoothRun(Step(s, ls[0]), ls[1..], n))
  }

  // ----- The frame on its way -----

  /** Of a frame `f` to be reported with `drops` drops: where it can be while it has not settled. */
  ghost predicate OnItsWay(s: State, f: Frame, n: nat, drops: nat) {
    && !s.closed && n <= |s.sockets| <= n + 1
    && (s.conn == Some(n) ==> n < |s.sockets| && s.sockets[n].phase.Open?)
    && if s.pc.Idle? then
         && s.queue != [] && s.queue[0] == f && s.dropCount == drops && |s.sockets| == n
         && |f.serialise(drops)| <= MAX_FRAME_SIZE
       else
         && s.pc.job.frame == f && s.pc.job.captured == drops
         && var untried := s.pc.job.attempt.First? && |s.sockets| == n;
            match s.pc
            case Dialing(_, i) => i == n
            case Dialed(_, failed) => !failed && (s.conn == Some(n) || untried)
            case Writing(_, i, _) => (i == n && s.conn == Some(n)) || (i < n && untried)
            case Written(_, failed) => failed ==> untried
            case Retried(_, delivered) => delivered
  }

  /** Frame number `k` is `f` and has been acknowledged with `drops` drops. */
  ghost predicate Through(s: State, f: Frame, k: nat, drops: nat) {
    k < |s.settled| && s.settled[k].frame == f && s.settled[k].outcome == Acked(drops)
  }

  ghost predicate Recovering(s: State, f: Frame, k: nat, n: nat, drops: nat) {
    (|s.settled| == k && OnItsWay(s, f, n, drops)) || Through(s, f, k, drops)
  }

  lemma ThroughForever(s: State, l: Label, f: Frame, k: nat, drops: nat)
    requires Through(s, f, k, drops)
    ensures Through(Step(s, l), f, k, drops)
  {
    if Enabled(s, l) {
      match l
      case LEmit(_) =>
      case LClose => CloseEffect(s);
      case LStart => StartTakes(s);
      case LAfterDial => AfterDialEffect(s);
      case LAfterWrite => AfterWriteEffect(s);
      case LAfterRetry => AfterRetryEffect(s);
      case _ => CallbackEffect(s, l);
    }
  }

  lemma StartOnItsWay(s: State, f: Frame, n: nat, drops: nat)
    requires Owned(s) && OnItsWay(s, f, n, drops) && Enabled(s, LStart)
    ensures OnItsWay(Start(s), f, n, drops) && Start(s).settled == s.settled
  {
  }

  lemma AfterDialOnItsWay(s: State, f: Frame, n: nat, drops: nat)
    requires Owned(s) && OnItsWay(s, f, n, drops) && s.pc.Dialed?
    ensures OnItsWay(AfterDial(s), f, n, drops) && AfterDial(s).settled == s.settled
  {
  }

  lemma AfterWriteRecovers(s: State, f: Frame, n: nat, drops: nat)
    requires Owned(s) && OnItsWay(s, f, n, drops) && s.pc.Written?
    ensures Recovering(AfterWrite(s), f, |s.settled|, n, drops)
  {
  }

  lemma AfterRetryRecovers(s: State, f: Frame, n: nat, drops: nat)
    requires OnItsWay(s, f, n, drops) && s.pc.Retried?
    ensures Through(AfterRetry(s), f, |s.settled|, drops)
  {
    AfterRetryEffect(s);
  }

  lemma ConnectOnItsWay(s: State, f: Frame, n: nat, drops: nat, i: nat)
    requires Owned(s) && OnItsWay(s, f, n, drops) && Enabled(s, LConnect(i))
    ensures OnItsWay(OnConnect(s, i), f, n, drops)
  {
    assert SocketOk(s, i);
  }

  lemma OldDialsAreOver(s: State, f: Frame, n: nat, drops: nat, i: nat)
    requires Owned(s) && OnItsWay(s, f, n, drops) && i < n
    ensures !s.sockets[i].phase.Connecting? && s.sockets[i].timer.None?
  {
    assert SocketOk(s, i);
  }

  lemma CallbackOnItsWay(s: State, l: Label, f: Frame, n: nat, drops: nat)
    requires Owned(s) && OnItsWay(s, f, n, drops) && Enabled(s, l) && IsCallback(l) && Smooth(s, l, n)
    ensures OnItsWay(Step(s, l), f, n, drops)
  {
    match l
    case LConnect(i) => ConnectOnItsWay(s, f, n, drops, i);
    case LConnectError(i) => OldDialsAreOver(s, f, n, drops, i);
    case LDialTimer(i) => OldDialsAreOver(s, f, n, drops, i);
    case _ =>
  }

  lemma StepRecovers(s: State, l: Label, f: Frame, k: nat, n: nat, drops: nat)
    requires Owned(s) && Recovering(s, f, k, n, drops) && Smooth(s, l, n)
    ensures Recovering(Step(s, l), f, k, n, drops)
  {
    if Through(s, f, k, drops) {
      ThroughForever(s, l, f, k, drops);
    } else if Enabled(s, l) {
      match l
      case LEmit(_) =>
      case LStart => StartOnItsWay(s, f, n, drops);
      case LAfterDial => AfterDialOnItsWay(s, f, n, drops);
      case LAfterWrite => AfterWriteRecovers(s, f, n, drops);
      case LAfterRetry => AfterRetryRecovers(s, f, n, drops);
      case _ =>
        CallbackEffect(s, l);
        CallbackOnItsWay(s, l, f, n, drops);
    }
  }

  lemma {:induction false} RunRecovers(s: State, ls: seq<Label>, f: Frame, k: nat, n: nat, drops: nat)
    requires Reachable(s) && Recovering(s, f, k, n, drops) && SmoothRun(s, ls, n)
    ensures Recovering(RunFrom(s, ls), f, k, n, drops)
    decreases |ls|
  {
    if ls != [] {
      ReachableOwned(s);
      StepReachable(s, ls[0]);
      StepRecovers(s, ls[0], f, k, n, drops);
      RunRecovers(Step(s, ls[0]), ls[1..], f, k, n, drops);
    }
  }

  // ----- Getting through -----

  /** What happens next if the daemon does its part. */
  function Onward(s: State, n: nat): Label
    requires s.pc.Writing? ==> s.pc.sock < |s.sockets|
  {
    match s.pc
    case Idle => LStart
    case Dialing(_, i) => LConnect(i)
    case Dialed(_, _) => LAfterDial
    case Writing(_, i, _) =>
      var t := s.sockets[i].traffic;
      if i < n then LWriteCallback(true)
      else if !AllFlushed(t) && |t.wire| <= |Stream(t.sent)| then LFlush(i, |Stream(t.sent)| - |t.wire|)
      else LWriteCallback(false)
    case Written(_, _) => LAfterWrite
    case Retried(_, _) => LAfterRetry
  }

  function Later(job: Job): nat {
    if job.attempt.First? then 6 else 0
  }

  function Todo(s: State): nat {
    match s.pc
    case Idle => 14
    case Dialing(job, _) => 6 + Later(job)
    case Dialed(job, _) => 5 + Later(job)
    case Writing(job, i, _) =>
      3 + Later(job) + if i < |s.sockets| && AllFlushed(s.sockets[i].traffic) then 0 else 1
    case Written(job, _) => 2 + Later(job)
    case Retried(_, _) => 1
  }

  lemma OnwardAfterDial(s: State)
    requires s.pc.Dialed? && !s.pc.failed && !s.closed
    ensures Todo(AfterDial(s)) < Todo(s)
  {
  }

  lemma OnwardAfterWrite(s: State)
    requires s.pc.Written? && (s.pc.failed ==> s.pc.job.attempt.First?)
    ensures |AfterWrite(s).settled| > |s.settled| || Todo(AfterWrite(s)) < Todo(s)
  {
  }

  lemma OnwardConnect(s: State, i: nat)
    requires Owned(s) && s.pc.Dialing? && s.pc.sock == i
    ensures Enabled(s, LConnect(i)) && Todo(OnConnect(s, i)) < Todo(s)
  {
    assert SocketOk(s, i);
  }

  lemma OnwardWriting(s: State, f: Frame, n: nat, drops: nat)
    requires Owned(s) && Streams(s) && OnItsWay(s, f, n, drops) && s.pc.Writing?
    ensures Enabled(s, Onward(s, n)) && Todo(Step(s, Onward(s, n))) < Todo(s)
  {
    var i := s.pc.sock;
    assert StreamOk(s, i);
    if i >= n && !AllFlushed(s.sockets[i].traffic) {
      var t := s.sockets[i].traffic;
      assert Stream(t.sent)[..|Stream(t.sent)|] == Stream(t.sent);
    }
  }

  lemma OnwardDecreases(s: State, f: Frame, n: nat, drops: nat)
    requires Owned(s) && Streams(s) && OnItsWay(s, f, n, drops)
    ensures var l := Onward(s, n);
            && Enabled(s, l) && Smooth(s, l, n)
            && (|s.settled| < |Step(s, l).settled| || Todo(Step(s, l)) < Todo(s))
  {
    match s.pc
    case Idle => StartTakes(s);
    case Dialing(_, i) => OnwardConnect(s, i);
    case Dialed(_, _) => OnwardAfterDial(s);
    case Writing(_, _, _) => OnwardWriting(s, f, n, drops);
    case Written(_, _) => OnwardAfterWrite(s);
    case Retried(_, _) => AfterRetryEffect(s);
  }

  lemma {:induction false} Drive(s: State, f: Frame, k: nat, n: nat, drops: nat) returns (ls: seq<Label>)
    requires Reachable(s) && Recovering(s, f, k, n, drops)
    ensures SmoothRun(s, ls, n) && Through(RunFrom(s, ls), f, k, drops)
    decreases Todo(s)
  {
    if Through(s, f, k, drops) {
      return [];
    }
    ReachableStreams(s);
    var l := Onward(s, n);
    var t := Step(s, l);
    OnwardDecreases(s, f, n, drops);
    StepRecovers(s, l, f, k, n, drops);
    StepReachable(s, l);
    var later: seq<Label>;
    if Through(t, f, k, drops) {
      later := [];
    } else {
      later := Drive(t, f, k, n, drops);
    }
    ls := [l] + later;
    assert ls[1..] == later;
  }

  // ----- Main results -----

  /** An open emitter with nothing to do. What it takes for its connection may be dead. */
  predicate AtRest(s: State) {
    s.pc.Idle? && s.queue == [] && !s.closed
  }

  /** Whatever has happened before and whatever becomes of the connection, if the daemon accepts
      the next dial and takes what is written then, the next frame does not settle except as
      acknowledged, with all drops before it reported. */
  lemma NextFrameIsNotLost(s: State, f: Frame, ls: seq<Label>)
    requires Reachable(s) && AtRest(s) && |f.serialise(s.dropCount)| <= MAX_FRAME_SIZE
    requires SmoothRun(Emit(s, f), ls, |s.sockets|)
    ensures var t, k := RunFrom(Emit(s, f), ls), |s.settled|;
            k < |t.settled| ==> t.settled[k].frame == f && t.settled[k].outcome == Acked(s.dropCount)
  {
    ReachableOwned(s);
    assert Emit(s, f) == Step(s, LEmit(f));
    StepReachable(s, LEmit(f));
    RunRecovers(Emit(s, f), ls, f, |s.settled|, |s.sockets|, s.dropCount);
  }

  /** And with such a daemon it can always get there. */
  lemma NextFrameGetsThrough(s: State, f: Frame) returns (ls: seq<Label>)
    requires Reachable(s) && AtRest(s) && |f.serialise(s.dropCount)| <= MAX_FRAME_SIZE
    ensures SmoothRun(Emit(s, f), ls, |s.sockets|)
    ensures var t, k := RunFrom(Emit(s, f), ls), |s.settled|;
            k < |t.settled| && t.settled[k].frame == f && t.settled[k].outcome == Acked(s.dropCount)
  {
    ReachableOwned(s);
    assert Emit(s, f) == Step(s, LEmit(f));
    StepReachable(s, LEmit(f));
    ls := Drive(Emit(s, f), f, |s.settled|, |s.sockets|, s.dropCount);
  }
}
