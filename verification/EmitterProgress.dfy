/** The emitter is never stuck, and no frame is lost in silence. */
module EmitterProgress {
  import opened Wrappers
  import opened Framing
  import opened EmitterMachine
  import opened EmitterEffects
  import opened EmitterOwnership
  import opened EmitterOrder

  // ----- Progress -----

  /** What happens next if the daemon never does anything: the pending continuation, else the
      armed timer once it is due. */
  function Next(s: State): Label
    requires OnTime(s)
  {
    match s.pc
    case Idle => LStart
    case Dialing(_, i) =>
      var due := s.sockets[i].timer.value;
      if s.clock == due then LDialTimer(i) else LTick(due - s.clock)
    case Dialed(_, _) => LAfterDial
    case Writing(_, _, due) => if s.clock == due then LWriteTimer else LTick(due - s.clock)
    case Written(_, _) => LAfterWrite
    case Retried(_, _) => LAfterRetry
  }

  function Ahead(job: Job): nat {
    if job.attempt.First? then 6 else 0
  }

  /** Steps the frame in flight can still need, waiting for a timer included. */
  function Rank(s: State): nat
    requires OnTime(s)
  {
    match s.pc
    case Idle => 0
    case Retried(_, _) => 1
    case Written(job, _) => 2 + Ahead(job)
    case Writing(job, _, due) => 3 + Ahead(job) + if s.clock == due then 0 else 1
    case Dialed(job, _) => 5 + Ahead(job)
    case Dialing(job, i) => 6 + Ahead(job) + if s.clock == s.sockets[i].timer.value then 0 else 1
  }

  function Measure(s: State): nat
    requires OnTime(s)
  {
    14 * |s.queue| + Rank(s)
  }

  lemma CallDecreases(s: State)
    requires Enabled(s, LStart)
    ensures OnTime(Start(s)) && Rank(Start(s)) < 14
  {
  }

  lemma AfterDialDecreases(s: State)
    requires OnTime(s) && s.pc.Dialed?
    ensures OnTime(AfterDial(s)) && Rank(AfterDial(s)) < Rank(s) && AfterDial(s).queue == s.queue
  {
  }

  lemma AfterWriteDecreases(s: State)
    requires OnTime(s) && s.pc.Written?
    ensures OnTime(AfterWrite(s)) && Rank(AfterWrite(s)) < Rank(s) && AfterWrite(s).queue == s.queue
  {
  }

  lemma DialTimerDecreases(s: State)
    requires Owned(s) && OnTime(s) && s.pc.Dialing?
    ensures var t := OnDialTimer(s, s.pc.sock);
            OnTime(t) && Rank(t) < Rank(s) && t.queue == s.queue
  {
    assert SocketOk(s, s.pc.sock);
  }

  lemma NextDecreases(s: State)
    requires Owned(s) && OnTime(s) && 0 < Outstanding(s)
    ensures Enabled(s, Next(s)) && OnTime(Step(s, Next(s)))
    ensures Measure(Step(s, Next(s))) < Measure(s)
  {
    match s.pc
    case Idle => CallDecreases(s);
    case Dialing(_, i) => DialTimerDecreases(s);
    case Dialed(_, _) => AfterDialDecreases(s);
    case Writing(_, _, _) =>
    case Written(_, _) => AfterWriteDecreases(s);
    case Retried(_, _) => AfterRetryEffect(s);
  }

  /** Continuations, timers and the passing of time: no help from the daemon. */
  predicate IsOwn(l: Label) {
    l.LStart? || l.LAfterDial? || l.LAfterWrite? || l.LAfterRetry? || l.LDialTimer? || l.LWriteTimer? || l.LTick?
  }

  lemma OwnKeepsAccepted(s: State, l: Label)
    requires IsOwn(l)
    ensures Step(s, l).enqueued == s.enqueued && Step(s, l).due == s.due
  {
    if Enabled(s, l) {
      match l
      case LStart => StartTakes(s);
      case LAfterDial => AfterDialEffect(s);
      case LAfterWrite => AfterWriteEffect(s);
      case LAfterRetry => AfterRetryEffect(s);
      case _ => CallbackEffect(s, l);
    }
  }

  lemma {:induction false} Drain(s: State) returns (ls: seq<Label>)
    requires Owned(s) && Fifo(s) && OnTime(s) && Timely(s)
    ensures forall l :: l in ls ==> IsOwn(l)
    ensures var t := RunFrom(s, ls);
            && Outstanding(t) == 0 && t.enqueued == s.enqueued && t.due == s.due
            && Fifo(t) && Timely(t)
    decreases Measure(s)
  {
    if Outstanding(s) == 0 {
      return [];
    }
    var l := Next(s);
    var t := Step(s, l);
    NextDecreases(s);
    OwnKeepsAccepted(s, l);
    StepKeepsOwned(s, l);
    StepKeepsFifo(s, l);
    StepKeepsTimely(s, l);
    var later := Drain(t);
    ls := [l] + later;
    assert ls[1..] == later;
  }

  /** From every reachable state the emitter's own continuations and timers alone, with a daemon
      that never reacts, settle every accepted frame, each by its deadline. */
  lemma AlwaysDrains(s: State) returns (ls: seq<Label>)
    requires Reachable(s)
    ensures forall l :: l in ls ==> IsOwn(l)
    ensures var t := RunFrom(s, ls);
            && t.enqueued == s.enqueued && t.due == s.due
            && |t.settled| == |s.enqueued| == |s.due|
            && (forall k :: 0 <= k < |t.settled| ==>
                  t.settled[k].frame == s.enqueued[k] && t.settled[k].endedAt <= s.due[k])
  {
    ReachableOrder(s);
    ls := Drain(s);
    var t := RunFrom(s, ls);
    assert t.enqueued == Frames(t.settled) + [] + [] == Frames(t.settled);
    forall k | 0 <= k < |t.settled|
      ensures t.settled[k].frame == s.enqueued[k] && t.settled[k].endedAt <= s.due[k]
    {
      assert InTime(t.settled[k], t.due[k]) && t.enqueued[k] == Frames(t.settled)[k];
    }
  }

  // ----- What the world may do -----

  /** A connection may fail, or be hung up on unnoticed, at any time; any number of its bytes may
      leave; its write may be confirmed once all have left, and may fail in any case. */
  lemma ConnectionsAreAtRisk(s: State, i: nat)
    requires Reachable(s) && s.conn == Some(i)
    ensures i < |s.sockets| && Enabled(s, LConnError(i))
    ensures s.sockets[i].phase.Open? ==>
              var t := Step(s, LPeerClose(i)); t.conn == Some(i) && t.sockets[i].phase.Destroyed?
    ensures var traffic := s.sockets[i].traffic;
            forall n: nat :: s.sockets[i].phase.Open? && |traffic.wire| + n <= |Stream(traffic.sent)| ==>
              Step(s, LFlush(i, n)).sockets[i].traffic.wire == Stream(traffic.sent)[..|traffic.wire| + n]
    ensures s.pc.Writing? && s.pc.sock == i ==>
              && Step(s, LWriteCallback(true)).pc == Written(s.pc.job, true)
              && (s.sockets[i].traffic.wire == Stream(s.sockets[i].traffic.sent) ==>
                    Step(s, LWriteCallback(false)).pc == Written(s.pc.job, false))
  {
    ReachableOwned(s);
    assert SocketOk(s, i);
    forall n: nat
      | s.sockets[i].phase.Open? && |s.sockets[i].traffic.wire| + n <= |Stream(s.sockets[i].traffic.sent)|
      ensures Enabled(s, LFlush(i, n))
    {
      assert CanFlush(s.sockets[i].traffic, n);
    }
  }

  /** A pending dial may be answered or refused at any time, and `close` may come at any time. */
  lemma DialsAreAtRisk(s: State)
    requires Reachable(s)
    ensures s.pc.Dialing? ==>
              && Enabled(s, LConnect(s.pc.sock))
              && Step(s, LConnectError(s.pc.sock)).pc == Dialed(s.pc.job, true)
    ensures Step(s, LClose).closed
  {
    ReachableOwned(s);
    if s.pc.Dialing? {
      assert SocketOk(s, s.pc.sock);
    }
  }

  // ----- Diagnostics -----

  function Logged(s: State): int {
    |s.debug| + |s.warnings| - s.mark
  }

  /** During a retry a raised `suppress` flag is never a leftover of an earlier reset: whoever
      raised it has logged, within this `doWrite`. */
  ghost predicate Noisy(s: State) {
    && s.mark <= |s.debug| + |s.warnings|
    && (s.pc.Retried? ==> s.pc.job.attempt.Retry?)
    && (!s.pc.Idle? && s.pc.job.attempt.Retry? && s.suppress ==> 0 < Logged(s))
    && (s.pc.Retried? && !s.pc.delivered && !s.pc.job.attempt.logDrop ==> s.closed || 0 < Logged(s))
    && (forall k :: 0 <= k < |s.settled| && s.settled[k].outcome.Dropped? ==> 0 < s.settled[k].diagnostics)
  }

  lemma AfterDialNoisy(s: State)
    requires Noisy(s) && s.pc.Dialed?
    ensures Noisy(AfterDial(s))
  {
  }

  lemma AfterWriteNoisy(s: State)
    requires Noisy(s) && s.pc.Written?
    ensures Noisy(AfterWrite(s))
  {
  }

  lemma AfterRetryNoisy(s: State)
    requires Noisy(s) && s.pc.Retried?
    ensures Noisy(AfterRetry(s))
  {
  }

  lemma CallsNoisy(s: State)
    requires Noisy(s)
    ensures Noisy(Close(s))
    ensures s.pc.Idle? && s.queue != [] ==> Noisy(Start(s))
  {
  }

  lemma ConnectLogs(s: State, i: nat)
    requires i < |s.sockets|
    ensures var t := OnConnect(s, i);
            && t.debug == s.debug && t.suppress == s.suppress
            && (t.pc.Retried? ==> t.pc == s.pc)
            && (!s.pc.Idle? && !t.pc.Idle? ==> t.pc.job == s.pc.job)
  {
  }

  /** Callbacks log more, never less, and log when they raise `suppress`. */
  lemma CallbackLogs(s: State, l: Label)
    requires IsCallback(l)
    ensures var t := Step(s, l);
            && |s.debug| <= |t.debug|
            && (t.suppress && !s.suppress ==> |s.debug| < |t.debug|)
            && (t.pc.Retried? ==> t.pc == s.pc)
            && (!s.pc.Idle? && !t.pc.Idle? ==> t.pc.job == s.pc.job)
  {
    if Enabled(s, l) {
      match l
      case LConnect(i) => ConnectLogs(s, i);
      case _ =>
    }
  }

  lemma StepKeepsNoisy(s: State, l: Label)
    requires Noisy(s)
    ensures Noisy(Step(s, l))
  {
    if Enabled(s, l) {
      match l
      case LEmit(_) =>
      case LClose => CallsNoisy(s);
      case LStart => CallsNoisy(s);
      case LAfterDial => AfterDialNoisy(s);
      case LAfterWrite => AfterWriteNoisy(s);
      case LAfterRetry => AfterRetryNoisy(s);
      case _ =>
        CallbackEffect(s, l);
        CallbackLogs(s, l);
    }
  }

  lemma ReachableNoisy(s: State)
    requires Reachable(s)
    ensures Noisy(s)
  {
    forall t, l | Noisy(t) ensures Noisy(Step(t, l)) {
      StepKeepsNoisy(t, l);
    }
    ReachableInvariant(Noisy, s);
  }

  /** Every frame counted as dropped has left at least one debug or warning line during its own
      `doWrite`, even when `suppressNextWriteLog` was left over from an earlier idle reset. */
  lemma NoSilentDrop(s: State, k: nat)
    requires Reachable(s) && k < |s.settled| && s.settled[k].outcome.Dropped?
    ensures 0 < s.settled[k].diagnostics
  {
    ReachableNoisy(s);
  }
}
