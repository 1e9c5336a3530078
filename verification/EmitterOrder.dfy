/** Frames settle in the order `emit` accepted them, each within bounded time. */
module EmitterOrder {
  import opened Framing
  import opened EmitterMachine
  import opened EmitterEffects
  import opened EmitterOwnership

  // ----- First in, first out -----

  ghost function Frames(h: seq<Settled>): seq<Frame> {
    seq(|h|, i requires 0 <= i < |h| => h[i].frame)
  }

  ghost function Current(s: State): seq<Frame> {
    if s.pc.Idle? then [] else [s.pc.job.frame]
  }

  /** Settled frames, the frame in flight and the queue are the accepted frames, in order; and
      only a closed emitter skips frames, and then every one. */
  ghost predicate Fifo(s: State) {
    && s.enqueued == Frames(s.settled) + Current(s) + s.queue
    && (forall j :: 0 <= j < |s.settled| && s.settled[j].outcome.Skipped? ==> s.closed && s.pc.Idle?)
    && (forall j, k :: 0 <= j < k < |s.settled| && s.settled[j].outcome.Skipped? ==>
          s.settled[k].outcome.Skipped?)
  }

  lemma FinishKeepsFifo(s: State, t: State, o: Outcome)
    requires Fifo(s) && Finishes(s, t, o) && o != Skipped
    ensures Fifo(t)
  {
    assert Frames(t.settled) == Frames(s.settled) + Current(s);
    assert Frames(s.settled) + Current(s) + s.queue == Frames(t.settled) + [] + t.queue;
  }

  lemma TakeKeepsFifo(s: State, t: State)
    requires Fifo(s) && Takes(s, t) && t.closed == s.closed
    ensures Fifo(t)
  {
    assert s.queue == [s.queue[0]] + t.queue;
    if t.pc.Idle? {
      assert Frames(t.settled) == Frames(s.settled) + [s.queue[0]];
    }
    assert s.enqueued == Frames(t.settled) + Current(t) + t.queue;
  }

  lemma StepKeepsFifo(s: State, l: Label)
    requires Fifo(s)
    ensures Fifo(Step(s, l))
  {
    if Enabled(s, l) {
      match l
      case LEmit(frame) =>
        ConcatAssociative(Frames(s.settled) + Current(s), s.queue, [frame]);
      case LClose =>
      case LStart =>
        StartTakes(s);
        TakeKeepsFifo(s, Start(s));
      case LAfterDial =>
        AfterDialEffect(s);
        if !Continues(s, AfterDial(s)) {
          FinishKeepsFifo(s, AfterDial(s), Dropped);
        }
      case LAfterWrite =>
        AfterWriteEffect(s);
        if s.pc.job.attempt.First? && !s.pc.failed {
          FinishKeepsFifo(s, AfterWrite(s), Acked(s.pc.job.captured));
        }
      case LAfterRetry =>
        AfterRetryEffect(s);
        FinishKeepsFifo(s, AfterRetry(s), if s.pc.delivered then Acked(s.pc.job.captured) else Dropped);
      case _ =>
        CallbackEffect(s, l);
    }
  }

  // ----- Deadlines -----

  function RetryBudget(job: Job): nat {
    if job.attempt.First? then DIAL_TIMEOUT_MS + WRITE_TIMEOUT_MS else 0
  }

  /** The longest the frame in flight can still take, whatever the daemon does. */
  function Remaining(s: State): int {
    match s.pc
    case Idle => 0
    case Dialing(job, i) =>
      (if i < |s.sockets| && s.sockets[i].timer.Some? then s.sockets[i].timer.value - s.clock else 0)
      + WRITE_TIMEOUT_MS + RetryBudget(job)
    case Dialed(job, _) => WRITE_TIMEOUT_MS + RetryBudget(job)
    case Writing(job, _, deadline) => deadline - s.clock + RetryBudget(job)
    case Written(job, _) => RetryBudget(job)
    case Retried(_, _) => 0
  }

  /** No armed timer is overdue. */
  predicate OnTime(s: State) {
    && (s.pc.Dialing? ==>
          && s.pc.sock < |s.sockets| && s.sockets[s.pc.sock].timer.Some?
          && s.clock <= s.sockets[s.pc.sock].timer.value)
    && (s.pc.Writing? ==> s.clock <= s.pc.deadline)
  }

  /** When the frame in flight will have settled, at the latest. */
  function Horizon(s: State): int {
    s.clock + Remaining(s)
  }

  predicate InTime(e: Settled, due: nat) {
    e.endedAt <= due && e.endedAt <= e.startedAt + SETTLE_MS
  }

  ghost predicate Timely(s: State) {
    var k := |s.settled|;
    && |s.due| == k + |Current(s)| + |s.queue| && s.startedAt <= s.clock
    && (forall j :: 0 <= j < k ==> InTime(s.settled[j], s.due[j]))
    && (!s.pc.Idle? ==> Horizon(s) <= s.startedAt + SETTLE_MS && Horizon(s) <= s.due[k])
    && (forall j :: k + |Current(s)| <= j < |s.due| ==>
          Horizon(s) + SETTLE_MS * (j + 1 - k - |Current(s)|) <= s.due[j])
  }

  // Time only passes towards an armed deadline, and the deadlines add up.

  lemma AfterDialTime(s: State)
    requires OnTime(s) && s.pc.Dialed?
    ensures var t := AfterDial(s); OnTime(t) && (t.pc.Idle? || Horizon(t) <= Horizon(s))
  {
  }

  lemma AfterWriteTime(s: State)
    requires OnTime(s) && s.pc.Written?
    ensures var t := AfterWrite(s); OnTime(t) && (t.pc.Idle? || Horizon(t) <= Horizon(s))
  {
  }

  lemma ConnectTime(s: State, i: nat)
    requires Owned(s) && OnTime(s) && Enabled(s, LConnect(i))
    ensures var t := OnConnect(s, i); OnTime(t) && Horizon(t) <= Horizon(s)
  {
    assert SocketOk(s, i);
  }

  lemma DialFailureTime(s: State, i: nat)
    requires Owned(s) && OnTime(s) && (Enabled(s, LConnectError(i)) || Enabled(s, LDialTimer(i)))
    ensures var t := SettleDial(Destroy(s, i), i, true); OnTime(t) && Horizon(t) <= Horizon(s)
  {
    assert SocketOk(s, i);
  }

  lemma CallbackTime(s: State, l: Label)
    requires Owned(s) && OnTime(s) && IsCallback(l)
    ensures var t := Step(s, l); OnTime(t) && (t.pc.Idle? || Horizon(t) <= Horizon(s))
  {
    if Enabled(s, l) {
      match l
      case LConnect(i) => ConnectTime(s, i);
      case LConnectError(i) => DialFailureTime(s, i);
      case LDialTimer(i) => DialFailureTime(s, i);
      case _ =>
    }
  }

  lemma StartTime(s: State)
    requires Enabled(s, LStart)
    ensures var t := Start(s); OnTime(t) && Horizon(t) <= s.clock + SETTLE_MS
  {
  }

  lemma ContinueKeepsTimely(s: State, t: State)
    requires Timely(s) && Continues(s, t) && s.clock <= t.clock
    requires if s.pc.Idle? then t.clock == s.clock || s.queue == [] else Horizon(t) <= Horizon(s)
    ensures Timely(t)
  {
  }

  lemma FinishKeepsTimely(s: State, t: State, o: Outcome)
    requires Timely(s) && OnTime(s) && Finishes(s, t, o)
    ensures Timely(t)
  {
    assert 0 <= Remaining(s);
    forall j | 0 <= j < |t.settled| ensures InTime(t.settled[j], t.due[j]) {
      if j < |s.settled| {
        assert InTime(s.settled[j], s.due[j]);
      }
    }
  }

  lemma TakeKeepsTimely(s: State, t: State)
    requires Timely(s) && Takes(s, t)
    requires t.pc.Idle? || Horizon(t) <= s.clock + SETTLE_MS
    ensures Timely(t)
  {
    assert Horizon(s) + SETTLE_MS * (|s.settled| + 1 - |s.settled|) <= s.due[|s.settled|];
    forall j | 0 <= j < |t.settled| ensures InTime(t.settled[j], t.due[j]) {
      if j < |s.settled| {
        assert InTime(s.settled[j], s.due[j]);
      }
    }
  }

  lemma EmitKeepsTimely(s: State, frame: Frame)
    requires Timely(s)
    ensures Timely(Emit(s, frame))
  {
    var t := Emit(s, frame);
    forall j | 0 <= j < |t.settled| ensures InTime(t.settled[j], t.due[j]) {
      assert InTime(s.settled[j], s.due[j]);
    }
  }

  lemma AfterDialClock(s: State)
    requires s.pc.Dialed?
    ensures AfterDial(s).clock == s.clock
  {
  }

  lemma AfterWriteClock(s: State)
    requires s.pc.Written?
    ensures AfterWrite(s).clock == s.clock
  {
  }

  lemma ContinuationKeepsTimely(s: State, l: Label)
    requires OnTime(s) && Timely(s) && Enabled(s, l) && (l.LAfterDial? || l.LAfterWrite? || l.LAfterRetry?)
    ensures OnTime(Step(s, l)) && Timely(Step(s, l))
  {
    var t := Step(s, l);
    match l
    case LAfterDial =>
      AfterDialEffect(s);
      AfterDialTime(s);
      if Continues(s, t) {
        AfterDialClock(s);
        ContinueKeepsTimely(s, t);
      } else {
        FinishKeepsTimely(s, t, Dropped);
      }
    case LAfterWrite =>
      AfterWriteEffect(s);
      AfterWriteTime(s);
      if Continues(s, t) {
        AfterWriteClock(s);
        ContinueKeepsTimely(s, t);
      } else {
        FinishKeepsTimely(s, t, Acked(s.pc.job.captured));
      }
    case LAfterRetry =>
      AfterRetryEffect(s);
      FinishKeepsTimely(s, t, if s.pc.delivered then Acked(s.pc.job.captured) else Dropped);
  }

  lemma CallbackKeepsTimely(s: State, l: Label)
    requires Owned(s) && OnTime(s) && Timely(s) && IsCallback(l)
    ensures OnTime(Step(s, l)) && Timely(Step(s, l))
  {
    CallbackEffect(s, l);
    CallbackTime(s, l);
    ContinueKeepsTimely(s, Step(s, l));
  }

  lemma CallKeepsTimely(s: State, l: Label)
    requires OnTime(s) && Timely(s) && Enabled(s, l) && (l.LEmit? || l.LClose? || l.LStart?)
    ensures OnTime(Step(s, l)) && Timely(Step(s, l))
  {
    match l
    case LEmit(frame) => EmitKeepsTimely(s, frame);
    case LClose =>
      CloseEffect(s);
      ContinueKeepsTimely(s, Close(s));
    case LStart =>
      StartTakes(s);
      StartTime(s);
      TakeKeepsTimely(s, Start(s));
  }

  lemma StepKeepsTimely(s: State, l: Label)
    requires Owned(s) && OnTime(s) && Timely(s)
    ensures OnTime(Step(s, l)) && Timely(Step(s, l))
  {
    if Enabled(s, l) {
      if IsCallback(l) {
        CallbackKeepsTimely(s, l);
      } else if l.LAfterDial? || l.LAfterWrite? || l.LAfterRetry? {
        ContinuationKeepsTimely(s, l);
      } else {
        CallKeepsTimely(s, l);
      }
    }
  }

  lemma ReachableFifo(s: State)
    requires Reachable(s)
    ensures Fifo(s)
  {
    forall t, l | Fifo(t) ensures Fifo(Step(t, l)) {
      StepKeepsFifo(t, l);
    }
    ReachableInvariant(Fifo, s);
  }

  ghost predicate Punctual(s: State) {
    OnTime(s) && Timely(s)
  }

  lemma ReachablePunctual(s: State)
    requires Reachable(s)
    ensures Punctual(s)
  {
    forall t, l | Reachable(t) && Punctual(t) ensures Punctual(Step(t, l)) {
      ReachableOwned(t);
      StepKeepsTimely(t, l);
    }
    ReachableInvariant(Punctual, s);
  }

  lemma ReachableOrder(s: State)
    requires Reachable(s)
    ensures Owned(s) && Fifo(s) && OnTime(s) && Timely(s)
  {
    ReachableOwned(s);
    ReachableFifo(s);
    ReachablePunctual(s);
  }

  // ----- Main results -----

  /** The k-th outcome is that of the k-th frame `emit` accepted, so acknowledgements come in the
      order of acceptance; and once a frame has been skipped, every later one is. */
  lemma SettledInOrder(s: State, k: nat)
    requires Reachable(s) && k < |s.settled|
    ensures k < |s.enqueued| && s.settled[k].frame == s.enqueued[k]
    ensures s.settled[k].outcome.Skipped? ==> s.closed && s.pc.Idle?
    ensures forall j :: 0 <= j < k && s.settled[j].outcome.Skipped? ==> s.settled[k].outcome.Skipped?
  {
    ReachableFifo(s);
    assert s.enqueued[k] == Frames(s.settled)[k];
  }

  /** Every `doWrite` that settled took at most 1200 ms of the emitter's time and settled by the
      time set when `emit` accepted its frame: 1200 ms for each frame then outstanding, itself
      included. A frame still outstanding is not late. */
  lemma SettlesInTime(s: State, k: nat)
    requires Reachable(s) && k < |s.enqueued|
    ensures k < |s.due|
    ensures if k < |s.settled|
            then s.settled[k].endedAt <= s.settled[k].startedAt + SETTLE_MS && s.settled[k].endedAt <= s.due[k]
            else s.clock <= s.due[k]
  {
    ReachableOrder(s);
    assert |s.enqueued| == |s.settled| + |Current(s)| + |s.queue|;
    if k < |s.settled| {
      assert InTime(s.settled[k], s.due[k]);
    } else {
      assert 0 <= Remaining(s);
      if k >= |s.settled| + |Current(s)| {
        assert Horizon(s) + SETTLE_MS * (k + 1 - |s.settled| - |Current(s)|) <= s.due[k];
      }
    }
  }

  ghost predicate AcceptedSince(s: State, t: State) {
    s.enqueued <= t.enqueued && s.due <= t.due
  }

  lemma RunKeepsAccepted(s: State, ls: seq<Label>)
    requires Reachable(s)
    ensures AcceptedSince(s, RunFrom(s, ls)) && Reachable(RunFrom(s, ls))
  {
    forall t, l | AcceptedSince(s, t) ensures AcceptedSince(s, Step(t, l)) {
      AcceptedGrows(t, l);
    }
    RunInvariant((t: State) => AcceptedSince(s, t), s, ls);
  }

  /** Whatever happens after `emit` has accepted a frame, the frame has settled by 1200 ms for each
      frame outstanding, itself included, or that time has not come yet. */
  lemma EmitDeadline(s: State, frame: Frame, ls: seq<Label>)
    requires Reachable(s) && !s.closed
    ensures var t, k := RunFrom(Emit(s, frame), ls), |s.enqueued|;
            var limit := s.clock + 1200 * (|s.queue| + (if s.pc.Idle? then 0 else 1) + 1);
            && k < |t.enqueued| && t.enqueued[k] == frame
            && if k < |t.settled| then t.settled[k].frame == frame && t.settled[k].endedAt <= limit
               else t.clock <= limit
  {
    var s1, k := Emit(s, frame), |s.enqueued|;
    var t := RunFrom(s1, ls);
    assert s1 == Step(s, LEmit(frame));
    StepReachable(s, LEmit(frame));
    RunKeepsAccepted(s1, ls);
    ReachableOrder(s);
    assert |s.due| == |s.settled| + |Current(s)| + |s.queue| == k;
    assert s1.enqueued[k] == frame && s1.due[k] == s.clock + SETTLE_MS * (Outstanding(s) + 1);
    SettlesInTime(t, k);
    if k < |t.settled| {
      SettledInOrder(t, k);
    }
  }
}
