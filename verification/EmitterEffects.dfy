/** The books of the emitter (queue, outcomes, job) seen from outside: every step either goes on
    with the frame in flight, settles it, takes the next one, or accepts a new one. */
module EmitterEffects {
  import opened EmitterMachine

  /** The frame in flight, if any, stays in flight. */
  ghost predicate Continues(s: State, t: State) {
    && t.queue == s.queue && t.enqueued == s.enqueued && t.due == s.due && t.settled == s.settled
    && t.startedAt == s.startedAt && t.mark == s.mark
    && (t.pc.Idle? <==> s.pc.Idle?)
    && (!s.pc.Idle? ==>
          && t.pc.job.frame == s.pc.job.frame
          && t.pc.job.captured == s.pc.job.captured
          && t.pc.job.body == s.pc.job.body)
  }

  /** The frame in flight settles with outcome `o`. */
  ghost predicate Finishes(s: State, t: State, o: Outcome) {
    && !s.pc.Idle? && t.pc.Idle? && t.clock == s.clock && t.startedAt == s.startedAt && t.writes == []
    && t.queue == s.queue && t.enqueued == s.enqueued && t.due == s.due
    && t.settled == s.settled + [Settled(s.pc.job.frame, o, s.pc.job.body, s.writes, s.startedAt,
                                         s.clock, |t.debug| + |t.warnings| - s.mark)]
  }

  /** The first queued frame is taken: it settles at once, or it is in flight. */
  ghost predicate Takes(s: State, t: State) {
    && s.pc.Idle? && s.queue != [] && t.queue == s.queue[1..]
    && t.enqueued == s.enqueued && t.due == s.due && t.clock == s.clock && t.startedAt == s.clock
    && (if t.pc.Idle? then
          && t.writes == []
          && (exists o :: && o in {Skipped, TooLarge}
                          && (o == Skipped <==> s.closed)
                          && t.settled == s.settled + [Settled(s.queue[0], o, [], s.writes, s.clock, s.clock, 0)])
        else
          && !s.closed && t.settled == s.settled && t.writes == s.writes
          && (t.pc.Dialing? || (t.pc.Dialed? && !t.pc.failed))
          && t.pc.job.frame == s.queue[0] && t.pc.job.attempt == First)
  }

  ghost predicate SameCounters(s: State, t: State) {
    t.closed == s.closed && t.dropCount == s.dropCount && t.warnings == s.warnings
  }

  predicate IsCallback(l: Label) {
    !l.LEmit? && !l.LClose? && !l.LStart? && !l.LAfterDial? && !l.LAfterWrite? && !l.LAfterRetry?
  }

  lemma StartTakes(s: State)
    requires Enabled(s, LStart)
    ensures Takes(s, Start(s))
  {
    var t := Start(s);
    if s.closed {
      assert t.settled == s.settled + [Settled(s.queue[0], Skipped, [], s.writes, s.clock, s.clock, 0)];
    } else if |s.queue[0].serialise(s.dropCount)| > MAX_FRAME_SIZE {
      assert t.settled == s.settled + [Settled(s.queue[0], TooLarge, [], s.writes, s.clock, s.clock, 0)];
    }
  }

  lemma CloseEffect(s: State)
    ensures Continues(s, Close(s)) && Close(s).clock == s.clock && Close(s).pc == s.pc
    ensures Close(s).writes == s.writes
  {
  }

  lemma AfterDialEffect(s: State)
    requires s.pc.Dialed?
    ensures Continues(s, AfterDial(s)) || Finishes(s, AfterDial(s), Dropped)
  {
    var t := AfterDial(s);
    if s.pc.job.attempt.First? && (s.pc.failed || s.closed) {
      assert Finishes(s, t, Dropped);
    }
  }

  lemma AfterWriteEffect(s: State)
    requires s.pc.Written?
    ensures if s.pc.job.attempt.First? && !s.pc.failed
            then Finishes(s, AfterWrite(s), Acked(s.pc.job.captured))
            else Continues(s, AfterWrite(s))
  {
  }

  lemma AfterRetryEffect(s: State)
    requires s.pc.Retried?
    ensures Finishes(s, AfterRetry(s), if s.pc.delivered then Acked(s.pc.job.captured) else Dropped)
  {
  }

  lemma ConnectEffect(s: State, i: nat)
    requires i < |s.sockets|
    ensures Continues(s, OnConnect(s, i)) && OnConnect(s, i).writes == s.writes
    ensures OnConnect(s, i).clock == s.clock && SameCounters(s, OnConnect(s, i))
  {
  }

  lemma DialFailureEffect(s: State, i: nat)
    ensures var t := SettleDial(Destroy(s, i), i, true);
            Continues(s, t) && t.writes == s.writes && t.clock == s.clock && SameCounters(s, t)
  {
  }

  /** Only the emitter's own code settles frames and moves its queue. */
  lemma CallbackEffect(s: State, l: Label)
    requires IsCallback(l)
    ensures Continues(s, Step(s, l)) && Step(s, l).writes == s.writes
    ensures !l.LTick? ==> Step(s, l).clock == s.clock
    ensures SameCounters(s, Step(s, l))
  {
    if Enabled(s, l) {
      match l
      case LConnect(i) => ConnectEffect(s, i);
      case LConnectError(i) => DialFailureEffect(s, i);
      case LDialTimer(i) => DialFailureEffect(s, i);
      case _ =>
    }
  }

  /** Accepted frames stay accepted, and their deadlines stay. */
  lemma AcceptedGrows(s: State, l: Label)
    ensures s.enqueued <= Step(s, l).enqueued && s.due <= Step(s, l).due
  {
    if Enabled(s, l) {
      match l
      case LEmit(_) =>
      case LClose => CloseEffect(s);
      case LStart => StartTakes(s);
      case LAfterDial => AfterDialEffect(s);
      case LAfterWrite => AfterWriteEffect(s);
      case LAfterRetry => AfterRetryEffect(s);
      case _ => CallbackEffect(s, l);
    }
  }
}
