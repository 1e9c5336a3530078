/** Drops are reported exactly: the drop counter against the history of outcomes. */
module EmitterDrops {
  import opened Framing
  import opened EmitterMachine
  import opened EmitterEffects

  // ----- Reading a history of outcomes -----

  /** Frames counted as dropped. */
  function Counted(h: seq<Settled>): nat {
    if h == [] then 0
    else Counted(h[..|h| - 1]) + if h[|h| - 1].outcome.Dropped? then 1 else 0
  }

  /** Drops carried by acknowledged frames. */
  function Reported(h: seq<Settled>): nat {
    if h == [] then 0
    else Reported(h[..|h| - 1]) + match h[|h| - 1].outcome case Acked(n) => n case _ => 0
  }

  /** Frames counted as dropped since the last acknowledged frame. */
  function SinceAck(h: seq<Settled>): nat {
    if h == [] then 0
    else
      match h[|h| - 1].outcome
      case Acked(_) => 0
      case Dropped => SinceAck(h[..|h| - 1]) + 1
      case _ => SinceAck(h[..|h| - 1])
  }

  /** `SinceAck` counts the drops after the last acknowledgement, wherever that is. */
  lemma {:induction false} SinceAckMeaning(h: seq<Settled>, k: nat)
    requires k <= |h|
    requires 0 < k ==> h[k - 1].outcome.Acked?
    requires forall j :: k <= j < |h| ==> !h[j].outcome.Acked?
    ensures SinceAck(h) == Counted(h[k..])
    decreases |h|
  {
    if k < |h| {
      SinceAckMeaning(h[..|h| - 1], k);
      assert h[k..][..|h| - 1 - k] == h[..|h| - 1][k..];
    }
  }

  /** What the settled frame number `k` must look like: the count it captured is exactly the
      number of drops since the acknowledged frame before it, and its bytes carry that count. */
  ghost predicate Faithful(h: seq<Settled>, k: nat)
    requires k < |h|
  {
    var e, n := h[k], SinceAck(h[..k]);
    match e.outcome
    case Skipped => true
    case TooLarge => |e.frame.serialise(n)| > MAX_FRAME_SIZE
    case Dropped => e.body == e.frame.serialise(n) && |e.body| <= MAX_FRAME_SIZE
    case Acked(m) => m == n && e.body == e.frame.serialise(n) && |e.body| <= MAX_FRAME_SIZE
  }

  ghost predicate AllFaithful(h: seq<Settled>) {
    forall k :: 0 <= k < |h| ==> Faithful(h, k)
  }

  lemma FaithfulSnoc(h: seq<Settled>, e: Settled)
    requires AllFaithful(h) && Faithful(h + [e], |h|)
    ensures AllFaithful(h + [e])
  {
    var t := h + [e];
    forall k | 0 <= k < |t| ensures Faithful(t, k) {
      if k < |h| {
        assert Faithful(h, k) && t[..k] == h[..k];
      }
    }
  }

  /** In an exact history nothing is reported twice and nothing is lost. */
  lemma {:induction false} Conservation(h: seq<Settled>)
    requires AllFaithful(h)
    ensures Counted(h) == Reported(h) + SinceAck(h)
  {
    if h != [] {
      var n := |h| - 1;
      forall k | 0 <= k < n ensures Faithful(h[..n], k) {
        assert Faithful(h, k) && h[..n][..k] == h[..k];
      }
      Conservation(h[..n]);
      assert Faithful(h, n);
    }
  }

  // ----- The invariant -----

  /** The count the frame in flight has taken out of `dropCount`. */
  function Captured(s: State): nat {
    if s.pc.Idle? then 0 else s.pc.job.captured
  }

  ghost predicate Ledger(s: State) {
    && AllFaithful(s.settled)
    && SinceAck(s.settled) == s.dropCount + Captured(s)
    && (!s.pc.Idle? ==>
          && s.dropCount == 0
          && s.pc.job.body == s.pc.job.frame.serialise(s.pc.job.captured)
          && |s.pc.job.body| <= MAX_FRAME_SIZE)
    && s.warnings == if s.closed && s.pc.Idle? && s.dropCount > 0 then [s.dropCount] else []
  }

  lemma FinishKeepsFaithful(s: State, frame: Frame, body: Body, outcome: Outcome)
    requires AllFaithful(s.settled)
    requires outcome == Skipped
          || (outcome == TooLarge && |frame.serialise(SinceAck(s.settled))| > MAX_FRAME_SIZE)
          || (outcome in {Dropped, Acked(SinceAck(s.settled))}
              && body == frame.serialise(SinceAck(s.settled)) && |body| <= MAX_FRAME_SIZE)
    ensures var h := Finish(s, frame, body, outcome).settled;
            && AllFaithful(h)
            && SinceAck(h) == match outcome
                              case Acked(_) => 0
                              case Dropped => SinceAck(s.settled) + 1
                              case _ => SinceAck(s.settled)
  {
    var h := Finish(s, frame, body, outcome).settled;
    assert h[..|h| - 1] == s.settled;
    FaithfulSnoc(s.settled, h[|h| - 1]);
  }

  lemma GiveUpKeepsLedger(s: State, job: Job)
    requires Ledger(s) && !s.pc.Idle? && job.frame == s.pc.job.frame
    requires job.captured == s.pc.job.captured && job.body == s.pc.job.body
    ensures Ledger(GiveUp(s, job))
  {
    var s1 := s.(dropCount := s.dropCount + job.captured + 1);
    FinishKeepsFaithful(if s.closed then Warn(s1) else s1, job.frame, job.body, Dropped);
  }

  lemma AckKeepsLedger(s: State)
    requires Ledger(s) && !s.pc.Idle?
    ensures Ledger(Finish(s, s.pc.job.frame, s.pc.job.body, Acked(s.pc.job.captured)))
  {
    FinishKeepsFaithful(s, s.pc.job.frame, s.pc.job.body, Acked(s.pc.job.captured));
  }

  lemma StartKeepsLedger(s: State)
    requires Ledger(s) && s.pc.Idle? && s.queue != []
    ensures Ledger(Start(s))
  {
    var frame := s.queue[0];
    var s1 := Dequeue(s);
    if s.closed {
      FinishKeepsFaithful(s1, frame, [], Skipped);
    } else if |frame.serialise(s.dropCount)| > MAX_FRAME_SIZE {
      FinishKeepsFaithful(s1, frame, [], TooLarge);
    }
  }

  lemma AfterDialKeepsLedger(s: State)
    requires Ledger(s) && s.pc.Dialed?
    ensures Ledger(AfterDial(s))
  {
    var job := s.pc.job;
    if job.attempt.First? && (s.pc.failed || s.closed) {
      GiveUpKeepsLedger(if s.pc.failed then LogDrop(s, DialStage) else DropConn(s), job);
    }
  }

  lemma AfterWriteKeepsLedger(s: State)
    requires Ledger(s) && s.pc.Written?
    ensures Ledger(AfterWrite(s))
  {
    if s.pc.job.attempt.First? && !s.pc.failed {
      AckKeepsLedger(s);
    }
  }

  lemma AfterRetryKeepsLedger(s: State)
    requires Ledger(s) && s.pc.Retried?
    ensures Ledger(AfterRetry(s))
  {
    var job := s.pc.job;
    if s.pc.delivered {
      AckKeepsLedger(s);
    } else {
      GiveUpKeepsLedger(if job.attempt.Retry? && job.attempt.logDrop then LogDrop(s, WriteStage) else s, job);
    }
  }

  lemma StepKeepsLedger(s: State, l: Label)
    requires Ledger(s)
    ensures Ledger(Step(s, l))
  {
    if Enabled(s, l) {
      match l
      case LStart => StartKeepsLedger(s);
      case LAfterDial => AfterDialKeepsLedger(s);
      case LAfterWrite => AfterWriteKeepsLedger(s);
      case LAfterRetry => AfterRetryKeepsLedger(s);
      case LEmit(_) | LClose =>
      case _ => CallbackEffect(s, l);
    }
  }

  lemma ReachableLedger(s: State)
    requires Reachable(s)
    ensures Ledger(s)
  {
    forall t, l | Ledger(t) ensures Ledger(Step(t, l)) {
      StepKeepsLedger(t, l);
    }
    ReachableInvariant(Ledger, s);
  }

  // ----- Main results -----

  /** In every interleaving, each acknowledged frame carries exactly the number of frames counted
      as dropped since the acknowledged frame before it, in its bytes; a frame is refused as too
      large exactly when its bytes with that count are. */
  lemma DropCountsAreExact(s: State, k: nat)
    requires Reachable(s) && k < |s.settled|
    ensures Faithful(s.settled, k)
  {
    ReachableLedger(s);
  }

  /** In every reachable state the drops reported, waiting in `dropCount` and taken along by the
      frame in flight are together the frames counted as dropped. */
  lemma DropsAreConserved(s: State)
    requires Reachable(s)
    ensures Counted(s.settled) == Reported(s.settled) + s.dropCount + Captured(s)
  {
    ReachableLedger(s);
    Conservation(s.settled);
  }

  /** An emitter closed and at rest has warned about its unreported drops, once, with their exact
      number, no matter whether `close` or the frame it raced with issued the warning; without
      unreported drops there is no warning, and none before that. */
  lemma UnflushedDropsWarning(s: State)
    requires Reachable(s)
    ensures var lost := Counted(s.settled) - Reported(s.settled);
            s.warnings == if s.closed && s.pc.Idle? && lost > 0 then [lost] else []
  {
    ReachableLedger(s);
    Conservation(s.settled);
  }
}
