/** The Emitter object itself: each method is one uninterrupted stretch of the source and is
    proved to be one step of the state machine. `doWrite` and `retryWrite` appear cut at their
    awaits, the suspended local variables in `pc`. */
module EmitterClass {
  import opened Wrappers
  import opened Framing
  import opened EmitterMachine
  import opened EmitterOwnership
  import opened EmitterDrops
  import opened EmitterOrder
  import opened EmitterProgress
  import opened EmitterEffects
  import opened EmitterStreams
  import M = EmitterMachine

  /** What `emit` is given. `frame` is the wire frame it builds from the event. */
  datatype EmitEvent = EmitEvent(
    toolName: string,
    decision: string,
    input: Option<string>,
    output: Option<string>,
    frame: Frame)

  datatype EmitError =
    | EmitterClosed | MissingToolName | InvalidDecision | InvalidInput | InvalidOutput | FrameTooLarge

  const VALID_DECISIONS := ["allowed", "denied", "pending"]

  /** The characters `trim` removes. */
  predicate IsSpace(c: char) {
    || 9 as char <= c <= 13 as char || c == ' ' || c == 0xA0 as char || c == 0x1680 as char
    || 0x2000 as char <= c <= 0x200A as char || c == 0x2028 as char || c == 0x2029 as char
    || c == 0x202F as char || c == 0x205F as char || c == 0x3000 as char || c == 0xFEFF as char
  }

  predicate Blank(s: string) {
    forall i :: 0 <= i < |s| ==> IsSpace(s[i])
  }

  predicate IsJson(text: Option<string>, parses: string -> bool) {
    text.None? || parses(text.value)
  }

  /** What `emit` checks before it queues anything. */
  predicate Acceptable(ev: EmitEvent, parses: string -> bool) {
    && !Blank(ev.toolName) && ev.decision in VALID_DECISIONS
    && IsJson(ev.input, parses) && IsJson(ev.output, parses)
  }

  lemma AcceptableMeaning(ev: EmitEvent, parses: string -> bool)
    ensures Acceptable(ev, parses)
            <==> && (exists i :: 0 <= i < |ev.toolName| && !IsSpace(ev.toolName[i]))
                 && (ev.decision == "allowed" || ev.decision == "denied" || ev.decision == "pending")
                 && (ev.input.Some? ==> parses(ev.input.value))
                 && (ev.output.Some? ==> parses(ev.output.value))
  {
    assert VALID_DECISIONS[0] == "allowed" && VALID_DECISIONS[1] == "denied" && VALID_DECISIONS[2] == "pending";
  }

  /** Which of the caller's mistakes `emit` reports: the first in the order of its checks. */
  predicate Explains(error: Option<EmitError>, closed: bool, ev: EmitEvent, parses: string -> bool) {
    var nameless := Blank(ev.toolName);
    var undecided := ev.decision !in {"allowed", "denied", "pending"};
    var badInput, badOutput := ev.input.Some? && !parses(ev.input.value), ev.output.Some? && !parses(ev.output.value);
    && (error == Some(EmitterClosed) <==> closed)
    && (error == Some(MissingToolName) <==> !closed && nameless)
    && (error == Some(InvalidDecision) <==> !closed && !nameless && undecided)
    && (error == Some(InvalidInput) <==> !closed && !nameless && !undecided && badInput)
    && (error == Some(InvalidOutput) <==> !closed && !nameless && !undecided && !badInput && badOutput)
    && error != Some(FrameTooLarge)
  }

  method Validate(closed: bool, ev: EmitEvent, parses: string -> bool) returns (error: Option<EmitError>)
    ensures error.None? <==> !closed && Acceptable(ev, parses)
    ensures Explains(error, closed, ev, parses)
  {
    if closed {
      return Some(EmitterClosed);
    }
    if Blank(ev.toolName) {
      return Some(MissingToolName);
    }
    if ev.decision !in VALID_DECISIONS {
      return Some(InvalidDecision);
    }
    if ev.input.Some? && !parses(ev.input.value) {
      return Some(InvalidInput);
    }
    if ev.output.Some? && !parses(ev.output.value) {
      return Some(InvalidOutput);
    }
    return None;
  }

  /** What the caller of `emit` is finally told about a frame that was queued. */
  function ResultOf(outcome: Outcome): Option<EmitError> {
    if outcome.TooLarge? then Some(FrameTooLarge) else None
  }

  /** A queued frame comes back as an Error exactly if `close` did not make the emitter skip it and
      its bytes, with the drops since the last acknowledgement in them, exceed the limit; null may
      mean acknowledged, dropped or skipped. */
  lemma ResultMeaning(s: State, k: nat)
    requires Reachable(s) && k < |s.settled|
    ensures var e, drops := s.settled[k], SinceAck(s.settled[..k]);
            ResultOf(e.outcome) == Some(FrameTooLarge)
            <==> e.outcome != Skipped && |e.frame.serialise(drops)| > 1_048_576
  {
    DropCountsAreExact(s, k);
  }

  // ----- What holds of an emitter at any time -----

  /** The drops of the history `h`, reported and not. */
  function Unreported(h: seq<Settled>): int {
    Counted(h) - Reported(h)
  }

  /** The frame after those of `before` has just settled: in its turn, in time, with exactly the
      drops since the last acknowledgement reported, or kept with one more and not in silence. */
  ghost predicate JustSettled(s: State, before: seq<Settled>) {
    var k := |before|;
    && |s.settled| == k + 1 && s.settled[..k] == before
    && k < |s.enqueued| == |s.due|
    && var e := s.settled[k];
       && e.frame == s.enqueued[k]
       && e.endedAt <= s.due[k] && e.endedAt <= e.startedAt + SETTLE_MS
       && match e.outcome
          case Acked(drops) => drops == SinceAck(before) && s.dropCount == 0
          case Dropped => s.dropCount == SinceAck(before) + 1 && 0 < e.diagnostics
          case _ => s.dropCount == SinceAck(before)
  }

  lemma SettlingIsJust(s: State, before: seq<Settled>)
    requires Reachable(s) && s.pc.Idle? && |s.settled| == |before| + 1 && s.settled[..|before|] == before
    ensures JustSettled(s, before)
  {
    var k := |before|;
    ReachableLedger(s);
    ReachableOrder(s);
    SettledInOrder(s, k);
    SettlesInTime(s, k);
    DropCountsAreExact(s, k);
    if s.settled[k].outcome.Dropped? {
      NoSilentDrop(s, k);
    }
  }

  /** The time by which accepted frame `k` must settle has not passed. */
  predicate NotLate(s: State, k: nat) {
    k < |s.due| && s.clock <= s.due[k]
  }

  /** The peer decodes the first bodies submitted, no others. */
  predicate WireIsAligned(t: Traffic) {
    Decode(t.wire).frames <= t.sent
  }

  /** Everything a caller may rely on between two steps. */
  ghost predicate Promises(s: State) {
    && (s.closed ==> s.conn.None?)
    && Counted(s.settled) == Reported(s.settled) + s.dropCount + Captured(s)
    && s.warnings == (if s.closed && s.pc.Idle? && Unreported(s.settled) > 0 then [Unreported(s.settled)] else [])
    && (forall k :: 0 <= k < |s.settled| ==> Faithful(s.settled, k))
    && (forall k :: |s.settled| <= k < |s.enqueued| ==> NotLate(s, k))
    && (forall i :: 0 <= i < |s.sockets| ==> WireIsAligned(s.sockets[i].traffic))
  }

  lemma PromisesKept(s: State)
    requires Reachable(s)
    ensures Promises(s)
  {
    LiveSockets(s);
    DropsAreConserved(s);
    UnflushedDropsWarning(s);
    forall k | 0 <= k < |s.settled| ensures Faithful(s.settled, k) {
      DropCountsAreExact(s, k);
    }
    forall k | |s.settled| <= k < |s.enqueued| ensures NotLate(s, k) {
      SettlesInTime(s, k);
    }
    forall i | 0 <= i < |s.sockets| ensures WireIsAligned(s.sockets[i].traffic) {
      var k := SocketsCarryWholeFrames(s, i, s.sockets[i].traffic.wire);
    }
  }

  lemma ClosedForGood(s: State)
    requires Reachable(s) && s.closed
    ensures s.conn.None?
    ensures s.pc.Idle? ==>
              s.warnings == if Unreported(s.settled) > 0 then [Unreported(s.settled)] else []
    ensures !s.pc.Dialing? ==> forall i :: 0 <= i < |s.sockets| ==> s.sockets[i].phase.Destroyed?
  {
    LiveSockets(s);
    UnflushedDropsWarning(s);
  }

  /** A step of `doWrite` settles its frame or leaves the history as it is. */
  lemma StepSettles(s: State, l: Label)
    requires Reachable(s) && Enabled(s, l) && (l.LStart? || l.LAfterDial? || l.LAfterWrite? || l.LAfterRetry?)
    ensures var t := Step(s, l);
            if t.pc.Idle? then JustSettled(t, s.settled) else t.settled == s.settled
  {
    var t := Step(s, l);
    StepReachable(s, l);
    match l {
      case LStart => StartTakes(s);
      case LAfterDial => AfterDialEffect(s);
      case LAfterWrite => AfterWriteEffect(s);
      case LAfterRetry => AfterRetryEffect(s);
    }
    if t.pc.Idle? {
      SettlingIsJust(t, s.settled);
    }
  }

  class Emitter {
    var conn: Option<nat>
    var closed: bool
    var dropCount: nat
    var suppressNextWriteLog: bool
    var writeQueue: seq<Frame>
    var pc: Pc

    // Node's side: the sockets it has created, its clock, the loggers.
    var sockets: seq<Socket>
    var clock: nat
    var debugLog: seq<Stage>
    var warnLog: seq<nat>

    ghost var enqueued: seq<Frame>
    ghost var due: seq<nat>
    ghost var settled: seq<Settled>
    ghost var writes: seq<Write>
    ghost var startedAt: nat
    ghost var mark: nat

    ghost function State(): State
      reads this
    {
      M.State(conn, closed, dropCount, suppressNextWriteLog, writeQueue, pc, sockets, clock,
              debugLog, warnLog, enqueued, due, settled, writes, startedAt, mark)
    }

    /** Its methods have brought it here, in some order. */
    ghost predicate Valid()
      reads this
    {
      Reachable(State())
    }

    /** So every result about reachable states holds of it. */
    lemma KeepsPromises()
      requires Valid()
      ensures Promises(State()) && Owned(State())
    {
      PromisesKept(State());
      ReachableOwned(State());
    }

    constructor ()
      ensures Valid() && State() == Init()
    {
      conn, closed, dropCount, suppressNextWriteLog, writeQueue, pc := None, false, 0, false, [], Idle;
      sockets, clock, debugLog, warnLog := [], 0, [], [];
      enqueued, due, settled, writes, startedAt, mark := [], [], [], [], 0, 0;
      new;
      InitReachable();
    }

    // ----- Private methods -----

    method Finish(frame: Frame, body: Body, ghost outcome: Outcome)
      modifies this`pc, this`settled, this`writes
      ensures State() == M.Finish(old(State()), frame, body, outcome)
    {
      settled := settled + [Settled(frame, outcome, body, writes, startedAt, clock,
                                    |debugLog| + |warnLog| - mark)];
      writes := [];
      pc := Idle;
    }

    method LogDrop(stage: Stage)
      modifies this`debugLog
      ensures State() == M.LogDrop(old(State()), stage)
    {
      debugLog := debugLog + [stage];
    }

    method WarnUnflushed()
      modifies this`warnLog
      ensures State() == Warn(old(State()))
    {
      warnLog := warnLog + [dropCount];
    }

    method Destroy(i: nat)
      requires i < |sockets|
      modifies this`sockets
      ensures State() == M.Destroy(old(State()), i)
    {
      sockets := sockets[i := sockets[i].(phase := Destroyed)];
    }

    method DropConn()
      requires conn.Some? ==> conn.value < |sockets|
      modifies this`sockets, this`conn
      ensures State() == M.DropConn(old(State()))
    {
      if conn.Some? {
        Destroy(conn.value);
        conn := None;
      }
    }

    method DialIfNeeded(job: Job)
      modifies this`sockets, this`pc
      ensures State() == M.DialIfNeeded(old(State()), job)
      ensures if conn.Some? then pc == Dialed(job, false) && sockets == old(sockets)
              else pc == Dialing(job, |old(sockets)|) && |sockets| == |old(sockets)| + 1
                   && sockets[|old(sockets)|].timer == Some(clock + 500)
    {
      if conn.Some? {
        pc := Dialed(job, false);
        return;
      }
      pc := Dialing(job, |sockets|);
      var timer := Some(clock + DIAL_TIMEOUT_MS);
      sockets := sockets + [Socket(Connecting, false, false, timer, false, NO_TRAFFIC)];
    }

    method SettleDial(i: nat, failed: bool)
      requires i < |sockets| && (!sockets[i].settled ==> pc.Dialing?)
      modifies this`sockets, this`pc
      ensures State() == M.SettleDial(old(State()), i, failed)
    {
      if sockets[i].settled {
        return;
      }
      sockets := sockets[i := sockets[i].(settled := true, timer := None)];
      pc := Dialed(pc.job, failed);
    }

    method WriteFrame(job: Job)
      requires conn.Some? ==> conn.value < |sockets|
      modifies this`sockets, this`pc, this`writes
      ensures State() == M.WriteFrame(old(State()), job)
      ensures if conn.None? then pc == Written(job, true) else pc == Writing(job, conn.value, clock + 100)
    {
      if conn.None? {
        pc := Written(job, true);
        return;
      }
      var i := conn.value;
      writes := writes + [Write(i, |sockets[i].traffic.sent|)];
      sockets := sockets[i := sockets[i].(traffic := Submit(sockets[i].traffic, job.body, job.captured))];
      pc := Writing(job, i, clock + WRITE_TIMEOUT_MS);
    }

    method RetryWrite(job: Job)
      modifies this`sockets, this`pc
      ensures State() == M.RetryWrite(old(State()), job)
    {
      if closed {
        pc := Retried(job, false);
        return;
      }
      DialIfNeeded(job);
    }

    /** Restore the captured drops plus one, and warn if nobody will flush them any more. */
    method GiveUp(job: Job)
      modifies this
      ensures State() == M.GiveUp(old(State()), job)
    {
      dropCount := dropCount + job.captured + 1;
      if closed {
        WarnUnflushed();
      }
      Finish(job.frame, job.body, Dropped);
    }

    method Dequeue() returns (frame: Frame)
      requires writeQueue != []
      modifies this
      ensures frame == old(writeQueue)[0] && State() == M.Dequeue(old(State()))
    {
      frame := writeQueue[0];
      writeQueue := writeQueue[1..];
      startedAt, mark := clock, |debugLog| + |warnLog|;
    }

    method Send(frame: Frame)
      modifies this
      ensures State() == M.Send(old(State()), frame)
    {
      var capturedDropCount := dropCount;
      dropCount := 0;
      var body := frame.serialise(capturedDropCount);
      if |body| > MAX_FRAME_SIZE {
        dropCount := dropCount + capturedDropCount;
        Finish(frame, [], TooLarge);
        return;
      }
      DialIfNeeded(Job(frame, capturedDropCount, body, First));
    }

    // ----- Called by the host -----

    method Emit(ev: EmitEvent, parses: string -> bool) returns (error: Option<EmitError>)
      requires Valid()
      modifies this
      ensures Valid()
      ensures error.None? <==> !old(closed) && Acceptable(ev, parses)
      ensures Explains(error, old(closed), ev, parses)
      ensures State() == if error.None? then M.Emit(old(State()), ev.frame) else old(State())
    {
      error := Validate(closed, ev, parses);
      if error.Some? {
        return;
      }
      StepReachable(State(), LEmit(ev.frame));
      due := due + [clock + SETTLE_MS * (Outstanding(State()) + 1)];
      enqueued := enqueued + [ev.frame];
      writeQueue := writeQueue + [ev.frame];
      return None;
    }

    method Close()
      requires Valid()
      modifies this
      ensures Valid() && State() == M.Close(old(State()))
      ensures closed && conn.None?
      ensures warnLog == old(warnLog) + if old(closed) || dropCount == 0 then [] else [dropCount]
      ensures pc.Idle? ==> warnLog == if Unreported(settled) > 0 then [Unreported(settled)] else []
      ensures !pc.Dialing? ==> forall i :: 0 <= i < |sockets| ==> sockets[i].phase.Destroyed?
    {
      ReachableOwned(State());
      StepReachable(State(), LClose);
      ClosedForGood(M.Close(State()));
      if closed {
        return;
      }
      closed := true;
      if dropCount > 0 {
        WarnUnflushed();
      }
      if conn.Some? {
        Destroy(conn.value);
        conn := None;
      }
    }

    // ----- doWrite, cut at its awaits -----

    method DoWrite()
      requires Valid() && pc.Idle? && writeQueue != []
      modifies this
      ensures Valid() && State() == M.Start(old(State()))
      ensures if pc.Idle? then JustSettled(State(), old(settled)) else settled == old(settled)
      ensures pc.Idle? <==> closed || |old(writeQueue)[0].serialise(old(dropCount))| > 1_048_576
    {
      ReachableOwned(State());
      StepReachable(State(), LStart);
      StepSettles(State(), LStart);
      var frame := Dequeue();
      if closed {
        Finish(frame, [], Skipped);
        return;
      }
      Send(frame);
    }

    /** `doWrite`, from the settled dial to the write. */
    method AfterDial()
      requires Valid() && pc.Dialed? && pc.job.attempt.First?
      modifies this
      ensures Valid() && State() == M.AfterDial(old(State()))
      ensures if pc.Idle? then JustSettled(State(), old(settled)) else settled == old(settled)
      ensures pc.Idle? <==> old(pc.failed || closed)
    {
      ReachableOwned(State());
      StepReachable(State(), LAfterDial);
      StepSettles(State(), LAfterDial);
      var job, dialErr := pc.job, pc.failed;
      if dialErr {
        LogDrop(DialStage);
        GiveUp(job);
        return;
      }
      if closed {
        DropConn();
        dropCount := dropCount + job.captured + 1;
        WarnUnflushed();
        Finish(job.frame, job.body, Dropped);
        return;
      }
      WriteFrame(job);
    }

    /** `retryWrite`, from the settled dial to the write. */
    method AfterRedial()
      requires Valid() && pc.Dialed? && pc.job.attempt.Retry?
      modifies this
      ensures Valid() && State() == M.AfterDial(old(State()))
      ensures settled == old(settled)
      ensures pc == Retried(old(pc).job, false) <==> old(pc.failed || closed)
    {
      ReachableOwned(State());
      StepReachable(State(), LAfterDial);
      var job, redialErr := pc.job, pc.failed;
      if redialErr {
        LogDrop(DialStage);
        pc := Retried(job, false);
        return;
      }
      if closed {
        DropConn();
        pc := Retried(job, false);
        return;
      }
      WriteFrame(job);
    }

    /** `doWrite`, from the settled write to its end or into `retryWrite`. */
    method AfterWrite()
      requires Valid() && pc.Written? && pc.job.attempt.First?
      modifies this
      ensures Valid() && State() == M.AfterWrite(old(State()))
      ensures if pc.Idle? then JustSettled(State(), old(settled)) else settled == old(settled)
      ensures pc.Idle? <==> !old(pc.failed)
      ensures old(pc.failed) ==> conn.None? && !suppressNextWriteLog
    {
      ReachableOwned(State());
      StepReachable(State(), LAfterWrite);
      StepSettles(State(), LAfterWrite);
      var job, writeErr := pc.job, pc.failed;
      if !writeErr {
        Finish(job.frame, job.body, Acked(job.captured));
        return;
      }
      var shouldLogDrop := !suppressNextWriteLog;
      suppressNextWriteLog := false;
      DropConn();
      RetryWrite(job.(attempt := Retry(shouldLogDrop)));
    }

    /** `retryWrite`, from the settled write on. */
    method AfterRewrite()
      requires Valid() && pc.Written? && pc.job.attempt.Retry?
      modifies this
      ensures Valid() && State() == M.AfterWrite(old(State()))
      ensures settled == old(settled) && pc == Retried(old(pc).job, !old(pc.failed))
      ensures old(pc.failed) ==> conn.None? && !suppressNextWriteLog
    {
      ReachableOwned(State());
      StepReachable(State(), LAfterWrite);
      var job, retryErr := pc.job, pc.failed;
      if retryErr {
        if !suppressNextWriteLog {
          LogDrop(WriteStage);
        }
        suppressNextWriteLog := false;
        DropConn();
      }
      pc := Retried(job, !retryErr);
    }

    /** `doWrite`, from the return of `retryWrite` on. */
    method AfterRetry()
      requires Valid() && pc.Retried?
      modifies this
      ensures Valid() && State() == M.AfterRetry(old(State()))
      ensures pc.Idle? && JustSettled(State(), old(settled))
    {
      ReachableOwned(State());
      StepReachable(State(), LAfterRetry);
      StepSettles(State(), LAfterRetry);
      var job, retried := pc.job, pc.delivered;
      if retried {
        Finish(job.frame, job.body, Acked(job.captured));
        return;
      }
      if job.attempt.Retry? && job.attempt.logDrop {
        LogDrop(WriteStage);
      }
      GiveUp(job);
    }

    // ----- Callbacks of sockets and timers -----

    method OnConnect(i: nat)
      requires Valid() && Enabled(State(), LConnect(i))
      modifies this
      ensures Valid() && State() == M.OnConnect(old(State()), i)
      ensures conn == if old(pc.Dialing? && pc.sock == i && !closed) then Some(i) else old(conn)
    {
      ReachableOwned(State());
      StepReachable(State(), LConnect(i));
      OnlyThePendingDialConnects(State(), i);
      assert SocketOk(State(), i);
      sockets := sockets[i := sockets[i].(connectFired := true)];
      if sockets[i].settled {
        Destroy(i);
        return;
      }
      if closed {
        Destroy(i);
        SettleDial(i, false);
        return;
      }
      sockets := sockets[i := sockets[i].(errorHandler := true, phase := Open)];
      conn := Some(i);
      SettleDial(i, false);
    }

    /** The pre-connect error listener and the dial timer end a dial alike; before the first Node,
        before the second the callback itself destroys the socket. */
    method OnDialFailure(i: nat)
      requires Valid() && (Enabled(State(), LConnectError(i)) || Enabled(State(), LDialTimer(i)))
      modifies this
      ensures Valid() && State() == OnConnectError(old(State()), i) == OnDialTimer(old(State()), i)
      ensures old(pc.Dialing? && pc.sock == i) && pc == Dialed(old(pc).job, true) && conn.None?
    {
      ReachableOwned(State());
      StepReachable(State(), LConnectError(i));
      StepReachable(State(), LDialTimer(i));
      assert SocketOk(State(), i);
      Destroy(i);
      SettleDial(i, true);
    }

    method OnWriteCallback(failed: bool)
      requires Valid() && Enabled(State(), LWriteCallback(failed))
      modifies this
      ensures Valid() && State() == M.OnWriteCallback(old(State()), failed)
    {
      StepReachable(State(), LWriteCallback(failed));
      if !failed {
        var traffic := sockets[pc.sock].traffic;
        sockets := sockets[pc.sock := sockets[pc.sock].(traffic := traffic.(acked := traffic.acked + 1))];
      }
      pc := Written(pc.job, failed);
    }

    method OnWriteTimer()
      requires Valid() && Enabled(State(), LWriteTimer)
      modifies this
      ensures Valid() && State() == M.OnWriteTimer(old(State()))
    {
      StepReachable(State(), LWriteTimer);
      pc := Written(pc.job, true);
    }

    method HandleConnError(i: nat)
      requires Valid() && Enabled(State(), LConnError(i))
      modifies this
      ensures Valid() && State() == OnConnError(old(State()), i)
      ensures conn == if old(conn) == Some(i) then None else old(conn)
    {
      ReachableOwned(State());
      StepReachable(State(), LConnError(i));
      if conn == Some(i) {
        conn := None;
        Destroy(i);
        suppressNextWriteLog := true;
      }
      LogDrop(ConnStage);
    }

    // ----- The world around it -----

    method PeerClose(i: nat)
      requires Valid() && Enabled(State(), LPeerClose(i))
      modifies this`sockets
      ensures Valid() && State() == M.PeerClose(old(State()), i)
    {
      StepReachable(State(), LPeerClose(i));
      Destroy(i);
    }

    method Flush(i: nat, n: nat)
      requires Valid() && Enabled(State(), LFlush(i, n))
      modifies this`sockets
      ensures Valid() && State() == M.Flush(old(State()), i, n)
      ensures WireIsAligned(sockets[i].traffic)
    {
      StepReachable(State(), LFlush(i, n));
      PromisesKept(M.Flush(State(), i, n));
      var traffic := sockets[i].traffic;
      var wire := Stream(traffic.sent)[..|traffic.wire| + n];
      sockets := sockets[i := sockets[i].(traffic := traffic.(wire := wire))];
    }

    method Tick(ms: nat)
      requires Valid() && Enabled(State(), LTick(ms))
      modifies this`clock
      ensures Valid() && State() == M.Tick(old(State()), ms)
      ensures forall k :: |settled| <= k < |enqueued| ==> NotLate(State(), k)
    {
      StepReachable(State(), LTick(ms));
      PromisesKept(M.Tick(State(), ms));
      clock := clock + ms;
    }
  }
}
