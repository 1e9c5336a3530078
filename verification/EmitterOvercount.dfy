/** Two runs in which the daemon is told of more drops than there were, with any frame at all. */
module EmitterOvercount {
  import opened Wrappers
  import opened Framing
  import opened EmitterMachine
  import opened EmitterDrops
  import opened EmitterDaemon
  import opened EmitterLosses

  /** With `n` drops in it, the frame is small enough to be sent. */
  predicate Fits(f: Frame, n: nat) {
    |f.serialise(n)| <= MAX_FRAME_SIZE
  }

  function BodyOf(f: Frame, n: nat): Body
    requires Fits(f, n)
  {
    f.serialise(n)
  }

  function JobOf(f: Frame, n: nat, attempt: Attempt): Job
    requires Fits(f, n)
  {
    Job(f, n, BodyOf(f, n), attempt)
  }

  ghost predicate Only(s: State, f: Frame) {
    forall g :: g in s.enqueued ==> g == f
  }

  /** An open emitter at rest with `n` drops to report and no connection. */
  ghost predicate Resting(s: State, f: Frame, n: nat) {
    && s.pc.Idle? && !s.closed && s.queue == [] && s.conn.None? && s.dropCount == n && s.writes == []
    && Only(s, f)
  }

  /** The frame, with `n` drops in it, has been submitted on the new socket `i`. */
  ghost predicate Submitted(s: State, f: Frame, i: nat, n: nat)
    requires Fits(f, n)
  {
    && s.pc == Writing(JobOf(f, n, First), i, s.clock + WRITE_TIMEOUT_MS)
    && !s.closed && s.dropCount == 0 && s.queue == [] && s.writes == [Write(i, 0)]
    && |s.sockets| == i + 1 && s.sockets[i].phase.Open?
    && s.sockets[i].traffic == Traffic([BodyOf(f, n)], [n], 0, [])
    && s.conn == Some(i) && Only(s, f)
  }

  /** Its bytes have all left, and it has not been acknowledged. */
  ghost predicate Leaked(s: State, f: Frame, i: nat, n: nat)
    requires Fits(f, n)
  {
    && i < |s.sockets|
    && s.sockets[i].traffic == Traffic([BodyOf(f, n)], [n], 0, Encode(BodyOf(f, n)))
  }

  // ----- Pieces of runs -----

  lemma Then(s: State, l: Label) returns (t: State)
    requires Reachable(s) && Enabled(s, l)
    ensures Reachable(t) && t == Fire(s, l)
  {
    t := Step(s, l);
    StepReachable(s, l);
  }

  lemma SubmitFrame(s0: State, f: Frame, n: nat) returns (s: State)
    requires Reachable(s0) && Resting(s0, f, n) && Fits(f, n)
    ensures Reachable(s) && Submitted(s, f, |s0.sockets|, n) && s.settled == s0.settled
    ensures s.sockets[..|s0.sockets|] == s0.sockets && s.debug == s0.debug && s.suppress == s0.suppress
  {
    var i := |s0.sockets|;
    s := Then(s0, LEmit(f));
    s := Then(s, LStart);
    assert s.pc == Dialing(JobOf(f, n, First), i);
    s := Then(s, LConnect(i));
    s := Then(s, LAfterDial);
  }

  lemma StreamOfOne(body: Body)
    ensures Stream([body]) == Encode(body)
  {
    StreamSnoc([], body);
  }

  lemma FlushFrame(s0: State, f: Frame, i: nat, n: nat) returns (s: State)
    requires Reachable(s0) && Fits(f, n) && Submitted(s0, f, i, n)
    ensures Reachable(s) && Leaked(s, f, i, n)
    ensures s == s0.(sockets := s.sockets) && s.sockets[..i] == s0.sockets[..i] && |s.sockets| == |s0.sockets|
  {
    StreamOfOne(BodyOf(f, n));
    s := Then(s0, LFlush(i, |Encode(BodyOf(f, n))|));
  }

  /** No confirmation comes within the write timeout. */
  lemma TimeOut(s0: State, f: Frame, i: nat, n: nat) returns (s: State)
    requires Reachable(s0) && Fits(f, n) && Leaked(s0, f, i, n) && !s0.closed
    requires s0.pc == Writing(JobOf(f, n, First), i, s0.clock + WRITE_TIMEOUT_MS)
    ensures Reachable(s) && s.pc == Written(JobOf(f, n, First), true)
    ensures s == s0.(pc := s.pc, clock := s.clock)
  {
    s := Then(s0, LTick(WRITE_TIMEOUT_MS));
    s := Then(s, LWriteTimer);
  }

  /** The retry dials again. */
  lemma Redial(s0: State, f: Frame, i: nat, n: nat) returns (s: State)
    requires Reachable(s0) && Fits(f, n) && Leaked(s0, f, i, n) && !s0.closed
    requires s0.pc == Written(JobOf(f, n, First), true)
    ensures Reachable(s) && Leaked(s, f, i, n) && s.conn.None?
    ensures s.pc == Dialing(JobOf(f, n, Retry(!s0.suppress)), |s0.sockets|)
    ensures |s.sockets| == |s0.sockets| + 1 && s.sockets[|s0.sockets|].traffic == NO_TRAFFIC
    ensures s.sockets[|s0.sockets|].phase.Connecting? && !s.sockets[|s0.sockets|].settled
    ensures !s.closed && s.dropCount == s0.dropCount && s.queue == s0.queue && s.enqueued == s0.enqueued
    ensures s.writes == s0.writes && s.settled == s0.settled
  {
    s := Then(s0, LAfterWrite);
  }

  /** It finds no daemon; the frame is counted as dropped though its bytes are out. */
  lemma DropFrame(s0: State, f: Frame, i: nat, n: nat) returns (s: State)
    requires Reachable(s0) && Fits(f, n) && Leaked(s0, f, i, n) && !s0.closed && s0.conn.None?
    requires s0.pc.Dialing? && s0.pc.job.attempt.Retry? && s0.pc.job == JobOf(f, n, s0.pc.job.attempt)
    requires i < s0.pc.sock < |s0.sockets| && Only(s0, f)
    requires s0.sockets[s0.pc.sock].phase.Connecting? && !s0.sockets[s0.pc.sock].settled
    requires s0.dropCount == 0 && s0.queue == []
    ensures Reachable(s) && Leaked(s, f, i, n) && Resting(s, f, n + 1)
    ensures |s.sockets| == |s0.sockets| && s.sockets[s0.pc.sock].traffic == s0.sockets[s0.pc.sock].traffic
    ensures |s.settled| == |s0.settled| + 1 && s.settled[..|s0.settled|] == s0.settled
    ensures var e := s.settled[|s0.settled|]; e.outcome == Dropped && e.writes == s0.writes
  {
    s := Then(s0, LConnectError(s0.pc.sock));
    s := Then(s, LAfterDial);
    s := Then(s, LAfterRetry);
  }

  /** From rest, the frame leaks: all its bytes reach the daemon, and it is counted as dropped. */
  lemma LeakFrame(s0: State, f: Frame, n: nat) returns (s: State)
    requires Reachable(s0) && Resting(s0, f, n) && Fits(f, n)
    ensures Reachable(s) && Leaked(s, f, |s0.sockets|, n) && Resting(s, f, n + 1)
    ensures |s.sockets| == |s0.sockets| + 2 && s.sockets[|s0.sockets| + 1].traffic == NO_TRAFFIC
    ensures |s.settled| == |s0.settled| + 1 && s.settled[..|s0.settled|] == s0.settled
    ensures var e := s.settled[|s0.settled|]; e.outcome == Dropped && e.writes == [Write(|s0.sockets|, 0)]
  {
    var i := |s0.sockets|;
    s := SubmitFrame(s0, f, n);
    s := FlushFrame(s, f, i, n);
    s := TimeOut(s, f, i, n);
    s := Redial(s, f, i, n);
    s := DropFrame(s, f, i, n);
  }

  /** The whole body is on the wire, and acknowledged. */
  predicate AckedWhole(t: Traffic, body: Body) {
    t.acked == 1 && t.wire == Encode(body)
  }

  /** From rest, the frame is delivered and acknowledged, with all drops there are to report. */
  lemma DeliverFrame(s0: State, f: Frame, n: nat) returns (s: State)
    requires Reachable(s0) && Resting(s0, f, n) && Fits(f, n)
    ensures Reachable(s) && s.pc.Idle? && s.dropCount == 0 && Only(s, f)
    ensures |s.sockets| == |s0.sockets| + 1 && s.sockets[..|s0.sockets|] == s0.sockets
    ensures AckedWhole(s.sockets[|s0.sockets|].traffic, BodyOf(f, n))
    ensures |s.settled| == |s0.settled| + 1 && s.settled[..|s0.settled|] == s0.settled
    ensures s.settled[|s0.settled|].outcome == Acked(n)
  {
    var i := |s0.sockets|;
    StreamOfOne(BodyOf(f, n));
    s := SubmitFrame(s0, f, n);
    s := FlushFrame(s, f, i, n);
    s := Then(s, LWriteCallback(false));
    s := Then(s, LAfterWrite);
  }

  /** From rest, the daemon is not there. */
  lemma RefuseFrame(s0: State, f: Frame, n: nat) returns (s: State)
    requires Reachable(s0) && Resting(s0, f, n) && Fits(f, n)
    ensures Reachable(s) && Resting(s, f, n + 1)
  {
    s := Then(s0, LEmit(f));
    s := Then(s, LStart);
    s := Then(s, LConnectError(|s0.sockets|));
    s := Then(s, LAfterDial);
  }

  // ----- What the daemon reads -----

  lemma OneFrameDecodes(body: Body)
    ensures Decode(Encode(body)).frames == [body]
  {
    DecodeEncode(body, []);
    assert Encode(body) + [] == Encode(body);
  }

  lemma LeakIsRead(s: State, f: Frame, i: nat, n: nat, count: Reader)
    requires Fits(f, n) && Leaked(s, f, i, n) && count(f.serialise(n)) == n
    ensures EmitterLosses.Decoded(s, Write(i, 0)) && Late(s.sockets[i].traffic, count) == n
  {
    OneFrameDecodes(BodyOf(f, n));
  }

  // ----- Main results -----

  /** With any frame, the daemon can be told of more drops than the emitter counted: the frame
      carries the first drop to the daemon, times out and is counted too, and both are reported
      with the next. */
  lemma DaemonCanBeToldTooMuch(f: Frame, count: Reader) returns (s: State)
    requires Fits(f, 0) && Fits(f, 1) && Fits(f, 2) && Reads(count, [f])
    ensures Reachable(s) && s.pc.Idle? && s.dropCount == 0 && Reads(count, s.enqueued)
    ensures DaemonTotal(s.sockets, count) > Counted(s.settled)
  {
    InitReachable();
    s := RefuseFrame(Init(), f, 0);
    var i := |s.sockets|;
    s := LeakFrame(s, f, 1);
    var before := s;
    s := DeliverFrame(s, f, 2);
    assert f in [f] && s.sockets[i] == before.sockets[i];
    LeakIsRead(s, f, i, 1, count);
    LateTotalZero(s.sockets, count);
    DaemonTotalExplained(s, count);
    DropsAreConserved(s);
  }

  lemma NoneLate(s: State, f: Frame, count: Reader)
    requires Fits(f, 0) && Fits(f, 1) && count(f.serialise(0)) == 0
    requires |s.sockets| == 3 && Leaked(s, f, 0, 0)
    requires s.sockets[1].traffic == NO_TRAFFIC && AckedWhole(s.sockets[2].traffic, BodyOf(f, 1))
    ensures forall i :: 0 <= i < |s.sockets| ==> Late(s.sockets[i].traffic, count) == 0
  {
    LeakIsRead(s, f, 0, 0, count);
    OneFrameDecodes(BodyOf(f, 1));
  }

  lemma ReportOfTwo(s: State, count: Reader)
    requires Reachable(s) && s.pc.Idle? && s.dropCount == 0 && |s.settled| == 2 && Reads(count, s.enqueued)
    requires s.settled[0].outcome == Dropped && Arrived(s, s.settled[0]) && s.settled[1].outcome == Acked(1)
    ensures Missing(s, s.settled) == 0 < DaemonTotal(s.sockets, count)
  {
    ReportExplained(s, count);
    assert s.settled[..1][..0] == [] && s.settled[..1][0] == s.settled[0];
    assert Missing(s, s.settled[..1]) == 0 && ArrivedDrops(s, s.settled[..1]) == 1;
  }

  /** Even without late counts it can, with any frame, be told of a drop although it has every
      frame: the only one counted as dropped arrived whole. */
  lemma DaemonCanBeToldOfADeliveredFrame(f: Frame, count: Reader) returns (s: State)
    requires Fits(f, 0) && Fits(f, 1) && Reads(count, [f])
    ensures Reachable(s) && s.pc.Idle? && s.dropCount == 0 && Reads(count, s.enqueued)
    ensures forall i :: 0 <= i < |s.sockets| ==> Late(s.sockets[i].traffic, count) == 0
    ensures Missing(s, s.settled) == 0 < DaemonTotal(s.sockets, count)
  {
    InitReachable();
    s := LeakFrame(Init(), f, 0);
    var before := s;
    s := DeliverFrame(s, f, 1);
    assert s.sockets[0] == before.sockets[0] && s.sockets[1] == before.sockets[1];
    assert s.settled[0] == s.settled[..1][0] == before.settled[0];
    assert f in [f];
    LeakIsRead(s, f, 0, 0, count);
    assert Arrived(s, s.settled[0]);
    NoneLate(s, f, count);
    ReportOfTwo(s, count);
  }

  /** There are such frames: here the length of the body is the count. */
  lemma SomeFrameIsRead() returns (f: Frame, count: Reader)
    ensures Fits(f, 0) && Fits(f, 1) && Fits(f, 2) && Reads(count, [f])
  {
    f := Frame((n: nat) => seq(n, _ => 0));
    count := (b: Bytes) => |b|;
  }
}
