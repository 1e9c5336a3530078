/** Which frame put which body on which socket. */
module EmitterDelivery {
  import opened Wrappers
  import opened Framing
  import opened EmitterMachine
  import opened EmitterEffects
  import opened EmitterOwnership
  import opened EmitterStreams

  // ----- One write -----

  ghost predicate Points(s: State, w: Write, body: Body) {
    && w.sock < |s.sockets| && w.index < |s.sockets[w.sock].traffic.sent|
    && s.sockets[w.sock].traffic.sent[w.index] == body
  }

  /** Nothing will ever be written to socket `i` or acknowledged on it again. */
  predicate Dead(s: State, i: nat) {
    s.conn != Some(i) && !DialOpen(s, i) && !(s.pc.Writing? && s.pc.sock == i)
  }

  /** `w` put the body on the wire, or tried to, and its socket was given up without an answer. */
  ghost predicate Abandoned(s: State, w: Write, body: Body) {
    Points(s, w, body) && s.sockets[w.sock].traffic.acked <= w.index && Dead(s, w.sock)
  }

  ghost predicate Acknowledged(s: State, w: Write, body: Body) {
    Points(s, w, body) && w.index < s.sockets[w.sock].traffic.acked
  }

  /** The write has failed and its socket is about to be given up, if it has not been. */
  ghost predicate Failed(s: State, w: Write, body: Body) {
    && Points(s, w, body) && s.sockets[w.sock].traffic.acked <= w.index
    && (Dead(s, w.sock) || s.conn == Some(w.sock))
  }

  // ----- All writes of a frame -----

  ghost predicate AllAbandoned(s: State, ws: seq<Write>, body: Body) {
    forall j :: 0 <= j < |ws| ==> Abandoned(s, ws[j], body)
  }

  /** At most two writes, never twice on the same socket. */
  predicate AtMostTwice(ws: seq<Write>) {
    |ws| <= 2 && (|ws| == 2 ==> ws[0].sock != ws[1].sock)
  }

  /** The last write was acknowledged, and no other. */
  ghost predicate LastAcknowledged(s: State, ws: seq<Write>, body: Body) {
    ws != [] && Acknowledged(s, ws[|ws| - 1], body) && AllAbandoned(s, ws[..|ws| - 1], body)
  }

  /** The writes of a settled frame: all of the same body, at most two, on different sockets; an
      acknowledged frame has its last write acknowledged and no other, a dropped frame none. */
  ghost predicate Delivered(s: State, e: Settled) {
    && AtMostTwice(e.writes)
    && match e.outcome
       case Acked(_) => LastAcknowledged(s, e.writes, e.body)
       case Dropped => AllAbandoned(s, e.writes, e.body)
       case _ => e.writes == []
  }

  function Tries(job: Job): nat {
    if job.attempt.First? then 0 else 1
  }

  /** The writes of the frame in flight, by where it is suspended. */
  ghost predicate Underway(s: State) {
    var ws := s.writes;
    AtMostTwice(ws)
    && match s.pc
       case Idle => ws == []
       case Dialing(job, _) => |ws| <= Tries(job) && AllAbandoned(s, ws, job.body)
       case Dialed(job, _) => |ws| <= Tries(job) && AllAbandoned(s, ws, job.body)
       case Writing(job, i, _) =>
         && 0 < |ws| <= Tries(job) + 1
         && ws[|ws| - 1].sock == i && Points(s, ws[|ws| - 1], job.body)
         && ws[|ws| - 1].index == s.sockets[i].traffic.acked
         && AllAbandoned(s, ws[..|ws| - 1], job.body)
       case Written(job, failed) =>
         if failed then
           |ws| <= Tries(job) + 1 && forall j :: 0 <= j < |ws| ==> Failed(s, ws[j], job.body)
         else LastAcknowledged(s, ws, job.body)
       case Retried(job, delivered) =>
         if delivered then LastAcknowledged(s, ws, job.body) else AllAbandoned(s, ws, job.body)
  }

  // ----- Sockets only grow, and dead ones stay as they are -----

  ghost predicate SocketEvolves(s: State, t: State, i: nat)
    requires i < |s.sockets| <= |t.sockets|
  {
    var a, b := s.sockets[i].traffic, t.sockets[i].traffic;
    && a.sent <= b.sent && a.acked <= b.acked
    && (Dead(s, i) ==> Dead(t, i) && a.acked == b.acked)
  }

  ghost predicate Evolves(s: State, t: State) {
    && |s.sockets| <= |t.sockets|
    && forall i :: 0 <= i < |s.sockets| ==> SocketEvolves(s, t, i)
  }

  lemma AbandonedForever(s: State, t: State, w: Write, body: Body)
    requires Evolves(s, t) && Abandoned(s, w, body)
    ensures Abandoned(t, w, body)
  {
    assert SocketEvolves(s, t, w.sock);
  }

  lemma AcknowledgedForever(s: State, t: State, w: Write, body: Body)
    requires Evolves(s, t) && Acknowledged(s, w, body)
    ensures Acknowledged(t, w, body)
  {
    assert SocketEvolves(s, t, w.sock);
  }

  lemma AllAbandonedForever(s: State, t: State, ws: seq<Write>, body: Body)
    requires Evolves(s, t) && AllAbandoned(s, ws, body)
    ensures AllAbandoned(t, ws, body)
  {
    forall j | 0 <= j < |ws| ensures Abandoned(t, ws[j], body) {
      AbandonedForever(s, t, ws[j], body);
    }
  }

  lemma LastAcknowledgedForever(s: State, t: State, ws: seq<Write>, body: Body)
    requires Evolves(s, t) && LastAcknowledged(s, ws, body)
    ensures LastAcknowledged(t, ws, body)
  {
    AcknowledgedForever(s, t, ws[|ws| - 1], body);
    AllAbandonedForever(s, t, ws[..|ws| - 1], body);
  }

  lemma DeliveredForever(s: State, t: State, e: Settled)
    requires Evolves(s, t) && Delivered(s, e)
    ensures Delivered(t, e)
  {
    match e.outcome
    case Acked(_) => LastAcknowledgedForever(s, t, e.writes, e.body);
    case Dropped => AllAbandonedForever(s, t, e.writes, e.body);
    case _ =>
  }

  lemma SameTrafficEvolves(s: State, t: State)
    requires SameTraffic(s, t) && SameConnection(s, t)
    ensures Evolves(s, t)
  {
    forall i | 0 <= i < |s.sockets| ensures SocketEvolves(s, t, i) {
    }
  }

  lemma AfterDialEvolves(s: State)
    requires Owned(s) && s.pc.Dialed?
    ensures Evolves(s, AfterDial(s))
  {
    var t := AfterDial(s);
    if s.pc.failed || s.closed {
      AfterDialTraffic(s);
    }
    forall i | 0 <= i < |s.sockets| ensures SocketEvolves(s, t, i) {
    }
  }

  lemma WriteCallbackEvolves(s: State, failed: bool)
    requires Enabled(s, LWriteCallback(failed))
    ensures Evolves(s, OnWriteCallback(s, failed))
  {
    forall i | 0 <= i < |s.sockets| ensures SocketEvolves(s, OnWriteCallback(s, failed), i) {
    }
  }

  lemma FlushEvolves(s: State, i: nat, n: nat)
    requires Enabled(s, LFlush(i, n))
    ensures Evolves(s, Flush(s, i, n))
  {
    forall j | 0 <= j < |s.sockets| ensures SocketEvolves(s, Flush(s, i, n), j) {
    }
  }

  lemma StepEvolves(s: State, l: Label)
    requires Owned(s)
    ensures Evolves(s, Step(s, l))
  {
    if Enabled(s, l) {
      match l
      case LAfterDial => AfterDialEvolves(s);
      case LWriteCallback(failed) => WriteCallbackEvolves(s, failed);
      case LFlush(i, n) => FlushEvolves(s, i, n);
      case _ =>
        OthersKeepTraffic(s, l);
        OthersKeepConnection(s, l);
        SameTrafficEvolves(s, Step(s, l));
    }
  }

  // ----- Every step keeps the writes of the frame in flight in order -----

  ghost predicate AllDelivered(s: State) {
    forall k :: 0 <= k < |s.settled| ==> Delivered(s, s.settled[k])
  }

  lemma AllDeliveredForever(s: State, t: State)
    requires Evolves(s, t) && AllDelivered(s) && t.settled == s.settled
    ensures AllDelivered(t)
  {
    forall k | 0 <= k < |t.settled| ensures Delivered(t, t.settled[k]) {
      DeliveredForever(s, t, s.settled[k]);
    }
  }

  lemma FinishKeepsDelivered(s: State, t: State, o: Outcome)
    requires Evolves(s, t) && AllDelivered(s) && Finishes(s, t, o) && AtMostTwice(s.writes)
    requires o == Dropped ==> AllAbandoned(s, s.writes, s.pc.job.body)
    requires o.Acked? ==> LastAcknowledged(s, s.writes, s.pc.job.body)
    requires o.Acked? || o == Dropped
    ensures AllDelivered(t) && Underway(t)
  {
    forall k | 0 <= k < |t.settled| ensures Delivered(t, t.settled[k]) {
      if k < |s.settled| {
        assert t.settled[k] == s.settled[k];
        DeliveredForever(s, t, s.settled[k]);
      } else {
        assert Delivered(s, t.settled[k]);
        DeliveredForever(s, t, t.settled[k]);
      }
    }
  }

  lemma StartUnderway(s: State)
    requires Owned(s) && Underway(s) && AllDelivered(s) && Enabled(s, LStart)
    ensures Underway(Start(s)) && AllDelivered(Start(s))
  {
    var t := Start(s);
    StartTakes(s);
    StepEvolves(s, LStart);
    forall k | 0 <= k < |t.settled| ensures Delivered(t, t.settled[k]) {
      if k < |s.settled| {
        assert t.settled[k] == s.settled[k];
        DeliveredForever(s, t, s.settled[k]);
      }
    }
  }

  lemma SubmittedUnderway(s: State, t: State)
    requires Owned(s) && Streams(s) && Underway(s) && s.pc.Dialed? && s.conn.Some?
    requires t == WriteFrame(s, s.pc.job) && Evolves(s, t)
    ensures Underway(t)
  {
    assert StreamOk(s, s.conn.value);
    assert t.writes[..|t.writes| - 1] == s.writes;
    AllAbandonedForever(s, t, s.writes, s.pc.job.body);
    if s.writes != [] {
      assert Abandoned(s, s.writes[0], s.pc.job.body);
    }
  }

  lemma NoConnectionUnderway(s: State, t: State)
    requires Owned(s) && Underway(s) && s.pc.Dialed? && s.conn.None?
    requires t == WriteFrame(s, s.pc.job) && Evolves(s, t)
    ensures Underway(t)
  {
    AllAbandonedForever(s, t, s.writes, s.pc.job.body);
  }

  lemma AfterDialUnderway(s: State)
    requires Owned(s) && Streams(s) && Underway(s) && AllDelivered(s) && s.pc.Dialed?
    ensures Underway(AfterDial(s)) && AllDelivered(AfterDial(s))
  {
    var t := AfterDial(s);
    AfterDialEffect(s);
    StepEvolves(s, LAfterDial);
    if Continues(s, t) {
      AllDeliveredForever(s, t);
      if !s.pc.failed && !s.closed {
        if s.conn.Some? {
          SubmittedUnderway(s, t);
        } else {
          NoConnectionUnderway(s, t);
        }
      } else {
        AllAbandonedForever(s, t, s.writes, s.pc.job.body);
      }
    } else {
      FinishKeepsDelivered(s, t, Dropped);
    }
  }

  /** Giving up the connection turns failed writes into abandoned ones. */
  lemma GivingUpAbandons(s: State, t: State, ws: seq<Write>, body: Body)
    requires forall j :: 0 <= j < |ws| ==> Failed(s, ws[j], body)
    requires SameTraffic(s, t) && t.conn.None?
    requires t.pc.Retried? || (t.pc.Dialing? && t.pc.sock == |s.sockets|)
    ensures AllAbandoned(t, ws, body)
  {
    forall j | 0 <= j < |ws| ensures Abandoned(t, ws[j], body) {
      assert Failed(s, ws[j], body);
    }
  }

  lemma FailedWriteEffect(s: State)
    requires s.pc.Written? && s.pc.failed
    ensures var t := AfterWrite(s);
            && t.conn.None? && t.writes == s.writes
            && (t.pc.Retried? || (t.pc.Dialing? && t.pc.sock == |s.sockets|))
            && t.pc.job.attempt.Retry? && t.pc.job.body == s.pc.job.body
            && (t.pc.Retried? ==> !t.pc.delivered)
  {
  }

  lemma FailedWriteUnderway(s: State)
    requires Owned(s) && Underway(s) && AllDelivered(s) && s.pc.Written? && s.pc.failed
    ensures Underway(AfterWrite(s)) && AllDelivered(AfterWrite(s))
  {
    var t := AfterWrite(s);
    AfterWriteEffect(s);
    StepEvolves(s, LAfterWrite);
    FailedWriteEffect(s);
    AfterWriteTraffic(s);
    AllDeliveredForever(s, t);
    GivingUpAbandons(s, t, s.writes, s.pc.job.body);
  }

  lemma AfterWriteUnderway(s: State)
    requires Owned(s) && Underway(s) && AllDelivered(s) && s.pc.Written?
    ensures Underway(AfterWrite(s)) && AllDelivered(AfterWrite(s))
  {
    var t := AfterWrite(s);
    AfterWriteEffect(s);
    StepEvolves(s, LAfterWrite);
    if s.pc.failed {
      FailedWriteUnderway(s);
    } else if s.pc.job.attempt.First? {
      FinishKeepsDelivered(s, t, Acked(s.pc.job.captured));
    } else {
      AllDeliveredForever(s, t);
      LastAcknowledgedForever(s, t, s.writes, s.pc.job.body);
    }
  }

  lemma AfterRetryUnderway(s: State)
    requires Owned(s) && Underway(s) && AllDelivered(s) && s.pc.Retried?
    ensures Underway(AfterRetry(s)) && AllDelivered(AfterRetry(s))
  {
    AfterRetryEffect(s);
    StepEvolves(s, LAfterRetry);
    FinishKeepsDelivered(s, AfterRetry(s), if s.pc.delivered then Acked(s.pc.job.captured) else Dropped);
  }

  /** A write that fails, by its callback or its timer. */
  lemma FailsWrites(s: State, t: State)
    requires Owned(s) && Underway(s) && s.pc.Writing?
    requires t == s.(pc := Written(s.pc.job, true))
    ensures Underway(t)
  {
    var n := |s.writes| - 1;
    forall j | 0 <= j < |t.writes| ensures Failed(t, t.writes[j], t.pc.job.body) {
      if j < n {
        assert Abandoned(s, s.writes[..n][j], s.pc.job.body);
      }
    }
    if n == 1 {
      assert Abandoned(s, s.writes[..n][0], s.pc.job.body);
    }
  }

  lemma WriteCallbackUnderway(s: State, failed: bool)
    requires Owned(s) && Streams(s) && Underway(s) && Enabled(s, LWriteCallback(failed))
    ensures Underway(OnWriteCallback(s, failed))
  {
    var t, body := OnWriteCallback(s, failed), s.pc.job.body;
    var n := |s.writes| - 1;
    WriteCallbackEvolves(s, failed);
    AllAbandonedForever(s, t, s.writes[..n], body);
    if failed {
      FailsWrites(s, t);
    }
  }

  /** A step that at most settles the dial or loses the connection. */
  ghost predicate OnlyConnection(s: State, t: State) {
    && t.writes == s.writes
    && (t.pc == s.pc || (s.pc.Dialing? && t.pc.Dialed? && t.pc.job == s.pc.job))
    && |t.sockets| == |s.sockets|
    && (forall i :: 0 <= i < |s.sockets| ==>
          && t.sockets[i].traffic.sent == s.sockets[i].traffic.sent
          && t.sockets[i].traffic.acked == s.sockets[i].traffic.acked)
    && (t.conn == s.conn || t.conn.None? || (s.pc.Dialing? && t.conn == Some(s.pc.sock)))
  }

  lemma OnlyConnectionUnderway(s: State, t: State)
    requires Underway(s) && OnlyConnection(s, t) && Evolves(s, t)
    ensures Underway(t)
  {
    match s.pc
    case Idle =>
    case Dialing(job, _) => AllAbandonedForever(s, t, s.writes, job.body);
    case Dialed(job, _) => AllAbandonedForever(s, t, s.writes, job.body);
    case Writing(job, i, _) => AllAbandonedForever(s, t, s.writes[..|s.writes| - 1], job.body);
    case Written(job, failed) =>
      if failed {
        forall j | 0 <= j < |t.writes| ensures Failed(t, t.writes[j], job.body) {
          assert Failed(s, s.writes[j], job.body);
        }
      } else {
        LastAcknowledgedForever(s, t, s.writes, job.body);
      }
    case Retried(job, delivered) =>
      if delivered {
        LastAcknowledgedForever(s, t, s.writes, job.body);
      } else {
        AllAbandonedForever(s, t, s.writes, job.body);
      }
  }

  lemma ConnectOnlyConnection(s: State, i: nat)
    requires Owned(s) && Enabled(s, LConnect(i))
    ensures OnlyConnection(s, OnConnect(s, i))
  {
    assert SocketOk(s, i);
  }

  lemma OthersOnlyConnection(s: State, l: Label)
    requires Owned(s) && Enabled(s, l)
    requires (IsCallback(l) && !l.LWriteCallback? && !l.LWriteTimer?) || l.LEmit? || l.LClose?
    ensures OnlyConnection(s, Step(s, l))
  {
    match l
    case LConnect(i) => ConnectOnlyConnection(s, i);
    case LConnectError(i) => assert SocketOk(s, i);
    case LDialTimer(i) => assert SocketOk(s, i);
    case _ =>
  }

  lemma QuietKeepsUnderway(s: State, l: Label)
    requires Owned(s) && Streams(s) && Underway(s) && AllDelivered(s) && Enabled(s, l)
    requires IsCallback(l) || l.LEmit? || l.LClose?
    requires Evolves(s, Step(s, l))
    ensures Underway(Step(s, l)) && AllDelivered(Step(s, l))
  {
    var t := Step(s, l);
    if l.LWriteCallback? {
      WriteCallbackUnderway(s, l.failed);
    } else if l.LWriteTimer? {
      FailsWrites(s, t);
    } else {
      OthersOnlyConnection(s, l);
      OnlyConnectionUnderway(s, t);
    }
    if IsCallback(l) {
      CallbackEffect(s, l);
    } else if l.LClose? {
      CloseEffect(s);
    }
    AllDeliveredForever(s, t);
  }

  lemma StepKeepsUnderway(s: State, l: Label)
    requires Owned(s) && Streams(s) && Underway(s) && AllDelivered(s)
    ensures Underway(Step(s, l)) && AllDelivered(Step(s, l))
  {
    if Enabled(s, l) {
      match l
      case LStart => StartUnderway(s);
      case LAfterDial => AfterDialUnderway(s);
      case LAfterWrite => AfterWriteUnderway(s);
      case LAfterRetry => AfterRetryUnderway(s);
      case _ =>
        StepEvolves(s, l);
        QuietKeepsUnderway(s, l);
    }
  }

  ghost predicate Books(s: State) {
    Underway(s) && AllDelivered(s)
  }

  lemma ReachableDelivery(s: State)
    requires Reachable(s)
    ensures Owned(s) && Streams(s) && Underway(s) && AllDelivered(s)
  {
    forall t, l | Reachable(t) && Books(t) ensures Books(Step(t, l)) {
      ReachableStreams(t);
      StepKeepsUnderway(t, l);
    }
    ReachableInvariant(Books, s);
    ReachableStreams(s);
  }

  // ----- Main results -----

  /** In every run, a settled frame was written at most twice, with the same bytes and never
      twice on one socket; it is acknowledged exactly if its last write was, and no other was. */
  lemma WritesOfSettledFrames(s: State, k: nat)
    requires Reachable(s) && k < |s.settled|
    ensures Delivered(s, s.settled[k])
  {
    ReachableDelivery(s);
  }

  /** A peer that has received all the kernel took on the socket of an acknowledged frame has
      decoded that frame, at the position where it was submitted. */
  lemma AcknowledgedIsOnTheWire(s: State, k: nat) returns (w: Write)
    requires Reachable(s) && k < |s.settled| && s.settled[k].outcome.Acked?
    ensures w in s.settled[k].writes && w.sock < |s.sockets|
    ensures var frames := Decode(s.sockets[w.sock].traffic.wire).frames;
            w.index < |frames| && frames[w.index] == s.settled[k].body
  {
    ReachableDelivery(s);
    var e := s.settled[k];
    assert Delivered(s, e);
    w := e.writes[|e.writes| - 1];
    assert StreamOk(s, w.sock);
    var t := s.sockets[w.sock].traffic;
    var n := TrafficDecodes(t, t.wire);
  }
}
