/** What is on each socket's wire. */
module EmitterStreams {
  import opened Wrappers
  import opened Framing
  import opened EmitterMachine
  import opened EmitterOwnership

  // ----- One socket's traffic -----

  /** The bytes handed over are a prefix of the encoded bodies and hold every acknowledged body;
      at most the last body is unacknowledged. */
  predicate TrafficOk(t: Traffic) {
    && |t.counts| == |t.sent|
    && t.acked <= |t.sent| <= t.acked + 1
    && t.wire <= Stream(t.sent)
    && |Stream(t.sent[..t.acked])| <= |t.wire|
  }

  lemma SubmitKeepsTraffic(t: Traffic, body: Body, count: nat)
    requires TrafficOk(t) && t.acked == |t.sent|
    ensures TrafficOk(Submit(t, body, count))
  {
    StreamSnoc(t.sent, body);
    assert t.sent[..t.acked] == t.sent;
    assert (t.sent + [body])[..t.acked] == t.sent;
    assert t.wire == Stream(t.sent)[..|t.wire|] == Stream(t.sent + [body])[..|t.wire|];
  }

  lemma AckKeepsTraffic(t: Traffic)
    requires TrafficOk(t) && t.acked < |t.sent| && AllFlushed(t)
    ensures TrafficOk(t.(acked := t.acked + 1))
  {
    assert t.sent[..t.acked + 1] == t.sent;
  }

  lemma StreamMonotone(bodies: seq<Body>, j: nat, k: nat)
    requires j <= k <= |bodies|
    ensures |Stream(bodies[..j])| <= |Stream(bodies[..k])|
  {
    assert bodies[..k] == bodies[..j] + bodies[j..k];
    StreamConcat(bodies[..j], bodies[j..k]);
  }

  /** What the peer makes of any part of the stream it has received. */
  lemma TrafficDecodes(t: Traffic, received: Bytes) returns (k: nat)
    requires TrafficOk(t) && received <= t.wire
    ensures k <= |t.sent| && Decode(received).frames == t.sent[..k]
    ensures received == t.wire ==> t.acked <= k
    ensures k == |t.sent| ==> |Stream(t.sent)| <= |received|
  {
    assert received == Stream(t.sent)[..|received|];
    k := PrefixDecodes(t.sent, received);
    DecodeIsExact(received);
    if k < |t.sent| {
      StreamSnoc(t.sent[..k], t.sent[k]);
      assert t.sent[..k] + [t.sent[k]] == t.sent[..k + 1];
      if received == t.wire && k < t.acked {
        StreamMonotone(t.sent, k + 1, t.acked);
      }
    } else {
      assert t.sent[..k] == t.sent;
    }
  }

  // ----- The invariant -----

  /** The frame in flight is writing, or is about to abandon a socket it wrote to in vain. */
  predicate Busy(s: State, i: nat) {
    || (s.pc.Writing? && s.pc.sock == i)
    || (s.pc.Written? && s.pc.failed)
  }

  ghost predicate StreamOk(s: State, i: nat)
    requires i < |s.sockets|
  {
    var t := s.sockets[i].traffic;
    && TrafficOk(t)
    && (s.conn == Some(i) && t.acked < |t.sent| ==> Busy(s, i))
    && (DialOpen(s, i) ==> t == NO_TRAFFIC)
    && (s.pc.Writing? && s.pc.sock == i ==>
          && |t.sent| == t.acked + 1
          && t.sent[t.acked] == s.pc.job.body
          && t.counts[t.acked] == s.pc.job.captured)
  }

  ghost predicate Streams(s: State) {
    forall i :: 0 <= i < |s.sockets| ==> StreamOk(s, i)
  }

  // ----- Every step keeps it -----

  /** `t` has the traffic of `s`, and perhaps new sockets. */
  ghost predicate SameTraffic(s: State, t: State) {
    && |s.sockets| <= |t.sockets|
    && (forall i :: 0 <= i < |s.sockets| ==> t.sockets[i].traffic == s.sockets[i].traffic)
    && (forall i :: |s.sockets| <= i < |t.sockets| ==> t.sockets[i].traffic == NO_TRAFFIC)
  }

  lemma AfterDialTraffic(s: State)
    requires s.pc.Dialed?
    ensures s.pc.failed || s.closed ==> SameTraffic(s, AfterDial(s))
  {
  }

  lemma AfterWriteTraffic(s: State)
    requires s.pc.Written?
    ensures SameTraffic(s, AfterWrite(s))
  {
  }

  lemma AfterRetryTraffic(s: State)
    requires s.pc.Retried?
    ensures SameTraffic(s, AfterRetry(s))
  {
  }

  lemma ConnectTraffic(s: State, i: nat)
    requires i < |s.sockets|
    ensures SameTraffic(s, OnConnect(s, i))
  {
  }

  lemma DialFailureTraffic(s: State, i: nat)
    ensures SameTraffic(s, SettleDial(Destroy(s, i), i, true))
  {
  }

  lemma OthersKeepTraffic(s: State, l: Label)
    requires !l.LAfterDial? && !l.LWriteCallback? && !l.LFlush?
    ensures SameTraffic(s, Step(s, l))
  {
    if Enabled(s, l) {
      match l
      case LAfterWrite => AfterWriteTraffic(s);
      case LAfterRetry => AfterRetryTraffic(s);
      case LConnect(i) => ConnectTraffic(s, i);
      case LConnectError(i) => DialFailureTraffic(s, i);
      case LDialTimer(i) => DialFailureTraffic(s, i);
      case _ =>
    }
  }

  /** `t` keeps the connection, loses it, or gets the one being dialled; and if the connection
      was busy it still is. */
  ghost predicate SameConnection(s: State, t: State) {
    && (t.pc.Writing? ==> t.pc == s.pc)
    && (t.pc.Dialing? ==> t.pc == s.pc || t.pc.sock == |s.sockets|)
    && (t.conn.Some? ==>
          && (t.conn == s.conn || (s.pc.Dialing? && t.conn == Some(s.pc.sock)))
          && (t.conn == s.conn && Busy(s, t.conn.value) ==> Busy(t, t.conn.value)))
  }

  lemma FrameStreams(s: State, t: State)
    requires Owned(s) && Owned(t) && Streams(s) && SameTraffic(s, t) && SameConnection(s, t)
    ensures Streams(t)
  {
    forall i | 0 <= i < |t.sockets| ensures StreamOk(t, i) {
      if i < |s.sockets| {
        assert StreamOk(s, i);
      } else {
        assert Stream([]) == [];
      }
    }
  }

  lemma WriteFrameKeepsStreams(s: State, job: Job)
    requires Owned(s) && Streams(s) && s.pc.Dialed?
    ensures Streams(WriteFrame(s, job))
  {
    if s.conn.Some? {
      assert StreamOk(s, s.conn.value);
      SubmitKeepsTraffic(s.sockets[s.conn.value].traffic, job.body, job.captured);
    }
    forall i | 0 <= i < |s.sockets| ensures StreamOk(WriteFrame(s, job), i) {
      assert StreamOk(s, i);
    }
  }

  lemma AfterDialKeepsStreams(s: State)
    requires Owned(s) && Streams(s) && s.pc.Dialed?
    ensures Streams(AfterDial(s))
  {
    StepKeepsOwned(s, LAfterDial);
    if s.pc.failed || s.closed {
      AfterDialTraffic(s);
      FrameStreams(s, AfterDial(s));
    } else {
      WriteFrameKeepsStreams(s, s.pc.job);
    }
  }

  lemma WriteCallbackKeepsStreams(s: State, failed: bool)
    requires Owned(s) && Streams(s) && Enabled(s, LWriteCallback(failed))
    ensures Streams(OnWriteCallback(s, failed))
  {
    assert StreamOk(s, s.pc.sock);
    if !failed {
      AckKeepsTraffic(s.sockets[s.pc.sock].traffic);
    }
    forall i | 0 <= i < |s.sockets| ensures StreamOk(OnWriteCallback(s, failed), i) {
      assert StreamOk(s, i);
    }
  }

  lemma FlushKeepsStreams(s: State, i: nat, n: nat)
    requires Streams(s) && Enabled(s, LFlush(i, n))
    ensures Streams(Flush(s, i, n))
  {
    forall j | 0 <= j < |s.sockets| ensures StreamOk(Flush(s, i, n), j) {
      assert StreamOk(s, j);
    }
  }

  lemma StartConnection(s: State)
    requires Enabled(s, LStart)
    ensures SameConnection(s, Start(s))
  {
  }

  lemma AfterWriteConnection(s: State)
    requires s.pc.Written?
    ensures SameConnection(s, AfterWrite(s))
  {
  }

  lemma AfterRetryConnection(s: State)
    requires s.pc.Retried?
    ensures SameConnection(s, AfterRetry(s))
  {
  }

  lemma ConnectConnection(s: State, i: nat)
    requires Owned(s) && Enabled(s, LConnect(i))
    ensures SameConnection(s, OnConnect(s, i))
  {
    assert SocketOk(s, i);
  }

  lemma OthersKeepConnection(s: State, l: Label)
    requires Owned(s) && !l.LAfterDial? && !l.LWriteCallback? && !l.LFlush?
    ensures SameConnection(s, Step(s, l))
  {
    if Enabled(s, l) {
      match l
      case LStart => StartConnection(s);
      case LAfterWrite => AfterWriteConnection(s);
      case LAfterRetry => AfterRetryConnection(s);
      case LConnect(i) => ConnectConnection(s, i);
      case _ =>
    }
  }

  lemma StepKeepsStreams(s: State, l: Label)
    requires Owned(s) && Streams(s)
    ensures Streams(Step(s, l))
  {
    if Enabled(s, l) {
      match l
      case LAfterDial => AfterDialKeepsStreams(s);
      case LWriteCallback(failed) => WriteCallbackKeepsStreams(s, failed);
      case LFlush(i, n) => FlushKeepsStreams(s, i, n);
      case _ =>
        StepKeepsOwned(s, l);
        OthersKeepTraffic(s, l);
        OthersKeepConnection(s, l);
        FrameStreams(s, Step(s, l));
    }
  }

  lemma ReachableStreams(s: State)
    requires Reachable(s)
    ensures Owned(s) && Streams(s)
  {
    forall t, l | Reachable(t) && Streams(t) ensures Streams(Step(t, l)) {
      ReachableOwned(t);
      StepKeepsStreams(t, l);
    }
    ReachableInvariant(Streams, s);
    ReachableOwned(s);
  }

  // ----- Main result -----

  /** On every socket of every run, whatever prefix of the stream has been received decodes to the
      first bodies submitted on it, aligned and unchanged; a peer that has everything the kernel
      took has every acknowledged body and at most one more, the last. */
  lemma SocketsCarryWholeFrames(s: State, i: nat, received: Bytes) returns (k: nat)
    requires Reachable(s) && i < |s.sockets| && received <= s.sockets[i].traffic.wire
    ensures var t := s.sockets[i].traffic;
            && k <= |t.sent| && Decode(received).frames == t.sent[..k]
            && (received == t.wire ==> t.acked <= k <= t.acked + 1)
  {
    ReachableStreams(s);
    assert StreamOk(s, i);
    k := TrafficDecodes(s.sockets[i].traffic, received);
  }
}
