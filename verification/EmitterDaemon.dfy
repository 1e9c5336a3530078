/** What a daemon that receives everything on the wire learns about drops. */
module EmitterDaemon {
  import opened Framing
  import opened EmitterMachine
  import opened EmitterEffects
  import opened EmitterOwnership
  import opened EmitterStreams
  import opened EmitterDrops
  import opened EmitterCounts

  // ----- Reading the bytes -----

  /** How a daemon gets the drop count out of a body. */
  type Reader = Bytes -> nat

  /** It gets back the count that was put into a frame. */
  ghost predicate Reads(count: Reader, frames: seq<Frame>) {
    forall f, n: nat :: f in frames ==> count(f.serialise(n)) == n
  }

  function SumRead(bodies: seq<Body>, count: Reader): nat {
    if bodies == [] then 0 else SumRead(bodies[..|bodies| - 1], count) + count(bodies[|bodies| - 1])
  }

  /** Bodies a daemon decodes from socket `t` when it has received all the kernel took. */
  function DecodedCount(t: Traffic): nat {
    |Decode(t.wire).frames|
  }

  /** The drop counts a daemon reads from all the frames it decodes. */
  function DaemonTotal(sockets: seq<Socket>, count: Reader): nat {
    if sockets == [] then 0
    else
      var n := |sockets| - 1;
      DaemonTotal(sockets[..n], count) + SumRead(Decode(sockets[n].traffic.wire).frames, count)
  }

  /** The count read from a body that reached the wire whole without being acknowledged. */
  function Late(t: Traffic, count: Reader): nat {
    var frames := Decode(t.wire).frames;
    if t.acked < |frames| then count(frames[t.acked]) else 0
  }

  function LateTotal(sockets: seq<Socket>, count: Reader): nat {
    if sockets == [] then 0
    else
      var n := |sockets| - 1;
      LateTotal(sockets[..n], count) + Late(sockets[n].traffic, count)
  }

  // ----- Sums over sockets -----

  function Sum(ns: seq<nat>): nat {
    if ns == [] then 0 else Sum(ns[..|ns| - 1]) + ns[|ns| - 1]
  }

  function SumFirst(ns: seq<nat>, n: nat): nat {
    if n <= |ns| then Sum(ns[..n]) else Sum(ns)
  }

  lemma SumOneMore(ns: seq<nat>, n: nat)
    requires n < |ns|
    ensures SumFirst(ns, n + 1) == SumFirst(ns, n) + ns[n]
  {
    assert ns[..n + 1][..n] == ns[..n];
  }

  /** The drops reported by the acknowledged bodies of all sockets. */
  function AckedTotal(sockets: seq<Socket>): nat {
    if sockets == [] then 0
    else
      var n := |sockets| - 1;
      AckedTotal(sockets[..n]) + SumFirst(sockets[n].traffic.counts, sockets[n].traffic.acked)
  }

  /** What is read from the bodies submitted is what was noted for them. */
  ghost predicate ReadAsNoted(t: Traffic, count: Reader) {
    && |t.counts| == |t.sent|
    && forall j :: 0 <= j < |t.sent| ==> count(t.sent[j]) == t.counts[j]
  }

  lemma {:induction false} SumReadIsNoted(t: Traffic, count: Reader, k: nat)
    requires ReadAsNoted(t, count) && k <= |t.sent|
    ensures SumRead(t.sent[..k], count) == SumFirst(t.counts, k)
  {
    if k > 0 {
      SumReadIsNoted(t, count, k - 1);
      SumOneMore(t.counts, k - 1);
      assert t.sent[..k][..k - 1] == t.sent[..k - 1];
    }
  }

  lemma SocketSeesAckedAndLate(t: Traffic, count: Reader)
    requires TrafficOk(t) && ReadAsNoted(t, count)
    ensures SumRead(Decode(t.wire).frames, count) == SumFirst(t.counts, t.acked) + Late(t, count)
  {
    var k := TrafficDecodes(t, t.wire);
    SumReadIsNoted(t, count, k);
    assert |t.sent[..k]| == k;
    if k == t.acked + 1 {
      SumOneMore(t.counts, t.acked);
    }
  }

  lemma {:induction false} DaemonSeesAckedAndLate(sockets: seq<Socket>, count: Reader)
    requires forall i :: 0 <= i < |sockets| ==>
               TrafficOk(sockets[i].traffic) && ReadAsNoted(sockets[i].traffic, count)
    ensures DaemonTotal(sockets, count) == AckedTotal(sockets) + LateTotal(sockets, count)
  {
    if sockets != [] {
      var n := |sockets| - 1;
      DaemonSeesAckedAndLate(sockets[..n], count);
      SocketSeesAckedAndLate(sockets[n].traffic, count);
    }
  }

  lemma {:induction false} LateTotalZero(sockets: seq<Socket>, count: Reader)
    ensures LateTotal(sockets, count) == 0
            <==> forall i :: 0 <= i < |sockets| ==> Late(sockets[i].traffic, count) == 0
  {
    if sockets != [] {
      var n := |sockets| - 1;
      LateTotalZero(sockets[..n], count);
      assert forall i :: 0 <= i < n ==> sockets[..n][i] == sockets[i];
    }
  }

  // ----- The acknowledged total is the reported total -----

  function AckedHere(t: Traffic): nat {
    SumFirst(t.counts, t.acked)
  }

  lemma {:induction false} AckedTotalSame(a: seq<Socket>, b: seq<Socket>)
    requires |a| <= |b|
    requires forall j :: 0 <= j < |a| ==> AckedHere(a[j].traffic) == AckedHere(b[j].traffic)
    requires forall j :: |a| <= j < |b| ==> b[j].traffic == NO_TRAFFIC
    ensures AckedTotal(a) == AckedTotal(b)
    decreases |b|
  {
    if b != [] {
      var n := |b| - 1;
      if |a| == |b| {
        AckedTotalSame(a[..n], b[..n]);
      } else {
        AckedTotalSame(a, b[..n]);
      }
    }
  }

  lemma {:induction false} AckedTotalUpdate(a: seq<Socket>, b: seq<Socket>, i: nat)
    requires i < |a| == |b|
    requires forall j :: 0 <= j < |a| && j != i ==> AckedHere(a[j].traffic) == AckedHere(b[j].traffic)
    ensures AckedTotal(b) == AckedTotal(a) - AckedHere(a[i].traffic) + AckedHere(b[i].traffic)
  {
    var n := |a| - 1;
    if i < n {
      AckedTotalUpdate(a[..n], b[..n], i);
    } else {
      AckedTotalSame(a[..n], b[..n]);
    }
  }

  /** The count of a frame acknowledged but not yet settled. */
  function AckedInFlight(s: State): nat {
    if (s.pc.Written? && !s.pc.failed) || (s.pc.Retried? && s.pc.delivered) then s.pc.job.captured else 0
  }

  ghost predicate Balanced(s: State) {
    AckedTotal(s.sockets) == Reported(s.settled) + AckedInFlight(s)
  }

  lemma ReportedSnoc(h: seq<Settled>, e: Settled)
    ensures Reported(h + [e]) == Reported(h) + match e.outcome case Acked(n) => n case _ => 0
  {
    assert (h + [e])[..|h|] == h;
  }

  lemma FinishReported(s: State, t: State, o: Outcome)
    requires Finishes(s, t, o)
    ensures Reported(t.settled) == Reported(s.settled) + match o case Acked(n) => n case _ => 0
  {
    ReportedSnoc(s.settled, t.settled[|s.settled|]);
  }

  lemma SameTrafficBalance(s: State, t: State)
    requires SameTraffic(s, t)
    ensures AckedTotal(s.sockets) == AckedTotal(t.sockets)
  {
    AckedTotalSame(s.sockets, t.sockets);
  }

  lemma SubmitBalance(s: State)
    requires Owned(s) && Streams(s) && s.pc.Dialed?
    ensures AckedTotal(WriteFrame(s, s.pc.job).sockets) == AckedTotal(s.sockets)
  {
    if s.conn.Some? {
      var i := s.conn.value;
      var t := s.sockets[i].traffic;
      assert StreamOk(s, i);
      assert (t.counts + [s.pc.job.captured])[..t.acked] == t.counts[..t.acked];
      AckedTotalSame(s.sockets, WriteFrame(s, s.pc.job).sockets);
    }
  }

  lemma AfterDialBalanced(s: State)
    requires Owned(s) && Streams(s) && Balanced(s) && s.pc.Dialed?
    ensures Balanced(AfterDial(s))
  {
    var t := AfterDial(s);
    AfterDialEffect(s);
    if s.pc.failed || s.closed {
      AfterDialTraffic(s);
      SameTrafficBalance(s, t);
      if !Continues(s, t) {
        FinishReported(s, t, Dropped);
      }
    } else {
      SubmitBalance(s);
    }
  }

  lemma AfterWriteBalanced(s: State)
    requires Balanced(s) && s.pc.Written?
    ensures Balanced(AfterWrite(s))
  {
    var t := AfterWrite(s);
    AfterWriteEffect(s);
    AfterWriteTraffic(s);
    SameTrafficBalance(s, t);
    if s.pc.job.attempt.First? && !s.pc.failed {
      FinishReported(s, t, Acked(s.pc.job.captured));
    }
  }

  lemma AfterRetryBalanced(s: State)
    requires Balanced(s) && s.pc.Retried?
    ensures Balanced(AfterRetry(s))
  {
    var t := AfterRetry(s);
    AfterRetryEffect(s);
    AfterRetryTraffic(s);
    SameTrafficBalance(s, t);
    FinishReported(s, t, if s.pc.delivered then Acked(s.pc.job.captured) else Dropped);
  }

  lemma StartBalanced(s: State)
    requires Balanced(s) && Enabled(s, LStart)
    ensures Balanced(Start(s))
  {
    var t := Start(s);
    StartTakes(s);
    OthersKeepTraffic(s, LStart);
    SameTrafficBalance(s, t);
    if t.pc.Idle? {
      ReportedSnoc(s.settled, t.settled[|s.settled|]);
    }
  }

  lemma WriteCallbackBalanced(s: State, failed: bool)
    requires Owned(s) && Streams(s) && Balanced(s) && Enabled(s, LWriteCallback(failed))
    ensures Balanced(OnWriteCallback(s, failed))
  {
    if !failed {
      var i := s.pc.sock;
      var t := OnWriteCallback(s, false);
      assert StreamOk(s, i);
      SumOneMore(s.sockets[i].traffic.counts, s.sockets[i].traffic.acked);
      AckedTotalUpdate(s.sockets, t.sockets, i);
    }
  }

  lemma FlushBalanced(s: State, i: nat, n: nat)
    requires Balanced(s) && Enabled(s, LFlush(i, n))
    ensures Balanced(Flush(s, i, n))
  {
    AckedTotalSame(s.sockets, Flush(s, i, n).sockets);
  }

  lemma ConnectKeepsAcked(s: State, i: nat)
    requires i < |s.sockets|
    ensures OnConnect(s, i).settled == s.settled && AckedInFlight(OnConnect(s, i)) == AckedInFlight(s)
  {
  }

  lemma DialFailureKeepsAcked(s: State, i: nat)
    ensures var t := SettleDial(Destroy(s, i), i, true);
            t.settled == s.settled && AckedInFlight(t) == AckedInFlight(s)
  {
  }

  lemma QuietKeepsAcked(s: State, l: Label)
    requires Enabled(s, l)
    requires (IsCallback(l) && !l.LWriteCallback?) || l.LEmit? || l.LClose?
    ensures Step(s, l).settled == s.settled && AckedInFlight(Step(s, l)) == AckedInFlight(s)
  {
    match l
    case LConnect(i) => ConnectKeepsAcked(s, i);
    case LConnectError(i) => DialFailureKeepsAcked(s, i);
    case LDialTimer(i) => DialFailureKeepsAcked(s, i);
    case _ =>
  }

  lemma QuietKeepsBalanced(s: State, l: Label)
    requires Balanced(s) && Enabled(s, l)
    requires (IsCallback(l) && !l.LWriteCallback? && !l.LFlush?) || l.LEmit? || l.LClose?
    ensures Balanced(Step(s, l))
  {
    var t := Step(s, l);
    OthersKeepTraffic(s, l);
    SameTrafficBalance(s, t);
    QuietKeepsAcked(s, l);
  }

  lemma StepKeepsBalanced(s: State, l: Label)
    requires Owned(s) && Streams(s) && Balanced(s)
    ensures Balanced(Step(s, l))
  {
    if Enabled(s, l) {
      match l
      case LStart => StartBalanced(s);
      case LAfterDial => AfterDialBalanced(s);
      case LAfterWrite => AfterWriteBalanced(s);
      case LAfterRetry => AfterRetryBalanced(s);
      case LWriteCallback(failed) => WriteCallbackBalanced(s, failed);
      case LFlush(i, n) => FlushBalanced(s, i, n);
      case _ => QuietKeepsBalanced(s, l);
    }
  }

  lemma ReachableBalanced(s: State)
    requires Reachable(s)
    ensures Balanced(s)
  {
    forall t, l | Reachable(t) && Balanced(t) ensures Balanced(Step(t, l)) {
      ReachableStreams(t);
      StepKeepsBalanced(t, l);
    }
    ReachableInvariant(Balanced, s);
  }

  /** A reader for the accepted frames reads what was noted, on every socket. */
  lemma ReachableReadAsNoted(s: State, count: Reader, i: nat)
    requires Reachable(s) && Reads(count, s.enqueued) && i < |s.sockets|
    ensures TrafficOk(s.sockets[i].traffic) && ReadAsNoted(s.sockets[i].traffic, count)
  {
    var t := s.sockets[i].traffic;
    ReachableStreams(s);
    assert StreamOk(s, i);
    forall j | 0 <= j < |t.sent| ensures count(t.sent[j]) == t.counts[j] {
      var k := BodiesCarryTheirCounts(s, i, j);
      assert s.enqueued[k] in s.enqueued;
    }
  }

  // ----- Main results -----

  /** The drop counts a daemon reads from what it decodes add up to those of the acknowledged
      frames plus those of the bodies that arrived whole although their write timed out or
      failed. */
  lemma DaemonTotalExplained(s: State, count: Reader)
    requires Reachable(s) && Reads(count, s.enqueued)
    ensures DaemonTotal(s.sockets, count)
            == Reported(s.settled) + AckedInFlight(s) + LateTotal(s.sockets, count)
  {
    ReachableBalanced(s);
    forall i | 0 <= i < |s.sockets|
      ensures TrafficOk(s.sockets[i].traffic) && ReadAsNoted(s.sockets[i].traffic, count)
    {
      ReachableReadAsNoted(s, count, i);
    }
    DaemonSeesAckedAndLate(s.sockets, count);
  }

  /** At rest the daemon's total plus the drops still waiting is the number of frames the emitter
      counted as dropped if and only if no unacknowledged body that carries drops has reached the
      wire whole. */
  lemma DaemonLearnsCountedDrops(s: State, count: Reader)
    requires Reachable(s) && s.pc.Idle? && Reads(count, s.enqueued)
    ensures DaemonTotal(s.sockets, count) + s.dropCount == Counted(s.settled)
            <==> forall i :: 0 <= i < |s.sockets| ==> Late(s.sockets[i].traffic, count) == 0
  {
    DaemonTotalExplained(s, count);
    DropsAreConserved(s);
    LateTotalZero(s.sockets, count);
  }
}
