/** What the emitter counts as dropped, against what a daemon that receives everything on the
    wire has not got. */
module EmitterLosses {
  import opened Framing
  import opened EmitterMachine
  import opened EmitterStreams
  import opened EmitterDelivery
  import opened EmitterAttribution
  import opened EmitterDrops
  import opened EmitterDaemon

  // ----- Frames the daemon has -----

  /** The daemon decodes the body of write `w`. */
  predicate Decoded(s: State, w: Write) {
    w.sock < |s.sockets| && w.index < DecodedCount(s.sockets[w.sock].traffic)
  }

  predicate Arrived(s: State, e: Settled) {
    exists w :: w in e.writes && Decoded(s, w)
  }

  /** Frames of `h` counted as dropped that the daemon does not have. */
  function Missing(s: State, h: seq<Settled>): nat {
    if h == [] then 0
    else
      var e := h[|h| - 1];
      Missing(s, h[..|h| - 1]) + if e.outcome.Dropped? && !Arrived(s, e) then 1 else 0
  }

  /** Frames of `h` counted as dropped that the daemon has all the same. */
  function ArrivedDrops(s: State, h: seq<Settled>): nat {
    if h == [] then 0
    else
      var e := h[|h| - 1];
      ArrivedDrops(s, h[..|h| - 1]) + if e.outcome.Dropped? && Arrived(s, e) then 1 else 0
  }

  /** "Arrived" is meant literally: the daemon decodes the frame's body there. */
  lemma ArrivedIsDecoded(s: State, k: nat, w: Write)
    requires Reachable(s) && k < |s.settled| && w in s.settled[k].writes && Decoded(s, w)
    ensures Decode(s.sockets[w.sock].traffic.wire).frames[w.index] == s.settled[k].body
  {
    ReachableDelivery(s);
    SettledBody(s, k, w);
    assert StreamOk(s, w.sock);
    var t := s.sockets[w.sock].traffic;
    var n := TrafficDecodes(t, t.wire);
  }

  lemma {:induction false} CountedSplits(s: State, h: seq<Settled>)
    ensures Counted(h) == Missing(s, h) + ArrivedDrops(s, h)
  {
    if h != [] {
      CountedSplits(s, h[..|h| - 1]);
    }
  }

  ghost predicate NoneArrived(s: State, h: seq<Settled>) {
    forall k :: 0 <= k < |h| && h[k].outcome.Dropped? ==> !Arrived(s, h[k])
  }

  lemma {:induction false} ArrivedDropsZero(s: State, h: seq<Settled>)
    ensures ArrivedDrops(s, h) == 0 <==> NoneArrived(s, h)
  {
    if h != [] {
      var g := h[..|h| - 1];
      ArrivedDropsZero(s, g);
      assert forall k :: 0 <= k < |g| ==> g[k] == h[k];
    }
  }

  // ----- Main results -----

  /** At rest, the drops told to the daemon and those it will be told next exceed the frames it
      misses by the dropped frames that arrived whole and by the counts of late bodies. */
  lemma ReportExplained(s: State, count: Reader)
    requires Reachable(s) && s.pc.Idle? && Reads(count, s.enqueued)
    ensures DaemonTotal(s.sockets, count) + s.dropCount
            == Missing(s, s.settled) + ArrivedDrops(s, s.settled) + LateTotal(s.sockets, count)
  {
    DaemonTotalExplained(s, count);
    DropsAreConserved(s);
    CountedSplits(s, s.settled);
  }

  /** The report never falls short, and it is exact if and only if no body that carries drops
      arrived whole without being acknowledged and no frame counted as dropped arrived whole. */
  lemma DaemonLearnsExactDrops(s: State, count: Reader)
    requires Reachable(s) && s.pc.Idle? && Reads(count, s.enqueued)
    ensures DaemonTotal(s.sockets, count) + s.dropCount >= Missing(s, s.settled)
    ensures DaemonTotal(s.sockets, count) + s.dropCount == Missing(s, s.settled)
            <==> && (forall i :: 0 <= i < |s.sockets| ==> Late(s.sockets[i].traffic, count) == 0)
                 && NoneArrived(s, s.settled)
  {
    ReportExplained(s, count);
    LateTotalZero(s.sockets, count);
    ArrivedDropsZero(s, s.settled);
  }
}
