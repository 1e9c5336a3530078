/** The wires follow the order in which frames were accepted. */
module EmitterWireOrder {
  import opened EmitterMachine
  import opened EmitterEffects
  import opened EmitterOwnership
  import opened EmitterDelivery
  import opened EmitterAttribution

  /** `v` is earlier than `w`: on an earlier socket, or earlier on the same one. */
  predicate Earlier(v: Write, w: Write) {
    v.sock < w.sock || (v.sock == w.sock && v.index < w.index)
  }

  predicate Increasing(ws: seq<Write>) {
    forall i, j :: 0 <= i < j < |ws| ==> Earlier(ws[i], ws[j])
  }

  /** The connection, in use or being made, is the newest socket. */
  predicate Newest(s: State) {
    && (s.conn.Some? ==> s.conn.value == |s.sockets| - 1)
    && (s.pc.Dialing? ==> s.pc.sock == |s.sockets| - 1)
  }

  /** All writes of a frame are earlier than all writes of a later frame. */
  ghost predicate InOrder(s: State) {
    && (forall k: nat :: k <= |s.settled| ==> Increasing(WritesOf(s, k)))
    && (forall j: nat, k: nat, v, w :: j < k <= |s.settled| && Wrote(s, j, v) && Wrote(s, k, w) ==> Earlier(v, w))
  }

  // ----- The newest socket -----

  lemma AfterDialNewest(s: State)
    requires Owned(s) && Newest(s) && s.pc.Dialed?
    ensures Newest(AfterDial(s))
  {
  }

  lemma AfterWriteNewest(s: State)
    requires Owned(s) && Newest(s) && s.pc.Written?
    ensures Newest(AfterWrite(s))
  {
  }

  lemma AfterRetryNewest(s: State)
    requires Newest(s) && s.pc.Retried?
    ensures Newest(AfterRetry(s))
  {
  }

  lemma StartNewest(s: State)
    requires Newest(s) && Enabled(s, LStart)
    ensures Newest(Start(s))
  {
  }

  lemma ConnectNewest(s: State, i: nat)
    requires Owned(s) && Newest(s) && Enabled(s, LConnect(i))
    ensures Newest(OnConnect(s, i))
  {
    assert SocketOk(s, i);
  }

  lemma StepKeepsNewest(s: State, l: Label)
    requires Owned(s) && Newest(s)
    ensures Newest(Step(s, l))
  {
    if Enabled(s, l) {
      match l
      case LStart => StartNewest(s);
      case LAfterDial => AfterDialNewest(s);
      case LAfterWrite => AfterWriteNewest(s);
      case LAfterRetry => AfterRetryNewest(s);
      case LConnect(i) => ConnectNewest(s, i);
      case _ =>
    }
  }

  // ----- The order of writes -----

  lemma SameWritesInOrder(s: State, t: State)
    requires InOrder(s) && t.settled == s.settled && t.writes == s.writes
    ensures InOrder(t)
  {
    assert forall k: nat :: k <= |s.settled| ==> WritesOf(t, k) == WritesOf(s, k);
    assert forall k: nat, w :: k <= |s.settled| ==> (Wrote(t, k, w) <==> Wrote(s, k, w));
  }

  /** Settling the frame in flight only files its writes. */
  lemma FiledInOrder(s: State, t: State)
    requires InOrder(s) && t.writes == [] && |t.settled| == |s.settled| + 1
    requires t.settled[..|s.settled|] == s.settled && t.settled[|s.settled|].writes == s.writes
    ensures InOrder(t)
  {
    var n := |s.settled|;
    forall k: nat | k <= n ensures WritesOf(t, k) == WritesOf(s, k) {
      if k < n {
        assert t.settled[k] == t.settled[..n][k];
      }
    }
    assert forall k: nat, w :: k <= n ==> (Wrote(t, k, w) <==> Wrote(s, k, w));
    assert WritesOf(t, n + 1) == [];
  }

  /** A new write is later than all there are. */
  lemma SubmittedInOrder(s: State, t: State, w0: Write)
    requires InOrder(s) && t.settled == s.settled && t.writes == s.writes + [w0]
    requires forall k: nat, w :: k <= |s.settled| && Wrote(s, k, w) ==> Earlier(w, w0)
    ensures InOrder(t)
  {
    var n := |s.settled|;
    assert forall k: nat :: k < n ==> WritesOf(t, k) == WritesOf(s, k);
    assert forall k: nat, w :: k < n ==> (Wrote(t, k, w) <==> Wrote(s, k, w));
    assert forall w :: Wrote(t, n, w) <==> Wrote(s, n, w) || w == w0;
    forall i, j | 0 <= i < j < |t.writes| ensures Earlier(t.writes[i], t.writes[j]) {
      assert Wrote(s, n, t.writes[i]) by {
        assert t.writes[i] == s.writes[i];
      }
      if j < |s.writes| {
        assert Increasing(WritesOf(s, n));
      }
    }
    assert Increasing(WritesOf(t, n));
  }

  lemma SubmittedIsLatest(s: State, w0: Write)
    requires Owned(s) && Newest(s) && Attributed(s) && s.conn.Some?
    requires w0 == Write(s.conn.value, |s.sockets[s.conn.value].traffic.sent|)
    ensures forall k: nat, w :: k <= |s.settled| && Wrote(s, k, w) ==> Earlier(w, w0)
  {
    forall k: nat, w | k <= |s.settled| && Wrote(s, k, w) ensures Earlier(w, w0) {
      assert OnSocket(s, w);
    }
  }

  lemma AfterDialInOrder(s: State)
    requires Owned(s) && Newest(s) && Attributed(s) && InOrder(s) && s.pc.Dialed?
    ensures InOrder(AfterDial(s))
  {
    var t := AfterDial(s);
    AfterDialEffect(s);
    if s.pc.failed || s.closed {
      if Continues(s, t) {
        AfterDialWrites(s);
        SameWritesInOrder(s, t);
      } else {
        FiledInOrder(s, t);
      }
    } else if s.conn.Some? {
      var w0 := Write(s.conn.value, |s.sockets[s.conn.value].traffic.sent|);
      SubmittedIsLatest(s, w0);
      SubmittedInOrder(s, t, w0);
    } else {
      SameWritesInOrder(s, t);
    }
  }

  lemma AfterWriteInOrder(s: State)
    requires InOrder(s) && s.pc.Written?
    ensures InOrder(AfterWrite(s))
  {
    AfterWriteEffect(s);
    if Continues(s, AfterWrite(s)) {
      AfterWriteWrites(s);
      SameWritesInOrder(s, AfterWrite(s));
    } else {
      FiledInOrder(s, AfterWrite(s));
    }
  }

  lemma StartInOrder(s: State)
    requires InOrder(s) && s.writes == [] && Enabled(s, LStart)
    ensures InOrder(Start(s))
  {
    StartTakes(s);
    if Start(s).pc.Idle? {
      FiledInOrder(s, Start(s));
    } else {
      SameWritesInOrder(s, Start(s));
    }
  }

  lemma StepKeepsInOrder(s: State, l: Label)
    requires Owned(s) && Newest(s) && Underway(s) && Attributed(s) && InOrder(s)
    ensures InOrder(Step(s, l))
  {
    if Enabled(s, l) {
      match l
      case LStart => StartInOrder(s);
      case LAfterDial => AfterDialInOrder(s);
      case LAfterWrite => AfterWriteInOrder(s);
      case LAfterRetry =>
        AfterRetryEffect(s);
        FiledInOrder(s, AfterRetry(s));
      case LEmit(_) => SameWritesInOrder(s, Step(s, l));
      case LClose =>
        CloseEffect(s);
        SameWritesInOrder(s, Step(s, l));
      case _ =>
        CallbackEffect(s, l);
        SameWritesInOrder(s, Step(s, l));
    }
  }

  ghost predicate Ordered(s: State) {
    Newest(s) && InOrder(s)
  }

  lemma ReachableInOrder(s: State)
    requires Reachable(s)
    ensures InOrder(s)
  {
    forall t, l | Reachable(t) && Ordered(t) ensures Ordered(Step(t, l)) {
      ReachableDelivery(t);
      ReachableAttributed(t);
      StepKeepsNewest(t, l);
      StepKeepsInOrder(t, l);
    }
    assert WritesOf(Init(), 0) == [];
    ReachableInvariant(Ordered, s);
  }

  // ----- Main result -----

  /** Bodies `v` and `w` on the wires, `v` earlier, belong to frames `j <= k` in the order `emit`
      accepted them. So a daemon decodes frames in that order: none overtakes another, and one it
      decodes twice it decodes on two sockets, with no other frame in between. */
  lemma WiresFollowAcceptance(s: State, v: Write, w: Write) returns (j: nat, k: nat)
    requires Reachable(s) && OnSocket(s, v) && OnSocket(s, w) && Earlier(v, w)
    ensures j <= k <= |s.settled| && v in WritesOf(s, j) && w in WritesOf(s, k)
    ensures j == k ==> WritesOf(s, k) == [v, w] && v.sock < w.sock
  {
    j := EveryBodyHasOneFrame(s, v.sock, v.index);
    k := EveryBodyHasOneFrame(s, w.sock, w.index);
    ReachableInOrder(s);
    ReachableDelivery(s);
    assert v == Write(v.sock, v.index) && w == Write(w.sock, w.index);
    assert Wrote(s, j, v) && Wrote(s, k, w);
    if j == k {
      var ws := WritesOf(s, k);
      assert AtMostTwice(ws) && Increasing(ws) by {
        if k < |s.settled| {
          assert Delivered(s, s.settled[k]);
        }
      }
    }
  }
}
