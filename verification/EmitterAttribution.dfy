/** Every body on every wire belongs to exactly one accepted frame. */
module EmitterAttribution {
  import opened EmitterMachine
  import opened EmitterEffects
  import opened EmitterOwnership
  import opened EmitterStreams
  import opened EmitterDelivery

  /** The writes of settled frame `k`, or of the frame in flight for `k == |s.settled|`. */
  function WritesOf(s: State, k: nat): seq<Write>
    requires k <= |s.settled|
  {
    if k < |s.settled| then s.settled[k].writes else s.writes
  }

  ghost predicate Wrote(s: State, k: nat, w: Write)
    requires k <= |s.settled|
  {
    w in WritesOf(s, k)
  }

  predicate OnSocket(s: State, w: Write) {
    w.sock < |s.sockets| && w.index < |s.sockets[w.sock].traffic.sent|
  }

  ghost predicate Attributed(s: State) {
    && (forall w :: OnSocket(s, w) <==> exists k: nat :: k <= |s.settled| && Wrote(s, k, w))
    && (forall j: nat, k: nat, w :: j < k <= |s.settled| && Wrote(s, j, w) ==> !Wrote(s, k, w))
  }

  /** The same bodies on the sockets, and the same writes in the books. */
  lemma SameWritesAttributed(s: State, t: State)
    requires Attributed(s) && t.settled == s.settled && t.writes == s.writes
    requires forall w :: OnSocket(t, w) <==> OnSocket(s, w)
    ensures Attributed(t)
  {
    assert forall k: nat, w :: k <= |s.settled| ==> (Wrote(t, k, w) <==> Wrote(s, k, w));
  }

  /** Settling the frame in flight only files its writes. */
  lemma FiledAttributed(s: State, t: State)
    requires Attributed(s) && t.writes == [] && |t.settled| == |s.settled| + 1
    requires t.settled[..|s.settled|] == s.settled && t.settled[|s.settled|].writes == s.writes
    requires forall w :: OnSocket(t, w) <==> OnSocket(s, w)
    ensures Attributed(t)
  {
    var n := |s.settled|;
    forall k: nat, w | k <= n ensures Wrote(t, k, w) <==> Wrote(s, k, w) {
      if k < n {
        assert t.settled[k] == t.settled[..n][k];
      }
    }
    assert WritesOf(t, n + 1) == [];
  }

  /** Submitting a body adds one write, to the frame in flight. */
  lemma SubmittedAttributed(s: State, t: State, w0: Write)
    requires Attributed(s) && t.settled == s.settled && t.writes == s.writes + [w0]
    requires !OnSocket(s, w0)
    requires forall w :: OnSocket(t, w) <==> OnSocket(s, w) || w == w0
    ensures Attributed(t)
  {
    var n := |s.settled|;
    assert forall k: nat, w :: k < n ==> (Wrote(t, k, w) <==> Wrote(s, k, w));
    assert forall w :: Wrote(t, n, w) <==> Wrote(s, n, w) || w == w0;
    forall w ensures OnSocket(t, w) <==> exists k: nat :: k <= n && Wrote(t, k, w) {
      if w == w0 {
        assert Wrote(t, n, w0);
      } else {
        assert forall k: nat :: k <= n ==> (Wrote(t, k, w) <==> Wrote(s, k, w));
      }
    }
  }

  lemma SameTrafficOnSocket(s: State, t: State)
    requires SameTraffic(s, t)
    ensures forall w :: OnSocket(t, w) <==> OnSocket(s, w)
  {
  }

  lemma AfterDialWrites(s: State)
    requires s.pc.Dialed? && (s.pc.failed || s.closed)
    ensures !AfterDial(s).pc.Idle? ==> AfterDial(s).writes == s.writes
  {
  }

  lemma AfterDialAttributed(s: State)
    requires Owned(s) && Attributed(s) && s.pc.Dialed?
    ensures Attributed(AfterDial(s))
  {
    var t := AfterDial(s);
    AfterDialEffect(s);
    if s.pc.failed || s.closed {
      AfterDialTraffic(s);
      SameTrafficOnSocket(s, t);
      if Continues(s, t) {
        AfterDialWrites(s);
        SameWritesAttributed(s, t);
      } else {
        FiledAttributed(s, t);
      }
    } else if s.conn.Some? {
      var i := s.conn.value;
      SubmittedAttributed(s, t, Write(i, |s.sockets[i].traffic.sent|));
    } else {
      SameWritesAttributed(s, t);
    }
  }

  lemma AfterWriteWrites(s: State)
    requires s.pc.Written?
    ensures !AfterWrite(s).pc.Idle? ==> AfterWrite(s).writes == s.writes
  {
  }

  lemma AfterWriteAttributed(s: State)
    requires Attributed(s) && s.pc.Written?
    ensures Attributed(AfterWrite(s))
  {
    var t := AfterWrite(s);
    AfterWriteEffect(s);
    AfterWriteTraffic(s);
    SameTrafficOnSocket(s, t);
    if Continues(s, t) {
      AfterWriteWrites(s);
      SameWritesAttributed(s, t);
    } else {
      FiledAttributed(s, t);
    }
  }

  lemma StartAttributed(s: State)
    requires Attributed(s) && s.writes == [] && Enabled(s, LStart)
    ensures Attributed(Start(s))
  {
    var t := Start(s);
    StartTakes(s);
    OthersKeepTraffic(s, LStart);
    SameTrafficOnSocket(s, t);
    if t.pc.Idle? {
      FiledAttributed(s, t);
    } else {
      SameWritesAttributed(s, t);
    }
  }

  lemma AfterRetryAttributed(s: State)
    requires Attributed(s) && s.pc.Retried?
    ensures Attributed(AfterRetry(s))
  {
    AfterRetryEffect(s);
    AfterRetryTraffic(s);
    SameTrafficOnSocket(s, AfterRetry(s));
    FiledAttributed(s, AfterRetry(s));
  }

  lemma QuietAttributed(s: State, l: Label)
    requires Attributed(s) && Enabled(s, l) && (IsCallback(l) || l.LEmit? || l.LClose?)
    ensures Attributed(Step(s, l))
  {
    var t := Step(s, l);
    if l.LClose? {
      CloseEffect(s);
    } else if IsCallback(l) {
      CallbackEffect(s, l);
    }
    if !l.LWriteCallback? && !l.LFlush? {
      OthersKeepTraffic(s, l);
      SameTrafficOnSocket(s, t);
    }
    SameWritesAttributed(s, t);
  }

  lemma StepKeepsAttributed(s: State, l: Label)
    requires Owned(s) && Underway(s) && Attributed(s)
    ensures Attributed(Step(s, l))
  {
    if Enabled(s, l) {
      match l
      case LStart => StartAttributed(s);
      case LAfterDial => AfterDialAttributed(s);
      case LAfterWrite => AfterWriteAttributed(s);
      case LAfterRetry => AfterRetryAttributed(s);
      case _ => QuietAttributed(s, l);
    }
  }

  lemma InitAttributed()
    ensures Attributed(Init())
  {
    assert forall k: nat, w :: k <= 0 ==> !Wrote(Init(), k, w);
  }

  lemma ReachableAttributed(s: State)
    requires Reachable(s)
    ensures Attributed(s)
  {
    forall t, l | Reachable(t) && Attributed(t) ensures Attributed(Step(t, l)) {
      ReachableDelivery(t);
      StepKeepsAttributed(t, l);
    }
    InitAttributed();
    ReachableInvariant(Attributed, s);
  }

  lemma SettledBody(s: State, k: nat, w: Write)
    requires AllDelivered(s) && k < |s.settled| && w in s.settled[k].writes
    ensures Points(s, w, s.settled[k].body)
  {
    var e := s.settled[k];
    assert Delivered(s, e);
    var j :| 0 <= j < |e.writes| && e.writes[j] == w;
    if e.outcome.Acked? && j < |e.writes| - 1 {
      assert Abandoned(s, e.writes[..|e.writes| - 1][j], e.body);
    }
  }

  lemma CurrentBody(s: State, w: Write)
    requires Underway(s) && w in s.writes
    ensures !s.pc.Idle? && Points(s, w, s.pc.job.body)
  {
    var j :| 0 <= j < |s.writes| && s.writes[j] == w;
    if j < |s.writes| - 1 {
      assert s.writes[..|s.writes| - 1][j] == w;
    }
  }

  /** Whatever a daemon decodes is the body of an accepted frame: body `j` of socket `i` was put
      there by frame `k`, settled or in flight, and by no other. */
  lemma EveryBodyHasOneFrame(s: State, i: nat, j: nat) returns (k: nat)
    requires Reachable(s) && i < |s.sockets| && j < |s.sockets[i].traffic.sent|
    ensures k <= |s.settled|
    ensures forall k': nat :: k' <= |s.settled| ==> (Write(i, j) in WritesOf(s, k') <==> k' == k)
    ensures k < |s.settled| ==> s.sockets[i].traffic.sent[j] == s.settled[k].body
    ensures k == |s.settled| ==> !s.pc.Idle? && s.sockets[i].traffic.sent[j] == s.pc.job.body
  {
    ReachableDelivery(s);
    ReachableAttributed(s);
    var w := Write(i, j);
    assert OnSocket(s, w);
    k :| k <= |s.settled| && Wrote(s, k, w);
    forall k': nat | k' <= |s.settled| ensures w in WritesOf(s, k') <==> k' == k {
      assert Wrote(s, k', w) <==> k' == k;
    }
    if k < |s.settled| {
      SettledBody(s, k, w);
    } else {
      CurrentBody(s, w);
    }
  }
}
