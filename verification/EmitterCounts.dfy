/** Every body on every wire carries the drop count of its own frame. */
module EmitterCounts {
  import opened EmitterMachine
  import opened EmitterEffects
  import opened EmitterOwnership
  import opened EmitterDrops
  import opened EmitterOrder
  import opened EmitterStreams
  import opened EmitterDelivery
  import opened EmitterAttribution

  /** The count noted for write `w` is that of the drops before frame `k`. */
  ghost predicate NotesDrops(s: State, k: nat, w: Write)
    requires k <= |s.settled|
  {
    && w.sock < |s.sockets| && w.index < |s.sockets[w.sock].traffic.counts|
    && s.sockets[w.sock].traffic.counts[w.index] == SinceAck(s.settled[..k])
  }

  ghost predicate Noted(s: State) {
    forall k: nat, w :: k <= |s.settled| && Wrote(s, k, w) ==> NotesDrops(s, k, w)
  }

  /** Counts already noted stay. */
  ghost predicate KeepsNotes(s: State, t: State) {
    && |s.sockets| <= |t.sockets|
    && forall i :: 0 <= i < |s.sockets| ==> s.sockets[i].traffic.counts <= t.sockets[i].traffic.counts
  }

  lemma NotesDropsForever(s: State, t: State, k: nat, w: Write)
    requires k <= |s.settled| <= |t.settled| && t.settled[..|s.settled|] == s.settled
    requires KeepsNotes(s, t) && NotesDrops(s, k, w)
    ensures NotesDrops(t, k, w)
  {
    assert t.settled[..k] == t.settled[..|s.settled|][..k];
    assert s.sockets[w.sock].traffic.counts <= t.sockets[w.sock].traffic.counts;
  }

  lemma SameWritesNoted(s: State, t: State)
    requires Noted(s) && KeepsNotes(s, t) && t.settled == s.settled && t.writes == s.writes
    ensures Noted(t)
  {
    forall k: nat, w | k <= |t.settled| && Wrote(t, k, w) ensures NotesDrops(t, k, w) {
      assert Wrote(s, k, w);
      NotesDropsForever(s, t, k, w);
    }
  }

  /** Settling the frame in flight only files its writes. */
  lemma FiledNoted(s: State, t: State)
    requires Noted(s) && KeepsNotes(s, t) && t.writes == [] && |t.settled| == |s.settled| + 1
    requires t.settled[..|s.settled|] == s.settled && t.settled[|s.settled|].writes == s.writes
    ensures Noted(t)
  {
    var n := |s.settled|;
    assert WritesOf(t, n + 1) == [];
    forall k: nat, w | k <= |t.settled| && Wrote(t, k, w) ensures NotesDrops(t, k, w) {
      if k < n {
        assert t.settled[k] == t.settled[..n][k];
      }
      assert Wrote(s, k, w);
      NotesDropsForever(s, t, k, w);
    }
  }

  /** Submitting a body notes the count its frame has captured. */
  lemma SubmittedNoted(s: State)
    requires Owned(s) && Streams(s) && Ledger(s) && Noted(s) && s.pc.Dialed? && s.conn.Some?
    ensures Noted(WriteFrame(s, s.pc.job))
  {
    var t, n := WriteFrame(s, s.pc.job), |s.settled|;
    var i := s.conn.value;
    assert StreamOk(s, i);
    forall k: nat, w | k <= n && Wrote(t, k, w) ensures NotesDrops(t, k, w) {
      if Wrote(s, k, w) {
        NotesDropsForever(s, t, k, w);
      } else {
        assert k == n && w == Write(i, |s.sockets[i].traffic.sent|);
        assert s.settled[..n] == s.settled;
      }
    }
  }

  lemma SameTrafficKeepsNotes(s: State, t: State)
    requires SameTraffic(s, t)
    ensures KeepsNotes(s, t)
  {
  }

  lemma AfterDialNoted(s: State)
    requires Owned(s) && Streams(s) && Ledger(s) && Noted(s) && s.pc.Dialed?
    ensures Noted(AfterDial(s))
  {
    var t := AfterDial(s);
    AfterDialEffect(s);
    if s.pc.failed || s.closed {
      AfterDialTraffic(s);
      SameTrafficKeepsNotes(s, t);
      if Continues(s, t) {
        AfterDialWrites(s);
        SameWritesNoted(s, t);
      } else {
        FiledNoted(s, t);
      }
    } else if s.conn.Some? {
      SubmittedNoted(s);
    } else {
      SameWritesNoted(s, t);
    }
  }

  lemma AfterWriteNoted(s: State)
    requires Noted(s) && s.pc.Written?
    ensures Noted(AfterWrite(s))
  {
    var t := AfterWrite(s);
    AfterWriteEffect(s);
    AfterWriteTraffic(s);
    SameTrafficKeepsNotes(s, t);
    if Continues(s, t) {
      AfterWriteWrites(s);
      SameWritesNoted(s, t);
    } else {
      FiledNoted(s, t);
    }
  }

  lemma AfterRetryNoted(s: State)
    requires Noted(s) && s.pc.Retried?
    ensures Noted(AfterRetry(s))
  {
    AfterRetryEffect(s);
    AfterRetryTraffic(s);
    SameTrafficKeepsNotes(s, AfterRetry(s));
    FiledNoted(s, AfterRetry(s));
  }

  lemma StartNoted(s: State)
    requires Noted(s) && s.writes == [] && Enabled(s, LStart)
    ensures Noted(Start(s))
  {
    var t := Start(s);
    StartTakes(s);
    OthersKeepTraffic(s, LStart);
    SameTrafficKeepsNotes(s, t);
    if t.pc.Idle? {
      FiledNoted(s, t);
    } else {
      SameWritesNoted(s, t);
    }
  }

  lemma QuietNoted(s: State, l: Label)
    requires Noted(s) && Enabled(s, l) && (IsCallback(l) || l.LEmit? || l.LClose?)
    ensures Noted(Step(s, l))
  {
    var t := Step(s, l);
    if l.LClose? {
      CloseEffect(s);
    } else if IsCallback(l) {
      CallbackEffect(s, l);
    }
    if !l.LWriteCallback? && !l.LFlush? {
      OthersKeepTraffic(s, l);
      SameTrafficKeepsNotes(s, t);
    }
    SameWritesNoted(s, t);
  }

  lemma StepKeepsNoted(s: State, l: Label)
    requires Owned(s) && Streams(s) && Underway(s) && Ledger(s) && Noted(s)
    ensures Noted(Step(s, l))
  {
    if Enabled(s, l) {
      match l
      case LStart => StartNoted(s);
      case LAfterDial => AfterDialNoted(s);
      case LAfterWrite => AfterWriteNoted(s);
      case LAfterRetry => AfterRetryNoted(s);
      case _ => QuietNoted(s, l);
    }
  }

  lemma ReachableNoted(s: State)
    requires Reachable(s)
    ensures Noted(s)
  {
    forall t, l | Reachable(t) && Noted(t) ensures Noted(Step(t, l)) {
      ReachableDelivery(t);
      ReachableLedger(t);
      StepKeepsNoted(t, l);
    }
    assert WritesOf(Init(), 0) == [];
    ReachableInvariant(Noted, s);
  }

  // ----- Main result -----

  /** Body `j` of socket `i` is that of the accepted frame `k` that wrote it, with the number of
      drops between the acknowledged frame before `k` and `k` in it: the count noted for it. */
  lemma BodiesCarryTheirCounts(s: State, i: nat, j: nat) returns (k: nat)
    requires Reachable(s) && i < |s.sockets| && j < |s.sockets[i].traffic.sent|
    ensures k <= |s.settled| && Write(i, j) in WritesOf(s, k) && k < |s.enqueued|
    ensures var drops := SinceAck(s.settled[..k]);
            && j < |s.sockets[i].traffic.counts| && s.sockets[i].traffic.counts[j] == drops
            && s.sockets[i].traffic.sent[j] == s.enqueued[k].serialise(drops)
  {
    var w := Write(i, j);
    k := EveryBodyHasOneFrame(s, i, j);
    ReachableNoted(s);
    assert Wrote(s, k, w) && NotesDrops(s, k, w);
    if k < |s.settled| {
      ReachableDelivery(s);
      assert Delivered(s, s.settled[k]);
      DropCountsAreExact(s, k);
      SettledInOrder(s, k);
    } else {
      ReachableLedger(s);
      ReachableFifo(s);
      assert s.settled[..k] == s.settled;
      assert Current(s) == [s.pc.job.frame];
    }
  }
}
