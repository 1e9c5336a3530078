/** Who owns which socket, in every reachable state. */
module EmitterOwnership {
  import opened Wrappers
  import opened EmitterMachine

  /** The frame in flight waits for socket `i`'s dial promise. */
  predicate DialOpen(s: State, i: nat) {
    s.pc.Dialing? && s.pc.sock == i
  }

  /** The promise of a dial is unsettled, its timer armed and its socket connecting exactly
      while the frame in flight waits for it; a connected socket is `conn`. */
  predicate SocketOk(s: State, i: nat)
    requires i < |s.sockets|
  {
    var sock := s.sockets[i];
    && (sock.settled <==> !DialOpen(s, i))
    && (sock.timer.Some? <==> DialOpen(s, i))
    && (sock.phase.Connecting? <==> DialOpen(s, i))
    && (sock.phase.Open? ==> s.conn == Some(i))
    && (sock.errorHandler ==> sock.connectFired)
    && (DialOpen(s, i) ==> !sock.connectFired)
  }

  ghost predicate Owned(s: State) {
    && (forall i {:trigger SocketOk(s, i)} {:trigger s.sockets[i]} :: 0 <= i < |s.sockets| ==> SocketOk(s, i))
    && (s.conn.Some? ==> !s.closed && s.conn.value < |s.sockets| && s.sockets[s.conn.value].errorHandler)
    && (s.pc.Dialing? ==> s.pc.sock < |s.sockets| && s.conn.None?)
    && (s.pc.Writing? ==> s.pc.sock < |s.sockets| && s.conn in {None, Some(s.pc.sock)})
  }

  // ----- Every step keeps it -----

  lemma CloseKeepsOwned(s: State)
    requires Owned(s)
    ensures Owned(Close(s))
  {
  }

  lemma StartKeepsOwned(s: State)
    requires Owned(s) && s.pc.Idle? && s.queue != []
    ensures Owned(Start(s))
  {
  }

  lemma AfterDialKeepsOwned(s: State)
    requires Owned(s) && s.pc.Dialed?
    ensures Owned(AfterDial(s))
  {
  }

  lemma AfterWriteKeepsOwned(s: State)
    requires Owned(s) && s.pc.Written?
    ensures Owned(AfterWrite(s))
  {
  }

  lemma AfterRetryKeepsOwned(s: State)
    requires Owned(s) && s.pc.Retried?
    ensures Owned(AfterRetry(s))
  {
  }

  lemma ConnectKeepsOwned(s: State, i: nat)
    requires Owned(s) && Enabled(s, LConnect(i))
    ensures Owned(OnConnect(s, i))
  {
    assert SocketOk(s, i);
  }

  lemma DialFailureKeepsOwned(s: State, i: nat)
    requires Owned(s) && (Enabled(s, LConnectError(i)) || Enabled(s, LDialTimer(i)))
    ensures Owned(SettleDial(Destroy(s, i), i, true))
  {
    assert SocketOk(s, i);
  }

  lemma SocketErrorsKeepOwned(s: State, i: nat)
    requires Owned(s) && i < |s.sockets|
    ensures Owned(OnConnError(s, i))
    ensures s.sockets[i].phase.Open? ==> Owned(PeerClose(s, i))
  {
    assert SocketOk(s, i);
  }

  lemma StepKeepsOwned(s: State, l: Label)
    requires Owned(s)
    ensures Owned(Step(s, l))
  {
    if Enabled(s, l) {
      match l
      case LClose => CloseKeepsOwned(s);
      case LStart => StartKeepsOwned(s);
      case LAfterDial => AfterDialKeepsOwned(s);
      case LAfterWrite => AfterWriteKeepsOwned(s);
      case LAfterRetry => AfterRetryKeepsOwned(s);
      case LConnect(i) => ConnectKeepsOwned(s, i);
      case LConnectError(i) => DialFailureKeepsOwned(s, i);
      case LDialTimer(i) => DialFailureKeepsOwned(s, i);
      case LConnError(i) => SocketErrorsKeepOwned(s, i);
      case LPeerClose(i) => SocketErrorsKeepOwned(s, i);
      case _ =>
    }
  }

  lemma ReachableOwned(s: State)
    requires Reachable(s)
    ensures Owned(s)
  {
    forall t, l | Owned(t) ensures Owned(Step(t, l)) {
      StepKeepsOwned(t, l);
    }
    ReachableInvariant(Owned, s);
  }

  // ----- What it means -----

  /** A closed emitter holds no connection, whatever was racing with `close`; and at most one
      socket is alive, the one being dialled or the current connection. */
  lemma LiveSockets(s: State)
    requires Reachable(s)
    ensures s.closed ==> s.conn.None?
    ensures forall i :: 0 <= i < |s.sockets| && !s.sockets[i].phase.Destroyed? ==>
              s.conn == Some(i) || (s.conn.None? && s.pc.Dialing? && s.pc.sock == i)
    ensures s.closed && !s.pc.Dialing? ==>
              forall i :: 0 <= i < |s.sockets| ==> s.sockets[i].phase.Destroyed?
  {
    ReachableOwned(s);
    assert forall i :: 0 <= i < |s.sockets| ==> SocketOk(s, i);
  }

  /** Only the connect callback of the dial in progress installs a connection, and only in an
      open emitter: one that lost the race against its timer or against `close` is refused. */
  lemma OnlyThePendingDialConnects(s: State, i: nat)
    requires Reachable(s) && i < |s.sockets|
    ensures Step(s, LConnect(i)).conn
            == if s.pc.Dialing? && s.pc.sock == i && !s.closed then Some(i) else s.conn
  {
    ReachableOwned(s);
    assert SocketOk(s, i);
  }

  lemma AfterDialConn(s: State)
    requires s.pc.Dialed?
    ensures AfterDial(s).conn == s.conn || s.closed
  {
  }

  lemma AfterWriteConn(s: State)
    requires s.pc.Written?
    ensures AfterWrite(s).conn == if s.pc.failed then None else s.conn
  {
  }

  lemma AfterRetryConn(s: State)
    requires s.pc.Retried?
    ensures AfterRetry(s).conn == s.conn
  {
  }

  /** `t` may follow `s`: an open dial stays as it is or hands its frame on. */
  ghost predicate DialContinues(s: State, t: State) {
    && |s.sockets| <= |t.sockets|
    && (t.pc.Dialing? ==> t.pc == s.pc || t.pc.sock == |s.sockets|)
    && (s.pc.Dialing? ==> t.pc == s.pc || (t.pc.Dialed? && t.pc.job == s.pc.job))
  }

  lemma StartDialing(s: State)
    requires Enabled(s, LStart)
    ensures DialContinues(s, Start(s))
  {
  }

  /** All that ever happens to the connection: the dial in progress installs it in an open emitter,
      and `close`, a failed write or an error of its own socket clears it. Late connects and errors
      of abandoned sockets do neither. */
  lemma ConnectionChanges(s: State, l: Label)
    requires Reachable(s) && Step(s, l).conn != s.conn
    ensures match Step(s, l).conn
            case Some(i) => s.pc.Dialing? && s.pc.sock == i && !s.closed && l == LConnect(i)
            case None => l == LClose || l == LConnError(s.conn.value) || (l == LAfterWrite && s.pc.failed)
  {
    ReachableOwned(s);
    match l
    case LStart => StartDialing(s);
    case LAfterDial => AfterDialConn(s);
    case LAfterWrite => AfterWriteConn(s);
    case LAfterRetry => AfterRetryConn(s);
    case LConnect(i) => assert SocketOk(s, i);
    case _ =>
  }

  lemma AfterDialDialing(s: State)
    requires s.pc.Dialed?
    ensures DialContinues(s, AfterDial(s))
  {
  }

  lemma AfterRetryDialing(s: State)
    requires s.pc.Retried?
    ensures DialContinues(s, AfterRetry(s))
  {
  }

  lemma AfterWriteDialing(s: State)
    requires s.pc.Written?
    ensures DialContinues(s, AfterWrite(s))
  {
  }

  lemma ConnectDialing(s: State, i: nat)
    requires Owned(s) && Enabled(s, LConnect(i))
    ensures DialContinues(s, OnConnect(s, i))
  {
    assert SocketOk(s, i);
  }

  lemma DialingSteps(s: State, l: Label)
    requires Owned(s)
    ensures DialContinues(s, Step(s, l))
  {
    if Enabled(s, l) {
      match l
      case LStart => StartDialing(s);
      case LAfterDial => AfterDialDialing(s);
      case LAfterRetry => AfterRetryDialing(s);
      case LAfterWrite => AfterWriteDialing(s);
      case LConnect(i) => ConnectDialing(s, i);
      case _ =>
    }
  }

  /** A dial promise settles at most once: no step re-opens it, and it settles together with
      the frame that waits for it resuming. */
  lemma DialSettlesOnce(s: State, l: Label, i: nat)
    requires Reachable(s) && i < |s.sockets|
    ensures var t := Step(s, l);
            && i < |t.sockets|
            && (s.sockets[i].settled ==> t.sockets[i].settled)
            && (!s.sockets[i].settled && t.sockets[i].settled ==>
                  s.pc.Dialing? && s.pc.sock == i && t.pc.Dialed? && t.pc.job == s.pc.job)
  {
    ReachableOwned(s);
    StepKeepsOwned(s, l);
    DialingSteps(s, l);
    assert SocketOk(s, i) && SocketOk(Step(s, l), i);
  }

  /** `doWrite` drops the connection when it finds the emitter closed after a dial. There is never
      anything to drop: the connect callback already refused the socket. */
  lemma PostDialDropIsANoOp(s: State)
    requires Reachable(s) && s.closed
    ensures DropConn(s) == s
  {
    ReachableOwned(s);
  }
}
