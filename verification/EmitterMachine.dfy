/** The emitter as a state machine.

    JavaScript runs the stretch between two awaits without interruption, so each such stretch of
    `doWrite`, `retryWrite` and `dialIfNeeded`, each socket and timer callback, and each call of
    `emit` and `close` is one atomic step. `pc` says where the frame in flight is suspended.
    Everything outside the emitter (the daemon, the kernel, the clock) is a step too, enabled
    whenever nothing rules it out, so a run is any interleaving whatsoever. */
module EmitterMachine {
  import opened Wrappers
  import opened Framing

  const MAX_FRAME_SIZE: nat := 0x10_0000
  const DIAL_TIMEOUT_MS: nat := 500
  const WRITE_TIMEOUT_MS: nat := 100

  /** The longest one `doWrite` can take: dial, write, re-dial, re-write. */
  const SETTLE_MS: nat := 2 * DIAL_TIMEOUT_MS + 2 * WRITE_TIMEOUT_MS

  // ----- State -----

  /** A frame object on the queue. How it is serialised is left open, except that the bytes are
      determined by the frame and the drop count injected into it. */
  datatype Frame = Frame(serialise: nat -> Bytes)

  datatype Phase = Connecting | Open | Destroyed

  /** The bodies submitted with `write` on a socket, each with the drop count it carries, how many
      of those writes were acknowledged, and the bytes handed over to the kernel so far. */
  datatype Traffic = Traffic(sent: seq<Body>, counts: seq<nat>, acked: nat, wire: Bytes)

  /** A socket with the variables its dial closure captured (`settled`, `timer`). */
  datatype Socket = Socket(
    phase: Phase,
    connectFired: bool,
    settled: bool,
    timer: Option<nat>,
    errorHandler: bool,
    traffic: Traffic)

  /** First write, or the transparent retry with the `shouldLogDrop` captured before it. */
  datatype Attempt = First | Retry(logDrop: bool)

  /** The local variables of a suspended `doWrite`. */
  datatype Job = Job(frame: Frame, captured: nat, body: Body, attempt: Attempt)

  datatype Pc =
    | Idle
    | Dialing(job: Job, sock: nat)                   // the dial promise is unsettled
    | Dialed(job: Job, failed: bool)                 // settled; continuation not yet run
    | Writing(job: Job, sock: nat, deadline: nat)    // the write promise is unsettled
    | Written(job: Job, failed: bool)
    | Retried(job: Job, delivered: bool)             // retryWrite has returned

  datatype Stage = DialStage | WriteStage | ConnStage

  /** Body number `index` submitted on socket `sock`. */
  datatype Write = Write(sock: nat, index: nat)

  /** How a `doWrite` ended. Only `TooLarge` makes `emit` return an Error. */
  datatype Outcome = Skipped | TooLarge | Dropped | Acked(dropCount: nat)

  datatype Settled = Settled(
    frame: Frame,
    outcome: Outcome,
    body: Body,
    writes: seq<Write>,
    startedAt: nat,
    endedAt: nat,
    diagnostics: int)

  datatype State = State(
    // fields of the Emitter
    conn: Option<nat>,
    closed: bool,
    dropCount: nat,
    suppress: bool,
    queue: seq<Frame>,
    pc: Pc,
    // what is around it
    sockets: seq<Socket>,
    clock: nat,
    debug: seq<Stage>,
    warnings: seq<nat>,
    // history: frames accepted by emit with the time by which each must have settled, frames
    // settled, and the writes, start time and diagnostics so far of the frame in flight
    enqueued: seq<Frame>,
    due: seq<nat>,
    settled: seq<Settled>,
    writes: seq<Write>,
    startedAt: nat,
    mark: nat)

  function Init(): State {
    State(None, false, 0, false, [], Idle, [], 0, [], [], [], [], [], [], 0, 0)
  }

  // ----- Helpers of the source, as state transformers -----

  function LogDrop(s: State, stage: Stage): State {
    s.(debug := s.debug + [stage])
  }

  function Warn(s: State): State {
    s.(warnings := s.warnings + [s.dropCount])
  }

  function Destroy(s: State, i: nat): State {
    if i < |s.sockets| then s.(sockets := s.sockets[i := s.sockets[i].(phase := Destroyed)]) else s
  }

  function DropConn(s: State): State {
    if s.conn.Some? then Destroy(s, s.conn.value).(conn := None) else s
  }

  function Finish(s: State, frame: Frame, body: Body, outcome: Outcome): State {
    s.(pc := Idle,
       writes := [],
       settled := s.settled + [Settled(frame, outcome, body, s.writes, s.startedAt, s.clock,
                                       |s.debug| + |s.warnings| - s.mark)])
  }

  /** The frame in flight is lost: put back what it had captured, plus one for itself. */
  function GiveUp(s: State, job: Job): State {
    var s1 := s.(dropCount := s.dropCount + job.captured + 1);
    Finish(if s.closed then Warn(s1) else s1, job.frame, job.body, Dropped)
  }

  const NO_TRAFFIC := Traffic([], [], 0, [])

  /** `dialIfNeeded`, up to where it returns its promise. */
  function DialIfNeeded(s: State, job: Job): State {
    if s.conn.Some? then
      s.(pc := Dialed(job, false))
    else
      s.(pc := Dialing(job, |s.sockets|),
         sockets := s.sockets + [Socket(Connecting, false, false, Some(s.clock + DIAL_TIMEOUT_MS),
                                        false, NO_TRAFFIC)])
  }

  /** `settle` in the dial closure of socket `i`: only the first outcome counts. */
  function SettleDial(s: State, i: nat, failed: bool): State {
    if i < |s.sockets| && !s.sockets[i].settled then
      s.(sockets := s.sockets[i := s.sockets[i].(settled := true, timer := None)],
         pc := if s.pc.Dialing? then Dialed(s.pc.job, failed) else s.pc)
    else s
  }

  function Submit(traffic: Traffic, body: Body, count: nat): Traffic {
    traffic.(sent := traffic.sent + [body], counts := traffic.counts + [count])
  }

  /** `writeFrame`, up to where it returns its promise. */
  function WriteFrame(s: State, job: Job): State {
    if s.conn.Some? && s.conn.value < |s.sockets| then
      var i := s.conn.value;
      var traffic := s.sockets[i].traffic;
      s.(pc := Writing(job, i, s.clock + WRITE_TIMEOUT_MS),
         writes := s.writes + [Write(i, |traffic.sent|)],
         sockets := s.sockets[i := s.sockets[i].(traffic := Submit(traffic, job.body, job.captured))])
    else
      s.(pc := Written(job, true))
  }

  /** `retryWrite`, up to its first suspension. */
  function RetryWrite(s: State, job: Job): State {
    if s.closed then s.(pc := Retried(job, false)) else DialIfNeeded(s, job)
  }

  // ----- Calls from the host -----

  /** Frames accepted and not yet settled. */
  function Outstanding(s: State): nat {
    |s.queue| + if s.pc.Idle? then 0 else 1
  }

  function Emit(s: State, frame: Frame): State {
    s.(queue := s.queue + [frame],
       enqueued := s.enqueued + [frame],
       due := s.due + [s.clock + SETTLE_MS * (Outstanding(s) + 1)])
  }

  function Close(s: State): State {
    if s.closed then s
    else
      var s1 := s.(closed := true);
      DropConn(if s.dropCount > 0 then Warn(s1) else s1)
  }

  // ----- Continuations of doWrite and retryWrite -----

  /** Capture and zero the drop count, serialise, check the size, and dial. */
  function Send(s: State, frame: Frame): State {
    var captured := s.dropCount;
    var body := frame.serialise(captured);
    var s1 := s.(dropCount := 0);
    if |body| > MAX_FRAME_SIZE then
      Finish(s1.(dropCount := s1.dropCount + captured), frame, [], TooLarge)
    else
      DialIfNeeded(s1, Job(frame, captured, body, First))
  }

  function Dequeue(s: State): State
    requires s.queue != []
  {
    s.(queue := s.queue[1..], startedAt := s.clock, mark := |s.debug| + |s.warnings|)
  }

  /** `doWrite`, from its beginning to its first suspension. */
  function Start(s: State): State
    requires s.queue != []
  {
    var frame, s1 := s.queue[0], Dequeue(s);
    if s.closed then Finish(s1, frame, [], Skipped) else Send(s1, frame)
  }

  function AfterDial(s: State): State
    requires s.pc.Dialed?
  {
    var job := s.pc.job;
    match job.attempt
    case First =>
      if s.pc.failed then GiveUp(LogDrop(s, DialStage), job)
      else if s.closed then GiveUp(DropConn(s), job)
      else WriteFrame(s, job)
    case Retry(_) =>
      if s.pc.failed then LogDrop(s, DialStage).(pc := Retried(job, false))
      else if s.closed then DropConn(s).(pc := Retried(job, false))
      else WriteFrame(s, job)
  }

  function AfterWrite(s: State): State
    requires s.pc.Written?
  {
    var job := s.pc.job;
    match job.attempt
    case First =>
      if !s.pc.failed then Finish(s, job.frame, job.body, Acked(job.captured))
      else
        RetryWrite(DropConn(s.(suppress := false)), job.(attempt := Retry(!s.suppress)))
    case Retry(_) =>
      if !s.pc.failed then s.(pc := Retried(job, true))
      else
        var s1 := if s.suppress then s else LogDrop(s, WriteStage);
        DropConn(s1.(suppress := false)).(pc := Retried(job, false))
  }

  function AfterRetry(s: State): State
    requires s.pc.Retried?
  {
    var job := s.pc.job;
    if s.pc.delivered then Finish(s, job.frame, job.body, Acked(job.captured))
    else GiveUp(if job.attempt.Retry? && job.attempt.logDrop then LogDrop(s, WriteStage) else s, job)
  }

  // ----- Socket and timer callbacks -----

  /** The connect callback. Node would not fire it on a destroyed socket; the source guards
      against that all the same, so the model lets it happen. */
  function OnConnect(s: State, i: nat): State
    requires i < |s.sockets|
  {
    var s1 := s.(sockets := s.sockets[i := s.sockets[i].(connectFired := true)]);
    if s.sockets[i].settled then Destroy(s1, i)
    else if s.closed then SettleDial(Destroy(s1, i), i, false)
    else
      var sock := s1.sockets[i].(errorHandler := true, phase := Open);
      SettleDial(s1.(sockets := s1.sockets[i := sock], conn := Some(i)), i, false)
  }

  /** The pre-connect error listener. Node destroys the socket itself. */
  function OnConnectError(s: State, i: nat): State {
    SettleDial(Destroy(s, i), i, true)
  }

  function OnDialTimer(s: State, i: nat): State {
    SettleDial(Destroy(s, i), i, true)
  }

  function OnWriteCallback(s: State, failed: bool): State
    requires s.pc.Writing? && s.pc.sock < |s.sockets|
  {
    var i := s.pc.sock;
    var traffic := s.sockets[i].traffic;
    s.(pc := Written(s.pc.job, failed),
       sockets := if failed then s.sockets else
                  s.sockets[i := s.sockets[i].(traffic := traffic.(acked := traffic.acked + 1))])
  }

  function OnWriteTimer(s: State): State
    requires s.pc.Writing?
  {
    s.(pc := Written(s.pc.job, true))
  }

  /** `handleConnError`, the long-lived listener. */
  function OnConnError(s: State, i: nat): State {
    LogDrop(if s.conn == Some(i) then Destroy(s.(conn := None), i).(suppress := true) else s,
            ConnStage)
  }

  // ----- The world -----

  /** The peer hangs up without an 'error' event: the emitter's conn may now be a dead socket. */
  function PeerClose(s: State, i: nat): State {
    Destroy(s, i)
  }

  predicate CanFlush(traffic: Traffic, n: nat) {
    |traffic.wire| + n <= |Stream(traffic.sent)|
  }

  predicate AllFlushed(traffic: Traffic) {
    traffic.wire == Stream(traffic.sent)
  }

  /** The kernel takes `n` more of the bytes written to socket `i`. */
  function Flush(s: State, i: nat, n: nat): State
    requires i < |s.sockets|
    requires CanFlush(s.sockets[i].traffic, n)
  {
    var traffic := s.sockets[i].traffic;
    var wire := Stream(traffic.sent)[..|traffic.wire| + n];
    s.(sockets := s.sockets[i := s.sockets[i].(traffic := traffic.(wire := wire))])
  }

  function Tick(s: State, ms: nat): State {
    s.(clock := s.clock + ms)
  }

  // ----- Steps and runs -----

  datatype Label =
    | LEmit(frame: Frame) | LClose
    | LStart | LAfterDial | LAfterWrite | LAfterRetry
    | LConnect(sock: nat) | LConnectError(sock: nat) | LDialTimer(sock: nat)
    | LWriteCallback(failed: bool) | LWriteTimer | LConnError(sock: nat)
    | LPeerClose(sock: nat) | LFlush(sock: nat, bytes: nat) | LTick(ms: nat)

  /** The clock stands still while the emitter has something to run, and does not pass the
      deadline of an armed timer: both are JavaScript's event loop, on time. */
  predicate MayTick(s: State, ms: nat) {
    match s.pc
    case Idle => s.queue == []
    case Dialing(_, i) =>
      i < |s.sockets| && s.sockets[i].timer.Some? && s.clock + ms <= s.sockets[i].timer.value
    case Writing(_, _, deadline) => s.clock + ms <= deadline
    case _ => false
  }

  predicate Enabled(s: State, l: Label) {
    match l
    case LEmit(_) => !s.closed
    case LClose => true
    case LStart => s.pc.Idle? && s.queue != []
    case LAfterDial => s.pc.Dialed?
    case LAfterWrite => s.pc.Written?
    case LAfterRetry => s.pc.Retried?
    case LConnect(i) => i < |s.sockets| && !s.sockets[i].connectFired
    case LConnectError(i) => i < |s.sockets| && s.sockets[i].phase.Connecting?
    case LDialTimer(i) => i < |s.sockets| && s.sockets[i].timer == Some(s.clock)
    case LWriteCallback(failed) =>
      && s.pc.Writing? && s.pc.sock < |s.sockets|
      && (failed || AllFlushed(s.sockets[s.pc.sock].traffic))
    case LWriteTimer => s.pc.Writing? && s.clock == s.pc.deadline
    case LConnError(i) => i < |s.sockets| && s.sockets[i].errorHandler
    case LPeerClose(i) => i < |s.sockets| && s.sockets[i].phase.Open?
    case LFlush(i, n) =>
      i < |s.sockets| && s.sockets[i].phase.Open? && CanFlush(s.sockets[i].traffic, n)
    case LTick(ms) => MayTick(s, ms)
  }

  function Fire(s: State, l: Label): State
    requires Enabled(s, l)
  {
    match l
    case LEmit(frame) => Emit(s, frame)
    case LClose => Close(s)
    case LStart => Start(s)
    case LAfterDial => AfterDial(s)
    case LAfterWrite => AfterWrite(s)
    case LAfterRetry => AfterRetry(s)
    case LConnect(i) => OnConnect(s, i)
    case LConnectError(i) => OnConnectError(s, i)
    case LDialTimer(i) => OnDialTimer(s, i)
    case LWriteCallback(failed) => OnWriteCallback(s, failed)
    case LWriteTimer => OnWriteTimer(s)
    case LConnError(i) => OnConnError(s, i)
    case LPeerClose(i) => PeerClose(s, i)
    case LFlush(i, n) => Flush(s, i, n)
    case LTick(ms) => Tick(s, ms)
  }

  /** A step that is not enabled does nothing, so that every sequence of labels is a run. */
  function Step(s: State, l: Label): State {
    if Enabled(s, l) then Fire(s, l) else s
  }

  function RunFrom(s: State, ls: seq<Label>): State
    decreases |ls|
  {
    if ls == [] then s else RunFrom(Step(s, ls[0]), ls[1..])
  }

  /** Some run of a new emitter ends in `s`. */
  ghost predicate Reachable(s: State) {
    exists ls :: s == RunFrom(Init(), ls)
  }

  lemma InitReachable()
    ensures Reachable(Init())
  {
    assert Init() == RunFrom(Init(), []);
  }

  lemma {:induction false} RunFromSnoc(s: State, ls: seq<Label>, l: Label)
    ensures RunFrom(s, ls + [l]) == Step(RunFrom(s, ls), l)
    decreases |ls|
  {
    if ls == [] {
      assert RunFrom(s, [l]) == RunFrom(Step(s, l), [l][1..]);
    } else {
      RunFromSnoc(Step(s, ls[0]), ls[1..], l);
      assert (ls + [l])[1..] == ls[1..] + [l];
    }
  }

  lemma StepReachable(s: State, l: Label)
    requires Reachable(s)
    ensures Reachable(Step(s, l))
  {
    var ls :| s == RunFrom(Init(), ls);
    RunFromSnoc(Init(), ls, l);
  }

  /** What every step from a reachable state keeps, every run from one keeps. */
  lemma {:induction false} RunInvariant(inv: State -> bool, s: State, ls: seq<Label>)
    requires Reachable(s) && inv(s)
    requires forall t, l :: Reachable(t) && inv(t) ==> inv(Step(t, l))
    ensures Reachable(RunFrom(s, ls)) && inv(RunFrom(s, ls))
    decreases |ls|
  {
    if ls != [] {
      StepReachable(s, ls[0]);
      RunInvariant(inv, Step(s, ls[0]), ls[1..]);
    }
  }

  lemma ReachableInvariant(inv: State -> bool, s: State)
    requires Reachable(s) && inv(Init())
    requires forall t, l :: Reachable(t) && inv(t) ==> inv(Step(t, l))
    ensures inv(s)
  {
    var ls :| s == RunFrom(Init(), ls);
    InitReachable();
    RunInvariant(inv, Init(), ls);
  }
}
