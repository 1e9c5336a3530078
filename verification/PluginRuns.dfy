/** The hooks and the emitter together: what becomes of the two frames of a tool call. */
module PluginRuns {
  import opened Wrappers
  import opened EmitterMachine
  import opened EmitterOrder
  import opened EmitterEffects
  import opened EmitterAttribution
  import opened EmitterWireOrder
  import opened EmitterClass
  import opened PendingMap
  import opened Hooks
  import opened HookRuns

  /** A hook is called, or the emitter or the world around it takes a step. Hooks and `emit` run to
      the end of `emit` without interruption. */
  datatype Action = Hook(ev: Event) | Other(l: Label)

  /** Hook events so far, the pending map, everything handed to `emit`, for each of those its place
      among the frames the emitter accepted, if it was, and the emitter. */
  datatype Plugin = Plugin(
    events: seq<Event>,
    pending: Entries,
    emitted: seq<Emission>,
    accepted: seq<Option<nat>>,
    emitter: State)

  /** The wire frame `emit` builds. It depends on the event and, through the time, on the call. */
  type Wire = (Emission, nat) -> Frame

  function ToEmit(e: Emission, frame: Frame): EmitEvent {
    EmitEvent(e.toolName, e.decision, e.input, e.output, frame)
  }

  /** Call `emit`. */
  function HandOver(p: Plugin, e: Emission, wire: Wire, parses: string -> bool): Plugin {
    var frame := wire(e, |p.emitted|);
    if !p.emitter.closed && Acceptable(ToEmit(e, frame), parses) then
      p.(emitted := p.emitted + [e],
         accepted := p.accepted + [Some(|p.emitter.enqueued|)],
         emitter := Step(p.emitter, LEmit(frame)))
    else
      p.(emitted := p.emitted + [e], accepted := p.accepted + [None])
  }

  function Act(p: Plugin, a: Action, wire: Wire, parses: string -> bool): Plugin {
    match a
    case Hook(ev) =>
      var p1 := p.(events := p.events + [ev], pending := React(p.pending, ev));
      var out := Forward(p.pending, ev);
      if out == [] then p1 else HandOver(p1, out[0], wire, parses)
    case Other(l) => p.(emitter := Step(p.emitter, l))
  }

  function RunPlugin(acts: seq<Action>, wire: Wire, parses: string -> bool): Plugin {
    if acts == [] then Plugin([], [], [], [], Init())
    else Act(RunPlugin(acts[..|acts| - 1], wire, parses), acts[|acts| - 1], wire, parses)
  }

  // ----- The invariant -----

  /** Emission `n` was accepted as frame number `accepted[n]`. */
  predicate Landed(p: Plugin, n: nat) {
    n < |p.emitted| && n < |p.accepted| && p.accepted[n].Some?
  }

  ghost predicate IsFrame(p: Plugin, n: nat, wire: Wire)
    requires Landed(p, n)
  {
    var k := p.accepted[n].value;
    k < |p.emitter.enqueued| && p.emitter.enqueued[k] == wire(p.emitted[n], n)
  }

  /** Accepted in the order in which they were handed over. */
  ghost predicate Rising(p: Plugin) {
    forall m: nat, n: nat :: m < n && Landed(p, m) && Landed(p, n) ==>
      p.accepted[m].value < p.accepted[n].value
  }

  ghost predicate Linked(p: Plugin, wire: Wire) {
    && p.pending == RunHooks(p.events) && p.emitted == Emitted(p.events)
    && |p.accepted| == |p.emitted| && Reachable(p.emitter)
    && (forall n: nat :: Landed(p, n) ==> IsFrame(p, n, wire))
    && Rising(p)
  }

  /** The emitter's step keeps what it has accepted. */
  lemma StepLinked(p: Plugin, q: Plugin, l: Label, wire: Wire)
    requires Linked(p, wire) && q == p.(emitter := Step(p.emitter, l))
    ensures Linked(q, wire)
  {
    StepReachable(p.emitter, l);
    AcceptedGrows(p.emitter, l);
    forall n: nat | Landed(q, n) ensures IsFrame(q, n, wire) {
      assert Landed(p, n) && IsFrame(p, n, wire);
    }
    assert forall n: nat :: Landed(q, n) <==> Landed(p, n);
  }

  /** `q` is `p` after one more emission. */
  lemma HandOverLinked(p: Plugin, e: Emission, wire: Wire, parses: string -> bool)
    requires |p.accepted| == |p.emitted| && Reachable(p.emitter)
    requires forall n: nat :: Landed(p, n) ==> IsFrame(p, n, wire)
    requires Rising(p)
    ensures var q := HandOver(p, e, wire, parses);
            && q.emitted == p.emitted + [e] && q.events == p.events && q.pending == p.pending
            && |q.accepted| == |q.emitted| && Reachable(q.emitter)
            && (forall n: nat :: Landed(q, n) ==> IsFrame(q, n, wire))
            && Rising(q)
  {
    var q := HandOver(p, e, wire, parses);
    StepReachable(p.emitter, LEmit(wire(e, |p.emitted|)));
    assert forall n: nat :: n < |p.emitted| ==> (Landed(q, n) <==> Landed(p, n));
    forall n: nat | Landed(q, n) ensures IsFrame(q, n, wire) {
      if n < |p.emitted| {
        assert IsFrame(p, n, wire);
      }
    }
    forall m: nat, n: nat | m < n && Landed(q, m) && Landed(q, n)
      ensures q.accepted[m].value < q.accepted[n].value
    {
      assert Landed(p, m) && IsFrame(p, m, wire);
    }
  }

  lemma HookLinked(p: Plugin, ev: Event, wire: Wire, parses: string -> bool)
    requires Linked(p, wire)
    ensures Linked(Act(p, Hook(ev), wire, parses), wire)
  {
    var h := p.events + [ev];
    assert h[..|h| - 1] == p.events;
    var p1 := p.(events := h, pending := React(p.pending, ev));
    forall n: nat | Landed(p1, n) ensures IsFrame(p1, n, wire) {
      assert Landed(p, n) && IsFrame(p, n, wire);
    }
    assert forall n: nat :: Landed(p1, n) <==> Landed(p, n);
    var out := Forward(p.pending, ev);
    if out != [] {
      assert out == [out[0]];
      HandOverLinked(p1, out[0], wire, parses);
    }
  }

  lemma {:induction false} RunLinked(acts: seq<Action>, wire: Wire, parses: string -> bool)
    ensures Linked(RunPlugin(acts, wire, parses), wire)
  {
    if acts == [] {
      InitReachable();
    } else {
      var n := |acts| - 1;
      var p := RunPlugin(acts[..n], wire, parses);
      RunLinked(acts[..n], wire, parses);
      match acts[n]
      case Hook(ev) => HookLinked(p, ev, wire, parses);
      case Other(l) => StepLinked(p, Act(p, acts[n], wire, parses), l, wire);
    }
  }

  // ----- Which events become frames -----

  /** The emitter is open and finds nothing wrong with the event. */
  ghost predicate Welcome(p: Plugin, e: Emission, parses: string -> bool) {
    && !p.emitter.closed
    && (exists i :: 0 <= i < |e.toolName| && !IsSpace(e.toolName[i]))
    && (e.input.Some? ==> parses(e.input.value))
    && (e.output.Some? ==> parses(e.output.value))
  }

  /** An after-call that reports `params` hands over `out`. */
  ghost predicate Concludes(h: seq<Event>, ev: Event, params: Json, out: seq<Emission>)
    requires ev.After?
  {
    && Reports(h, ev, params)
    && out == if params.Unserialisable? || ev.result.Unserialisable? then [] else [AllowedEmission(ev, params)]
  }

  lemma HandOverMeaning(p: Plugin, e: Emission, wire: Wire, parses: string -> bool)
    requires e.decision in {"pending", "allowed"}
    ensures var q, n := HandOver(p, e, wire, parses), |p.emitter.enqueued|;
            && q.emitted == p.emitted + [e]
            && if Welcome(p, e, parses) then
                 && q.accepted == p.accepted + [Some(n)]
                 && q.emitter.enqueued == p.emitter.enqueued + [wire(e, |p.emitted|)]
               else
                 q.accepted == p.accepted + [None] && q.emitter == p.emitter
  {
    AcceptableMeaning(ToEmit(e, wire(e, |p.emitted|)), parses);
  }

  /** The frame a hook event calls for, if any. */
  ghost predicate CallsFor(h: seq<Event>, ev: Event, out: seq<Emission>) {
    match ev
    case Before(_, params, _, _, _, _, _, _) => out == if params.Unserialisable? then [] else [PendingEmission(ev)]
    case After(_, _, _, _, _, _) => exists params :: Concludes(h, ev, params, out)
    case SessionStart(_, _) => out == []
  }

  lemma ForwardIsCalledFor(h: seq<Event>, ev: Event)
    ensures CallsFor(h, ev, Forward(RunHooks(h), ev))
  {
    match ev
    case Before(_, _, _, _, _, _, _, _) => BeforeForwards(h, ev);
    case After(_, _, _, _, _, _) =>
      var params := AfterForwards(h, ev);
      assert Concludes(h, ev, params, Forward(RunHooks(h), ev));
    case SessionStart(_, _) =>
  }

  /** `q` is `p` after `out` has been handed to the emitter. */
  ghost predicate HandedOver(p: Plugin, q: Plugin, out: seq<Emission>, wire: Wire, parses: string -> bool) {
    && q.emitted == p.emitted + out
    && if out != [] && Welcome(p, out[0], parses) then
         && q.accepted == p.accepted + [Some(|p.emitter.enqueued|)]
         && q.emitter.enqueued == p.emitter.enqueued + [wire(out[0], |p.emitted|)]
       else q.emitter == p.emitter
  }

  lemma ActHandsOver(p: Plugin, ev: Event, wire: Wire, parses: string -> bool)
    ensures var q := Act(p, Hook(ev), wire, parses);
            q.events == p.events + [ev] && HandedOver(p, q, Forward(p.pending, ev), wire, parses)
  {
    var p1 := p.(events := p.events + [ev], pending := React(p.pending, ev));
    var out := Forward(p.pending, ev);
    if out != [] {
      assert Welcome(p1, out[0], parses) == Welcome(p, out[0], parses);
      HandOverMeaning(p1, out[0], wire, parses);
    }
  }

  /** After any run, a hook event hands over the frame that it, or the call it ends, calls for, and
      the emitter queues that frame exactly if it is open and finds nothing wrong with the event. */
  lemma HookReachesEmitter(acts: seq<Action>, ev: Event, wire: Wire, parses: string -> bool)
    returns (out: seq<Emission>)
    ensures var p, q := RunPlugin(acts, wire, parses), RunPlugin(acts + [Hook(ev)], wire, parses);
            && q.events == p.events + [ev]
            && CallsFor(p.events, ev, out) && HandedOver(p, q, out, wire, parses)
  {
    var p := RunPlugin(acts, wire, parses);
    RunLinked(acts, wire, parses);
    assert (acts + [Hook(ev)])[..|acts|] == acts;
    out := Forward(p.pending, ev);
    ForwardIsCalledFor(p.events, ev);
    ActHandsOver(p, ev, wire, parses);
  }

  /** What has been accepted stays accepted, as the same frame. */
  lemma AcceptedForever(p: Plugin, a: Action, wire: Wire, parses: string -> bool)
    ensures p.accepted <= Act(p, a, wire, parses).accepted
    ensures p.emitter.enqueued <= Act(p, a, wire, parses).emitter.enqueued
  {
    match a
    case Hook(ev) =>
    case Other(l) => AcceptedGrows(p.emitter, l);
  }

  // ----- Main result -----

  /** Event `i` handed a frame to the emitter, which accepted it. */
  ghost predicate Forwarded(p: Plugin, i: nat) {
    i < |p.events| && HandsOver(p.events, i) && Landed(p, PositionOf(p.events, i))
  }

  /** The number of event `i`'s frame among those the emitter accepted. */
  ghost function FrameOf(p: Plugin, i: nat): nat
    requires Forwarded(p, i)
  {
    p.accepted[PositionOf(p.events, i)].value
  }

  /** The frame that emission `e` of event `i` becomes. */
  function WireFrame(p: Plugin, i: nat, e: Emission, wire: Wire): Frame
    requires i < |p.events|
  {
    wire(e, PositionOf(p.events, i))
  }

  /** Frame `a` goes before frame `b` all the way: `b` is not acknowledged before `a` has settled,
      and then `a` was not skipped; and no byte of `b` is on a wire before the bytes of `a`. */
  ghost predicate GoesBefore(s: State, a: nat, b: nat) {
    && a < b < |s.enqueued|
    && (b < |s.settled| && s.settled[b].outcome.Acked? ==>
          s.settled[a].frame == s.enqueued[a] && !s.settled[a].outcome.Skipped?)
    && (b <= |s.settled| ==>
          forall v, w :: v in WritesOf(s, a) && w in WritesOf(s, b) ==> Earlier(v, w))
  }

  lemma AcceptedFirstGoesBefore(s: State, a: nat, b: nat)
    requires Reachable(s) && a < b < |s.enqueued|
    ensures GoesBefore(s, a, b)
  {
    if b < |s.settled| {
      SettledInOrder(s, a);
      SettledInOrder(s, b);
    }
    if b <= |s.settled| {
      ReachableInOrder(s);
      forall v, w | v in WritesOf(s, a) && w in WritesOf(s, b) ensures Earlier(v, w) {
        assert Wrote(s, a, v) && Wrote(s, b, w);
      }
    }
  }

  /** Events `i` and `j` are the two ends of a call, and the emitter accepted both frames. */
  ghost predicate EndsOfACall(p: Plugin, i: nat, j: nat) {
    && i < j && Forwarded(p, i) && Forwarded(p, j)
    && p.events[i].Before? && p.events[j].After? && KeyOf(p.events[i]) == KeyOf(p.events[j])
  }

  lemma FramesOfACall(p: Plugin, wire: Wire, i: nat, j: nat)
    requires Linked(p, wire) && EndsOfACall(p, i, j)
    ensures FrameOf(p, i) < FrameOf(p, j) < |p.emitter.enqueued|
    ensures p.emitter.enqueued[FrameOf(p, i)] == WireFrame(p, i, PendingEmission(p.events[i]), wire)
    ensures var params := ParamsAfter(RunHooks(p.events[..j]), p.events[j]);
            p.emitter.enqueued[FrameOf(p, j)] == WireFrame(p, j, AllowedEmission(p.events[j], params), wire)
  {
    var m, n := PositionOf(p.events, i), PositionOf(p.events, j);
    EmissionsOfACall(p.events, i, j);
    assert IsFrame(p, m, wire) && IsFrame(p, n, wire);
  }

  lemma StashParams(h: seq<Event>, ev: Event, i: nat)
    requires ev.After?
    ensures Unconsumed(h, KeyOf(ev), i) ==> ParamsAfter(RunHooks(h), ev) == h[i].params
  {
    AllowedFrameParams(h, ev);
  }

  /** In every run of hooks and emitter, the "pending" frame of a call goes before its "allowed"
      frame all the way, from acceptance to the wires; and while the call's stash lives, both
      report the same parameters. */
  lemma AllowedNeverBeforePending(acts: seq<Action>, wire: Wire, parses: string -> bool, i: nat, j: nat)
    requires EndsOfACall(RunPlugin(acts, wire, parses), i, j)
    ensures var p := RunPlugin(acts, wire, parses);
            var a, b, after := FrameOf(p, i), FrameOf(p, j), p.events[j];
            var params := ParamsAfter(RunHooks(p.events[..j]), after);
            && GoesBefore(p.emitter, a, b)
            && p.emitter.enqueued[a] == WireFrame(p, i, PendingEmission(p.events[i]), wire)
            && p.emitter.enqueued[b] == WireFrame(p, j, AllowedEmission(after, params), wire)
            && (Unconsumed(p.events[..j], KeyOf(after), i) ==> params == p.events[i].params)
  {
    var p := RunPlugin(acts, wire, parses);
    RunLinked(acts, wire, parses);
    FramesOfACall(p, wire, i, j);
    AcceptedFirstGoesBefore(p.emitter, FrameOf(p, i), FrameOf(p, j));
    StashParams(p.events[..j], p.events[j], i);
  }
}
