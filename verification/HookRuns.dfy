/** Whole runs of hook events, from an empty pending map. */
module HookRuns {
  import opened Wrappers
  import opened PendingMap
  import opened Hooks

  function RunHooks(h: seq<Event>): Entries {
    if h == [] then [] else React(RunHooks(h[..|h| - 1]), h[|h| - 1])
  }

  // ----- One event -----

  /** What a before-call leaves behind. */
  function StashOf(ev: Event): PendingCall
    requires ev.Before?
  {
    var sessionKey := if ev.sessionKey.Some? then ev.sessionKey.value else "default";
    PendingCall(ev.toolName, ev.params, ev.startAt, sessionKey, ev.sessionId)
  }

  function EntryOf(ev: Event): Entry
    requires ev.Before?
  {
    Entry(KeyOf(ev), StashOf(ev))
  }

  /** Event `ev`, met in state `m`, ends the life of the stash `e`: it supersedes it, consumes it,
      ends its session, or evicts it. */
  predicate Ends(m: Entries, ev: Event, e: Entry) {
    match ev
    case Before(_, _, _, _, _, _, evictAt, _) => KeyOf(ev) == e.key || e !in Evict(m, evictAt)
    case After(_, _, _, _, _, _) => KeyOf(ev) == e.key
    case SessionStart(key, id) =>
      e.call.sessionKey == (if key.Some? then key.value else "default") && e.call.sessionId == id
  }

  lemma EvictDistinct(m: Entries, now: int)
    requires Distinct(m)
    ensures Distinct(Evict(m, now)) && |Evict(m, now)| <= PENDING_MAX_SIZE
    ensures forall e :: e in Evict(m, now) ==> e in m && Fresh(e, now)
  {
    FilterKeys(m, (e: Entry) => Fresh(e, now));
    EvictOldestMeaning(KeepFresh(m, now));
  }

  lemma GetEvict(m: Entries, now: int, key: string)
    requires Distinct(m)
    ensures Get(Evict(m, now), key)
            == match Get(m, key)
               case Some(call) => if Entry(key, call) in Evict(m, now) then Some(call) else None
               case None => None
  {
    EvictDistinct(m, now);
    var r := Evict(m, now);
    GetFinds(r, key);
    GetFinds(m, key);
    if Get(r, key).Some? {
      GetUnique(m, Entry(key, Get(r, key).value));
    }
  }

  lemma ReactGet(m: Entries, ev: Event, key: string)
    requires Distinct(m)
    ensures Get(React(m, ev), key)
            == if ev.Before? && KeyOf(ev) == key then Some(StashOf(ev))
               else match Get(m, key)
                    case Some(call) => if Ends(m, ev, Entry(key, call)) then None else Some(call)
                    case None => None
  {
    match ev
    case Before(_, _, _, _, _, _, now, _) =>
      GetSet(Evict(m, now), KeyOf(ev), CallOf(ev), key);
      GetEvict(m, now, key);
    case After(_, _, _, _, _, _) =>
      GetFilter(m, (e: Entry) => e.key != KeyOf(ev), key);
    case SessionStart(k, id) =>
      GetFilter(m, (e: Entry) => !InSession(e, Session(k), id), key);
  }

  lemma {:induction false} RunIsBounded(h: seq<Event>)
    ensures Distinct(RunHooks(h)) && |RunHooks(h)| <= 1001
  {
    if h != [] {
      var m, ev := RunHooks(h[..|h| - 1]), h[|h| - 1];
      RunIsBounded(h[..|h| - 1]);
      match ev
      case Before(_, _, _, _, _, _, now, _) =>
        EvictDistinct(m, now);
        SetKeys(Evict(m, now), KeyOf(ev), CallOf(ev));
      case After(_, _, _, _, _, _) => FilterKeys(m, (e: Entry) => e.key != KeyOf(ev));
      case SessionStart(k, id) => FilterKeys(m, (e: Entry) => !InSession(e, Session(k), id));
    }
  }

  // ----- The history a stash stands for -----

  /** Before-call `j` has this key and nothing since has ended its stash. */
  ghost predicate Unconsumed(h: seq<Event>, key: string, j: nat) {
    && j < |h| && h[j].Before? && KeyOf(h[j]) == key
    && forall i :: j < i < |h| ==> !Ends(RunHooks(h[..i]), h[i], EntryOf(h[j]))
  }

  lemma UnconsumedSnoc(g: seq<Event>, ev: Event, key: string, j: nat)
    ensures Unconsumed(g + [ev], key, j)
            <==> if j == |g| then ev.Before? && KeyOf(ev) == key
                 else Unconsumed(g, key, j) && !Ends(RunHooks(g), ev, EntryOf(g[j]))
  {
    var h := g + [ev];
    assert h[..|g|] == g;
    assert forall i :: 0 <= i < |g| ==> h[..i] == g[..i];
    if j < |g| && g[j].Before? {
      assert Ends(RunHooks(g), ev, EntryOf(g[j])) <==> Ends(RunHooks(h[..|g|]), h[|g|], EntryOf(h[j]));
      forall i | j < i < |g|
        ensures Ends(RunHooks(h[..i]), h[i], EntryOf(h[j])) <==> Ends(RunHooks(g[..i]), g[i], EntryOf(g[j]))
      {
      }
    }
  }

  lemma NewStashEndsOld(g: seq<Event>, ev: Event, key: string, i: nat)
    requires ev.Before? && KeyOf(ev) == key && Unconsumed(g, key, i)
    ensures Ends(RunHooks(g), ev, EntryOf(g[i]))
  {
  }

  /** Over any run, what is stashed under a key is the call of the one before-call with that key
      that is not yet superseded, consumed or evicted; and there is none exactly if nothing is
      stashed. */
  lemma {:induction false} StashIsLatestUnconsumed(h: seq<Event>, key: string) returns (j: nat)
    ensures Get(RunHooks(h), key).None? ==> forall i: nat :: !Unconsumed(h, key, i)
    ensures Get(RunHooks(h), key).Some? ==>
              && j < |h| && h[j].Before? && Get(RunHooks(h), key) == Some(StashOf(h[j]))
              && forall i: nat :: Unconsumed(h, key, i) <==> i == j
    decreases |h|
  {
    if h == [] {
      return 0;
    }
    var n := |h| - 1;
    var g, ev := h[..n], h[n];
    assert h == g + [ev];
    var k := StashIsLatestUnconsumed(g, key);
    RunIsBounded(g);
    ReactGet(RunHooks(g), ev, key);
    j := if ev.Before? && KeyOf(ev) == key then n else k;
    var stashed := Get(RunHooks(h), key);
    forall i: nat ensures Unconsumed(h, key, i) <==> stashed.Some? && i == j {
      UnconsumedSnoc(g, ev, key, i);
      if j == n && Unconsumed(g, key, i) {
        NewStashEndsOld(g, ev, key, i);
      }
    }
  }

  // ----- Main results -----

  /** The "allowed" frame reports the parameters of the latest before-call with the same key that
      is neither consumed nor evicted, and the event's own parameters if there is none. */
  lemma AllowedFrameParams(h: seq<Event>, ev: Event)
    requires ev.After?
    ensures (exists j: nat :: Unconsumed(h, KeyOf(ev), j))
            ==> exists j: nat :: Unconsumed(h, KeyOf(ev), j)
                                 && ParamsAfter(RunHooks(h), ev) == h[j].params
                                 && forall i: nat :: Unconsumed(h, KeyOf(ev), i) ==> i == j
    ensures (forall j: nat :: !Unconsumed(h, KeyOf(ev), j)) ==> ParamsAfter(RunHooks(h), ev) == ev.params
  {
    var j := StashIsLatestUnconsumed(h, KeyOf(ev));
    if Get(RunHooks(h), KeyOf(ev)).Some? {
      assert Unconsumed(h, KeyOf(ev), j);
    }
  }

  predicate SameCall(a: Event, b: Event)
    requires !a.SessionStart? && !b.SessionStart?
  {
    Named(a.runId) == Named(b.runId) && Named(a.toolCallId) == Named(b.toolCallId)
  }

  /** In a run whose run ids have no colons, calls never share a stash: an "allowed" frame reports
      the parameters its own call was begun with, or those of its own event. */
  lemma CallsNeverShareAStash(h: seq<Event>, ev: Event)
    requires ev.After? && ':' !in Named(ev.runId)
    requires forall j :: 0 <= j < |h| && h[j].Before? ==> ':' !in Named(h[j].runId)
    ensures forall j: nat :: Unconsumed(h, KeyOf(ev), j) ==> SameCall(h[j], ev)
    ensures ParamsAfter(RunHooks(h), ev) == ev.params
            || exists j: nat :: Unconsumed(h, KeyOf(ev), j) && SameCall(h[j], ev)
                                && ParamsAfter(RunHooks(h), ev) == h[j].params
  {
    forall j: nat | Unconsumed(h, KeyOf(ev), j) ensures SameCall(h[j], ev) {
      KeysDistinct(h[j].runId, h[j].toolCallId, ev.runId, ev.toolCallId);
    }
    AllowedFrameParams(h, ev);
  }

  /** The call was begun in this session; a missing key reads "default". */
  predicate OfSession(call: PendingCall, sessionKey: Option<string>, sessionId: Option<string>) {
    call.sessionKey == (if sessionKey.Some? then sessionKey.value else "default") && call.sessionId == sessionId
  }

  /** A session starting removes the stashes of that session, all of them and no others. */
  lemma SessionStartEffect(h: seq<Event>, sessionKey: Option<string>, sessionId: Option<string>, key: string)
    ensures var stashed := Get(RunHooks(h), key);
            Get(RunHooks(h + [SessionStart(sessionKey, sessionId)]), key)
            == if stashed.Some? && OfSession(stashed.value, sessionKey, sessionId) then None else stashed
  {
    var ev := SessionStart(sessionKey, sessionId);
    RunIsBounded(h);
    ReactGet(RunHooks(h), ev, key);
    assert (h + [ev])[..|h|] == h;
  }

  /** A session starting leaves the stashes of all other (key, id) pairs alone. */
  lemma OtherSessionsUntouched(h: seq<Event>, sessionKey: Option<string>, sessionId: Option<string>, key: string)
    requires var stashed := Get(RunHooks(h), key);
             stashed.Some? ==> !OfSession(stashed.value, sessionKey, sessionId)
    ensures Get(RunHooks(h + [SessionStart(sessionKey, sessionId)]), key) == Get(RunHooks(h), key)
  {
    SessionStartEffect(h, sessionKey, sessionId, key);
  }

  /** In every run, eviction before a call leaves at most 1000 entries, none of them older than
      five minutes, and drops an entry only if it is older than that, or if it is the one victim
      of the size: it started no later than any other entry of at most that age, of which there are
      1000, and all of those stay. */
  lemma EvictionIsJustified(h: seq<Event>, now: int, e: Entry)
    requires e in RunHooks(h)
    ensures var m, r := RunHooks(h), Evict(RunHooks(h), now);
            && |r| <= 1000
            && (forall f :: f in r ==> f in m && now - f.call.startedAt <= 300_000)
            && (e !in r && now - e.call.startedAt <= 300_000 ==>
                  && |r| == 1000
                  && forall f :: f in m && now - f.call.startedAt <= 300_000 ==>
                       e.call.startedAt <= f.call.startedAt && (f in r || f == e))
  {
    var m := RunHooks(h);
    var young := KeepFresh(m, now);
    RunIsBounded(h);
    FilterKeys(m, (f: Entry) => Fresh(f, now));
    EvictOldestMeaning(young);
    if |young| == PENDING_MAX_SIZE + 1 {
      var p := OneVictim(young);
      var victim := young[p];
      FilterKeys(young, (f: Entry) => f.key != victim.key);
      forall f | f in young ensures f in Evict(m, now) || f == victim {
        GetUnique(young, f);
        GetUnique(young, victim);
      }
    }
  }

  // ----- What is forwarded -----

  function PendingEmission(ev: Event): Emission
    requires ev.Before?
  {
    Emission(ev.toolName, if ev.params.Text? then Some(ev.params.json) else None, None, None, "pending")
  }

  function AllowedEmission(ev: Event, params: Json): Emission
    requires ev.After?
  {
    Emission(ev.toolName,
             if params.Text? then Some(params.json) else None,
             if ev.result.Text? then Some(ev.result.json) else None,
             ev.error,
             "allowed")
  }

  /** A before-call forwards its "pending" frame exactly if its parameters can be serialised. */
  lemma BeforeForwards(h: seq<Event>, ev: Event)
    requires ev.Before?
    ensures Forward(RunHooks(h), ev) == if ev.params.Unserialisable? then [] else [PendingEmission(ev)]
  {
  }

  /** What an after-call reports: the parameters of the before-call it ends, or its own. */
  ghost predicate Reports(h: seq<Event>, ev: Event, params: Json)
    requires ev.After?
  {
    || (exists j: nat :: Unconsumed(h, KeyOf(ev), j) && params == h[j].params)
    || ((forall j: nat :: !Unconsumed(h, KeyOf(ev), j)) && params == ev.params)
  }

  /** After any run, an after-call forwards its "allowed" frame exactly if the parameters it reports
      and its result can be serialised, whether the call ended with an error or not. */
  lemma AfterForwards(h: seq<Event>, ev: Event) returns (params: Json)
    requires ev.After?
    ensures Reports(h, ev, params)
    ensures Forward(RunHooks(h), ev)
            == if params.Unserialisable? || ev.result.Unserialisable? then [] else [AllowedEmission(ev, params)]
  {
    params := ParamsAfter(RunHooks(h), ev);
    AllowedFrameParams(h, ev);
  }

  // ----- The order of frames -----

  /** What a log of events outputs, if each outputs something that depends on those before it. */
  function Outputs<T>(h: seq<Event>, output: (seq<Event>, Event) -> seq<T>): seq<T> {
    if h == [] then []
    else Outputs(h[..|h| - 1], output) + output(h[..|h| - 1], h[|h| - 1])
  }

  lemma {:induction false} OutputsAt<T>(h: seq<Event>, output: (seq<Event>, Event) -> seq<T>, i: nat)
    requires i < |h|
    ensures Outputs(h[..i], output) + output(h[..i], h[i]) <= Outputs(h, output)
    decreases |h|
  {
    var n := |h| - 1;
    if i < n {
      OutputsAt(h[..n], output, i);
      assert h[..n][..i] == h[..i];
    }
  }

  function Forwarding(): (seq<Event>, Event) -> seq<Emission> {
    (g: seq<Event>, ev: Event) => Forward(RunHooks(g), ev)
  }

  /** Everything a run hands to the emitter. */
  function Emitted(h: seq<Event>): seq<Emission> {
    Outputs(h, Forwarding())
  }

  lemma EmittedAt(h: seq<Event>, i: nat)
    requires i < |h|
    ensures Emitted(h[..i]) + Forward(RunHooks(h[..i]), h[i]) <= Emitted(h)
  {
    OutputsAt(h, Forwarding(), i);
  }

  /** The position in the emitted frames of the one event `i` forwards, if it forwards one. */
  function PositionOf(h: seq<Event>, i: nat): nat
    requires i < |h|
  {
    |Emitted(h[..i])|
  }

  lemma EmittedHere(h: seq<Event>, i: nat)
    requires i < |h| && Forward(RunHooks(h[..i]), h[i]) != []
    ensures PositionOf(h, i) < |Emitted(h)|
    ensures Emitted(h)[PositionOf(h, i)] == Forward(RunHooks(h[..i]), h[i])[0]
  {
    EmittedAt(h, i);
  }

  /** Event `i` hands a frame to the emitter: decided by what it, or the call it ends, carries. */
  ghost predicate HandsOver(h: seq<Event>, i: nat)
    requires i < |h|
  {
    match h[i]
    case Before(_, params, _, _, _, _, _, _) => !params.Unserialisable?
    case After(_, _, _, _, result, _) =>
      !result.Unserialisable? && forall params :: Reports(h[..i], h[i], params) ==> !params.Unserialisable?
    case SessionStart(_, _) => false
  }

  lemma ReportsOne(h: seq<Event>, ev: Event, params: Json)
    requires ev.After? && Reports(h, ev, params)
    ensures params == ParamsAfter(RunHooks(h), ev)
  {
    AllowedFrameParams(h, ev);
  }

  lemma HandsOverMeaning(h: seq<Event>, i: nat)
    requires i < |h|
    ensures HandsOver(h, i) <==> Forward(RunHooks(h[..i]), h[i]) != []
  {
    if h[i].After? {
      var params := AfterForwards(h[..i], h[i]);
      forall q | Reports(h[..i], h[i], q) ensures q == params {
        ReportsOne(h[..i], h[i], q);
        ReportsOne(h[..i], h[i], params);
      }
    }
  }

  /** What the events of a call hand to the emitter, and where. */
  lemma EmissionsOfACall(h: seq<Event>, i: nat, j: nat)
    requires i < j < |h| && h[i].Before? && h[j].After? && HandsOver(h, i) && HandsOver(h, j)
    ensures PositionOf(h, i) < PositionOf(h, j) < |Emitted(h)|
    ensures Emitted(h)[PositionOf(h, i)] == PendingEmission(h[i])
    ensures Emitted(h)[PositionOf(h, j)] == AllowedEmission(h[j], ParamsAfter(RunHooks(h[..j]), h[j]))
  {
    HandsOverMeaning(h, i);
    HandsOverMeaning(h, j);
    EmittedHere(h, i);
    EmittedHere(h, j);
    EmittedAt(h[..j], i);
    assert h[..j][..i] == h[..i];
  }
}
