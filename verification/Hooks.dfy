/** The plugin's lifecycle hooks: stashing a call before it runs, and telling the daemon about it
    before and after. */
module Hooks {
  import opened Wrappers
  import opened Lists
  import opened PendingMap

  // ----- Keys -----

  function Named(id: Option<string>): string {
    if id.Some? then id.value else "unknown"
  }

  function CallKey(runId: Option<string>, toolCallId: Option<string>): string {
    Named(runId) + (":" + Named(toolCallId))
  }

  /** Run id `c` continues run id `a` after a colon, with what call id `b` starts with. */
  predicate Continues(a: string, b: string, c: string, d: string, x: string) {
    c == a + (":" + x) && b == x + (":" + d)
  }

  lemma SplitAtColon(a: string, b: string, c: string, d: string)
    requires a + (":" + b) == c + (":" + d) && |a| < |c|
    ensures Continues(a, b, c, d, c[|a| + 1..])
  {
    var x := c[|a| + 1..];
    var s := a + (":" + b);
    assert s[..|a|] == a && s[..|c|] == c;
    assert c[..|a|] == s[..|c|][..|a|] == a;
    assert c[|a|] == s[|a|] == ':';
    assert c == c[..|a|] + ([c[|a|]] + c[|a| + 1..]);
    assert s[|a| + 1..] == b;
    assert (c + (":" + d))[|a| + 1..] == x + (":" + d);
  }

  lemma SameLength(a: string, b: string, c: string, d: string)
    requires a + (":" + b) == c + (":" + d) && |a| == |c|
    ensures a == c && b == d
  {
    assert a == (a + (":" + b))[..|a|] && c == (c + (":" + d))[..|c|];
    assert b == (a + (":" + b))[|a| + 1..] && d == (c + (":" + d))[|c| + 1..];
  }

  lemma JoinAtColon(a: string, x: string, d: string)
    ensures a + (":" + (x + (":" + d))) == (a + (":" + x)) + (":" + d)
  {
  }

  /** Two calls share a key exactly if their parts agree once missing ones read "unknown", or a
      colon inside one run id continues into the other's call id. */
  lemma KeysCollide(r: Option<string>, t: Option<string>, r': Option<string>, t': Option<string>)
    ensures CallKey(r, t) == CallKey(r', t')
            <==> || (Named(r) == Named(r') && Named(t) == Named(t'))
                 || (exists x :: Continues(Named(r), Named(t), Named(r'), Named(t'), x))
                 || (exists x :: Continues(Named(r'), Named(t'), Named(r), Named(t), x))
  {
    var a, b, c, d := Named(r), Named(t), Named(r'), Named(t');
    if CallKey(r, t) == CallKey(r', t') {
      if |a| < |c| {
        SplitAtColon(a, b, c, d);
      } else if |c| < |a| {
        SplitAtColon(c, d, a, b);
      } else {
        SameLength(a, b, c, d);
      }
    }
    if x :| Continues(a, b, c, d, x) {
      JoinAtColon(a, x, d);
    }
    if x :| Continues(c, d, a, b, x) {
      JoinAtColon(c, x, b);
    }
  }

  /** The key of a call; an id that is missing and one that is "unknown" give the same. */
  lemma KeyText(r: string, t: string)
    ensures CallKey(Some(r), Some(t)) == r + (":" + t)
    ensures CallKey(None, Some(t)) == CallKey(Some("unknown"), Some(t))
    ensures CallKey(Some(r), None) == CallKey(Some(r), Some("unknown"))
    ensures CallKey(None, None) == CallKey(Some("unknown"), Some("unknown"))
  {
  }

  /** Run ids without colons keep calls apart. */
  lemma KeysDistinct(r: Option<string>, t: Option<string>, r': Option<string>, t': Option<string>)
    requires ':' !in Named(r) && ':' !in Named(r')
    requires CallKey(r, t) == CallKey(r', t')
    ensures Named(r) == Named(r') && Named(t) == Named(t')
  {
    KeysCollide(r, t, r', t');
    forall x ensures Named(r') != Named(r) + (":" + x) && Named(r) != Named(r') + (":" + x) {
      assert (Named(r) + (":" + x))[|Named(r)|] == ':';
      assert (Named(r') + (":" + x))[|Named(r')|] == ':';
    }
  }

  // ----- Events and what they do -----

  /** A hook call. `evictAt` and `startAt` are the two readings of the clock. */
  datatype Event =
    | Before(toolName: string, params: Json, runId: Option<string>, toolCallId: Option<string>,
             sessionKey: Option<string>, sessionId: Option<string>, evictAt: int, startAt: int)
    | After(toolName: string, params: Json, runId: Option<string>, toolCallId: Option<string>,
            result: Json, error: Option<string>)
    | SessionStart(sessionKey: Option<string>, sessionId: Option<string>)

  /** An event handed to the emitter. */
  datatype Emission = Emission(
    toolName: string,
    input: Option<string>,
    output: Option<string>,
    error: Option<string>,
    decision: string)

  function KeyOf(ev: Event): string
    requires !ev.SessionStart?
  {
    CallKey(ev.runId, ev.toolCallId)
  }

  function Session(key: Option<string>): string {
    if key.Some? then key.value else "default"
  }

  function CallOf(ev: Event): PendingCall
    requires ev.Before?
  {
    PendingCall(ev.toolName, ev.params, ev.startAt, Session(ev.sessionKey), ev.sessionId)
  }

  predicate InSession(e: Entry, sessionKey: string, sessionId: Option<string>) {
    e.call.sessionKey == sessionKey && e.call.sessionId == sessionId
  }

  function EvictSession(m: Entries, sessionKey: string, sessionId: Option<string>): Entries {
    Filter(m, (e: Entry) => !InSession(e, sessionKey, sessionId))
  }

  /** What an event does to the pending map. */
  function React(m: Entries, ev: Event): Entries {
    match ev
    case Before(_, _, _, _, _, _, _, _) => Set(Evict(m, ev.evictAt), KeyOf(ev), CallOf(ev))
    case After(_, _, _, _, _, _) => Delete(m, KeyOf(ev))
    case SessionStart(key, id) => EvictSession(m, Session(key), id)
  }

  /** The text of an optional field. */
  function Field(value: Json): Option<string> {
    if value.Text? then Some(value.json) else None
  }

  /** The parameters an "allowed" frame reports: those stashed before the call, if any. */
  function ParamsAfter(m: Entries, ev: Event): Json
    requires ev.After?
  {
    match Get(m, KeyOf(ev))
    case Some(call) => call.params
    case None => ev.params
  }

  /** What an event forwards. A value that cannot be serialised suppresses the frame. */
  function Forward(m: Entries, ev: Event): seq<Emission> {
    match ev
    case Before(name, params, _, _, _, _, _, _) =>
      if params.Unserialisable? then [] else [Emission(name, Field(params), None, None, "pending")]
    case After(name, _, _, _, result, error) =>
      var params := ParamsAfter(m, ev);
      if params.Unserialisable? || result.Unserialisable? then []
      else [Emission(name, Field(params), Field(result), error, "allowed")]
    case SessionStart(_, _) => []
  }

  // ----- The handlers -----

  lemma {:induction false} DeleteAt(m: Entries, i: nat)
    requires Distinct(m) && i < |m|
    ensures Delete(m, m[i].key) == m[..i] + m[i + 1..]
  {
    var keep := (e: Entry) => e.key != m[i].key;
    if i == 0 {
      FilterAll(m[1..], keep);
    } else {
      DeleteAt(m[1..], i - 1);
      assert m[1..][i - 1] == m[i];
      assert m[..i] == [m[0]] + m[1..][..i - 1];
    }
  }

  class HookHandlers {
    var pending: Entries
    var emitted: seq<Emission>

    ghost predicate Valid()
      reads this
    {
      Distinct(pending)
    }

    constructor ()
      ensures Valid() && pending == [] && emitted == []
    {
      pending, emitted := [], [];
    }

    /** Deleting the entry an iteration is at leaves what it has passed and what is to come. */
    method DeleteCurrent(i: nat, ghost done: Entries, ghost rest: Entries)
      requires Valid() && i == |done| && rest != [] && pending == done + rest
      modifies this`pending
      ensures Valid() && pending == done + rest[1..]
    {
      var key := pending[i].key;
      DeleteAt(pending, i);
      FilterKeys(pending, (e: Entry) => e.key != key);
      pending := Delete(pending, key);
    }

    method EvictExcess()
      requires Valid() && |pending| > PENDING_MAX_SIZE
      modifies this`pending
      ensures Valid() && pending == EvictOldest(old(pending))
    {
      ghost var all := pending;
      var sorted := SortByStart(pending);
      var excess := |pending| - PENDING_MAX_SIZE;
      assert EvictOldest(all) == DeleteFirst(all, sorted, excess);
      for i := 0 to excess
        invariant Distinct(pending) && pending == DeleteFirst(all, sorted, i)
      {
        FilterKeys(pending, (e: Entry) => e.key != sorted[i].key);
        pending := Delete(pending, sorted[i].key);
      }
    }

    method EvictStalePending(now: int)
      requires Valid()
      modifies this`pending
      ensures Valid() && pending == Evict(old(pending), now)
    {
      if |pending| == 0 {
        return;
      }
      ghost var all, done, rest := pending, [], pending;
      var i := 0;
      while i < |pending|
        invariant i == |done| && pending == done + rest && Distinct(pending)
        invariant KeepFresh(all, now) == done + KeepFresh(rest, now)
        decreases |pending| - i
      {
        var entry := pending[i];
        if now - entry.call.startedAt > PENDING_MAX_AGE_MS {
          DeleteCurrent(i, done, rest);
        } else {
          i := i + 1;
          done := done + [entry];
        }
        rest := rest[1..];
      }
      assert pending == KeepFresh(all, now);
      if |pending| > PENDING_MAX_SIZE {
        EvictExcess();
      } else {
        assert EvictOldest(pending) == pending;
      }
    }

    method BeforeToolCall(ev: Event)
      requires Valid() && ev.Before?
      modifies this
      ensures Valid() && pending == React(old(pending), ev)
      ensures emitted == old(emitted) + Forward(old(pending), ev)
    {
      EvictStalePending(ev.evictAt);
      SetKeys(pending, KeyOf(ev), CallOf(ev));
      pending := Set(pending, KeyOf(ev), CallOf(ev));
      if !ev.params.Unserialisable? {
        emitted := emitted + [Emission(ev.toolName, Field(ev.params), None, None, "pending")];
      }
    }

    method EvictPendingForSession(sessionKey: string, sessionId: Option<string>)
      requires Valid()
      modifies this`pending
      ensures Valid() && pending == EvictSession(old(pending), sessionKey, sessionId)
    {
      ghost var all, done, rest := pending, [], pending;
      var i := 0;
      while i < |pending|
        invariant i == |done| && pending == done + rest && Distinct(pending)
        invariant EvictSession(all, sessionKey, sessionId) == done + EvictSession(rest, sessionKey, sessionId)
        decreases |pending| - i
      {
        var entry := pending[i];
        if entry.call.sessionKey == sessionKey && entry.call.sessionId == sessionId {
          DeleteCurrent(i, done, rest);
        } else {
          i := i + 1;
          done := done + [entry];
        }
        rest := rest[1..];
      }
    }

    /** The session_start listener. */
    method OnSessionStart(ev: Event)
      requires Valid() && ev.SessionStart?
      modifies this
      ensures Valid() && pending == React(old(pending), ev) && emitted == old(emitted) + Forward(old(pending), ev)
    {
      EvictPendingForSession(Session(ev.sessionKey), ev.sessionId);
    }

    method AfterToolCall(ev: Event)
      requires Valid() && ev.After?
      modifies this
      ensures Valid() && pending == React(old(pending), ev)
      ensures emitted == old(emitted) + Forward(old(pending), ev)
    {
      var key := CallKey(ev.runId, ev.toolCallId);
      var stashed := Get(pending, key);
      FilterKeys(pending, (e: Entry) => e.key != key);
      pending := Delete(pending, key);
      var params := if stashed.Some? then stashed.value.params else ev.params;
      if !params.Unserialisable? && !ev.result.Unserialisable? {
        emitted := emitted + [Emission(ev.toolName, Field(params), Field(ev.result), ev.error, "allowed")];
      }
    }
  }
}
