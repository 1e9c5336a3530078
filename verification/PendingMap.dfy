/** The map of calls in flight: a JavaScript Map, which iterates in insertion order and keeps a
    key's place when it is set again. */
module PendingMap {
  import opened Wrappers
  import opened Lists
  import opened Sorting

  /** What `JSON.stringify` makes of a value: text, `undefined`, or an exception. Nothing else
      about parameters and results matters here. */
  datatype Json = Text(json: string) | Undefined | Unserialisable

  datatype PendingCall = PendingCall(
    toolName: string,
    params: Json,
    startedAt: int,
    sessionKey: string,
    sessionId: Option<string>)

  datatype Entry = Entry(key: string, call: PendingCall)

  type Entries = seq<Entry>

  // ----- The operations of Map -----

  predicate Distinct(m: Entries) {
    forall i, j :: 0 <= i < j < |m| ==> m[i].key != m[j].key
  }

  function Get(m: Entries, key: string): Option<PendingCall> {
    if m == [] then None else if m[0].key == key then Some(m[0].call) else Get(m[1..], key)
  }

  function Set(m: Entries, key: string, call: PendingCall): Entries {
    if m == [] then [Entry(key, call)]
    else if m[0].key == key then [Entry(key, call)] + m[1..]
    else [m[0]] + Set(m[1..], key, call)
  }

  function Delete(m: Entries, key: string): Entries {
    Filter(m, (e: Entry) => e.key != key)
  }

  /** `Get` as a search. */
  lemma {:induction false} GetFinds(m: Entries, key: string)
    ensures Get(m, key).Some? ==> Entry(key, Get(m, key).value) in m
    ensures Get(m, key).None? ==> forall e :: e in m ==> e.key != key
  {
    if m != [] && m[0].key != key {
      GetFinds(m[1..], key);
      assert m == [m[0]] + m[1..];
    }
  }

  lemma {:induction false} GetUnique(m: Entries, e: Entry)
    requires Distinct(m) && e in m
    ensures Get(m, e.key) == Some(e.call)
  {
    if m[0] != e {
      var i :| 0 <= i < |m| && m[i] == e;
      assert m[1..][i - 1] == e;
      GetUnique(m[1..], e);
    }
  }

  lemma {:induction false} GetSet(m: Entries, key: string, call: PendingCall, other: string)
    ensures Get(Set(m, key, call), other) == if other == key then Some(call) else Get(m, other)
  {
    if m != [] && m[0].key != key {
      GetSet(m[1..], key, call, other);
    }
  }

  lemma {:induction false} SetKeys(m: Entries, key: string, call: PendingCall)
    ensures forall e :: e in Set(m, key, call) ==> e.key == key || e in m
    ensures |Set(m, key, call)| <= |m| + 1
    ensures Distinct(m) ==> Distinct(Set(m, key, call))
  {
    if m != [] && m[0].key != key {
      SetKeys(m[1..], key, call);
      var t := Set(m[1..], key, call);
      if Distinct(m) {
        forall j | 0 <= j < |t| ensures m[0].key != t[j].key {
          assert t[j] in t;
        }
      }
    }
  }

  /** A key that is set again keeps its place, and a new one goes to the end; no other moves. */
  lemma {:induction false} SetKeepsPlaces(m: Entries, key: string, call: PendingCall)
    ensures var r := Set(m, key, call);
            && |r| == |m| + (if Get(m, key).Some? then 0 else 1)
            && (forall i :: 0 <= i < |m| ==> r[i].key == m[i].key && (m[i].key != key ==> r[i] == m[i]))
            && (Get(m, key).None? ==> r[|m|] == Entry(key, call))
  {
    if m != [] && m[0].key != key {
      SetKeepsPlaces(m[1..], key, call);
      assert m == [m[0]] + m[1..];
    }
  }

  lemma {:induction false} FilterDistinct(m: Entries, keep: Entry -> bool)
    requires Distinct(m)
    ensures Distinct(Filter(m, keep))
  {
    if m != [] {
      var t := Filter(m[1..], keep);
      FilterDistinct(m[1..], keep);
      FilterMembers(m[1..], keep);
      forall j | 0 <= j < |t| ensures m[0].key != t[j].key {
        assert t[j] in t;
      }
    }
  }

  lemma FilterKeys(m: Entries, keep: Entry -> bool)
    requires Distinct(m)
    ensures Distinct(Filter(m, keep)) && |Filter(m, keep)| <= |m|
    ensures forall e :: e in Filter(m, keep) <==> e in m && keep(e)
  {
    FilterDistinct(m, keep);
    FilterMembers(m, keep);
  }

  lemma GetFilter(m: Entries, keep: Entry -> bool, key: string)
    requires Distinct(m)
    ensures Get(Filter(m, keep), key)
            == match Get(m, key)
               case Some(call) => if keep(Entry(key, call)) then Some(call) else None
               case None => None
  {
    FilterKeys(m, keep);
    GetFinds(m, key);
    GetFinds(Filter(m, keep), key);
    if Get(Filter(m, keep), key).Some? {
      GetUnique(m, Entry(key, Get(Filter(m, keep), key).value));
    }
    if Get(m, key).Some? && keep(Entry(key, Get(m, key).value)) {
      GetUnique(Filter(m, keep), Entry(key, Get(m, key).value));
    }
  }

  /** Deleting a key that is there makes the map smaller by one. */
  lemma {:induction false} DeleteSize(m: Entries, e: Entry)
    requires Distinct(m) && e in m
    ensures |Delete(m, e.key)| == |m| - 1
  {
    if m[0] == e {
      assert forall f :: f in m[1..] ==> f.key != e.key;
      FilterAll(m[1..], (f: Entry) => f.key != e.key);
    } else {
      var i :| 0 <= i < |m| && m[i] == e;
      assert m[1..][i - 1] == e;
      DeleteSize(m[1..], e);
    }
  }

  // ----- Sorting keeps keys distinct -----

  lemma {:induction false} InsertDistinct(x: Entry, s: Entries, le: (Entry, Entry) -> bool)
    requires Distinct(s) && forall e :: e in s ==> e.key != x.key
    ensures Distinct(Insert(x, s, le))
  {
    if s != [] && !le(x, s[0]) {
      var t := Insert(x, s[1..], le);
      InsertDistinct(x, s[1..], le);
      InsertPermutes(x, s[1..], le);
      forall j | 0 <= j < |t| ensures s[0].key != t[j].key {
        assert t[j] in multiset(t);
        assert t[j] == x || t[j] in s[1..];
      }
    }
  }

  lemma {:induction false} SortDistinct(s: Entries, le: (Entry, Entry) -> bool)
    requires Distinct(s)
    ensures Distinct(Sort(s, le))
  {
    if s != [] {
      var t := Sort(s[1..], le);
      SortDistinct(s[1..], le);
      SortPermutes(s[1..], le);
      forall e | e in t ensures e.key != s[0].key {
        assert e in multiset(t);
        assert e in s[1..];
      }
      InsertDistinct(s[0], t, le);
    }
  }

  // ----- Eviction -----

  const PENDING_MAX_AGE_MS := 300_000
  const PENDING_MAX_SIZE := 1000

  predicate Fresh(e: Entry, now: int) {
    now - e.call.startedAt <= PENDING_MAX_AGE_MS
  }

  function KeepFresh(m: Entries, now: int): Entries {
    Filter(m, (e: Entry) => Fresh(e, now))
  }

  function ByStart(): (Entry, Entry) -> bool {
    (a: Entry, b: Entry) => a.call.startedAt - b.call.startedAt <= 0
  }

  /** Delete the keys of the first `n` entries of `sorted`. */
  function DeleteFirst(m: Entries, sorted: Entries, n: nat): Entries
    requires n <= |sorted|
  {
    if n == 0 then m else Delete(DeleteFirst(m, sorted, n - 1), sorted[n - 1].key)
  }

  /** The entries by start, as a sort of the map's entries leaves them. */
  function SortByStart(m: Entries): (sorted: Entries)
    ensures |sorted| == |m|
  {
    SortPermutes(m, ByStart());
    Sort(m, ByStart())
  }

  function Excess(m: Entries): nat {
    if |m| > PENDING_MAX_SIZE then |m| - PENDING_MAX_SIZE else 0
  }

  function EvictOldest(m: Entries): Entries {
    DeleteFirst(m, SortByStart(m), Excess(m))
  }

  function Evict(m: Entries, now: int): Entries {
    EvictOldest(KeepFresh(m, now))
  }

  predicate InFirst(sorted: Entries, n: nat, key: string)
    requires n <= |sorted|
  {
    exists i :: 0 <= i < n && sorted[i].key == key
  }

  lemma {:induction false} DeleteFirstMembers(m: Entries, sorted: Entries, n: nat, e: Entry)
    requires n <= |sorted|
    ensures e in DeleteFirst(m, sorted, n) <==> e in m && !InFirst(sorted, n, e.key)
  {
    if n > 0 {
      var key := sorted[n - 1].key;
      DeleteFirstMembers(m, sorted, n - 1, e);
      FilterMembers(DeleteFirst(m, sorted, n - 1), (f: Entry) => f.key != key);
      assert InFirst(sorted, n, e.key) <==> InFirst(sorted, n - 1, e.key) || e.key == key;
    }
  }

  lemma {:induction false} DeleteFirstSize(m: Entries, sorted: Entries, n: nat)
    requires n <= |sorted| && Distinct(m) && Distinct(sorted)
    requires forall e :: e in sorted ==> e in m
    ensures Distinct(DeleteFirst(m, sorted, n)) && |DeleteFirst(m, sorted, n)| == |m| - n
  {
    if n > 0 {
      var before, e := DeleteFirst(m, sorted, n - 1), sorted[n - 1];
      DeleteFirstSize(m, sorted, n - 1);
      DeleteFirstMembers(m, sorted, n - 1, e);
      DeleteSize(before, e);
      FilterKeys(before, (f: Entry) => f.key != e.key);
    }
  }

  /** What sorting by start gives: the same entries, in order, with distinct keys. */
  lemma SortedByStart(m: Entries)
    requires Distinct(m)
    ensures var sorted := SortByStart(m);
            && Distinct(sorted) && Sorted(sorted, ByStart())
            && forall e :: e in sorted <==> e in m
  {
    SortPermutes(m, ByStart());
    SortDistinct(m, ByStart());
    SortSorts(m, ByStart());
    assert forall e :: e in Sort(m, ByStart()) <==> e in multiset(Sort(m, ByStart()));
  }

  /** `r` is `m` cut down to `n` entries, none of which started before one that is gone. */
  ghost predicate CutDown(m: Entries, r: Entries, n: nat) {
    && Distinct(r) && |r| == n
    && (forall e :: e in r ==> e in m)
    && (forall e, f :: e in m && e !in r && f in r ==> e.call.startedAt <= f.call.startedAt)
  }

  lemma OldestFirst(m: Entries, sorted: Entries, n: nat, e: Entry, f: Entry)
    requires Distinct(m) && n <= |sorted| && Sorted(sorted, ByStart())
    requires e in m && f in sorted && InFirst(sorted, n, e.key) && !InFirst(sorted, n, f.key)
    requires forall x :: x in sorted ==> x in m
    ensures e.call.startedAt <= f.call.startedAt
  {
    var i :| 0 <= i < n && sorted[i].key == e.key;
    GetUnique(m, e);
    GetUnique(m, sorted[i]);
    var j :| 0 <= j < |sorted| && sorted[j] == f;
    assert ByStart()(sorted[i], sorted[j]);
  }

  lemma OverfullEviction(m: Entries, sorted: Entries, n: nat)
    requires Distinct(m) && Distinct(sorted) && n <= |sorted| == |m| && Sorted(sorted, ByStart())
    requires forall e :: e in sorted <==> e in m
    ensures CutDown(m, DeleteFirst(m, sorted, n), |m| - n)
  {
    var r := DeleteFirst(m, sorted, n);
    DeleteFirstSize(m, sorted, n);
    forall e | e in r ensures e in m {
      DeleteFirstMembers(m, sorted, n, e);
    }
    forall e, f | e in m && e !in r && f in r ensures e.call.startedAt <= f.call.startedAt {
      DeleteFirstMembers(m, sorted, n, e);
      DeleteFirstMembers(m, sorted, n, f);
      OldestFirst(m, sorted, n, e, f);
    }
  }

  /** Size eviction removes exactly the excess, and nothing that started later than what stays. */
  lemma EvictOldestMeaning(m: Entries)
    requires Distinct(m)
    ensures CutDown(m, EvictOldest(m), |m| - Excess(m))
  {
    SortedByStart(m);
    OverfullEviction(m, SortByStart(m), Excess(m));
  }

  /** A map at most one over the limit loses at most one entry to its size: the first, in map
      order, of those that started earliest. */
  lemma OneVictim(m: Entries) returns (p: nat)
    requires Distinct(m) && |m| == PENDING_MAX_SIZE + 1
    ensures p < |m| && EvictOldest(m) == Delete(m, m[p].key)
    ensures forall q :: 0 <= q < |m| ==> m[p].call.startedAt <= m[q].call.startedAt
    ensures forall q :: 0 <= q < p ==> m[p].call.startedAt < m[q].call.startedAt
  {
    p := SortHead(m, ByStart());
    assert DeleteFirst(m, SortByStart(m), 0) == m;
    forall q | 0 <= q < |m| ensures m[p].call.startedAt <= m[q].call.startedAt {
      assert ByStart()(m[p], m[q]);
    }
    forall q | 0 <= q < p ensures m[p].call.startedAt < m[q].call.startedAt {
      assert !ByStart()(m[q], m[p]);
    }
  }
}
