/** Polling as the tool's description recommends: ask for what is newer than the newest receipt
    seen so far. */
module Polling {
  import opened Wrappers
  import opened Text
  import opened Lists
  import opened Sorting
  import opened Query

  /** One poll: the store as it is then, and the limit asked for. */
  datatype Poll = Poll(store: seq<Receipt>, limit: nat)

  /** The reader's cursor and everything returned to it so far. */
  datatype Reader = Reader(cursor: Option<string>, seen: seq<Receipt>)

  function Ask(p: Params, cursor: Option<string>, limit: nat, isDate: string -> bool): Params {
    Checked(p.(after := cursor, limit := Integer(limit)), isDate)
  }

  function DoPoll(rd: Reader, poll: Poll, p: Params, isDate: string -> bool): Reader {
    var r := Results(poll.store, Ask(p, rd.cursor, poll.limit, isDate));
    Reader(if r == [] then rd.cursor else Some(r[0].timestamp), rd.seen + r)
  }

  /** A reader's polls, always with the same filters `p`. */
  function DoPolls(polls: seq<Poll>, p: Params, isDate: string -> bool): Reader {
    if polls == [] then Reader(None, [])
    else DoPoll(DoPolls(polls[..|polls| - 1], p, isDate), polls[|polls| - 1], p, isDate)
  }

  /** A receipt the filters select, whenever it was stored. */
  predicate Selects(p: Params, r: Receipt, isDate: string -> bool) {
    Wanted(r, Checked(p.(after := None), isDate))
  }

  /** Receipts have dates for timestamps, and none is stored twice. */
  ghost predicate GoodStore(store: seq<Receipt>, isDate: string -> bool) {
    NoDuplicates(store) && forall r :: r in store ==> r.timestamp != "" && isDate(r.timestamp)
  }

  ghost predicate GoodPolls(polls: seq<Poll>, isDate: string -> bool) {
    forall i :: 0 <= i < |polls| ==> GoodStore(polls[i].store, isDate)
  }

  predicate NotAbove(timestamp: string, cursor: Option<string>) {
    cursor.Some? && !Less(cursor.value, timestamp)
  }

  // ----- One poll -----

  /** The cursor is a date, and everything seen is at or below it. */
  ghost predicate ReaderOk(rd: Reader, isDate: string -> bool) {
    && (rd.cursor.Some? ==> rd.cursor.value != "" && isDate(rd.cursor.value))
    && NoDuplicates(rd.seen)
    && forall r :: r in rd.seen ==> NotAbove(r.timestamp, rd.cursor)
  }

  /** What a poll can return: what is selected and strictly above the cursor. */
  lemma PollMatches(rd: Reader, poll: Poll, p: Params, isDate: string -> bool)
    requires ReaderOk(rd, isDate) && GoodStore(poll.store, isDate)
    ensures var all := Matches(poll.store, Ask(p, rd.cursor, poll.limit, isDate));
            && NoDuplicates(all)
            && forall r :: r in all <==> r in poll.store && Selects(p, r, isDate) && !NotAbove(r.timestamp, rd.cursor)
  {
    var q := Ask(p, rd.cursor, poll.limit, isDate);
    MatchesAreWanted(poll.store, q);
    FilterNoDuplicates(poll.store, (r: Receipt) => Stored(r, q));
    FilterNoDuplicates(StoreQuery(poll.store, q), NotAt(q.after));
  }

  lemma FirstIsNewest(all: seq<Receipt>, r: seq<Receipt>)
    requires r != [] && Sorted(r, NotLater())
    requires forall x, y :: x in r && y in multiset(all) - multiset(r) ==> Comparator(x, y) <= 0
    ensures forall x :: x in all || x in r ==> NotAbove(x.timestamp, Some(r[0].timestamp))
  {
    forall x | x in all || x in r ensures NotAbove(x.timestamp, Some(r[0].timestamp)) {
      if x in r {
        var j :| 0 <= j < |r| && r[j] == x;
        assert 0 < j ==> NotLater()(r[0], r[j]);
      } else {
        assert x in multiset(all) - multiset(r);
        assert Comparator(r[0], x) <= 0;
      }
      LessTotal(r[0].timestamp, x.timestamp);
    }
  }

  lemma ResultsFromMatches(all: seq<Receipt>, r: seq<Receipt>)
    requires NoDuplicates(all) && multiset(r) <= multiset(all)
    ensures NoDuplicates(r) && forall x :: x in r ==> x in all
  {
    NoDuplicatesCounts(all);
    CountsNoDuplicates(r);
    forall x | x in r ensures x in all {
      assert x in multiset(r);
    }
  }

  lemma EqualSizeSubset(all: seq<Receipt>, r: seq<Receipt>)
    requires multiset(r) <= multiset(all) && |r| == |all|
    ensures forall x :: x in all ==> x in r
  {
    var missing := multiset(all) - multiset(r);
    assert |missing| == |multiset(all)| - |multiset(r)| == 0;
    forall x | x in all ensures x in r {
      assert x in multiset(all) && x !in missing;
    }
  }

  lemma PollResults(rd: Reader, poll: Poll, p: Params, isDate: string -> bool)
    requires ReaderOk(rd, isDate) && GoodStore(poll.store, isDate)
    ensures var q := Ask(p, rd.cursor, poll.limit, isDate);
            var all, r := Matches(poll.store, q), Results(poll.store, q);
            && NoDuplicates(r)
            && (forall x :: x in r ==> x in all)
            && (|all| <= poll.limit ==> forall x :: x in all ==> x in r)
            && (forall x :: x in r ==> NotAbove(x.timestamp, Some(r[0].timestamp)))
            && (r != [] ==> forall x :: x in all ==> NotAbove(x.timestamp, Some(r[0].timestamp)))
  {
    var q := Ask(p, rd.cursor, poll.limit, isDate);
    var all, r := Matches(poll.store, q), Results(poll.store, q);
    PollMatches(rd, poll, p, isDate);
    NewestFirstUpToLimit(poll.store, q);
    ResultsFromMatches(all, r);
    if |all| <= poll.limit {
      EqualSizeSubset(all, r);
    }
    if r != [] {
      FirstIsNewest(all, r);
    }
  }

  lemma NotAboveTransitive(timestamp: string, cursor: string, next: string)
    requires NotAbove(timestamp, Some(cursor)) && Less(cursor, next)
    ensures NotAbove(timestamp, Some(next))
  {
    if Less(next, timestamp) {
      LessTransitive(cursor, next, timestamp);
    }
  }

  /** A poll moves the cursor up or leaves it. */
  lemma CursorRises(rd: Reader, poll: Poll, p: Params, isDate: string -> bool, timestamp: string)
    requires ReaderOk(rd, isDate) && GoodStore(poll.store, isDate) && NotAbove(timestamp, rd.cursor)
    ensures NotAbove(timestamp, DoPoll(rd, poll, p, isDate).cursor)
  {
    var q := Ask(p, rd.cursor, poll.limit, isDate);
    var r := Results(poll.store, q);
    PollMatches(rd, poll, p, isDate);
    PollResults(rd, poll, p, isDate);
    if r != [] {
      assert r[0] in r;
      NotAboveTransitive(timestamp, rd.cursor.value, r[0].timestamp);
    }
  }

  lemma DoPollOk(rd: Reader, poll: Poll, p: Params, isDate: string -> bool)
    requires ReaderOk(rd, isDate) && GoodStore(poll.store, isDate)
    ensures ReaderOk(DoPoll(rd, poll, p, isDate), isDate)
  {
    var q := Ask(p, rd.cursor, poll.limit, isDate);
    var r := Results(poll.store, q);
    var rd' := DoPoll(rd, poll, p, isDate);
    PollMatches(rd, poll, p, isDate);
    PollResults(rd, poll, p, isDate);
    forall x | x in rd'.seen ensures NotAbove(x.timestamp, rd'.cursor) {
      if x in rd.seen {
        CursorRises(rd, poll, p, isDate, x.timestamp);
      }
    }
    forall i, j | 0 <= i < j < |rd'.seen| ensures rd'.seen[i] != rd'.seen[j] {
      if i < |rd.seen| <= j {
        assert rd'.seen[i] in rd.seen && rd'.seen[j] in r;
      }
    }
    if r != [] {
      assert r[0] in r;
    }
  }

  // ----- Runs of polls -----

  lemma {:induction false} DoPollsOk(polls: seq<Poll>, p: Params, isDate: string -> bool)
    requires GoodPolls(polls, isDate)
    ensures ReaderOk(DoPolls(polls, p, isDate), isDate)
  {
    if polls != [] {
      var n := |polls| - 1;
      DoPollsOk(polls[..n], p, isDate);
      DoPollOk(DoPolls(polls[..n], p, isDate), polls[n], p, isDate);
    }
  }

  /** The store only grows. */
  ghost predicate Growing(polls: seq<Poll>) {
    forall i, j :: 0 <= i < j < |polls| ==> polls[i].store <= polls[j].store
  }

  /** Everything returned was selected, and in the store of the last poll. */
  lemma {:induction false} SeenIsStored(polls: seq<Poll>, p: Params, isDate: string -> bool)
    requires GoodPolls(polls, isDate) && Growing(polls)
    ensures forall r :: r in DoPolls(polls, p, isDate).seen ==>
              polls != [] && r in polls[|polls| - 1].store && Selects(p, r, isDate)
  {
    if polls != [] {
      var n := |polls| - 1;
      var g := polls[..n];
      var rd := DoPolls(g, p, isDate);
      SeenIsStored(g, p, isDate);
      DoPollsOk(g, p, isDate);
      PollMatches(rd, polls[n], p, isDate);
      PollResults(rd, polls[n], p, isDate);
      if n > 0 {
        assert polls[n - 1].store <= polls[n].store && g[n - 1] == polls[n - 1];
      }
    }
  }

  /** Poll `i` is in order: what was stored since the poll before is above the cursor, and the
      limit covers all there is above the cursor. */
  ghost predicate Covered(polls: seq<Poll>, i: nat, p: Params, isDate: string -> bool)
    requires i < |polls|
  {
    var rd := DoPolls(polls[..i], p, isDate);
    && |Matches(polls[i].store, Ask(p, rd.cursor, polls[i].limit, isDate))| <= polls[i].limit
    && forall r :: r in polls[i].store && Selects(p, r, isDate) && (i == 0 || r !in polls[i - 1].store) ==>
         !NotAbove(r.timestamp, rd.cursor)
  }

  ghost predicate AllCovered(polls: seq<Poll>, p: Params, isDate: string -> bool) {
    forall i :: 0 <= i < |polls| ==> Covered(polls, i, p, isDate)
  }

  /** Every selected receipt in the store of the last poll has been returned. */
  ghost predicate AllSeen(polls: seq<Poll>, p: Params, isDate: string -> bool)
    requires polls != []
  {
    forall r :: r in polls[|polls| - 1].store && Selects(p, r, isDate) ==> r in DoPolls(polls, p, isDate).seen
  }

  lemma CoveredPrefix(polls: seq<Poll>, i: nat, p: Params, isDate: string -> bool)
    requires i < |polls| - 1
    ensures Covered(polls[..|polls| - 1], i, p, isDate) <==> Covered(polls, i, p, isDate)
  {
    var g := polls[..|polls| - 1];
    assert g[..i] == polls[..i] && g[i] == polls[i];
    assert i > 0 ==> g[i - 1] == polls[i - 1];
  }

  lemma {:induction false} CoveredSeesAll(polls: seq<Poll>, p: Params, isDate: string -> bool)
    requires polls != [] && GoodPolls(polls, isDate) && AllCovered(polls, p, isDate)
    ensures AllSeen(polls, p, isDate)
  {
    var n := |polls| - 1;
    var g := polls[..n];
    var rd := DoPolls(g, p, isDate);
    DoPollsOk(g, p, isDate);
    PollMatches(rd, polls[n], p, isDate);
    PollResults(rd, polls[n], p, isDate);
    assert Covered(polls, n, p, isDate);
    if n > 0 {
      forall i | 0 <= i < n ensures Covered(g, i, p, isDate) {
        CoveredPrefix(polls, i, p, isDate);
      }
      CoveredSeesAll(g, p, isDate);
      assert g[n - 1] == polls[n - 1];
    }
  }

  /** A receipt at or below the cursor that was not returned. */
  ghost predicate Lost(rd: Reader, r: Receipt) {
    r !in rd.seen && NotAbove(r.timestamp, rd.cursor)
  }

  lemma LostForGood(rd: Reader, poll: Poll, p: Params, isDate: string -> bool, r: Receipt)
    requires ReaderOk(rd, isDate) && GoodStore(poll.store, isDate) && Lost(rd, r)
    ensures Lost(DoPoll(rd, poll, p, isDate), r)
  {
    PollMatches(rd, poll, p, isDate);
    PollResults(rd, poll, p, isDate);
    CursorRises(rd, poll, p, isDate, r.timestamp);
  }

  lemma {:induction false} LostToTheEnd(polls: seq<Poll>, i: nat, p: Params, isDate: string -> bool, r: Receipt)
    requires GoodPolls(polls, isDate) && i <= |polls| && Lost(DoPolls(polls[..i], p, isDate), r)
    ensures Lost(DoPolls(polls, p, isDate), r)
  {
    if i == |polls| {
      assert polls[..i] == polls;
    } else {
      var g := polls[..|polls| - 1];
      assert g[..i] == polls[..i];
      LostToTheEnd(g, i, p, isDate, r);
      DoPollsOk(g, p, isDate);
      LostForGood(DoPolls(g, p, isDate), polls[|polls| - 1], p, isDate, r);
    }
  }

  lemma Missing(all: seq<Receipt>, res: seq<Receipt>) returns (r: Receipt)
    requires NoDuplicates(all) && multiset(res) <= multiset(all) && |res| < |all|
    ensures r in all && r !in res
  {
    NoDuplicatesCounts(all);
    var missing := multiset(all) - multiset(res);
    assert |missing| == |multiset(all)| - |multiset(res)| > 0;
    r :| r in missing;
    assert r in multiset(all) && multiset(res)[r] == 0;
  }

  /** When more is above the cursor than the limit returns, something falls behind the cursor. */
  lemma OverflowLoses(rd: Reader, poll: Poll, p: Params, isDate: string -> bool) returns (r: Receipt)
    requires ReaderOk(rd, isDate) && GoodStore(poll.store, isDate)
    requires 0 < poll.limit < |Matches(poll.store, Ask(p, rd.cursor, poll.limit, isDate))|
    ensures r in poll.store && Selects(p, r, isDate) && Lost(DoPoll(rd, poll, p, isDate), r)
  {
    var q := Ask(p, rd.cursor, poll.limit, isDate);
    var all, res := Matches(poll.store, q), Results(poll.store, q);
    PollMatches(rd, poll, p, isDate);
    PollResults(rd, poll, p, isDate);
    NewestFirstUpToLimit(poll.store, q);
    r := Missing(all, res);
  }

  /** A poll out of order loses a receipt. */
  lemma UncoveredLoses(polls: seq<Poll>, i: nat, p: Params, isDate: string -> bool) returns (r: Receipt)
    requires GoodPolls(polls, isDate) && Growing(polls) && i < |polls| && 0 < polls[i].limit
    requires !Covered(polls, i, p, isDate)
    ensures r in polls[i].store && Selects(p, r, isDate)
    ensures Lost(DoPolls(polls[..i + 1], p, isDate), r)
  {
    var g := polls[..i];
    var rd := DoPolls(g, p, isDate);
    assert polls[..i + 1][..i] == g;
    DoPollsOk(g, p, isDate);
    SeenIsStored(g, p, isDate);
    if |Matches(polls[i].store, Ask(p, rd.cursor, polls[i].limit, isDate))| > polls[i].limit {
      r := OverflowLoses(rd, polls[i], p, isDate);
    } else {
      r :| r in polls[i].store && Selects(p, r, isDate) && (i == 0 || r !in polls[i - 1].store)
           && NotAbove(r.timestamp, rd.cursor);
      LostForGood(rd, polls[i], p, isDate, r);
    }
  }

  /** A poll with limit 0 returns nothing and leaves the reader where it is. */
  lemma ZeroLimitChangesNothing(rd: Reader, poll: Poll, p: Params, isDate: string -> bool)
    requires poll.limit == 0
    ensures DoPoll(rd, poll, p, isDate) == rd
  {
    NewestFirstUpToLimit(poll.store, Ask(p, rd.cursor, poll.limit, isDate));
    assert rd.seen + [] == rd.seen;
  }

  /** Polls that ask for something. */
  function Asking(polls: seq<Poll>): seq<Poll> {
    Filter(polls, (poll: Poll) => 0 < poll.limit)
  }

  lemma DoPollsSnoc(polls: seq<Poll>, poll: Poll, p: Params, isDate: string -> bool)
    ensures DoPolls(polls + [poll], p, isDate) == DoPoll(DoPolls(polls, p, isDate), poll, p, isDate)
  {
    assert (polls + [poll])[..|polls|] == polls;
  }

  lemma AskingSnoc(polls: seq<Poll>, poll: Poll)
    ensures Asking(polls + [poll]) == if poll.limit == 0 then Asking(polls) else Asking(polls) + [poll]
  {
    FilterConcat(polls, [poll], (q: Poll) => 0 < q.limit);
    assert Filter([poll][1..], (q: Poll) => 0 < q.limit) == [];
  }

  /** So polls with limit 0 can be left out of any run. */
  lemma {:induction false} ZeroLimitsDropOut(polls: seq<Poll>, p: Params, isDate: string -> bool)
    ensures DoPolls(polls, p, isDate) == DoPolls(Asking(polls), p, isDate)
    decreases |polls|
  {
    if polls != [] {
      var g, poll := polls[..|polls| - 1], polls[|polls| - 1];
      var rd := DoPolls(g, p, isDate);
      assert polls == g + [poll];
      ZeroLimitsDropOut(g, p, isDate);
      AskingSnoc(g, poll);
      if poll.limit == 0 {
        ZeroLimitChangesNothing(rd, poll, p, isDate);
      } else {
        DoPollsSnoc(Asking(g), poll, p, isDate);
      }
    }
  }

  // ----- Main results -----

  /** No receipt is returned twice, whatever the limits and whatever happens to the store. */
  lemma NothingTwice(polls: seq<Poll>, p: Params, isDate: string -> bool)
    requires GoodPolls(polls, isDate)
    ensures NoDuplicates(DoPolls(polls, p, isDate).seen)
  {
    DoPollsOk(polls, p, isDate);
  }

  /** Over a growing store and with limits of at least one, polling has returned every selected
      receipt if and only if every poll was in order; one that was not loses a receipt for good. */
  lemma CompleteIffCovered(polls: seq<Poll>, p: Params, isDate: string -> bool)
    requires polls != [] && GoodPolls(polls, isDate) && Growing(polls)
    requires forall i :: 0 <= i < |polls| ==> 0 < polls[i].limit
    ensures AllSeen(polls, p, isDate) <==> AllCovered(polls, p, isDate)
  {
    if AllCovered(polls, p, isDate) {
      CoveredSeesAll(polls, p, isDate);
    } else {
      var i :| 0 <= i < |polls| && !Covered(polls, i, p, isDate);
      var r := UncoveredLoses(polls, i, p, isDate);
      LostToTheEnd(polls, i + 1, p, isDate, r);
      assert i < |polls| - 1 ==> polls[i].store <= polls[|polls| - 1].store;
    }
  }
}
