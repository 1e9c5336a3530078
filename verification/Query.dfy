/** The ar_query_receipts tool: filter, newest first, cut to the limit. */
module Query {
  import opened Wrappers
  import opened Text
  import opened Lists
  import opened Sorting

  /** Of a stored receipt, what the tool looks at. */
  datatype Receipt = Receipt(
    id: string,
    actionType: string,
    riskLevel: string,
    status: string,
    timestamp: string,
    sequence: int)

  /** The `limit` parameter as a JavaScript value. */
  datatype Limit = NoLimit | NotAnInteger | Integer(n: int)

  datatype Params = Params(
    actionType: Option<string>,
    riskLevel: Option<string>,
    status: Option<string>,
    after: Option<string>,
    before: Option<string>,
    limit: Limit)

  const VALID_RISK_LEVELS := ["low", "medium", "high", "critical"]
  const VALID_STATUSES := ["success", "failure", "pending"]
  const DEFAULT_LIMIT: nat := 20

  // ----- Reading the parameters -----

  function OneOf(value: Option<string>, allowed: seq<string>): Option<string> {
    if value.Some? && value.value in allowed then value else None
  }

  /** A date that is empty or does not parse is ignored. */
  function ADate(value: Option<string>, isDate: string -> bool): Option<string> {
    if value.Some? && value.value != "" && isDate(value.value) then value else None
  }

  function LimitOf(limit: Limit): nat {
    if limit.Integer? && limit.n >= 0 then limit.n else DEFAULT_LIMIT
  }

  // ----- The store, by assumption -----

  predicate Agrees(wanted: Option<string>, actual: string) {
    wanted.None? || wanted.value == actual
  }

  /** `store.query`: every receipt with the wanted fields, from `after` to `before`, both
      inclusive, timestamps compared as strings. */
  predicate Stored(r: Receipt, p: Params) {
    && Agrees(p.actionType, r.actionType) && Agrees(p.riskLevel, r.riskLevel) && Agrees(p.status, r.status)
    && (p.after.Some? ==> !Less(r.timestamp, p.after.value))
    && (p.before.Some? ==> !Less(p.before.value, r.timestamp))
  }

  function StoreQuery(store: seq<Receipt>, p: Params): seq<Receipt> {
    Filter(store, (r: Receipt) => Stored(r, p))
  }

  // ----- execute -----

  /** The parameters with everything invalid dropped. */
  function Checked(p: Params, isDate: string -> bool): Params {
    Params(p.actionType, OneOf(p.riskLevel, VALID_RISK_LEVELS), OneOf(p.status, VALID_STATUSES),
           ADate(p.after, isDate), ADate(p.before, isDate), Integer(LimitOf(p.limit)))
  }

  function NotAt(after: Option<string>): Receipt -> bool {
    (r: Receipt) => after.None? || r.timestamp != after.value
  }

  /** The comparator: descending timestamp, then descending sequence. */
  function Comparator(a: Receipt, b: Receipt): int {
    if Less(b.timestamp, a.timestamp) then -1
    else if Less(a.timestamp, b.timestamp) then 1
    else b.sequence - a.sequence
  }

  function NotLater(): (Receipt, Receipt) -> bool {
    (a: Receipt, b: Receipt) => Comparator(a, b) <= 0
  }

  function Matches(store: seq<Receipt>, p: Params): seq<Receipt> {
    Filter(StoreQuery(store, p), NotAt(p.after))
  }

  function Results(store: seq<Receipt>, p: Params): seq<Receipt> {
    var sorted := Sort(Matches(store, p), NotLater());
    sorted[..if LimitOf(p.limit) < |sorted| then LimitOf(p.limit) else |sorted|]
  }

  datatype Answer = CannotOpen | Found(results: seq<Receipt>)

  // ----- What it finds -----

  predicate Wanted(r: Receipt, p: Params) {
    && Agrees(p.actionType, r.actionType) && Agrees(p.riskLevel, r.riskLevel) && Agrees(p.status, r.status)
    && (p.after.Some? ==> Less(p.after.value, r.timestamp))
    && (p.before.Some? ==> !Less(p.before.value, r.timestamp))
  }

  /** With the tool's own filter the lower bound is exclusive. */
  lemma MatchesAreWanted(store: seq<Receipt>, p: Params)
    ensures forall r :: r in Matches(store, p) <==> r in store && Wanted(r, p)
  {
    FilterMembers(store, (r: Receipt) => Stored(r, p));
    FilterMembers(StoreQuery(store, p), NotAt(p.after));
    if p.after.Some? {
      forall r: Receipt ensures Less(p.after.value, r.timestamp)
                                <==> !Less(r.timestamp, p.after.value) && r.timestamp != p.after.value
      {
        LessTotal(p.after.value, r.timestamp);
      }
    }
  }

  lemma ComparatorTransitive(a: Receipt, b: Receipt, c: Receipt)
    requires Comparator(a, b) <= 0 && Comparator(b, c) <= 0
    ensures Comparator(a, c) <= 0
  {
    LessTotal(a.timestamp, b.timestamp);
    LessTotal(b.timestamp, c.timestamp);
    LessTotal(a.timestamp, c.timestamp);
    if Less(b.timestamp, a.timestamp) && Less(c.timestamp, b.timestamp) {
      LessTransitive(c.timestamp, b.timestamp, a.timestamp);
    }
  }

  lemma NotLaterIsTotalPreorder()
    ensures TotalPreorder(NotLater())
  {
    forall a: Receipt, b: Receipt ensures NotLater()(a, b) || NotLater()(b, a) {
      LessTotal(a.timestamp, b.timestamp);
    }
    forall a: Receipt, b: Receipt, c: Receipt | NotLater()(a, b) && NotLater()(b, c)
      ensures NotLater()(a, c)
    {
      ComparatorTransitive(a, b, c);
    }
  }

  /** The result is sorted newest first, has min(limit, matches) receipts, all of them matches and
      none more often than it matches, and leaves out nothing newer than what it holds. */
  lemma NewestFirstUpToLimit(store: seq<Receipt>, p: Params)
    ensures var r, all := Results(store, p), Matches(store, p);
            && Sorted(r, NotLater())
            && |r| == (if LimitOf(p.limit) < |all| then LimitOf(p.limit) else |all|)
            && multiset(r) <= multiset(all)
            && forall x, y :: x in r && y in multiset(all) - multiset(r) ==> Comparator(x, y) <= 0
  {
    var all := Matches(store, p);
    var sorted := Sort(all, NotLater());
    var r := Results(store, p);
    NotLaterIsTotalPreorder();
    SortPermutes(all, NotLater());
    SortSorts(all, NotLater());
    FrontRanksFirst(sorted, NotLater(), |r|);
    forall x, y | x in r && y in multiset(all) - multiset(r) ensures Comparator(x, y) <= 0 {
      assert NotLater()(x, y);
    }
  }

  // ----- What the caller gets for what it asked -----

  /** The receipt fits the parameters as given. A risk level or status that is none of the listed
      words, and a bound that is empty or no date, do not count. */
  predicate Fits(r: Receipt, p: Params, isDate: string -> bool) {
    && (p.actionType.Some? ==> r.actionType == p.actionType.value)
    && (p.riskLevel.Some? && p.riskLevel.value in {"low", "medium", "high", "critical"} ==>
          r.riskLevel == p.riskLevel.value)
    && (p.status.Some? && p.status.value in {"success", "failure", "pending"} ==> r.status == p.status.value)
    && (p.after.Some? && p.after.value != "" && isDate(p.after.value) ==> Less(p.after.value, r.timestamp))
    && (p.before.Some? && p.before.value != "" && isDate(p.before.value) ==> !Less(p.before.value, r.timestamp))
  }

  /** `a` may stand before `b`: it is newer, or as new with a sequence number no smaller. */
  predicate NotOlder(a: Receipt, b: Receipt) {
    Less(b.timestamp, a.timestamp) || (a.timestamp == b.timestamp && a.sequence >= b.sequence)
  }

  predicate SamePlace(a: Receipt, b: Receipt) {
    a.timestamp == b.timestamp && a.sequence == b.sequence
  }

  /** The receipts of `rs` in the place of `y` are the first of those of `all`. */
  predicate TiesKept(rs: seq<Receipt>, all: seq<Receipt>, y: Receipt) {
    Filter(rs, (x: Receipt) => SamePlace(x, y)) <= Filter(all, (x: Receipt) => SamePlace(x, y))
  }

  /** `rs` answers the query: of the receipts that fit, the newest, newest first, as many as asked
      for or 20; and receipts that tie in the order in which the store returns them. */
  ghost predicate Answers(store: seq<Receipt>, p: Params, isDate: string -> bool, rs: seq<Receipt>) {
    var all := Filter(store, (r: Receipt) => Fits(r, p, isDate));
    var n := if p.limit.Integer? && p.limit.n >= 0 then p.limit.n else 20;
    && |rs| == (if n < |all| then n else |all|)
    && multiset(rs) <= multiset(all)
    && (forall i, j :: 0 <= i < j < |rs| ==> NotOlder(rs[i], rs[j]))
    && (forall x, y :: x in rs && y in multiset(all) - multiset(rs) ==> NotOlder(x, y))
    && (forall y :: TiesKept(rs, all, y))
  }

  lemma NotLaterMeaning(a: Receipt, b: Receipt)
    ensures NotLater()(a, b) <==> NotOlder(a, b)
    ensures Comparator(a, b) <= 0 <==> NotOlder(a, b)
    ensures Tied(a, b, NotLater()) <==> SamePlace(a, b)
  {
    LessTotal(a.timestamp, b.timestamp);
  }

  lemma CheckedMeaning(r: Receipt, p: Params, isDate: string -> bool)
    ensures var q := Checked(p, isDate); Stored(r, q) && NotAt(q.after)(r) <==> Fits(r, p, isDate)
    ensures LimitOf(Checked(p, isDate).limit) == if p.limit.Integer? && p.limit.n >= 0 then p.limit.n else 20
  {
    assert VALID_RISK_LEVELS[0] == "low" && VALID_RISK_LEVELS[1] == "medium";
    assert VALID_RISK_LEVELS[2] == "high" && VALID_RISK_LEVELS[3] == "critical";
    assert VALID_STATUSES[0] == "success" && VALID_STATUSES[1] == "failure" && VALID_STATUSES[2] == "pending";
    if p.after.Some? {
      LessTotal(p.after.value, r.timestamp);
    }
  }

  lemma MatchesFit(store: seq<Receipt>, p: Params, isDate: string -> bool)
    ensures Matches(store, Checked(p, isDate)) == Filter(store, (r: Receipt) => Fits(r, p, isDate))
  {
    var q := Checked(p, isDate);
    forall r: Receipt ensures Stored(r, q) && NotAt(q.after)(r) <==> Fits(r, p, isDate) {
      CheckedMeaning(r, p, isDate);
    }
    FilterTwice(store, (r: Receipt) => Stored(r, q), NotAt(q.after), (r: Receipt) => Fits(r, p, isDate));
  }

  lemma SameFilter(s: seq<Receipt>, y: Receipt)
    ensures Filter(s, (x: Receipt) => SamePlace(x, y)) == Filter(s, x => Tied(x, y, NotLater()))
  {
    forall x: Receipt ensures SamePlace(x, y) <==> Tied(x, y, NotLater()) {
      NotLaterMeaning(x, y);
    }
    FilterSame(s, (x: Receipt) => SamePlace(x, y), x => Tied(x, y, NotLater()));
  }

  /** A prefix of the sorted matches keeps ties in order. */
  lemma TiesInOrder(all: seq<Receipt>, rs: seq<Receipt>, y: Receipt)
    requires rs <= Sort(all, NotLater())
    ensures TiesKept(rs, all, y)
  {
    var sorted := Sort(all, NotLater());
    NotLaterIsTotalPreorder();
    SortStable(all, NotLater(), y);
    SameFilter(all, y);
    SameFilter(sorted, y);
    assert sorted == rs + sorted[|rs|..];
    FilterConcat(rs, sorted[|rs|..], (x: Receipt) => SamePlace(x, y));
  }

  lemma ResultsAnswer(store: seq<Receipt>, p: Params, isDate: string -> bool)
    ensures Answers(store, p, isDate, Results(store, Checked(p, isDate)))
  {
    var q := Checked(p, isDate);
    var all, rs := Matches(store, q), Results(store, q);
    MatchesFit(store, p, isDate);
    NewestFirstUpToLimit(store, q);
    forall a: Receipt, b: Receipt ensures NotLater()(a, b) <==> NotOlder(a, b) {
      NotLaterMeaning(a, b);
    }
    forall a: Receipt, b: Receipt ensures Comparator(a, b) <= 0 <==> NotOlder(a, b) {
      NotLaterMeaning(a, b);
    }
    forall y: Receipt ensures TiesKept(rs, all, y) {
      TiesInOrder(all, rs, y);
    }
    if rs != [] {
      CheckedMeaning(rs[0], p, isDate);
    } else if all != [] {
      CheckedMeaning(all[0], p, isDate);
    }
  }

  method Execute(store: Option<seq<Receipt>>, params: Params, isDate: string -> bool) returns (answer: Answer)
    ensures answer == if store.None? then CannotOpen else Found(Results(store.value, Checked(params, isDate)))
    ensures store.Some? ==> answer.Found? && Answers(store.value, params, isDate, answer.results)
  {
    var riskLevel := OneOf(params.riskLevel, VALID_RISK_LEVELS);
    var status := OneOf(params.status, VALID_STATUSES);
    var after := ADate(params.after, isDate);
    var before := ADate(params.before, isDate);
    var limit := LimitOf(params.limit);
    if store.None? {
      return CannotOpen;
    }
    ResultsAnswer(store.value, params, isDate);
    var all := StoreQuery(store.value, Params(params.actionType, riskLevel, status, after, before, Integer(limit)));
    var filtered := Filter(all, NotAt(after));
    var sorted := Sort(filtered, NotLater());
    return Found(sorted[..if limit < |sorted| then limit else |sorted|]);
  }
}
