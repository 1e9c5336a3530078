/** `Array.prototype.sort` with a consistent comparator: a stable sort. `le(x, y)` stands for
    `comparator(x, y) <= 0`. */
module Sorting {
  import opened Lists

  ghost predicate TotalPreorder<T(!new)>(le: (T, T) -> bool) {
    && (forall x, y :: le(x, y) || le(y, x))
    && (forall x, y, z :: le(x, y) && le(y, z) ==> le(x, z))
  }

  ghost predicate Sorted<T>(s: seq<T>, le: (T, T) -> bool) {
    forall i, j :: 0 <= i < j < |s| ==> le(s[i], s[j])
  }

  /** `x` goes before the elements it ties with: it came before them. */
  function Insert<T>(x: T, s: seq<T>, le: (T, T) -> bool): seq<T> {
    if s == [] || le(x, s[0]) then [x] + s else [s[0]] + Insert(x, s[1..], le)
  }

  function Sort<T>(s: seq<T>, le: (T, T) -> bool): seq<T> {
    if s == [] then [] else Insert(s[0], Sort(s[1..], le), le)
  }

  lemma {:induction false} InsertPermutes<T>(x: T, s: seq<T>, le: (T, T) -> bool)
    ensures multiset(Insert(x, s, le)) == multiset{x} + multiset(s)
  {
    if s != [] && !le(x, s[0]) {
      InsertPermutes(x, s[1..], le);
      assert s == [s[0]] + s[1..];
    }
  }

  lemma {:induction false} SortPermutes<T>(s: seq<T>, le: (T, T) -> bool)
    ensures multiset(Sort(s, le)) == multiset(s)
    ensures |Sort(s, le)| == |s|
  {
    if s != [] {
      SortPermutes(s[1..], le);
      InsertPermutes(s[0], Sort(s[1..], le), le);
      assert s == [s[0]] + s[1..];
    }
    assert |multiset(Sort(s, le))| == |Sort(s, le)|;
  }

  lemma {:induction false} InsertSorted<T(!new)>(x: T, s: seq<T>, le: (T, T) -> bool)
    requires TotalPreorder(le) && Sorted(s, le)
    ensures Sorted(Insert(x, s, le), le)
  {
    if s != [] && !le(x, s[0]) {
      var t := Insert(x, s[1..], le);
      InsertSorted(x, s[1..], le);
      InsertPermutes(x, s[1..], le);
      forall j | 0 <= j < |t| ensures le(s[0], t[j]) {
        assert t[j] in multiset(t);
        assert t[j] == x || t[j] in s[1..];
      }
    }
  }

  lemma {:induction false} SortSorts<T(!new)>(s: seq<T>, le: (T, T) -> bool)
    requires TotalPreorder(le)
    ensures Sorted(Sort(s, le), le)
  {
    if s != [] {
      SortSorts(s[1..], le);
      InsertSorted(s[0], Sort(s[1..], le), le);
    }
  }

  predicate Tied<T>(x: T, y: T, le: (T, T) -> bool) {
    le(x, y) && le(y, x)
  }

  lemma {:induction false} InsertStable<T(!new)>(x: T, s: seq<T>, le: (T, T) -> bool, y: T)
    requires TotalPreorder(le)
    ensures Filter(Insert(x, s, le), z => Tied(z, y, le)) == Filter([x] + s, z => Tied(z, y, le))
  {
    if s != [] && !le(x, s[0]) {
      InsertStable(x, s[1..], le, y);
      assert ([x] + s[1..])[1..] == s[1..] && ([x] + s)[1..] == s;
      assert ([s[0]] + Insert(x, s[1..], le))[1..] == Insert(x, s[1..], le);
    }
  }

  /** Elements that tie keep their order. */
  lemma {:induction false} SortStable<T(!new)>(s: seq<T>, le: (T, T) -> bool, y: T)
    requires TotalPreorder(le)
    ensures Filter(Sort(s, le), z => Tied(z, y, le)) == Filter(s, z => Tied(z, y, le))
  {
    if s != [] {
      var t := Sort(s[1..], le);
      SortStable(s[1..], le, y);
      InsertStable(s[0], t, le, y);
      assert ([s[0]] + t)[1..] == t;
    }
  }

  /** The first element of the result is the first of the least elements. */
  lemma {:induction false} SortHead<T(!new)>(s: seq<T>, le: (T, T) -> bool) returns (p: nat)
    requires TotalPreorder(le) && s != []
    ensures p < |s| && Sort(s, le)[0] == s[p]
    ensures forall q :: 0 <= q < |s| ==> le(s[p], s[q])
    ensures forall q :: 0 <= q < p ==> !le(s[q], s[p])
  {
    p := 0;
    if |s| > 1 {
      var rest := Sort(s[1..], le);
      SortPermutes(s[1..], le);
      var q := SortHead(s[1..], le);
      if !le(s[0], rest[0]) {
        p := q + 1;
        forall i | 0 <= i < p ensures !le(s[i], s[p]) {
          if 0 < i {
            assert s[1..][i - 1] == s[i];
          }
        }
      }
      forall i | 0 <= i < |s| ensures le(s[p], s[i]) {
        if 0 < i {
          assert s[1..][i - 1] == s[i];
        }
      }
    }
  }

  /** Cutting a sorted sequence: the front is sorted, and nothing behind it ranks above it. */
  lemma FrontRanksFirst<T>(s: seq<T>, le: (T, T) -> bool, n: nat)
    requires Sorted(s, le) && n <= |s|
    ensures Sorted(s[..n], le)
    ensures forall x, y :: x in s[..n] && y in multiset(s) - multiset(s[..n]) ==> le(x, y)
    ensures multiset(s[..n]) <= multiset(s)
  {
    var front, back := s[..n], s[n..];
    assert s == front + back;
    assert multiset(s) - multiset(front) == multiset(back);
    forall x, y | x in front && y in multiset(back) ensures le(x, y) {
      assert y in back;
      var i :| 0 <= i < n && front[i] == x;
      var j :| 0 <= j < |back| && back[j] == y;
      assert le(s[i], s[n + j]);
    }
  }
}
