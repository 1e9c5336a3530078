/** Strings, compared character by character. Characters are Unicode scalar values; JavaScript
    compares UTF-16 code units, which gives the same order up to U+FFFF without surrogates. */
module Text {
  // ----- Order -----

  /** JavaScript's `<` on strings. */
  predicate Less(a: string, b: string) {
    if b == [] then false
    else if a == [] then true
    else a[0] < b[0] || (a[0] == b[0] && Less(a[1..], b[1..]))
  }

  /** The first difference decides, and a proper prefix comes first. */
  ghost predicate FirstDiffersBelow(a: string, b: string, k: nat) {
    k <= |a| && k < |b| && a[..k] == b[..k] && (k == |a| || a[k] < b[k])
  }

  lemma {:induction false} LessMeaning(a: string, b: string)
    ensures Less(a, b) <==> exists k: nat :: FirstDiffersBelow(a, b, k)
    decreases |a|
  {
    if a == [] || b == [] || a[0] != b[0] {
      assert Less(a, b) ==> FirstDiffersBelow(a, b, 0);
      assert forall k: nat :: 0 < k && FirstDiffersBelow(a, b, k) ==> a[..k][0] == b[..k][0];
    } else {
      LessMeaning(a[1..], b[1..]);
      if k: nat :| FirstDiffersBelow(a[1..], b[1..], k) {
        assert a[..k + 1] == [a[0]] + a[1..][..k] && b[..k + 1] == [b[0]] + b[1..][..k];
        assert FirstDiffersBelow(a, b, k + 1);
      }
      if k: nat :| FirstDiffersBelow(a, b, k) {
        assert k > 0;
        assert a[1..][..k - 1] == a[..k][1..] && b[1..][..k - 1] == b[..k][1..];
        assert FirstDiffersBelow(a[1..], b[1..], k - 1);
      }
    }
  }

  lemma {:induction false} LessTotal(a: string, b: string)
    ensures Less(a, b) || a == b || Less(b, a)
    ensures !(Less(a, b) && Less(b, a))
    ensures a == b ==> !Less(a, b)
    decreases |a|
  {
    if a != [] && b != [] && a[0] == b[0] {
      LessTotal(a[1..], b[1..]);
      assert a == [a[0]] + a[1..] && b == [b[0]] + b[1..];
    }
  }

  lemma {:induction false} LessTransitive(a: string, b: string, c: string)
    requires Less(a, b) && Less(b, c)
    ensures Less(a, c)
    decreases |a|
  {
    if a != [] && a[0] == b[0] == c[0] {
      LessTransitive(a[1..], b[1..], c[1..]);
    }
  }

  // ----- Splitting -----

  /** `s.split(sep)`. */
  function Split(s: string, sep: char): (parts: seq<string>)
    ensures parts != []
    decreases |s|
  {
    if s == [] then [[]]
    else if s[0] == sep then [[]] + Split(s[1..], sep)
    else
      var rest := Split(s[1..], sep);
      [[s[0]] + rest[0]] + rest[1..]
  }

  function Join(parts: seq<string>, sep: char): string
    requires parts != []
  {
    if |parts| == 1 then parts[0] else parts[0] + [sep] + Join(parts[1..], sep)
  }

  lemma {:induction false} JoinSplit(s: string, sep: char)
    ensures Join(Split(s, sep), sep) == s
    decreases |s|
  {
    if s != [] {
      JoinSplit(s[1..], sep);
      var rest := Split(s[1..], sep);
      if s[0] == sep {
        assert ([[]] + rest)[1..] == rest;
      } else {
        assert ([[s[0]] + rest[0]] + rest[1..])[1..] == rest[1..];
      }
    }
  }

  ghost predicate AllFree(parts: seq<string>, sep: char) {
    forall i :: 0 <= i < |parts| ==> sep !in parts[i]
  }

  lemma {:induction false} SplitIsFree(s: string, sep: char)
    ensures AllFree(Split(s, sep), sep)
    decreases |s|
  {
    if s != [] {
      SplitIsFree(s[1..], sep);
    }
  }

  lemma JoinCons(first: string, later: seq<string>, sep: char)
    ensures Join([first] + later, sep) == first + if later == [] then [] else [sep] + Join(later, sep)
  {
    if later != [] {
      assert ([first] + later)[1..] == later;
      assert first + [sep] + Join(later, sep) == first + ([sep] + Join(later, sep));
    }
  }

  lemma SplitCons(c: char, s: string, sep: char)
    ensures Split([c] + s, sep)
            == if c == sep then [[]] + Split(s, sep) else [[c] + Split(s, sep)[0]] + Split(s, sep)[1..]
  {
    assert ([c] + s)[1..] == s;
  }

  lemma {:induction false} SplitOfJoin(first: string, later: seq<string>, sep: char)
    requires sep !in first && AllFree(later, sep)
    ensures Split(Join([first] + later, sep), sep) == [first] + later
    decreases |later|, |first|
  {
    JoinCons(first, later, sep);
    if first != [] {
      SplitOfJoin(first[1..], later, sep);
      JoinCons(first[1..], later, sep);
      var s := Join([first[1..]] + later, sep);
      assert Join([first] + later, sep) == [first[0]] + s;
      SplitCons(first[0], s, sep);
      assert ([first[1..]] + later)[1..] == later;
      assert first == [first[0]] + first[1..];
    } else if later != [] {
      SplitOfJoin(later[0], later[1..], sep);
      assert later == [later[0]] + later[1..];
      SplitCons(sep, Join(later, sep), sep);
    }
  }

  /** `Split` gives the only parts without separators that join to the string. */
  lemma SplitMeaning(s: string, sep: char, parts: seq<string>)
    ensures parts == Split(s, sep) <==> parts != [] && AllFree(parts, sep) && Join(parts, sep) == s
  {
    SplitIsFree(s, sep);
    JoinSplit(s, sep);
    if parts != [] && AllFree(parts, sep) {
      SplitOfJoin(parts[0], parts[1..], sep);
      assert parts == [parts[0]] + parts[1..];
    }
  }

  lemma {:induction false} SplitWhole(s: string, sep: char)
    requires sep !in s
    ensures Split(s, sep) == [s]
    decreases |s|
  {
    if s != [] {
      SplitWhole(s[1..], sep);
      assert s == [s[0]] + s[1..];
    }
  }

  /** The parts determine the string. */
  lemma SplitInjective(a: string, b: string, sep: char)
    requires Split(a, sep) == Split(b, sep)
    ensures a == b
  {
    JoinSplit(a, sep);
    JoinSplit(b, sep);
  }

  // ----- Numerals -----

  predicate IsDigit(c: char) {
    '0' <= c <= '9'
  }

  /** `/^\d+$/`. */
  predicate IsNumeral(s: string) {
    s != [] && forall i :: 0 <= i < |s| ==> IsDigit(s[i])
  }

  function Digit(c: char): nat {
    if IsDigit(c) then c as int - '0' as int else 0
  }

  /** `BigInt(s)` of a numeral. */
  function Value(s: string): nat {
    if s == [] then 0 else 10 * Value(s[..|s| - 1]) + Digit(s[|s| - 1])
  }

  /** A numeral without leading zeros. */
  predicate IsCanonical(s: string) {
    IsNumeral(s) && (|s| > 1 ==> s[0] != '0')
  }

  function Decimal(n: nat): string {
    if n < 10 then [('0' as int + n) as char] else Decimal(n / 10) + [('0' as int + n % 10) as char]
  }

  lemma {:induction false} DecimalIsCanonical(n: nat)
    ensures IsCanonical(Decimal(n)) && Value(Decimal(n)) == n
    ensures n > 0 ==> Decimal(n)[0] != '0'
  {
    if n >= 10 {
      var d := Decimal(n);
      DecimalIsCanonical(n / 10);
      assert d[..|d| - 1] == Decimal(n / 10);
    } else {
      assert Decimal(n)[..0] == [];
    }
  }

  lemma {:induction false} CanonicalPositive(s: string)
    requires IsNumeral(s) && s[0] != '0'
    ensures Value(s) > 0
  {
    if |s| > 1 {
      CanonicalPositive(s[..|s| - 1]);
    }
  }

  /** Canonical numerals are the decimal representations: distinct numerals, distinct values. */
  lemma {:induction false} CanonicalIsDecimal(s: string)
    requires IsCanonical(s)
    ensures s == Decimal(Value(s))
  {
    var n := |s| - 1;
    var d := Digit(s[n]);
    if n > 0 {
      CanonicalIsDecimal(s[..n]);
      CanonicalPositive(s[..n]);
      assert Value(s) / 10 == Value(s[..n]) && Value(s) % 10 == d;
      assert s == s[..n] + [s[n]];
    } else {
      assert s == [s[0]];
    }
  }
}
