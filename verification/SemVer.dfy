/** The version order of the release script: its comparator against section 11 of Semantic
    Versioning 2.0.0. */
module SemVer {
  import opened Wrappers
  import opened Text

  datatype Version = Version(major: nat, minor: nat, patch: nat, pre: Option<string>)

  // ----- Precedence, as section 11 defines it -----

  /** 11.4.1 to 11.4.3: numbers by value, texts in ASCII order, numbers below texts. */
  predicate IdPrecedes(x: string, y: string) {
    if IsNumeral(x) && IsNumeral(y) then Value(x) < Value(y)
    else if IsNumeral(x) || IsNumeral(y) then IsNumeral(x)
    else Less(x, y)
  }

  predicate DiffersAt(xs: seq<string>, ys: seq<string>, k: nat) {
    && k <= |xs| && k <= |ys| && (forall i :: 0 <= i < k ==> xs[i] == ys[i])
    && (k < |xs| || k < |ys|)
    && (k < |xs| && k < |ys| ==> xs[k] != ys[k])
  }

  /** 11.4 and 11.4.4: the first difference decides; a list that ends there comes first. */
  ghost predicate PrePrecedes(xs: seq<string>, ys: seq<string>) {
    exists k: nat :: DiffersAt(xs, ys, k)
                     && (k == |xs| || (k < |ys| && IdPrecedes(xs[k], ys[k])))
  }

  /** 11.2 and 11.3: the core by its numbers, and a pre-release before its release. */
  ghost predicate Precedes(a: Version, b: Version) {
    || a.major < b.major
    || (a.major == b.major && a.minor < b.minor)
    || (a.major == b.major && a.minor == b.minor && a.patch < b.patch)
    || (a.major == b.major && a.minor == b.minor && a.patch == b.patch && a.pre.Some?
        && (b.pre.None? || PrePrecedes(Split(a.pre.value, '.'), Split(b.pre.value, '.'))))
  }

  // ----- The script's comparator -----

  /** One round of the loop in `comparePre` when both lists reach index `i`. */
  function CompareId(x: string, y: string): int {
    if IsNumeral(x) && IsNumeral(y) then
      if x != y then (if Value(x) > Value(y) then 1 else -1) else 0
    else if IsNumeral(x) != IsNumeral(y) then
      if IsNumeral(x) then -1 else 1
    else if Less(x, y) then -1
    else if Less(y, x) then 1
    else 0
  }

  function CompareFrom(xs: seq<string>, ys: seq<string>, i: nat): int
    decreases |xs| + |ys| - i
  {
    if i >= |xs| && i >= |ys| then 0
    else if i >= |xs| then -1
    else if i >= |ys| then 1
    else if CompareId(xs[i], ys[i]) != 0 then CompareId(xs[i], ys[i])
    else CompareFrom(xs, ys, i + 1)
  }

  method ComparePre(a: string, b: string) returns (r: int)
    ensures r == CompareFrom(Split(a, '.'), Split(b, '.'), 0)
  {
    var ap, bp := Split(a, '.'), Split(b, '.');
    var len := if |ap| < |bp| then |bp| else |ap|;
    for i := 0 to len
      invariant CompareFrom(ap, bp, 0) == CompareFrom(ap, bp, i)
    {
      if i >= |ap| { return -1; }
      if i >= |bp| { return 1; }
      var ai, bi := ap[i], bp[i];
      var an, bn := IsNumeral(ai), IsNumeral(bi);
      if an && bn {
        if ai != bi { return if Value(ai) > Value(bi) then 1 else -1; }
      } else if an != bn {
        return if an then -1 else 1;
      } else {
        if Less(ai, bi) { return -1; }
        if Less(bi, ai) { return 1; }
      }
    }
    return 0;
  }

  function Compare(a: Version, b: Version): int {
    if a.major != b.major then (if a.major > b.major then 1 else -1)
    else if a.minor != b.minor then (if a.minor > b.minor then 1 else -1)
    else if a.patch != b.patch then (if a.patch > b.patch then 1 else -1)
    else if a.pre.None? && b.pre.None? then 0
    else if a.pre.None? then 1
    else if b.pre.None? then -1
    else CompareFrom(Split(a.pre.value, '.'), Split(b.pre.value, '.'), 0)
  }

  method Cmp(pa: Version, pb: Version) returns (r: int)
    ensures r == Compare(pa, pb)
  {
    if pa.major != pb.major { return if pa.major > pb.major then 1 else -1; }
    if pa.minor != pb.minor { return if pa.minor > pb.minor then 1 else -1; }
    if pa.patch != pb.patch { return if pa.patch > pb.patch then 1 else -1; }
    if pa.pre == None && pb.pre == None { return 0; }
    if pa.pre == None { return 1; }
    if pb.pre == None { return -1; }
    r := ComparePre(pa.pre.value, pb.pre.value);
  }

  // ----- One identifier -----

  /** What the parser lets through (section 9). */
  predicate NoLeadingZero(id: string) {
    IsNumeral(id) ==> IsCanonical(id)
  }

  predicate AllClean(ids: seq<string>) {
    forall i :: 0 <= i < |ids| ==> NoLeadingZero(ids[i])
  }

  predicate Clean(v: Version) {
    v.pre.Some? ==> AllClean(Split(v.pre.value, '.'))
  }

  /** The comparator takes two spellings of one number for different numbers. */
  predicate SameNumber(x: string, y: string) {
    x != y && IsNumeral(x) && IsNumeral(y) && Value(x) == Value(y)
  }

  lemma CleanNumbersDiffer(x: string, y: string)
    requires NoLeadingZero(x) && NoLeadingZero(y)
    ensures !SameNumber(x, y)
  {
    if IsNumeral(x) && IsNumeral(y) {
      CanonicalIsDecimal(x);
      CanonicalIsDecimal(y);
    }
  }

  lemma CompareIdMeaning(x: string, y: string)
    ensures CompareId(x, y) in {-1, 0, 1}
    ensures CompareId(x, y) == 0 <==> x == y
    ensures !SameNumber(x, y) ==> (CompareId(x, y) == -1 <==> IdPrecedes(x, y))
    ensures !SameNumber(x, y) ==> (CompareId(x, y) == 1 <==> IdPrecedes(y, x))
    ensures SameNumber(x, y) ==> CompareId(x, y) == -1 == CompareId(y, x)
  {
    LessTotal(x, y);
  }

  lemma IdPrecedesTransitive(x: string, y: string, z: string)
    requires IdPrecedes(x, y) && IdPrecedes(y, z)
    ensures IdPrecedes(x, z)
  {
    if !IsNumeral(x) && !IsNumeral(y) && !IsNumeral(z) {
      LessTransitive(x, y, z);
    }
  }

  // ----- Identifier lists -----

  /** The loop returns 0 on equal lists and otherwise decides at the first difference. */
  lemma {:induction false} CompareFromMeaning(xs: seq<string>, ys: seq<string>, i: nat)
    requires i <= |xs| && i <= |ys| && (forall j :: 0 <= j < i ==> xs[j] == ys[j])
    ensures CompareFrom(xs, ys, i) == 0 ==> xs == ys
    ensures CompareFrom(xs, ys, i) != 0 ==>
              exists k: nat :: DiffersAt(xs, ys, k)
                               && CompareFrom(xs, ys, i) == if k == |xs| then -1
                                                            else if k == |ys| then 1
                                                            else CompareId(xs[k], ys[k])
    decreases |xs| - i
  {
    if i == |xs| || i == |ys| {
      if i < |xs| || i < |ys| {
        assert DiffersAt(xs, ys, i);
      }
    } else {
      CompareIdMeaning(xs[i], ys[i]);
      if xs[i] == ys[i] {
        CompareFromMeaning(xs, ys, i + 1);
      } else {
        assert DiffersAt(xs, ys, i);
      }
    }
  }

  ghost predicate Clash(xs: seq<string>, ys: seq<string>) {
    exists k: nat :: DiffersAt(xs, ys, k) && k < |xs| && k < |ys| && SameNumber(xs[k], ys[k])
  }

  lemma OnlyDifferenceDecides(xs: seq<string>, ys: seq<string>, k: nat)
    requires DiffersAt(xs, ys, k)
    ensures PrePrecedes(xs, ys) <==> k == |xs| || (k < |ys| && IdPrecedes(xs[k], ys[k]))
  {
    assert forall j: nat :: DiffersAt(xs, ys, j) ==> j == k;
  }

  /** Unless the first difference is two spellings of a number, `comparePre` is section 11.4. */
  lemma ComparePreMeaning(xs: seq<string>, ys: seq<string>)
    requires !Clash(xs, ys)
    ensures var r := CompareFrom(xs, ys, 0);
            && (r == 0 <==> xs == ys)
            && (r == -1 <==> PrePrecedes(xs, ys))
            && (r == 1 <==> PrePrecedes(ys, xs))
            && r in {-1, 0, 1}
  {
    var r := CompareFrom(xs, ys, 0);
    CompareFromMeaning(xs, ys, 0);
    if r == 0 {
      assert forall k: nat :: !DiffersAt(xs, ys, k);
    } else {
      var k: nat :| DiffersAt(xs, ys, k)
                    && r == if k == |xs| then -1 else if k == |ys| then 1 else CompareId(xs[k], ys[k]);
      assert DiffersAt(ys, xs, k);
      if k < |xs| && k < |ys| {
        CompareIdMeaning(xs[k], ys[k]);
      }
      OnlyDifferenceDecides(xs, ys, k);
      OnlyDifferenceDecides(ys, xs, k);
    }
  }

  lemma DecidedAt(xs: seq<string>, ys: seq<string>, k: nat)
    requires DiffersAt(xs, ys, k) && k < |xs| && k < |ys|
    ensures CompareFrom(xs, ys, 0) == CompareId(xs[k], ys[k])
  {
    CompareIdMeaning(xs[k], ys[k]);
    CompareFromMeaning(xs, ys, 0);
    assert xs != ys;
    var j: nat :| DiffersAt(xs, ys, j)
                  && CompareFrom(xs, ys, 0) == if j == |xs| then -1
                                               else if j == |ys| then 1
                                               else CompareId(xs[j], ys[j]);
    assert j == k;
  }

  /** Two spellings of one number make the comparator contradict itself, and nothing else does. */
  lemma AntisymmetricUnlessClash(xs: seq<string>, ys: seq<string>)
    ensures CompareFrom(xs, ys, 0) == -CompareFrom(ys, xs, 0) <==> !Clash(xs, ys)
  {
    if Clash(xs, ys) {
      var k: nat :| DiffersAt(xs, ys, k) && k < |xs| && k < |ys| && SameNumber(xs[k], ys[k]);
      DecidedAt(xs, ys, k);
      DecidedAt(ys, xs, k);
      CompareIdMeaning(xs[k], ys[k]);
    } else {
      assert !Clash(ys, xs) by {
        assert forall k: nat :: DiffersAt(ys, xs, k) ==> DiffersAt(xs, ys, k);
      }
      ComparePreMeaning(xs, ys);
      ComparePreMeaning(ys, xs);
    }
  }

  lemma CleanDoesNotClash(xs: seq<string>, ys: seq<string>)
    requires AllClean(xs) && AllClean(ys)
    ensures !Clash(xs, ys)
  {
    forall k: nat | k < |xs| && k < |ys| ensures !SameNumber(xs[k], ys[k]) {
      CleanNumbersDiffer(xs[k], ys[k]);
    }
  }

  lemma IdPrecedesIrreflexive(x: string)
    ensures !IdPrecedes(x, x)
  {
    LessTotal(x, x);
  }

  lemma PrePrecedesTransitive(xs: seq<string>, ys: seq<string>, zs: seq<string>)
    requires PrePrecedes(xs, ys) && PrePrecedes(ys, zs)
    ensures PrePrecedes(xs, zs)
  {
    var j: nat :| DiffersAt(xs, ys, j) && (j == |xs| || (j < |ys| && IdPrecedes(xs[j], ys[j])));
    var k: nat :| DiffersAt(ys, zs, k) && (k == |ys| || (k < |zs| && IdPrecedes(ys[k], zs[k])));
    if j == k && j < |xs| {
      IdPrecedesTransitive(xs[j], ys[j], zs[j]);
      IdPrecedesIrreflexive(xs[j]);
      assert DiffersAt(xs, zs, j);
    } else {
      assert DiffersAt(xs, zs, if j < k then j else k);
    }
  }

  // ----- Main results -----

  /** On versions the parser accepts, the script's comparator is the precedence of section 11. */
  lemma CompareIsPrecedence(a: Version, b: Version)
    requires Clean(a) && Clean(b)
    ensures Compare(a, b) == -1 <==> Precedes(a, b)
    ensures Compare(a, b) == 1 <==> Precedes(b, a)
    ensures Compare(a, b) == 0 <==> a == b
    ensures Compare(a, b) in {-1, 0, 1}
  {
    if a.pre.Some? && b.pre.Some? {
      var xs, ys := Split(a.pre.value, '.'), Split(b.pre.value, '.');
      CleanDoesNotClash(xs, ys);
      ComparePreMeaning(xs, ys);
      if xs == ys {
        SplitInjective(a.pre.value, b.pre.value, '.');
      }
    }
  }

  lemma PrecedesTransitive(a: Version, b: Version, c: Version)
    requires Precedes(a, b) && Precedes(b, c)
    ensures Precedes(a, c)
  {
    if a.pre.Some? && b.pre.Some? && c.pre.Some? {
      var xs, ys, zs := Split(a.pre.value, '.'), Split(b.pre.value, '.'), Split(c.pre.value, '.');
      if PrePrecedes(xs, ys) && PrePrecedes(ys, zs) {
        PrePrecedesTransitive(xs, ys, zs);
      }
    }
  }

  /** It is a strict total order on them. */
  lemma CompareIsTotalOrder(a: Version, b: Version, c: Version)
    requires Clean(a) && Clean(b) && Clean(c)
    ensures Compare(a, b) == -Compare(b, a)
    ensures Compare(a, b) < 0 && Compare(b, c) < 0 ==> Compare(a, c) < 0
  {
    CompareIsPrecedence(a, b);
    CompareIsPrecedence(b, a);
    CompareIsPrecedence(b, c);
    CompareIsPrecedence(a, c);
    if Precedes(a, b) && Precedes(b, c) {
      PrecedesTransitive(a, b, c);
    }
  }

  /** Without the check for leading zeros it would not even be antisymmetric. */
  lemma LeadingZeroBreaksOrder() returns (a: Version, b: Version)
    ensures !Clean(b) && a != b
    ensures Compare(a, b) == -1 == Compare(b, a)
  {
    a, b := Version(1, 0, 0, Some("1")), Version(1, 0, 0, Some("01"));
    SplitWhole("1", '.');
    SplitWhole("01", '.');
    assert "1"[..0] == "" && "01"[..1] == "0" && "0"[..0] == "";
    assert Value("1") == 1 && Value("0") == 0 && Value("01") == 1;
    assert IsNumeral("1") && IsNumeral("01");
    assert !NoLeadingZero(Split(b.pre.value, '.')[0]);
  }
}
