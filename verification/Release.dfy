/** The release script: validating a version, bumping it, and the guard. */
module Release {
  import opened Wrappers
  import opened Text
  import opened SemVer

  // ----- The shape both regular expressions start from -----

  /** `D.D.D` with non-empty digit strings, then nothing or `-` and a non-empty rest. */
  datatype Raw = Raw(major: string, minor: string, patch: string, pre: Option<string>)

  predicate Shape(r: Raw) {
    && IsNumeral(r.major) && IsNumeral(r.minor) && IsNumeral(r.patch)
    && (r.pre.Some? ==> r.pre.value != "")
  }

  function Tail(pre: Option<string>): string {
    if pre.Some? then "-" + pre.value else ""
  }

  function Render(r: Raw): string {
    r.major + ("." + (r.minor + ("." + (r.patch + Tail(r.pre)))))
  }

  function DigitsLength(s: string): (n: nat)
    ensures n <= |s|
    ensures forall i :: 0 <= i < n ==> IsDigit(s[i])
    ensures n < |s| ==> !IsDigit(s[n])
  {
    if s == "" || !IsDigit(s[0]) then 0 else 1 + DigitsLength(s[1..])
  }

  /** A numeral and what follows it. */
  function Numeral(s: string): Option<(string, string)> {
    var n := DigitsLength(s);
    if n == 0 then None else Some((s[..n], s[n..]))
  }

  /** A numeral, a dot, and what follows. */
  function NumeralDot(s: string): Option<(string, string)> {
    match Numeral(s)
    case Some((d, rest)) => if rest != "" && rest[0] == '.' then Some((d, rest[1..])) else None
    case None => None
  }

  /** The patch number and the optional pre-release part. */
  function PatchTail(s: string): Option<(string, Option<string>)> {
    match Numeral(s)
    case None => None
    case Some((patch, rest)) =>
      if rest == "" then Some((patch, None))
      else if rest[0] == '-' && |rest| > 1 then Some((patch, Some(rest[1..])))
      else None
  }

  function Scan(v: string): Option<Raw> {
    match NumeralDot(v)
    case None => None
    case Some((major, v1)) =>
      match NumeralDot(v1)
      case None => None
      case Some((minor, v2)) =>
        match PatchTail(v2)
        case None => None
        case Some((patch, pre)) => Some(Raw(major, minor, patch, pre))
  }

  lemma {:induction false} DigitsLengthOf(d: string, rest: string)
    requires forall i :: 0 <= i < |d| ==> IsDigit(d[i])
    requires rest != "" ==> !IsDigit(rest[0])
    ensures DigitsLength(d + rest) == |d|
    decreases |d|
  {
    if d == "" {
      assert d + rest == rest;
    } else {
      DigitsLengthOf(d[1..], rest);
      assert (d + rest)[1..] == d[1..] + rest;
    }
  }

  lemma NumeralOf(d: string, rest: string)
    requires IsNumeral(d) && (rest != "" ==> !IsDigit(rest[0]))
    ensures Numeral(d + rest) == Some((d, rest))
  {
    DigitsLengthOf(d, rest);
    assert (d + rest)[..|d|] == d && (d + rest)[|d|..] == rest;
  }

  lemma NumeralDotOf(d: string, rest: string)
    requires IsNumeral(d)
    ensures NumeralDot(d + ("." + rest)) == Some((d, rest))
  {
    NumeralOf(d, "." + rest);
    assert ("." + rest)[1..] == rest;
  }

  lemma PatchTailOf(d: string, pre: Option<string>)
    requires IsNumeral(d) && (pre.Some? ==> pre.value != "")
    ensures PatchTail(d + Tail(pre)) == Some((d, pre))
  {
    NumeralOf(d, Tail(pre));
    assert pre.Some? ==> Tail(pre)[1..] == pre.value;
  }

  /** A string has at most one reading, and scanning finds it. */
  lemma ScanRender(r: Raw)
    requires Shape(r)
    ensures Scan(Render(r)) == Some(r)
  {
    NumeralDotOf(r.major, r.minor + ("." + (r.patch + Tail(r.pre))));
    NumeralDotOf(r.minor, r.patch + Tail(r.pre));
    PatchTailOf(r.patch, r.pre);
  }

  lemma NumeralSound(s: string)
    requires Numeral(s).Some?
    ensures IsNumeral(Numeral(s).value.0) && s == Numeral(s).value.0 + Numeral(s).value.1
  {
  }

  lemma NumeralDotSound(s: string)
    requires NumeralDot(s).Some?
    ensures var (d, rest) := NumeralDot(s).value; IsNumeral(d) && s == d + ("." + rest)
  {
    NumeralSound(s);
    var rest := Numeral(s).value.1;
    assert rest == "." + rest[1..];
  }

  lemma PatchTailSound(s: string)
    requires PatchTail(s).Some?
    ensures var (d, pre) := PatchTail(s).value;
            IsNumeral(d) && (pre.Some? ==> pre.value != "") && s == d + Tail(pre)
  {
    NumeralSound(s);
    var rest := Numeral(s).value.1;
    assert rest != "" && rest[0] == '-' ==> rest == "-" + rest[1..];
  }

  lemma ScanSound(v: string)
    requires Scan(v).Some?
    ensures Shape(Scan(v).value) && Render(Scan(v).value) == v
  {
    NumeralDotSound(v);
    var v1 := NumeralDot(v).value.1;
    NumeralDotSound(v1);
    PatchTailSound(NumeralDot(v1).value.1);
  }

  // ----- validate_semver -----

  predicate IsAlnum(c: char) {
    IsDigit(c) || 'A' <= c <= 'Z' || 'a' <= c <= 'z'
  }

  /** `[0-9A-Za-z][0-9A-Za-z-]*`. */
  predicate IsIdentifier(id: string) {
    id != "" && IsAlnum(id[0]) && forall i :: 0 <= i < |id| ==> IsAlnum(id[i]) || id[i] == '-'
  }

  /** `SEMVER_RE`. */
  predicate MatchesSemver(v: string) {
    match Scan(v)
    case None => false
    case Some(r) =>
      && IsCanonical(r.major) && IsCanonical(r.minor) && IsCanonical(r.patch)
      && (r.pre.Some? ==>
            var ids := Split(r.pre.value, '.');
            forall i :: 0 <= i < |ids| ==> IsIdentifier(ids[i]))
  }

  /** `^0[0-9]+$`. */
  predicate HasLeadingZero(id: string) {
    IsNumeral(id) && |id| > 1 && id[0] == '0'
  }

  /** A shell function either ends the script with `die` or returns a status. */
  datatype Status = Dies | Returns(code: nat)

  /** The status of the function is that of its last command. For a version with a pre-release
      part that is the last `[[ ... ]] && die`, whose test has failed: status 1. */
  function ValidateStatus(v: string): Status {
    if !MatchesSemver(v) then Dies
    else if Scan(v).value.pre.None? then Returns(0)
    else
      var ids := Split(Scan(v).value.pre.value, '.');
      if exists i :: 0 <= i < |ids| && HasLeadingZero(ids[i]) then Dies else Returns(1)
  }

  method ValidateSemver(v: string) returns (status: Status)
    ensures status == ValidateStatus(v)
  {
    if !MatchesSemver(v) {
      return Dies;
    }
    status := Returns(0);
    var pre := Scan(v).value.pre;
    if pre.Some? {
      var ids := Split(pre.value, '.');
      for i := 0 to |ids|
        invariant forall j :: 0 <= j < i ==> !HasLeadingZero(ids[j])
        invariant 0 < i ==> status == Returns(1)
      {
        if HasLeadingZero(ids[i]) {
          return Dies;
        }
        status := Returns(1);
      }
    }
  }

  /** What validation is meant to accept. */
  predicate IsValid(v: string) {
    ValidateStatus(v) != Dies
  }

  // ----- parse -----

  datatype ParseResult = Parsed(version: Version) | NoMatch | LeadingZero

  predicate IsLineTerminator(c: char) {
    c == '\n' || c == '\r' || c == 0x2028 as char || c == 0x2029 as char
  }

  /** The script's `parse`; the two failures exit with different codes. */
  function Parse(v: string): ParseResult {
    match Scan(v)
    case None => NoMatch
    case Some(r) =>
      if r.pre.Some? && exists i :: 0 <= i < |r.pre.value| && IsLineTerminator(r.pre.value[i]) then NoMatch
      else if r.pre.Some? && !AllClean(Split(r.pre.value, '.')) then LeadingZero
      else Parsed(Version(Value(r.major), Value(r.minor), Value(r.patch), r.pre))
  }

  lemma ParsedIsClean(v: string)
    requires Parse(v).Parsed?
    ensures Clean(Parse(v).version)
  {
  }

  function VersionOf(v: string): Version {
    match Parse(v) case Parsed(version) => version case _ => Version(0, 0, 0, None)
  }

  /** No character of a joined list comes from anywhere but the separator and the parts. */
  lemma {:induction false} JoinChars(parts: seq<string>, sep: char, c: char)
    requires parts != [] && c in Join(parts, sep)
    ensures c == sep || exists i :: 0 <= i < |parts| && c in parts[i]
    decreases |parts|
  {
    if c in parts[0] {
    } else if |parts| > 1 && c != sep {
      JoinChars(parts[1..], sep, c);
      var i :| 0 <= i < |parts[1..]| && c in parts[1..][i];
      assert c in parts[i + 1];
    }
  }

  lemma IdentifiersHaveNoLineTerminator(pre: string)
    requires var ids := Split(pre, '.'); forall i :: 0 <= i < |ids| ==> IsIdentifier(ids[i])
    ensures forall i :: 0 <= i < |pre| ==> !IsLineTerminator(pre[i])
  {
    var ids := Split(pre, '.');
    JoinSplit(pre, '.');
    forall i | 0 <= i < |pre| ensures !IsLineTerminator(pre[i]) {
      var c := pre[i];
      JoinChars(ids, '.', c);
      if c != '.' {
        var k :| 0 <= k < |ids| && c in ids[k];
        assert IsIdentifier(ids[k]);
      }
    }
  }

  // ----- What the two accept -----

  /** `v` is written as `a.b.c`, or `a.b.c-pre`. */
  ghost predicate Spells(v: string, a: string, b: string, c: string, pre: Option<string>) {
    v == a + ("." + (b + ("." + (c + if pre.Some? then "-" + pre.value else ""))))
  }

  lemma SpellsScan(v: string, a: string, b: string, c: string, pre: Option<string>)
    requires IsNumeral(a) && IsNumeral(b) && IsNumeral(c) && (pre.Some? ==> pre.value != "")
    ensures Spells(v, a, b, c, pre) <==> Scan(v) == Some(Raw(a, b, c, pre))
  {
    var r := Raw(a, b, c, pre);
    assert Spells(v, a, b, c, pre) <==> v == Render(r);
    if v == Render(r) {
      ScanRender(r);
    } else if Scan(v) == Some(r) {
      ScanSound(v);
    }
  }

  predicate IsWordChar(c: char) {
    '0' <= c <= '9' || 'A' <= c <= 'Z' || 'a' <= c <= 'z' || c == '-'
  }

  /** Letters, digits and inner hyphens. */
  predicate IsWord(id: string) {
    id != "" && id[0] != '-' && forall i :: 0 <= i < |id| ==> IsWordChar(id[i])
  }

  lemma WordIsIdentifier(id: string)
    ensures IsWord(id) <==> IsIdentifier(id)
  {
    assert forall c :: IsWordChar(c) <==> IsAlnum(c) || c == '-';
    if IsWord(id) {
      assert IsWordChar(id[0]);
    }
  }

  /** A number as section 2 wants it. */
  predicate IsPlain(d: string) {
    IsNumeral(d) && (d == "0" || d[0] != '0')
  }

  lemma PlainIsCanonical(d: string)
    ensures IsPlain(d) <==> IsCanonical(d)
    ensures IsNumeral(d) && !IsPlain(d) <==> HasLeadingZero(d)
  {
    if IsNumeral(d) && |d| == 1 {
      assert d[0] == '0' <==> d == "0";
    }
  }

  /** An identifier that section 9 allows and that does not begin with a hyphen. */
  predicate GoodId(id: string) {
    IsWord(id) && (IsNumeral(id) ==> IsPlain(id))
  }

  predicate AllGood(ids: seq<string>) {
    forall i :: 0 <= i < |ids| ==> GoodId(ids[i])
  }

  predicate GoodIds(pre: string) {
    AllGood(Split(pre, '.'))
  }

  ghost predicate SpellsStable(v: string) {
    exists a, b, c :: Spells(v, a, b, c, None) && IsPlain(a) && IsPlain(b) && IsPlain(c)
  }

  ghost predicate SpellsPrerelease(v: string) {
    exists a, b, c, pre :: Spells(v, a, b, c, Some(pre)) && IsPlain(a) && IsPlain(b) && IsPlain(c) && GoodIds(pre)
  }

  lemma GoodIdMeaning(id: string)
    ensures GoodId(id) <==> IsIdentifier(id) && !HasLeadingZero(id)
  {
    WordIsIdentifier(id);
    PlainIsCanonical(id);
  }

  lemma AllGoodMeaning(ids: seq<string>)
    ensures AllGood(ids)
            <==> && (forall i :: 0 <= i < |ids| ==> IsIdentifier(ids[i]))
                 && !(exists i :: 0 <= i < |ids| && HasLeadingZero(ids[i]))
  {
    forall i | 0 <= i < |ids| ensures GoodId(ids[i]) <==> IsIdentifier(ids[i]) && !HasLeadingZero(ids[i]) {
      GoodIdMeaning(ids[i]);
    }
  }

  lemma EmptyIsNotGood()
    ensures !GoodIds("")
  {
    assert !IsWord(Split("", '.')[0]);
  }

  lemma SpelledStatus(v: string, a: string, b: string, c: string, pre: Option<string>)
    requires Spells(v, a, b, c, pre) && IsPlain(a) && IsPlain(b) && IsPlain(c)
    requires pre.Some? ==> GoodIds(pre.value)
    ensures ValidateStatus(v) == Returns(if pre.Some? then 1 else 0)
  {
    PlainIsCanonical(a);
    PlainIsCanonical(b);
    PlainIsCanonical(c);
    if pre.Some? {
      EmptyIsNotGood();
      AllGoodMeaning(Split(pre.value, '.'));
    }
    SpellsScan(v, a, b, c, pre);
  }

  lemma StatusParts(v: string)
    requires ValidateStatus(v) != Dies
    ensures Scan(v).Some?
    ensures var r := Scan(v).value;
            && IsPlain(r.major) && IsPlain(r.minor) && IsPlain(r.patch)
            && (r.pre.Some? ==> GoodIds(r.pre.value))
            && ValidateStatus(v) == Returns(if r.pre.Some? then 1 else 0)
  {
    var r := Scan(v).value;
    PlainIsCanonical(r.major);
    PlainIsCanonical(r.minor);
    PlainIsCanonical(r.patch);
    if r.pre.Some? {
      AllGoodMeaning(Split(r.pre.value, '.'));
    }
  }

  lemma ScanSpells(v: string)
    requires Scan(v).Some?
    ensures var r := Scan(v).value; Spells(v, r.major, r.minor, r.patch, r.pre)
  {
    ScanSound(v);
  }

  lemma StatusSpelled(v: string)
    requires ValidateStatus(v) != Dies
    ensures ValidateStatus(v) in {Returns(0), Returns(1)}
    ensures if ValidateStatus(v) == Returns(0) then SpellsStable(v) else SpellsPrerelease(v)
  {
    StatusParts(v);
    ScanSpells(v);
  }

  lemma StableStatus(v: string)
    requires SpellsStable(v)
    ensures ValidateStatus(v) == Returns(0)
  {
    var a, b, c :| Spells(v, a, b, c, None) && IsPlain(a) && IsPlain(b) && IsPlain(c);
    SpelledStatus(v, a, b, c, None);
  }

  lemma PrereleaseStatus(v: string)
    requires SpellsPrerelease(v)
    ensures ValidateStatus(v) == Returns(1)
  {
    var a, b, c, pre :| Spells(v, a, b, c, Some(pre)) && IsPlain(a) && IsPlain(b) && IsPlain(c) && GoodIds(pre);
    SpelledStatus(v, a, b, c, Some(pre));
  }

  /** The function returns 0 exactly for the stable versions and 1 exactly for those with a
      pre-release part; it dies on everything else. */
  lemma ValidMeaning(v: string)
    ensures ValidateStatus(v) == if SpellsStable(v) then Returns(0)
                                 else if SpellsPrerelease(v) then Returns(1)
                                 else Dies
    ensures !(SpellsStable(v) && SpellsPrerelease(v))
  {
    if SpellsStable(v) {
      StableStatus(v);
    }
    if SpellsPrerelease(v) {
      PrereleaseStatus(v);
    }
    if ValidateStatus(v) != Dies {
      StatusSpelled(v);
    }
  }

  /** A pre-release part the parser's expression matches. */
  predicate OneLine(pre: Option<string>) {
    pre.Some? ==> pre.value != "" && forall c :: c in pre.value ==> c !in {'\n', '\r', 0x2028 as char, 0x2029 as char}
  }

  ghost predicate SpellsNumbers(v: string, a: string, b: string, c: string, pre: Option<string>) {
    Spells(v, a, b, c, pre) && IsNumeral(a) && IsNumeral(b) && IsNumeral(c) && OneLine(pre)
  }

  /** The parser reads the numbers and the rest off `a.b.c` and `a.b.c-pre`, leading zeros in the
      numbers included; in the identifiers they are an error, and everything else is another. */
  lemma ParseMeaning(v: string)
    ensures Parse(v).NoMatch? <==> forall a, b, c, pre :: !SpellsNumbers(v, a, b, c, pre)
    ensures forall a, b, c, pre :: SpellsNumbers(v, a, b, c, pre) ==>
              Parse(v) == if Clean(Version(0, 0, 0, pre)) then Parsed(Version(Value(a), Value(b), Value(c), pre))
                          else LeadingZero
  {
    forall a, b, c, pre | SpellsNumbers(v, a, b, c, pre)
      ensures Parse(v) == if Clean(Version(0, 0, 0, pre)) then Parsed(Version(Value(a), Value(b), Value(c), pre))
                          else LeadingZero
    {
      SpellsScan(v, a, b, c, pre);
      if pre.Some? && exists i :: 0 <= i < |pre.value| && IsLineTerminator(pre.value[i]) {
        var i :| 0 <= i < |pre.value| && IsLineTerminator(pre.value[i]);
        assert pre.value[i] in pre.value;
      }
    }
    if !Parse(v).NoMatch? {
      var r := Scan(v).value;
      ScanSound(v);
      SpellsScan(v, r.major, r.minor, r.patch, r.pre);
      assert SpellsNumbers(v, r.major, r.minor, r.patch, r.pre);
    }
  }

  /** Validation accepts nothing the parser refuses. */
  lemma ValidParses(v: string)
    requires IsValid(v)
    ensures Parse(v).Parsed? && Clean(VersionOf(v))
    ensures VersionOf(v).pre == Scan(v).value.pre
  {
    var r := Scan(v).value;
    if r.pre.Some? {
      IdentifiersHaveNoLineTerminator(r.pre.value);
    }
  }

  /** Distinct valid strings are distinct versions. */
  lemma ValidInjective(v: string, w: string)
    requires IsValid(v) && IsValid(w) && VersionOf(v) == VersionOf(w)
    ensures v == w
  {
    ValidParses(v);
    ValidParses(w);
    var r, q := Scan(v).value, Scan(w).value;
    CanonicalIsDecimal(r.major);
    CanonicalIsDecimal(q.major);
    CanonicalIsDecimal(r.minor);
    CanonicalIsDecimal(q.minor);
    CanonicalIsDecimal(r.patch);
    CanonicalIsDecimal(q.patch);
    ScanSound(v);
    ScanSound(w);
  }

  // ----- The script -----

  predicate IsBump(arg: string) {
    arg == "patch" || arg == "minor" || arg == "major"
  }

  function Bumped(r: Raw, bump: string): Raw {
    if bump == "patch" then Raw(r.major, r.minor, Decimal(Value(r.patch) + 1), None)
    else if bump == "minor" then Raw(r.major, Decimal(Value(r.minor) + 1), "0", None)
    else Raw(Decimal(Value(r.major) + 1), "0", "0", None)
  }

  /** Under `set -e` the script ends when a command fails. `repaired` stands for a script in which
      `validate_semver` returns 0 whenever it does not die, as its comment and the usage text have
      it; the script as it is is not. */
  predicate GoesOn(status: Status, repaired: bool) {
    status.Returns? && (status.code == 0 || repaired)
  }

  /** The Node program of the guard; its failures, too, end the script because of `set -e`. */
  function Guard(next: string, current: string): Option<string> {
    match (Parse(next), Parse(current))
    case (Parsed(n), Parsed(c)) => if Compare(n, c) <= 0 then None else Some(next)
    case _ => None
  }

  /** The version the script goes on to release, if any. */
  function Publish(current: string, arg: string, repaired: bool): Option<string> {
    if !GoesOn(ValidateStatus(current), repaired) then None
    else if IsBump(arg) then
      var r := Scan(current).value;
      if r.pre.Some? then None else Guard(Render(Bumped(r, arg)), current)
    else if !GoesOn(ValidateStatus(arg), repaired) then None
    else Guard(arg, current)
  }

  method Run(current: string, arg: string) returns (released: Option<string>)
    ensures released == Publish(current, arg, false)
  {
    var status := ValidateSemver(current);
    if status != Returns(0) {
      return None;
    }
    var newVersion := arg;
    if IsBump(arg) {
      var base := Scan(current).value;
      if base.pre.Some? {
        return None;
      }
      newVersion := Render(Bumped(base, arg));
    } else {
      status := ValidateSemver(arg);
      if status != Returns(0) {
        return None;
      }
    }
    var nv, cv := Parse(newVersion), Parse(current);
    if !nv.Parsed? || !cv.Parsed? {
      return None;
    }
    var order := Cmp(nv.version, cv.version);
    if order <= 0 {
      return None;
    }
    return Some(newVersion);
  }

  // ----- Main results -----

  /** The guard lets a version pass exactly if the parser accepts both and section 11 ranks it
      above the current one. */
  lemma GuardMeaning(next: string, current: string)
    ensures Guard(next, current) == Some(next)
            <==> Parse(next).Parsed? && Parse(current).Parsed? && Precedes(VersionOf(current), VersionOf(next))
    ensures Guard(next, current) in {None, Some(next)}
  {
    if Parse(next).Parsed? && Parse(current).Parsed? {
      ParsedIsClean(next);
      ParsedIsClean(current);
      CompareIsPrecedence(VersionOf(next), VersionOf(current));
    }
  }

  lemma StableParses(r: Raw)
    requires IsCanonical(r.major) && IsCanonical(r.minor) && IsCanonical(r.patch) && r.pre.None?
    ensures ValidateStatus(Render(r)) == Returns(0)
    ensures Parse(Render(r)) == Parsed(Version(Value(r.major), Value(r.minor), Value(r.patch), None))
  {
    ScanRender(r);
  }

  lemma BumpedIsStable(r: Raw, bump: string)
    requires IsCanonical(r.major) && IsCanonical(r.minor) && IsCanonical(r.patch) && IsBump(bump)
    ensures var b := Bumped(r, bump);
            && IsCanonical(b.major) && IsCanonical(b.minor) && IsCanonical(b.patch) && b.pre.None?
            && Compare(Version(Value(b.major), Value(b.minor), Value(b.patch), None),
                       Version(Value(r.major), Value(r.minor), Value(r.patch), None)) == 1
  {
    if bump == "patch" {
      DecimalIsCanonical(Value(r.patch) + 1);
    } else if bump == "minor" {
      DecimalIsCanonical(Value(r.minor) + 1);
    } else {
      DecimalIsCanonical(Value(r.major) + 1);
    }
  }

  /** Every bump of a stable version is released, and is again a stable version. */
  lemma BumpsAlwaysPass(current: string, bump: string, repaired: bool)
    requires ValidateStatus(current) == Returns(0) && IsBump(bump)
    ensures var next := Render(Bumped(Scan(current).value, bump));
            Publish(current, bump, repaired) == Some(next) && ValidateStatus(next) == Returns(0)
  {
    var r := Scan(current).value;
    BumpedIsStable(r, bump);
    ScanSound(current);
    StableParses(r);
    StableParses(Bumped(r, bump));
  }

  lemma BumpedNumbers(r: Raw, bump: string)
    requires bump in {"patch", "minor", "major"}
    ensures var b := Bumped(r, bump);
            (Value(b.major), Value(b.minor), Value(b.patch))
            == if bump == "patch" then (Value(r.major), Value(r.minor), Value(r.patch) + 1)
               else if bump == "minor" then (Value(r.major), Value(r.minor) + 1, 0)
               else (Value(r.major) + 1, 0, 0)
  {
    DecimalIsCanonical(Value(r.patch) + 1);
    DecimalIsCanonical(Value(r.minor) + 1);
    DecimalIsCanonical(Value(r.major) + 1);
    assert "0"[..0] == "" && Value("0") == 0;
  }

  /** What a bump releases: the next patch, minor or major version of a stable one, and nothing of
      any other. */
  lemma BumpMeaning(current: string, bump: string, repaired: bool)
    requires bump in {"patch", "minor", "major"}
    ensures var v, released := VersionOf(current), Publish(current, bump, repaired);
            if ValidateStatus(current) != Returns(0) then released.None?
            else
              && released.Some? && ValidateStatus(released.value) == Returns(0)
              && VersionOf(released.value)
                 == if bump == "patch" then Version(v.major, v.minor, v.patch + 1, None)
                    else if bump == "minor" then Version(v.major, v.minor + 1, 0, None)
                    else Version(v.major + 1, 0, 0, None)
  {
    if ValidateStatus(current) == Returns(0) {
      var r := Scan(current).value;
      BumpsAlwaysPass(current, bump, repaired);
      BumpedIsStable(r, bump);
      StableParses(Bumped(r, bump));
      BumpedNumbers(r, bump);
      ScanSound(current);
      StableParses(r);
    }
  }

  /** An explicit version is released exactly if it and the current one are valid and it has
      higher precedence; by the script as it is, only if moreover neither has a pre-release part. */
  lemma ExplicitVersion(current: string, arg: string, repaired: bool)
    requires arg !in {"patch", "minor", "major"}
    ensures Publish(current, arg, repaired) == Some(arg)
            <==> && IsValid(current) && IsValid(arg) && Precedes(VersionOf(current), VersionOf(arg))
                 && (repaired || (VersionOf(current).pre.None? && VersionOf(arg).pre.None?))
    ensures Publish(current, arg, repaired) in {None, Some(arg)}
  {
    if IsValid(current) && IsValid(arg) {
      ValidParses(current);
      ValidParses(arg);
      GuardMeaning(arg, current);
    }
  }

  lemma BumpsIncrease(current: string, bump: string, repaired: bool)
    requires IsBump(bump) && Publish(current, bump, repaired).Some?
    ensures var next := Publish(current, bump, repaired).value;
            IsValid(current) && IsValid(next) && Precedes(VersionOf(current), VersionOf(next))
  {
    BumpsAlwaysPass(current, bump, repaired);
    var next := Publish(current, bump, repaired).value;
    ValidParses(current);
    ValidParses(next);
    CompareIsPrecedence(VersionOf(next), VersionOf(current));
  }

  /** Whatever is released is valid and higher than what was there. */
  lemma ReleasesIncrease(current: string, arg: string, repaired: bool)
    requires Publish(current, arg, repaired).Some?
    ensures var next := Publish(current, arg, repaired).value;
            IsValid(current) && IsValid(next) && Precedes(VersionOf(current), VersionOf(next))
  {
    if IsBump(arg) {
      BumpsIncrease(current, arg, repaired);
    } else {
      ExplicitVersion(current, arg, repaired);
    }
  }

  /** The versions a repository goes through, run after run of the script. */
  function History(current: string, args: seq<string>, repaired: bool): (h: seq<string>)
    ensures h != [] && h[0] == current
    decreases |args|
  {
    if args == [] then [current]
    else
      match Publish(current, args[0], repaired)
      case None => History(current, args[1..], repaired)
      case Some(next) => [current] + History(next, args[1..], repaired)
  }

  ghost predicate Above(v: string, w: string) {
    IsValid(v) && IsValid(w) && Precedes(VersionOf(v), VersionOf(w))
  }

  lemma AboveTransitive(u: string, v: string, w: string)
    requires Above(u, v) && Above(v, w)
    ensures Above(u, w)
  {
    PrecedesTransitive(VersionOf(u), VersionOf(v), VersionOf(w));
  }

  ghost predicate Rising(h: seq<string>) {
    forall i :: 0 < i < |h| ==> Above(h[i - 1], h[i])
  }

  /** A transitive relation between neighbours holds between any two. */
  lemma {:induction false} NeighboursToAll<T>(h: seq<T>, rel: (T, T) -> bool, j: nat, k: nat)
    requires forall i :: 0 < i < |h| ==> rel(h[i - 1], h[i])
    requires forall a, b, c :: a in h && b in h && c in h && rel(a, b) && rel(b, c) ==> rel(a, c)
    requires j < k < |h|
    ensures rel(h[j], h[k])
    decreases k
  {
    assert rel(h[k - 1], h[k]);
    if j < k - 1 {
      NeighboursToAll(h, rel, j, k - 1);
    }
  }

  lemma PrependRising(v: string, h: seq<string>)
    requires h != [] && Above(v, h[0]) && Rising(h)
    ensures Rising([v] + h)
  {
    var t := [v] + h;
    forall i | 0 < i < |t| ensures Above(t[i - 1], t[i]) {
      if 1 < i {
        assert Above(h[i - 2], h[i - 1]);
      }
    }
  }

  lemma {:induction false} HistoryRises(current: string, args: seq<string>, repaired: bool)
    ensures Rising(History(current, args, repaired))
    decreases |args|
  {
    if args != [] {
      var released := Publish(current, args[0], repaired);
      if released.None? {
        HistoryRises(current, args[1..], repaired);
      } else {
        ReleasesIncrease(current, args[0], repaired);
        HistoryRises(released.value, args[1..], repaired);
        PrependRising(current, History(released.value, args[1..], repaired));
      }
    }
  }

  /** Every version is valid and has higher precedence than all before it. */
  lemma HistoryIncreases(current: string, args: seq<string>, repaired: bool, j: nat, k: nat)
    requires j < k < |History(current, args, repaired)|
    ensures Above(History(current, args, repaired)[j], History(current, args, repaired)[k])
  {
    var h := History(current, args, repaired);
    HistoryRises(current, args, repaired);
    forall u, v, w | Above(u, v) && Above(v, w) ensures Above(u, w) {
      AboveTransitive(u, v, w);
    }
    NeighboursToAll(h, Above, j, k);
  }

  /** No version is ever released twice. */
  lemma HistoryNeverRepeats(current: string, args: seq<string>, repaired: bool, j: nat, k: nat)
    requires j < k < |History(current, args, repaired)|
    ensures History(current, args, repaired)[j] != History(current, args, repaired)[k]
  {
    var v := VersionOf(History(current, args, repaired)[j]);
    HistoryIncreases(current, args, repaired, j, k);
    ValidParses(History(current, args, repaired)[j]);
    CompareIsPrecedence(v, v);
  }
}
