/**
 * The version manager: version strings parsed as PEP 440 final releases
 * (`N(.N)*`, each component a decimal number), compared component by
 * component with the shorter release padded with zeros, and incremented
 * by major, minor or micro component.
 */
module Versions {
  import opened Wrappers

  /** What `parse_version` and `increment_version` raise. */
  datatype VersionError = InvalidVersion(text: string) | InvalidPart(part: string)

  predicate IsDigit(c: char) {
    '0' <= c <= '9'
  }

  predicate AllDigits(s: string) {
    forall i :: 0 <= i < |s| ==> IsDigit(s[i])
  }

  /** The decimal value of a string of digits; leading zeros are allowed, as PEP 440 allows them. */
  function ParseNat(s: string): nat
    requires AllDigits(s)
  {
    if s == [] then 0 else ParseNat(s[..|s| - 1]) * 10 + (s[|s| - 1] as int - '0' as int)
  }

  function DigitChar(d: nat): char
    requires d < 10
  {
    ('0' as int + d) as char
  }

  /** `str(n)` for a natural number: its decimal digits without leading zeros. */
  function ShowNat(n: nat): (r: string)
    ensures r != [] && AllDigits(r)
  {
    if n < 10 then [DigitChar(n)] else ShowNat(n / 10) + [DigitChar(n % 10)]
  }

  lemma {:induction false} ParseShowNat(n: nat)
    ensures ParseNat(ShowNat(n)) == n
  {
    if n >= 10 {
      var s := ShowNat(n);
      assert s[..|s| - 1] == ShowNat(n / 10);
      ParseShowNat(n / 10);
    }
  }

  /** The position of the first `.`, or None. */
  function DotIndex(s: string): (r: Option<nat>)
    ensures r.None? <==> '.' !in s
    ensures r.Some? ==> r.value < |s| && s[r.value] == '.' && '.' !in s[..r.value]
  {
    if s == [] then None
    else if s[0] == '.' then Some(0)
    else match DotIndex(s[1..])
      case None => None
      case Some(i) =>
        assert s[..i + 1] == [s[0]] + s[1..][..i];
        Some(i + 1)
  }

  /** `version.parse` restricted to final releases: the release components, or None when the text is not one. */
  function ParseRelease(s: string): (r: Option<seq<nat>>)
    ensures r.Some? ==> |r.value| >= 1
    decreases |s|
  {
    match DotIndex(s)
    case None => if s != [] && AllDigits(s) then Some([ParseNat(s)]) else None
    case Some(i) =>
      var head := s[..i];
      if head != [] && AllDigits(head) then
        match ParseRelease(s[i + 1..])
        case None => None
        case Some(rest) => Some([ParseNat(head)] + rest)
      else None
  }

  /**
   * The release grammar written out character by character: digits and
   * dots, neither first nor last a dot, and never two dots in a row.
   */
  predicate WellFormed(s: string) {
    && s != []
    && (forall i :: 0 <= i < |s| ==> IsDigit(s[i]) || s[i] == '.')
    && s[0] != '.' && s[|s| - 1] != '.'
    && (forall i :: 0 <= i < |s| - 1 && s[i] == '.' ==> s[i + 1] != '.')
  }

  /** Without a dot the grammar asks for a non-empty run of digits. */
  lemma WellFormedNoDot(s: string)
    requires '.' !in s
    ensures WellFormed(s) <==> s != [] && AllDigits(s)
  {
    if WellFormed(s) {
      forall i | 0 <= i < |s| ensures IsDigit(s[i]) {
        assert s[i] != '.';
      }
    }
  }

  /** Before the first dot the grammar asks for a non-empty run of digits, after it for a release again. */
  lemma WellFormedSplit(head: string, tail: string)
    requires '.' !in head
    ensures WellFormed(head + "." + tail) <==> head != [] && AllDigits(head) && WellFormed(tail)
  {
    var s := head + "." + tail;
    var i := |head|;
    if WellFormed(s) {
      assert s[0] != '.';
      forall j | 0 <= j < |head| ensures IsDigit(head[j]) {
        assert head[j] == s[j];
        assert head[j] != '.';
      }
      assert s[i] == '.' && i < |s| - 1;
      assert s[i + 1] != '.';
      assert tail != [] && tail[0] == s[i + 1];
      assert tail[|tail| - 1] == s[|s| - 1];
      forall j | 0 <= j < |tail| ensures IsDigit(tail[j]) || tail[j] == '.' {
        assert tail[j] == s[i + 1 + j];
      }
      forall j | 0 <= j < |tail| - 1 && tail[j] == '.' ensures tail[j + 1] != '.' {
        assert tail[j] == s[i + 1 + j] && tail[j + 1] == s[i + 2 + j];
      }
    }
    if head != [] && AllDigits(head) && WellFormed(tail) {
      forall j | 0 <= j < |s| ensures IsDigit(s[j]) || s[j] == '.' {
        if j < i { assert s[j] == head[j]; }
        else if j > i { assert s[j] == tail[j - i - 1]; }
      }
      assert forall j :: 0 <= j < i ==> s[j] == head[j];
      forall j | 0 <= j < |s| - 1 && s[j] == '.' ensures s[j + 1] != '.' {
        if j > i { assert s[j] == tail[j - i - 1] && s[j + 1] == tail[j - i]; }
      }
    }
  }

  /** Parsing a text with a dot: the digits before the first dot, then the release after it. */
  lemma ParseReleaseSplit(head: string, tail: string)
    requires '.' !in head
    ensures ParseRelease(head + "." + tail) ==
      if head != [] && AllDigits(head) && ParseRelease(tail).Some? then Some([ParseNat(head)] + ParseRelease(tail).value)
      else None
  {
    var s := head + "." + tail;
    DotIndexAfter(head, tail);
    assert s[..|head|] == head;
    assert s[|head| + 1..] == tail;
  }

  /** `parse_version` succeeds exactly on the texts the release grammar describes. */
  lemma {:induction false} ParseIffWellFormed(s: string)
    ensures ParseRelease(s).Some? <==> WellFormed(s)
    decreases |s|
  {
    match DotIndex(s)
    case None =>
      WellFormedNoDot(s);
    case Some(i) =>
      var head, tail := s[..i], s[i + 1..];
      assert s == head + "." + tail;
      ParseReleaseSplit(head, tail);
      WellFormedSplit(head, tail);
      ParseIffWellFormed(tail);
  }

  /** The text of a release: its components in decimal, joined by dots. */
  function Format(r: seq<nat>): (s: string)
    requires |r| >= 1
    decreases |r|
  {
    if |r| == 1 then ShowNat(r[0]) else ShowNat(r[0]) + "." + Format(r[1..])
  }

  /** In a text that starts with a dot-free part, the first dot is the one after it. */
  lemma {:induction false} DotIndexAfter(head: string, rest: string)
    requires '.' !in head
    ensures DotIndex(head + "." + rest) == Some(|head|)
  {
    if head != [] {
      assert (head + "." + rest)[1..] == head[1..] + "." + rest;
      assert head[0] in head;
      DotIndexAfter(head[1..], rest);
    }
  }

  /** Parsing reads back the release a text was formatted from. */
  lemma {:induction false} ParseFormat(r: seq<nat>)
    requires |r| >= 1
    ensures ParseRelease(Format(r)) == Some(r)
    decreases |r|
  {
    var digits := ShowNat(r[0]);
    ParseShowNat(r[0]);
    assert '.' !in digits by {
      forall j | 0 <= j < |digits| ensures digits[j] != '.' {
        assert IsDigit(digits[j]);
      }
    }
    if |r| > 1 {
      var rest := Format(r[1..]);
      assert Format(r) == digits + "." + rest;
      ParseReleaseSplit(digits, rest);
      ParseFormat(r[1..]);
      assert r == [r[0]] + r[1..];
    } else {
      assert r == [r[0]];
    }
  }

  /** Component `i` of a release, zero past its end (PEP 440's padding). */
  function Component(r: seq<nat>, i: nat): nat {
    if i < |r| then r[i] else 0
  }

  function Rest(r: seq<nat>): seq<nat> {
    if r == [] then [] else r[1..]
  }

  /** `v1 < v2`, `v1 > v2`, else equal: -1, 1 or 0. */
  function Cmp(a: seq<nat>, b: seq<nat>): (r: int)
    ensures r == -1 || r == 0 || r == 1
    decreases |a| + |b|
  {
    if a == [] && b == [] then 0
    else if Component(a, 0) < Component(b, 0) then -1
    else if Component(a, 0) > Component(b, 0) then 1
    else Cmp(Rest(a), Rest(b))
  }

  lemma ComponentOfRest(a: seq<nat>, i: nat)
    ensures Component(Rest(a), i) == Component(a, i + 1)
  {
  }

  /** PEP 440's ordering: the first component where the padded releases differ decides. */
  ghost predicate Precedes(a: seq<nat>, b: seq<nat>) {
    exists i: nat :: Component(a, i) < Component(b, i) && forall j: nat :: j < i ==> Component(a, j) == Component(b, j)
  }

  ghost predicate SameRelease(a: seq<nat>, b: seq<nat>) {
    forall i: nat :: Component(a, i) == Component(b, i)
  }

  /** Past both ends every component is zero. */
  lemma PastTheEnd(a: seq<nat>, b: seq<nat>)
    requires a == [] && b == []
    ensures SameRelease(a, b)
  {
  }

  /** The comparison answers 0, -1 or 1 exactly as the padded releases are equal, precede or follow. */
  lemma {:induction false} CmpMeaning(a: seq<nat>, b: seq<nat>)
    ensures Cmp(a, b) == 0 <==> SameRelease(a, b)
    ensures Cmp(a, b) == -1 <==> Precedes(a, b)
    ensures Cmp(a, b) == 1 <==> Precedes(b, a)
    decreases |a| + |b|
  {
    if a == [] && b == [] {
      PastTheEnd(a, b);
    } else if Component(a, 0) != Component(b, 0) {
      if Component(a, 0) < Component(b, 0) {
        assert Precedes(a, b) by { assert forall j: nat :: j < 0 ==> Component(a, j) == Component(b, j); }
      } else {
        assert Precedes(b, a) by { assert forall j: nat :: j < 0 ==> Component(a, j) == Component(b, j); }
      }
      assert !SameRelease(a, b) by { assert Component(a, 0) != Component(b, 0); }
    } else {
      var a', b' := Rest(a), Rest(b);
      CmpMeaning(a', b');
      forall i: nat ensures Component(a', i) == Component(a, i + 1) && Component(b', i) == Component(b, i + 1) {
        ComponentOfRest(a, i);
        ComponentOfRest(b, i);
      }
      ShiftSame(a, b);
      ShiftPrecedes(a, b);
      ShiftPrecedes(b, a);
    }
  }

  /** With equal first components, equality is decided by the rest. */
  lemma ShiftSame(a: seq<nat>, b: seq<nat>)
    requires Component(a, 0) == Component(b, 0)
    ensures SameRelease(a, b) <==> SameRelease(Rest(a), Rest(b))
  {
    if SameRelease(Rest(a), Rest(b)) {
      forall i: nat ensures Component(a, i) == Component(b, i) {
        if i > 0 {
          ComponentOfRest(a, i - 1);
          ComponentOfRest(b, i - 1);
        }
      }
    }
    if SameRelease(a, b) {
      forall i: nat ensures Component(Rest(a), i) == Component(Rest(b), i) {
        ComponentOfRest(a, i);
        ComponentOfRest(b, i);
      }
    }
  }

  /** With equal first components, the order is decided by the rest. */
  lemma ShiftPrecedes(a: seq<nat>, b: seq<nat>)
    requires Component(a, 0) == Component(b, 0)
    ensures Precedes(a, b) <==> Precedes(Rest(a), Rest(b))
  {
    if Precedes(a, b) {
      var i: nat :| Component(a, i) < Component(b, i) && forall j: nat :: j < i ==> Component(a, j) == Component(b, j);
      assert i > 0;
      ComponentOfRest(a, i - 1);
      ComponentOfRest(b, i - 1);
      forall j: nat | j < i - 1 ensures Component(Rest(a), j) == Component(Rest(b), j) {
        ComponentOfRest(a, j);
        ComponentOfRest(b, j);
      }
    }
    if Precedes(Rest(a), Rest(b)) {
      var i: nat :| Component(Rest(a), i) < Component(Rest(b), i)
                    && forall j: nat :: j < i ==> Component(Rest(a), j) == Component(Rest(b), j);
      ComponentOfRest(a, i);
      ComponentOfRest(b, i);
      forall j: nat | j < i + 1 ensures Component(a, j) == Component(b, j) {
        if j > 0 {
          ComponentOfRest(a, j - 1);
          ComponentOfRest(b, j - 1);
        }
      }
    }
  }

  /** Swapping the arguments negates the comparison. */
  lemma {:induction false} CmpAntisymmetric(a: seq<nat>, b: seq<nat>)
    ensures Cmp(a, b) == -Cmp(b, a)
    decreases |a| + |b|
  {
    if !(a == [] && b == []) && Component(a, 0) == Component(b, 0) {
      CmpAntisymmetric(Rest(a), Rest(b));
    }
  }

  /** Not exceeding is transitive. */
  lemma {:induction false} CmpTransitive(a: seq<nat>, b: seq<nat>, c: seq<nat>)
    requires Cmp(a, b) <= 0 && Cmp(b, c) <= 0
    ensures Cmp(a, c) <= 0
    ensures Cmp(a, b) < 0 || Cmp(b, c) < 0 ==> Cmp(a, c) < 0
    decreases |a| + |b| + |c|
  {
    if a == [] && b == [] {
      assert Cmp(a, c) == Cmp(b, c);
    } else if b == [] && c == [] {
      if a != [] && Component(a, 0) == 0 {
        CmpTransitive(Rest(a), Rest(b), Rest(c));
      }
    } else if a == [] && c == [] {
      if Component(b, 0) == 0 {
        CmpTransitive(Rest(a), Rest(b), Rest(c));
      }
    } else if Component(a, 0) == Component(b, 0) && Component(b, 0) == Component(c, 0) {
      CmpTransitive(Rest(a), Rest(b), Rest(c));
    }
  }

  /** `parse_version`: the release, or `ValueError` naming the text. */
  function ParseVersion(s: string): (r: Result<seq<nat>, VersionError>)
    ensures r.Ok? <==> WellFormed(s)
    ensures r.Ok? ==> |r.value| >= 1 && ParseRelease(Format(r.value)) == Some(r.value)
    ensures r.Err? ==> r.error == InvalidVersion(s)
  {
    ParseIffWellFormed(s);
    match ParseRelease(s)
    case None => Err(InvalidVersion(s))
    case Some(v) =>
      ParseFormat(v);
      Ok(v)
  }

  /** `compare_versions`: -1, 0 or 1, the first invalid argument raising. */
  function CompareVersions(s1: string, s2: string): (r: Result<int, VersionError>)
    ensures !WellFormed(s1) ==> r == Err(InvalidVersion(s1))
    ensures WellFormed(s1) && !WellFormed(s2) ==> r == Err(InvalidVersion(s2))
    ensures r.Ok? ==> WellFormed(s1) && WellFormed(s2)
    ensures r.Ok? ==> var v1, v2 := ParseVersion(s1).value, ParseVersion(s2).value;
      && (r.value == -1 <==> Precedes(v1, v2))
      && (r.value == 0 <==> SameRelease(v1, v2))
      && (r.value == 1 <==> Precedes(v2, v1))
  {
    match ParseVersion(s1)
    case Err(e) => Err(e)
    case Ok(v1) =>
      match ParseVersion(s2)
      case Err(e) => Err(e)
      case Ok(v2) =>
        CmpMeaning(v1, v2);
        Ok(Cmp(v1, v2))
  }

  /** `compare_versions(a, b)` is `-compare_versions(b, a)` whenever both parse. */
  lemma CompareSwapped(s1: string, s2: string)
    requires CompareVersions(s1, s2).Ok?
    ensures CompareVersions(s2, s1) == Ok(-CompareVersions(s1, s2).value)
  {
    CmpAntisymmetric(ParseVersion(s1).value, ParseVersion(s2).value);
  }

  /** `is_newer`: the first version follows the second. */
  function IsNewer(s1: string, s2: string): (r: Result<bool, VersionError>)
    ensures r.Err? <==> CompareVersions(s1, s2).Err?
    ensures r.Ok? ==> (r.value <==> Precedes(ParseVersion(s2).value, ParseVersion(s1).value))
  {
    match CompareVersions(s1, s2)
    case Err(e) => Err(e)
    case Ok(c) => Ok(c > 0)
  }

  /** Of two versions at most one is newer than the other. */
  lemma NewerAsymmetric(s1: string, s2: string)
    requires IsNewer(s1, s2) == Ok(true)
    ensures IsNewer(s2, s1) == Ok(false)
  {
    CompareSwapped(s1, s2);
  }

  /** `v.major`: the first release component. */
  function Major(v: seq<nat>): nat {
    Component(v, 0)
  }

  /** `is_compatible`: the major components agree. */
  function IsCompatible(s1: string, s2: string): (r: Result<bool, VersionError>)
    ensures r.Err? <==> !WellFormed(s1) || !WellFormed(s2)
    ensures r.Ok? ==> (r.value <==> Major(ParseVersion(s1).value) == Major(ParseVersion(s2).value))
  {
    match ParseVersion(s1)
    case Err(e) => Err(e)
    case Ok(v1) =>
      match ParseVersion(s2)
      case Err(e) => Err(e)
      case Ok(v2) => Ok(Major(v1) == Major(v2))
  }

  /** The list comprehension of `get_latest_version`: every text parsed, the first invalid one raising. */
  function ParseAll(texts: seq<string>): (r: Result<seq<seq<nat>>, VersionError>)
    ensures r.Ok? <==> forall i :: 0 <= i < |texts| ==> WellFormed(texts[i])
    ensures r.Ok? ==> |r.value| == |texts| && forall i :: 0 <= i < |texts| ==> r.value[i] == ParseVersion(texts[i]).value
    ensures r.Err? ==> exists i :: 0 <= i < |texts| && !WellFormed(texts[i]) && r.error == InvalidVersion(texts[i])
                                    && forall j :: 0 <= j < i ==> WellFormed(texts[j])
  {
    if texts == [] then Ok([])
    else
      match ParseVersion(texts[0])
      case Err(e) => Err(e)
      case Ok(v) =>
        match ParseAll(texts[1..])
        case Err(e) => Err(e)
        case Ok(rest) => Ok([v] + rest)
  }

  /** `max(..., key=...)`: the position of the first release no other release exceeds. */
  function FirstMax(vs: seq<seq<nat>>): (k: nat)
    requires vs != []
    ensures k < |vs|
    ensures forall i :: 0 <= i < |vs| ==> Cmp(vs[i], vs[k]) <= 0
    ensures forall i :: 0 <= i < k ==> Cmp(vs[i], vs[k]) < 0
    decreases |vs|
  {
    if |vs| == 1 then
      CmpAntisymmetric(vs[0], vs[0]);
      0
    else
      var init := vs[..|vs| - 1];
      var b := FirstMax(init);
      var last := vs[|vs| - 1];
      assert forall i :: 0 <= i < |init| ==> vs[i] == init[i];
      CmpAntisymmetric(last, vs[b]);
      if Cmp(last, vs[b]) > 0 then
        forall i | 0 <= i < |vs| - 1 ensures Cmp(vs[i], last) < 0 {
          CmpTransitive(vs[i], vs[b], last);
        }
        CmpAntisymmetric(last, last);
        |vs| - 1
      else
        b
  }

  /**
   * `get_latest_version`: None for an empty list; otherwise the first
   * version that no version of the list exceeds.
   */
  function GetLatestVersion(texts: seq<string>): (r: Result<Option<string>, VersionError>)
    ensures r.Err? <==> exists i :: 0 <= i < |texts| && !WellFormed(texts[i])
    ensures r.Err? ==> exists i :: 0 <= i < |texts| && !WellFormed(texts[i]) && r.error == InvalidVersion(texts[i])
                                    && forall j :: 0 <= j < i ==> WellFormed(texts[j])
    ensures r == Ok(None) <==> texts == []
    ensures r.Ok? && r.value.Some? ==>
      exists k :: 0 <= k < |texts| && texts[k] == r.value.value
        && (forall i :: 0 <= i < |texts| ==> Cmp(ParseVersion(texts[i]).value, ParseVersion(texts[k]).value) <= 0)
        && (forall i :: 0 <= i < k ==> Cmp(ParseVersion(texts[i]).value, ParseVersion(texts[k]).value) < 0)
  {
    if texts == [] then Ok(None)
    else
      match ParseAll(texts)
      case Err(e) => Err(e)
      case Ok(vs) =>
        var k := FirstMax(vs);
        Ok(Some(texts[k]))
  }

  /** Which component `increment_version` bumps. */
  datatype Part = MajorPart | MinorPart | MicroPart

  function PartNamed(part: string): Option<Part> {
    if part == "major" then Some(MajorPart)
    else if part == "minor" then Some(MinorPart)
    else if part == "patch" then Some(MicroPart)
    else None
  }

  /** The three-component release `increment_version` formats. */
  function Bumped(v: seq<nat>, part: Part): seq<nat> {
    match part
    case MajorPart => [Major(v) + 1, 0, 0]
    case MinorPart => [Major(v), Component(v, 1) + 1, 0]
    case MicroPart => [Major(v), Component(v, 1), Component(v, 2) + 1]
  }

  /** A bumped release follows the one it was bumped from. */
  lemma BumpedIsNewer(v: seq<nat>, part: Part)
    ensures Cmp(Bumped(v, part), v) == 1
  {
    var b := Bumped(v, part);
    CmpMeaning(b, v);
    match part
    case MajorPart =>
      assert Component(v, 0) < Component(b, 0) && forall j: nat :: j < 0 ==> Component(v, j) == Component(b, j);
    case MinorPart =>
      assert Component(v, 1) < Component(b, 1) && forall j: nat :: j < 1 ==> Component(v, j) == Component(b, j);
    case MicroPart =>
      assert Component(v, 2) < Component(b, 2) && forall j: nat :: j < 2 ==> Component(v, j) == Component(b, j);
  }

  /**
   * `increment_version`: the text of `(M+1).0.0`, `M.(m+1).0` or
   * `M.m.(p+1)`; an invalid version or any other part name raises. The
   * result parses, is newer than the input, and keeps the major component
   * unless the major part was bumped.
   */
  function IncrementVersion(s: string, part: string): (r: Result<string, VersionError>)
    ensures !WellFormed(s) ==> r == Err(InvalidVersion(s))
    ensures WellFormed(s) && PartNamed(part).None? ==> r == Err(InvalidPart(part))
    ensures r.Ok? ==>
      var v := ParseVersion(s).value;
      && ParseVersion(r.value) == Ok(Bumped(v, PartNamed(part).value))
      && IsNewer(r.value, s) == Ok(true)
      && (IsCompatible(r.value, s) == Ok(true) <==> part != "major")
  {
    match ParseVersion(s)
    case Err(e) => Err(e)
    case Ok(v) =>
      match PartNamed(part)
      case None => Err(InvalidPart(part))
      case Some(p) =>
        var b := Bumped(v, p);
        var text := Format(b);
        ParseFormat(b);
        ParseIffWellFormed(text);
        BumpedIsNewer(v, p);
        Ok(text)
  }

  /** `validate_version`: whether `parse_version` succeeds. */
  function ValidateVersion(s: string): (b: bool)
    ensures b <==> WellFormed(s)
  {
    ParseVersion(s).Ok?
  }
}
