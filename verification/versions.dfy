/**
 * Version release numbers. The monitor only looks at the first three release
 * components of a parsed version (`major`, `minor`, `micro`); anything a parser
 * cannot read gives `None`. `ParseRelease` is a simplified, dotted-numeric
 * reading of version strings; the monitor itself takes the parser as a parameter.
 */
module Versions {
  import opened Optional

  datatype Release = Release(major: nat, minor: nat, micro: nat)

  /** Lexicographic "strictly newer" on release triples: the usual semantic-version order. */
  predicate Newer(n: Release, o: Release) {
    n.major > o.major
    || (n.major == o.major && n.minor > o.minor)
    || (n.major == o.major && n.minor == o.minor && n.micro > o.micro)
  }

  predicate IsDigit(c: char) {
    '0' <= c <= '9'
  }

  predicate AllDigits(s: string) {
    forall i :: 0 <= i < |s| ==> IsDigit(s[i])
  }

  /** The decimal value of a digit string, read left to right. */
  function DigitsValue(s: string): nat
    requires AllDigits(s)
  {
    if s == [] then 0 else DigitsValue(s[..|s| - 1]) * 10 + (s[|s| - 1] as int - '0' as int)
  }

  /** The shortest decimal spelling of `n`. */
  function NatToString(n: nat): (s: string)
    ensures |s| > 0 && AllDigits(s)
    ensures |s| > 1 ==> s[0] != '0'
  {
    if n < 10 then [('0' as int + n) as char]
    else NatToString(n / 10) + [('0' as int + n % 10) as char]
  }

  lemma {:induction false} DigitsValueOfNatToString(n: nat)
    ensures DigitsValue(NatToString(n)) == n
  {
    if n >= 10 {
      var s := NatToString(n);
      assert s[..|s| - 1] == NatToString(n / 10);
      DigitsValueOfNatToString(n / 10);
    }
  }

  /** Splits `s` at every '.', Python's `s.split(".")`. */
  function SplitDots(s: string): (parts: seq<string>)
    ensures |parts| > 0
  {
    if s == [] then [[]]
    else
      var rest := SplitDots(s[1..]);
      if s[0] == '.' then [[]] + rest else [[s[0]] + rest[0]] + rest[1..]
  }

  /** `".".join(parts)`. */
  function JoinDots(parts: seq<string>): string
    requires |parts| > 0
  {
    if |parts| == 1 then parts[0] else parts[0] + "." + JoinDots(parts[1..])
  }

  predicate NoDot(s: string) {
    forall i :: 0 <= i < |s| ==> s[i] != '.'
  }

  lemma {:induction false} SplitDotsPrefix(a: string, rest: string)
    requires NoDot(a)
    ensures SplitDots(a + rest) == [a + SplitDots(rest)[0]] + SplitDots(rest)[1..]
    decreases |a|
  {
    if a == [] {
      var S := SplitDots(rest);
      assert a + rest == rest && a + S[0] == S[0];
      assert [S[0]] + S[1..] == S;
    } else {
      var S := SplitDots(rest);
      assert (a + rest)[0] == a[0] && (a + rest)[1..] == a[1..] + rest;
      SplitDotsPrefix(a[1..], rest);
      var R := SplitDots(a[1..] + rest);
      assert R[0] == a[1..] + S[0] && R[1..] == S[1..];
      assert SplitDots(a + rest) == [[a[0]] + R[0]] + R[1..];
      assert [a[0]] + (a[1..] + S[0]) == a + S[0];
    }
  }

  /** Splitting undoes joining, as long as no part contains a dot. */
  lemma {:induction false} SplitJoin(parts: seq<string>)
    requires |parts| > 0
    requires forall i :: 0 <= i < |parts| ==> NoDot(parts[i])
    ensures SplitDots(JoinDots(parts)) == parts
    decreases |parts|
  {
    if |parts| == 1 {
      SplitDotsPrefix(parts[0], []);
      assert parts[0] + [] == parts[0];
    } else {
      var tail := JoinDots(parts[1..]);
      SplitJoin(parts[1..]);
      assert parts[0] + "." + tail == parts[0] + ("." + tail);
      var dotted := "." + tail;
      assert dotted[0] == '.' && dotted[1..] == tail;
      assert SplitDots(dotted) == [[]] + parts[1..];
      SplitDotsPrefix(parts[0], dotted);
      assert parts[0] + [] == parts[0];
      assert [parts[0]] + parts[1..] == parts;
    }
  }

  /** A release component: a non-empty run of digits. */
  predicate IsNumber(s: string) {
    |s| > 0 && AllDigits(s)
  }

  /**
   * Reads "major[.minor[.micro[...]]]"; missing minor and micro components are 0
   * and components after the third are ignored, as for release segments in
   * PEP 440. Any other shape (an empty component, a letter, a suffix such as
   * "-beta") is not understood and gives `None`.
   */
  function ParseRelease(s: string): Option<Release> {
    var parts := SplitDots(s);
    if forall i :: 0 <= i < |parts| ==> IsNumber(parts[i]) then
      Some(Release(
        DigitsValue(parts[0]),
        if |parts| > 1 then DigitsValue(parts[1]) else 0,
        if |parts| > 2 then DigitsValue(parts[2]) else 0))
    else None
  }

  /** The canonical "major.minor.micro" spelling of a release. */
  function FormatRelease(r: Release): string {
    JoinDots([NatToString(r.major), NatToString(r.minor), NatToString(r.micro)])
  }

  /** Parsing the canonical spelling gives back the release. */
  lemma ParseFormatRelease(r: Release)
    ensures ParseRelease(FormatRelease(r)) == Some(r)
  {
    var parts := [NatToString(r.major), NatToString(r.minor), NatToString(r.micro)];
    forall i | 0 <= i < |parts|
      ensures NoDot(parts[i]) && IsNumber(parts[i])
    {
    }
    SplitJoin(parts);
    DigitsValueOfNatToString(r.major);
    DigitsValueOfNatToString(r.minor);
    DigitsValueOfNatToString(r.micro);
  }

  /** A string without dots is a single component. */
  lemma SplitNoDot(s: string)
    requires NoDot(s)
    ensures SplitDots(s) == [s]
  {
    SplitDotsPrefix(s, []);
    assert s + [] == s;
  }

  /** A pre-release suffix is not part of the dotted-numeric grammar. */
  lemma ParseRejectsSuffix()
    ensures ParseRelease("1.2.3-beta") == None
  {
    SplitNoDot("3-beta");
    SplitJoin(["1", "2", "3-beta"]);
    assert JoinDots(["1", "2", "3-beta"]) == "1.2.3-beta";
    var parts := SplitDots("1.2.3-beta");
    assert parts[2] == "3-beta";
    assert !IsDigit(parts[2][1]);
  }
}
