/**
 Version parsing and precedence (desktop/src/package-controller.js), against the grammar and
 section 11 of Semantic Versioning 2.0.0.
 */
module Semver {
  import opened Common

  // ---------------------------------------------------------------- characters and identifiers

  predicate IsDigit(c: char) {
    '0' <= c <= '9'
  }

  function Digit(c: char): nat
    requires IsDigit(c)
  {
    c as int - '0' as int
  }

  predicate IsIdentifierChar(c: char) {
    IsDigit(c) || 'A' <= c <= 'Z' || 'a' <= c <= 'z' || c == '-'
  }

  predicate AllDigits(s: string) {
    s != [] && forall i :: 0 <= i < |s| ==> IsDigit(s[i])
  }

  predicate IsIdentifier(s: string) {
    s != [] && forall i :: 0 <= i < |s| ==> IsIdentifierChar(s[i])
  }

  /** `0|[1-9]\d*` */
  predicate IsNumeric(s: string) {
    AllDigits(s) && (|s| > 1 ==> s[0] != '0')
  }

  /** A prerelease identifier that `parseSemver` lets through: digits only without a leading zero. */
  predicate IsPrerelease(s: string) {
    IsIdentifier(s) && (AllDigits(s) ==> IsNumeric(s))
  }

  datatype Version = Version(major: string, minor: string, patch: string, prerelease: seq<string>)

  predicate WellFormed(v: Version) {
    && IsNumeric(v.major) && IsNumeric(v.minor) && IsNumeric(v.patch)
    && (forall i :: 0 <= i < |v.prerelease| ==> IsPrerelease(v.prerelease[i]))
  }

  /** The number a string of digits denotes. */
  function ValueOf(s: string): nat
    requires forall i :: 0 <= i < |s| ==> IsDigit(s[i])
  {
    if s == [] then 0 else 10 * ValueOf(s[..|s| - 1]) + Digit(s[|s| - 1])
  }

  // ---------------------------------------------------------------- string order

  /** The JavaScript `<` on strings: the first difference decides, a proper prefix is smaller. */
  predicate StringLess(a: string, b: string) {
    if b == [] then false
    else if a == [] then true
    else if a[0] != b[0] then a[0] < b[0]
    else StringLess(a[1..], b[1..])
  }

  lemma {:induction false} StringLessTotal(a: string, b: string)
    ensures a == b || StringLess(a, b) || StringLess(b, a)
    ensures !(StringLess(a, b) && StringLess(b, a)) && !StringLess(a, a)
  {
    if a != [] {
      StringLessTotal(a[1..], a[1..]);
    }
    if a != [] && b != [] && a[0] == b[0] {
      StringLessTotal(a[1..], b[1..]);
      if a[1..] == b[1..] {
        assert a == [a[0]] + a[1..] && b == [b[0]] + b[1..];
      }
    }
  }

  lemma {:induction false} StringLessTransitive(a: string, b: string, c: string)
    requires StringLess(a, b) && StringLess(b, c)
    ensures StringLess(a, c)
  {
    if a != [] && a[0] == b[0] && b[0] == c[0] {
      StringLessTransitive(a[1..], b[1..], c[1..]);
    }
  }

  // ---------------------------------------------------------------- digit strings and integers

  function Pow10(n: nat): nat {
    if n == 0 then 1 else 10 * Pow10(n - 1)
  }

  lemma {:induction false} ValueBelowPow(s: string)
    requires forall i :: 0 <= i < |s| ==> IsDigit(s[i])
    ensures ValueOf(s) < Pow10(|s|)
  {
    if s != [] {
      ValueBelowPow(s[..|s| - 1]);
    }
  }

  lemma {:induction false} ValueOfCons(s: string)
    requires s != [] && forall i :: 0 <= i < |s| ==> IsDigit(s[i])
    ensures ValueOf(s) == Digit(s[0]) * Pow10(|s| - 1) + ValueOf(s[1..])
  {
    if |s| > 1 {
      var init := s[..|s| - 1];
      ValueOfCons(init);
      assert s[1..][..|s| - 2] == init[1..];
      assert s[1..][|s| - 2] == s[|s| - 1];
      var d := Digit(s[0]);
      assert 10 * (d * Pow10(|s| - 2)) == d * Pow10(|s| - 1) by {
        assert Pow10(|s| - 1) == 10 * Pow10(|s| - 2);
      }
    }
  }

  lemma {:induction false} SameLengthOrder(a: string, b: string)
    requires |a| == |b|
    requires forall i :: 0 <= i < |a| ==> IsDigit(a[i]) && IsDigit(b[i])
    ensures StringLess(a, b) <==> ValueOf(a) < ValueOf(b)
    ensures a == b <==> ValueOf(a) == ValueOf(b)
  {
    if a != [] {
      ValueOfCons(a);
      ValueOfCons(b);
      SameLengthOrder(a[1..], b[1..]);
      ValueBelowPow(a[1..]);
      ValueBelowPow(b[1..]);
      assert a == [a[0]] + a[1..] && b == [b[0]] + b[1..];
      DigitDecides(Digit(a[0]), Digit(b[0]), Pow10(|a| - 1), ValueOf(a[1..]), ValueOf(b[1..]));
    }
  }

  lemma DigitDecides(x: nat, y: nat, p: nat, u: nat, v: nat)
    requires u < p && v < p
    ensures x < y ==> x * p + u < y * p + v
    ensures y < x ==> y * p + v < x * p + u
  {
    if x < y {
      assert (x + 1) * p <= y * p;
    }
    if y < x {
      assert (y + 1) * p <= x * p;
    }
  }

  lemma LongerIsGreater(a: string, b: string)
    requires IsNumeric(a) && IsNumeric(b) && |a| < |b|
    ensures ValueOf(a) < ValueOf(b)
  {
    ValueBelowPow(a);
    ValueOfCons(b);
    assert b[0] != '0';
    AtLeastOnce(Digit(b[0]), Pow10(|b| - 1));
    Pow10Grows(|a|, |b| - 1);
  }

  lemma AtLeastOnce(d: nat, p: nat)
    requires d >= 1
    ensures d * p >= p
  {
  }

  lemma {:induction false} Pow10Grows(m: nat, n: nat)
    requires m <= n
    ensures Pow10(m) <= Pow10(n)
    decreases n
  {
    if m < n {
      Pow10Grows(m, n - 1);
    }
  }

  function Sign(x: int): int {
    if x < 0 then -1 else if x > 0 then 1 else 0
  }

  /** `compareNumericIdentifier`: length first, then text. */
  function CompareNumericIdentifier(left: string, right: string): int {
    if |left| != |right| then (if |left| > |right| then 1 else -1)
    else if left == right then 0
    else if StringLess(right, left) then 1 else -1
  }

  /** On digit strings without leading zeros this is the order of the integers they denote. */
  lemma NumericIdentifierOrder(left: string, right: string)
    requires IsNumeric(left) && IsNumeric(right)
    ensures CompareNumericIdentifier(left, right) == Sign(ValueOf(left) - ValueOf(right))
    ensures ValueOf(left) == ValueOf(right) <==> left == right
  {
    if |left| < |right| {
      LongerIsGreater(left, right);
    } else if |right| < |left| {
      LongerIsGreater(right, left);
    } else {
      SameLengthOrder(left, right);
      StringLessTotal(left, right);
      SameLengthOrder(right, left);
    }
  }

  // ---------------------------------------------------------------- precedence by the standard

  /** Section 11.4 of Semantic Versioning 2.0.0 for two identifiers. */
  ghost predicate IdentifierPrecedes(a: string, b: string)
    requires IsPrerelease(a) && IsPrerelease(b)
  {
    if AllDigits(a) && AllDigits(b) then ValueOf(a) < ValueOf(b)
    else if AllDigits(a) != AllDigits(b) then AllDigits(a)
    else StringLess(a, b)
  }

  /** Sections 11.4.1 to 11.4.4: the first difference decides, and a shorter list that is a prefix precedes. */
  ghost predicate PrereleasePrecedes(a: seq<string>, b: seq<string>)
    requires forall i :: 0 <= i < |a| ==> IsPrerelease(a[i])
    requires forall i :: 0 <= i < |b| ==> IsPrerelease(b[i])
  {
    exists k :: 0 <= k <= |a| && k < |b| && a[..k] == b[..k] && (k == |a| || IdentifierPrecedes(a[k], b[k]))
  }

  /** Sections 11.2 to 11.4: major, minor, patch as numbers, then prerelease; a release follows its prereleases. */
  ghost predicate Precedes(a: Version, b: Version)
    requires WellFormed(a) && WellFormed(b)
  {
    if ValueOf(a.major) != ValueOf(b.major) then ValueOf(a.major) < ValueOf(b.major)
    else if ValueOf(a.minor) != ValueOf(b.minor) then ValueOf(a.minor) < ValueOf(b.minor)
    else if ValueOf(a.patch) != ValueOf(b.patch) then ValueOf(a.patch) < ValueOf(b.patch)
    else if a.prerelease == [] then false
    else if b.prerelease == [] then true
    else PrereleasePrecedes(a.prerelease, b.prerelease)
  }

  lemma IdentifierOrder(a: string, b: string)
    requires IsPrerelease(a) && IsPrerelease(b)
    ensures a == b || IdentifierPrecedes(a, b) || IdentifierPrecedes(b, a)
    ensures !(IdentifierPrecedes(a, b) && IdentifierPrecedes(b, a)) && !IdentifierPrecedes(a, a)
  {
    StringLessTotal(a, b);
    if AllDigits(a) && AllDigits(b) {
      NumericIdentifierOrder(a, b);
    }
  }

  lemma IdentifierTransitive(a: string, b: string, c: string)
    requires IsPrerelease(a) && IsPrerelease(b) && IsPrerelease(c)
    requires IdentifierPrecedes(a, b) && IdentifierPrecedes(b, c)
    ensures IdentifierPrecedes(a, c)
  {
    if !AllDigits(a) && !AllDigits(b) && !AllDigits(c) {
      StringLessTransitive(a, b, c);
    }
  }

  lemma PrereleaseTransitive(a: seq<string>, b: seq<string>, c: seq<string>)
    requires forall i :: 0 <= i < |a| ==> IsPrerelease(a[i])
    requires forall i :: 0 <= i < |b| ==> IsPrerelease(b[i])
    requires forall i :: 0 <= i < |c| ==> IsPrerelease(c[i])
    requires PrereleasePrecedes(a, b) && PrereleasePrecedes(b, c)
    ensures PrereleasePrecedes(a, c)
  {
    var j :| 0 <= j <= |a| && j < |b| && a[..j] == b[..j] && (j == |a| || IdentifierPrecedes(a[j], b[j]));
    var k :| 0 <= k <= |b| && k < |c| && b[..k] == c[..k] && (k == |b| || IdentifierPrecedes(b[k], c[k]));
    var m := if j < k then j else k;
    assert a[..m] == a[..j][..m] == b[..j][..m] == b[..m];
    assert c[..m] == c[..k][..m] == b[..k][..m] == b[..m];
    if j < k {
      assert b[j] == b[..k][j] == c[..k][j] == c[j];
    } else if k < j {
      assert a[k] == a[..j][k] == b[..j][k] == b[k];
    } else if j < |a| {
      IdentifierTransitive(a[j], b[j], c[j]);
    }
  }

  /** Precedence is transitive. */
  lemma PrecedesTransitive(a: Version, b: Version, c: Version)
    requires WellFormed(a) && WellFormed(b) && WellFormed(c)
    requires Precedes(a, b) && Precedes(b, c)
    ensures Precedes(a, c)
  {
    if a.prerelease != [] && b.prerelease != [] && c.prerelease != []
       && PrereleasePrecedes(a.prerelease, b.prerelease) && PrereleasePrecedes(b.prerelease, c.prerelease) {
      PrereleaseTransitive(a.prerelease, b.prerelease, c.prerelease);
    }
  }

  /** The first difference is unique, so two lists never precede each other both ways. */
  lemma PrereleaseAsymmetric(a: seq<string>, b: seq<string>)
    requires forall i :: 0 <= i < |a| ==> IsPrerelease(a[i])
    requires forall i :: 0 <= i < |b| ==> IsPrerelease(b[i])
    requires PrereleasePrecedes(a, b)
    ensures !PrereleasePrecedes(b, a) && a != b
  {
    if PrereleasePrecedes(b, a) || a == b {
      if a == b {
        var j :| 0 <= j <= |a| && j < |b| && a[..j] == b[..j] && (j == |a| || IdentifierPrecedes(a[j], b[j]));
        IdentifierOrder(a[j], b[j]);
      } else {
        PrereleaseTransitive(a, b, a);
        var j :| 0 <= j <= |a| && j < |a| && a[..j] == a[..j] && (j == |a| || IdentifierPrecedes(a[j], a[j]));
        IdentifierOrder(a[j], a[j]);
      }
      assert false;
    }
  }

  lemma PrecedesAsymmetric(a: Version, b: Version)
    requires WellFormed(a) && WellFormed(b) && Precedes(a, b)
    ensures !Precedes(b, a) && a != b
  {
    if a.prerelease != [] && b.prerelease != [] && PrereleasePrecedes(a.prerelease, b.prerelease) {
      PrereleaseAsymmetric(a.prerelease, b.prerelease);
    }
  }

  // ---------------------------------------------------------------- compareSemver

  /** The prerelease loop of `compareSemver`. */
  method ComparePrerelease(a: seq<string>, b: seq<string>) returns (r: int)
    requires forall i :: 0 <= i < |a| ==> IsPrerelease(a[i])
    requires forall i :: 0 <= i < |b| ==> IsPrerelease(b[i])
    ensures r == 0 || r == 1 || r == -1
    ensures r == 0 <==> a == b
    ensures r == -1 <==> PrereleasePrecedes(a, b)
    ensures r == 1 <==> PrereleasePrecedes(b, a)
  {
    var length := if |a| > |b| then |a| else |b|;
    for index := 0 to length
      invariant index <= |a| && index <= |b| && a[..index] == b[..index]
    {
      if index == |a| {
        FirstDifference(a, b, index);
        return -1;
      }
      if index == |b| {
        FirstDifference(b, a, index);
        return 1;
      }
      var left, right := a[index], b[index];
      if left != right {
        IdentifierOrder(left, right);
        IdentifierOrder(right, left);
        var leftNumeric, rightNumeric := AllDigits(left), AllDigits(right);
        if leftNumeric && rightNumeric {
          NumericIdentifierOrder(left, right);
          r := CompareNumericIdentifier(left, right);
        } else if leftNumeric != rightNumeric {
          r := if leftNumeric then -1 else 1;
        } else {
          StringLessTotal(left, right);
          r := if StringLess(right, left) then 1 else -1;
        }
        if r == -1 {
          FirstDifference(a, b, index);
        } else {
          FirstDifference(b, a, index);
        }
        return;
      }
      assert a[..index + 1] == a[..index] + [left] && b[..index + 1] == b[..index] + [right];
    }
    assert a == a[..|a|] && b == b[..|b|];
    if PrereleasePrecedes(a, b) {
      PrereleaseAsymmetric(a, b);
    }
    r := 0;
  }

  lemma FirstDifference(a: seq<string>, b: seq<string>, k: nat)
    requires forall i :: 0 <= i < |a| ==> IsPrerelease(a[i])
    requires forall i :: 0 <= i < |b| ==> IsPrerelease(b[i])
    requires k <= |a| && k < |b| && a[..k] == b[..k] && (k == |a| || IdentifierPrecedes(a[k], b[k]))
    ensures PrereleasePrecedes(a, b) && !PrereleasePrecedes(b, a) && a != b
  {
    PrereleaseAsymmetric(a, b);
  }

  /** `compareSemver` on parsed versions: the sign of the precedence of section 11, and 0 only for equal versions. */
  method CompareParsed(a: Version, b: Version) returns (r: int)
    requires WellFormed(a) && WellFormed(b)
    ensures r == 0 || r == 1 || r == -1
    ensures r == 0 <==> a == b
    ensures r == -1 <==> Precedes(a, b)
    ensures r == 1 <==> Precedes(b, a)
  {
    var left, right := [a.major, a.minor, a.patch], [b.major, b.minor, b.patch];
    NumericIdentifierOrder(a.major, b.major);
    NumericIdentifierOrder(a.minor, b.minor);
    NumericIdentifierOrder(a.patch, b.patch);
    for i := 0 to 3
      invariant left[..i] == right[..i]
    {
      assert left[..3] == left;
      r := CompareNumericIdentifier(left[i], right[i]);
      if r != 0 {
        assert i > 0 ==> left[..i][0] == right[..i][0];
        assert i > 1 ==> left[..i][1] == right[..i][1];
        return;
      }
      assert left[..i + 1] == left[..i] + [left[i]] && right[..i + 1] == right[..i] + [right[i]];
    }
    assert left == left[..3] == right[..3] == right;
    assert a.major == left[0] == right[0] && a.minor == left[1] == right[1] && a.patch == left[2] == right[2];
    if a.prerelease == [] && b.prerelease == [] {
      return 0;
    }
    if a.prerelease == [] {
      return 1;
    }
    if b.prerelease == [] {
      return -1;
    }
    r := ComparePrerelease(a.prerelease, b.prerelease);
  }
}
