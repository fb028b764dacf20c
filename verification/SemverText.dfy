/** `parseSemver` against the text of a version, and `compareSemver` on texts (desktop/src/package-controller.js). */
module SemverText {
  import opened Common
  import opened Semver

  function Join(parts: seq<string>): string {
    if parts == [] then "" else if |parts| == 1 then parts[0] else parts[0] + "." + Join(parts[1..])
  }

  /** The text of a version with its build identifiers; the grammar of the standard as a printer. */
  function Render(v: Version, build: seq<string>): string {
    Join([v.major, v.minor, v.patch])
    + (if v.prerelease == [] then "" else "-" + Join(v.prerelease))
    + (if build == [] then "" else "+" + Join(build))
  }

  predicate AllIdentifiers(parts: seq<string>) {
    forall i :: 0 <= i < |parts| ==> IsIdentifier(parts[i])
  }

  /** A text denotes a version if it is that version's text with some build metadata. */
  ghost predicate Denotes(text: string, v: Version) {
    WellFormed(v) && exists build :: AllIdentifiers(build) && text == Render(v, build)
  }

  // ---------------------------------------------------------------- splitting

  function IndexOf(s: string, c: char): (n: nat)
    ensures n <= |s|
    ensures n < |s| ==> s[n] == c
    ensures forall i :: 0 <= i < n ==> s[i] != c
  {
    if s == [] then 0 else if s[0] == c then 0 else 1 + IndexOf(s[1..], c)
  }

  /** The parts between dots; the empty text has one empty part. */
  function Split(s: string): (parts: seq<string>)
    ensures parts != []
    decreases |s|
  {
    var n := IndexOf(s, '.');
    if n == |s| then [s] else [s[..n]] + Split(s[n + 1..])
  }

  ghost predicate Without(s: string, c: char) {
    forall i :: 0 <= i < |s| ==> s[i] != c
  }

  lemma IndexOfFirst(a: string, c: char, b: string)
    requires Without(a, c)
    ensures IndexOf(a + [c] + b, c) == |a|
    ensures IndexOf(a, c) == |a|
  {
    var s := a + [c] + b;
    assert s[|a|] == c;
    assert forall i :: 0 <= i < |a| ==> s[i] == a[i] && s[i] != c;
  }

  lemma SplitStep(a: string, b: string)
    requires Without(a, '.')
    ensures Split(a + ['.'] + b) == [a] + Split(b)
  {
    var s := a + ['.'] + b;
    IndexOfFirst(a, '.', b);
    assert s[..|a|] == a && s[|a| + 1..] == b;
  }

  lemma {:induction false} SplitJoin(parts: seq<string>)
    requires parts != [] && forall i :: 0 <= i < |parts| ==> Without(parts[i], '.')
    ensures Split(Join(parts)) == parts
  {
    if |parts| == 1 {
      IndexOfFirst(parts[0], '.', "");
      assert parts == [parts[0]];
    } else {
      SplitJoin(parts[1..]);
      SplitStep(parts[0], Join(parts[1..]));
    }
  }

  lemma {:induction false} JoinSplit(s: string)
    ensures Join(Split(s)) == s
    decreases |s|
  {
    var n := IndexOf(s, '.');
    if n < |s| {
      JoinSplit(s[n + 1..]);
      assert Split(s)[1..] == Split(s[n + 1..]);
      assert s == s[..n] + "." + s[n + 1..];
    }
  }

  lemma {:induction false} JoinAvoids(parts: seq<string>, c: char)
    requires c != '.' && forall i :: 0 <= i < |parts| ==> Without(parts[i], c)
    ensures Without(Join(parts), c)
  {
    if |parts| > 1 {
      JoinAvoids(parts[1..], c);
    }
  }

  // ---------------------------------------------------------------- parseSemver

  /** What the groups of the pattern capture: the text before the first `+`, cut at its first `-`. */
  function FrontOf(s: string): string {
    s[..IndexOf(s, '+')]
  }

  function CoreOf(front: string): string {
    front[..IndexOf(front, '-')]
  }

  function PrereleaseOf(front: string): seq<string> {
    var dash := IndexOf(front, '-');
    if dash == |front| then [] else Split(front[dash + 1..])
  }

  function BuildOf(s: string): seq<string> {
    var plus := IndexOf(s, '+');
    if plus == |s| then [] else Split(s[plus + 1..])
  }

  function ParseSemver(s: string): Option<Version> {
    var core := Split(CoreOf(FrontOf(s)));
    if |core| != 3 || !AllIdentifiers(BuildOf(s)) then None
    else
      var v := Version(core[0], core[1], core[2], PrereleaseOf(FrontOf(s)));
      if WellFormed(v) then Some(v) else None
  }

  lemma NumericAvoids(s: string)
    requires IsNumeric(s)
    ensures Without(s, '.') && Without(s, '-') && Without(s, '+')
  {
  }

  lemma IdentifierAvoids(s: string)
    requires IsIdentifier(s)
    ensures Without(s, '.') && Without(s, '+')
  {
  }

  lemma CoreAvoids(v: Version)
    requires WellFormed(v)
    ensures var core := [v.major, v.minor, v.patch];
            && (forall i :: 0 <= i < |core| ==> Without(core[i], '.'))
            && Without(Join(core), '-') && Without(Join(core), '+')
  {
    NumericAvoids(v.major);
    NumericAvoids(v.minor);
    NumericAvoids(v.patch);
    JoinAvoids([v.major, v.minor, v.patch], '-');
    JoinAvoids([v.major, v.minor, v.patch], '+');
  }

  /** The text in front of the build metadata. */
  function Front(v: Version): string {
    Join([v.major, v.minor, v.patch]) + (if v.prerelease == [] then "" else "-" + Join(v.prerelease))
  }

  lemma FrontAvoidsPlus(v: Version)
    requires WellFormed(v)
    ensures Without(Front(v), '+')
  {
    CoreAvoids(v);
    forall i | 0 <= i < |v.prerelease| ensures Without(v.prerelease[i], '+') {
      IdentifierAvoids(v.prerelease[i]);
    }
    JoinAvoids(v.prerelease, '+');
  }

  lemma FrontSplits(v: Version)
    requires WellFormed(v)
    ensures var dash := IndexOf(Front(v), '-');
            && Front(v)[..dash] == Join([v.major, v.minor, v.patch])
            && (v.prerelease == [] <==> dash == |Front(v)|)
            && (v.prerelease != [] ==> Front(v)[dash + 1..] == Join(v.prerelease))
  {
    CoreAvoids(v);
    var core := Join([v.major, v.minor, v.patch]);
    IndexOfFirst(core, '-', Join(v.prerelease));
    if v.prerelease != [] {
      assert Front(v) == core + ['-'] + Join(v.prerelease);
    } else {
      assert Front(v) == core;
    }
  }

  lemma RenderSplits(v: Version, build: seq<string>)
    requires WellFormed(v) && AllIdentifiers(build)
    ensures var s, plus := Render(v, build), IndexOf(Render(v, build), '+');
            && s[..plus] == Front(v)
            && (build == [] <==> plus == |s|)
            && (build != [] ==> s[plus + 1..] == Join(build))
  {
    FrontAvoidsPlus(v);
    IndexOfFirst(Front(v), '+', Join(build));
    if build != [] {
      assert Render(v, build) == Front(v) + ['+'] + Join(build);
    } else {
      assert Render(v, build) == Front(v);
    }
  }

  lemma IdentifiersSplit(parts: seq<string>)
    requires parts != [] && AllIdentifiers(parts)
    ensures Split(Join(parts)) == parts
  {
    forall i | 0 <= i < |parts| ensures Without(parts[i], '.') {
      IdentifierAvoids(parts[i]);
    }
    SplitJoin(parts);
  }

  lemma CoreParses(v: Version)
    requires WellFormed(v)
    ensures Split(CoreOf(Front(v))) == [v.major, v.minor, v.patch]
  {
    FrontSplits(v);
    CoreAvoids(v);
    SplitJoin([v.major, v.minor, v.patch]);
  }

  lemma PrereleaseParses(v: Version)
    requires WellFormed(v)
    ensures PrereleaseOf(Front(v)) == v.prerelease
  {
    FrontSplits(v);
    if v.prerelease != [] { IdentifiersSplit(v.prerelease); }
  }

  lemma BuildParses(v: Version, build: seq<string>)
    requires WellFormed(v) && AllIdentifiers(build)
    ensures FrontOf(Render(v, build)) == Front(v) && BuildOf(Render(v, build)) == build
  {
    RenderSplits(v, build);
    if build != [] { IdentifiersSplit(build); }
  }

  /** Parsing a printed version gives the version back, whatever its build metadata. */
  lemma ParsesWhatItPrints(v: Version, build: seq<string>)
    requires WellFormed(v) && AllIdentifiers(build)
    ensures ParseSemver(Render(v, build)) == Some(v)
  {
    CoreParses(v);
    PrereleaseParses(v);
    BuildParses(v, build);
  }

  /** A text is what comes before c, and, if c occurs, c and what comes after. */
  lemma CutAtFirst(s: string, c: char)
    ensures var n := IndexOf(s, c); s == s[..n] + if n < |s| then [c] + s[n + 1..] else []
  {
  }

  lemma CoreIsPrinted(s: string)
    requires ParseSemver(s).Some?
    ensures var v := ParseSemver(s).value; Join([v.major, v.minor, v.patch]) == CoreOf(FrontOf(s))
  {
    var core := Split(CoreOf(FrontOf(s)));
    JoinSplit(CoreOf(FrontOf(s)));
    assert core == [core[0], core[1], core[2]];
  }

  lemma PrereleaseIsPrinted(front: string)
    ensures var p := PrereleaseOf(front); front == CoreOf(front) + if p == [] then "" else "-" + Join(p)
  {
    var dash := IndexOf(front, '-');
    CutAtFirst(front, '-');
    if dash < |front| {
      JoinSplit(front[dash + 1..]);
    }
  }

  lemma BuildIsPrinted(s: string)
    ensures var b := BuildOf(s); s == FrontOf(s) + if b == [] then "" else "+" + Join(b)
  {
    var plus := IndexOf(s, '+');
    CutAtFirst(s, '+');
    if plus < |s| {
      JoinSplit(s[plus + 1..]);
    }
  }

  lemma PrintsWhatItParses(s: string)
    requires ParseSemver(s).Some?
    ensures s == Render(ParseSemver(s).value, BuildOf(s)) && AllIdentifiers(BuildOf(s))
  {
    CoreIsPrinted(s);
    PrereleaseIsPrinted(FrontOf(s));
    BuildIsPrinted(s);
  }

  /** `parseSemver` accepts exactly the texts of versions, and a text denotes one version only. */
  lemma ParseSemverIff(s: string, v: Version)
    ensures ParseSemver(s) == Some(v) <==> Denotes(s, v)
  {
    if ParseSemver(s) == Some(v) {
      PrintsWhatItParses(s);
    }
    if Denotes(s, v) {
      var build :| AllIdentifiers(build) && s == Render(v, build);
      ParsesWhatItPrints(v, build);
    }
  }

  /** `compareSemver`: an error for a text that is no version, otherwise the order of the versions denoted. */
  method CompareSemver(left: string, right: string) returns (r: Result<int>)
    ensures r.Ok? <==> (exists a :: Denotes(left, a)) && (exists b :: Denotes(right, b))
    ensures r.Ok? ==> -1 <= r.value <= 1
    ensures forall a, b :: Denotes(left, a) && Denotes(right, b) ==>
      && (r == Ok(0) <==> a == b)
      && (r == Ok(-1) <==> Precedes(a, b))
      && (r == Ok(1) <==> Precedes(b, a))
  {
    var a, b := ParseSemver(left), ParseSemver(right);
    forall v ensures (a == Some(v) <==> Denotes(left, v)) && (b == Some(v) <==> Denotes(right, v)) {
      ParseSemverIff(left, v);
      ParseSemverIff(right, v);
    }
    if a.None? || b.None? {
      return Err;
    }
    var c := CompareParsed(a.value, b.value);
    r := Ok(c);
  }
}
