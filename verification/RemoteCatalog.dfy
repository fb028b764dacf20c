/** Which remote packages are new, newer, current or older than what runs (desktop/src/package-controller.js). */
module RemoteCatalog {
  import opened Common
  import opened Semver
  import opened SemverText

  datatype Package = Package(packageId: string, version: string)

  datatype Availability = NewAgent | UpdateAvailable | Current | LocalNewer

  /** k is the last package of the list with this id: later entries replace earlier ones in a `Map`. */
  ghost predicate IsLast(packages: seq<Package>, id: string, k: int) {
    0 <= k < |packages| && packages[k].packageId == id && forall j :: k < j < |packages| ==> packages[j].packageId != id
  }

  ghost predicate IsListed(packages: seq<Package>, id: string) {
    exists k :: 0 <= k < |packages| && packages[k].packageId == id
  }

  /** The published meaning of the four answers, in terms of precedence. */
  ghost predicate Describes(availability: Availability, remote: Version, running: Version)
    requires WellFormed(remote) && WellFormed(running)
  {
    match availability
    case NewAgent => false
    case UpdateAvailable => Precedes(running, remote)
    case Current => remote == running
    case LocalNewer => Precedes(remote, running)
  }

  ghost predicate RightAnswer(availability: Availability, remote: Package, runtime: seq<Package>) {
    if !IsListed(runtime, remote.packageId) then availability.NewAgent?
    else
      forall k, a, b :: IsLast(runtime, remote.packageId, k) && Denotes(remote.version, a) && Denotes(runtime[k].version, b) ==>
        Describes(availability, a, b)
  }

  ghost predicate IsVersion(text: string) {
    exists v :: Denotes(text, v)
  }

  /** The id map as `Map` builds it. */
  function ById(packages: seq<Package>): map<string, Package> {
    if packages == [] then map[]
    else
      var last := packages[|packages| - 1];
      ById(packages[..|packages| - 1])[last.packageId := last]
  }

  lemma {:induction false} ListedIffMapped(packages: seq<Package>, id: string)
    ensures id in ById(packages) <==> IsListed(packages, id)
  {
    if packages != [] {
      var front, last := packages[..|packages| - 1], packages[|packages| - 1];
      ListedIffMapped(front, id);
      if IsListed(packages, id) && id != last.packageId {
        var k :| 0 <= k < |packages| && packages[k].packageId == id;
        assert front[k].packageId == id;
      }
      if IsListed(front, id) {
        var k :| 0 <= k < |front| && front[k].packageId == id;
        assert packages[k].packageId == id;
      }
    }
  }

  lemma {:induction false} LastIsMapped(packages: seq<Package>, id: string, k: int)
    requires IsLast(packages, id, k)
    ensures id in ById(packages) && ById(packages)[id] == packages[k]
  {
    var front := packages[..|packages| - 1];
    if k < |front| {
      assert packages[|packages| - 1].packageId != id;
      LastIsMapped(front, id, k);
    }
  }

  method IndexById(packages: seq<Package>) returns (byId: map<string, Package>)
    ensures byId == ById(packages)
  {
    byId := map[];
    for n := 0 to |packages|
      invariant byId == ById(packages[..n])
    {
      assert packages[..n + 1][..n] == packages[..n];
      byId := byId[packages[n].packageId := packages[n]];
    }
    assert packages[..|packages|] == packages;
  }

  /** What a remote version is to a running one; an error only for a text that is no version. */
  method Grade(remote: string, running: string) returns (r: Result<Availability>)
    ensures r.Ok? ==> forall a, b :: Denotes(remote, a) && Denotes(running, b) ==> Describes(r.value, a, b)
    ensures r.Err? ==> !IsVersion(remote) || !IsVersion(running)
  {
    var comparison := CompareSemver(remote, running);
    if comparison.Err? {
      return Err;
    }
    r := Ok(if comparison.value > 0 then UpdateAvailable else if comparison.value == 0 then Current else LocalNewer);
  }

  /** The answer for one package. */
  method AnswerFor(p: Package, ghost runtime: seq<Package>, byId: map<string, Package>) returns (r: Result<Availability>)
    requires byId == ById(runtime)
    ensures r.Ok? ==> RightAnswer(r.value, p, runtime)
    ensures r.Err? ==> p.packageId in byId && !(IsVersion(p.version) && IsVersion(byId[p.packageId].version))
  {
    ListedIffMapped(runtime, p.packageId);
    if p.packageId !in byId {
      return Ok(NewAgent);
    }
    forall k | IsLast(runtime, p.packageId, k) ensures runtime[k] == byId[p.packageId] {
      LastIsMapped(runtime, p.packageId, k);
    }
    r := Grade(p.version, byId[p.packageId].version);
  }

  lemma {:induction false} MappedIsListed(packages: seq<Package>, id: string)
    requires id in ById(packages)
    ensures ById(packages)[id] in packages
  {
    var front, last := packages[..|packages| - 1], packages[|packages| - 1];
    if id != last.packageId { MappedIsListed(front, id); }
  }

  /**
   The package loop of `normalizeRemoteDiscovery`. Texts that are no versions were refused before; with
   versions only, every package gets the answer that precedence dictates.
   */
  method Availabilities(packages: seq<Package>, runtime: seq<Package>) returns (r: Result<seq<Availability>>)
    ensures r.Ok? ==> |r.value| == |packages|
    ensures r.Ok? ==> forall i :: 0 <= i < |packages| ==> RightAnswer(r.value[i], packages[i], runtime)
    ensures (forall p :: p in packages || p in runtime ==> IsVersion(p.version)) ==> r.Ok?
  {
    var byId := IndexById(runtime);
    var answers: seq<Availability> := [];
    for i := 0 to |packages|
      invariant |answers| == i
      invariant forall j :: 0 <= j < i ==> RightAnswer(answers[j], packages[j], runtime)
    {
      var answer := AnswerFor(packages[i], runtime, byId);
      if answer.Err? {
        MappedIsListed(runtime, packages[i].packageId);
        return Err;
      }
      answers := answers + [answer.value];
    }
    r := Ok(answers);
  }
}
