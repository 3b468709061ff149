/** Which release the updater offers. */
module Updates {
  import opened Domain
  import opened Parts
  import opened SemVer

  datatype Release = Release(tag: string, draft: bool, prerelease: bool, published: bool)

  datatype Candidate = Candidate(release: Release, version: Version)

  datatype Outcome =
    | InvalidInstalled
    | InvalidMetadata
    | UpToDate
    | Offered(selected: Release, history: seq<Candidate>)

  /** The metadata of a published release agrees with its tag. */
  predicate Consistent(release: Release) {
    var version := ParsedTag(release.tag);
    version.Some? && (release.prerelease <==> version.value.prerelease != []) && release.published
  }

  /** Newer than what is installed; prereleases only for those who run one. */
  predicate Eligible(release: Release, current: Version) {
    && !release.draft && Consistent(release)
    && (current.prerelease != [] || !release.prerelease)
    && Compare(ParsedTag(release.tag).value, current) > 0
  }

  function Candidates(releases: seq<Release>, current: Version): seq<Candidate> {
    if releases == [] then []
    else
      var rest := Candidates(releases[..|releases| - 1], current);
      var last := releases[|releases| - 1];
      if Eligible(last, current) then rest + [Candidate(last, ParsedTag(last.tag).value)] else rest
  }

  lemma {:induction false} CandidatesAreEligible(releases: seq<Release>, current: Version)
    ensures forall c :: c in Candidates(releases, current) <==>
              c.release in releases && Eligible(c.release, current) && ParsedTag(c.release.tag) == Some(c.version)
  {
    if releases != [] {
      CandidatesAreEligible(releases[..|releases| - 1], current);
      assert releases == releases[..|releases| - 1] + [releases[|releases| - 1]];
    }
  }

  // ---------------------------------------------------------------- newest first

  predicate NewestFirst(candidates: seq<Candidate>) {
    forall i, k :: 0 <= i < k < |candidates| ==> Compare(candidates[k].version, candidates[i].version) <= 0
  }

  /** The same candidates, newest first. */
  method SortEligible(eligible: seq<Candidate>) returns (sorted: seq<Candidate>)
    ensures NewestFirst(sorted) && multiset(sorted) == multiset(eligible)
  {
    sorted := [];
    for index := 0 to |eligible|
      invariant NewestFirst(sorted) && multiset(sorted) == multiset(eligible[..index])
    {
      assert eligible[..index + 1] == eligible[..index] + [eligible[index]];
      sorted := Insert(sorted, eligible[index]);
    }
    assert eligible[..|eligible|] == eligible;
  }

  lemma Inserted(sorted: seq<Candidate>, candidate: Candidate, position: nat)
    requires NewestFirst(sorted) && position <= |sorted|
    requires forall i :: 0 <= i < position ==> Compare(candidate.version, sorted[i].version) <= 0
    requires position < |sorted| ==> Compare(candidate.version, sorted[position].version) > 0
    ensures NewestFirst(sorted[..position] + [candidate] + sorted[position..])
  {
    hide Compare;
    forall i | position <= i < |sorted| ensures Compare(sorted[i].version, candidate.version) <= 0 {
      CompareIsTotalOrder(candidate.version, sorted[position].version, candidate.version);
      CompareIsTotalOrder(sorted[i].version, sorted[position].version, candidate.version);
      if i == position {
        CompareIsTotalOrder(sorted[i].version, candidate.version, candidate.version);
      }
    }
  }

  method Insert(sorted: seq<Candidate>, candidate: Candidate) returns (longer: seq<Candidate>)
    requires NewestFirst(sorted)
    ensures NewestFirst(longer) && multiset(longer) == multiset(sorted) + multiset{candidate}
  {
    hide NewestFirst;
    var position := 0;
    while position < |sorted| && Compare(candidate.version, sorted[position].version) <= 0
      invariant 0 <= position <= |sorted|
      invariant forall i :: 0 <= i < position ==> Compare(candidate.version, sorted[i].version) <= 0
    {
      position := position + 1;
    }
    Inserted(sorted, candidate, position);
    assert sorted == sorted[..position] + sorted[position..];
    longer := sorted[..position] + [candidate] + sorted[position..];
  }

  // ---------------------------------------------------------------- the check

  /** No newer than what is installed, or a prerelease for somebody who runs none. */
  predicate NotForHim(version: Version, current: Version) {
    Compare(version, current) <= 0 || (version.prerelease != [] && current.prerelease == [])
  }

  /** An installed version or a published release that cannot be trusted ends the check
      with an error; otherwise the newest eligible release is offered, strictly newer
      than the installed one, with all eligible releases newest first. */
  method Check(installed: string, releases: seq<Release>) returns (outcome: Outcome)
    ensures outcome == InvalidInstalled <==> Parsed(Tagless(installed)).None?
    ensures outcome == InvalidMetadata <==>
              Parsed(Tagless(installed)).Some? &&
              exists r :: r in releases && !r.draft
                          && (ParsedTag(r.tag).None? || !r.published
                              || r.prerelease != (ParsedTag(r.tag).value.prerelease != []))
    ensures outcome == UpToDate ==>
              forall r :: r in releases && !r.draft ==>
                ParsedTag(r.tag).Some? && NotForHim(ParsedTag(r.tag).value, Parsed(Tagless(installed)).value)
    ensures outcome.Offered? ==>
              var current := Parsed(Tagless(installed)).value;
              && outcome.selected in releases && !outcome.selected.draft && ParsedTag(outcome.selected.tag).Some?
              && !NotForHim(ParsedTag(outcome.selected.tag).value, current)
              && (forall r :: r in releases && !r.draft && ParsedTag(r.tag).Some? &&
                              !NotForHim(ParsedTag(r.tag).value, current) ==>
                    Compare(ParsedTag(r.tag).value, ParsedTag(outcome.selected.tag).value) <= 0)
              && NewestFirst(outcome.history)
              && multiset(outcome.history) == multiset(Candidates(releases, current))
  {
    var current := ParseSemanticVersion(installed, false);
    if current.None? {
      return InvalidInstalled;
    }
    var eligible := [];
    for index := 0 to |releases|
      invariant forall r :: r in releases[..index] && !r.draft ==> Consistent(r)
      invariant eligible == Candidates(releases[..index], current.value)
    {
      var release := releases[index];
      assert releases[..index + 1] == releases[..index] + [release];
      assert releases[..index + 1][..index] == releases[..index];
      if release.draft { continue; }
      var version := ParseSemanticVersion(release.tag, true);
      if version.None? || release.prerelease != (version.value.prerelease != []) || !release.published {
        return InvalidMetadata;
      }
      if current.value.prerelease == [] && release.prerelease { continue; }
      var order := CompareVersions(version.value, current.value);
      if order <= 0 { continue; }
      eligible := eligible + [Candidate(release, version.value)];
    }
    assert releases[..|releases|] == releases;
    EmptyMeansNone(releases, current.value);
    if eligible == [] {
      return UpToDate;
    }
    var sorted := SortEligible(eligible);
    FirstIsNewest(releases, current.value, sorted);
    assert Eligible(sorted[0].release, current.value);
    return Offered(sorted[0].release, sorted);
  }

  lemma EmptyMeansNone(releases: seq<Release>, current: Version)
    ensures Candidates(releases, current) == [] <==> forall r :: r in releases ==> !Eligible(r, current)
  {
    CandidatesAreEligible(releases, current);
    if r :| r in releases && Eligible(r, current) {
      assert Candidate(r, ParsedTag(r.tag).value) in Candidates(releases, current);
    }
    if Candidates(releases, current) != [] {
      assert Candidates(releases, current)[0].release in releases;
    }
  }

  lemma FirstIsNewest(releases: seq<Release>, current: Version, sorted: seq<Candidate>)
    requires NewestFirst(sorted) && multiset(sorted) == multiset(Candidates(releases, current))
    requires Candidates(releases, current) != []
    ensures sorted != []
    ensures var selected := sorted[0].release;
            && selected in releases && Eligible(selected, current)
            && (forall r :: r in releases && Eligible(r, current) ==>
                  Compare(ParsedTag(r.tag).value, ParsedTag(selected.tag).value) <= 0)
  {
    var candidates := Candidates(releases, current);
    CandidatesAreEligible(releases, current);
    assert candidates[0] in multiset(sorted);
    assert sorted[0] in multiset(candidates);
    forall r | r in releases && Eligible(r, current)
      ensures Compare(ParsedTag(r.tag).value, ParsedTag(sorted[0].release.tag).value) <= 0
    {
      var candidate := Candidate(r, ParsedTag(r.tag).value);
      assert candidate in candidates && candidate in multiset(sorted);
      var i :| 0 <= i < |sorted| && sorted[i] == candidate;
      CompareIsTotalOrder(candidate.version, candidate.version, candidate.version);
    }
  }
}
