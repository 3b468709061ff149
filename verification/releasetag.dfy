/** The release tool's own reading of a version tag, and its agreement with the
    updater. */
module ReleaseTag {
  import opened Domain
  import opened Parts
  import opened SemVer
  import Text

  datatype ReleaseVersion = ReleaseVersion(
    canonical: string, numericCore: string, numericFourPart: string, prerelease: bool, isRelease: bool)

  const MAJOR := "2"
  const DEVELOPMENT := ReleaseVersion("development", "0.0.0", "0.0.0.0", false, false)

  /** What the version pattern matches, with its four groups: three numbers without
      leading zeros and, after a hyphen, non-empty identifiers between dots. */
  ghost predicate Matches(text: string, groups: seq<string>) {
    && |groups| == 4
    && CanonicalNumber(groups[0]) && CanonicalNumber(groups[1]) && CanonicalNumber(groups[2])
    && text == Join(groups[..3], '.') + (if groups[3] == "" then "" else "-" + groups[3])
    && (groups[3] == "" || forall id :: id in Split(groups[3], '.') ==> Identifier(id))
  }

  predicate HasLeadingZero(identifier: string) {
    |identifier| > 1 && identifier[0] == '0' && AllDigits(identifier)
  }

  /** From the groups of a match to the version used by every package. */
  method ReleaseVersionFromMatches(groups: seq<string>) returns (version: Option<ReleaseVersion>)
    requires |groups| == 4
    ensures version.Some? <==> groups[0] == MAJOR && forall id :: id in Split(groups[3], '.') ==> !HasLeadingZero(id)
    ensures version.Some? ==>
              var core := Join(groups[..3], '.');
              && version.value.canonical == core + (if groups[3] == "" then "" else "-" + groups[3])
              && version.value.numericCore == core && version.value.numericFourPart == core + ".0"
              && version.value.prerelease == (groups[3] != "") && version.value.isRelease
  {
    if groups[0] != MAJOR {
      return None;
    }
    var identifiers := Split(groups[3], '.');
    for index := 0 to |identifiers|
      invariant forall i :: 0 <= i < index ==> !HasLeadingZero(identifiers[i])
    {
      var digits := IsAllDigits(identifiers[index]);
      if |identifiers[index]| > 1 && identifiers[index][0] == '0' && digits {
        assert identifiers[index] in Split(groups[3], '.') && HasLeadingZero(identifiers[index]);
        return None;
      }
    }
    assert forall id :: id in identifiers ==> !HasLeadingZero(id);
    var core := Join(groups[..3], '.');
    var canonical := core + if groups[3] == "" then "" else "-" + groups[3];
    return Some(ReleaseVersion(canonical, core, core + ".0", groups[3] != "", true));
  }

  /** A text is a release version when the pattern matches it and its groups pass. */
  ghost predicate Accepts(text: string, groups: seq<string>) {
    && Matches(text, groups) && groups[0] == MAJOR
    && forall id :: id in Split(groups[3], '.') ==> !HasLeadingZero(id)
  }

  function GroupsOf(v: Version): seq<string> {
    [v.major, v.minor, v.patch, Join(v.prerelease, '.')]
  }

  lemma MatchIsRendering(text: string, groups: seq<string>)
    requires Accepts(text, groups)
    ensures var v := Version(groups[0], groups[1], groups[2], if groups[3] == "" then [] else Split(groups[3], '.'));
            WellFormed(v) && Render(v) == text && GroupsOf(v) == groups
  {
    JoinUndoesSplit(groups[3], '.');
    var v := Version(groups[0], groups[1], groups[2], if groups[3] == "" then [] else Split(groups[3], '.'));
    assert groups[..3] == CoreOf(v);
    assert groups == [groups[0], groups[1], groups[2], groups[3]];
    if groups[3] == "" {
      assert Join(v.prerelease, '.') == "";
    }
  }

  lemma RenderingMatches(v: Version)
    requires WellFormed(v) && v.major == MAJOR
    ensures Accepts(Render(v), GroupsOf(v))
  {
    var groups := GroupsOf(v);
    assert groups[..3] == CoreOf(v);
    if v.prerelease != [] {
      forall id, c | id in v.prerelease && !IdentifierChar(c) ensures c !in id {
        IdentifiersHaveNo(id, c);
      }
      SplitUndoesJoin(v.prerelease, '.');
      assert v.prerelease[0] in v.prerelease;
      JoinIsNotEmpty(v.prerelease);
    } else {
      assert Split("", '.') == [""];
    }
  }

  lemma JoinIsNotEmpty(identifiers: seq<string>)
    requires identifiers != [] && identifiers[0] != ""
    ensures Join(identifiers, '.') != ""
  {
  }

  /** The two parsers agree: the release tool accepts a tag exactly when the updater
      reads it as a version with major 2, and what it prints is the tag without its v. */
  lemma ParsersAgree(tag: string)
    ensures (exists groups :: tag != "" && tag[0] == 'v' && Accepts(tag[1..], groups)) <==>
            (ParsedTag(tag).Some? && ParsedTag(tag).value.major == MAJOR)
    ensures forall groups :: tag != "" && tag[0] == 'v' && Accepts(tag[1..], groups) ==>
              && groups == GroupsOf(ParsedTag(tag).value)
              && Join(groups[..3], '.') + (if groups[3] == "" then "" else "-" + groups[3]) == tag[1..]
              && (groups[3] != "" <==> ParsedTag(tag).value.prerelease != [])
  {
    if tag != "" && tag[0] == 'v' {
      VersionsAgree(tag[1..]);
    }
  }

  /** The same for a bare build version; an empty one is the development build. */
  lemma VersionsAgree(text: string)
    ensures (exists groups :: Accepts(text, groups)) <==> (Parsed(text).Some? && Parsed(text).value.major == MAJOR)
    ensures forall groups :: Accepts(text, groups) ==>
              && Parsed(text).Some? && groups == GroupsOf(Parsed(text).value)
              && (groups[3] != "" <==> Parsed(text).value.prerelease != [])
  {
    forall groups | Accepts(text, groups)
      ensures Parsed(text).Some? && groups == GroupsOf(Parsed(text).value) && groups[0] == MAJOR
      ensures groups[3] != "" <==> Parsed(text).value.prerelease != []
    {
      MatchIsRendering(text, groups);
      var v := Version(groups[0], groups[1], groups[2], if groups[3] == "" then [] else Split(groups[3], '.'));
      ParsesExactlyRendered(text, v);
    }
    if Parsed(text).Some? && Parsed(text).value.major == MAJOR {
      var v := Parsed(text).value;
      ParsesExactlyRendered(text, v);
      RenderingMatches(v);
      assert Accepts(text, GroupsOf(v));
    }
  }

  // ---------------------------------------------------------------- the entry points

  // What the pattern engine reports: the groups of a match, or that there is none.
  ghost predicate Reported(text: string, groups: Option<seq<string>>) {
    if groups.Some? then Matches(text, groups.value) else forall other :: !Matches(text, other)
  }

  /** Accepted exactly when the updater accepts the tag with major 2, and printed as
      the tag without its v. */
  method ParseReleaseTag(tag: string, groups: Option<seq<string>>) returns (version: Option<ReleaseVersion>)
    requires if tag != "" && tag[0] == 'v' then Reported(tag[1..], groups) else groups == None
    ensures version.Some? <==> ParsedTag(tag).Some? && ParsedTag(tag).value.major == MAJOR
    ensures version.Some? ==>
              && version.value.canonical == tag[1..] && version.value.isRelease
              && (version.value.prerelease <==> ParsedTag(tag).value.prerelease != [])
  {
    ParsersAgree(tag);
    if groups.None? {
      return None;
    }
    version := ReleaseVersionFromMatches(groups.value);
    assert version.Some? <==> Accepts(tag[1..], groups.value);
    OnlyOneMatch(tag[1..], groups.value);
  }

  lemma OnlyOneMatch(text: string, groups: seq<string>)
    requires Matches(text, groups)
    ensures forall other :: Accepts(text, other) ==> other == groups
  {
    forall other | Accepts(text, other) ensures other == groups {
      MatchesAreUnique(text, groups, other);
    }
  }

  /** The pattern is unambiguous. */
  lemma MatchesAreUnique(text: string, left: seq<string>, right: seq<string>)
    requires Matches(text, left) && Matches(text, right)
    ensures left == right
  {
    GroupsAreDetermined(text, left);
    GroupsAreDetermined(text, right);
  }

  lemma GroupsAreDetermined(text: string, groups: seq<string>)
    requires Matches(text, groups)
    ensures var (core, rest) := Cut(text, '-');
            groups == Split(core, '.') + [if rest.None? then "" else rest.value]
  {
    var numbers := groups[..3];
    forall part, c | part in numbers && !Text.Digit(c) ensures c !in part {
      NumbersHaveNo(part, c);
    }
    JoinAvoids(numbers, '.', '-');
    SplitUndoesJoin(numbers, '.');
    var rest := if groups[3] == "" then None else Some(groups[3]);
    assert text == Join(numbers, '.') + if rest.None? then "" else ['-'] + rest.value;
    CutIsUnique(Join(numbers, '.'), rest, '-');
    assert groups == numbers + [groups[3]];
  }

  method ResolveBuildVersion(value: string, groups: Option<seq<string>>) returns (version: Option<ReleaseVersion>)
    requires value != "" ==> Reported(value, groups)
    ensures value == "" ==> version == Some(DEVELOPMENT)
    ensures value != "" ==>
              && (version.Some? <==> Parsed(value).Some? && Parsed(value).value.major == MAJOR)
              && (version.Some? ==> version.value.canonical == value && version.value.isRelease)
  {
    if value == "" {
      return Some(DEVELOPMENT);
    }
    VersionsAgree(value);
    if groups.None? {
      return None;
    }
    version := ReleaseVersionFromMatches(groups.value);
    assert version.Some? <==> Accepts(value, groups.value);
    OnlyOneMatch(value, groups.value);
  }
}
