/** Release versions: the updater's parser and comparator, Semantic Versioning 2.0.0
    as an independent standard, and the release tool's own reading of a tag. */
module SemVer {
  import opened Domain
  import opened Parts
  import Text

  datatype Version = Version(major: string, minor: string, patch: string, prerelease: seq<string>)

  // ---------------------------------------------------------------- identifiers

  /** No leading zero (sections 2 and 9). */
  predicate CanonicalNumber(text: string) {
    AllDigits(text) && (|text| == 1 || text[0] != '0')
  }

  predicate IdentifierChar(c: char) {
    c == '-' || Text.Digit(c) || 'A' <= c <= 'Z' || 'a' <= c <= 'z'
  }

  predicate Identifier(text: string) {
    text != "" && forall i :: 0 <= i < |text| ==> IdentifierChar(text[i])
  }

  predicate PrereleaseIdentifier(text: string) {
    Identifier(text) && (AllDigits(text) ==> CanonicalNumber(text))
  }

  predicate WellFormed(v: Version) {
    && CanonicalNumber(v.major) && CanonicalNumber(v.minor) && CanonicalNumber(v.patch)
    && forall id :: id in v.prerelease ==> PrereleaseIdentifier(id)
  }

  method IsIdentifier(text: string) returns (yes: bool)
    ensures yes <==> Identifier(text)
  {
    if text == "" {
      return false;
    }
    for index := 0 to |text|
      invariant forall i :: 0 <= i < index ==> IdentifierChar(text[i])
    {
      if !IdentifierChar(text[index]) {
        return false;
      }
    }
    return true;
  }

  method IsCanonicalNumber(text: string) returns (yes: bool)
    ensures yes <==> CanonicalNumber(text)
  {
    var digits := IsAllDigits(text);
    return digits && (|text| == 1 || text[0] != '0');
  }

  // ---------------------------------------------------------------- the updater's parser

  function CoreOf(v: Version): seq<string> {
    [v.major, v.minor, v.patch]
  }

  /** How the standard writes a version. */
  function Render(v: Version): string {
    Join(CoreOf(v), '.') + if v.prerelease == [] then "" else "-" + Join(v.prerelease, '.')
  }

  function Parsed(value: string): Option<Version> {
    if value == "" || '+' in value then None
    else
      var (core, prerelease) := Cut(value, '-');
      var parts := Split(core, '.');
      if |parts| != 3 then None
      else
        var v := Version(parts[0], parts[1], parts[2], if prerelease.None? then [] else Split(prerelease.value, '.'));
        if WellFormed(v) then Some(v) else None
  }

  function Tagless(value: string): string {
    if value != "" && value[0] == 'v' then value[1..] else value
  }

  function ParsedTag(value: string): Option<Version> {
    if value == "" || value[0] != 'v' then None else Parsed(value[1..])
  }

  method ParseSemanticVersion(value: string, requireTag: bool) returns (version: Option<Version>)
    ensures version == if requireTag then ParsedTag(value) else Parsed(Tagless(value))
  {
    if requireTag && (value == "" || value[0] != 'v') {
      return None;
    }
    var text := Tagless(value);
    if text == "" || '+' in text {
      return None;
    }
    var (core, prerelease) := Cut(text, '-');
    var parts := Split(core, '.');
    if |parts| != 3 {
      return None;
    }
    for index := 0 to |parts|
      invariant forall i :: 0 <= i < index ==> CanonicalNumber(parts[i])
    {
      var ok := IsCanonicalNumber(parts[index]);
      if !ok {
        return None;
      }
    }
    if prerelease.None? {
      return Some(Version(parts[0], parts[1], parts[2], []));
    }
    var identifiers := Split(prerelease.value, '.');
    for index := 0 to |identifiers|
      invariant forall i :: 0 <= i < index ==> PrereleaseIdentifier(identifiers[i])
    {
      var ok := IsIdentifier(identifiers[index]);
      var digits := IsAllDigits(identifiers[index]);
      var canonical := IsCanonicalNumber(identifiers[index]);
      if !ok || (digits && !canonical) {
        assert identifiers[index] in identifiers;
        return None;
      }
    }
    return Some(Version(parts[0], parts[1], parts[2], identifiers));
  }

  lemma NumbersHaveNo(text: string, c: char)
    requires CanonicalNumber(text) && !Text.Digit(c)
    ensures c !in text
  {
  }

  lemma IdentifiersHaveNo(text: string, c: char)
    requires Identifier(text) && !IdentifierChar(c)
    ensures c !in text
  {
  }

  lemma {:induction false} JoinAvoids(parts: seq<string>, separator: char, c: char)
    requires c != separator && forall part :: part in parts ==> c !in part
    ensures c !in Join(parts, separator)
  {
    if |parts| > 1 {
      assert forall part :: part in parts[1..] ==> part in parts;
      JoinAvoids(parts[1..], separator, c);
      assert parts[0] in parts;
    }
  }

  /** A text parses exactly when it is the standard's spelling of a well-formed
      version, and then as that version: reading and writing are inverse. */
  lemma ParsesExactlyRendered(value: string, v: Version)
    ensures Parsed(value) == Some(v) <==> WellFormed(v) && Render(v) == value
  {
    if Parsed(value) == Some(v) {
      ParsedIsRendered(value, v);
    }
    if WellFormed(v) && Render(v) == value {
      RenderedIsParsed(v);
    }
  }

  lemma ParsedIsRendered(value: string, v: Version)
    requires Parsed(value) == Some(v)
    ensures WellFormed(v) && Render(v) == value
  {
    var (core, prerelease) := Cut(value, '-');
    CutFindsFirst(value, '-');
    JoinUndoesSplit(core, '.');
    assert Split(core, '.') == CoreOf(v);
    if prerelease.Some? {
      JoinUndoesSplit(prerelease.value, '.');
    }
  }

  lemma RenderedIsParsed(v: Version)
    requires WellFormed(v)
    ensures Parsed(Render(v)) == Some(v)
  {
    var core := Join(CoreOf(v), '.');
    var prerelease := if v.prerelease == [] then None else Some(Join(v.prerelease, '.'));
    forall part, c | part in CoreOf(v) && !Text.Digit(c) ensures c !in part {
      NumbersHaveNo(part, c);
    }
    forall id, c | id in v.prerelease && !IdentifierChar(c) ensures c !in id {
      IdentifiersHaveNo(id, c);
    }
    JoinAvoids(CoreOf(v), '.', '-');
    JoinAvoids(CoreOf(v), '.', '+');
    JoinAvoids(v.prerelease, '.', '+');
    CutIsUnique(core, prerelease, '-');
    SplitUndoesJoin(CoreOf(v), '.');
    if v.prerelease != [] {
      SplitUndoesJoin(v.prerelease, '.');
    }
    assert core == v.major + ['.'] + Join(CoreOf(v)[1..], '.');
    assert Render(v) == core + if prerelease.None? then "" else ['-'] + prerelease.value;
  }

  // ---------------------------------------------------------------- the comparator

  /** Shorter numbers first, then digit by digit. */
  function CompareNumbers(left: string, right: string): int {
    if |left| < |right| then -1 else if |left| > |right| then 1 else Text.Compare(left, right)
  }

  function CompareIdentifiers(left: string, right: string): int {
    if AllDigits(left) && AllDigits(right) then CompareNumbers(left, right)
    else if AllDigits(left) then -1
    else if AllDigits(right) then 1
    else Text.Compare(left, right)
  }

  function CompareLists(left: seq<string>, right: seq<string>): int {
    if left == [] then (if right == [] then 0 else -1)
    else if right == [] then 1
    else
      var first := CompareIdentifiers(left[0], right[0]);
      if first != 0 then first else CompareLists(left[1..], right[1..])
  }

  function ComparePrereleases(left: seq<string>, right: seq<string>): int {
    if left == [] && right == [] then 0
    else if left == [] then 1
    else if right == [] then -1
    else CompareLists(left, right)
  }

  function CompareCores(left: seq<string>, right: seq<string>): int
    requires |left| == |right|
  {
    if left == [] then 0
    else
      var first := CompareNumbers(left[0], right[0]);
      if first != 0 then first else CompareCores(left[1..], right[1..])
  }

  function Compare(left: Version, right: Version): int {
    var core := CompareCores(CoreOf(left), CoreOf(right));
    if core != 0 then core else ComparePrereleases(left.prerelease, right.prerelease)
  }

  method CompareVersions(left: Version, right: Version) returns (order: int)
    ensures order == Compare(left, right)
  {
    var pairs := [(left.major, right.major), (left.minor, right.minor), (left.patch, right.patch)];
    for index := 0 to 3
      invariant CompareCores(CoreOf(left), CoreOf(right)) == CompareCores(CoreOf(left)[index..], CoreOf(right)[index..])
    {
      var order := CompareNumbers(pairs[index].0, pairs[index].1);
      if order != 0 {
        return order;
      }
      assert CoreOf(left)[index..][1..] == CoreOf(left)[index + 1..];
      assert CoreOf(right)[index..][1..] == CoreOf(right)[index + 1..];
    }
    if left.prerelease == [] && right.prerelease == [] { return 0; }
    if left.prerelease == [] { return 1; }
    if right.prerelease == [] { return -1; }
    order := CompareIdentifierLists(left.prerelease, right.prerelease);
  }

  method CompareIdentifierLists(left: seq<string>, right: seq<string>) returns (order: int)
    ensures order == CompareLists(left, right)
  {
    var shorter := if |left| < |right| then |left| else |right|;
    for index := 0 to shorter
      invariant CompareLists(left, right) == CompareLists(left[index..], right[index..])
    {
      var order := CompareIdentifiers(left[index], right[index]);
      if order != 0 {
        return order;
      }
      assert left[index..][1..] == left[index + 1..] && right[index..][1..] == right[index + 1..];
    }
    return if |left| < |right| then -1 else if |left| > |right| then 1 else 0;
  }

  // ---------------------------------------------------------------- precedence, section 11

  predicate IdentifierBefore(left: string, right: string) {
    || (AllDigits(left) && AllDigits(right) && Value(left) < Value(right))
    || (AllDigits(left) && !AllDigits(right))
    || (!AllDigits(left) && !AllDigits(right) && Text.Before(left, right))
  }

  // The lists agree up to `i`, where the left one ends or has the lower identifier.
  predicate DivergesAt(left: seq<string>, right: seq<string>, i: nat) {
    && i <= |left| && i < |right| && left[..i] == right[..i]
    && (i == |left| || IdentifierBefore(left[i], right[i]))
  }

  predicate PrereleaseBefore(left: seq<string>, right: seq<string>) {
    && left != []
    && (right == [] || exists i :: 0 <= i <= |left| && DivergesAt(left, right, i))
  }

  predicate CoreBefore(left: Version, right: Version)
    requires WellFormed(left) && WellFormed(right)
  {
    || Value(left.major) < Value(right.major)
    || (Value(left.major) == Value(right.major) && Value(left.minor) < Value(right.minor))
    || (Value(left.major) == Value(right.major) && Value(left.minor) == Value(right.minor)
        && Value(left.patch) < Value(right.patch))
  }

  predicate SameCore(left: Version, right: Version)
    requires WellFormed(left) && WellFormed(right)
  {
    Value(left.major) == Value(right.major) && Value(left.minor) == Value(right.minor) &&
        Value(left.patch) == Value(right.patch)
  }

  /** Precedence as the standard words it. */
  predicate Precedes(left: Version, right: Version)
    requires WellFormed(left) && WellFormed(right)
  {
    CoreBefore(left, right) || (SameCore(left, right) && PrereleaseBefore(left.prerelease, right.prerelease))
  }

  function Power(n: nat): (p: nat)
    ensures p >= 1
  {
    if n == 0 then 1 else 10 * Power(n - 1)
  }

  lemma {:induction false} ValueBounds(text: string)
    requires AllDigits(text)
    ensures Value(text) < Power(|text|)
    ensures text[0] != '0' ==> Power(|text| - 1) <= Value(text)
  {
    var init := text[..|text| - 1];
    if init != "" {
      ValueBounds(init);
      assert init[0] == text[0];
    } else {
      assert Value(init) == 0;
    }
  }

  lemma {:induction false} PowerGrows(m: nat, n: nat)
    requires m <= n
    ensures Power(m) <= Power(n)
  {
    if m < n {
      PowerGrows(m, n - 1);
    }
  }

  lemma {:induction false} CompareByInit(left: string, right: string)
    requires |left| == |right| > 0
    ensures var init := Text.Compare(left[..|left| - 1], right[..|right| - 1]);
            Text.Compare(left, right) ==
            if init != 0 then init
            else if left[|left| - 1] < right[|right| - 1] then -1
            else if right[|right| - 1] < left[|left| - 1] then 1 else 0
  {
    if |left| > 1 {
      assert left[..|left| - 1][1..] == left[1..][..|left| - 2];
      assert right[..|right| - 1][1..] == right[1..][..|right| - 2];
      CompareByInit(left[1..], right[1..]);
    } else {
      assert Text.Compare(left[1..], right[1..]) == 0;
    }
  }

  /** Digit strings of one length compare like their values. */
  lemma {:induction false} SameLengthComparesValues(left: string, right: string)
    requires |left| == |right|
    requires forall i :: 0 <= i < |left| ==> Text.Digit(left[i]) && Text.Digit(right[i])
    ensures Text.Compare(left, right) < 0 <==> Value(left) < Value(right)
    ensures Text.Compare(left, right) == 0 <==> Value(left) == Value(right)
  {
    if left != "" {
      SameLengthComparesValues(left[..|left| - 1], right[..|right| - 1]);
      CompareByInit(left, right);
      Text.CompareIsAntisymmetric(left[..|left| - 1], right[..|right| - 1]);
    }
  }

  /** Comparing length first and digits second is comparing numbers, however large. */
  lemma ComparesNumerically(left: string, right: string)
    requires CanonicalNumber(left) && CanonicalNumber(right)
    ensures CompareNumbers(left, right) < 0 <==> Value(left) < Value(right)
    ensures CompareNumbers(left, right) == 0 <==> Value(left) == Value(right)
    ensures Value(left) == Value(right) <==> left == right
  {
    Text.CompareIsAntisymmetric(left, right);
    if |left| < |right| {
      LongerIsLarger(left, right);
    } else if |right| < |left| {
      LongerIsLarger(right, left);
    } else {
      SameLengthComparesValues(left, right);
    }
  }

  lemma LongerIsLarger(left: string, right: string)
    requires CanonicalNumber(left) && CanonicalNumber(right) && |left| < |right|
    ensures Value(left) < Value(right)
  {
    ValueBounds(left);
    ValueBounds(right);
    PowerGrows(|left|, |right| - 1);
  }

  lemma ComparesIdentifiers(left: string, right: string)
    requires PrereleaseIdentifier(left) && PrereleaseIdentifier(right)
    ensures CompareIdentifiers(left, right) < 0 <==> IdentifierBefore(left, right)
    ensures CompareIdentifiers(left, right) == 0 <==> left == right
  {
    Text.CompareIsAntisymmetric(left, right);
    if AllDigits(left) && AllDigits(right) {
      ComparesNumerically(left, right);
    }
  }

  lemma {:induction false} ComparesLists(left: seq<string>, right: seq<string>)
    requires forall id :: id in left + right ==> PrereleaseIdentifier(id)
    ensures CompareLists(left, right) < 0 <==> exists i :: 0 <= i <= |left| && DivergesAt(left, right, i)
    ensures CompareLists(left, right) == 0 <==> left == right
  {
    if left == [] {
      assert right != [] ==> DivergesAt(left, right, 0);
    } else if right != [] {
      assert left[0] in left + right && right[0] in left + right;
      assert forall id :: id in left[1..] + right[1..] ==> id in left + right;
      assert left == [left[0]] + left[1..] && right == [right[0]] + right[1..];
      ComparesIdentifiers(left[0], right[0]);
      ComparesLists(left[1..], right[1..]);
      DivergesFurther(left, right);
    }
  }

  lemma DivergesFurther(left: seq<string>, right: seq<string>)
    requires left != [] && right != [] && (left[0] == right[0] ==> !IdentifierBefore(left[0], right[0]))
    ensures (exists i :: 0 <= i <= |left| && DivergesAt(left, right, i)) <==>
            (if left[0] == right[0] then exists i :: 0 <= i <= |left| - 1 && DivergesAt(left[1..], right[1..], i)
             else IdentifierBefore(left[0], right[0]))
  {
    if i :| 0 <= i <= |left| && DivergesAt(left, right, i) {
      if i > 0 {
        assert left[..i][0] == right[..i][0];
        assert left[1..][..i - 1] == left[..i][1..] && right[1..][..i - 1] == right[..i][1..];
        assert DivergesAt(left[1..], right[1..], i - 1);
      }
    }
    if left[0] == right[0] {
      if i :| 0 <= i <= |left| - 1 && DivergesAt(left[1..], right[1..], i) {
        assert left[..i + 1] == [left[0]] + left[1..][..i];
        assert right[..i + 1] == [right[0]] + right[1..][..i];
        assert DivergesAt(left, right, i + 1);
      }
    } else if IdentifierBefore(left[0], right[0]) {
      assert DivergesAt(left, right, 0);
    }
  }

  lemma ComparesCores(left: Version, right: Version)
    requires WellFormed(left) && WellFormed(right)
    ensures var core := CompareCores(CoreOf(left), CoreOf(right));
            && (core < 0 <==> CoreBefore(left, right))
            && (core == 0 <==> SameCore(left, right))
            && (core == 0 <==> CoreOf(left) == CoreOf(right))
  {
    var l, r := CoreOf(left), CoreOf(right);
    forall i | 0 <= i < 3
      ensures CompareNumbers(l[i], r[i]) < 0 <==> Value(l[i]) < Value(r[i])
      ensures CompareNumbers(l[i], r[i]) == 0 <==> Value(l[i]) == Value(r[i])
      ensures Value(l[i]) == Value(r[i]) <==> l[i] == r[i]
    {
      ComparesNumerically(l[i], r[i]);
    }
    assert l[1..] == [left.minor, left.patch] && l[1..][1..] == [left.patch] && l[1..][1..][1..] == [];
    assert r[1..] == [right.minor, right.patch] && r[1..][1..] == [right.patch] && r[1..][1..][1..] == [];
    assert CompareCores(l, r) == if CompareNumbers(l[0], r[0]) != 0 then CompareNumbers(l[0], r[0])
                                 else CompareCores(l[1..], r[1..]);
    assert CompareCores(l[1..], r[1..]) == if CompareNumbers(l[1], r[1]) != 0 then CompareNumbers(l[1], r[1])
                                           else CompareCores([left.patch], [right.patch]);
    assert CompareCores([left.patch], [right.patch]) == CompareNumbers(l[2], r[2]);
  }

  /** The comparator is the standard's precedence, and calls versions equal only when
      they are the same version. */
  lemma ComparesByPrecedence(left: Version, right: Version)
    requires WellFormed(left) && WellFormed(right)
    ensures Compare(left, right) < 0 <==> Precedes(left, right)
    ensures Compare(left, right) == 0 <==> left == right
  {
    ComparesCores(left, right);
    assert forall id :: id in left.prerelease + right.prerelease ==> PrereleaseIdentifier(id);
    ComparesLists(left.prerelease, right.prerelease);
    if CoreOf(left) == CoreOf(right) {
      assert CoreOf(left)[0] == CoreOf(right)[0] && CoreOf(left)[1] == CoreOf(right)[1] &&
             CoreOf(left)[2] == CoreOf(right)[2];
    }
  }

  lemma {:induction false} ListsAreAntisymmetric(left: seq<string>, right: seq<string>)
    ensures CompareLists(left, right) == -CompareLists(right, left)
  {
    if left != [] && right != [] {
      Text.CompareIsAntisymmetric(left[0], right[0]);
      ListsAreAntisymmetric(left[1..], right[1..]);
    }
  }

  lemma {:induction false} CoresAreAntisymmetric(left: seq<string>, right: seq<string>)
    requires |left| == |right|
    ensures CompareCores(left, right) == -CompareCores(right, left)
  {
    if left != [] {
      Text.CompareIsAntisymmetric(left[0], right[0]);
      CoresAreAntisymmetric(left[1..], right[1..]);
    }
  }

  lemma NumbersAreTransitive(a: string, b: string, c: string)
    requires CompareNumbers(a, b) <= 0 && CompareNumbers(b, c) <= 0
    ensures CompareNumbers(a, c) <= 0
    ensures CompareNumbers(a, c) == 0 ==> CompareNumbers(a, b) == 0 && CompareNumbers(b, c) == 0
  {
    if |a| == |b| == |c| {
      Text.CompareIsTransitive(a, b, c);
    }
  }

  lemma IdentifiersAreTransitive(a: string, b: string, c: string)
    requires CompareIdentifiers(a, b) <= 0 && CompareIdentifiers(b, c) <= 0
    ensures CompareIdentifiers(a, c) <= 0
    ensures CompareIdentifiers(a, c) == 0 ==> CompareIdentifiers(a, b) == 0 && CompareIdentifiers(b, c) == 0
  {
    if AllDigits(a) && AllDigits(b) && AllDigits(c) {
      NumbersAreTransitive(a, b, c);
    } else if !AllDigits(a) && !AllDigits(b) && !AllDigits(c) {
      Text.CompareIsTransitive(a, b, c);
    }
  }

  lemma {:induction false} ListsAreTransitive(a: seq<string>, b: seq<string>, c: seq<string>)
    requires CompareLists(a, b) <= 0 && CompareLists(b, c) <= 0
    ensures CompareLists(a, c) <= 0
    ensures CompareLists(a, c) == 0 ==> CompareLists(a, b) == 0 && CompareLists(b, c) == 0
  {
    if a != [] && b != [] && c != [] {
      IdentifiersAreTransitive(a[0], b[0], c[0]);
      if CompareIdentifiers(a[0], b[0]) == 0 && CompareIdentifiers(b[0], c[0]) == 0 {
        Text.CompareIsAntisymmetric(a[0], b[0]);
        Text.CompareIsAntisymmetric(b[0], c[0]);
        ListsAreTransitive(a[1..], b[1..], c[1..]);
      }
    }
  }

  lemma {:induction false} CoresAreTransitive(a: seq<string>, b: seq<string>, c: seq<string>)
    requires |a| == |b| == |c| && CompareCores(a, b) <= 0 && CompareCores(b, c) <= 0
    ensures CompareCores(a, c) <= 0
    ensures CompareCores(a, c) == 0 ==> CompareCores(a, b) == 0 && CompareCores(b, c) == 0
  {
    if a != [] {
      NumbersAreTransitive(a[0], b[0], c[0]);
      if CompareNumbers(a[0], b[0]) == 0 && CompareNumbers(b[0], c[0]) == 0 {
        CoresAreTransitive(a[1..], b[1..], c[1..]);
      }
    }
  }

  /** Any two versions compare one way or the other, consistently. */
  lemma CompareIsTotalOrder(a: Version, b: Version, c: Version)
    ensures Compare(a, b) == -Compare(b, a)
    ensures Compare(a, b) <= 0 && Compare(b, c) <= 0 ==> Compare(a, c) <= 0
  {
    CoresAreAntisymmetric(CoreOf(a), CoreOf(b));
    ListsAreAntisymmetric(a.prerelease, b.prerelease);
    if Compare(a, b) <= 0 && Compare(b, c) <= 0 {
      CoresAreTransitive(CoreOf(a), CoreOf(b), CoreOf(c));
      if CompareLists(a.prerelease, b.prerelease) <= 0 && CompareLists(b.prerelease, c.prerelease) <= 0 {
        ListsAreTransitive(a.prerelease, b.prerelease, c.prerelease);
      }
    }
  }
}
