/** Strings as the program uses them: byte order, decimal printing, trimming, the
    length-prefixed request fingerprint and the numbered fallback names. */
module Text {
  // ---------------------------------------------------------------- byte order

  /** Three-way byte-wise comparison. */
  function Compare(a: string, b: string): int {
    if a == [] then (if b == [] then 0 else -1)
    else if b == [] then 1
    else if a[0] < b[0] then -1
    else if b[0] < a[0] then 1
    else Compare(a[1..], b[1..])
  }

  lemma {:induction false} CompareIsAntisymmetric(a: string, b: string)
    ensures Compare(a, b) == -Compare(b, a)
    ensures -1 <= Compare(a, b) <= 1
    ensures Compare(a, b) == 0 <==> a == b
  {
    if a != [] && b != [] && a[0] == b[0] {
      CompareIsAntisymmetric(a[1..], b[1..]);
      assert a == [a[0]] + a[1..] && b == [b[0]] + b[1..];
    }
  }

  lemma {:induction false} CompareIsTransitive(a: string, b: string, c: string)
    requires Compare(a, b) <= 0 && Compare(b, c) <= 0
    ensures Compare(a, c) <= 0
    ensures Compare(a, c) == 0 ==> Compare(a, b) == 0 && Compare(b, c) == 0
  {
    if a != [] && b != [] && c != [] && a[0] == b[0] == c[0] {
      CompareIsTransitive(a[1..], b[1..], c[1..]);
    }
  }

  predicate Before(a: string, b: string) {
    Compare(a, b) < 0
  }

  /** The same up to place `i`, where `a` ends or has the smaller character. */
  predicate DiffersAt(a: string, b: string, i: int) {
    0 <= i <= |a| && i < |b| && a[..i] == b[..i] && (i < |a| ==> a[i] < b[i])
  }

  ghost predicate Precedes(a: string, b: string) {
    exists i :: DiffersAt(a, b, i)
  }

  /** The comparison is the lexicographic order. */
  lemma {:induction false} ComparesLexicographically(a: string, b: string)
    ensures Compare(a, b) < 0 <==> Precedes(a, b)
  {
    forall i | DiffersAt(a, b, i) && i > 0 ensures a[0] == b[0] {
      assert a[..i][0] == b[..i][0];
    }
    if a != [] && b != [] && a[0] == b[0] {
      ComparesLexicographically(a[1..], b[1..]);
      assert a == [a[0]] + a[1..] && b == [b[0]] + b[1..];
      if i :| DiffersAt(a, b, i) {
        assert i > 0;
        assert a[1..][..i - 1] == a[..i][1..] && b[1..][..i - 1] == b[..i][1..];
        assert DiffersAt(a[1..], b[1..], i - 1);
      }
      if i :| DiffersAt(a[1..], b[1..], i) {
        assert a[..i + 1] == [a[0]] + a[1..][..i] && b[..i + 1] == [b[0]] + b[1..][..i];
        assert DiffersAt(a, b, i + 1);
      }
    } else if Compare(a, b) < 0 {
      assert a[..0] == b[..0] == [];
      assert DiffersAt(a, b, 0);
    }
  }

  predicate IsLeast(least: string, ids: set<string>) {
    least in ids && forall id :: id in ids && id != least ==> Before(least, id)
  }

  lemma {:induction false} LeastExists(ids: set<string>)
    requires ids != {}
    ensures exists least :: IsLeast(least, ids)
    decreases ids
  {
    var least :| least in ids;
    var rest := ids - {least};
    assert ids == rest + {least};
    if rest == {} {
      assert IsLeast(least, ids);
    } else {
      LeastExists(rest);
      var other :| IsLeast(other, rest);
      CompareIsAntisymmetric(least, other);
      if Before(other, least) {
        assert IsLeast(other, ids);
      } else {
        forall id | id in ids && id != least ensures Before(least, id) {
          assert id in rest;
          if id != other {
            CompareIsTransitive(least, other, id);
          }
        }
        assert IsLeast(least, ids);
      }
    }
  }

  lemma LeastIsUnique(a: string, b: string, ids: set<string>)
    requires IsLeast(a, ids) && IsLeast(b, ids)
    ensures a == b
  {
    CompareIsAntisymmetric(a, b);
  }

  ghost function Least(ids: set<string>): (least: string)
    requires ids != {}
    ensures IsLeast(least, ids)
  {
    LeastExists(ids);
    var least :| IsLeast(least, ids);
    least
  }

  /** The least member, found by scanning in any order. */
  method FindLeast(ids: set<string>) returns (least: string)
    requires ids != {}
    ensures least == Least(ids)
  {
    least :| least in ids;
    var rest := ids - {least};
    while rest != {}
      invariant rest <= ids && least in ids - rest
      invariant IsLeast(least, ids - rest)
      decreases rest
    {
      var id :| id in rest;
      rest := rest - {id};
      CompareIsAntisymmetric(least, id);
      if Compare(id, least) < 0 {
        forall other | other in ids - rest && other != id ensures Before(id, other) {
          if other != least {
            assert Before(least, other);
            CompareIsTransitive(id, least, other);
          }
        }
        least := id;
      }
    }
    assert ids - rest == ids;
    LeastIsUnique(least, Least(ids), ids);
  }

  // ---------------------------------------------------------------- decimal numbers

  predicate Digit(c: char) {
    '0' <= c <= '9'
  }

  function DigitOf(n: nat): (c: char)
    requires n < 10
    ensures Digit(c)
  {
    ('0' as int + n) as char
  }

  function Decimal(n: nat): (text: string)
    ensures text != [] && forall c :: c in text ==> Digit(c)
  {
    if n < 10 then [DigitOf(n)] else Decimal(n / 10) + [DigitOf(n % 10)]
  }

  lemma {:induction false} DecimalIsInjective(m: nat, n: nat)
    requires Decimal(m) == Decimal(n)
    ensures m == n
  {
    var text := Decimal(m);
    var init := text[..|text| - 1];
    if m < 10 && n < 10 {
      assert text[0] == DigitOf(m) == DigitOf(n);
    } else if m >= 10 && n >= 10 {
      assert init == Decimal(m / 10) == Decimal(n / 10);
      assert text[|text| - 1] == DigitOf(m % 10) == DigitOf(n % 10);
      DecimalIsInjective(m / 10, n / 10);
    }
  }

  // ---------------------------------------------------------------- blanks

  // The ASCII part of the program's notion of white space.
  predicate Space(c: char) {
    c == ' ' || c == '\t' || c == '\n' || c == '\r' || c == 11 as char || c == 12 as char
  }

  function Trim(text: string): string {
    if text == [] then []
    else if Space(text[0]) then Trim(text[1..])
    else if Space(text[|text| - 1]) then Trim(text[..|text| - 1])
    else text
  }

  predicate Blank(text: string) {
    Trim(text) == []
  }

  predicate AllSpace(text: string) {
    forall c :: c in text ==> Space(c)
  }

  /** Trimming takes blanks away at both ends and nothing else. */
  lemma {:induction false} TrimTakesBlanks(text: string) returns (before: string, after: string)
    ensures text == before + Trim(text) + after && AllSpace(before) && AllSpace(after)
    ensures Trim(text) != [] ==> !Space(Trim(text)[0]) && !Space(Trim(text)[|Trim(text)| - 1])
    decreases |text|
  {
    hide AllSpace;
    before, after := [], [];
    OneMoreBlank([], ' ');
    if text != [] && Space(text[0]) {
      before, after := TrimTakesBlanks(text[1..]);
      JoinsUp([text[0]], before, Trim(text[1..]), after);
      OneMoreBlank(before, text[0]);
      before := [text[0]] + before;
    } else if text != [] && Space(text[|text| - 1]) {
      before, after := TrimTakesBlanks(text[..|text| - 1]);
      JoinsUp(before, Trim(text[..|text| - 1]), after, [text[|text| - 1]]);
      OneMoreBlank(after, text[|text| - 1]);
      after := after + [text[|text| - 1]];
    } else {
      assert text == [] + text + [];
    }
  }

  lemma OneMoreBlank(blanks: string, c: char)
    ensures AllSpace([])
    ensures AllSpace(blanks) && Space(c) ==> AllSpace([c] + blanks) && AllSpace(blanks + [c])
  {
  }

  lemma JoinsUp(a: string, b: string, c: string, d: string)
    ensures a + (b + c + d) == (a + b) + c + d
    ensures (a + b + c) + d == a + b + (c + d)
  {
  }

  // ---------------------------------------------------------------- fingerprints

  function Field(field: string): string {
    Decimal(|field|) + ":" + field + ";"
  }

  function Fields(fields: seq<string>): string {
    if fields == [] then "" else Field(fields[0]) + Fields(fields[1..])
  }

  method FingerprintFields(fields: seq<string>) returns (fingerprint: string)
    ensures fingerprint == Fields(fields)
  {
    fingerprint := "";
    for index := 0 to |fields|
      invariant fingerprint + Fields(fields[index..]) == Fields(fields)
    {
      assert fields[index..][1..] == fields[index + 1..];
      fingerprint := fingerprint + Decimal(|fields[index]|) + ":" + fields[index] + ";";
    }
  }

  lemma NoSeparator(digits: string)
    requires forall c :: c in digits ==> Digit(c)
    ensures forall i :: 0 <= i < |digits| ==> digits[i] != ':'
  {
    forall i | 0 <= i < |digits| ensures digits[i] != ':' {
      assert digits[i] in digits;
    }
  }

  /** Where the length ends is visible: digits never contain the separator. */
  lemma FieldIsPrefixCode(a: string, b: string, restA: string, restB: string)
    requires Field(a) + restA == Field(b) + restB
    ensures a == b && restA == restB
  {
    var whole := Field(a) + restA;
    var da, db := Decimal(|a|), Decimal(|b|);
    assert whole[..|da|] == da && whole[|da|] == ':';
    assert whole == Field(b) + restB;
    assert whole[..|db|] == db && whole[|db|] == ':';
    NoSeparator(da);
    NoSeparator(db);
    assert forall i :: 0 <= i < |da| ==> whole[i] == da[i];
    assert forall i :: 0 <= i < |db| ==> whole[i] == db[i];
    assert |da| == |db|;
    assert da == db;
    DecimalIsInjective(|a|, |b|);
    assert whole[|da| + 1..|da| + 1 + |a|] == a;
    assert whole[|da| + 1..|da| + 1 + |a|] == b;
    assert whole[|da| + 2 + |a|..] == restA;
    assert whole[|da| + 2 + |a|..] == restB;
  }

  /** Two field lists of any length and content share a fingerprint only when they
      are the same list. */
  lemma {:induction false} FieldsAreInjective(a: seq<string>, b: seq<string>)
    requires Fields(a) == Fields(b)
    ensures a == b
  {
    if a != [] && b != [] {
      FieldIsPrefixCode(a[0], b[0], Fields(a[1..]), Fields(b[1..]));
      FieldsAreInjective(a[1..], b[1..]);
      assert a == [a[0]] + a[1..] && b == [b[0]] + b[1..];
    }
  }

  // ---------------------------------------------------------------- fallback names

  function PlayerName(number: nat): string {
    "PLAYER " + Decimal(number)
  }

  lemma PlayerNameIsInjective(m: nat, n: nat)
    requires PlayerName(m) == PlayerName(n)
    ensures m == n
  {
    assert PlayerName(m)[7..] == Decimal(m) && PlayerName(n)[7..] == Decimal(n);
    DecimalIsInjective(m, n);
  }

  /** Pigeonhole: distinct numbers use up distinct names. */
  lemma {:induction false} NamesAreUsedUp(used: set<string>, number: nat)
    requires number >= 1
    requires forall k :: 1 <= k < number ==> PlayerName(k) in used
    ensures number - 1 <= |used|
    decreases number
  {
    if number > 1 {
      var last := PlayerName(number - 1);
      forall k | 1 <= k < number - 1 ensures PlayerName(k) in used - {last} {
        if PlayerName(k) == last {
          PlayerNameIsInjective(k, number - 1);
        }
      }
      NamesAreUsedUp(used - {last}, number - 1);
    }
  }

  ghost predicate IsLeastFree(used: set<string>, number: nat) {
    number >= 1 && PlayerName(number) !in used && forall k :: 1 <= k < number ==> PlayerName(k) in used
  }

  /** The search always ends, at the least unused number, which is at most one more
      than the number of names in use. */
  method NextFallbackName(used: set<string>) returns (name: string)
    ensures name !in used
    ensures exists number: nat :: IsLeastFree(used, number) && number <= |used| + 1 && name == PlayerName(number)
  {
    var candidate := 1;
    while PlayerName(candidate) in used
      invariant candidate >= 1
      invariant forall k :: 1 <= k < candidate ==> PlayerName(k) in used
      decreases |used| + 2 - candidate
    {
      NamesAreUsedUp(used, candidate + 1);
      candidate := candidate + 1;
    }
    NamesAreUsedUp(used, candidate);
    name := PlayerName(candidate);
    assert IsLeastFree(used, candidate);
  }

  lemma LeastFreeExists(used: set<string>)
    ensures exists number: nat :: IsLeastFree(used, number)
  {
    var number: nat := 1;
    while PlayerName(number) in used
      invariant number >= 1
      invariant forall k :: 1 <= k < number ==> PlayerName(k) in used
      decreases |used| + 2 - number
    {
      NamesAreUsedUp(used, number + 1);
      number := number + 1;
    }
    assert IsLeastFree(used, number);
  }

  lemma LeastFreeIsUnique(used: set<string>, m: nat, n: nat)
    requires IsLeastFree(used, m) && IsLeastFree(used, n)
    ensures m == n
  {
  }

  ghost function LeastFreeName(used: set<string>): (name: string)
    ensures name !in used
  {
    LeastFreeExists(used);
    var number: nat :| IsLeastFree(used, number);
    PlayerName(number)
  }

  lemma LeastFreeNameIsLeast(used: set<string>, number: nat)
    requires IsLeastFree(used, number)
    ensures LeastFreeName(used) == PlayerName(number)
  {
    LeastFreeExists(used);
    var chosen: nat :| IsLeastFree(used, chosen) && LeastFreeName(used) == PlayerName(chosen);
    LeastFreeIsUnique(used, number, chosen);
  }
}
