/** Names of retained log segments and the order they are pruned in. */
module Segments {
  import opened Domain
  import Parts
  import Text

  const PREFIX := "application-"
  const SUFFIX := ".log"

  // ---------------------------------------------------------------- names

  predicate Digits(text: string) {
    forall i :: 0 <= i < |text| ==> Text.Digit(text[i])
  }

  function Number(text: string): nat
    requires Digits(text)
  {
    Parts.Value(text)
  }

  function DaysIn(month: nat, year: nat): nat {
    if month == 2 then (if year % 4 == 0 && (year % 100 != 0 || year % 400 == 0) then 29 else 28)
    else if month in {4, 6, 9, 11} then 30
    else 31
  }

  /** A moment written like 20060102T150405.000000000Z. */
  predicate Timestamp(text: string) {
    && |text| == 26 && text[8] == 'T' && text[15] == '.' && text[25] == 'Z'
    && Digits(text[..8]) && Digits(text[9..15]) && Digits(text[16..25])
    && Digits(text[..4]) && Digits(text[4..6]) && Digits(text[6..8])
    && Digits(text[9..11]) && Digits(text[11..13]) && Digits(text[13..15])
    && 1 <= Number(text[4..6]) <= 12
    && 1 <= Number(text[6..8]) <= DaysIn(Number(text[4..6]), Number(text[..4]))
    && Number(text[9..11]) < 24 && Number(text[11..13]) < 60 && Number(text[13..15]) < 60
  }

  /** A decimal number of at least three digits. */
  function Padded(n: nat): (text: string)
    ensures |text| >= 3 && Digits(text)
  {
    if n < 10 then "00" + Text.Decimal(n)
    else if n < 100 then "0" + Text.Decimal(n)
    else ThreeDigits(n); Text.Decimal(n)
  }

  lemma {:induction false} ThreeDigits(n: nat)
    requires n >= 100
    ensures |Text.Decimal(n)| >= 3
  {
    assert |Text.Decimal(n / 10)| >= 2 by {
      assert Text.Decimal(n / 10) == Text.Decimal(n / 10 / 10) + [Text.DigitOf(n / 10 % 10)];
    }
  }

  function SegmentName(timestamp: string, runId: string, segment: nat): string {
    PREFIX + timestamp + "-" + runId + "-" + Padded(segment) + SUFFIX
  }

  // The text before and after the last separator.
  function CutLast(text: string, separator: char): Option<(string, string)> {
    if text == "" then None
    else if text[|text| - 1] == separator then Some((text[..|text| - 1], ""))
    else
      match CutLast(text[..|text| - 1], separator)
      case None => None
      case Some((before, after)) => Some((before, after + [text[|text| - 1]]))
  }

  lemma {:induction false} CutLastIsUnique(before: string, after: string, separator: char)
    requires separator !in after
    ensures CutLast(before + [separator] + after, separator) == Some((before, after))
  {
    var text := before + [separator] + after;
    if after == "" {
      assert text[..|text| - 1] == before;
    } else {
      var init := after[..|after| - 1];
      assert text[..|text| - 1] == before + [separator] + init;
      assert forall c :: c in init ==> c in after;
      CutLastIsUnique(before, init, separator);
      assert init + [after[|after| - 1]] == after;
      assert text[|text| - 1] == after[|after| - 1] && after[|after| - 1] in after;
    }
  }

  /** The run a file name belongs to, if it is a segment's name at all. */
  function RunIdOf(name: string): Option<string> {
    if !(PREFIX <= name) || |name| < |PREFIX| + |SUFFIX| || name[|name| - |SUFFIX|..] != SUFFIX then None
    else
      match CutLast(name[|PREFIX|..|name| - |SUFFIX|], '-')
      case None => None
      case Some((identity, ordinal)) =>
        if |ordinal| < 3 || !Digits(ordinal) then None
        else
          var (timestamp, runId) := Parts.Cut(identity, '-');
          if runId.None? || runId.value == "" || !Timestamp(timestamp) then None else runId
  }

  method ParseOwnedName(name: string) returns (runId: Option<string>)
    ensures runId == RunIdOf(name)
  {
    if !(PREFIX <= name) || |name| < |PREFIX| + |SUFFIX| || name[|name| - |SUFFIX|..] != SUFFIX {
      return None;
    }
    var cut := CutLast(name[|PREFIX|..|name| - |SUFFIX|], '-');
    if cut.None? {
      return None;
    }
    var (identity, ordinal) := cut.value;
    if |ordinal| < 3 {
      return None;
    }
    for index := 0 to |ordinal|
      invariant forall i :: 0 <= i < index ==> Text.Digit(ordinal[i])
    {
      if !Text.Digit(ordinal[index]) {
        return None;
      }
    }
    var (timestamp, run) := Parts.Cut(identity, '-');
    if run.None? || run.value == "" || !Timestamp(timestamp) {
      return None;
    }
    return run;
  }

  /** Every name a run gives to a segment tells which run it was, whatever characters
      the run's identifier holds. */
  lemma NameTellsRun(timestamp: string, runId: string, segment: nat)
    requires Timestamp(timestamp) && runId != ""
    ensures RunIdOf(SegmentName(timestamp, runId, segment)) == Some(runId)
  {
    var name := SegmentName(timestamp, runId, segment);
    var identity := timestamp + "-" + runId;
    var ordinal := Padded(segment);
    assert name == PREFIX + (identity + ['-'] + ordinal) + SUFFIX;
    assert name[|PREFIX|..|name| - |SUFFIX|] == identity + ['-'] + ordinal;
    NoHyphen(ordinal);
    CutLastIsUnique(identity, ordinal, '-');
    TimestampHasNoHyphen(timestamp);
    assert identity == timestamp + (['-'] + runId);
    Parts.CutIsUnique(timestamp, Some(runId), '-');
  }

  lemma NoHyphen(digits: string)
    requires Digits(digits)
    ensures '-' !in digits
  {
  }

  lemma TimestampHasNoHyphen(timestamp: string)
    requires Timestamp(timestamp)
    ensures '-' !in timestamp
  {
    NoHyphen(timestamp[..8]);
    NoHyphen(timestamp[9..15]);
    NoHyphen(timestamp[16..25]);
    forall i | 0 <= i < 26 ensures timestamp[i] != '-' {
      if i < 8 {
        assert timestamp[i] == timestamp[..8][i];
      } else if 9 <= i < 15 {
        assert timestamp[i] == timestamp[9..15][i - 9];
      } else if 16 <= i < 25 {
        assert timestamp[i] == timestamp[16..25][i - 16];
      }
    }
  }

  // ---------------------------------------------------------------- age

  datatype Segment = Segment(name: string, runId: string, modified: int)

  /** Older first; segments written at the same moment go by name. */
  predicate Older(left: Segment, right: Segment) {
    left.modified < right.modified || (left.modified == right.modified && Text.Before(left.name, right.name))
  }

  predicate OldestFirst(segments: seq<Segment>) {
    forall i, k :: 0 <= i < k < |segments| ==> Older(segments[i], segments[k])
  }

  predicate AllDifferent(segments: seq<Segment>) {
    forall i, k :: 0 <= i < k < |segments| ==> segments[i].name != segments[k].name
  }

  lemma OlderIsTransitive(a: Segment, b: Segment, c: Segment)
    requires Older(a, b) && Older(b, c)
    ensures Older(a, c)
  {
    if a.modified == b.modified == c.modified {
      Text.CompareIsTransitive(a.name, b.name, c.name);
    }
  }

  lemma OlderIsTotal(a: Segment, b: Segment)
    ensures a.name != b.name ==> Older(a, b) || Older(b, a)
    ensures !(Older(a, b) && Older(b, a))
  {
    Text.CompareIsAntisymmetric(a.name, b.name);
  }

  function Names(segments: seq<Segment>): set<string> {
    set s | s in segments :: s.name
  }

  method SortSegments(segments: seq<Segment>) returns (sorted: seq<Segment>)
    requires AllDifferent(segments)
    ensures OldestFirst(sorted) && AllDifferent(sorted) && |sorted| == |segments|
    ensures forall s :: s in sorted <==> s in segments
  {
    sorted := [];
    for index := 0 to |segments|
      invariant OldestFirst(sorted) && AllDifferent(sorted) && |sorted| == index
      invariant forall s :: s in sorted <==> s in segments[..index]
    {
      assert segments[..index + 1] == segments[..index] + [segments[index]];
      forall s | s in sorted ensures s.name != segments[index].name {
        var i :| 0 <= i < index && segments[i] == s;
      }
      sorted := InsertSegment(sorted, segments[index]);
    }
    assert segments[..|segments|] == segments;
  }

  method InsertSegment(sorted: seq<Segment>, segment: Segment) returns (longer: seq<Segment>)
    requires OldestFirst(sorted) && AllDifferent(sorted) && forall s :: s in sorted ==> s.name != segment.name
    ensures OldestFirst(longer) && AllDifferent(longer) && |longer| == |sorted| + 1
    ensures forall s :: s in longer <==> s in sorted || s == segment
  {
    var position := 0;
    while position < |sorted| && Older(sorted[position], segment)
      invariant 0 <= position <= |sorted|
      invariant forall i :: 0 <= i < position ==> Older(sorted[i], segment)
    {
      position := position + 1;
    }
    longer := sorted[..position] + [segment] + sorted[position..];
    forall i | position <= i < |sorted| ensures Older(segment, sorted[i]) {
      OlderIsTotal(sorted[position], segment);
      if i > position {
        OlderIsTransitive(segment, sorted[position], sorted[i]);
      }
    }
    assert sorted == sorted[..position] + sorted[position..];
  }
}
