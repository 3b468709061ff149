/** Taking texts apart at separators, and reading decimal numbers. */
module Parts {
  import opened Domain
  import Text

  // ---------------------------------------------------------------- splitting

  /** The parts of a text between separators; an empty text is one empty part. */
  function Split(text: string, separator: char): (parts: seq<string>)
    ensures parts != []
  {
    if text == "" then [""]
    else if text[0] == separator then [""] + Split(text[1..], separator)
    else
      var rest := Split(text[1..], separator);
      [[text[0]] + rest[0]] + rest[1..]
  }

  function Join(parts: seq<string>, separator: char): string {
    if parts == [] then ""
    else if |parts| == 1 then parts[0]
    else parts[0] + [separator] + Join(parts[1..], separator)
  }

  // The text before and after the first separator, if there is one.
  function Cut(text: string, separator: char): (string, Option<string>) {
    if text == "" then ("", None)
    else if text[0] == separator then ("", Some(text[1..]))
    else
      var (before, after) := Cut(text[1..], separator);
      ([text[0]] + before, after)
  }

  lemma {:induction false} JoinUndoesSplit(text: string, separator: char)
    ensures Join(Split(text, separator), separator) == text
    ensures forall part :: part in Split(text, separator) ==> separator !in part
  {
    if text != "" {
      JoinUndoesSplit(text[1..], separator);
      var rest := Split(text[1..], separator);
      assert text == [text[0]] + text[1..];
      if text[0] == separator {
        assert ([""] + rest)[1..] == rest;
      } else {
        var parts := [[text[0]] + rest[0]] + rest[1..];
        assert parts[1..] == rest[1..];
        assert forall part :: part in parts[1..] ==> part in rest;
        if |rest| > 1 {
          assert ([text[0]] + rest[0]) + [separator] + Join(rest[1..], separator)
              == [text[0]] + (rest[0] + [separator] + Join(rest[1..], separator));
        }
      }
    }
  }

  lemma {:induction false} SplitUndoesJoin(parts: seq<string>, separator: char)
    requires parts != [] && forall part :: part in parts ==> separator !in part
    ensures Split(Join(parts, separator), separator) == parts
    decreases |parts|, |parts[0]|
  {
    var first := parts[0];
    var text := Join(parts, separator);
    if first == "" {
      if |parts| > 1 {
        assert text == [separator] + Join(parts[1..], separator);
        SplitUndoesJoin(parts[1..], separator);
        assert parts == [""] + parts[1..];
      }
    } else {
      var shorter := parts[0 := first[1..]];
      assert first == [first[0]] + first[1..];
      assert forall part :: part in shorter ==> separator !in part by {
        assert forall c :: c in first[1..] ==> c in first;
      }
      if |parts| > 1 {
        assert shorter[1..] == parts[1..];
        assert text == [first[0]] + (first[1..] + [separator] + Join(parts[1..], separator));
      }
      assert text == [first[0]] + Join(shorter, separator);
      assert first[0] in first && text[1..] == Join(shorter, separator);
      SplitUndoesJoin(shorter, separator);
      assert parts == [[first[0]] + shorter[0]] + shorter[1..];
    }
  }

  lemma {:induction false} CutFindsFirst(text: string, separator: char)
    ensures var (before, after) := Cut(text, separator);
            && separator !in before
            && text == before + (if after.None? then "" else [separator] + after.value)
            && (after.None? <==> separator !in text)
  {
    if text != "" {
      assert text == [text[0]] + text[1..];
      if text[0] != separator {
        CutFindsFirst(text[1..], separator);
      }
    }
  }

  lemma {:induction false} CutIsUnique(before: string, after: Option<string>, separator: char)
    requires separator !in before
    ensures Cut(before + (if after.None? then "" else [separator] + after.value), separator) == (before, after)
  {
    var tail := if after.None? then "" else [separator] + after.value;
    if before != "" {
      CutIsUnique(before[1..], after, separator);
      assert (before + tail)[1..] == before[1..] + tail;
      assert before == [before[0]] + before[1..];
    } else {
      assert before + tail == tail;
    }
  }

  // ---------------------------------------------------------------- digits

  predicate AllDigits(text: string) {
    text != "" && forall i :: 0 <= i < |text| ==> Text.Digit(text[i])
  }

  method IsAllDigits(text: string) returns (yes: bool)
    ensures yes <==> AllDigits(text)
  {
    if text == "" {
      return false;
    }
    for index := 0 to |text|
      invariant forall i :: 0 <= i < index ==> Text.Digit(text[i])
    {
      if !Text.Digit(text[index]) {
        return false;
      }
    }
    return true;
  }

  function DigitValue(c: char): (n: nat)
    requires Text.Digit(c)
    ensures n < 10 && c == Text.DigitOf(n)
  {
    c as int - '0' as int
  }

  /** The number a canonical spelling stands for, of any size. */
  function Value(text: string): nat
    requires forall i :: 0 <= i < |text| ==> Text.Digit(text[i])
  {
    if text == "" then 0 else 10 * Value(text[..|text| - 1]) + DigitValue(text[|text| - 1])
  }
}
