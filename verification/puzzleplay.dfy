/** What every course of a puzzle keeps, and exactly what the public board gives away. */
module PuzzlePlay {
  import opened Domain
  import opened Puzzles
  import Text

  datatype Move = Guess(target: string) | Activate(id: string, roll: Roll) | Force

  function Moved(s: HackState, move: Move): HackState {
    match move
    case Guess(target) => Guessed(s, target)
    case Activate(id, roll) => Activated(s, id, roll).0
    case Force => Forced(s)
  }

  function After(s: HackState, moves: seq<Move>): HackState
    decreases |moves|
  {
    if moves == [] then s else After(Moved(s, moves[0]), moves[1..])
  }

  /** A puzzle that is solved or failed never changes again. */
  lemma EndedIsFinal(s: HackState, move: Move)
    requires Ended(s)
    ensures Moved(s, move) == s
  {
  }

  // ---------------------------------------------------------------- guessing right

  lemma {:induction false} AllMatchIffEqual(a: string, b: string)
    requires |a| == |b|
    ensures Matches(a, b) <= |a| && (Matches(a, b) == |a| <==> a == b)
  {
    if a != "" {
      AllMatchIffEqual(a[1..], b[1..]);
      assert a == [a[0]] + a[1..] && b == [b[0]] + b[1..];
    }
  }

  // ---------------------------------------------------------------- the board

  function IdsOf(words: seq<HackWord>): seq<string> {
    seq(|words|, i requires 0 <= i < |words| => words[i].id)
  }

  function ListedIds(columns: seq<HackColumn>): seq<string> {
    if columns == [] then [] else IdsOf(columns[0].words) + ListedIds(columns[1..])
  }

  lemma UnlistingTakesOne(words: seq<HackWord>, i: nat)
    requires i < |words|
    ensures multiset(IdsOf(words[..i] + words[i + 1..])) == multiset(IdsOf(words)) - multiset{words[i].id}
  {
    assert IdsOf(words) == IdsOf(words[..i]) + [words[i].id] + IdsOf(words[i + 1..]);
    assert IdsOf(words[..i] + words[i + 1..]) == IdsOf(words[..i]) + IdsOf(words[i + 1..]);
  }

  lemma TakenFromOne(a: multiset<string>, b: multiset<string>, id: string)
    requires id in a
    ensures (a - multiset{id}) + b == (a + b) - multiset{id}
  {
  }

  lemma ListedSplits(columns: seq<HackColumn>)
    requires columns != []
    ensures multiset(ListedIds(columns)) == multiset(IdsOf(columns[0].words)) + multiset(ListedIds(columns[1..]))
  {
  }

  /** Taking a word away takes exactly one listing of its identifier. */
  lemma {:induction false} RemovalTakesOne(columns: seq<HackColumn>, id: string)
    requires id in ListedIds(columns)
    ensures multiset(ListedIds(Removed(columns, id))) == multiset(ListedIds(columns)) - multiset{id}
    decreases columns, 1
  {
    if WordIndex(columns[0].words, id).None? {
      RemovalTakesFromRest(columns, id);
    } else {
      RemovalTakesFromFirst(columns, id);
    }
  }

  lemma RemovalTakesFromFirst(columns: seq<HackColumn>, id: string)
    requires columns != [] && WordIndex(columns[0].words, id).Some?
    ensures multiset(ListedIds(Removed(columns, id))) == multiset(ListedIds(columns)) - multiset{id}
  {
    var words, rest, after := columns[0].words, columns[1..], Removed(columns, id);
    var i := WordIndex(words, id).value;
    assert after[0].words == words[..i] + words[i + 1..] && after[1..] == rest;
    ListedSplits(columns);
    ListedSplits(after);
    UnlistingTakesOne(words, i);
    assert IdsOf(words)[i] == id;
    TakenFromOne(multiset(IdsOf(words)), multiset(ListedIds(rest)), id);
  }

  lemma {:induction false} RemovalTakesFromRest(columns: seq<HackColumn>, id: string)
    requires id in ListedIds(columns) && WordIndex(columns[0].words, id).None?
    ensures multiset(ListedIds(Removed(columns, id))) == multiset(ListedIds(columns)) - multiset{id}
    decreases columns, 0
  {
    var words, rest, after := columns[0].words, columns[1..], Removed(columns, id);
    ListedSplits(columns);
    ListedSplits(after);
    assert id !in IdsOf(words);
    RemovalTakesOne(rest, id);
    TakenFromOne(multiset(ListedIds(rest)), multiset(IdsOf(words)), id);
    assert after[0] == columns[0] && after[1..] == Removed(rest, id);
  }

  lemma {:induction false} WrongAreWrong(words: seq<HackWord>, texts: map<string, string>, secret: string)
    ensures forall id :: id in WrongAmong(words, texts, secret) <==>
              id in IdsOf(words) && id in texts && texts[id] != secret
  {
    if words != [] {
      WrongAreWrong(words[1..], texts, secret);
      assert IdsOf(words) == [words[0].id] + IdsOf(words[1..]);
    }
  }

  lemma {:induction false} DecoysAreWrong(columns: seq<HackColumn>, texts: map<string, string>, secret: string)
    ensures forall id :: id in Decoys(columns, texts, secret) <==>
              id in ListedIds(columns) && id in texts && texts[id] != secret
  {
    if columns != [] {
      WrongAreWrong(columns[0].words, texts, secret);
      DecoysAreWrong(columns[1..], texts, secret);
      assert ListedIds(columns) == IdsOf(columns[0].words) + ListedIds(columns[1..]);
    }
  }

  // ---------------------------------------------------------------- what every course keeps

  predicate Word(text: string, length: nat) {
    |text| == length && forall c :: c in text ==> Alpha(c)
  }

  /** Attempts stay in bounds, running out is failing, and all candidates are words of
      the puzzle's length. */
  predicate Fair(s: HackState) {
    && 0 <= s.attemptsLeft <= s.attemptsMax && 0 < s.attemptsMax
    && (s.failed <==> s.attemptsLeft == 0) && !(s.solved && s.failed)
    && s.wordLength > 1 && Word(s.secret, s.wordLength)
    && forall id :: id in s.words ==> Word(s.words[id], s.wordLength)
  }

  /** A candidate that spells the secret is still on the board. */
  predicate Winnable(s: HackState) {
    exists id :: id in ListedIds(s.columns) && id in s.words && s.words[id] == s.secret
  }

  /** The secret has been written into the log exactly if the puzzle is solved. */
  predicate Discreet(s: HackState) {
    "> " + s.secret in s.log <==> s.solved
  }

  lemma MoveKeepsFair(s: HackState, move: Move)
    requires Fair(s)
    ensures Fair(Moved(s, move))
  {
  }

  lemma OthersStayListed(columns: seq<HackColumn>, dud: string, id: string)
    requires dud in ListedIds(columns) && id in ListedIds(columns) && id != dud
    ensures id in ListedIds(Removed(columns, dud))
  {
    RemovalTakesOne(columns, dud);
    assert multiset(ListedIds(columns))[id] > 0;
    assert multiset(ListedIds(Removed(columns, dud)))[id] > 0;
  }

  lemma MoveKeepsWinnable(s: HackState, move: Move)
    requires Winnable(s)
    ensures Winnable(Moved(s, move))
  {
    var id :| id in ListedIds(s.columns) && id in s.words && s.words[id] == s.secret;
    var after := Moved(s, move);
    if move.Activate? && Activated(s, move.id, move.roll).1 && Dud(s, move.roll).Some? {
      var dud := Dud(s, move.roll).value;
      DecoysAreWrong(s.columns, s.words, s.secret);
      OthersStayListed(s.columns, dud, id);
    }
    assert id in ListedIds(after.columns) && id in after.words;
  }

  lemma LinesAreFound(log: seq<string>, lines: seq<string>, secret: string)
    ensures var more := log + seq(|lines|, i requires 0 <= i < |lines| => "> " + lines[i]);
            "> " + secret in more <==> "> " + secret in log || secret in lines
  {
    var added := seq(|lines|, i requires 0 <= i < |lines| => "> " + lines[i]);
    if secret in lines {
      var i :| 0 <= i < |lines| && lines[i] == secret;
      assert added[i] == "> " + secret;
    }
    if "> " + secret in added {
      var i :| 0 <= i < |added| && added[i] == "> " + secret;
      assert added[i][2..] == lines[i] && ("> " + secret)[2..] == secret;
    }
  }

  lemma ScoreIsNoWord(matches: nat, length: nat, text: string)
    requires forall c :: c in text ==> Alpha(c)
    ensures text != Score(matches, length) && text != DENIED && text !in SUCCESS && text != RESTORED && text != REMOVED
  {
    assert '/' in Score(matches, length);
    assert ' ' in DENIED && DENIED[5] == ' ';
    assert SUCCESS[0][5] == '!' && SUCCESS[1][10] == ',' && SUCCESS[2][0] == 'п' && SUCCESS[3][5] == ' ';
    assert '!' in SUCCESS[0] && ',' in SUCCESS[1] && 'п' in SUCCESS[2] && ' ' in SUCCESS[3];
    assert RESTORED[7] == ' ' && REMOVED[6] == ' ';
    assert SUCCESS == [SUCCESS[0], SUCCESS[1], SUCCESS[2], SUCCESS[3]];
  }

  lemma GuessKeepsDiscreet(s: HackState, target: string)
    requires Fair(s) && Discreet(s) && !Ended(s)
    ensures Discreet(Guessed(s, target))
  {
    if target in s.words {
      var text := s.words[target];
      var tried := Logged(s, [text]);
      AllMatchIffEqual(text, s.secret);
      LinesAreFound(s.log, [text], s.secret);
      LinesAreFound(tried.log, SUCCESS, s.secret);
      LinesAreFound(tried.log, [DENIED, Score(Matches(text, s.secret), s.wordLength)], s.secret);
      ScoreIsNoWord(Matches(text, s.secret), s.wordLength, s.secret);
    } else {
      var cell := Cell(target);
      if cell.Some? && Fillable(s.columns, cell.value.0, cell.value.1) {
        var line := [s.columns[cell.value.0].text[cell.value.1]];
        LinesAreFound(s.log, [line], s.secret);
        LinesAreFound(Logged(s, [line]).log, [DENIED, Score(0, s.wordLength)], s.secret);
        ScoreIsNoWord(0, s.wordLength, s.secret);
      }
    }
  }

  lemma MoveKeepsDiscreet(s: HackState, move: Move)
    requires Fair(s) && Discreet(s)
    ensures Discreet(Moved(s, move))
  {
    if !Ended(s) {
      match move {
        case Guess(target) => GuessKeepsDiscreet(s, target);
        case Activate(id, roll) =>
          ScoreIsNoWord(0, 0, s.secret);
          LinesAreFound(s.log, [RESTORED], s.secret);
          LinesAreFound(s.log, [REMOVED], s.secret);
        case Force =>
          LinesAreFound(s.log, [s.secret], s.secret);
          LinesAreFound(Logged(s, [s.secret]).log, SUCCESS, s.secret);
      }
    }
  }

  /** Over a whole course of guesses and patterns the rules stay fair, the puzzle can
      always still be won, and its secret is written out exactly when it is solved. */
  lemma {:induction false} CourseKeepsRules(s: HackState, moves: seq<Move>)
    requires Fair(s) && Winnable(s) && Discreet(s)
    ensures Fair(After(s, moves)) && Winnable(After(s, moves)) && Discreet(After(s, moves))
    decreases |moves|
  {
    if moves != [] {
      MoveKeepsFair(s, moves[0]);
      MoveKeepsWinnable(s, moves[0]);
      MoveKeepsDiscreet(s, moves[0]);
      CourseKeepsRules(Moved(s, moves[0]), moves[1..]);
    }
  }

  /** A guess solves the puzzle exactly if it spells the secret; any other that counts
      costs one attempt, and the last one fails the puzzle. */
  lemma GuessIsExact(s: HackState, target: string)
    requires Fair(s) && !Ended(s)
    ensures var after := Guessed(s, target);
            && (after.solved <==> target in s.words && s.words[target] == s.secret)
            && (after.solved ==> after.attemptsLeft == s.attemptsLeft)
            && (after != s && !after.solved ==> after.attemptsLeft == s.attemptsLeft - 1)
            && (after.failed <==> after != s && !after.solved && s.attemptsLeft == 1)
  {
    if target in s.words {
      AllMatchIffEqual(s.words[target], s.secret);
    }
  }

  /** So while the puzzle is open some candidate on the board wins it. */
  lemma SomeGuessWins(s: HackState) returns (id: string)
    requires Fair(s) && Winnable(s) && !Ended(s)
    ensures id in ListedIds(s.columns) && Guessed(s, id).solved
  {
    id :| id in ListedIds(s.columns) && id in s.words && s.words[id] == s.secret;
    GuessIsExact(s, id);
  }

  // ---------------------------------------------------------------- patterns work once

  lemma {:induction false} LastFieldIsUnique(before: string, after: string, other: string, rest: string)
    requires before + [SEPARATOR] + after == other + [SEPARATOR] + rest
    requires SEPARATOR !in after && SEPARATOR !in rest
    ensures before == other && after == rest
  {
    var left, right := before + [SEPARATOR] + after, other + [SEPARATOR] + rest;
    assert left[|before|] == SEPARATOR && right[|other|] == SEPARATOR;
    forall i | |before| < i < |left| ensures left[i] != SEPARATOR {
      assert left[i] == after[i - |before| - 1];
    }
    forall i | |other| < i < |right| ensures right[i] != SEPARATOR {
      assert right[i] == rest[i - |other| - 1];
    }
    assert left[..|before|] == before && right[..|other|] == other;
    assert left[|before| + 1..] == after && right[|other| + 1..] == rest;
  }

  lemma DecimalHasNoSeparator(n: nat)
    ensures SEPARATOR !in Text.Decimal(n)
  {
  }

  /** A published pattern identifier names its puzzle and its place, whatever characters
      the identifier of the puzzle holds: spans of two puzzles share one exactly if the
      puzzles are the same generation and the spans the same place. */
  lemma PatternIdNamesPuzzle(a: PatternIdentity, b: PatternIdentity)
    ensures PatternId(a) == PatternId(b) <==> a == b
  {
    if PatternId(a) == PatternId(b) {
      DecimalHasNoSeparator(a.row);
      DecimalHasNoSeparator(b.row);
      DecimalHasNoSeparator(a.start);
      DecimalHasNoSeparator(b.start);
      DecimalHasNoSeparator(a.end);
      DecimalHasNoSeparator(b.end);
      var rowA := a.generationId + [SEPARATOR] + Text.Decimal(a.row);
      var rowB := b.generationId + [SEPARATOR] + Text.Decimal(b.row);
      var startA, startB := rowA + [SEPARATOR] + Text.Decimal(a.start), rowB + [SEPARATOR] + Text.Decimal(b.start);
      LastFieldIsUnique(startA, Text.Decimal(a.end), startB, Text.Decimal(b.end));
      LastFieldIsUnique(rowA, Text.Decimal(a.start), rowB, Text.Decimal(b.start));
      LastFieldIsUnique(a.generationId, Text.Decimal(a.row), b.generationId, Text.Decimal(b.row));
      Text.DecimalIsInjective(a.row, b.row);
      Text.DecimalIsInjective(a.start, b.start);
      Text.DecimalIsInjective(a.end, b.end);
    }
  }

  lemma {:induction false} UsedStaysUsed(s: HackState, moves: seq<Move>)
    ensures s.used <= After(s, moves).used && After(s, moves).generationId == s.generationId
    decreases |moves|
  {
    if moves != [] {
      UsedStaysUsed(Moved(s, moves[0]), moves[1..]);
    }
  }

  /** A bracket span works once: after it worked, the same identifier never works again,
      however the course goes on and however the board changes. */
  lemma PatternWorksOnce(s: HackState, id: string, roll: Roll, moves: seq<Move>, again: Roll)
    requires Activated(s, id, roll).1
    ensures var later := After(Activated(s, id, roll).0, moves);
            Activated(later, id, again) == (later, false)
  {
    var after := Activated(s, id, roll).0;
    var later := After(after, moves);
    UsedStaysUsed(after, moves);
    if Requested(later, id).Some? {
      PatternIdNamesPuzzle(Requested(s, id).value, Requested(later, id).value);
    }
  }

  // ---------------------------------------------------------------- what is given away

  /** Two puzzles that differ in nothing but the secret. */
  predicate Twins(a: HackState, b: HackState) {
    a.(secret := b.secret) == b
  }

  datatype Answer = NoAnswer | Likeness(matches: nat) | Unmasked(dud: Option<string>) | Told(secret: string)

  /** All that one move asks of the secret. */
  function AnswerTo(s: HackState, move: Move): Answer {
    if Ended(s) then NoAnswer
    else
      match move
      case Guess(target) => if target in s.words then Likeness(Matches(s.words[target], s.secret)) else NoAnswer
      case Activate(id, roll) => if Activated(s, id, roll).1 then Unmasked(Dud(s, roll)) else NoAnswer
      case Force => Told(s.secret)
  }

  lemma TwinsLookAlike(a: HackState, b: HackState)
    requires Twins(a, b)
    ensures Public(a) == Public(b)
  {
  }

  lemma SameAnswerStaysTwin(a: HackState, b: HackState, move: Move)
    requires Twins(a, b) && AnswerTo(a, move) == AnswerTo(b, move)
    ensures Twins(Moved(a, move), Moved(b, move))
  {
  }

  lemma ScoreIsInjective(a: nat, b: nat, length: nat)
    requires Score(a, length) == Score(b, length)
    ensures a == b
  {
    var x, y := Text.Decimal(a), Text.Decimal(b);
    var tail := "/" + Text.Decimal(length) + " правильно.";
    assert Score(a, length) == x + tail && Score(b, length) == y + tail;
    assert Score(a, length)[..|x|] == x && Score(b, length)[..|x|] == y;
    Text.DecimalIsInjective(a, b);
  }

  lemma GuessTells(a: HackState, b: HackState, target: string)
    requires Twins(a, b) && !Ended(a) && target in a.words && Guessed(a, target).log == Guessed(b, target).log
    requires Guessed(a, target).solved == Guessed(b, target).solved
    ensures Matches(a.words[target], a.secret) == Matches(b.words[target], b.secret)
  {
    var left, right := Matches(a.words[target], a.secret), Matches(b.words[target], b.secret);
    if left != a.wordLength {
      var n := |a.log|;
      assert Guessed(a, target).log[n + 2] == "> " + Score(left, a.wordLength);
      assert Guessed(b, target).log[n + 2] == "> " + Score(right, a.wordLength);
      assert ("> " + Score(left, a.wordLength))[2..] == Score(left, a.wordLength);
      assert ("> " + Score(right, a.wordLength))[2..] == Score(right, a.wordLength);
      ScoreIsInjective(left, right, a.wordLength);
    }
  }

  lemma DudTells(a: HackState, b: HackState, id: string, roll: Roll)
    requires Twins(a, b) && Activated(a, id, roll).1
    requires Activated(a, id, roll).0.log == Activated(b, id, roll).0.log
    requires Activated(a, id, roll).0.columns == Activated(b, id, roll).0.columns
    ensures Dud(a, roll) == Dud(b, roll)
  {
    var left, right := Dud(a, roll), Dud(b, roll);
    var n := |a.log|;
    assert Activated(a, id, roll).0.log[n] == "> " + if left.None? then RESTORED else REMOVED;
    assert Activated(b, id, roll).0.log[n] == "> " + if right.None? then RESTORED else REMOVED;
    assert ("> " + RESTORED)[2] == 'П' && ("> " + REMOVED)[2] == 'Л';
    if left.Some? && right.Some? {
      DecoysAreWrong(a.columns, a.words, a.secret);
      DecoysAreWrong(b.columns, b.words, b.secret);
      RemovalTakesOne(a.columns, left.value);
      RemovalTakesOne(a.columns, right.value);
      assert multiset(ListedIds(a.columns))[left.value] > 0;
      assert (multiset(ListedIds(a.columns)) - multiset{left.value})[left.value] ==
             multiset(ListedIds(a.columns))[left.value] - 1;
    }
  }

  lemma ForceTells(a: HackState, b: HackState)
    requires Twins(a, b) && !Ended(a) && Forced(a).log == Forced(b).log
    ensures a.secret == b.secret
  {
    assert Forced(a).log[|a.log|] == "> " + a.secret && Forced(b).log[|a.log|] == "> " + b.secret;
    assert ("> " + a.secret)[2..] == a.secret && ("> " + b.secret)[2..] == b.secret;
  }

  /** Of the secret the public board gives away exactly the answers: puzzles that were
      indistinguishable stay so through a move if and only if they answer it alike. */
  lemma BoardTellsExactlyTheAnswers(a: HackState, b: HackState, move: Move)
    requires Twins(a, b)
    ensures Public(Moved(a, move)) == Public(Moved(b, move)) <==> AnswerTo(a, move) == AnswerTo(b, move)
  {
    if AnswerTo(a, move) == AnswerTo(b, move) {
      SameAnswerStaysTwin(a, b, move);
      TwinsLookAlike(Moved(a, move), Moved(b, move));
    } else if Public(Moved(a, move)) == Public(Moved(b, move)) {
      match move {
        case Guess(target) => GuessTells(a, b, target);
        case Activate(id, roll) => DudTells(a, b, id, roll);
        case Force => ForceTells(a, b);
      }
    }
  }

  /** The answers along a whole course. */
  function Answers(s: HackState, moves: seq<Move>): seq<Answer>
    decreases |moves|
  {
    if moves == [] then [] else [AnswerTo(s, moves[0])] + Answers(Moved(s, moves[0]), moves[1..])
  }

  /** So whoever sees only the board learns nothing about the secret but the answers
      the course of the game has asked for. */
  lemma {:induction false} CourseTellsOnlyTheAnswers(a: HackState, b: HackState, moves: seq<Move>)
    requires Twins(a, b) && Answers(a, moves) == Answers(b, moves)
    ensures Twins(After(a, moves), After(b, moves)) && Public(After(a, moves)) == Public(After(b, moves))
    decreases |moves|
  {
    if moves != [] {
      assert Answers(a, moves)[0] == Answers(b, moves)[0];
      assert Answers(a, moves)[1..] == Answers(b, moves)[1..];
      SameAnswerStaysTwin(a, b, moves[0]);
      CourseTellsOnlyTheAnswers(Moved(a, moves[0]), Moved(b, moves[0]), moves[1..]);
    }
  }
}
