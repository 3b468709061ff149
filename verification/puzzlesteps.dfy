/** The hacking puzzle, played in place on its object. */
module PuzzleSteps {
  import opened Domain
  import opened Heap
  import opened Puzzles

  // ---------------------------------------------------------------- reading the board

  method CountMatches(candidate: string, secret: string) returns (matches: nat)
    ensures matches == Matches(candidate, secret)
  {
    var limit := if |candidate| < |secret| then |candidate| else |secret|;
    matches := 0;
    for index := 0 to limit
      invariant matches + Matches(candidate[index..], secret[index..]) == Matches(candidate, secret)
    {
      assert candidate[index..][1..] == candidate[index + 1..] && secret[index..][1..] == secret[index + 1..];
      if candidate[index] == secret[index] {
        matches := matches + 1;
      }
    }
  }

  method ContainsWord(words: seq<HackWord>, place: int) returns (covered: bool)
    ensures covered <==> InWord(words, place)
  {
    for index := 0 to |words|
      invariant forall w :: w in words[..index] ==> !(w.start <= place < w.start + w.length)
    {
      if words[index].start <= place < words[index].start + words[index].length {
        return true;
      }
      assert words[..index + 1] == words[..index] + [words[index]];
    }
    assert words[..|words|] == words;
    return false;
  }

  method ColumnPatternSpans(column: nat, rows: nat, text: string) returns (spans: seq<Span>)
    ensures spans == ColumnSpans(column, rows, text, 0)
  {
    spans := [];
    for start := 0 to |text|
      invariant spans + ColumnSpans(column, rows, text, start) == ColumnSpans(column, rows, text, 0)
    {
      ghost var rest := ColumnSpans(column, rows, text, start + 1);
      var found := SpanAt(column, rows, text, start);
      assert spans + (found + rest) == (spans + found) + rest;
      spans := spans + found;
    }
  }

  /** All bracket spans of the board, in reading order. */
  method DiscoverPatternSpans(columns: seq<HackColumn>) returns (spans: seq<Span>)
    ensures spans == SpansFrom(columns, 0, 0)
  {
    spans := [];
    var rows: nat := 0;
    for column := 0 to |columns|
      invariant spans + SpansFrom(columns, column, rows) == SpansFrom(columns, 0, 0)
    {
      var found := ColumnPatternSpans(column, rows, columns[column].text);
      spans := spans + found;
      rows := rows + Rows(columns[column].text);
    }
  }

  method IsFillable(columns: seq<HackColumn>, column: nat, place: nat) returns (fillable: bool)
    ensures fillable <==> Fillable(columns, column, place)
  {
    if column >= |columns| || place >= |columns[column].text| {
      return false;
    }
    var covered := ContainsWord(columns[column].words, place);
    if covered {
      return false;
    }
    var spans := DiscoverPatternSpans(columns);
    for index := 0 to |spans|
      invariant forall span :: span in spans[..index] ==> !(span.column == column && span.absolute == place)
    {
      if spans[index].column == column && spans[index].absolute == place {
        return false;
      }
      assert spans[..index + 1] == spans[..index] + [spans[index]];
    }
    assert spans[..|spans|] == spans;
    return true;
  }

  method WrongIds(words: seq<HackWord>, texts: map<string, string>, secret: string) returns (ids: seq<string>)
    ensures ids == WrongAmong(words, texts, secret)
  {
    ids := [];
    for index := 0 to |words|
      invariant ids + WrongAmong(words[index..], texts, secret) == WrongAmong(words, texts, secret)
    {
      assert words[index..][1..] == words[index + 1..];
      if words[index].id in texts && texts[words[index].id] != secret {
        ids := ids + [words[index].id];
      }
    }
  }

  method IncorrectCandidateIds(columns: seq<HackColumn>, texts: map<string, string>, secret: string)
    returns (ids: seq<string>)
    ensures ids == Decoys(columns, texts, secret)
  {
    ids := [];
    for column := 0 to |columns|
      invariant ids + Decoys(columns[column..], texts, secret) == Decoys(columns, texts, secret)
    {
      assert columns[column..][1..] == columns[column + 1..];
      var wrong := WrongIds(columns[column].words, texts, secret);
      ids := ids + wrong;
    }
  }

  // ---------------------------------------------------------------- playing

  method PushLog(puzzle: Puzzle, lines: seq<string>)
    modifies puzzle`log
    ensures puzzle.Value() == Logged(old(puzzle.Value()), lines)
  {
    ghost var before := puzzle.log;
    for index := 0 to |lines|
      invariant puzzle.log == before + seq(index, i requires 0 <= i < index => "> " + lines[i])
    {
      puzzle.log := puzzle.log + ["> " + lines[index]];
    }
  }

  method SpendAttempt(puzzle: Puzzle, matches: nat)
    modifies puzzle`attemptsLeft, puzzle`log, puzzle`failed
    ensures puzzle.Value() == Spent(old(puzzle.Value()), matches)
  {
    puzzle.attemptsLeft := if puzzle.attemptsLeft > 0 then puzzle.attemptsLeft - 1 else 0;
    PushLog(puzzle, [DENIED, Score(matches, puzzle.wordLength)]);
    if puzzle.attemptsLeft == 0 {
      puzzle.failed := true;
    }
  }

  method ApplyGuess(puzzle: Puzzle, target: string)
    modifies puzzle
    ensures puzzle.Value() == Guessed(old(puzzle.Value()), target)
  {
    if puzzle.solved || puzzle.failed {
      return;
    }
    if target in puzzle.words {
      var text := puzzle.words[target];
      PushLog(puzzle, [text]);
      var matches := CountMatches(text, puzzle.secret);
      if matches == puzzle.wordLength {
        puzzle.solved := true;
        PushLog(puzzle, SUCCESS);
      } else {
        SpendAttempt(puzzle, matches);
      }
      return;
    }
    var cell := Cell(target);
    if cell.None? {
      return;
    }
    var fillable := IsFillable(puzzle.columns, cell.value.0, cell.value.1);
    if fillable {
      PushLog(puzzle, [[puzzle.columns[cell.value.0].text[cell.value.1]]]);
      SpendAttempt(puzzle, 0);
    }
  }

  method ForceSuccess(puzzle: Puzzle)
    modifies puzzle
    ensures puzzle.Value() == Forced(old(puzzle.Value()))
  {
    if puzzle.solved || puzzle.failed {
      return;
    }
    PushLog(puzzle, [puzzle.secret]);
    puzzle.solved := true;
    PushLog(puzzle, SUCCESS);
  }

  lemma RemovedNone(id: string)
    ensures Removed([], id) == []
  {
  }

  lemma RemovedFrom(columns: seq<HackColumn>, column: nat, id: string)
    requires column < |columns|
    ensures var index := WordIndex(columns[column].words, id);
            Removed(columns[column..], id)
            == if index.None? then [columns[column]] + Removed(columns[column + 1..], id)
               else [DottedAt(columns[column], index.value)] + columns[column + 1..]
  {
    assert columns[column..][1..] == columns[column + 1..];
  }

  /** Looks for the word column by column and dots out the first one found. */
  method DotCandidate(columns: seq<HackColumn>, id: string) returns (after: seq<HackColumn>)
    ensures after == Removed(columns, id)
  {
    hide Removed;
    assert columns[0..] == columns;
    for column := 0 to |columns|
      invariant Removed(columns, id) == columns[..column] + Removed(columns[column..], id)
    {
      RemovedFrom(columns, column, id);
      var index := WordIndex(columns[column].words, id);
      if index.Some? {
        return columns[..column] + [DottedAt(columns[column], index.value)] + columns[column + 1..];
      }
      ghost var rest := Removed(columns[column + 1..], id);
      assert columns[..column + 1] == columns[..column] + [columns[column]];
      assert columns[..column] + ([columns[column]] + rest) == columns[..column + 1] + rest;
    }
    assert columns[..|columns|] == columns && columns[|columns|..] == [];
    RemovedNone(id);
    return columns;
  }

  method RequestedPattern(puzzle: Puzzle, id: string) returns (identity: Option<PatternIdentity>)
    ensures identity == Requested(puzzle.Value(), id)
  {
    hide PatternId, IdentityOf;
    var spans := DiscoverPatternSpans(puzzle.columns);
    for index := 0 to |spans|
      invariant FindSpan(spans, puzzle.generationId, id) == FindSpan(spans[index..], puzzle.generationId, id)
    {
      assert spans[index..][1..] == spans[index + 1..];
      var identity := IdentityOf(puzzle.generationId, spans[index]);
      if PatternId(identity) == id {
        return Some(identity);
      }
    }
    return None;
  }

  /** The mark that the span was used is set before the outcome is drawn. */
  method ApplyPattern(puzzle: Puzzle, id: string, roll: Roll) returns (ok: bool)
    modifies puzzle
    ensures (puzzle.Value(), ok) == Activated(old(puzzle.Value()), id, roll)
  {
    if puzzle.solved || puzzle.failed {
      return false;
    }
    var identity := RequestedPattern(puzzle, id);
    if identity.None? || identity.value in puzzle.used {
      return false;
    }
    puzzle.used := puzzle.used + {identity.value};
    var decoys := IncorrectCandidateIds(puzzle.columns, puzzle.words, puzzle.secret);
    if roll.outcome % 100 >= 80 || decoys == [] {
      puzzle.attemptsLeft := puzzle.attemptsMax;
      PushLog(puzzle, [RESTORED]);
      return true;
    }
    var dud := decoys[roll.pick % |decoys|];
    var columns := DotCandidate(puzzle.columns, dud);
    puzzle.columns, puzzle.words := columns, puzzle.words - {dud};
    PushLog(puzzle, [REMOVED]);
    return true;
  }

  method PublicState(puzzle: Puzzle) returns (board: PublicHack)
    ensures board == Public(puzzle.Value())
  {
    var spans := DiscoverPatternSpans(puzzle.columns);
    var patterns := [];
    for index := 0 to |spans|
      invariant patterns == PublicPatterns(spans, puzzle.generationId, puzzle.used)[..index]
    {
      var identity := IdentityOf(puzzle.generationId, spans[index]);
      patterns := patterns + [PublicPattern(PatternId(identity), identity.row, identity.start, identity.end,
                                            identity in puzzle.used)];
    }
    board := PublicHack(puzzle.level, puzzle.wordLength, puzzle.attemptsMax, puzzle.attemptsLeft, puzzle.solved,
                        puzzle.failed,
                        puzzle.log, puzzle.columns, patterns);
  }
}
