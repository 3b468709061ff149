/** The board of a puzzle as the players read it: which bracket spans it has, what a guess
    writes on it, and what a span does to it. */
module Boards {
  import opened Domain
  import opened Parts
  import opened Puzzles
  import opened PuzzlePlay
  import Text

  // ---------------------------------------------------------------- agreeing places

  /** The places where two words have the same letter. */
  function Agreeing(a: string, b: string): set<nat> {
    set i: nat | i < |a| && i < |b| && a[i] == b[i]
  }

  function Shifted(places: set<nat>): set<nat> {
    set i | i in places :: i + 1
  }

  lemma {:induction false} ShiftingKeepsCount(places: set<nat>)
    ensures |Shifted(places)| == |places|
  {
    if places != {} {
      var i :| i in places;
      ShiftingKeepsCount(places - {i});
      forall k: nat ensures k in Shifted(places) <==> k in Shifted(places - {i}) + {i + 1} {
        if k > 0 {
          assert k in Shifted(places) <==> k - 1 in places;
          assert k in Shifted(places - {i}) <==> k - 1 in places - {i};
        }
      }
      assert Shifted(places) == Shifted(places - {i}) + {i + 1};
    }
  }

  /** The likeness of a candidate is the number of places where it agrees with the secret. */
  lemma {:induction false} LikenessCountsPlaces(candidate: string, secret: string)
    ensures Matches(candidate, secret) == |Agreeing(candidate, secret)|
  {
    if candidate == "" || secret == "" {
      assert Agreeing(candidate, secret) == {};
    } else {
      var rest := Agreeing(candidate[1..], secret[1..]);
      LikenessCountsPlaces(candidate[1..], secret[1..]);
      ShiftingKeepsCount(rest);
      var first := if candidate[0] == secret[0] then {0} else {};
      forall i: nat ensures i in Agreeing(candidate, secret) <==> i in first + Shifted(rest) {
        if i > 0 {
          assert i in Shifted(rest) <==> i - 1 in rest;
        }
      }
      assert Agreeing(candidate, secret) == first + Shifted(rest);
    }
  }

  // ---------------------------------------------------------------- what a guess writes

  function Likeness(places: nat, length: nat): string {
    "> " + Text.Decimal(places) + "/" + Text.Decimal(length) + " правильно."
  }

  lemma LoggedWrites(s: HackState, lines: seq<string>)
    ensures |lines| == 1 ==> Logged(s, lines) == s.(log := s.log + ["> " + lines[0]])
    ensures |lines| == 2 ==> Logged(s, lines) == s.(log := s.log + ["> " + lines[0], "> " + lines[1]])
    ensures |lines| == 4 ==>
              Logged(s, lines) == s.(log := s.log + ["> " + lines[0], "> " + lines[1], "> " + lines[2],
                                                     "> " + lines[3]])
  {
  }

  lemma SpentWrites(s: HackState, matches: nat)
    requires s.attemptsLeft > 0
    ensures Spent(s, matches) == s.(attemptsLeft := s.attemptsLeft - 1, failed := s.failed || s.attemptsLeft == 1,
                                    log := s.log + ["> Отказ в доступе", Likeness(matches, s.wordLength)])
  {
    LoggedWrites(s, [DENIED, Score(matches, s.wordLength)]);
    assert "> " + Score(matches, s.wordLength) == Likeness(matches, s.wordLength);
    assert "> " + DENIED == "> Отказ в доступе";
  }

  /** The secret solves the puzzle and is welcomed; any other candidate costs an attempt and
      is answered with the number of places where it agrees with the secret; and so does a
      place with filler in it, which agrees nowhere. Nothing else costs or writes anything. */
  lemma GuessWrites(s: HackState, target: string)
    requires Fair(s) && !Ended(s)
    ensures var after := Guessed(s, target);
            if target in s.words && s.words[target] == s.secret then
              after == s.(solved := true, log := s.log + ["> " + s.secret, "> Точно!", "> Пожалуйста,", "> подождите",
                                                          "> входа в систему."])
            else if target in s.words then
              after == s.(attemptsLeft := s.attemptsLeft - 1, failed := s.attemptsLeft == 1,
                          log := s.log + ["> " + s.words[target], "> Отказ в доступе",
                                          Likeness(|Agreeing(s.words[target], s.secret)|, |s.secret|)])
            else if Cell(target).Some? && Fillable(s.columns, Cell(target).value.0, Cell(target).value.1) then
              var (column, place) := Cell(target).value;
              after == s.(attemptsLeft := s.attemptsLeft - 1, failed := s.attemptsLeft == 1,
                          log := s.log + ["> " + [s.columns[column].text[place]], "> Отказ в доступе",
                                          Likeness(0, |s.secret|)])
            else after == s
  {
    hide Cell, Fillable, Matches, Agreeing, Likeness, Score, Logged;
    if target in s.words {
      var text := s.words[target];
      AllMatchIffEqual(text, s.secret);
      LikenessCountsPlaces(text, s.secret);
      LoggedWrites(s, [text]);
      var tried := Logged(s, [text]);
      SuccessWrites(tried.(solved := true));
      SpentWrites(tried, Matches(text, s.secret));
    } else if Cell(target).Some? && Fillable(s.columns, Cell(target).value.0, Cell(target).value.1) {
      FillableIsThere(s.columns, Cell(target).value.0, Cell(target).value.1);
      var letter := s.columns[Cell(target).value.0].text[Cell(target).value.1];
      LoggedWrites(s, [[letter]]);
      SpentWrites(Logged(s, [[letter]]), 0);
    }
  }

  lemma FillableIsThere(columns: seq<HackColumn>, column: nat, place: nat)
    requires Fillable(columns, column, place)
    ensures column < |columns| && place < |columns[column].text|
  {
  }

  lemma SuccessWrites(s: HackState)
    ensures Logged(s, SUCCESS) ==
            s.(log := s.log + ["> Точно!", "> Пожалуйста,", "> подождите", "> входа в систему."])
  {
    LoggedWrites(s, SUCCESS);
    assert "> " + "Точно!" == "> Точно!" && "> " + "Пожалуйста," == "> Пожалуйста,";
    assert "> " + "подождите" == "> подождите" && "> " + "входа в систему." == "> входа в систему.";
  }

  /** The Overseer's success writes the secret out and costs nothing. */
  lemma ForceWrites(s: HackState)
    requires !Ended(s)
    ensures Forced(s) == s.(solved := true, log := s.log + ["> " + s.secret, "> Точно!", "> Пожалуйста,", "> подождите",
                                                            "> входа в систему."])
  {
    hide Logged;
    LoggedWrites(s, [s.secret]);
    SuccessWrites(Logged(s, [s.secret]).(solved := true));
  }

  // ---------------------------------------------------------------- places by name

  lemma {:induction false} ValueOfDecimal(n: nat)
    ensures AllDigits(Text.Decimal(n)) && Value(Text.Decimal(n)) == n
  {
    if n >= 10 {
      ValueOfDecimal(n / 10);
    }
    var text := Text.Decimal(n);
    assert text[..|text| - 1] == if n < 10 then "" else Text.Decimal(n / 10);
  }

  lemma AtoiOfDecimal(n: nat)
    ensures Atoi(Text.Decimal(n)) == Some(n) && ':' !in Text.Decimal(n)
  {
    ValueOfDecimal(n);
    assert Text.Digit(Text.Decimal(n)[0]);
  }

  /** Every place of the board has a name a guess can use, and it names that place. */
  lemma PlacesHaveNames(column: nat, place: nat)
    ensures Cell(Text.Decimal(column) + ":" + Text.Decimal(place)) == Some((column, place))
  {
    AtoiOfDecimal(column);
    AtoiOfDecimal(place);
    var parts := [Text.Decimal(column), Text.Decimal(place)];
    SplitUndoesJoin(parts, ':');
    assert Join(parts[1..], ':') == parts[1];
    assert Join(parts, ':') == Text.Decimal(column) + ":" + Text.Decimal(place);
  }

  // ---------------------------------------------------------------- the spans of a board

  predicate Pair(open: char, close: char) {
    (open == '(' && close == ')') || (open == '[' && close == ']') || (open == '{' && close == '}')
    || (open == '<' && close == '>')
  }

  /** An opening bracket and the first bracket that fits it, in one row of twelve with no
      letter between them. */
  predicate Between(text: string, start: nat, end: nat) {
    && start < end < |text| && start / 12 == end / 12 && Pair(text[start], text[end])
    && forall i :: start < i < end ==> text[i] != text[end] && !Alpha(text[i])
  }

  lemma SpanEndsBetween(text: string, start: nat, end: nat)
    requires start < |text|
    ensures SpanEnd(text, start) == Some(end) <==> Between(text, start, end)
  {
    var closer := Closer(text[start]);
    if closer.Some? {
      var last := RowEnd(start, |text|);
      var found := FirstIndex(text, closer.value, start + 1, last);
      RowsEnd(start, |text|);
      if Between(text, start, end) {
        assert text[start + 1..last][end - start - 1] == closer.value;
      }
      if found.Some? {
        forall i | start < i < found.value ensures text[i] != closer.value {
          assert text[start + 1..found.value][i - start - 1] == text[i];
        }
      }
    }
  }

  lemma RowsEnd(start: nat, length: nat)
    requires start < length
    ensures forall i :: start <= i < length ==> (i < RowEnd(start, length) <==> i / 12 == start / 12)
  {
  }

  /** A span as the board lists it: where it stands in its column and in the rendered rows. */
  predicate Stands(span: Span, column: nat, rows: nat, text: string, from: nat) {
    && span.column == column && from <= span.absolute
    && span.row == rows + span.absolute / 12 && span.start == span.absolute % 12 && span.end < 12
    && Between(text, span.absolute, span.absolute - span.start + span.end)
  }

  lemma OneSpanStands(column: nat, rows: nat, text: string, start: nat, span: Span)
    requires start < |text|
    ensures span in SpanAt(column, rows, text, start) <==>
            Stands(span, column, rows, text, start) && span.absolute == start
  {
    var found := SpanEnd(text, start);
    if found.Some? {
      SpanEndsBetween(text, start, found.value);
    }
    if Stands(span, column, rows, text, start) && span.absolute == start {
      SpanEndsBetween(text, start, start - span.start + span.end);
    }
  }

  lemma {:induction false} ColumnSpansStand(column: nat, rows: nat, text: string, from: nat, span: Span)
    requires from <= |text|
    ensures span in ColumnSpans(column, rows, text, from) <==> Stands(span, column, rows, text, from)
    decreases |text| - from
  {
    hide SpanAt, Between;
    StandsInside(column, rows, text, from, span);
    if from < |text| {
      ColumnSpansStand(column, rows, text, from + 1, span);
      OneSpanStands(column, rows, text, from, span);
    }
  }

  lemma StandsInside(column: nat, rows: nat, text: string, from: nat, span: Span)
    ensures Stands(span, column, rows, text, from) ==> span.absolute < |text|
  {
  }

  /** How many rows of twelve the columns before one take on the screen. */
  function RowsAbove(columns: seq<HackColumn>, column: nat): nat
    requires column <= |columns|
  {
    if column == 0 then 0 else RowsAbove(columns, column - 1) + (|columns[column - 1].text| + 11) / 12
  }

  lemma {:induction false} SpansStandFrom(columns: seq<HackColumn>, column: nat, span: Span)
    requires column <= |columns|
    ensures span in SpansFrom(columns, column, RowsAbove(columns, column)) <==>
            && column <= span.column < |columns|
            && Stands(span, span.column, RowsAbove(columns, span.column), columns[span.column].text, 0)
    decreases |columns| - column
  {
    hide Stands, ColumnSpans;
    if column < |columns| {
      ColumnSpansStand(column, RowsAbove(columns, column), columns[column].text, 0, span);
      SpansStandFrom(columns, column + 1, span);
      StandsInItsColumn(columns, column, span);
    }
  }

  lemma StandsInItsColumn(columns: seq<HackColumn>, column: nat, span: Span)
    requires column < |columns|
    ensures Stands(span, column, RowsAbove(columns, column), columns[column].text, 0) ==> span.column == column
  {
  }

  /** The spans of a board are exactly its bracket pairs, each in one row, without letters. */
  lemma SpansAreThePairs(columns: seq<HackColumn>, span: Span)
    ensures span in SpansFrom(columns, 0, 0) <==>
            && span.column < |columns|
            && Stands(span, span.column, RowsAbove(columns, span.column), columns[span.column].text, 0)
  {
    SpansStandFrom(columns, 0, span);
  }

  /** Filler is any place of the board that is in no word and where no pair begins. */
  lemma FillerIff(columns: seq<HackColumn>, column: nat, place: nat)
    ensures Fillable(columns, column, place) <==>
            && column < |columns| && place < |columns[column].text|
            && (forall w :: w in columns[column].words ==> !(w.start <= place < w.start + w.length))
            && (forall end :: place < end < |columns[column].text| ==> !Between(columns[column].text, place, end))
  {
    hide Between;
    forall span | span in SpansFrom(columns, 0, 0) && span.column == column && span.absolute == place
      ensures column < |columns| && exists end: nat :: Between(columns[column].text, place, end)
    {
      SpansAreThePairs(columns, span);
    }
    if column < |columns| {
      forall end | place < end < |columns[column].text| && Between(columns[column].text, place, end)
        ensures exists span :: span in SpansFrom(columns, 0, 0) && span.column == column && span.absolute == place
      {
        PairIsSpan(columns, column, place, end);
      }
      BetweenIsAhead(columns[column].text, place);
    }
  }

  lemma PairIsSpan(columns: seq<HackColumn>, column: nat, place: nat, end: nat)
    requires column < |columns| && Between(columns[column].text, place, end)
    ensures exists span :: span in SpansFrom(columns, 0, 0) && span.column == column && span.absolute == place
  {
    hide SpansFrom, RowsAbove, Between;
    OneRow(columns[column].text, place, end);
    var span := Span(column, place, RowsAbove(columns, column) + place / 12, place % 12, end % 12);
    SpansAreThePairs(columns, span);
  }

  lemma OneRow(text: string, place: nat, end: nat)
    requires Between(text, place, end)
    ensures place - place % 12 + end % 12 == end
  {
  }

  lemma BetweenIsAhead(text: string, place: nat)
    ensures forall end: nat :: Between(text, place, end) ==> place < end < |text|
  {
  }

  // ---------------------------------------------------------------- what a span does

  /** A wrong candidate still listed on the board. */
  predicate Wrong(s: HackState, id: string) {
    id in ListedIds(s.columns) && id in s.words && s.words[id] != s.secret
  }

  /** The draws that restore the attempts although there are wrong words to take away. */
  predicate Lucky(draw: nat) {
    80 <= draw
  }

  function LuckyBelow(limit: nat): set<nat> {
    set draw: nat | draw < limit && Lucky(draw)
  }

  lemma {:induction false} CountLucky(limit: nat)
    ensures |LuckyBelow(limit)| == if limit < 80 then 0 else limit - 80
  {
    if limit == 0 {
      assert LuckyBelow(limit) == {};
    } else {
      CountLucky(limit - 1);
      assert LuckyBelow(limit) == LuckyBelow(limit - 1) + if Lucky(limit - 1) then {limit - 1} else {};
    }
  }

  /** One listing of the word goes; where it stood there are dots, and the rest of the board
      stays. */
  predicate DottedOut(before: seq<HackColumn>, after: seq<HackColumn>, id: string, column: nat, index: nat) {
    && |after| == |before| && column < |before| && index < |before[column].words|
    && (forall k :: 0 <= k < |before| && k != column ==> after[k] == before[k])
    && var was, now, word := before[column], after[column], before[column].words[index];
       && word.id == id && now.addresses == was.addresses
       && now.words == was.words[..index] + was.words[index + 1..]
       && (0 <= word.start <= word.start + word.length <= |was.text| ==>
             && |now.text| == |was.text|
             && forall i :: 0 <= i < |was.text| ==>
                  now.text[i] == if word.start <= i < word.start + word.length then '.' else was.text[i])
  }

  lemma {:induction false} RemovalDots(columns: seq<HackColumn>, id: string) returns (column: nat, index: nat)
    requires id in ListedIds(columns)
    ensures DottedOut(columns, Removed(columns, id), id, column, index)
    decreases |columns|
  {
    hide DottedOut, Dotted;
    var found := WordIndex(columns[0].words, id);
    if found.Some? {
      column, index := 0, found.value;
      FirstIsDotted(columns, id, index);
    } else {
      assert id !in IdsOf(columns[0].words);
      column, index := RemovalDots(columns[1..], id);
      RestIsDotted(columns, Removed(columns[1..], id), id, column, index);
      column := column + 1;
    }
  }

  lemma FirstIsDotted(columns: seq<HackColumn>, id: string, index: nat)
    requires columns != [] && WordIndex(columns[0].words, id) == Some(index)
    ensures DottedOut(columns, Removed(columns, id), id, 0, index)
  {
    var was := columns[0];
    assert Removed(columns, id) == [DottedAt(was, index)] + columns[1..];
  }

  lemma RestIsDotted(columns: seq<HackColumn>, rest: seq<HackColumn>, id: string, column: nat, index: nat)
    requires columns != [] && DottedOut(columns[1..], rest, id, column, index)
    ensures DottedOut(columns, [columns[0]] + rest, id, column + 1, index)
  {
  }

  /** A working span is on the board and unused, and afterwards it is used up. */
  lemma SpanIsUsedUp(s: HackState, id: string, roll: Roll)
    requires Activated(s, id, roll).1
    ensures exists span :: span in SpansFrom(s.columns, 0, 0) && PatternId(IdentityOf(s.generationId, span)) == id
                           && IdentityOf(s.generationId, span) !in s.used
                           && Activated(s, id, roll).0.used == s.used + {IdentityOf(s.generationId, span)}
  {
    hide Removed, Dud, PatternId, SpansFrom;
    var span := FindSpan(SpansFrom(s.columns, 0, 0), s.generationId, id).value;
    assert Activated(s, id, roll).0.used == s.used + {IdentityOf(s.generationId, span)};
  }

  /** It either restores the attempts or takes one wrong word away: the first always if
      there is none to take and otherwise on one draw in five. The log says which. */
  lemma SpanDoes(s: HackState, id: string, roll: Roll) returns (dud: string, column: nat, index: nat)
    requires Activated(s, id, roll).1
    ensures |LuckyBelow(100)| == 20
    ensures var after := Activated(s, id, roll).0;
            if roll.outcome % 100 in LuckyBelow(100) || (forall other :: other in s.words ==> !Wrong(s, other)) then
              after == s.(used := after.used, attemptsLeft := s.attemptsMax,
                          log := s.log + ["> Попытки восстановлены."])
            else
              && Wrong(s, dud) && DottedOut(s.columns, after.columns, dud, column, index)
              && after == s.(used := after.used, columns := after.columns, words := s.words - {dud},
                             log := s.log + ["> Ложное слово удалено."])
  {
    hide Logged, DottedOut, Activated, Removed, Decoys;
    CountLucky(100);
    DecoysAreWrong(s.columns, s.words, s.secret);
    EffectIs(s, id, roll);
    dud, column, index := "", 0, 0;
    var decoys := Decoys(s.columns, s.words, s.secret);
    if decoys != [] {
      assert decoys[0] in decoys && Wrong(s, decoys[0]);
    }
    if Dud(s, roll).Some? {
      dud := Dud(s, roll).value;
      assert dud in decoys;
      column, index := RemovalDots(s.columns, dud);
    }
  }

  lemma EffectIs(s: HackState, id: string, roll: Roll)
    requires Activated(s, id, roll).1
    ensures var after, dud := Activated(s, id, roll).0, Dud(s, roll);
            if dud.None? then
              after == s.(used := after.used, attemptsLeft := s.attemptsMax,
                          log := s.log + ["> Попытки восстановлены."])
            else
              after == s.(used := after.used, columns := Removed(s.columns, dud.value), words := s.words - {dud.value},
                          log := s.log + ["> Ложное слово удалено."])
  {
    hide Removed, Logged, Requested, Dud;
    var dud := Dud(s, roll);
    var marked := s.(used := s.used + {Requested(s, id).value});
    LoggedWrites(marked.(attemptsLeft := s.attemptsMax), [RESTORED]);
    if dud.Some? {
      LoggedWrites(marked.(columns := Removed(s.columns, dud.value), words := s.words - {dud.value}), [REMOVED]);
    }
    LinesAre();
  }

  lemma LinesAre()
    ensures "> " + RESTORED == "> Попытки восстановлены." && "> " + REMOVED == "> Ложное слово удалено."
  {
  }

  /** And any wrong word can be the one. */
  lemma AnyWrongWordCanGo(s: HackState, id: string, dud: string) returns (roll: Roll)
    requires Activated(s, id, Roll(80, 0)).1 && Wrong(s, dud)
    ensures Activated(s, id, roll).1 && Activated(s, id, roll).0.words == s.words - {dud}
  {
    hide Activated, Decoys;
    DecoysAreWrong(s.columns, s.words, s.secret);
    var decoys := Decoys(s.columns, s.words, s.secret);
    var k :| 0 <= k < |decoys| && decoys[k] == dud;
    roll := Roll(0, k);
    WorksForAnyDraw(s, id, Roll(80, 0), roll);
    EffectIs(s, id, roll);
  }

  lemma WorksForAnyDraw(s: HackState, id: string, roll: Roll, other: Roll)
    ensures Activated(s, id, roll).1 == Activated(s, id, other).1
  {
    hide Removed, Logged, Requested, Dud;
  }

  // ---------------------------------------------------------------- the published board

  /** What the players see marked on the board is what works: a span is published as unused
      exactly if activating it has an effect, as long as the puzzle is open. */
  lemma PublishedSpansWork(s: HackState, id: string, roll: Roll)
    requires !Ended(s)
    ensures Activated(s, id, roll).1 <==> exists k :: 0 <= k < |Public(s).patterns|
                                              && Public(s).patterns[k].id == id && !Public(s).patterns[k].used
  {
    hide Dud, Removed, SpansFrom, PatternId;
    var spans := SpansFrom(s.columns, 0, 0);
    var found := FindSpan(spans, s.generationId, id);
    if k :| 0 <= k < |Public(s).patterns| && Public(s).patterns[k].id == id && !Public(s).patterns[k].used {
      assert spans[k] in spans;
      PatternIdNamesPuzzle(IdentityOf(s.generationId, spans[k]), IdentityOf(s.generationId, found.value));
    }
    if Activated(s, id, roll).1 {
      var k :| 0 <= k < |spans| && spans[k] == found.value;
      assert Public(s).patterns[k].id == id && !Public(s).patterns[k].used;
    }
  }

  /** Each published span says where it is. */
  lemma PublishedSpansStand(s: HackState, k: nat)
    requires k < |Public(s).patterns|
    ensures exists span :: span in SpansFrom(s.columns, 0, 0)
              && Public(s).patterns[k].row == span.row && Public(s).patterns[k].start == span.start
              && Public(s).patterns[k].end == span.end
              && Public(s).patterns[k].id == PatternId(IdentityOf(s.generationId, span))
    ensures |Public(s).patterns| == |SpansFrom(s.columns, 0, 0)|
  {
    hide SpansFrom, PatternId;
    assert SpansFrom(s.columns, 0, 0)[k] in SpansFrom(s.columns, 0, 0);
  }
}
