/** The hacking puzzle: guesses, bracket patterns, and what of it is published. */
module Puzzles {
  import opened Domain
  import opened Parts
  import Text

  predicate Ended(s: HackState) {
    s.solved || s.failed
  }

  function Logged(s: HackState, lines: seq<string>): HackState {
    s.(log := s.log + seq(|lines|, i requires 0 <= i < |lines| => "> " + lines[i]))
  }

  // ---------------------------------------------------------------- bracket spans

  const ROW := 12

  predicate Alpha(c: char) {
    'A' <= c <= 'Z' || 'a' <= c <= 'z'
  }

  function Closer(c: char): Option<char> {
    match c
    case '(' => Some(')')
    case '[' => Some(']')
    case '{' => Some('}')
    case '<' => Some('>')
    case _ => None
  }

  function FirstIndex(text: string, c: char, from: nat, to: nat): (index: Option<nat>)
    requires from <= to <= |text|
    ensures index.Some? ==> from <= index.value < to && text[index.value] == c && c !in text[from..index.value]
    ensures index.None? ==> c !in text[from..to]
    decreases |text| - from
  {
    if from == to then None
    else if text[from] == c then Some(from)
    else FirstIndex(text, c, from + 1, to)
  }

  function RowEnd(start: nat, length: nat): (end: nat)
    requires start < length
    ensures start < end <= length
  {
    if (start / ROW + 1) * ROW < length then (start / ROW + 1) * ROW else length
  }

  /** Where the span opened at `start` closes: in the same row, at the first bracket
      that fits, with no letter in between. */
  function SpanEnd(text: string, start: nat): (end: Option<nat>)
    requires start < |text|
    ensures end.Some? ==> start < end.value < |text|
  {
    var closer := Closer(text[start]);
    if closer.None? then None
    else
      var end := FirstIndex(text, closer.value, start + 1, RowEnd(start, |text|));
      if end.None? || exists i :: start < i < end.value && Alpha(text[i]) then None else end
  }

  datatype Span = Span(column: nat, absolute: nat, row: nat, start: nat, end: nat)

  function SpanAt(column: nat, rows: nat, text: string, start: nat): seq<Span>
    requires start < |text|
  {
    var end := SpanEnd(text, start);
    if end.None? then []
    else [Span(column, start, rows + start / ROW, start % ROW, end.value - (start - start % ROW))]
  }

  function ColumnSpans(column: nat, rows: nat, text: string, from: nat): seq<Span>
    requires from <= |text|
    decreases |text| - from
  {
    if from == |text| then [] else SpanAt(column, rows, text, from) + ColumnSpans(column, rows, text, from + 1)
  }

  function Rows(text: string): nat {
    (|text| + ROW - 1) / ROW
  }

  function SpansFrom(columns: seq<HackColumn>, column: nat, rows: nat): seq<Span>
    requires column <= |columns|
    decreases |columns| - column
  {
    if column == |columns| then []
    else
      var text := columns[column].text;
      ColumnSpans(column, rows, text, 0) + SpansFrom(columns, column + 1, rows + Rows(text))
  }

  function IdentityOf(generation: string, span: Span): PatternIdentity {
    PatternIdentity(generation, span.row, span.start, span.end)
  }

  const SEPARATOR: char := 0 as char

  /** The text a published pattern identifier spells. */
  function PatternId(identity: PatternIdentity): string {
    identity.generationId + [SEPARATOR] + Text.Decimal(identity.row) + [SEPARATOR]
    + Text.Decimal(identity.start) + [SEPARATOR] + Text.Decimal(identity.end)
  }

  // ---------------------------------------------------------------- guesses

  function Matches(candidate: string, secret: string): nat {
    if candidate == "" || secret == "" then 0
    else (if candidate[0] == secret[0] then 1 else 0) + Matches(candidate[1..], secret[1..])
  }

  const DENIED := "Отказ в доступе"
  const SUCCESS := ["Точно!", "Пожалуйста,", "подождите", "входа в систему."]

  function Score(matches: nat, length: nat): string {
    Text.Decimal(matches) + "/" + Text.Decimal(length) + " правильно."
  }

  function Spent(s: HackState, matches: nat): HackState {
    var left := if s.attemptsLeft > 0 then s.attemptsLeft - 1 else 0;
    Logged(s, [DENIED, Score(matches, s.wordLength)]).(attemptsLeft := left, failed := s.failed || left == 0)
  }

  function Atoi(text: string): Option<int> {
    var signed := text != "" && (text[0] == '+' || text[0] == '-');
    var digits := if signed then text[1..] else text;
    if !AllDigits(digits) then None
    else
      var number: int := Value(digits);
      Some(if signed && text[0] == '-' then -number else number)
  }

  /** A target that names a cell: its column and its place there. */
  function Cell(target: string): Option<(nat, nat)> {
    var parts := Split(target, ':');
    if |parts| != 2 then None
    else
      var column, place := Atoi(parts[0]), Atoi(parts[1]);
      if column.None? || place.None? || column.value < 0 || place.value < 0 then None
      else Some((column.value, place.value))
  }

  predicate InWord(words: seq<HackWord>, place: int) {
    exists w :: w in words && w.start <= place < w.start + w.length
  }

  /** Only filler counts: no candidate, and not where a bracket span starts. */
  predicate Fillable(columns: seq<HackColumn>, column: nat, place: nat) {
    && column < |columns| && place < |columns[column].text| && !InWord(columns[column].words, place)
    && forall span :: span in SpansFrom(columns, 0, 0) ==> !(span.column == column && span.absolute == place)
  }

  function Guessed(s: HackState, target: string): HackState {
    if Ended(s) then s
    else if target in s.words then
      var tried := Logged(s, [s.words[target]]);
      var matches := Matches(s.words[target], s.secret);
      if matches == s.wordLength then Logged(tried.(solved := true), SUCCESS) else Spent(tried, matches)
    else
      var cell := Cell(target);
      if cell.None? || !Fillable(s.columns, cell.value.0, cell.value.1) then s
      else Spent(Logged(s, [[s.columns[cell.value.0].text[cell.value.1]]]), 0)
  }

  function Forced(s: HackState): HackState {
    if Ended(s) then s else Logged(Logged(s, [s.secret]).(solved := true), SUCCESS)
  }

  // ---------------------------------------------------------------- patterns

  /** What the random source yields for one pattern. */
  datatype Roll = Roll(outcome: nat, pick: nat)

  function FindSpan(spans: seq<Span>, generation: string, id: string): (found: Option<Span>)
    ensures found.Some? ==> found.value in spans && PatternId(IdentityOf(generation, found.value)) == id
    ensures found.None? ==> forall span :: span in spans ==> PatternId(IdentityOf(generation, span)) != id
  {
    if spans == [] then None
    else if PatternId(IdentityOf(generation, spans[0])) == id then Some(spans[0])
    else FindSpan(spans[1..], generation, id)
  }

  function Requested(s: HackState, id: string): Option<PatternIdentity> {
    var span := FindSpan(SpansFrom(s.columns, 0, 0), s.generationId, id);
    if span.None? then None else Some(IdentityOf(s.generationId, span.value))
  }

  /** The wrong candidates still on the board, in the order they stand there. */
  function WrongAmong(words: seq<HackWord>, texts: map<string, string>, secret: string): seq<string> {
    if words == [] then []
    else
      (if words[0].id in texts && texts[words[0].id] != secret then [words[0].id] else [])
      + WrongAmong(words[1..], texts, secret)
  }

  function Decoys(columns: seq<HackColumn>, texts: map<string, string>, secret: string): seq<string> {
    if columns == [] then []
    else WrongAmong(columns[0].words, texts, secret) + Decoys(columns[1..], texts, secret)
  }

  function WordIndex(words: seq<HackWord>, id: string): (index: Option<nat>)
    ensures index.Some? ==> index.value < |words| && words[index.value].id == id
    ensures index.None? ==> forall i :: 0 <= i < |words| ==> words[i].id != id
  {
    if words == [] then None
    else if words[0].id == id then Some(0)
    else
      var rest := WordIndex(words[1..], id);
      if rest.None? then None else Some(rest.value + 1)
  }

  function Dotted(text: string, word: HackWord): string {
    if word.start < 0 || word.length < 0 || word.start + word.length > |text| then text
    else text[..word.start] + seq(word.length, _ => '.') + text[word.start + word.length..]
  }

  /** The first word with that identifier is dotted out and no longer listed. */
  function DottedAt(column: HackColumn, index: nat): HackColumn
    requires index < |column.words|
  {
    column.(text := Dotted(column.text, column.words[index]),
            words := column.words[..index] + column.words[index + 1..])
  }

  function Removed(columns: seq<HackColumn>, id: string): seq<HackColumn> {
    if columns == [] then []
    else
      var index := WordIndex(columns[0].words, id);
      if index.None? then [columns[0]] + Removed(columns[1..], id)
      else [DottedAt(columns[0], index.value)] + columns[1..]
  }

  function Dud(s: HackState, roll: Roll): Option<string> {
    var decoys := Decoys(s.columns, s.words, s.secret);
    if roll.outcome % 100 >= 80 || decoys == [] then None else Some(decoys[roll.pick % |decoys|])
  }

  const RESTORED := "Попытки восстановлены."
  const REMOVED := "Ложное слово удалено."

  /** A span works once: it restores the attempts or takes one wrong word away. */
  function Activated(s: HackState, id: string, roll: Roll): (HackState, bool) {
    var identity := Requested(s, id);
    if Ended(s) || identity.None? || identity.value in s.used then (s, false)
    else
      var marked := s.(used := s.used + {identity.value});
      var dud := Dud(s, roll);
      if dud.None? then (Logged(marked.(attemptsLeft := s.attemptsMax), [RESTORED]), true)
      else (Logged(marked.(columns := Removed(s.columns, dud.value), words := s.words - {dud.value}), [REMOVED]), true)
  }

  // ---------------------------------------------------------------- publication

  datatype PublicPattern = PublicPattern(id: string, row: nat, start: nat, end: nat, used: bool)

  datatype PublicHack = PublicHack(
    level: int,
    wordLength: nat,
    attemptsMax: int,
    attemptsLeft: int,
    solved: bool,
    failed: bool,
    log: seq<string>,
    columns: seq<HackColumn>,
    patterns: seq<PublicPattern>)

  function PublicPatterns(spans: seq<Span>, generation: string, used: set<PatternIdentity>): seq<PublicPattern> {
    seq(|spans|, i requires 0 <= i < |spans| =>
      var identity := IdentityOf(generation, spans[i]);
      PublicPattern(PatternId(identity), identity.row, identity.start, identity.end, identity in used))
  }

  function Public(s: HackState): PublicHack {
    PublicHack(s.level, s.wordLength, s.attemptsMax, s.attemptsLeft, s.solved, s.failed, s.log, s.columns,
               PublicPatterns(SpansFrom(s.columns, 0, 0), s.generationId, s.used))
  }
}
