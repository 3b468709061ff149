/** The coordinator's aggregate as it lives in memory: objects updated in place, the
    containers they own, the value each of them stands for, and the deep copies
    transactions work on. */
module Heap {
  import opened Domain
  import opened State
  import opened Changes
  import Nav

  // ---------------------------------------------------------------- containers

  class ConnectionSet {
    var members: set<string>

    constructor (members: set<string>)
      ensures this.members == members
    {
      this.members := members;
    }
  }

  class ResultCache {
    var records: map<string, ResultRecord>

    constructor (records: map<string, ResultRecord>)
      ensures this.records == records
    {
      this.records := records;
    }
  }

  // Browser token to session.
  class TokenTable {
    var entries: map<string, string>

    constructor (entries: map<string, string>)
      ensures this.entries == entries
    {
      this.entries := entries;
    }
  }

  class Roster {
    var byId: map<string, Character>
    var order: seq<string>

    constructor (byId: map<string, Character>, order: seq<string>)
      ensures this.byId == byId && this.order == order
    {
      this.byId, this.order := byId, order;
    }
  }

  // Session to the character it plays.
  class Assignments {
    var entries: map<string, string>

    constructor (entries: map<string, string>)
      ensures this.entries == entries
    {
      this.entries := entries;
    }
  }

  // Character to the session that plays it.
  class Claimants {
    var entries: map<string, string>

    constructor (entries: map<string, string>)
      ensures this.entries == entries
    {
      this.entries := entries;
    }
  }

  class ReturnStack {
    var points: seq<ReturnPoint>

    constructor (points: seq<ReturnPoint>)
      ensures this.points == points
    {
      this.points := points;
    }
  }

  class CommandTable {
    var states: map<string, CommandState>

    constructor (states: map<string, CommandState>)
      ensures this.states == states
    {
      this.states := states;
    }
  }

  class ContentTree {
    var root: ContentNode

    constructor (root: ContentNode)
      ensures this.root == root
    {
      this.root := root;
    }
  }

  class Puzzle {
    const generationId: string
    const level: int
    const wordLength: nat
    const attemptsMax: int
    const secret: string
    var attemptsLeft: int
    var words: map<string, string>
    var used: set<PatternIdentity>
    var solved: bool
    var failed: bool
    var log: seq<string>
    var columns: seq<HackColumn>

    ghost function Value(): HackState
      reads this
    {
      HackState(generationId, level, wordLength, attemptsMax, attemptsLeft, secret, words, used, solved, failed, log,
                columns)
    }

    constructor (s: HackState)
      ensures Value() == s
    {
      generationId, level, wordLength, attemptsMax, secret := s.generationId, s.level, s.wordLength, s.attemptsMax,
          s.secret;
      attemptsLeft, words, used, solved, failed := s.attemptsLeft, s.words, s.used, s.solved, s.failed;
      log, columns := s.log, s.columns;
    }

    method Clone() returns (copy: Puzzle)
      ensures fresh(copy) && copy.Value() == Value()
    {
      copy := new Puzzle(
        HackState(generationId, level, wordLength, attemptsMax, attemptsLeft, secret, words, used, solved, failed, log,
                  columns));
    }
  }

  ghost function PuzzleValue(hack: Puzzle?): Option<HackState>
    reads hack
  {
    if hack == null then None else Some(hack.Value())
  }

  // ---------------------------------------------------------------- sessions and checkpoints

  class LogicalSession {
    const id: string
    var fallbackName: string
    const connections: ConnectionSet
    const results: ResultCache
    var notice: bool

    /** The session and every container it owns. */
    ghost function Cells(): set<object> {
      {this, connections, results}
    }

    ghost function Value(): Session
      reads this, connections, results
    {
      Session(id, fallbackName, connections.members, results.records, notice)
    }

    constructor (s: Session)
      ensures Value() == s && fresh(Cells())
    {
      id, fallbackName, notice := s.id, s.fallbackName, s.notice;
      connections := new ConnectionSet(s.connections);
      results := new ResultCache(s.results);
    }

    method Clone() returns (copy: LogicalSession)
      ensures fresh(copy.Cells()) && copy.Value() == Value()
    {
      copy := new LogicalSession(Session(id, fallbackName, connections.members, results.records, notice));
    }
  }

  class TerminalRuntime {
    const terminalId: string
    var terminalName: string
    const tree: ContentTree
    const commandStates: CommandTable
    var execution: Option<Execution>
    var hackLevel: int
    var introText: string
    var nav: NavState
    const hack: Puzzle?
    var presentation: Presentation
    var lifecycle: Lifecycle

    /** The checkpoint, its content, its completed commands and its puzzle. */
    ghost function Cells(): set<object> {
      {this, tree, commandStates} + if hack == null then {} else {hack}
    }

    ghost function Value(): Terminal
      reads this, tree, commandStates, hack
    {
      Terminal(terminalId, terminalName, tree.root, commandStates.states, execution, hackLevel, introText, nav,
               PuzzleValue(hack), presentation, lifecycle)
    }

    constructor (t: Terminal)
      ensures Value() == t && fresh(Cells())
    {
      terminalId, terminalName, execution, hackLevel := t.terminalId, t.terminalName, t.execution, t.hackLevel;
      introText, nav, presentation, lifecycle := t.introText, t.nav, t.presentation, t.lifecycle;
      tree := new ContentTree(t.tree);
      commandStates := new CommandTable(t.commandStates);
      if t.hack.Some? {
        hack := new Puzzle(t.hack.value);
      } else {
        hack := null;
      }
    }

    constructor Holding(source: TerminalRuntime, puzzle: Puzzle?)
      ensures hack == puzzle && fresh({tree, commandStates})
      ensures Value() == source.Value().(hack := PuzzleValue(puzzle))
    {
      terminalId, terminalName, execution, hackLevel := source.terminalId, source.terminalName, source.execution,
          source.hackLevel;
      introText, nav, presentation, lifecycle := source.introText, source.nav, source.presentation, source.lifecycle;
      tree := new ContentTree(source.tree.root);
      commandStates := new CommandTable(source.commandStates.states);
      hack := puzzle;
    }

    method Clone() returns (copy: TerminalRuntime)
      ensures fresh(copy.Cells()) && copy.Value() == Value()
    {
      var puzzle := null;
      if hack != null {
        puzzle := hack.Clone();
      }
      copy := new TerminalRuntime.Holding(this, puzzle);
    }
  }

  // ---------------------------------------------------------------- collections of them

  ghost function ConnectionSets(sessions: map<string, LogicalSession>): set<ConnectionSet> {
    set id | id in sessions :: sessions[id].connections
  }

  ghost function ResultCaches(sessions: map<string, LogicalSession>): set<ResultCache> {
    set id | id in sessions :: sessions[id].results
  }

  ghost function SessionCells(sessions: map<string, LogicalSession>): set<object> {
    sessions.Values + ConnectionSets(sessions) + ResultCaches(sessions)
  }

  ghost function ContentTrees(terminals: map<string, TerminalRuntime>): set<ContentTree> {
    set id | id in terminals :: terminals[id].tree
  }

  ghost function CommandTables(terminals: map<string, TerminalRuntime>): set<CommandTable> {
    set id | id in terminals :: terminals[id].commandStates
  }

  ghost function PuzzleObjects(terminals: map<string, TerminalRuntime>): set<Puzzle?> {
    set id | id in terminals && terminals[id].hack != null :: terminals[id].hack
  }

  ghost function TerminalCells(terminals: map<string, TerminalRuntime>): set<object?> {
    terminals.Values + ContentTrees(terminals) + CommandTables(terminals) + PuzzleObjects(terminals)
  }

  predicate Share(left: LogicalSession, right: LogicalSession) {
    left == right || left.connections == right.connections || left.results == right.results
  }

  predicate Overlap(left: TerminalRuntime, right: TerminalRuntime) {
    || left == right || left.tree == right.tree || left.commandStates == right.commandStates
    || (left.hack != null && left.hack == right.hack)
  }

  // No session shares an object with another.
  ghost predicate SessionsApart(sessions: map<string, LogicalSession>) {
    forall a, b :: a in sessions && b in sessions && Share(sessions[a], sessions[b]) ==> a == b
  }

  ghost predicate TerminalsApart(terminals: map<string, TerminalRuntime>) {
    forall a, b :: a in terminals && b in terminals && Overlap(terminals[a], terminals[b]) ==> a == b
  }

  ghost function TerminalValues(terminals: map<string, TerminalRuntime>): map<string, Terminal>
    reads terminals.Values, ContentTrees(terminals), CommandTables(terminals), PuzzleObjects(terminals)
  {
    map id | id in terminals :: terminals[id].Value()
  }

  ghost function SessionValues(sessions: map<string, LogicalSession>): map<string, Session>
    reads sessions.Values, ConnectionSets(sessions), ResultCaches(sessions)
  {
    map id | id in sessions :: sessions[id].Value()
  }

  lemma StaysApart(terminals: map<string, TerminalRuntime>, id: string, t: TerminalRuntime)
    requires TerminalsApart(terminals) && forall other :: other in terminals ==> !Overlap(terminals[other], t)
    ensures TerminalsApart(terminals[id := t])
  {
    var after := terminals[id := t];
    forall a, b | a in after && b in after && Overlap(after[a], after[b]) ensures a == b {
      assert a != id && b != id ==> Overlap(terminals[a], terminals[b]);
    }
  }

  twostate lemma NewTerminalCells(new terminals: map<string, TerminalRuntime>)
    requires forall id :: id in terminals ==> fresh(terminals[id].Cells())
    ensures fresh(TerminalCells(terminals))
  {
  }

  method CloneEachTerminal(terminals: map<string, TerminalRuntime>) returns (copies: map<string, TerminalRuntime>)
    ensures copies.Keys == terminals.Keys && TerminalsApart(copies)
    ensures forall id :: id in copies ==> fresh(copies[id].Cells()) && copies[id].Value() == old(terminals[id].Value())
  {
    copies := map[];
    assert TerminalsApart(copies);
    hide TerminalsApart;
    var rest := terminals.Keys;
    while rest != {}
      invariant rest <= terminals.Keys && copies.Keys == terminals.Keys - rest && TerminalsApart(copies)
      invariant forall id :: id in copies ==>
                fresh(copies[id].Cells()) && copies[id].Value() == old(terminals[id].Value())
      decreases rest
    {
      var id :| id in rest;
      var copy := terminals[id].Clone();
      StaysApart(copies, id, copy);
      copies := copies[id := copy];
      rest := rest - {id};
    }
  }

  method CloneTerminals(terminals: map<string, TerminalRuntime>) returns (copies: map<string, TerminalRuntime>)
    ensures fresh(TerminalCells(copies)) && TerminalsApart(copies)
    ensures TerminalValues(copies) == old(TerminalValues(terminals))
  {
    hide TerminalsApart, TerminalCells;
    copies := CloneEachTerminal(terminals);
    NewTerminalCells(copies);
  }

  method CloneSessions(sessions: map<string, LogicalSession>) returns (copies: map<string, LogicalSession>)
    ensures fresh(SessionCells(copies)) && SessionsApart(copies)
    ensures SessionValues(copies) == old(SessionValues(sessions))
  {
    copies := map[];
    var rest := sessions.Keys;
    while rest != {}
      invariant rest <= sessions.Keys && copies.Keys == sessions.Keys - rest
      invariant forall id :: id in copies ==>
                fresh(copies[id].Cells()) && copies[id].Value() == old(sessions[id].Value())
      invariant SessionsApart(copies)
      decreases rest
    {
      var id :| id in rest;
      var copy := sessions[id].Clone();
      copies := copies[id := copy];
      rest := rest - {id};
    }
  }

  // ---------------------------------------------------------------- the broadcast

  class LiveBroadcast {
    const id: string
    const assignments: Assignments
    const claimants: Claimants
    var controller: Option<string>
    var active: Option<string>
    var terminals: map<string, TerminalRuntime>
    const route: ReturnStack
    var established: bool
    var initialId: string
    var initialGroup: string
    var initialPosition: int

    ghost function Value(): Broadcast
      reads this, assignments, claimants, route
      reads terminals.Values, ContentTrees(terminals), CommandTables(terminals), PuzzleObjects(terminals)
    {
      Broadcast(id, assignments.entries, claimants.entries, controller, active, TerminalValues(terminals), route.points,
                established, initialId, initialGroup, initialPosition)
    }

    constructor (id: string)
      ensures Value() == Broadcast(id, map[], map[], None, None, map[], [], false, "", "", 0)
      ensures terminals == map[] && fresh({this, assignments, claimants, route})
    {
      this.id, controller, active, terminals := id, None, None, map[];
      assignments := new Assignments(map[]);
      claimants := new Claimants(map[]);
      route := new ReturnStack([]);
      established, initialId, initialGroup, initialPosition := false, "", "", 0;
    }

    constructor Holding(source: LiveBroadcast, terminals: map<string, TerminalRuntime>)
      ensures this.terminals == terminals && fresh({this, assignments, claimants, route})
      ensures id == source.id && assignments.entries == source.assignments.entries
      ensures claimants.entries == source.claimants.entries
      ensures controller == source.controller && active == source.active && route.points == source.route.points
      ensures established == source.established && initialId == source.initialId
      ensures initialGroup == source.initialGroup && initialPosition == source.initialPosition
    {
      id, controller, active := source.id, source.controller, source.active;
      established, initialId, initialGroup, initialPosition :=
        source.established, source.initialId, source.initialGroup, source.initialPosition;
      assignments := new Assignments(source.assignments.entries);
      claimants := new Claimants(source.claimants.entries);
      route := new ReturnStack(source.route.points);
      this.terminals := terminals;
    }

    /** A copy of the broadcast over copies of its checkpoints. */
    method Clone() returns (copy: LiveBroadcast)
      ensures fresh({copy, copy.assignments, copy.claimants, copy.route})
      ensures fresh(TerminalCells(copy.terminals)) && TerminalsApart(copy.terminals)
      ensures copy.Value() == old(Value())
    {
      var copies := CloneTerminals(terminals);
      copy := new LiveBroadcast.Holding(this, copies);
      assert TerminalValues(copy.terminals) == old(TerminalValues(terminals));
    }
  }

  /** The broadcast and its containers, without its checkpoints. */
  ghost function BroadcastOwn(broadcast: LiveBroadcast?): set<object?> {
    if broadcast == null then {} else {broadcast, broadcast.assignments, broadcast.claimants, broadcast.route}
  }

  ghost function BroadcastCells(broadcast: LiveBroadcast?): set<object?>
    reads broadcast
  {
    if broadcast == null then {} else BroadcastOwn(broadcast) + TerminalCells(broadcast.terminals)
  }

  ghost function BroadcastValue(broadcast: LiveBroadcast?): Option<Broadcast>
    reads broadcast
    reads if broadcast == null then {} else {broadcast.assignments, broadcast.claimants, broadcast.route}
    reads if broadcast == null then {} else broadcast.terminals.Values
    reads if broadcast == null then {} else ContentTrees(broadcast.terminals)
    reads if broadcast == null then {} else CommandTables(broadcast.terminals)
    reads if broadcast == null then {} else PuzzleObjects(broadcast.terminals)
  {
    if broadcast == null then None else Some(broadcast.Value())
  }

  method CloneBroadcast(broadcast: LiveBroadcast?) returns (copy: LiveBroadcast?)
    ensures fresh(BroadcastCells(copy)) && (copy != null ==> TerminalsApart(copy.terminals))
    ensures BroadcastValue(copy) == old(BroadcastValue(broadcast))
  {
    if broadcast == null {
      return null;
    }
    copy := broadcast.Clone();
  }

  // ---------------------------------------------------------------- the aggregate

  class ProcessRuntime {
    var revision: nat
    var sessions: map<string, LogicalSession>
    const tokens: TokenTable
    const roster: Roster
    var config: Option<ConfigHandle>
    var broadcast: LiveBroadcast?
    var pendingSwitch: Option<PendingSwitch>
    var pendingCommand: Option<PendingCommand>
    var pendingNavigation: Option<PendingNavigation>
    var notice: Option<NavigationNotice>

    /** Every object the aggregate owns. */
    ghost function Repr(): set<object?>
      reads this, broadcast
    {
      {this, tokens, roster} + SessionCells(sessions) + BroadcastCells(broadcast)
    }

    ghost predicate Valid()
      reads this, broadcast
    {
      SessionsApart(sessions) && (broadcast != null ==> TerminalsApart(broadcast.terminals))
    }

    ghost function Value(): Runtime
      reads this, tokens, roster, broadcast
      reads sessions.Values, ConnectionSets(sessions), ResultCaches(sessions)
      reads if broadcast == null then {} else {broadcast.assignments, broadcast.claimants, broadcast.route}
      reads if broadcast == null then {} else broadcast.terminals.Values
      reads if broadcast == null then {} else ContentTrees(broadcast.terminals)
      reads if broadcast == null then {} else CommandTables(broadcast.terminals)
      reads if broadcast == null then {} else PuzzleObjects(broadcast.terminals)
    {
      Runtime(revision, SessionValues(sessions), tokens.entries, roster.byId, roster.order, config,
              BroadcastValue(broadcast),
              pendingSwitch, pendingCommand, pendingNavigation, notice)
    }

    constructor ()
      ensures Valid() && fresh(Repr()) && Value() == Fresh()
    {
      revision, sessions, config, broadcast := 0, map[], None, null;
      tokens := new TokenTable(map[]);
      roster := new Roster(map[], []);
      pendingSwitch, pendingCommand, pendingNavigation, notice := None, None, None, None;
      new;
      assert SessionCells(sessions) == {};
    }

    /** A copy with the same value that shares no object with the original. */
    method Clone() returns (copy: ProcessRuntime)
      ensures copy.Valid() && fresh(copy.Repr()) && copy.Value() == old(Value())
    {
      hide SessionValues, TerminalValues, SessionsApart, TerminalsApart, SessionCells, TerminalCells;
      var copies := CloneSessions(sessions);
      label Sessions:
      RuntimeStays(this);
      var live := CloneBroadcast(broadcast);
      label Copied:
      SessionsStay@Sessions(copies);
      copy := new ProcessRuntime.Holding(this, copies, live);
      SessionsStay@Copied(copies);
      BroadcastStays@Copied(live);
    }

    constructor Holding(source: ProcessRuntime, sessions: map<string, LogicalSession>, broadcast: LiveBroadcast?)
      ensures revision == source.revision && tokens.entries == source.tokens.entries
      ensures roster.byId == source.roster.byId && roster.order == source.roster.order && config == source.config
      ensures pendingSwitch == source.pendingSwitch && pendingCommand == source.pendingCommand
      ensures pendingNavigation == source.pendingNavigation && notice == source.notice
      ensures this.sessions == sessions && this.broadcast == broadcast && fresh({this, tokens, roster})
    {
      revision, config := source.revision, source.config;
      tokens := new TokenTable(source.tokens.entries);
      roster := new Roster(source.roster.byId, source.roster.order);
      pendingSwitch, pendingCommand := source.pendingSwitch, source.pendingCommand;
      pendingNavigation, notice := source.pendingNavigation, source.notice;
      this.sessions, this.broadcast := sessions, broadcast;
    }
  }

  // ---------------------------------------------------------------- one transition in place

  /** What a mutation of a working copy asks of the transaction boundary. */
  datatype Verdict = Verdict(accepted: bool, persist: bool, audits: seq<Audit>)

  const REFUSED := Verdict(false, false, [])
  const ACCEPTED := Verdict(true, false, [])

  function VerdictOf(change: Change): Verdict {
    Verdict(change.Accept?, change.Persist?, change.audits)
  }

  /** The mutation did what `change` says: its verdict matches and, unless it was
      refused, the working copy now holds the new value. A refused mutation may leave
      anything behind. */
  ghost predicate Carries(change: Change, verdict: Verdict, working: Runtime) {
    verdict == VerdictOf(change) && (change.Reject? || working == change.rt)
  }

  // What no step touched stands for what it stood for.
  twostate lemma SessionsStay(sessions: map<string, LogicalSession>)
    requires unchanged(sessions.Values) && unchanged(ConnectionSets(sessions)) && unchanged(ResultCaches(sessions))
    ensures SessionValues(sessions) == old(SessionValues(sessions))
  {
  }

  twostate lemma TerminalsStay(terminals: map<string, TerminalRuntime>)
    requires unchanged(terminals.Values) && unchanged(ContentTrees(terminals))
    requires unchanged(CommandTables(terminals)) && unchanged(PuzzleObjects(terminals))
    ensures TerminalValues(terminals) == old(TerminalValues(terminals))
  {
  }

  twostate lemma BroadcastStays(broadcast: LiveBroadcast?)
    requires broadcast != null ==>
      && unchanged(broadcast) && unchanged(broadcast.assignments) && unchanged(broadcast.claimants) &&
         unchanged(broadcast.route)
      && unchanged(broadcast.terminals.Values) && unchanged(ContentTrees(broadcast.terminals))
      && unchanged(CommandTables(broadcast.terminals)) && unchanged(PuzzleObjects(broadcast.terminals))
    ensures BroadcastValue(broadcast) == old(BroadcastValue(broadcast))
  {
    if broadcast != null {
      TerminalsStay(broadcast.terminals);
    }
  }

  ghost function OtherTerminals(terminals: map<string, TerminalRuntime>, t: TerminalRuntime): set<object?> {
    TerminalCells(terminals) - t.Cells()
  }

  ghost function OtherSessions(sessions: map<string, LogicalSession>, session: LogicalSession): set<object> {
    SessionCells(sessions) - session.Cells()
  }

  // Only one checkpoint was touched.
  twostate lemma OnlyAt(terminals: map<string, TerminalRuntime>, new id: string, new t: TerminalRuntime)
    requires TerminalsApart(terminals) && id in terminals && terminals[id] == t &&
             unchanged(OtherTerminals(terminals, t))
    ensures TerminalValues(terminals) == old(TerminalValues(terminals))[id := terminals[id].Value()]
    ensures id in old(TerminalValues(terminals)) && old(TerminalValues(terminals))[id] == old(terminals[id].Value())
  {
    OtherValuesStay(terminals, t);
  }

  twostate lemma OtherValuesStay(terminals: map<string, TerminalRuntime>, new t: TerminalRuntime)
    requires unchanged(OtherTerminals(terminals, t))
    ensures forall other :: other in terminals && !Overlap(terminals[other], t) ==>
            terminals[other].Value() == old(terminals[other].Value())
  {
    forall other | other in terminals && !Overlap(terminals[other], t)
      ensures terminals[other].Value() == old(terminals[other].Value()) {
      assert terminals[other].Cells() !! t.Cells();
    }
  }

  // Only one session was touched.
  twostate lemma OnlySession(sessions: map<string, LogicalSession>, new id: string, new session: LogicalSession)
    requires SessionsApart(sessions) && id in sessions && sessions[id] == session &&
             unchanged(OtherSessions(sessions, session))
    ensures SessionValues(sessions) == old(SessionValues(sessions))[id := sessions[id].Value()]
    ensures id in old(SessionValues(sessions)) && old(SessionValues(sessions))[id] == old(sessions[id].Value())
  {
    forall other | other in sessions && other != id ensures sessions[other].Value() == old(sessions[other].Value()) {
      assert !Share(sessions[other], sessions[id]);
    }
  }

  // Only the broadcast was touched.
  twostate lemma BroadcastAlone(runtime: ProcessRuntime)
    requires unchanged(runtime) && unchanged(runtime.tokens) && unchanged(runtime.roster)
    requires unchanged(runtime.sessions.Values) && unchanged(ConnectionSets(runtime.sessions))
    requires unchanged(ResultCaches(runtime.sessions))
    requires runtime.broadcast != null
    ensures runtime.Value() == old(runtime.Value()).(broadcast := Some(runtime.broadcast.Value()))
  {
    SessionsStay(runtime.sessions);
  }

  // Only the checkpoints stored were touched.
  twostate lemma TerminalsAlone(runtime: ProcessRuntime)
    requires unchanged(runtime) && unchanged(runtime.tokens) && unchanged(runtime.roster)
    requires unchanged(runtime.sessions.Values) && unchanged(ConnectionSets(runtime.sessions))
    requires unchanged(ResultCaches(runtime.sessions))
    requires runtime.broadcast != null && unchanged(runtime.broadcast)
    requires unchanged(runtime.broadcast.assignments) && unchanged(runtime.broadcast.claimants) &&
             unchanged(runtime.broadcast.route)
    ensures runtime.Value() == old(runtime.Value()).(
              broadcast := Some(old(runtime.broadcast.Value()).(terminals :=
                                                                TerminalValues(runtime.broadcast.terminals))))
  {
    BroadcastAlone(runtime);
  }

  // Nothing at all was touched.
  twostate lemma RuntimeStays(runtime: ProcessRuntime)
    requires unchanged(runtime) && unchanged(runtime.tokens) && unchanged(runtime.roster)
    requires unchanged(runtime.sessions.Values) && unchanged(ConnectionSets(runtime.sessions))
    requires unchanged(ResultCaches(runtime.sessions))
    requires runtime.broadcast != null ==>
      && unchanged(runtime.broadcast)
      && unchanged(runtime.broadcast.assignments) && unchanged(runtime.broadcast.claimants) &&
         unchanged(runtime.broadcast.route)
      && unchanged(runtime.broadcast.terminals.Values) && unchanged(ContentTrees(runtime.broadcast.terminals))
      && unchanged(CommandTables(runtime.broadcast.terminals)) && unchanged(PuzzleObjects(runtime.broadcast.terminals))
    ensures runtime.Value() == old(runtime.Value())
  {
    SessionsStay(runtime.sessions);
    BroadcastStays(runtime.broadcast);
  }

  // The same checkpoint is stored under an identifier, or a new one.
  twostate predicate KeptOrAdded(before: map<string, TerminalRuntime>, new after: map<string, TerminalRuntime>) {
    forall id :: id in after ==> (id in before && after[id] == before[id]) || fresh(after[id].Cells())
  }

  twostate predicate SessionsKeptOrAdded(before: map<string, LogicalSession>, new after: map<string, LogicalSession>) {
    forall id :: id in after ==> (id in before && after[id] == before[id]) || fresh(after[id].Cells())
  }

  twostate predicate BroadcastKeptOrAdded(runtime: ProcessRuntime)
    reads runtime, runtime.broadcast
  {
    runtime.broadcast != null ==>
      if runtime.broadcast == old(runtime.broadcast)
          then KeptOrAdded(old(runtime.broadcast.terminals), runtime.broadcast.terminals)
      else fresh(BroadcastOwn(runtime.broadcast)) && forall id :: id in runtime.broadcast.terminals ==>
          fresh(runtime.broadcast.terminals[id].Cells())
  }

  // The working copy is still one, and owns nothing that existed outside it.
  twostate predicate Sealed(runtime: ProcessRuntime)
    reads runtime, runtime.broadcast
  {
    runtime.Valid() && SessionsKeptOrAdded(old(runtime.sessions), runtime.sessions) && BroadcastKeptOrAdded(runtime)
  }

  // It even consists of exactly the same objects.
  twostate predicate SameObjects(runtime: ProcessRuntime)
    reads runtime, runtime.broadcast
  {
    && runtime.sessions == old(runtime.sessions) && runtime.broadcast == old(runtime.broadcast)
    && (runtime.broadcast != null ==> runtime.broadcast.terminals == old(runtime.broadcast.terminals))
  }

  // Only the checkpoints stored may be others, and those are new.
  twostate predicate Grown(runtime: ProcessRuntime)
    reads runtime, runtime.broadcast
  {
    && runtime.sessions == old(runtime.sessions) && runtime.broadcast == old(runtime.broadcast)
    && runtime.broadcast != null && TerminalsApart(runtime.broadcast.terminals)
    && KeptOrAdded(old(runtime.broadcast.terminals), runtime.broadcast.terminals)
  }

  twostate lemma SameIsSealed(runtime: ProcessRuntime)
    requires old(runtime.Valid()) && SameObjects(runtime)
    ensures Sealed(runtime)
  {
  }

  twostate lemma SameIsGrown(runtime: ProcessRuntime)
    requires old(runtime.Valid()) && SameObjects(runtime) && runtime.broadcast != null
    ensures Grown(runtime)
  {
  }

  twostate lemma GrownIsSealed(runtime: ProcessRuntime)
    requires old(runtime.Valid()) && Grown(runtime)
    ensures Sealed(runtime)
  {
  }
}
