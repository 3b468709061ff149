/** What the players may do on the terminal on the air, and what becomes of it. */
module Actions {
  import opened Domain
  import opened State
  import opened Changes
  import opened Sessions
  import opened Claims
  import opened Terminals
  import opened Dispatch
  import opened Invariants
  import opened Ownership
  import Homeward
  import Nav
  import PuzzlePlay
  import Puzzles
  import Text

  // ---------------------------------------------------------------- who may act

  /** A request that says one thing only, and says it completely. */
  predicate Proper(c: PlayerCommand, rules: Rules) {
    && c.requestId != "" && c.broadcastId != "" && !Text.Blank(c.terminalId)
    && (|| (c.kind == "navigate" && c.targetId == c.patternId == "" && Directed(c))
        || (c.kind == "guess" && c.action == c.nodeId == c.patternId == "" && !Text.Blank(c.targetId))
        || (c.kind == "activate-pattern" && c.action == c.nodeId == c.targetId == "" && !Text.Blank(c.patternId))
        || (c.kind == "presentation" && c.action == c.nodeId == c.targetId == c.patternId == "" && rules.fieldsValid))
  }

  predicate Directed(c: PlayerCommand) {
    || (c.action in {"enter", "entry", "command"} && !Text.Blank(c.nodeId))
    || (c.action == "back" && (c.nodeId == "" || !Text.Blank(c.nodeId)))
  }

  /** The session behind the connection, known and asking something new. */
  predicate Asks(rt: Runtime, connection: string, session: string, c: PlayerCommand) {
    && session in rt.sessions && connection in rt.sessions[session].connections
    && c.requestId != "" && c.requestId !in rt.sessions[session].results
  }

  /** It controls the broadcast it speaks of, and the terminal it speaks of is on the air
      with nothing waiting for the Overseer. */
  predicate MayAct(rt: Runtime, connection: string, session: string, c: PlayerCommand, rules: Rules) {
    && Asks(rt, connection, session, c) && Proper(c, rules)
    && rt.broadcast.Some? && rt.broadcast.value.id == c.broadcastId
    && rt.broadcast.value.controller == Some(session) && rt.broadcast.value.active == Some(c.terminalId)
    && rt.pendingCommand.None? && rt.pendingNavigation.None?
  }

  lemma ProperIsValid(c: PlayerCommand, rules: Rules)
    ensures Proper(c, rules) <==> ValidCommand(c, rules)
  {
  }

  lemma ConnectionTellsSession(rt: Runtime, connection: string, session: string, limit: nat)
    requires Inv(rt, limit) && session in rt.sessions && connection in rt.sessions[session].connections
    ensures Owner(rt, connection) == Some(session)
  {
    Homeward.OwnerOfConnection(rt, connection, session);
  }

  lemma OwnerIsConnected(rt: Runtime, connection: string)
    requires Owner(rt, connection).Some?
    ensures Owner(rt, connection).value in rt.sessions &&
            connection in rt.sessions[Owner(rt, connection).value].connections
  {
  }

  lemma UnobstructedIff(rt: Runtime, connection: string, session: string, c: PlayerCommand, rules: Rules, limit: nat)
    requires Inv(rt, limit) && Asks(rt, connection, session, c)
    ensures Obstacle(rt, session, c, rules).None? <==> MayAct(rt, connection, session, c, rules)
  {
    ProperIsValid(c, rules);
    hide ValidCommand, Proper;
  }

  /** Exactly the connected controller may act, with a proper and new request about the
      terminal on the air, and only while nothing waits for the Overseer. */
  lemma AdmittedIff(rt: Runtime, env: Env, connection: string, c: PlayerCommand, rules: Rules)
    requires Inv(rt, env.limit)
    ensures Prepare(rt, env, connection, c, rules).Go? <==>
            exists session :: MayAct(rt, connection, session, c, rules)
    ensures forall session :: MayAct(rt, connection, session, c, rules) ==>
              ActiveTerminal(rt.broadcast).Some?
              && Prepare(rt, env, connection, c, rules) == Go(session, ActiveTerminal(rt.broadcast).value)
  {
    hide Obstacle, MayAct, Refuse;
    forall session | MayAct(rt, connection, session, c, rules)
      ensures ActiveTerminal(rt.broadcast).Some?
      ensures Prepare(rt, env, connection, c, rules) == Go(session, ActiveTerminal(rt.broadcast).value)
    {
      Admits(rt, env, connection, session, c, rules);
    }
    if Prepare(rt, env, connection, c, rules).Go? {
      var session := Owner(rt, connection).value;
      OwnerIsConnected(rt, connection);
      UnobstructedIff(rt, connection, session, c, rules, env.limit);
    }
  }

  lemma Admits(rt: Runtime, env: Env, connection: string, session: string, c: PlayerCommand, rules: Rules)
    requires Inv(rt, env.limit) && MayAct(rt, connection, session, c, rules)
    ensures ActiveTerminal(rt.broadcast).Some?
    ensures Prepare(rt, env, connection, c, rules) == Go(session, ActiveTerminal(rt.broadcast).value)
  {
    hide Obstacle, Refuse;
    ConnectionTellsSession(rt, connection, session, env.limit);
    UnobstructedIff(rt, connection, session, c, rules, env.limit);
  }

  /** Refused for that reason, with nothing but the answer stored. */
  ghost predicate RefusedFor(rt: Runtime, session: string, reply: Reply, requestId: string, reason: Reason) {
    && reply.result == ActionResult(requestId, false, reason, rt.revision)
    && reply.change.Persist? && reply.change.rt.(sessions := rt.sessions) == rt && session in rt.sessions
    && OnlyAnswered(rt.sessions, reply.change.rt.sessions, session, rt.sessions[session].notice)
  }

  /** One session is answered and may get or lose its notice; no other is touched. */
  predicate OnlyAnswered(before: map<string, Session>, after: map<string, Session>, session: string, notice: bool)
    requires session in before
  {
    && after.Keys == before.Keys
    && (forall s :: s in before && s != session ==> after[s] == before[s])
    && after[session].(results := before[session].results) == before[session].(notice := notice)
  }

  lemma StoringAnswers(rt: Runtime, session: string, requestId: string, record: ResultRecord, limit: nat)
    requires session in rt.sessions
    ensures var after := StoreResult(rt, session, requestId, record, limit);
            && after.(sessions := rt.sessions) == rt
            && OnlyAnswered(rt.sessions, after.sessions, session, rt.sessions[session].notice)
  {
    assert StoreResult(rt, session, requestId, record, limit).sessions.Keys == rt.sessions.Keys;
  }

  lemma RefusingAnswers(rt: Runtime, session: string, c: PlayerCommand, reason: Reason, limit: nat)
    requires session in rt.sessions
    ensures RefusedFor(rt, session, Refuse(rt, session, c, reason, limit), c.requestId, reason)
  {
    hide OnlyAnswered, Fingerprint, Sessions.Stored, StoreResult;
    StoringAnswers(rt, session, c.requestId, ResultRecord(Fingerprint(c), Refusal(rt, c.requestId, reason)), limit);
  }

  predicate PlaysSomebody(rt: Runtime, session: string) {
    exists claim :: claim in ClaimsOf(rt) && claim.session == session
  }

  lemma PlaysReads(rt: Runtime, session: string)
    requires rt.broadcast.Some?
    ensures PlaysSomebody(rt, session) <==> session in rt.broadcast.value.assignments
  {
    if session in rt.broadcast.value.assignments {
      assert Claim(session, rt.broadcast.value.assignments[session]) in ClaimsOf(rt);
    }
  }

  /** A refusal names the first thing that stands in the way: what is asked, of which
      broadcast, by whom, about which terminal, and at what time. */
  lemma RefusalTellsWhy(rt: Runtime, env: Env, connection: string, session: string, c: PlayerCommand, rules: Rules)
    requires Inv(rt, env.limit) && Asks(rt, connection, session, c)
    ensures var reply := DispatchAction(rt, env, connection, c, rules);
            if !Proper(c, rules) then RefusedFor(rt, session, reply, c.requestId, InvalidAction)
            else if rt.broadcast.None? || rt.broadcast.value.id != c.broadcastId
            then RefusedFor(rt, session, reply, c.requestId, StaleBroadcast)
            else if !PlaysSomebody(rt, session) then RefusedFor(rt, session, reply, c.requestId, Unassigned)
            else if ControllerOf(rt) != Some(session) then RefusedFor(rt, session, reply, c.requestId, NotController)
            else if rt.broadcast.value.active != Some(c.terminalId)
            then RefusedFor(rt, session, reply, c.requestId, StaleTerminal)
            else if rt.pendingCommand.Some? || rt.pendingNavigation.Some?
            then RefusedFor(rt, session, reply, c.requestId, Conflict)
            else MayAct(rt, connection, session, c, rules)
  {
    hide Act, ValidCommand, Proper, RefusedFor, Refuse, PlaysSomebody;
    ProperIsValid(c, rules);
    ConnectionTellsSession(rt, connection, session, env.limit);
    if rt.broadcast.Some? {
      PlaysReads(rt, session);
    }
    var obstacle := Obstacle(rt, session, c, rules);
    if obstacle.Some? {
      RefusingAnswers(rt, session, c, obstacle.value, env.limit);
    }
  }

  /** Nobody acts over a connection that belongs to no session. */
  lemma StrangersAreRefused(rt: Runtime, env: Env, connection: string, c: PlayerCommand, rules: Rules)
    requires forall session :: session in rt.sessions ==> connection !in rt.sessions[session].connections
    ensures var reply := DispatchAction(rt, env, connection, c, rules);
            reply.result == ActionResult(c.requestId, false, InvalidSession, rt.revision) && reply.change.Reject?
  {
    hide Act;
  }

  // ---------------------------------------------------------------- what an action leaves alone

  /** One checkpoint is replaced, one session is answered, and nothing else changes. */
  predicate OnlyShown(rt: Runtime, after: Runtime, session: string, shown: Terminal, notice: bool) {
    && rt.broadcast.Some? && rt.broadcast.value.active.Some? && session in rt.sessions
    && after.broadcast == Some(rt.broadcast.value.(terminals :=
                                 rt.broadcast.value.terminals[rt.broadcast.value.active.value := shown]))
    && OnlyAnswered(rt.sessions, after.sessions, session, notice)
    && after.(sessions := rt.sessions, broadcast := rt.broadcast, revision := rt.revision) == rt
  }

  // ---------------------------------------------------------------- moving

  /** The answer to a request that is not let down. */
  ghost predicate TakenOn(rt: Runtime, session: string, reply: Reply, requestId: string, shown: Terminal,
                          notice: bool) {
    && reply.change.Accept? && reply.change.audits == []
    && reply.result == ActionResult(requestId, true, AcceptedAction, rt.revision + 1)
    && OnlyShown(rt, reply.change.rt, session, shown, notice)
  }

  lemma DispatchIsAct(rt: Runtime, env: Env, connection: string, session: string, c: PlayerCommand, rules: Rules)
    requires Inv(rt, env.limit) && MayAct(rt, connection, session, c, rules)
    ensures rt.broadcast.Some? && rt.broadcast.value.active.Some? && ActiveTerminal(rt.broadcast).Some?
    ensures DispatchAction(rt, env, connection, c, rules) ==
            Act(rt, env, session, ActiveTerminal(rt.broadcast).value, c, rules)
  {
    hide Act, Prepare, MayAct;
    AdmittedIff(rt, env, connection, c, rules);
    PrepareFacts(rt, env, connection, c, rules);
  }

  lemma PlayAnswers(rt: Runtime, env: Env, session: string, t: Terminal, c: PlayerCommand, rules: Rules)
    requires rt.broadcast.Some? && rt.broadcast.value.active.Some? && session in rt.sessions
    ensures var reply, played := RequestPlay(rt, env, session, t, c, rules), Play(t, c, rules);
            if played.None? then RefusedFor(rt, session, reply, c.requestId, InvalidAction)
            else TakenOn(rt, session, reply, c.requestId, played.value,
                         c.kind == "presentation" && rt.sessions[session].notice)
  {
    hide Play, Sessions.Stored, OnlyShown, Fingerprint, RefusedFor, Refuse;
    RefusingAnswers(rt, session, c, InvalidAction, env.limit);
    var played := Play(t, c, rules);
    if played.Some? {
      PlayShows(rt, session, played.value, c.kind == "presentation", c.requestId,
                ResultRecord(Fingerprint(c), RequestPlay(rt, env, session, t, c, rules).result), env.limit);
    }
  }

  lemma PlayShows(rt: Runtime, session: string, shown: Terminal, noted: bool, requestId: string, record: ResultRecord,
                  limit: nat)
    requires rt.broadcast.Some? && rt.broadcast.value.active.Some? && session in rt.sessions
    ensures var after := PutActive(rt, shown);
            OnlyShown(rt, StoreResult(if noted then after else SetNotice(after, session, false), session, requestId,
                                      record, limit), session, shown, noted && rt.sessions[session].notice)
  {
    hide Sessions.Stored;
    var after := if noted then PutActive(rt, shown) else SetNotice(PutActive(rt, shown), session, false);
    assert after.sessions.Keys == rt.sessions.Keys;
    StoringAnswers(after, session, requestId, record, limit);
  }

  /** The players stand in the bare root with a way back to another terminal. */
  predicate AtTheDoor(t: Terminal, route: seq<ReturnPoint>) {
    route != [] && t.nav == NavState([ROOT], ListMode, None, None) && t.execution == None
  }

  function Direction(action: string): Action {
    if action == "enter" then Enter else if action == "entry" then OpenEntry else Back
  }

  /** Entering, opening an entry and "back" move the players exactly by the navigation
      rules, clear an outcome on display, and touch nothing else; a refused command on
      display lets nothing but "back" through. A step that leads nowhere is accepted. */
  lemma MovesExactly(rt: Runtime, env: Env, connection: string, session: string, c: PlayerCommand, rules: Rules,
                     t: Terminal)
    requires Inv(rt, env.limit) && MayAct(rt, connection, session, c, rules) && ActiveTerminal(rt.broadcast) == Some(t)
    requires c.kind == "navigate" && c.action != "command"
    requires c.action == "back" ==> !AtTheDoor(t, rt.broadcast.value.route)
    ensures var reply := DispatchAction(rt, env, connection, c, rules);
            if t.execution == None || (c.action == "back" && t.execution.value.phase == Rejected)
            then TakenOn(rt, session, reply, c.requestId,
                         t.(execution := None, nav := Nav.Applied(t.nav, t.tree, Direction(c.action), c.nodeId)), false)
            else RefusedFor(rt, session, reply, c.requestId, InvalidAction)
  {
    hide RequestPlay, Act, TakenOn, RefusedFor, Nav.Applied, Play, MayAct, Inv;
    AirIsOn(rt, env, connection, session, c, rules);
    DispatchIsAct(rt, env, connection, session, c, rules);
    MoveIsPlay(rt, env, session, t, c, rules);
    PlayAnswers(rt, env, session, t, c, rules);
    MovePlays(t, c, rules);
  }

  lemma AirIsOn(rt: Runtime, env: Env, connection: string, session: string, c: PlayerCommand, rules: Rules)
    requires MayAct(rt, connection, session, c, rules)
    ensures rt.broadcast.Some? && rt.broadcast.value.active.Some? && session in rt.sessions && Proper(c, rules)
  {
  }

  lemma MovePlays(t: Terminal, c: PlayerCommand, rules: Rules)
    requires c.kind == "navigate" && c.action in {"enter", "entry", "back"}
    ensures Play(t, c, rules) ==
            if t.execution == None || (c.action == "back" && t.execution.value.phase == Rejected)
            then Some(t.(execution := None, nav := Nav.Applied(t.nav, t.tree, Direction(c.action), c.nodeId))) else None
  {
    hide Nav.Applied;
  }

  lemma MoveIsPlay(rt: Runtime, env: Env, session: string, t: Terminal, c: PlayerCommand, rules: Rules)
    requires rt.broadcast.Some? && rt.broadcast.value.active.Some?
    requires c.kind == "navigate" ==> c.action != "command"
    requires c.kind == "navigate" && c.action == "back" ==> !AtTheDoor(t, rt.broadcast.value.route)
    ensures Act(rt, env, session, t, c, rules) == RequestPlay(rt, env, session, t, c, rules)
  {
  }

  // ---------------------------------------------------------------- playing the puzzle

  /** A guess counts if it names a candidate, or a place of the board with filler in it. */
  predicate NamesSomething(s: HackState, target: string) {
    || target in s.words
    || (Puzzles.Cell(target).Some? && var cell := Puzzles.Cell(target).value;
        Puzzles.Fillable(s.columns, cell.0, cell.1))
  }

  lemma CountsIff(s: HackState, target: string)
    requires !s.solved && !s.failed
    ensures Counts(s, target) <==> NamesSomething(s, target)
  {
    hide Puzzles.Cell, Puzzles.Fillable, Puzzles.Matches, Puzzles.Score;
  }

  /** A bracket span of the board that has not been used. */
  predicate SpanLeft(s: HackState, id: string) {
    exists span :: span in Puzzles.SpansFrom(s.columns, 0, 0)
                   && Puzzles.PatternId(Puzzles.IdentityOf(s.generationId, span)) == id
                   && Puzzles.IdentityOf(s.generationId, span) !in s.used
  }

  /** A guess is taken exactly while the puzzle is open and the guess names something; the
      puzzle is all it changes. */
  lemma GuessesExactly(rt: Runtime, env: Env, connection: string, session: string, c: PlayerCommand, rules: Rules,
                       t: Terminal)
    requires Inv(rt, env.limit) && MayAct(rt, connection, session, c, rules) && ActiveTerminal(rt.broadcast) == Some(t)
    requires c.kind == "guess"
    ensures var reply := DispatchAction(rt, env, connection, c, rules);
            if t.execution == None && t.hack.Some? && !t.hack.value.solved && !t.hack.value.failed
               && NamesSomething(t.hack.value, c.targetId)
            then TakenOn(rt, session, reply, c.requestId,
                         t.(hack := Some(Puzzles.Guessed(t.hack.value, c.targetId))), false)
            else RefusedFor(rt, session, reply, c.requestId, InvalidAction)
  {
    hide RequestPlay, Act, TakenOn, RefusedFor, Puzzles.Guessed, NamesSomething, Counts, MayAct, Inv;
    AirIsOn(rt, env, connection, session, c, rules);
    DispatchIsAct(rt, env, connection, session, c, rules);
    MoveIsPlay(rt, env, session, t, c, rules);
    PlayAnswers(rt, env, session, t, c, rules);
    if ActivePuzzle(t) {
      CountsIff(t.hack.value, c.targetId);
    }
  }

  lemma WorksIff(s: HackState, id: string, roll: Puzzles.Roll)
    requires !s.solved && !s.failed
    ensures Puzzles.Activated(s, id, roll).1 <==> SpanLeft(s, id)
  {
    hide Puzzles.Dud, Puzzles.Removed;
    var span := Puzzles.FindSpan(Puzzles.SpansFrom(s.columns, 0, 0), s.generationId, id);
    if SpanLeft(s, id) {
      var other :| other in Puzzles.SpansFrom(s.columns, 0, 0)
                   && Puzzles.PatternId(Puzzles.IdentityOf(s.generationId, other)) == id
                   && Puzzles.IdentityOf(s.generationId, other) !in s.used;
      PuzzlePlay.PatternIdNamesPuzzle(Puzzles.IdentityOf(s.generationId, other),
                                      Puzzles.IdentityOf(s.generationId, span.value));
    }
  }

  /** A bracket span is taken exactly while the puzzle is open and the span is on the board
      and unused. */
  lemma ActivatesExactly(rt: Runtime, env: Env, connection: string, session: string, c: PlayerCommand, rules: Rules,
                         t: Terminal)
    requires Inv(rt, env.limit) && MayAct(rt, connection, session, c, rules) && ActiveTerminal(rt.broadcast) == Some(t)
    requires c.kind == "activate-pattern"
    ensures var reply := DispatchAction(rt, env, connection, c, rules);
            if t.execution == None && t.hack.Some? && !t.hack.value.solved && !t.hack.value.failed
               && SpanLeft(t.hack.value, c.patternId)
            then TakenOn(rt, session, reply, c.requestId,
                         t.(hack := Some(Puzzles.Activated(t.hack.value, c.patternId, rules.roll).0)), false)
            else RefusedFor(rt, session, reply, c.requestId, InvalidAction)
  {
    hide RequestPlay, Act, TakenOn, RefusedFor, Puzzles.Activated, SpanLeft, MayAct, Inv;
    AirIsOn(rt, env, connection, session, c, rules);
    DispatchIsAct(rt, env, connection, session, c, rules);
    MoveIsPlay(rt, env, session, t, c, rules);
    PlayAnswers(rt, env, session, t, c, rules);
    if ActivePuzzle(t) {
      WorksIff(t.hack.value, c.patternId, rules.roll);
    }
  }

  /** Pointing at something is taken exactly if it is permitted and new; a notice stays. */
  lemma PointsExactly(rt: Runtime, env: Env, connection: string, session: string, c: PlayerCommand, rules: Rules,
                      t: Terminal)
    requires Inv(rt, env.limit) && MayAct(rt, connection, session, c, rules) && ActiveTerminal(rt.broadcast) == Some(t)
    requires c.kind == "presentation"
    ensures var reply := DispatchAction(rt, env, connection, c, rules);
            if t.execution == None && rules.presentable && t.presentation != c.presentation
            then TakenOn(rt, session, reply, c.requestId, t.(presentation := c.presentation),
                         rt.sessions[session].notice)
            else RefusedFor(rt, session, reply, c.requestId, InvalidAction)
  {
    hide RequestPlay, Act, TakenOn, RefusedFor, MayAct, Inv;
    AirIsOn(rt, env, connection, session, c, rules);
    DispatchIsAct(rt, env, connection, session, c, rules);
    MoveIsPlay(rt, env, session, t, c, rules);
    PlayAnswers(rt, env, session, t, c, rules);
  }
}
