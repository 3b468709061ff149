/** Player actions, in place on a working copy. */
module DispatchSteps {
  import opened Domain
  import opened State
  import opened Changes
  import opened Catalogue
  import opened Heap
  import opened TerminalSteps
  import opened SwitchSteps
  import opened DecisionSteps
  import Claims
  import ClaimSteps
  import Dispatch
  import Nav
  import PuzzleSteps
  import Puzzles
  import Route
  import Sessions
  import SessionSteps
  import Terminals
  import Text

  method PlayerActionFingerprint(c: PlayerCommand) returns (fingerprint: string)
    ensures fingerprint == Dispatch.Fingerprint(c)
  {
    if c.payloadFingerprint != "" {
      return c.payloadFingerprint;
    }
    fingerprint := Text.FingerprintFields(Dispatch.FingerprintFields(c));
  }

  // ---------------------------------------------------------------- answers

  /** A refusal is remembered, and that is all it changes. */
  method Refuse(runtime: ProcessRuntime, session: string, c: PlayerCommand, reason: Reason, limit: nat,
                ghost rt: Runtime)
    returns (result: ActionResult, verdict: Verdict)
    requires runtime.Valid() && runtime.Value() == rt
    modifies ResultCaches(runtime.sessions)
    ensures SameObjects(runtime)
    ensures var reply := Dispatch.Refuse(rt, session, c, reason, limit);
            result == reply.result && Carries(reply.change, verdict, runtime.Value())
  {
    hide SessionValues, TerminalValues, SessionsApart, TerminalsApart;
    result := ActionResult(c.requestId, false, reason, runtime.revision);
    var fingerprint := PlayerActionFingerprint(c);
    RuntimeStays(runtime);
    ClaimSteps.StoreRequestResult(runtime, session, c.requestId, ResultRecord(fingerprint, result), limit);
    verdict := Verdict(false, true, Dispatch.RequestOutcomeAudits(c, Refused(reason)));
  }

  /** What was changed is accepted and remembered under the request. */
  method Take(runtime: ProcessRuntime, session: string, c: PlayerCommand, limit: nat, audits: seq<Audit>,
              ghost start: Runtime)
    returns (result: ActionResult, verdict: Verdict)
    requires runtime.Valid() && start.revision == runtime.revision
    modifies ResultCaches(runtime.sessions)
    ensures SameObjects(runtime)
    ensures verdict == Verdict(true, false, audits)
    ensures Dispatch.Take(start, session, c, limit, old(runtime.Value()), audits) ==
            Reply(result, Accept(runtime.Value(), audits))
  {
    hide SessionValues, TerminalValues, SessionsApart, TerminalsApart;
    result := ActionResult(c.requestId, true, AcceptedAction, runtime.revision + 1);
    var fingerprint := PlayerActionFingerprint(c);
    RuntimeStays(runtime);
    ClaimSteps.StoreRequestResult(runtime, session, c.requestId, ResultRecord(fingerprint, result), limit);
    verdict := Verdict(true, false, audits);
  }

  // ---------------------------------------------------------------- who may act

  method FindObstacle(runtime: ProcessRuntime, session: string, c: PlayerCommand, rules: Dispatch.Rules)
    returns (obstacle: Option<Reason>)
    requires runtime.Valid() && session in runtime.sessions
    ensures obstacle == Dispatch.Obstacle(runtime.Value(), session, c, rules)
  {
    if !Dispatch.ValidCommand(c, rules) {
      return Some(InvalidAction);
    }
    var b := runtime.broadcast;
    if b == null || b.id != c.broadcastId {
      return Some(StaleBroadcast);
    }
    if session !in b.assignments.entries {
      return Some(Unassigned);
    }
    if b.controller != Some(session) {
      return Some(NotController);
    }
    if runtime.sessions[session].connections.members == {} {
      return Some(ControllerDisconnected);
    }
    if b.active != Some(c.terminalId) || c.terminalId !in b.terminals || b.terminals[c.terminalId].lifecycle != Active {
      return Some(StaleTerminal);
    }
    if runtime.pendingCommand.Some? || runtime.pendingNavigation.Some? {
      return Some(Conflict);
    }
    return None;
  }

  /** Either the request stops here with its answer, or the session may act on the
      terminal shown; in that case nothing has changed yet. */
  method PreparePlayerAction(runtime: ProcessRuntime, env: Env, connection: string, c: PlayerCommand,
                             rules: Dispatch.Rules,
                             ghost rt: Runtime)
    returns (ok: bool, session: string, result: ActionResult, verdict: Verdict)
    requires runtime.Valid() && runtime.Value() == rt
    modifies ResultCaches(runtime.sessions)
    ensures SameObjects(runtime)
    ensures var prepared := Dispatch.Prepare(rt, env, connection, c, rules);
            if ok then
              && runtime.Value() == rt && ShowsTerminal(runtime)
              && prepared == Dispatch.Go(session, ActiveTerminal(rt.broadcast).value)
            else
              prepared.Stop? && result == prepared.reply.result
              && Carries(prepared.reply.change, verdict, runtime.Value())
  {
    hide TerminalsApart, SessionsApart;
    session, verdict := "", REFUSED;
    result := ActionResult(c.requestId, false, InvalidSession, runtime.revision);
    var owner := SessionSteps.SessionForConnection(runtime, connection);
    RuntimeStays(runtime);
    if owner.None? {
      return false, session, result, Verdict(false, false, Dispatch.RequestOutcomeAudits(c, Refused(InvalidSession)));
    }
    if c.requestId == "" {
      return false, session, result.(reason := InvalidAction), REFUSED;
    }
    session := owner.value;
    assert session in Sessions.Owners(rt, connection);
    ok, result, verdict := AnswerPrepared(runtime, session, c, rules, env.limit, rt);
  }

  method AnswerPrepared(runtime: ProcessRuntime, session: string, c: PlayerCommand, rules: Dispatch.Rules, limit: nat,
                        ghost rt: Runtime)
    returns (ok: bool, result: ActionResult, verdict: Verdict)
    requires runtime.Valid() && runtime.Value() == rt && session in runtime.sessions
    modifies ResultCaches(runtime.sessions)
    ensures SameObjects(runtime)
    ensures var prepared := Dispatch.Admit(rt, session, c, rules, limit);
            if ok then
              && runtime.Value() == rt && ShowsTerminal(runtime)
              && prepared == Dispatch.Go(session, ActiveTerminal(rt.broadcast).value)
            else
              prepared.Stop? && result == prepared.reply.result
              && Carries(prepared.reply.change, verdict, runtime.Value())
  {
    hide TerminalsApart, SessionsApart;
    var records := runtime.sessions[session].results.records;
    if c.requestId in records {
      ok := false;
      result, verdict := AnswerAgain(records[c.requestId], c, runtime.revision);
    } else {
      ok, result, verdict := AnswerNew(runtime, session, c, rules, limit, rt);
    }
  }

  method AnswerAgain(cached: ResultRecord, c: PlayerCommand, revision: nat)
    returns (result: ActionResult, verdict: Verdict)
    ensures if cached.fingerprint == Dispatch.Fingerprint(c)
            then result == cached.result && verdict == Verdict(false, false, Dispatch.RequestOutcomeAudits(c, Replayed))
            else result == ActionResult(c.requestId, false, Duplicate, revision)
                 && verdict == Verdict(false, false, Dispatch.RequestOutcomeAudits(c, Refused(Duplicate)))
  {
    var fingerprint := PlayerActionFingerprint(c);
    if cached.fingerprint == fingerprint {
      return cached.result, Verdict(false, false, Dispatch.RequestOutcomeAudits(c, Replayed));
    }
    return ActionResult(c.requestId, false, Duplicate, revision),
           Verdict(false, false, Dispatch.RequestOutcomeAudits(c, Refused(Duplicate)));
  }

  method AnswerNew(runtime: ProcessRuntime, session: string, c: PlayerCommand, rules: Dispatch.Rules, limit: nat,
                   ghost rt: Runtime)
    returns (ok: bool, result: ActionResult, verdict: Verdict)
    requires runtime.Valid() && runtime.Value() == rt && session in runtime.sessions
    modifies ResultCaches(runtime.sessions)
    ensures SameObjects(runtime)
    ensures var obstacle := Dispatch.Obstacle(rt, session, c, rules);
            && ok == obstacle.None?
            && if ok then
                 && runtime.Value() == rt && ShowsTerminal(runtime)
                 && runtime.broadcast.active.value == c.terminalId
               else
                 var reply := Dispatch.Refuse(rt, session, c, obstacle.value, limit);
                 result == reply.result && Carries(reply.change, verdict, runtime.Value())
  {
    hide TerminalsApart, SessionsApart;
    var obstacle := FindObstacle(runtime, session, c, rules);
    RuntimeStays(runtime);
    ok := obstacle.None?;
    result, verdict := ActionResult(c.requestId, true, AcceptedAction, runtime.revision), REFUSED;
    if !ok {
      result, verdict := Refuse(runtime, session, c, obstacle.value, limit, rt);
    }
  }

  // ---------------------------------------------------------------- acting

  method BeginTerminalReturn(runtime: ProcessRuntime, session: string, t: TerminalRuntime, point: ReturnPoint,
                             id: string)
    requires runtime.Valid() && runtime.broadcast != null
    modifies runtime`pendingNavigation, runtime`notice
    ensures SameObjects(runtime)
    ensures var rt := old(runtime.Value());
            runtime.Value() == rt.(pendingNavigation :=
                                   Some(Dispatch.ReturnDecision(rt, session, t.Value(), point, id)), notice := None)
  {
    hide SessionValues, TerminalValues, SessionsApart, TerminalsApart;
    var pending := PendingNavigation(id, runtime.broadcast.id, session, Return, t.terminalId, t.terminalName,
                                     point.commandId, point.commandName, point.terminalId, point.terminalName, point);
    SetNavigation(runtime, Some(pending), None);
  }

  method RequestReturn(runtime: ProcessRuntime, env: Env, session: string, t: TerminalRuntime, c: PlayerCommand,
                       ghost rt: Runtime, ghost shown: Terminal)
    returns (result: ActionResult, verdict: Verdict)
    requires runtime.Valid() && runtime.broadcast != null && runtime.broadcast.route.points != []
    requires runtime.Value() == rt && t.Value() == shown
    modifies runtime`pendingNavigation, runtime`notice, ResultCaches(runtime.sessions)
    ensures SameObjects(runtime)
    ensures var reply := Dispatch.RequestReturn(rt, env, session, shown, c);
            result == reply.result && Carries(reply.change, verdict, runtime.Value())
  {
    hide ProcessRuntime.Value, SessionValues, TerminalValues, SessionsApart, TerminalsApart, Dispatch.Refuse,
         Dispatch.Take;
    StoredReads(runtime, "");
    var route := runtime.broadcast.route.points;
    var top := route[|route| - 1];
    var valid := ValidTerminalReturnPoint(env.catalog.groups, t.terminalId, top);
    RuntimeStays(runtime);
    if !valid {
      result, verdict := Refuse(runtime, session, c, InvalidAction, env.limit, rt);
      return;
    }
    BeginTerminalReturn(runtime, session, t, top, env.id);
    result, verdict := Take(runtime, session, c, env.limit, [], rt);
  }

  method BeginTerminalTransition(runtime: ProcessRuntime, session: string, t: TerminalRuntime, authored: ContentNode,
                                 target: Target, id: string)
    requires runtime.Valid() && runtime.broadcast != null
    modifies runtime`pendingNavigation, runtime`notice
    ensures SameObjects(runtime)
    ensures var rt := old(runtime.Value());
            runtime.Value() == rt.(
              pendingNavigation := Some(Dispatch.ForwardDecision(rt, session, t.Value(), authored, target, id)),
                  notice := None)
  {
    hide SessionValues, TerminalValues, SessionsApart, TerminalsApart;
    var path := t.nav.path;
    var folder, ancestors := ROOT, [];
    if path != [] {
      folder, ancestors := path[|path| - 1], path[..|path| - 1];
    }
    var point := ReturnPoint(t.terminalId, t.terminalName, folder, ancestors, authored.id, authored.name, Authored, "",
                             0);
    var pending := PendingNavigation(id, runtime.broadcast.id, session, Forward, t.terminalId, t.terminalName,
                                     authored.id, authored.name, target.terminalId, target.terminalName, point);
    SetNavigation(runtime, Some(pending), None);
  }

  method RequestForward(runtime: ProcessRuntime, env: Env, session: string, t: TerminalRuntime, authored: ContentNode,
                        c: PlayerCommand,
                        ghost rt: Runtime, ghost shown: Terminal)
    returns (result: ActionResult, verdict: Verdict)
    requires runtime.Valid() && runtime.broadcast != null && authored.transition.Some?
    requires runtime.Value() == rt && t.Value() == shown
    modifies runtime`pendingNavigation, runtime`notice, ResultCaches(runtime.sessions)
    ensures SameObjects(runtime)
    ensures var reply := Dispatch.RequestForward(rt, env, session, shown, authored, c);
            result == reply.result && Carries(reply.change, verdict, runtime.Value())
  {
    hide ProcessRuntime.Value, SessionValues, TerminalValues, SessionsApart, TerminalsApart, Dispatch.Take;
    StoredReads(runtime, "");
    var link := LookupTransition(env.catalog, t.terminalId, authored.id);
    if link.None? || link.value.target.terminalId == t.terminalId ||
        Some(link.value.target.terminalId) != authored.transition
       || !SameGroup(env.catalog.groups, t.terminalId, link.value.target.terminalId) {
      result, verdict := ReportMissingTarget(runtime, env, session, t, authored, c);
    } else {
      result, verdict := AskToFollow(runtime, env, session, t, authored, link.value.target, c, rt, shown);
    }
  }

  method AskToFollow(runtime: ProcessRuntime, env: Env, session: string, t: TerminalRuntime, authored: ContentNode,
                     target: Target,
                     c: PlayerCommand, ghost rt: Runtime, ghost shown: Terminal)
    returns (result: ActionResult, verdict: Verdict)
    requires runtime.Valid() && runtime.broadcast != null
    requires runtime.Value() == rt && t.Value() == shown
    modifies runtime`pendingNavigation, runtime`notice, ResultCaches(runtime.sessions)
    ensures SameObjects(runtime)
    ensures rt.broadcast.Some?
    ensures var pending := Dispatch.ForwardDecision(rt, session, shown, authored, target, env.id);
            var reply := Dispatch.Take(rt, session, c, env.limit,
                                       rt.(pendingNavigation := Some(pending), notice := None),
                                       [Audit(RequestReceived, Accepted, env.id, TransitionMode)]);
            result == reply.result && Carries(reply.change, verdict, runtime.Value())
  {
    hide ProcessRuntime.Value, SessionValues, TerminalValues, SessionsApart, TerminalsApart;
    StoredReads(runtime, "");
    BeginTerminalTransition(runtime, session, t, authored, target, env.id);
    result, verdict := Take(runtime, session, c, env.limit, [Audit(RequestReceived, Accepted, env.id, TransitionMode)],
                            rt);
  }

  // The refusal that is accepted as a revision, so that the Overseer sees the notice.
  method ReportMissingTarget(runtime: ProcessRuntime, env: Env, session: string, t: TerminalRuntime,
                             authored: ContentNode, c: PlayerCommand)
    returns (result: ActionResult, verdict: Verdict)
    requires runtime.Valid() && authored.transition.Some?
    modifies runtime`pendingNavigation, runtime`notice, ResultCaches(runtime.sessions)
    ensures SameObjects(runtime)
    ensures verdict == ACCEPTED
    ensures result == ActionResult(c.requestId, false, InvalidAction, old(runtime.revision) + 1)
    ensures runtime.Value() == Sessions.StoreResult(
              old(runtime.Value()).(notice :=
                                    Some(NavigationNotice(TargetMissing, t.terminalId, authored.id,
                                                          authored.transition.value))),
              session, c.requestId, ResultRecord(Dispatch.Fingerprint(c), result), env.limit)
  {
    hide SessionValues, TerminalValues, SessionsApart, TerminalsApart;
    result, verdict := ActionResult(c.requestId, false, InvalidAction, runtime.revision + 1), ACCEPTED;
    var fingerprint := PlayerActionFingerprint(c);
    RuntimeStays(runtime);
    SetNavigation(runtime, runtime.pendingNavigation,
                  Some(NavigationNotice(TargetMissing, t.terminalId, authored.id, authored.transition.value)));
    ClaimSteps.StoreRequestResult(runtime, session, c.requestId, ResultRecord(fingerprint, result), env.limit);
  }

  method AskForCommand(runtime: ProcessRuntime, session: string, pending: PendingCommand, ghost rt: Runtime,
                       ghost shown: Terminal)
    requires runtime.Valid() && ShowsTerminal(runtime)
    requires runtime.Value() == rt && ActiveTerminal(rt.broadcast) == Some(shown)
    modifies runtime`pendingCommand, runtime.broadcast.terminals.Values, runtime.sessions.Values
    ensures SameObjects(runtime)
    ensures var asked := Terminals.PutActive(rt, shown.(execution := Some(Execution(Awaiting, pending.commandId))));
            runtime.Value() == Dispatch.SetNotice(asked.(pendingCommand := Some(pending)), session, false)
  {
    hide SessionValues, TerminalValues, SessionsApart, TerminalsApart;
    ShowExecution(runtime, Some(Execution(Awaiting, pending.commandId)));
    SetPendingCommand(runtime, Some(pending));
    SetNotice(runtime, session, false);
  }

  function DescribeCommand(t: TerminalRuntime, authored: ContentNode, id: string, broadcastId: string, session: string)
    : (pending: PendingCommand)
    reads t, t.commandStates
  {
    var states := t.commandStates.states;
    var completed := authored.id in states;
    var mode := if authored.stateChange.None? then OrdinaryMode else if completed then CompletedChangeMode
        else ChangeMode;
    var name := if completed then states[authored.id].completedName else authored.name;
    PendingCommand(id, broadcastId, t.terminalId, authored.id, name, mode, Dispatch.ConfirmationText(authored), session)
  }

  method RequestCommand(runtime: ProcessRuntime, env: Env, session: string, authored: ContentNode, c: PlayerCommand,
                        ghost rt: Runtime, ghost shown: Terminal)
    returns (result: ActionResult, verdict: Verdict)
    requires runtime.Valid() && ShowsTerminal(runtime)
    requires runtime.Value() == rt && ActiveTerminal(rt.broadcast) == Some(shown)
    modifies runtime`pendingCommand, runtime.broadcast.terminals.Values, runtime.sessions.Values,
             ResultCaches(runtime.sessions)
    ensures SameObjects(runtime)
    ensures var reply := Dispatch.RequestCommand(rt, env, session, shown, authored, c);
            result == reply.result && Carries(reply.change, verdict, runtime.Value())
  {
    hide SessionValues, TerminalValues, SessionsApart, TerminalsApart, ContentTrees, PuzzleObjects;
    ActiveReads(runtime.broadcast);
    var t := runtime.broadcast.terminals[runtime.broadcast.active.value];
    var pending := DescribeCommand(t, authored, env.id, runtime.broadcast.id, session);
    AskForCommand(runtime, session, pending, rt, shown);
    result, verdict := Take(runtime, session, c, env.limit,
                            [Audit(RequestReceived, Accepted, env.id, CommandMode(pending.mode))], rt);
  }

  // ---------------------------------------------------------------- gameplay

  // A guess that left no trace is refused.
  method ApplyGuess(puzzle: Puzzle, target: string) returns (ok: bool)
    modifies puzzle
    ensures puzzle.Value() == Puzzles.Guessed(old(puzzle.Value()), target)
    ensures ok <==> Dispatch.Counts(old(puzzle.Value()), target)
  {
    var attempts, solved, failed, logged := puzzle.attemptsLeft, puzzle.solved, puzzle.failed, |puzzle.log|;
    PuzzleSteps.ApplyGuess(puzzle, target);
    ok := puzzle.attemptsLeft != attempts || puzzle.solved != solved || puzzle.failed != failed ||
        |puzzle.log| != logged;
  }

  method ApplyToPuzzle(puzzle: Puzzle, c: PlayerCommand, roll: Puzzles.Roll) returns (ok: bool)
    requires ParseKind(c.kind) == Guess || ParseKind(c.kind) == ActivatePattern
    modifies puzzle
    ensures ParseKind(c.kind) == Guess ==>
      puzzle.Value() == Puzzles.Guessed(old(puzzle.Value()), c.targetId) &&
          ok == Dispatch.Counts(old(puzzle.Value()), c.targetId)
    ensures ParseKind(c.kind) == ActivatePattern ==>
      (puzzle.Value(), ok) == Puzzles.Activated(old(puzzle.Value()), c.patternId, roll)
  {
    if ParseKind(c.kind) == Guess {
      ok := ApplyGuess(puzzle, c.targetId);
    } else {
      ok := PuzzleSteps.ApplyPattern(puzzle, c.patternId, roll);
    }
  }

  method Apply(t: TerminalRuntime, c: PlayerCommand, rules: Dispatch.Rules) returns (ok: bool)
    modifies t, t.hack
    ensures var played := Dispatch.Play(old(t.Value()), c, rules);
            ok == played.Some? && (ok ==> t.Value() == played.value)
  {
    if t.execution.Some? {
      var back := ParseKind(c.kind) == Navigate && ParseAction(c.action) == Back;
      if t.execution.value.phase == Awaiting || !back {
        return false;
      }
      t.execution := None;
    }
    match ParseKind(c.kind) {
      case Navigate =>
        var nav := Nav.ApplyAction(t.nav, t.tree.root, ParseAction(c.action), c.nodeId);
        t.nav := nav;
        return true;
      case Guess =>
        if !Unfinished(t) { return false; }
        ok := ApplyToPuzzle(t.hack, c, rules.roll);
      case ActivatePattern =>
        if !Unfinished(t) { return false; }
        ok := ApplyToPuzzle(t.hack, c, rules.roll);
      case Present =>
        if !rules.presentable || t.presentation == c.presentation { return false; }
        t.presentation := c.presentation;
        return true;
      case Select => return false;
      case UnknownKind => return false;
    }
  }

  method ApplyAt(terminals: map<string, TerminalRuntime>, id: string, c: PlayerCommand, rules: Dispatch.Rules)
    returns (ok: bool)
    requires TerminalsApart(terminals) && id in terminals
    modifies terminals.Values, PuzzleObjects(terminals)
    ensures var values := old(TerminalValues(terminals));
            var played := Dispatch.Play(values[id], c, rules);
            ok == played.Some? && (ok ==> TerminalValues(terminals) == values[id := played.value])
    ensures TerminalValues(terminals) == old(TerminalValues(terminals))[id := terminals[id].Value()]
  {
    hide TerminalValues, TerminalsApart;
    var t := terminals[id];
    ok := Apply(t, c, rules);
    OnlyAt(terminals, id, t);
  }

  method Restore(broadcast: LiveBroadcast, id: string, before: TerminalRuntime, ghost values: map<string, Terminal>)
    requires TerminalsApart(broadcast.terminals) && Outside(before, broadcast.terminals)
    requires id in values && id in broadcast.terminals && before.Value() == values[id]
    requires TerminalValues(broadcast.terminals) == values[id := TerminalValues(broadcast.terminals)[id]]
    modifies broadcast`terminals
    ensures TerminalsApart(broadcast.terminals) && broadcast.terminals == old(broadcast.terminals)[id := before]
    ensures TerminalValues(broadcast.terminals) == values
  {
    PutRuntime(broadcast, id, before);
  }

  /** A failed action puts a copy taken beforehand back in place. */
  method ApplyOrRestore(broadcast: LiveBroadcast, id: string, c: PlayerCommand, rules: Dispatch.Rules)
    returns (ok: bool)
    requires TerminalsApart(broadcast.terminals) && id in broadcast.terminals
    modifies broadcast`terminals, broadcast.terminals.Values, PuzzleObjects(broadcast.terminals)
    ensures TerminalsApart(broadcast.terminals) && KeptOrAdded(old(broadcast.terminals), broadcast.terminals)
    ensures var values := old(TerminalValues(broadcast.terminals));
            var played := Dispatch.Play(values[id], c, rules);
            && ok == played.Some?
            && TerminalValues(broadcast.terminals) == if ok then values[id := played.value] else values
  {
    hide Dispatch.Play, Outside, TerminalsApart, KeptOrAdded;
    ghost var values := TerminalValues(broadcast.terminals);
    var before := broadcast.terminals[id].Clone();
    assert id in values && before.Value() == values[id];
    hide TerminalValues;
    TerminalsStay(broadcast.terminals);
    NewIsOutside(before, broadcast.terminals);
    ok := ApplyAt(broadcast.terminals, id, c, rules);
    if !ok {
      Restore(broadcast, id, before, values);
      PutKeeps(old(broadcast.terminals), broadcast.terminals, id, before);
    } else {
      SameKeeps(broadcast.terminals);
    }
  }

  method ApplyToActive(runtime: ProcessRuntime, c: PlayerCommand, rules: Dispatch.Rules) returns (ok: bool)
    requires runtime.Valid() && ShowsTerminal(runtime)
    modifies runtime.broadcast`terminals, runtime.broadcast.terminals.Values, PuzzleObjects(runtime.broadcast.terminals)
    ensures Grown(runtime)
    ensures var rt := old(runtime.Value());
            var played := Dispatch.Play(ActiveTerminal(rt.broadcast).value, c, rules);
            ok == played.Some? && runtime.Value() == if ok then Terminals.PutActive(rt, played.value) else rt
  {
    hide SessionValues, TerminalValues, SessionsApart, TerminalsApart, Dispatch.Play, KeptOrAdded;
    ShownReads(runtime);
    ok := ApplyOrRestore(runtime.broadcast, runtime.broadcast.active.value, c, rules);
    BroadcastAlone(runtime);
  }

  method TakePlay(runtime: ProcessRuntime, session: string, c: PlayerCommand, limit: nat, ghost start: Runtime)
    returns (result: ActionResult, verdict: Verdict)
    requires runtime.Valid() && start.revision == runtime.revision
    modifies runtime.sessions.Values, ResultCaches(runtime.sessions)
    ensures SameObjects(runtime)
    ensures verdict == Verdict(true, false, [])
    ensures var played := old(runtime.Value());
            var after := if ParseKind(c.kind) == Present then played else Dispatch.SetNotice(played, session, false);
            Dispatch.Take(start, session, c, limit, after, []) == Reply(result, Accept(runtime.Value(), []))
  {
    hide SessionValues, TerminalValues, SessionsApart, TerminalsApart;
    if ParseKind(c.kind) != Present {
      SetNotice(runtime, session, false);
    }
    result, verdict := Take(runtime, session, c, limit, [], start);
  }

  method RequestPlay(runtime: ProcessRuntime, env: Env, session: string, c: PlayerCommand, rules: Dispatch.Rules,
                     ghost rt: Runtime, ghost shown: Terminal)
    returns (result: ActionResult, verdict: Verdict)
    requires runtime.Valid() && ShowsTerminal(runtime)
    requires runtime.Value() == rt && ActiveTerminal(rt.broadcast) == Some(shown)
    modifies runtime.broadcast`terminals, runtime.broadcast.terminals.Values, PuzzleObjects(runtime.broadcast.terminals)
    modifies runtime.sessions.Values, ResultCaches(runtime.sessions)
    ensures Grown(runtime)
    ensures var reply := Dispatch.RequestPlay(rt, env, session, shown, c, rules);
            result == reply.result && Carries(reply.change, verdict, runtime.Value())
  {
    hide SessionValues, TerminalValues, SessionsApart, TerminalsApart, KeptOrAdded;
    var ok := ApplyToActive(runtime, c, rules);
    if !ok {
      result, verdict := Refuse(runtime, session, c, InvalidAction, env.limit, rt);
      return;
    }
    result, verdict := TakePlay(runtime, session, c, env.limit, rt);
  }

  // ---------------------------------------------------------------- one player action

  method RequestOpen(runtime: ProcessRuntime, env: Env, session: string, t: TerminalRuntime, c: PlayerCommand,
                     ghost rt: Runtime, ghost shown: Terminal)
    returns (result: ActionResult, verdict: Verdict)
    requires runtime.Valid() && ShowsTerminal(runtime) &&
             t == runtime.broadcast.terminals[runtime.broadcast.active.value]
    requires runtime.Value() == rt && t.Value() == shown && ActiveTerminal(rt.broadcast) == Some(shown)
    modifies runtime`pendingNavigation, runtime`pendingCommand, runtime`notice
    modifies runtime.broadcast.terminals.Values, runtime.sessions.Values, ResultCaches(runtime.sessions)
    ensures SameObjects(runtime)
    ensures var reply := Dispatch.RequestOpen(rt, env, session, shown, c);
            result == reply.result && Carries(reply.change, verdict, runtime.Value())
  {
    hide ProcessRuntime.Value, SessionValues, TerminalValues, SessionsApart, TerminalsApart, Dispatch.RequestForward,
         Dispatch.RequestCommand, Dispatch.Refuse;
    var authored := SelectedAuthoredCommand(t, c.nodeId);
    RuntimeStays(runtime);
    if authored.None? || authored.value.Behavior() == Invalid {
      result, verdict := Refuse(runtime, session, c, InvalidAction, env.limit, rt);
    } else if authored.value.Behavior() == Transition {
      result, verdict := RequestForward(runtime, env, session, t, authored.value, c, rt, shown);
    } else {
      result, verdict := RequestCommand(runtime, env, session, authored.value, c, rt, shown);
    }
  }

  predicate RootReturnRequested(t: TerminalRuntime, c: PlayerCommand, route: seq<ReturnPoint>)
    reads t
  {
    && ParseKind(c.kind) == Navigate && ParseAction(c.action) == Back
    && route != [] && t.nav == Nav.Default() && t.execution == None
  }

  predicate AsksForDecision(t: TerminalRuntime, c: PlayerCommand, route: seq<ReturnPoint>)
    reads t
  {
    RootReturnRequested(t, c, route) || (ParseKind(c.kind) == Navigate && ParseAction(c.action) == OpenCommand)
  }

  method AskForDecision(runtime: ProcessRuntime, env: Env, session: string, t: TerminalRuntime, c: PlayerCommand,
                        rules: Dispatch.Rules,
                        ghost rt: Runtime, ghost shown: Terminal)
    returns (result: ActionResult, verdict: Verdict)
    requires runtime.Valid() && ShowsTerminal(runtime) &&
             t == runtime.broadcast.terminals[runtime.broadcast.active.value]
    requires AsksForDecision(t, c, runtime.broadcast.route.points)
    requires runtime.Value() == rt && t.Value() == shown && ActiveTerminal(rt.broadcast) == Some(shown)
    modifies runtime`pendingNavigation, runtime`pendingCommand, runtime`notice
    modifies runtime.broadcast.terminals.Values, runtime.sessions.Values, ResultCaches(runtime.sessions)
    ensures SameObjects(runtime)
    ensures var reply := Dispatch.Act(rt, env, session, shown, c, rules);
            result == reply.result && Carries(reply.change, verdict, runtime.Value())
  {
    hide SessionValues, TerminalValues, SessionsApart, TerminalsApart, Dispatch.RequestReturn, Dispatch.RequestOpen,
         Dispatch.RequestPlay;
    if RootReturnRequested(t, c, runtime.broadcast.route.points) {
      result, verdict := RequestReturn(runtime, env, session, t, c, rt, shown);
    } else {
      result, verdict := RequestOpen(runtime, env, session, t, c, rt, shown);
    }
  }

  lemma AskingReads(runtime: ProcessRuntime, t: TerminalRuntime, c: PlayerCommand, rt: Runtime, shown: Terminal)
    requires runtime.broadcast != null && runtime.Value() == rt && t.Value() == shown
    ensures rt.broadcast.Some?
    ensures AsksForDecision(t, c, runtime.broadcast.route.points) <==>
            Dispatch.ReturnRequested(shown, c, rt.broadcast.value.route) || Dispatch.IsNavigation(c, OpenCommand)
  {
  }

  method Act(runtime: ProcessRuntime, env: Env, session: string, t: TerminalRuntime, c: PlayerCommand,
             rules: Dispatch.Rules,
             ghost rt: Runtime, ghost shown: Terminal)
    returns (result: ActionResult, verdict: Verdict)
    requires runtime.Valid() && ShowsTerminal(runtime) &&
             t == runtime.broadcast.terminals[runtime.broadcast.active.value]
    requires runtime.Value() == rt && t.Value() == shown && ActiveTerminal(rt.broadcast) == Some(shown)
    modifies runtime`pendingNavigation, runtime`pendingCommand, runtime`notice, runtime.broadcast`terminals
    modifies runtime.broadcast.terminals.Values, PuzzleObjects(runtime.broadcast.terminals)
    modifies runtime.sessions.Values, ResultCaches(runtime.sessions)
    ensures Grown(runtime)
    ensures var reply := Dispatch.Act(rt, env, session, shown, c, rules);
            result == reply.result && Carries(reply.change, verdict, runtime.Value())
  {
    hide Grown, Dispatch.RequestPlay, AsksForDecision, ProcessRuntime.Value, ConnectionSets, ContentTrees,
         CommandTables;
    AskingReads(runtime, t, c, rt, shown);
    if AsksForDecision(t, c, runtime.broadcast.route.points) {
      result, verdict := AskForDecision(runtime, env, session, t, c, rules, rt, shown);
      SameIsGrown(runtime);
    } else {
      result, verdict := RequestPlay(runtime, env, session, c, rules, rt, shown);
    }
  }

  method ActAdmitted(runtime: ProcessRuntime, env: Env, connection: string, c: PlayerCommand, rules: Dispatch.Rules,
                     session: string, ghost rt: Runtime)
    returns (result: ActionResult, verdict: Verdict)
    requires runtime.Valid() && ShowsTerminal(runtime) && runtime.Value() == rt
    requires Dispatch.Prepare(rt, env, connection, c, rules) == Dispatch.Go(session, ActiveTerminal(rt.broadcast).value)
    modifies runtime.Repr()
    ensures Sealed(runtime)
    ensures var reply := Dispatch.DispatchAction(rt, env, connection, c, rules);
            result == reply.result && Carries(reply.change, verdict, runtime.Value())
  {
    hide SessionValues, TerminalValues, SessionsApart, TerminalsApart, Grown, Sealed, ConnectionSets, ResultCaches,
         ContentTrees, CommandTables, PuzzleObjects;
    ActiveReads(runtime.broadcast);
    var t := runtime.broadcast.terminals[runtime.broadcast.active.value];
    result, verdict := Act(runtime, env, session, t, c, rules, rt, t.Value());
    GrownIsSealed(runtime);
  }

  method DispatchPlayerAction(runtime: ProcessRuntime, env: Env, connection: string, c: PlayerCommand,
                              rules: Dispatch.Rules,
                              ghost rt: Runtime)
    returns (result: ActionResult, verdict: Verdict)
    requires runtime.Valid() && runtime.Value() == rt
    modifies runtime.Repr()
    ensures Sealed(runtime)
    ensures var reply := Dispatch.DispatchAction(rt, env, connection, c, rules);
            result == reply.result && Carries(reply.change, verdict, runtime.Value())
  {
    var ok, session;
    ok, session, result, verdict := PreparePlayerAction(runtime, env, connection, c, rules, rt);
    if ok {
      result, verdict := ActAdmitted(runtime, env, connection, c, rules, session, rt);
    }
  }
}
