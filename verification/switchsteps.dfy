/** The switch decision and content updates, in place on a working copy. */
module SwitchSteps {
  import opened Domain
  import opened State
  import opened Changes
  import opened Heap
  import opened TerminalSteps
  import Claims
  import PuzzleSteps
  import Puzzles
  import Terminals
  import Text

  // ---------------------------------------------------------------- one checkpoint among others

  method UpdateAt(terminals: map<string, TerminalRuntime>, id: string, target: Target)
    requires TerminalsApart(terminals) && id in terminals
    modifies terminals.Values, ContentTrees(terminals), CommandTables(terminals)
    ensures var values := old(TerminalValues(terminals));
            TerminalValues(terminals) == values[id := Terminals.Updated(values[id], target)]
  {
    hide TerminalValues, TerminalsApart;
    var t := terminals[id];
    UpdateRuntime(t, target);
    OnlyAt(terminals, id, t);
  }

  method ReactivateAt(terminals: map<string, TerminalRuntime>, id: string, target: Target)
    requires TerminalsApart(terminals) && id in terminals
    modifies terminals.Values, ContentTrees(terminals), CommandTables(terminals)
    ensures var values := old(TerminalValues(terminals));
            TerminalValues(terminals) == values[id := Terminals.Reactivated(values[id], target)]
  {
    hide TerminalValues, TerminalsApart;
    var t := terminals[id];
    ReactivateRuntime(t, target);
    OnlyAt(terminals, id, t);
  }

  /** The target shown instead of what was left: reactivated if it is still kept. */
  method ShowKept(broadcast: LiveBroadcast, target: Target, board: Option<HackState>)
    requires TerminalsApart(broadcast.terminals)
    modifies broadcast
    modifies broadcast.terminals.Values, ContentTrees(broadcast.terminals), CommandTables(broadcast.terminals)
    ensures TerminalsApart(broadcast.terminals) && KeptOrAdded(old(broadcast.terminals), broadcast.terminals)
    ensures broadcast.Value() == Terminals.ShownKept(old(broadcast.Value()), target, board)
  {
    OpenKept(broadcast, target, board);
    SetActive(broadcast, Some(target.terminalId));
  }

  method OpenKept(broadcast: LiveBroadcast, target: Target, board: Option<HackState>)
    requires TerminalsApart(broadcast.terminals)
    modifies broadcast`terminals, broadcast.terminals.Values, ContentTrees(broadcast.terminals),
             CommandTables(broadcast.terminals)
    ensures TerminalsApart(broadcast.terminals) && KeptOrAdded(old(broadcast.terminals), broadcast.terminals)
    ensures target.terminalId in broadcast.terminals
    ensures var terminals := old(TerminalValues(broadcast.terminals)); var id := target.terminalId;
            var shown := if id in terminals then Terminals.Reactivated(terminals[id], target)
                else Terminals.Created(target, board);
            TerminalValues(broadcast.terminals) == terminals[id := shown]
  {
    if target.terminalId in broadcast.terminals {
      ReactivateAt(broadcast.terminals, target.terminalId, target);
    } else {
      var created := CreateRuntime(target, board);
      TerminalsStay(broadcast.terminals);
      PutRuntime(broadcast, target.terminalId, created);
    }
  }

  // ---------------------------------------------------------------- the switch decision

  lemma Removed(terminals: map<string, TerminalRuntime>, id: string)
    requires TerminalsApart(terminals)
    ensures var kept := terminals - {id};
            && TerminalsApart(kept) && TerminalValues(kept) == TerminalValues(terminals) - {id}
            && kept.Values <= terminals.Values && ContentTrees(kept) <= ContentTrees(terminals)
            && CommandTables(kept) <= CommandTables(terminals)
  {
  }

  /** The source's checkpoint is kept suspended or thrown away. */
  method LeaveSource(broadcast: LiveBroadcast, source: string, choice: Terminals.Choice)
    requires TerminalsApart(broadcast.terminals)
    modifies broadcast`terminals, broadcast.terminals.Values
    ensures TerminalsApart(broadcast.terminals) && KeptOrAdded(old(broadcast.terminals), broadcast.terminals)
    ensures broadcast.terminals.Values <= old(broadcast.terminals.Values)
    ensures ContentTrees(broadcast.terminals) <= old(ContentTrees(broadcast.terminals))
    ensures CommandTables(broadcast.terminals) <= old(CommandTables(broadcast.terminals))
    ensures broadcast.Value() == Terminals.LeftBehind(old(broadcast.Value()), source, choice)
  {
    hide ContentTrees, CommandTables, PuzzleObjects, TerminalsApart;
    if choice == Terminals.Preserve {
      SuspendAt(broadcast.terminals, source);
    } else {
      Removed(broadcast.terminals, source);
      broadcast.terminals := broadcast.terminals - {source};
    }
  }

  predicate SwitchCurrent(runtime: ProcessRuntime, id: string)
    reads runtime, runtime.broadcast
  {
    && runtime.pendingSwitch.Some? && runtime.pendingSwitch.value.id == id
    && runtime.broadcast != null && runtime.pendingSwitch.value.broadcastId == runtime.broadcast.id
    && runtime.broadcast.active == Some(runtime.pendingSwitch.value.source)
  }

  method ResolveTerminalSwitch(runtime: ProcessRuntime, env: Env, id: string, choice: Terminals.Choice)
    returns (verdict: Verdict)
    requires runtime.Valid()
    modifies runtime.Repr()
    ensures Sealed(runtime)
    ensures Carries(Terminals.ResolveSwitch(old(runtime.Value()), env, id, choice), verdict, runtime.Value())
  {
    hide SessionValues, TerminalValues, SessionsApart, TerminalsApart, Sealed, Grown, KeptOrAdded, Terminals.SwitchAway,
         ConnectionSets, ResultCaches, ContentTrees, CommandTables, PuzzleObjects;
    SameIsSealed(runtime);
    ActiveReads(runtime.broadcast);
    if id == "" || !SwitchCurrent(runtime, id) {
      return REFUSED;
    }
    if choice == Terminals.Cancel {
      DropSwitch(runtime);
      SameIsSealed(runtime);
      return ACCEPTED;
    }
    var pending, source := runtime.pendingSwitch.value, ActiveTerminalRuntime(runtime.broadcast);
    if source == null || source.terminalId != pending.source {
      return REFUSED;
    }
    verdict := SwitchAway(runtime, env, choice, pending);
    GrownIsSealed(runtime);
  }

  method SwitchAway(runtime: ProcessRuntime, env: Env, choice: Terminals.Choice, pending: PendingSwitch)
    returns (verdict: Verdict)
    requires runtime.Valid() && runtime.broadcast != null
    modifies runtime`pendingSwitch, runtime.broadcast
    modifies runtime.broadcast.terminals.Values, ContentTrees(runtime.broadcast.terminals),
             CommandTables(runtime.broadcast.terminals)
    ensures Grown(runtime)
    ensures Carries(Terminals.SwitchAway(old(runtime.Value()), env, choice, pending), verdict, runtime.Value())
  {
    hide SessionValues, TerminalValues, SessionsApart, TerminalsApart;
    if pending.target.Some? && env.delivered {
      SwitchNow(runtime, pending.source, choice, pending.target.value, env.board);
      return ACCEPTED;
    }
    LeaveActive(runtime, pending.source, choice);
    if pending.target.Some? {
      return REFUSED;
    }
    ShowNothing(runtime);
    return ACCEPTED;
  }

  method SwitchNow(runtime: ProcessRuntime, source: string, choice: Terminals.Choice, target: Target,
                   board: Option<HackState>)
    requires runtime.Valid() && runtime.broadcast != null
    modifies runtime`pendingSwitch, runtime.broadcast
    modifies runtime.broadcast.terminals.Values, ContentTrees(runtime.broadcast.terminals),
             CommandTables(runtime.broadcast.terminals)
    ensures Grown(runtime)
    ensures var rt := old(runtime.Value());
            runtime.Value() == Claims.WithBroadcast(rt, Terminals.ShownKept(
              Terminals.LeftBehind(rt.broadcast.value, source, choice), target, board)).(pendingSwitch := None)
  {
    hide SessionValues, TerminalValues, SessionsApart, TerminalsApart, KeptOrAdded, Terminals.LeftBehind,
         Terminals.ShownKept;
    SwitchOver(runtime.broadcast, source, choice, target, board);
    BroadcastAlone(runtime);
    DropSwitch(runtime);
  }

  method SwitchOver(broadcast: LiveBroadcast, source: string, choice: Terminals.Choice, target: Target,
                    board: Option<HackState>)
    requires TerminalsApart(broadcast.terminals)
    modifies broadcast, broadcast.terminals.Values, ContentTrees(broadcast.terminals),
             CommandTables(broadcast.terminals)
    ensures TerminalsApart(broadcast.terminals) && KeptOrAdded(old(broadcast.terminals), broadcast.terminals)
    ensures broadcast.Value() == Terminals.ShownKept(Terminals.LeftBehind(old(broadcast.Value()), source, choice),
                                                     target, board)
  {
    LeaveSource(broadcast, source, choice);
    ShowKept(broadcast, target, board);
  }

  method LeaveActive(runtime: ProcessRuntime, source: string, choice: Terminals.Choice)
    requires runtime.Valid() && runtime.broadcast != null
    modifies runtime.broadcast`terminals, runtime.broadcast.terminals.Values
    ensures Grown(runtime)
    ensures var rt := old(runtime.Value()); var b := rt.broadcast.value;
            runtime.Value() == Claims.WithBroadcast(rt, Terminals.LeftBehind(b, source, choice))
  {
    LeaveSource(runtime.broadcast, source, choice);
    BroadcastAlone(runtime);
  }

  method ShowNothing(runtime: ProcessRuntime)
    requires runtime.Valid() && runtime.broadcast != null
    modifies runtime`pendingSwitch, runtime.broadcast`active
    ensures var rt := old(runtime.Value());
            runtime.Value() == Claims.WithBroadcast(rt, rt.broadcast.value.(active := None)).(pendingSwitch := None)
  {
    SetActive(runtime.broadcast, None);
    BroadcastAlone(runtime);
    DropSwitch(runtime);
  }

  // ---------------------------------------------------------------- content updates

  predicate ShowsTerminal(runtime: ProcessRuntime)
    reads runtime, runtime.broadcast
  {
    runtime.broadcast != null && runtime.broadcast.active.Some? &&
        runtime.broadcast.active.value in runtime.broadcast.terminals
  }

  lemma ShownReads(runtime: ProcessRuntime)
    requires ShowsTerminal(runtime)
    ensures var values, id := TerminalValues(runtime.broadcast.terminals), runtime.broadcast.active.value;
            id in values && ActiveTerminal(runtime.Value().broadcast) == Some(values[id])
  {
  }

  method UpdateActive(runtime: ProcessRuntime, target: Target)
    requires runtime.Valid() && ShowsTerminal(runtime)
    modifies runtime.broadcast.terminals.Values, ContentTrees(runtime.broadcast.terminals),
             CommandTables(runtime.broadcast.terminals)
    ensures var rt := old(runtime.Value());
            runtime.Value() == Terminals.PutActive(rt, Terminals.Updated(ActiveTerminal(rt.broadcast).value, target))
  {
    hide SessionValues, TerminalValues, SessionsApart, TerminalsApart, Terminals.Updated;
    ShownReads(runtime);
    UpdateAt(runtime.broadcast.terminals, runtime.broadcast.active.value, target);
    TerminalsAlone(runtime);
  }

  method UpdateLiveTerminal(runtime: ProcessRuntime, env: Env, tree: ContentNode, intro: Option<string>)
    returns (verdict: Verdict)
    requires runtime.Valid()
    modifies runtime.Repr()
    ensures Sealed(runtime)
    ensures Carries(Terminals.UpdateLive(old(runtime.Value()), env, tree, intro), verdict, runtime.Value())
  {
    SameIsSealed(runtime);
    ActiveReads(runtime.broadcast);
    var active := ActiveTerminalRuntime(runtime.broadcast);
    if active == null || !env.delivered {
      return REFUSED;
    }
    var text := if intro.Some? then intro.value else active.introText;
    var target := Target(active.terminalId, active.terminalName, tree, active.commandStates.states, active.hackLevel,
                         text);
    UpdateActive(runtime, target);
    SameIsSealed(runtime);
    return ACCEPTED;
  }

  method DropStaleView(t: TerminalRuntime, states: map<string, CommandState>)
    modifies t`nav
    ensures t.Value() == Terminals.DropStaleResult(old(t.Value()), states)
  {
    if t.nav.command.Some? && t.nav.command.value in t.commandStates.states && t.nav.command.value !in states {
      t.nav := t.nav.(command := None);
    }
  }

  method RefreshAt(terminals: map<string, TerminalRuntime>, id: string, target: Target)
    requires TerminalsApart(terminals) && id in terminals
    modifies terminals.Values, ContentTrees(terminals), CommandTables(terminals)
    ensures var values := old(TerminalValues(terminals));
            TerminalValues(terminals)
            == values[id := Terminals.Renewed(values[id], target)]
  {
    hide TerminalValues, TerminalsApart;
    var t := terminals[id];
    Renew(t, target);
    OnlyAt(terminals, id, t);
  }

  method Renew(t: TerminalRuntime, target: Target)
    modifies t, t.tree, t.commandStates
    ensures t.Value() == Terminals.Renewed(old(t.Value()), target)
  {
    DropStaleView(t, target.commandStates);
    UpdateRuntime(t, target);
  }

  method RefreshActive(runtime: ProcessRuntime, target: Target)
    requires runtime.Valid() && ShowsTerminal(runtime)
    modifies runtime.broadcast.terminals.Values, ContentTrees(runtime.broadcast.terminals),
             CommandTables(runtime.broadcast.terminals)
    ensures var rt := old(runtime.Value());
            runtime.Value() == Terminals.PutActive(rt, Terminals.Renewed(ActiveTerminal(rt.broadcast).value, target))
  {
    hide SessionValues, TerminalValues, SessionsApart, TerminalsApart, Terminals.Renewed;
    ShownReads(runtime);
    RefreshAt(runtime.broadcast.terminals, runtime.broadcast.active.value, target);
    TerminalsAlone(runtime);
  }

  method RefreshActiveTerminal(runtime: ProcessRuntime, env: Env, target: Target) returns (verdict: Verdict)
    requires runtime.Valid()
    modifies runtime.Repr()
    ensures Sealed(runtime)
    ensures Carries(Terminals.Refresh(old(runtime.Value()), env, target), verdict, runtime.Value())
  {
    var id := Text.Trim(target.terminalId);
    SameIsSealed(runtime);
    ActiveReads(runtime.broadcast);
    var active := ActiveTerminalRuntime(runtime.broadcast);
    if id == "" || active == null || active.terminalId != id || !env.delivered {
      return REFUSED;
    }
    RefreshActive(runtime, target.(terminalId := id));
    SameIsSealed(runtime);
    return ACCEPTED;
  }

  // ---------------------------------------------------------------- puzzles

  method ReplaceActive(runtime: ProcessRuntime, replacement: TerminalRuntime)
    requires runtime.Valid() && runtime.broadcast != null && runtime.broadcast.active == Some(replacement.terminalId)
    requires Outside(replacement, runtime.broadcast.terminals)
    modifies runtime.broadcast`terminals
    ensures runtime.Valid() && runtime.sessions == old(runtime.sessions) && runtime.broadcast == old(runtime.broadcast)
    ensures runtime.broadcast.terminals == old(runtime.broadcast.terminals)[replacement.terminalId := replacement]
    ensures runtime.Value() == Terminals.PutActive(old(runtime.Value()), replacement.Value())
  {
    PutRuntime(runtime.broadcast, replacement.terminalId, replacement);
    SessionsStay(runtime.sessions);
  }

  /** A checkpoint created anew takes the place of the one shown, if it has a puzzle to solve. */
  method HackAnew(runtime: ProcessRuntime, target: Target, board: Option<HackState>) returns (ok: bool)
    requires runtime.Valid() && runtime.broadcast != null && runtime.broadcast.active == Some(target.terminalId)
    modifies runtime.broadcast`terminals
    ensures Grown(runtime)
    ensures ok <==> Terminals.ActivePuzzle(Terminals.Created(target, board))
    ensures ok ==> runtime.Value() == Terminals.PutActive(old(runtime.Value()), Terminals.Created(target, board))
  {
    var replacement := CreateRuntime(target, board);
    RuntimeStays(runtime);
    ok := Unfinished(replacement);
    if ok {
      ReplaceActive(runtime, replacement);
    }
  }

  predicate ShowsFailedHack(broadcast: LiveBroadcast?, id: string)
    reads broadcast, ActiveTerminalRuntime(broadcast)
    reads if ActiveTerminalRuntime(broadcast) == null then {} else {ActiveTerminalRuntime(broadcast).hack}
  {
    var active := ActiveTerminalRuntime(broadcast);
    && active != null && broadcast.active.value == id && active.terminalId == id && active.lifecycle == Active
    && active.hack != null && active.hack.failed && !active.hack.solved
  }

  method ResetFailedHack(runtime: ProcessRuntime, env: Env, target: Target) returns (verdict: Verdict)
    requires runtime.Valid()
    modifies runtime.Repr()
    ensures Sealed(runtime)
    ensures Carries(Terminals.ResetHack(old(runtime.Value()), env, target), verdict, runtime.Value())
  {
    hide SessionValues, TerminalValues, SessionsApart, TerminalsApart, Sealed, Grown, ConnectionSets, ResultCaches,
         ContentTrees, CommandTables, PuzzleObjects;
    var id := Text.Trim(target.terminalId);
    SameIsSealed(runtime);
    ActiveReads(runtime.broadcast);
    if id == "" || !ShowsFailedHack(runtime.broadcast, id) || !env.delivered {
      return REFUSED;
    }
    var ok := HackAnew(runtime, target.(terminalId := id), env.board);
    GrownIsSealed(runtime);
    return if ok then ACCEPTED else REFUSED;
  }

  method SolveAt(terminals: map<string, TerminalRuntime>, id: string)
    requires TerminalsApart(terminals) && id in terminals && terminals[id].hack != null
    modifies PuzzleObjects(terminals)
    ensures var values := old(TerminalValues(terminals));
            values[id].hack.Some? && TerminalValues(terminals)
            == values[id := values[id].(hack := Some(Puzzles.Forced(values[id].hack.value)))]
  {
    hide TerminalValues, TerminalsApart;
    var t := terminals[id];
    PuzzleSteps.ForceSuccess(t.hack);
    OnlyAt(terminals, id, t);
  }

  method SolveActive(runtime: ProcessRuntime)
    requires runtime.Valid() && ShowsTerminal(runtime)
    requires runtime.broadcast.terminals[runtime.broadcast.active.value].hack != null
    modifies PuzzleObjects(runtime.broadcast.terminals)
    ensures var rt := old(runtime.Value()); var t := ActiveTerminal(rt.broadcast).value;
            t.hack.Some? && runtime.Value() == Terminals.PutActive(rt, t.(hack := Some(Puzzles.Forced(t.hack.value))))
  {
    hide SessionValues, TerminalValues, SessionsApart, TerminalsApart;
    ShownReads(runtime);
    SolveAt(runtime.broadcast.terminals, runtime.broadcast.active.value);
    TerminalsAlone(runtime);
  }

  method ForceHackSuccess(runtime: ProcessRuntime) returns (verdict: Verdict)
    requires runtime.Valid()
    modifies runtime.Repr()
    ensures Sealed(runtime)
    ensures Carries(Terminals.ForceHack(old(runtime.Value())), verdict, runtime.Value())
  {
    hide SessionValues, TerminalValues, SessionsApart, TerminalsApart, Sealed, ConnectionSets, ResultCaches,
         ContentTrees, CommandTables, PuzzleObjects;
    SameIsSealed(runtime);
    ActiveReads(runtime.broadcast);
    var active := ActiveTerminalRuntime(runtime.broadcast);
    if active == null || active.lifecycle != Active || !Unfinished(active) {
      return REFUSED;
    }
    SolveActive(runtime);
    SameIsSealed(runtime);
    return ACCEPTED;
  }
}
