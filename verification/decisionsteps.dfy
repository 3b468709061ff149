/** The Overseer's decisions, in place on a working copy. */
module DecisionSteps {
  import opened Domain
  import opened State
  import opened Changes
  import opened Catalogue
  import opened Heap
  import opened TerminalSteps
  import opened SwitchSteps
  import Claims
  import Dispatch
  import Nav
  import Route
  import Sessions
  import Terminals
  import Text

  // ---------------------------------------------------------------- the command asked about

  /** The command directly in the folder the checkpoint shows. */
  method SelectedAuthoredCommand(t: TerminalRuntime, nodeId: string) returns (authored: Option<ContentNode>)
    ensures authored == Dispatch.Selected(t.Value(), nodeId)
  {
    if nodeId == "" || t.nav.path == [] || t.nav.path[0] != t.tree.root.id {
      return None;
    }
    var path := t.nav.path;
    var folder := t.tree.root;
    for index := 1 to |path|
      invariant Nav.Walk(t.tree.root, path[1..]) == Nav.Walk(folder, path[index..])
    {
      var next := Nav.DirectChild(folder, path[index], Folder);
      if next == None {
        return None;
      }
      folder := next.value;
      assert path[index..][1..] == path[index + 1..];
    }
    authored := Nav.DirectChild(folder, nodeId, Command);
  }

  predicate CurrentPendingCommandExecution(runtime: ProcessRuntime)
    reads runtime, runtime.broadcast, ActiveTerminalRuntime(runtime.broadcast)
  {
    && runtime.pendingCommand.Some? && runtime.broadcast != null
    && var pending := runtime.pendingCommand.value;
       var t := ActiveTerminalRuntime(runtime.broadcast);
       && pending.broadcastId == runtime.broadcast.id && runtime.broadcast.active == Some(pending.terminalId)
       && t != null && t.terminalId == pending.terminalId && t.lifecycle == Active
       && t.execution == Some(Execution(Awaiting, pending.commandId))
  }

  method StillAuthored(t: TerminalRuntime, pending: PendingCommand) returns (authored: Option<ContentNode>)
    ensures authored.Some? <==> Dispatch.StillAuthored(t.Value(), pending)
    ensures authored.Some? ==> authored == Dispatch.Selected(t.Value(), pending.commandId)
  {
    authored := SelectedAuthoredCommand(t, pending.commandId);
    if authored.None? {
      return;
    }
    var command, states := authored.value, t.commandStates.states;
    var completed := command.id in states;
    var mode := if command.stateChange.None? then OrdinaryMode else if completed then CompletedChangeMode
        else ChangeMode;
    var name := if completed then states[command.id].completedName else command.name;
    if command.Behavior() == Invalid || command.Behavior() == Transition || name != pending.commandName
       || mode != pending.mode || Dispatch.ConfirmationText(command) != pending.confirmationText {
      authored := None;
    }
  }

  // ---------------------------------------------------------------- answering it

  method Approve(t: TerminalRuntime, pending: PendingCommand, durable: Dispatch.Durable)
    requires pending.mode == ChangeMode ==> durable.Stored? && durable.states.Some?
    modifies t, t.commandStates
    ensures t.Value() == Dispatch.Approved(old(t.Value()), pending, durable)
  {
    t.execution := None;
    if pending.mode == ChangeMode {
      t.commandStates.states := durable.states.value;
      t.nav := t.nav.(command := Some(pending.commandId));
    } else {
      var nav := Nav.ApplyAction(t.nav, t.tree.root, OpenCommand, pending.commandId);
      t.nav := nav;
    }
  }

  method ApproveAt(terminals: map<string, TerminalRuntime>, id: string, pending: PendingCommand,
                   durable: Dispatch.Durable)
    requires TerminalsApart(terminals) && id in terminals
    requires pending.mode == ChangeMode ==> durable.Stored? && durable.states.Some?
    modifies terminals.Values, CommandTables(terminals)
    ensures var values := old(TerminalValues(terminals));
            TerminalValues(terminals) == values[id := Dispatch.Approved(values[id], pending, durable)]
  {
    hide TerminalValues, TerminalsApart;
    var t := terminals[id];
    Approve(t, pending, durable);
    OnlyAt(terminals, id, t);
  }

  method ApproveShown(runtime: ProcessRuntime, pending: PendingCommand, durable: Dispatch.Durable)
    requires runtime.Valid() && ShowsTerminal(runtime)
    requires pending.mode == ChangeMode ==> durable.Stored? && durable.states.Some?
    modifies runtime.broadcast.terminals.Values, CommandTables(runtime.broadcast.terminals)
    ensures SameObjects(runtime)
    ensures var rt := old(runtime.Value());
            runtime.Value() == Terminals.PutActive(rt,
                                                   Dispatch.Approved(ActiveTerminal(rt.broadcast).value, pending,
                                                                     durable))
  {
    hide SessionValues, TerminalValues, SessionsApart, TerminalsApart, Dispatch.Approved;
    ShownReads(runtime);
    ApproveAt(runtime.broadcast.terminals, runtime.broadcast.active.value, pending, durable);
    TerminalsAlone(runtime);
  }

  method ApproveActive(runtime: ProcessRuntime, pending: PendingCommand, durable: Dispatch.Durable)
    requires runtime.Valid() && ShowsTerminal(runtime)
    requires pending.mode == ChangeMode ==> durable.Stored? && durable.states.Some?
    modifies runtime`pendingCommand, runtime.broadcast.terminals.Values, CommandTables(runtime.broadcast.terminals)
    ensures SameObjects(runtime)
    ensures var rt := old(runtime.Value());
            runtime.Value() == Dispatch.Settle(rt,
                                               Dispatch.Approved(ActiveTerminal(rt.broadcast).value, pending, durable))
  {
    hide SessionValues, TerminalValues, SessionsApart, TerminalsApart;
    ApproveShown(runtime, pending, durable);
    SetPendingCommand(runtime, None);
  }

  method ShowExecution(runtime: ProcessRuntime, execution: Option<Execution>)
    requires runtime.Valid() && ShowsTerminal(runtime)
    modifies runtime.broadcast.terminals.Values
    ensures SameObjects(runtime)
    ensures var rt := old(runtime.Value());
            runtime.Value() == Terminals.PutActive(rt, ActiveTerminal(rt.broadcast).value.(execution := execution))
  {
    hide SessionValues, TerminalValues, SessionsApart, TerminalsApart;
    ShownReads(runtime);
    ExecutionAt(runtime.broadcast.terminals, runtime.broadcast.active.value, execution);
    TerminalsAlone(runtime);
  }

  method CloseExecution(runtime: ProcessRuntime, execution: Option<Execution>)
    requires runtime.Valid() && ShowsTerminal(runtime)
    modifies runtime`pendingCommand, runtime.broadcast.terminals.Values
    ensures SameObjects(runtime)
    ensures var rt := old(runtime.Value());
            runtime.Value() == Dispatch.Settle(rt, ActiveTerminal(rt.broadcast).value.(execution := execution))
  {
    hide SessionValues, TerminalValues, SessionsApart, TerminalsApart;
    ShowExecution(runtime, execution);
    SetPendingCommand(runtime, None);
  }

  method NoticeAt(sessions: map<string, LogicalSession>, id: string, notice: bool)
    requires SessionsApart(sessions) && id in sessions
    modifies sessions.Values
    ensures var values := old(SessionValues(sessions));
            SessionValues(sessions) == values[id := values[id].(notice := notice)]
  {
    hide SessionValues, SessionsApart;
    var session := sessions[id];
    session.notice := notice;
    OnlySession(sessions, id, session);
  }

  method SetNotice(runtime: ProcessRuntime, session: string, notice: bool)
    requires runtime.Valid()
    modifies runtime.sessions.Values
    ensures SameObjects(runtime)
    ensures runtime.Value() == Dispatch.SetNotice(old(runtime.Value()), session, notice)
  {
    if session in runtime.sessions {
      NoticeAt(runtime.sessions, session, notice);
      BroadcastStays(runtime.broadcast);
    }
  }

  method FailPendingCommandExecution(runtime: ProcessRuntime, pending: PendingCommand)
    requires runtime.Valid() && ShowsTerminal(runtime)
    modifies runtime`pendingCommand, runtime.broadcast.terminals.Values, runtime.sessions.Values
    ensures SameObjects(runtime)
    ensures var rt := old(runtime.Value());
            runtime.Value() == Dispatch.SetNotice(
              Dispatch.Settle(rt, ActiveTerminal(rt.broadcast).value.(execution := None)), pending.controller, true)
  {
    hide SessionValues, TerminalValues, SessionsApart, TerminalsApart;
    CloseExecution(runtime, None);
    SetNotice(runtime, pending.controller, true);
  }

  method ResolveCommandExecution(runtime: ProcessRuntime, request: string, approve: bool, durable: Dispatch.Durable)
    returns (verdict: Verdict)
    requires runtime.Valid()
    modifies runtime.Repr()
    ensures Sealed(runtime)
    ensures Carries(Dispatch.ResolveCommand(old(runtime.Value()), request, approve, durable), verdict, runtime.Value())
  {
    hide SessionValues, TerminalValues, SessionsApart, TerminalsApart, Sealed, KeptOrAdded, ConnectionSets,
         ResultCaches, ContentTrees, CommandTables, PuzzleObjects;
    SameIsSealed(runtime);
    ActiveReads(runtime.broadcast);
    var id := Text.Trim(request);
    if id == "" {
      return REFUSED;
    }
    if !CurrentPendingCommandExecution(runtime) || runtime.pendingCommand.value.requestId != id {
      return Verdict(false, false, [Audit(Decided, Stale, id, NoMode)]);
    }
    verdict := AnswerCommand(runtime, runtime.pendingCommand.value, approve, durable);
    SameIsSealed(runtime);
  }

  method AnswerCommand(runtime: ProcessRuntime, pending: PendingCommand, approve: bool, durable: Dispatch.Durable)
    returns (verdict: Verdict)
    requires runtime.Valid() && ShowsTerminal(runtime)
    modifies runtime`pendingCommand, runtime.broadcast.terminals.Values, CommandTables(runtime.broadcast.terminals)
    modifies runtime.sessions.Values
    ensures SameObjects(runtime)
    ensures var rt := old(runtime.Value());
            Carries(Dispatch.AnswerCommand(rt, pending, ActiveTerminal(rt.broadcast).value, approve, durable),
                    verdict, runtime.Value())
  {
    hide SessionValues, TerminalValues, SessionsApart, TerminalsApart;
    ActiveReads(runtime.broadcast);
    var authored := StillAuthored(runtime.broadcast.terminals[runtime.broadcast.active.value], pending);
    RuntimeStays(runtime);
    if authored.None? {
      return Verdict(false, false, [Dispatch.DecisionAudit(pending, Stale)]);
    }
    if !approve {
      CloseExecution(runtime, Some(Execution(Rejected, pending.commandId)));
      return Verdict(true, false, [Dispatch.DecisionAudit(pending, Declined)]);
    }
    verdict := GrantCommand(runtime, pending, authored.value, durable);
  }

  method GrantCommand(runtime: ProcessRuntime, pending: PendingCommand, authored: ContentNode,
                      durable: Dispatch.Durable)
    returns (verdict: Verdict)
    requires runtime.Valid() && ShowsTerminal(runtime)
    modifies runtime`pendingCommand, runtime.broadcast.terminals.Values, CommandTables(runtime.broadcast.terminals)
    modifies runtime.sessions.Values
    ensures SameObjects(runtime)
    ensures var rt := old(runtime.Value());
            Carries(Dispatch.GrantCommand(rt, pending, ActiveTerminal(rt.broadcast).value, authored, durable),
                    verdict, runtime.Value())
  {
    hide ProcessRuntime.Value, SessionValues, TerminalValues, SessionsApart, TerminalsApart, Dispatch.Approved,
         Dispatch.SetNotice;
    if pending.mode == ChangeMode && !Dispatch.DurableSucceeds(durable, pending, authored) {
      FailPendingCommandExecution(runtime, pending);
      return Verdict(true, false, [Dispatch.DecisionAudit(pending, Failed)]);
    }
    ApproveActive(runtime, pending, durable);
    return Verdict(true, false, [Dispatch.DecisionAudit(pending, Succeeded)]);
  }

  // ---------------------------------------------------------------- command-state resets

  predicate Affected(t: TerminalRuntime, candidate: string, command: Option<string>)
    reads t, t.commandStates
  {
    if command.None? then candidate in t.commandStates.states else candidate == command.value
  }

  method ClearPresentation(t: TerminalRuntime, command: Option<string>, states: map<string, CommandState>)
    modifies t, t.commandStates
    ensures t.Value() == Dispatch.ResetTerminal(old(t.Value()), command, states)
  {
    if t.nav.command.Some? && Affected(t, t.nav.command.value, command) {
      t.nav := t.nav.(command := None);
    }
    if t.execution.Some? && Affected(t, t.execution.value.commandId, command) {
      t.execution := None;
    }
    t.commandStates.states := states;
  }

  method ResetAt(terminals: map<string, TerminalRuntime>, id: string, command: Option<string>,
                 states: map<string, CommandState>)
    requires TerminalsApart(terminals) && id in terminals
    modifies terminals.Values, CommandTables(terminals)
    ensures var values := old(TerminalValues(terminals));
            TerminalValues(terminals) == values[id := Dispatch.ResetTerminal(values[id], command, states)]
  {
    hide TerminalValues, TerminalsApart;
    var t := terminals[id];
    ClearPresentation(t, command, states);
    OnlyAt(terminals, id, t);
  }

  method ResetShown(runtime: ProcessRuntime, id: string, command: Option<string>, states: map<string, CommandState>)
    requires runtime.Valid() && runtime.broadcast != null && id in runtime.broadcast.terminals
    modifies runtime.broadcast.terminals.Values, CommandTables(runtime.broadcast.terminals)
    ensures SameObjects(runtime)
    ensures var rt := old(runtime.Value()); var b := rt.broadcast.value;
            runtime.Value() == Claims.WithBroadcast(rt, b.(terminals :=
                                 b.terminals[id := Dispatch.ResetTerminal(b.terminals[id], command, states)]))
  {
    hide SessionValues, TerminalValues, SessionsApart, TerminalsApart, Dispatch.ResetTerminal;
    ResetAt(runtime.broadcast.terminals, id, command, states);
    TerminalsAlone(runtime);
  }

  method ResetCheckpoint(runtime: ProcessRuntime, id: string, command: Option<string>,
                         states: map<string, CommandState>)
    requires runtime.Valid() && runtime.broadcast != null && id in runtime.broadcast.terminals
    modifies runtime`pendingCommand, runtime.broadcast.terminals.Values, CommandTables(runtime.broadcast.terminals)
    ensures SameObjects(runtime)
    ensures runtime.Value() == Dispatch.ResetCheckpoint(old(runtime.Value()), id, command, states)
  {
    hide SessionValues, SessionsApart, TerminalsApart;
    var t, pending := runtime.broadcast.terminals[id], runtime.pendingCommand;
    var dropped := pending.Some? && pending.value.terminalId == t.terminalId &&
        Affected(t, pending.value.commandId, command);
    ResetShown(runtime, id, command, states);
    SetPendingCommand(runtime, if dropped then None else pending);
  }

  method ResetCommandStates(runtime: ProcessRuntime, terminal: string, command: Option<string>,
                            durable: Dispatch.Durable)
    returns (verdict: Verdict)
    requires runtime.Valid()
    modifies runtime.Repr()
    ensures Sealed(runtime)
    ensures Carries(Dispatch.ResetStates(old(runtime.Value()), terminal, command, durable), verdict, runtime.Value())
  {
    hide ProcessRuntime.Value, SessionValues, TerminalValues, SessionsApart, TerminalsApart, Sealed,
         Dispatch.ResetCheckpoint, ConnectionSets, ResultCaches, ContentTrees, PuzzleObjects;
    SameIsSealed(runtime);
    var id := Text.Trim(terminal);
    var node := if command.Some? then Some(Text.Trim(command.value)) else None;
    if id == "" || node == Some("") || !Dispatch.ResetAccepted(durable, node) || !durable.changed {
      return REFUSED;
    }
    StoredReads(runtime, id);
    if runtime.broadcast != null && id in runtime.broadcast.terminals {
      ResetCheckpoint(runtime, id, node, durable.states.value);
    }
    SameIsSealed(runtime);
    return ACCEPTED;
  }

  // ---------------------------------------------------------------- navigation decisions

  method LastPosition(members: seq<string>, id: string) returns (position: int)
    ensures position == Route.LastIndexOf(members, id)
  {
    position := -1;
    for index := 0 to |members|
      invariant position == Route.LastIndexOf(members[..index], id)
    {
      assert members[..index + 1][..index] == members[..index];
      if members[index] == id {
        position := index;
      }
    }
    assert members[..|members|] == members;
  }

  method ValidTerminalReturnPoint(groups: seq<Group>, source: string, point: ReturnPoint) returns (ok: bool)
    ensures ok <==> Route.ValidReturn(groups, source, point)
  {
    if !SameGroup(groups, source, point.terminalId) {
      return false;
    }
    if point.origin != InitialPrefix {
      return true;
    }
    var group := FindGroup(groups, point.terminalId).value;
    if point.groupId != group.id {
      return false;
    }
    var sourcePosition := LastPosition(group.members, source);
    var targetPosition := LastPosition(group.members, point.terminalId);
    return targetPosition == point.groupPosition && sourcePosition == targetPosition + 1;
  }

  method NavAt(terminals: map<string, TerminalRuntime>, id: string, nav: NavState)
    requires TerminalsApart(terminals) && id in terminals
    modifies terminals.Values
    ensures var values := old(TerminalValues(terminals));
            TerminalValues(terminals) == values[id := values[id].(nav := nav)]
  {
    hide TerminalValues, TerminalsApart;
    var t := terminals[id];
    t.nav := nav;
    OnlyAt(terminals, id, t);
  }

  /** The target's checkpoint opened at `nav`, once the source is suspended. */
  method OpenThere(broadcast: LiveBroadcast, target: Target, board: Option<HackState>, nav: NavState)
    requires TerminalsApart(broadcast.terminals)
    modifies broadcast`terminals, broadcast.terminals.Values, ContentTrees(broadcast.terminals),
             CommandTables(broadcast.terminals)
    ensures TerminalsApart(broadcast.terminals) && KeptOrAdded(old(broadcast.terminals), broadcast.terminals)
    ensures TerminalValues(broadcast.terminals) ==
            Dispatch.Reached(old(TerminalValues(broadcast.terminals)), board, target, nav)
  {
    hide TerminalValues, TerminalsApart, Terminals.Reactivated, Terminals.Created;
    OpenKept(broadcast, target, board);
    NavAt(broadcast.terminals, target.terminalId, nav);
  }

  method Land(broadcast: LiveBroadcast, target: Target, board: Option<HackState>, nav: NavState,
              route: seq<ReturnPoint>)
    requires TerminalsApart(broadcast.terminals)
    modifies broadcast, broadcast.route
    modifies broadcast.terminals.Values, ContentTrees(broadcast.terminals), CommandTables(broadcast.terminals)
    ensures TerminalsApart(broadcast.terminals) && KeptOrAdded(old(broadcast.terminals), broadcast.terminals)
    ensures var b := old(broadcast.Value());
            broadcast.Value() == b.(terminals := Dispatch.Reached(b.terminals, board, target, nav),
                                    active := Some(target.terminalId), route := route)
  {
    hide Dispatch.Reached, TerminalValues, TerminalsApart;
    OpenThere(broadcast, target, board, nav);
    assert broadcast.Value() == old(broadcast.Value()).(terminals :=
                                                        Dispatch.Reached(old(TerminalValues(broadcast.terminals)),
                                                            board, target, nav));
    SetRoute(broadcast, route);
    SetActive(broadcast, Some(target.terminalId));
  }

  method SuspendSource(runtime: ProcessRuntime, source: string)
    requires runtime.Valid() && runtime.broadcast != null
    modifies runtime.broadcast.terminals.Values
    ensures var rt := old(runtime.Value()); var b := rt.broadcast.value;
            runtime.Value() == Claims.WithBroadcast(rt, b.(terminals := Terminals.Suspend(b.terminals, source)))
  {
    SuspendAt(runtime.broadcast.terminals, source);
    TerminalsAlone(runtime);
  }

  method LandOnAir(runtime: ProcessRuntime, target: Target, board: Option<HackState>, nav: NavState,
                   route: seq<ReturnPoint>)
    requires runtime.Valid() && runtime.broadcast != null
    modifies runtime.broadcast, runtime.broadcast.route
    modifies runtime.broadcast.terminals.Values, ContentTrees(runtime.broadcast.terminals),
             CommandTables(runtime.broadcast.terminals)
    ensures Grown(runtime)
    ensures var rt := old(runtime.Value()); var b := rt.broadcast.value;
            runtime.Value() == Claims.WithBroadcast(rt,
                                                    b.(terminals := Dispatch.Reached(b.terminals, board, target, nav),
                                                           active := Some(target.terminalId), route := route))
  {
    hide SessionValues, TerminalValues, SessionsApart, TerminalsApart, KeptOrAdded, Dispatch.Reached;
    Land(runtime.broadcast, target, board, nav, route);
    BroadcastAlone(runtime);
  }

  /** The source is suspended first; only then does it show whether the target opens. */
  method Arrive(runtime: ProcessRuntime, env: Env, target: Target, nav: NavState, route: seq<ReturnPoint>)
    returns (arrived: bool)
    requires runtime.Valid() && runtime.broadcast != null && runtime.broadcast.active.Some?
    modifies runtime`pendingNavigation, runtime`notice, runtime.broadcast, runtime.broadcast.route
    modifies runtime.broadcast.terminals.Values, ContentTrees(runtime.broadcast.terminals),
             CommandTables(runtime.broadcast.terminals)
    ensures Grown(runtime) && arrived == env.delivered
    ensures arrived ==> runtime.Value() == Dispatch.Arrive(old(runtime.Value()), env, target, nav, route)
  {
    SuspendSource(runtime, runtime.broadcast.active.value);
    if !env.delivered {
      return false;
    }
    LandOnAir(runtime, target, env.board, nav, route);
    SetNavigation(runtime, None, None);
    return true;
  }

  /** The route still ends where the return was asked for, and still leads there. */
  method StillOpen(broadcast: LiveBroadcast, groups: seq<Group>, pending: PendingNavigation) returns (open: bool)
    ensures var route := broadcast.route.points;
            open <==> route != [] && route[|route| - 1] == pending.returnPoint
                      && Route.ValidReturn(groups, pending.source, pending.returnPoint)
  {
    var route := broadcast.route.points;
    if route == [] || route[|route| - 1] != pending.returnPoint {
      return false;
    }
    open := ValidTerminalReturnPoint(groups, pending.source, pending.returnPoint);
  }

  /** Where the return leads, when it still leads there. */
  function ReturnTarget(catalog: Catalog, pending: PendingNavigation): (latest: Option<Target>) {
    var found := LookupTerminal(catalog, pending.target);
    if found.None? || found.value.terminalId != pending.returnPoint.terminalId
       || !SameGroup(catalog.groups, pending.source, pending.target) then None else found
  }

  method ReportTarget(runtime: ProcessRuntime, pending: PendingNavigation, reason: NoticeReason)
    requires runtime.Valid()
    modifies runtime`pendingNavigation, runtime`notice
    ensures runtime.Value() == Dispatch.Notify(old(runtime.Value()), pending, reason)
  {
    SetNavigation(runtime, None, Some(NavigationNotice(reason, pending.source, pending.commandId, pending.target)));
  }

  method ArriveBack(runtime: ProcessRuntime, env: Env, latest: Target, point: ReturnPoint, ghost rt: Runtime)
    returns (arrived: bool)
    requires runtime.Valid() && runtime.Value() == rt && runtime.broadcast != null && runtime.broadcast.active.Some?
    requires runtime.broadcast.route.points != []
    modifies runtime`pendingNavigation, runtime`notice, runtime.broadcast, runtime.broadcast.route
    modifies runtime.broadcast.terminals.Values, ContentTrees(runtime.broadcast.terminals),
             CommandTables(runtime.broadcast.terminals)
    ensures Grown(runtime) && arrived == env.delivered
    ensures var route := rt.broadcast.value.route;
            arrived ==> runtime.Value() == Dispatch.Arrive(rt, env, latest,
                                                           Nav.Restored(latest.tree, point.folderId, point.ancestors),
                                                           route[..|route| - 1])
  {
    var nav := Nav.RestoreFolder(latest.tree, point.folderId, point.ancestors);
    RuntimeStays(runtime);
    var route := runtime.broadcast.route.points;
    arrived := Arrive(runtime, env, latest, nav, route[..|route| - 1]);
  }

  method ApproveReturn(runtime: ProcessRuntime, env: Env, pending: PendingNavigation, ghost rt: Runtime)
    returns (verdict: Verdict)
    requires runtime.Valid() && runtime.Value() == rt && runtime.broadcast != null && runtime.broadcast.active.Some?
    modifies runtime`pendingNavigation, runtime`notice, runtime.broadcast, runtime.broadcast.route
    modifies runtime.broadcast.terminals.Values, ContentTrees(runtime.broadcast.terminals),
             CommandTables(runtime.broadcast.terminals)
    ensures Grown(runtime)
    ensures Carries(Dispatch.ApproveReturn(rt, env, pending), verdict, runtime.Value())
  {
    hide SessionValues, TerminalValues, SessionsApart, TerminalsApart;
    var open := StillOpen(runtime.broadcast, env.catalog.groups, pending);
    if !open {
      return REFUSED;
    }
    RuntimeStays(runtime);
    var latest := ReturnTarget(env.catalog, pending);
    if latest.None? {
      ReportTarget(runtime, pending, TargetMissing);
      return ACCEPTED;
    }
    var arrived := ArriveBack(runtime, env, latest.value, pending.returnPoint, rt);
    return if arrived then ACCEPTED else REFUSED;
  }

  method ApproveForward(runtime: ProcessRuntime, env: Env, pending: PendingNavigation, ghost rt: Runtime)
    returns (verdict: Verdict)
    requires runtime.Valid() && runtime.Value() == rt && runtime.broadcast != null && runtime.broadcast.active.Some?
    modifies runtime`pendingNavigation, runtime`notice, runtime.broadcast, runtime.broadcast.route
    modifies runtime.broadcast.terminals.Values, ContentTrees(runtime.broadcast.terminals),
             CommandTables(runtime.broadcast.terminals)
    ensures Grown(runtime)
    ensures Carries(Dispatch.ApproveForward(rt, env, pending), verdict, runtime.Value())
  {
    var link := LookupTransition(env.catalog, pending.source, pending.commandId);
    if link.None? || link.value.target.terminalId != pending.target || link.value.target.terminalId == pending.source
       || !SameGroup(env.catalog.groups, pending.source, pending.target) {
      ReportTarget(runtime, pending, TargetChanged);
      return Verdict(true, false, Dispatch.NavigationAudits(Some(pending), Stale));
    }
    var arrived := Arrive(runtime, env, link.value.target, Nav.Default(),
                          runtime.broadcast.route.points + [pending.returnPoint]);
    return Verdict(arrived, false, Dispatch.NavigationAudits(Some(pending), if arrived then Succeeded else Failed));
  }

  method RejectNavigation(runtime: ProcessRuntime, pending: PendingNavigation) returns (verdict: Verdict)
    requires runtime.Valid() && ShowsTerminal(runtime)
    modifies runtime`pendingNavigation, runtime`notice, runtime.broadcast.terminals.Values
    ensures var rt := old(runtime.Value());
            Carries(Dispatch.RejectNavigation(rt, pending, ActiveTerminal(rt.broadcast).value), verdict,
                    runtime.Value())
  {
    SetNavigation(runtime, None, None);
    if pending.direction == Forward {
      ShowExecution(runtime, Some(Execution(Rejected, pending.commandId)));
    }
    return Verdict(true, false, Dispatch.NavigationAudits(Some(pending), Declined));
  }

  predicate CurrentNavigation(runtime: ProcessRuntime, id: string)
    reads runtime, runtime.broadcast
  {
    && runtime.pendingNavigation.Some? && runtime.pendingNavigation.value.requestId == id
    && runtime.broadcast != null && runtime.pendingNavigation.value.broadcastId == runtime.broadcast.id
    && var source := ActiveTerminalRuntime(runtime.broadcast);
       source != null && source.terminalId == runtime.pendingNavigation.value.source
  }

  method ResolveTerminalNavigation(runtime: ProcessRuntime, env: Env, request: string, approve: bool)
    returns (verdict: Verdict)
    requires runtime.Valid()
    modifies runtime.Repr()
    ensures Sealed(runtime)
    ensures Carries(Dispatch.ResolveNavigation(old(runtime.Value()), env, request, approve), verdict, runtime.Value())
  {
    hide SessionValues, TerminalValues, SessionsApart, TerminalsApart, Sealed, KeptOrAdded;
    SameIsSealed(runtime);
    ActiveReads(runtime.broadcast);
    var id := Text.Trim(request);
    if id == "" {
      return REFUSED;
    }
    if !CurrentNavigation(runtime, id) {
      var named := runtime.pendingNavigation.Some? && runtime.pendingNavigation.value.requestId == id;
      return Verdict(false, false, if named then Dispatch.NavigationAudits(runtime.pendingNavigation, Stale) else []);
    }
    verdict := AnswerNavigation(runtime, env, runtime.pendingNavigation.value, approve, runtime.Value());
    GrownIsSealed(runtime);
  }

  method AnswerNavigation(runtime: ProcessRuntime, env: Env, pending: PendingNavigation, approve: bool,
                          ghost rt: Runtime)
    returns (verdict: Verdict)
    requires runtime.Valid() && ShowsTerminal(runtime) && runtime.Value() == rt
    modifies runtime`pendingNavigation, runtime`notice, runtime.broadcast, runtime.broadcast.route
    modifies runtime.broadcast.terminals.Values, ContentTrees(runtime.broadcast.terminals),
             CommandTables(runtime.broadcast.terminals)
    ensures Grown(runtime)
    ensures Carries(Dispatch.AnswerNavigation(rt, env, pending, approve), verdict, runtime.Value())
  {
    if !approve {
      verdict := RejectNavigation(runtime, pending);
    } else if pending.direction == Return {
      verdict := ApproveReturn(runtime, env, pending, rt);
    } else {
      verdict := ApproveForward(runtime, env, pending, rt);
    }
  }

  // ---------------------------------------------------------------- group replacement

  method ReplaceTerminalGroups(runtime: ProcessRuntime, groups: seq<Group>, expected: nat, store: Dispatch.GroupStore)
    returns (verdict: Verdict)
    requires runtime.Valid()
    ensures Sealed(runtime)
    ensures Carries(Dispatch.ReplaceGroups(old(runtime.Value()), groups, expected, store), verdict, runtime.Value())
  {
    if expected != runtime.revision {
      return REFUSED;
    }
    var b := runtime.broadcast;
    var journey := if b == null then None
                   else Some(Journey(b.active, b.route.points, b.established, b.initialId, b.initialGroup,
                                     b.initialPosition));
    var ok := Route.ValidateTerminalGroups(journey, runtime.pendingNavigation, groups);
    RuntimeStays(runtime);
    return if ok && store == Dispatch.GroupsReplaced then ACCEPTED else REFUSED;
  }
}
