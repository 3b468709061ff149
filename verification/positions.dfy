/** Where players stand is always a place in the content they see: every checkpoint
    holds a well-formed position in its own tree. */
module Positions {
  import opened Domain
  import opened State
  import opened Changes
  import opened Sessions
  import opened Claims
  import opened Terminals
  import opened Dispatch
  import opened Coordinator
  import opened Catalogue
  import opened Invariants
  import opened Publication
  import Nav
  import Text

  predicate Placed(t: Terminal) {
    RootTree(t.tree) && Nav.WellFormed(t.nav, t.tree)
  }

  predicate AllPlaced(terminals: map<string, Terminal>) {
    forall id :: id in terminals ==> Placed(terminals[id])
  }

  predicate PositionsOk(rt: Runtime) {
    && (rt.broadcast.Some? ==> AllPlaced(rt.broadcast.value.terminals))
    && (rt.pendingSwitch.Some? && rt.pendingSwitch.value.target.Some? ==>
        RootTree(rt.pendingSwitch.value.target.value.tree))
  }

  predicate PositionsKept(change: Change) {
    !change.Reject? ==> PositionsOk(change.rt)
  }

  /** The document validator admits only trees that start at the root folder. */
  predicate RootedContent(op: Operation) {
    op.OnTerminal? ==>
      match op.terminal
      case RequestActivation(target) => RootTree(target.tree)
      case UpdateLiveTerminal(tree, intro) => RootTree(tree)
      case RefreshActiveTerminal(target) => RootTree(target.tree)
      case ResetFailedHack(target) => RootTree(target.tree)
      case _ => true
  }

  // ---------------------------------------------------------------- one checkpoint

  lemma CreatedIsPlaced(target: Target, board: Option<HackState>)
    requires RootTree(target.tree)
    ensures Placed(Created(target, board))
  {
    assert Nav.Walk(target.tree, []) == Some(target.tree);
    assert Nav.Default().path[1..] == [];
  }

  lemma UpdatedIsPlaced(t: Terminal, target: Target)
    requires RootTree(target.tree)
    ensures Placed(Updated(t, target)) && Placed(Reactivated(t, target))
  {
    Nav.RevalidateRepairs(t.nav, target.tree);
  }

  lemma OpenedIsPlaced(terminals: map<string, Terminal>, target: Target, board: Option<HackState>)
    requires RootTree(target.tree)
    ensures Placed(Opened(terminals, target, board))
  {
    CreatedIsPlaced(target, board);
    if target.terminalId in terminals {
      UpdatedIsPlaced(terminals[target.terminalId], target);
    }
  }

  /** The command selected for a request is exactly the one the navigation rules would
      open in the folder the players stand in. */
  lemma SelectedIsOpenable(t: Terminal, nodeId: string)
    requires Placed(t)
    ensures Selected(t, nodeId).Some? <==> nodeId != "" && Nav.HasChild(t.nav, t.tree, nodeId, Command)
    ensures Selected(t, nodeId).Some? ==>
              Selected(t, nodeId).value.id == nodeId && Selected(t, nodeId).value.kind == Command
  {
    if Selected(t, nodeId).Some? {
      Nav.ChildMatches(Nav.FolderAt(t.tree, t.nav.path).value.children, nodeId, Command);
    }
  }

  /** Approving a command, whichever way its result is stored, leaves exactly that
      command open in the folder it was chosen in. */
  lemma ApprovedIsOpen(t: Terminal, pending: PendingCommand, durable: Durable)
    requires Placed(t) && StillAuthored(t, pending)
    requires pending.mode == ChangeMode ==> durable.Stored? && durable.states.Some?
    ensures var after := Approved(t, pending, durable);
            && Placed(after)
            && after.nav == t.nav.(command := Some(pending.commandId))
            && after.execution == None
  {
    SelectedIsOpenable(t, pending.commandId);
  }

  lemma PlayedIsPlaced(t: Terminal, c: PlayerCommand, rules: Rules)
    requires Placed(t) && Play(t, c, rules).Some?
    ensures Placed(Play(t, c, rules).value)
  {
    Nav.ApplyKeepsWellFormed(t.nav, t.tree, ParseAction(c.action), c.nodeId);
  }

  // ---------------------------------------------------------------- frames

  // No checkpoint but those already there, and no other switch.
  predicate Unmoved(rt: Runtime, change: Change) {
    !change.Reject? ==>
      && (change.rt.broadcast.Some? && change.rt.broadcast.value.terminals != map[] ==>
            rt.broadcast.Some? && change.rt.broadcast.value.terminals == rt.broadcast.value.terminals)
      && (change.rt.pendingSwitch.Some? ==> change.rt.pendingSwitch == rt.pendingSwitch)
  }

  lemma UnmovedKeepsPositions(rt: Runtime, change: Change)
    requires PositionsOk(rt) && Unmoved(rt, change)
    ensures PositionsKept(change)
  {
  }

  lemma RefusalIsUnmoved(rt: Runtime, session: string, c: PlayerCommand, reason: Reason, limit: nat)
    ensures Unmoved(rt, Refuse(rt, session, c, reason, limit).change)
  {
  }

  lemma ForwardIsUnmoved(rt: Runtime, env: Env, session: string, t: Terminal, authored: ContentNode, c: PlayerCommand)
    requires rt.broadcast.Some? && authored.transition.Some?
    ensures Unmoved(rt, RequestForward(rt, env, session, t, authored, c).change)
  {
  }

  lemma ReturnIsUnmoved(rt: Runtime, env: Env, session: string, t: Terminal, c: PlayerCommand)
    requires rt.broadcast.Some? && rt.broadcast.value.route != []
    ensures Unmoved(rt, RequestReturn(rt, env, session, t, c).change)
  {
  }

  lemma TakenIsUnmoved(rt: Runtime, session: string, c: PlayerCommand, limit: nat, after: Runtime, audits: seq<Audit>)
    ensures Unmoved(after, Take(rt, session, c, limit, after, audits).change)
  {
  }

  lemma PutActiveIsPlaced(rt: Runtime, t: Terminal)
    requires PositionsOk(rt) && rt.broadcast.Some? && rt.broadcast.value.active.Some? && Placed(t)
    ensures PositionsOk(PutActive(rt, t))
  {
  }

  lemma ActiveIsPlaced(rt: Runtime)
    requires PositionsOk(rt) && ActiveTerminal(rt.broadcast).Some?
    ensures rt.broadcast.Some? && rt.broadcast.value.active.Some? && Placed(ActiveTerminal(rt.broadcast).value)
  {
  }

  // ---------------------------------------------------------------- terminal operations

  lemma ClearedIsPlaced(rt: Runtime)
    requires PositionsOk(rt)
    ensures PositionsOk(Cleared(rt))
  {
  }

  lemma SuspendedIsPlaced(terminals: map<string, Terminal>, id: string)
    requires AllPlaced(terminals)
    ensures AllPlaced(Suspend(terminals, id)) && AllPlaced(terminals - {id})
  {
  }

  lemma ActivateKeepsPositions(rt: Runtime, env: Env, target: Target)
    requires PositionsOk(rt) && RootTree(target.tree)
    ensures PositionsKept(Activate(rt, env, target))
  {
    ClearedIsPlaced(rt);
    if rt.broadcast.Some? {
      ActivatedIsPlaced(Cleared(rt), env, target);
    }
  }

  lemma ActivatedIsPlaced(rt: Runtime, env: Env, target: Target)
    requires PositionsOk(rt) && rt.broadcast.Some? && RootTree(target.tree)
    ensures PositionsOk(Activated(rt, env, target))
  {
    var b := rt.broadcast.value;
    OpenedIsPlaced(b.terminals, target, env.board);
    if b.active.Some? {
      SuspendedIsPlaced(b.terminals, b.active.value);
    }
  }

  lemma ClearKeepsPositions(rt: Runtime, id: string)
    requires PositionsOk(rt)
    ensures PositionsKept(ClearTerminal(rt, id))
  {
    ClearedIsPlaced(rt);
    if rt.broadcast.Some? && rt.broadcast.value.active.Some? {
      SuspendedIsPlaced(Cleared(rt).broadcast.value.terminals, rt.broadcast.value.active.value);
    }
  }

  lemma SwitchKeepsPositions(rt: Runtime, env: Env, id: string, choice: Choice)
    requires PositionsOk(rt)
    ensures PositionsKept(ResolveSwitch(rt, env, id, choice))
  {
    if SwitchCurrent(rt, id) && choice != Cancel {
      var pending := rt.pendingSwitch.value;
      var b := rt.broadcast.value;
      var left := if choice == Preserve then Suspend(b.terminals, pending.source) else b.terminals - {pending.source};
      SuspendedIsPlaced(b.terminals, pending.source);
      if pending.target.Some? {
        SwitchedIsPlaced(left, pending.target.value, env.board);
      }
    }
  }

  lemma SwitchedIsPlaced(left: map<string, Terminal>, target: Target, board: Option<HackState>)
    requires AllPlaced(left) && RootTree(target.tree)
    ensures var id := target.terminalId;
            AllPlaced(left[id := if id in left then Reactivated(left[id], target) else Created(target, board)])
  {
    CreatedIsPlaced(target, board);
    if target.terminalId in left {
      UpdatedIsPlaced(left[target.terminalId], target);
    }
  }

  lemma ContentKeepsPositions(rt: Runtime, env: Env, op: TerminalOp)
    requires PositionsOk(rt) && RootedContent(OnTerminal(op))
    requires op.UpdateLiveTerminal? || op.RefreshActiveTerminal? || op.ResetFailedHack? || op.ForceHackSuccess?
    ensures PositionsKept(ExecuteTerminal(rt, env, op))
  {
    var active := ActiveTerminal(rt.broadcast);
    if active.Some? {
      ActiveIsPlaced(rt);
      var t := active.value;
      match op {
        case UpdateLiveTerminal(tree, intro) =>
          UpdatedIsPlaced(t, Target(t.terminalId, t.terminalName, tree, t.commandStates, t.hackLevel,
                                    if intro.Some? then intro.value else t.introText));
        case RefreshActiveTerminal(target) =>
          UpdatedIsPlaced(DropStaleResult(t, target.commandStates),
                          target.(terminalId := Text.Trim(target.terminalId)));
        case ResetFailedHack(target) => CreatedIsPlaced(target.(terminalId := Text.Trim(target.terminalId)), env.board);
        case _ =>
      }
    }
  }

  lemma TerminalOpKeepsPositions(rt: Runtime, env: Env, op: TerminalOp)
    requires PositionsOk(rt) && RootedContent(OnTerminal(op))
    ensures PositionsKept(ExecuteTerminal(rt, env, op))
  {
    match op {
      case RequestActivation(target) => ActivateKeepsPositions(rt, env, target);
      case RequestClear => ClearKeepsPositions(rt, env.id);
      case ResolveTerminalSwitch(id, choice) => SwitchKeepsPositions(rt, env, id, choice);
      case _ => ContentKeepsPositions(rt, env, op);
    }
  }

  // ---------------------------------------------------------------- decisions

  lemma CommandKeepsPositions(rt: Runtime, request: string, approve: bool, durable: Durable)
    requires PositionsOk(rt)
    ensures PositionsKept(ResolveCommand(rt, request, approve, durable))
  {
    if CommandCurrent(rt) {
      ActiveIsPlaced(rt);
      var pending := rt.pendingCommand.value;
      var t := ActiveTerminal(rt.broadcast).value;
      if !approve {
        PutActiveIsPlaced(rt, t.(execution := Some(Execution(Rejected, pending.commandId))));
      } else if StillAuthored(t, pending) {
        ApprovalKeepsPositions(rt, request, durable);
      }
    }
  }

  lemma ApprovalKeepsPositions(rt: Runtime, request: string, durable: Durable)
    requires PositionsOk(rt) && CommandCurrent(rt)
    requires StillAuthored(ActiveTerminal(rt.broadcast).value, rt.pendingCommand.value)
    ensures PositionsKept(ResolveCommand(rt, request, true, durable))
  {
    ActiveIsPlaced(rt);
    var pending := rt.pendingCommand.value;
    var t := ActiveTerminal(rt.broadcast).value;
    if pending.mode == ChangeMode && !DurableSucceeds(durable, pending, Selected(t, pending.commandId).value) {
      SettledIsPlaced(rt, t.(execution := None), pending.controller);
    } else {
      ApprovedIsOpen(t, pending, durable);
      SettledIsPlaced(rt, Approved(t, pending, durable), pending.controller);
    }
  }

  lemma SettledIsPlaced(rt: Runtime, t: Terminal, session: string)
    requires PositionsOk(rt) && rt.broadcast.Some? && rt.broadcast.value.active.Some? && Placed(t)
    ensures PositionsOk(Settle(rt, t)) && PositionsOk(SetNotice(Settle(rt, t), session, true))
  {
    PutActiveIsPlaced(rt, t);
  }

  lemma ResetKeepsPositions(rt: Runtime, terminal: string, node: Option<string>, durable: Durable)
    requires PositionsOk(rt)
    ensures PositionsKept(ResetStates(rt, terminal, node, durable))
  {
  }

  lemma ArrivalIsPlaced(rt: Runtime, env: Env, target: Target, nav: NavState, route: seq<ReturnPoint>)
    requires PositionsOk(rt) && rt.broadcast.Some? && rt.broadcast.value.active.Some?
    requires RootTree(target.tree) && Nav.WellFormed(nav, target.tree)
    ensures PositionsOk(Arrive(rt, env, target, nav, route))
  {
    var b := rt.broadcast.value;
    SuspendedIsPlaced(b.terminals, b.active.value);
  }

  lemma LinkIsRooted(catalog: Catalog, source: string, commandId: string)
    requires ValidCatalog(catalog) && LookupTransition(catalog, source, commandId).Some?
    ensures ValidTarget(LookupTransition(catalog, source, commandId).value.target)
  {
    var command := FindNode(LookupTerminal(catalog, source).value.tree, commandId).value;
    FoundTerminal(catalog.terminals, command.transition.value);
  }

  lemma NavigationKeepsPositions(rt: Runtime, env: Env, request: string, approve: bool)
    requires PositionsOk(rt) && ValidCatalog(env.catalog)
    ensures PositionsKept(ResolveNavigation(rt, env, request, approve))
  {
    if NavigationCurrent(rt, Text.Trim(request)) {
      ActiveIsPlaced(rt);
      var pending := rt.pendingNavigation.value;
      if !approve {
        RejectionKeepsPositions(rt, pending);
      } else if pending.direction == Return {
        ReturnKeepsPositions(rt, env, pending);
      } else {
        ForwardKeepsPositions(rt, env, pending);
      }
    }
  }

  lemma RejectionKeepsPositions(rt: Runtime, pending: PendingNavigation)
    requires PositionsOk(rt) && ActiveTerminal(rt.broadcast).Some? && rt.broadcast.value.active.Some?
    ensures PositionsKept(RejectNavigation(rt, pending, ActiveTerminal(rt.broadcast).value))
  {
    var t := ActiveTerminal(rt.broadcast).value;
    ActiveIsPlaced(rt);
    PutActiveIsPlaced(rt.(pendingNavigation := None, notice := None),
                      t.(execution := Some(Execution(Rejected, pending.commandId))));
  }

  lemma ReturnKeepsPositions(rt: Runtime, env: Env, pending: PendingNavigation)
    requires PositionsOk(rt) && ValidCatalog(env.catalog) && rt.broadcast.Some? && rt.broadcast.value.active.Some?
    ensures PositionsKept(ApproveReturn(rt, env, pending))
  {
    var latest := LookupTerminal(env.catalog, pending.target);
    var route := rt.broadcast.value.route;
    if latest.Some? && route != [] {
      FoundTerminal(env.catalog.terminals, pending.target);
      var point := pending.returnPoint;
      var nav := Nav.Restored(latest.value.tree, point.folderId, point.ancestors);
      Nav.RestoreFollowsTheFolder(latest.value.tree, point.folderId, point.ancestors);
      ArrivalIsPlaced(rt, env, latest.value, nav, route[..|route| - 1]);
    }
  }

  lemma ForwardKeepsPositions(rt: Runtime, env: Env, pending: PendingNavigation)
    requires PositionsOk(rt) && ValidCatalog(env.catalog) && rt.broadcast.Some? && rt.broadcast.value.active.Some?
    ensures PositionsKept(ApproveForward(rt, env, pending))
  {
    var link := LookupTransition(env.catalog, pending.source, pending.commandId);
    if link.Some? {
      LinkIsRooted(env.catalog, pending.source, pending.commandId);
      CreatedIsPlaced(link.value.target, env.board);
      ArrivalIsPlaced(rt, env, link.value.target, Nav.Default(), rt.broadcast.value.route + [pending.returnPoint]);
    }
  }

  lemma DecisionKeepsPositions(rt: Runtime, env: Env, op: DecisionOp)
    requires PositionsOk(rt) && ValidCatalog(env.catalog)
    ensures PositionsKept(ExecuteDecision(rt, env, op))
  {
    match op {
      case ResolveCommandExecution(request, approve, durable) => CommandKeepsPositions(rt, request, approve, durable);
      case ResetCommandStates(terminal, node, durable) => ResetKeepsPositions(rt, terminal, node, durable);
      case ResolveTerminalNavigation(request, approve) => NavigationKeepsPositions(rt, env, request, approve);
      case ReplaceTerminalGroups(groups, revision, store) =>
    }
  }

  // ---------------------------------------------------------------- player actions

  lemma PlayKeepsPositions(rt: Runtime, env: Env, session: string, t: Terminal, c: PlayerCommand, rules: Rules)
    requires PositionsOk(rt) && Acting(rt, t)
    ensures PositionsKept(RequestPlay(rt, env, session, t, c, rules).change)
  {
    var played := Play(t, c, rules);
    if played.Some? {
      ActiveIsPlaced(rt);
      PlayedIsPlaced(t, c, rules);
      PutActiveIsPlaced(rt, played.value);
      var shown := PutActive(rt, played.value);
      var after := if ParseKind(c.kind) == Present then shown else SetNotice(shown, session, false);
      TakenIsUnmoved(rt, session, c, env.limit, after, []);
      UnmovedKeepsPositions(after, Take(rt, session, c, env.limit, after, []).change);
    } else {
      RefusalIsUnmoved(rt, session, c, InvalidAction, env.limit);
      UnmovedKeepsPositions(rt, Refuse(rt, session, c, InvalidAction, env.limit).change);
    }
  }

  lemma ActKeepsPositions(rt: Runtime, env: Env, session: string, t: Terminal, c: PlayerCommand, rules: Rules)
    requires PositionsOk(rt) && Acting(rt, t)
    ensures PositionsKept(Act(rt, env, session, t, c, rules).change)
  {
    if ReturnRequested(t, c, rt.broadcast.value.route) {
      ReturnIsUnmoved(rt, env, session, t, c);
      UnmovedKeepsPositions(rt, RequestReturn(rt, env, session, t, c).change);
    } else if !IsNavigation(c, OpenCommand) {
      PlayKeepsPositions(rt, env, session, t, c, rules);
    } else {
      OpenKeepsPositions(rt, env, session, t, c);
    }
  }

  lemma OpenKeepsPositions(rt: Runtime, env: Env, session: string, t: Terminal, c: PlayerCommand)
    requires PositionsOk(rt) && Acting(rt, t)
    ensures PositionsKept(RequestOpen(rt, env, session, t, c).change)
  {
    var authored := Selected(t, c.nodeId);
    RefusalIsUnmoved(rt, session, c, InvalidAction, env.limit);
    UnmovedKeepsPositions(rt, Refuse(rt, session, c, InvalidAction, env.limit).change);
    if authored.Some? {
      if authored.value.Behavior() == Transition {
        ForwardIsUnmoved(rt, env, session, t, authored.value, c);
        UnmovedKeepsPositions(rt, RequestForward(rt, env, session, t, authored.value, c).change);
      } else {
        RequestKeepsPositions(rt, env, session, t, authored.value, c);
      }
    }
  }

  lemma RequestKeepsPositions(rt: Runtime, env: Env, session: string, t: Terminal, authored: ContentNode,
                              c: PlayerCommand)
    requires PositionsOk(rt) && Acting(rt, t)
    ensures PositionsKept(RequestCommand(rt, env, session, t, authored, c).change)
  {
    ActiveIsPlaced(rt);
    var shown := t.(execution := Some(Execution(Awaiting, authored.id)));
    PutActiveIsPlaced(rt, shown);
    UnmovedKeepsPositions(PutActive(rt, shown), RequestCommand(rt, env, session, t, authored, c).change);
  }

  lemma DispatchKeepsPositions(rt: Runtime, env: Env, connection: string, c: PlayerCommand, rules: Rules)
    requires PositionsOk(rt)
    ensures PositionsKept(DispatchAction(rt, env, connection, c, rules).change)
  {
    var prepared := Prepare(rt, env, connection, c, rules);
    PrepareFacts(rt, env, connection, c, rules);
    if prepared.Go? {
      ActKeepsPositions(rt, env, prepared.session, prepared.terminal, c, rules);
    } else {
      UnmovedKeepsPositions(rt, prepared.reply.change);
    }
  }

  // ---------------------------------------------------------------- every operation

  lemma SetupKeepsPositions(rt: Runtime, env: Env, op: SetupOp)
    requires PositionsOk(rt)
    ensures PositionsKept(ExecuteSetup(rt, env, op))
  {
  }

  lemma SessionOpKeepsPositions(rt: Runtime, env: Env, op: SessionOp)
    requires PositionsOk(rt)
    ensures PositionsKept(ExecuteSession(rt, env, op))
  {
  }

  lemma ClaimOpKeepsPositions(rt: Runtime, op: ClaimOp)
    requires PositionsOk(rt)
    ensures PositionsKept(ExecuteClaim(rt, op))
  {
  }

  lemma OperationKeepsPositions(rt: Runtime, env: Env, op: Operation)
    requires PositionsOk(rt) && ValidCatalog(env.catalog) && RootedContent(op)
    ensures PositionsKept(Execute(rt, env, op))
  {
    match op {
      case OnTerminal(terminal) => TerminalOpKeepsPositions(rt, env, terminal);
      case Decide(decision) => DecisionKeepsPositions(rt, env, decision);
      case PlayerAction(connection, action, rules) => DispatchKeepsPositions(rt, env, connection, action, rules);
      case Setup(setup) => SetupKeepsPositions(rt, env, setup);
      case OnSession(session) => SessionOpKeepsPositions(rt, env, session);
      case OnClaim(claim) => ClaimOpKeepsPositions(rt, claim);
    }
  }

  /** In every reachable state the players stand in a folder that exists, and every
      open view belongs to it. */
  lemma {:induction false} RunKeepsPositions(states: seq<Coordinator>, steps: seq<Step>, limit: nat, n: nat)
    requires IsRun(states, steps, limit) && n < |states|
    requires forall step :: step in steps[..n] ==> ValidCatalog(step.env.catalog) && RootedContent(step.op)
    ensures PositionsOk(states[n].rt)
  {
    hide PositionsOk, ValidCatalog, RootedContent, Execute, Commit;
    if n == 0 {
      NobodyStands();
    } else {
      assert steps[n - 1] in steps[..n];
      assert forall step :: step in steps[..n - 1] ==> step in steps[..n];
      assert Linked(states, steps, n - 1, limit);
      RunKeepsPositions(states, steps, limit, n - 1);
      StepKeepsPositions(states[n - 1], steps[n - 1].env, steps[n - 1].op);
    }
  }

  lemma NobodyStands()
    ensures PositionsOk(Fresh())
  {
  }

  lemma StepKeepsPositions(s: Coordinator, env: Env, op: Operation)
    requires PositionsOk(s.rt) && ValidCatalog(env.catalog) && RootedContent(op)
    ensures PositionsOk(Commit(s, Execute(s.rt, env, op)).rt)
  {
    hide Execute;
    OperationKeepsPositions(s.rt, env, op);
    CommitFramesPositions(s, Execute(s.rt, env, op));
  }

  lemma CommitFramesPositions(s: Coordinator, change: Change)
    requires PositionsOk(s.rt) && PositionsKept(change)
    ensures PositionsOk(Commit(s, change).rt)
  {
  }
}
