/** A pending decision can be answered: some answer to it would be accepted. It stays so,
    except after the operations that forget it. */
module Answerable {
  import opened Domain
  import opened State
  import opened Changes
  import opened Sessions
  import opened Claims
  import opened Terminals
  import opened Dispatch
  import opened Coordinator
  import opened Catalogue
  import opened Invariants
  import opened Publication
  import Nav
  import Route
  import Text

  // ---------------------------------------------------------------- what an answer needs

  /** A command is answered against the terminal on the air and its present content. */
  predicate CommandAnswerable(rt: Runtime) {
    rt.pendingCommand.Some? ==>
      CommandCurrent(rt) && StillAuthored(ActiveTerminal(rt.broadcast).value, rt.pendingCommand.value)
  }

  predicate NavigationAnswerable(rt: Runtime) {
    rt.pendingNavigation.Some? ==> NavigationCurrent(rt, rt.pendingNavigation.value.requestId)
  }

  predicate SwitchAnswerable(rt: Runtime) {
    rt.pendingSwitch.Some? ==> SwitchCurrent(rt, rt.pendingSwitch.value.id)
  }

  /** None of the three decisions that may be waiting has lost what it is about. */
  predicate CanBeAnswered(rt: Runtime) {
    CommandAnswerable(rt) && NavigationAnswerable(rt) && SwitchAnswerable(rt)
  }

  // Identifiers come from the identifier source, which yields no blanks.
  predicate Named(id: string) {
    Text.Trim(id) == id != ""
  }

  /** A waiting command is answerable exactly if some answer to it is accepted. */
  lemma CommandAnswerableIff(rt: Runtime)
    requires rt.pendingCommand.Some? && Named(rt.pendingCommand.value.requestId)
    ensures CommandAnswerable(rt) <==> exists request, approve, durable ::
            ResolveCommand(rt, request, approve, durable).Accept?
  {
    if CommandAnswerable(rt) {
      assert ResolveCommand(rt, rt.pendingCommand.value.requestId, false, StoreFailed).Accept?;
    }
  }

  /** The same for a waiting link or return. */
  lemma NavigationAnswerableIff(rt: Runtime, env: Env)
    requires rt.pendingNavigation.Some? && Named(rt.pendingNavigation.value.requestId)
    ensures NavigationAnswerable(rt) <==> exists request, approve ::
            ResolveNavigation(rt, env, request, approve).Accept?
  {
    if NavigationAnswerable(rt) {
      assert ResolveNavigation(rt, env, rt.pendingNavigation.value.requestId, false).Accept?;
    }
  }

  /** And for a waiting switch: the very same guard stands before "cancel". */
  lemma SwitchAnswerableIff(rt: Runtime, env: Env)
    requires rt.pendingSwitch.Some? && rt.pendingSwitch.value.id != ""
    ensures SwitchAnswerable(rt) <==> exists id, choice :: ResolveSwitch(rt, env, id, choice).Accept?
  {
    if SwitchAnswerable(rt) {
      assert ResolveSwitch(rt, env, rt.pendingSwitch.value.id, Cancel).Accept?;
    }
  }

  // A switch is asked for only when it leads away from its source.
  predicate SwitchLeaves(rt: Runtime) {
    rt.pendingSwitch.Some? && rt.pendingSwitch.value.target.Some? ==>
      rt.pendingSwitch.value.target.value.terminalId != rt.pendingSwitch.value.source
  }

  predicate InOrder(rt: Runtime) {
    CanBeAnswered(rt) && SwitchLeaves(rt)
  }

  predicate AnswerKept(change: Change) {
    !change.Reject? ==> InOrder(change.rt)
  }

  // ---------------------------------------------------------------- what forgets a decision

  /** New content and command states offer the waiting command, unchanged, in the folder
      they leave the players in. */
  predicate StillOffers(t: Terminal, tree: ContentNode, states: map<string, CommandState>, pending: PendingCommand) {
    StillAuthored(t.(tree := tree, commandStates := states, nav := Nav.Revalidated(t.nav, tree)), pending)
  }

  /** The operation changes the waiting command itself. */
  predicate RewritesCommand(rt: Runtime, op: Operation) {
    && rt.pendingCommand.Some? && ActiveTerminal(rt.broadcast).Some?
    && var t, pending := ActiveTerminal(rt.broadcast).value, rt.pendingCommand.value;
       match op
       case OnTerminal(UpdateLiveTerminal(tree, intro)) => !StillOffers(t, tree, t.commandStates, pending)
       case OnTerminal(RefreshActiveTerminal(target)) => !StillOffers(t, target.tree, target.commandStates, pending)
       case Decide(ResetCommandStates(terminal, node, durable)) =>
         && Text.Trim(terminal) == t.terminalId && durable.Stored? && durable.states.Some?
         && !ResetDrops(rt.pendingCommand, t, TrimmedNode(node))
         && !StillAuthored(t.(commandStates := durable.states.value), pending)
       case _ => false
  }

  function TrimmedNode(node: Option<string>): Option<string> {
    if node.Some? then Some(Text.Trim(node.value)) else None
  }

  /** The link or return asked about, if approved, shows another terminal. */
  predicate LeadsAway(catalog: Catalog, pending: PendingNavigation) {
    var link := LookupTransition(catalog, pending.source, pending.commandId);
    var stop := LookupTerminal(catalog, pending.target);
    && SameGroup(catalog.groups, pending.source, pending.target)
    && (if pending.direction == Forward
        then link.Some? && link.value.target.terminalId == pending.target && pending.target != pending.source
        else
          stop.Some? && stop.value.terminalId == pending.returnPoint.terminalId
          && stop.value.terminalId != pending.source)
  }

  /** Resolving a switch away while a command or a link waits, resetting a failed puzzle or
      rewriting the command while it waits, and letting the players go elsewhere while a
      switch waits. */
  predicate Forgets(rt: Runtime, env: Env, op: Operation) {
    || RewritesCommand(rt, op)
    || match op
       case OnTerminal(ResolveTerminalSwitch(id, choice)) =>
         choice != Cancel && (rt.pendingCommand.Some? || rt.pendingNavigation.Some?)
       case OnTerminal(ResetFailedHack(target)) => rt.pendingCommand.Some?
       case Decide(ResolveTerminalNavigation(request, approve)) =>
         approve && rt.pendingSwitch.Some? && rt.pendingNavigation.Some? &&
             LeadsAway(env.catalog, rt.pendingNavigation.value)
       case _ => false
  }

  // ---------------------------------------------------------------- what does not matter

  // Everything a decision is answered against.
  predicate SameQuestion(rt: Runtime, after: Runtime) {
    && after.pendingCommand == rt.pendingCommand && after.pendingNavigation == rt.pendingNavigation
    && after.pendingSwitch == rt.pendingSwitch
    && (rt.broadcast.Some? <==> after.broadcast.Some?)
    && (rt.broadcast.Some? ==>
          && after.broadcast.value.id == rt.broadcast.value.id
          && after.broadcast.value.active == rt.broadcast.value.active
          && after.broadcast.value.terminals == rt.broadcast.value.terminals)
  }

  lemma SameQuestionSameAnswer(rt: Runtime, change: Change)
    requires InOrder(rt) && (!change.Reject? ==> SameQuestion(rt, change.rt))
    ensures AnswerKept(change)
  {
  }

  lemma ClaimOpAsksTheSame(rt: Runtime, op: ClaimOp)
    ensures var change := ExecuteClaim(rt, op); !change.Reject? ==> SameQuestion(rt, change.rt)
  {
  }

  lemma SessionOpAsksTheSame(rt: Runtime, env: Env, op: SessionOp)
    ensures var change := ExecuteSession(rt, env, op); !change.Reject? ==> SameQuestion(rt, change.rt)
  {
  }

  lemma SetupKeepsAnswer(rt: Runtime, env: Env, op: SetupOp)
    requires PendingOk(rt) && InOrder(rt)
    ensures AnswerKept(ExecuteSetup(rt, env, op))
  {
    if !op.StartBroadcast? && !op.EndBroadcast? {
      SameQuestionSameAnswer(rt, ExecuteSetup(rt, env, op));
    }
  }

  // ---------------------------------------------------------------- terminal operations

  lemma ActivateKeepsAnswer(rt: Runtime, env: Env, target: Target)
    requires Inv(rt, env.limit) && InOrder(rt)
    ensures AnswerKept(Activate(rt, env, target))
  {
  }

  lemma ClearKeepsAnswer(rt: Runtime, env: Env)
    requires Inv(rt, env.limit) && InOrder(rt)
    ensures AnswerKept(ClearTerminal(rt, env.id))
  {
  }

  lemma ContentKeepsAnswer(rt: Runtime, t: Terminal)
    requires InOrder(rt) && ActiveTerminal(rt.broadcast).Some? && rt.broadcast.value.active.Some?
    requires var now := ActiveTerminal(rt.broadcast).value;
             t.terminalId == now.terminalId && t.lifecycle == now.lifecycle && t.execution == now.execution
    ensures var after := PutActive(rt, t);
            && NavigationAnswerable(after) && SwitchAnswerable(after) && SwitchLeaves(after)
            && (CommandAnswerable(after) <==> (rt.pendingCommand.Some? ==> StillAuthored(t, rt.pendingCommand.value)))
  {
  }

  // What a command is answered against besides the terminal it belongs to.
  lemma SameOffer(t: Terminal, u: Terminal, pending: PendingCommand)
    requires t.tree == u.tree && t.commandStates == u.commandStates && t.nav.path == u.nav.path
    ensures StillAuthored(t, pending) <==> StillAuthored(u, pending)
  {
  }

  lemma UpdateForgetsIff(rt: Runtime, env: Env, tree: ContentNode, intro: Option<string>)
    requires InOrder(rt) && UpdateLive(rt, env, tree, intro).Accept?
    ensures SwitchLeaves(UpdateLive(rt, env, tree, intro).rt)
    ensures CanBeAnswered(UpdateLive(rt, env, tree, intro).rt) <==>
            !RewritesCommand(rt, OnTerminal(UpdateLiveTerminal(tree, intro)))
  {
    hide StillAuthored, InOrder, NavigationAnswerable, SwitchAnswerable;
    var before := ActiveTerminal(rt.broadcast).value;
    var t := ActiveTerminal(UpdateLive(rt, env, tree, intro).rt.broadcast).value;
    ContentKeepsAnswer(rt, t);
    if rt.pendingCommand.Some? {
      SameOffer(t, before.(tree := tree, commandStates := before.commandStates,
                           nav := Nav.Revalidated(before.nav, tree)),
                rt.pendingCommand.value);
    }
  }

  lemma RefreshForgetsIff(rt: Runtime, env: Env, target: Target)
    requires InOrder(rt) && Refresh(rt, env, target).Accept?
    ensures SwitchLeaves(Refresh(rt, env, target).rt)
    ensures CanBeAnswered(Refresh(rt, env, target).rt) <==>
            !RewritesCommand(rt, OnTerminal(RefreshActiveTerminal(target)))
  {
    hide StillAuthored, InOrder, NavigationAnswerable, SwitchAnswerable;
    var before := ActiveTerminal(rt.broadcast).value;
    var t := ActiveTerminal(Refresh(rt, env, target).rt.broadcast).value;
    ContentKeepsAnswer(rt, t);
    if rt.pendingCommand.Some? {
      SameOffer(t, before.(tree := target.tree, commandStates := target.commandStates,
                           nav := Nav.Revalidated(before.nav, target.tree)),
                rt.pendingCommand.value);
    }
  }

  lemma ForceKeepsAnswer(rt: Runtime)
    requires InOrder(rt)
    ensures AnswerKept(ForceHack(rt))
  {
    hide StillAuthored, NavigationAnswerable, SwitchAnswerable;
    if ForceHack(rt).Accept? {
      var t := ActiveTerminal(ForceHack(rt).rt.broadcast).value;
      ContentKeepsAnswer(rt, t);
      if rt.pendingCommand.Some? {
        SameOffer(t, ActiveTerminal(rt.broadcast).value, rt.pendingCommand.value);
      }
    }
  }

  lemma SwitchForgetsIff(rt: Runtime, env: Env, id: string, choice: Choice)
    requires Inv(rt, env.limit) && InOrder(rt) && ResolveSwitch(rt, env, id, choice).Accept?
    ensures SwitchLeaves(ResolveSwitch(rt, env, id, choice).rt)
    ensures CanBeAnswered(ResolveSwitch(rt, env, id, choice).rt) <==>
            !Forgets(rt, env, OnTerminal(ResolveTerminalSwitch(id, choice)))
  {
    hide StillAuthored;
  }

  lemma ResetHackForgetsIff(rt: Runtime, env: Env, target: Target)
    requires Inv(rt, env.limit) && InOrder(rt) && ResetHack(rt, env, target).Accept?
    ensures SwitchLeaves(ResetHack(rt, env, target).rt)
    ensures CanBeAnswered(ResetHack(rt, env, target).rt) <==> !Forgets(rt, env, OnTerminal(ResetFailedHack(target)))
  {
    hide StillAuthored;
  }

  lemma TerminalOpForgetsIff(rt: Runtime, env: Env, op: TerminalOp)
    requires Inv(rt, env.limit) && InOrder(rt) && ExecuteTerminal(rt, env, op).Accept?
    ensures SwitchLeaves(ExecuteTerminal(rt, env, op).rt)
    ensures CanBeAnswered(ExecuteTerminal(rt, env, op).rt) <==> !Forgets(rt, env, OnTerminal(op))
  {
    hide StillAuthored, StillOffers;
    match op {
      case RequestActivation(target) => ActivateKeepsAnswer(rt, env, target);
      case RequestClear => ClearKeepsAnswer(rt, env);
      case ResolveTerminalSwitch(id, choice) => SwitchForgetsIff(rt, env, id, choice);
      case ResetFailedHack(target) => ResetHackForgetsIff(rt, env, target);
      case UpdateLiveTerminal(tree, intro) => UpdateForgetsIff(rt, env, tree, intro);
      case RefreshActiveTerminal(target) => RefreshForgetsIff(rt, env, target);
      case ForceHackSuccess => ForceKeepsAnswer(rt);
    }
  }

  // ---------------------------------------------------------------- decisions

  lemma ResetElsewhere(rt: Runtime, id: string, node: Option<string>, states: map<string, CommandState>)
    requires InOrder(rt) && rt.broadcast.Some? && id in rt.broadcast.value.terminals
    requires OneActive(rt.broadcast.value.terminals, rt.broadcast.value.active)
    ensures var after := ResetCheckpoint(rt, id, node, states);
            && NavigationAnswerable(after) && SwitchAnswerable(after) && SwitchLeaves(after)
            && (rt.broadcast.value.active != Some(id) ==> CommandAnswerable(after))
  {
    hide StillAuthored, ResetAffects;
  }

  lemma CheckpointResetForgetsIff(rt: Runtime, id: string, node: Option<string>, states: map<string, CommandState>)
    requires InOrder(rt) && rt.broadcast.Some? && id in rt.broadcast.value.terminals
    requires OneActive(rt.broadcast.value.terminals, rt.broadcast.value.active)
    ensures var after := ResetCheckpoint(rt, id, node, states);
            && NavigationAnswerable(after) && SwitchAnswerable(after) && SwitchLeaves(after)
            && (CommandAnswerable(after) <==>
                  (rt.pendingCommand.Some? && rt.broadcast.value.active == Some(id)
                   && !ResetDrops(rt.pendingCommand, rt.broadcast.value.terminals[id], node)
                   ==> StillAuthored(rt.broadcast.value.terminals[id].(commandStates := states),
                                     rt.pendingCommand.value)))
  {
    hide StillAuthored, ResetAffects;
    var t := rt.broadcast.value.terminals[id];
    ResetElsewhere(rt, id, node, states);
    if rt.pendingCommand.Some? && rt.broadcast.value.active == Some(id) {
      SameOffer(ResetTerminal(t, node, states), t.(commandStates := states), rt.pendingCommand.value);
    }
  }

  lemma ResetStatesForgetsIff(rt: Runtime, env: Env, terminal: string, node: Option<string>, durable: Durable)
    requires Inv(rt, env.limit) && InOrder(rt) && ResetStates(rt, terminal, node, durable).Accept?
    ensures SwitchLeaves(ResetStates(rt, terminal, node, durable).rt)
    ensures CanBeAnswered(ResetStates(rt, terminal, node, durable).rt) <==>
            !Forgets(rt, env, Decide(ResetCommandStates(terminal, node, durable)))
  {
    hide StillAuthored, ResetCheckpoint, NavigationAnswerable, SwitchAnswerable, ResetDrops;
    var id := Text.Trim(terminal);
    if rt.broadcast.Some? && id in rt.broadcast.value.terminals {
      CheckpointResetForgetsIff(rt, id, TrimmedNode(node), durable.states.value);
    }
  }

  lemma CommandKeepsAnswer(rt: Runtime, request: string, approve: bool, durable: Durable)
    requires PendingOk(rt) && InOrder(rt)
    ensures AnswerKept(ResolveCommand(rt, request, approve, durable))
  {
    hide AnswerCommand, StillAuthored;
    if CommandCurrent(rt) && rt.pendingCommand.value.requestId == Text.Trim(request) {
      CommandAnswerKeepsAnswer(rt, rt.pendingCommand.value, ActiveTerminal(rt.broadcast).value, approve, durable);
    }
  }

  lemma CommandAnswerKeepsAnswer(rt: Runtime, pending: PendingCommand, t: Terminal, approve: bool, durable: Durable)
    requires PendingOk(rt) && InOrder(rt) && rt.pendingCommand == Some(pending) && CommandCurrent(rt)
    requires ActiveTerminal(rt.broadcast) == Some(t)
    ensures AnswerKept(AnswerCommand(rt, pending, t, approve, durable))
  {
    hide StillAuthored, Approved, Settle, CommandCurrent, DurableMatches;
    SettledInOrder(rt, t.(execution := Some(Execution(Rejected, pending.commandId))));
    SettledInOrder(rt, t.(execution := None));
    if pending.mode == ChangeMode ==> durable.Stored? && durable.states.Some? {
      SettledInOrder(rt, Approved(t, pending, durable));
    }
  }

  lemma SettledInOrder(rt: Runtime, t: Terminal)
    requires PendingOk(rt) && InOrder(rt) && rt.pendingCommand.Some?
    requires rt.broadcast.Some? && rt.broadcast.value.active.Some?
    ensures var settled := Settle(rt, t);
            InOrder(settled) && settled.pendingCommand == None && settled.pendingNavigation == None
  {
    hide StillAuthored;
  }

  lemma NavigationForgetsIff(rt: Runtime, env: Env, request: string, approve: bool)
    requires Inv(rt, env.limit) && InOrder(rt) && ResolveNavigation(rt, env, request, approve).Accept?
    ensures SwitchLeaves(ResolveNavigation(rt, env, request, approve).rt)
    ensures CanBeAnswered(ResolveNavigation(rt, env, request, approve).rt) <==>
            !Forgets(rt, env, Decide(ResolveTerminalNavigation(request, approve)))
  {
    NavigationAnswerForgetsIff(rt, env, rt.pendingNavigation.value, approve);
  }

  lemma NavigationAnswerForgetsIff(rt: Runtime, env: Env, pending: PendingNavigation, approve: bool)
    requires Inv(rt, env.limit) && InOrder(rt) && rt.pendingNavigation == Some(pending)
    requires rt.broadcast.Some? && rt.broadcast.value.active.Some? && ActiveTerminal(rt.broadcast).Some?
    requires AnswerNavigation(rt, env, pending, approve).Accept?
    ensures var after := AnswerNavigation(rt, env, pending, approve).rt;
            && SwitchLeaves(after)
            && (CanBeAnswered(after) <==> !(approve && rt.pendingSwitch.Some? && LeadsAway(env.catalog, pending)))
  {
    hide ApproveReturn, ApproveForward, StillAuthored, LeadsAway;
    if approve && pending.direction == Return {
      ReturnForgetsIff(rt, env, pending);
    } else if approve {
      ForwardForgetsIff(rt, env, pending);
    }
  }

  lemma ReturnForgetsIff(rt: Runtime, env: Env, pending: PendingNavigation)
    requires Inv(rt, env.limit) && InOrder(rt) && rt.pendingNavigation == Some(pending) && pending.direction == Return
    requires rt.broadcast.Some? && rt.broadcast.value.active.Some? && ApproveReturn(rt, env, pending).Accept?
    ensures var after := ApproveReturn(rt, env, pending).rt;
            && SwitchLeaves(after)
            && (CanBeAnswered(after) <==> !(rt.pendingSwitch.Some? && LeadsAway(env.catalog, pending)))
  {
    hide Travel, StillAuthored, Nav.Restored;
  }

  lemma ForwardForgetsIff(rt: Runtime, env: Env, pending: PendingNavigation)
    requires Inv(rt, env.limit) && InOrder(rt) && rt.pendingNavigation == Some(pending) && pending.direction == Forward
    requires rt.broadcast.Some? && rt.broadcast.value.active.Some? && ApproveForward(rt, env, pending).Accept?
    ensures var after := ApproveForward(rt, env, pending).rt;
            && SwitchLeaves(after)
            && (CanBeAnswered(after) <==> !(rt.pendingSwitch.Some? && LeadsAway(env.catalog, pending)))
  {
    hide Travel, StillAuthored;
  }

  lemma DecisionForgetsIff(rt: Runtime, env: Env, op: DecisionOp)
    requires Inv(rt, env.limit) && InOrder(rt) && !ExecuteDecision(rt, env, op).Reject?
    ensures SwitchLeaves(ExecuteDecision(rt, env, op).rt)
    ensures CanBeAnswered(ExecuteDecision(rt, env, op).rt) <==> !Forgets(rt, env, Decide(op))
  {
    match op {
      case ResolveCommandExecution(request, approve, durable) => CommandKeepsAnswer(rt, request, approve, durable);
      case ResetCommandStates(terminal, node, durable) => ResetStatesForgetsIff(rt, env, terminal, node, durable);
      case ResolveTerminalNavigation(request, approve) => NavigationForgetsIff(rt, env, request, approve);
      case ReplaceTerminalGroups(groups, revision, store) =>
    }
  }

  // ---------------------------------------------------------------- player actions

  lemma RefusalKeepsAnswer(rt: Runtime, session: string, c: PlayerCommand, reason: Reason, limit: nat)
    requires InOrder(rt)
    ensures AnswerKept(Refuse(rt, session, c, reason, limit).change)
  {
    SameQuestionSameAnswer(rt, Refuse(rt, session, c, reason, limit).change);
  }

  lemma TakenKeepsAnswer(rt: Runtime, session: string, c: PlayerCommand, limit: nat, after: Runtime, audits: seq<Audit>)
    requires InOrder(after)
    ensures AnswerKept(Take(rt, session, c, limit, after, audits).change)
  {
    SameQuestionSameAnswer(after, Take(rt, session, c, limit, after, audits).change);
  }

  lemma SelectedIsNamed(t: Terminal, nodeId: string)
    requires Selected(t, nodeId).Some?
    ensures Selected(t, nodeId).value.id == nodeId
  {
    Nav.ChildMatches(Nav.Walk(t.tree, t.nav.path[1..]).value.children, nodeId, Command);
  }

  lemma OpenKeepsAnswer(rt: Runtime, env: Env, session: string, t: Terminal, c: PlayerCommand)
    requires Inv(rt, env.limit) && InOrder(rt) && Acting(rt, t)
    ensures AnswerKept(RequestOpen(rt, env, session, t, c).change)
  {
    RefusalKeepsAnswer(rt, session, c, InvalidAction, env.limit);
    var authored := Selected(t, c.nodeId);
    if authored.Some? {
      SelectedIsNamed(t, c.nodeId);
      match authored.value.Behavior() {
        case Transition => ForwardKeepsAnswer(rt, env, session, t, authored.value, c);
        case Invalid =>
        case _ => CommandRequestKeepsAnswer(rt, env, session, t, authored.value, c);
      }
    }
  }

  lemma ForwardKeepsAnswer(rt: Runtime, env: Env, session: string, t: Terminal, authored: ContentNode, c: PlayerCommand)
    requires Inv(rt, env.limit) && InOrder(rt) && Acting(rt, t) && authored.transition.Some?
    ensures AnswerKept(RequestForward(rt, env, session, t, authored, c).change)
  {
    if LinkCurrent(env.catalog, t, authored) {
      var link := LookupTransition(env.catalog, t.terminalId, authored.id).value;
      var pending := ForwardDecision(rt, session, t, authored, link.target, env.id);
      TakenKeepsAnswer(rt, session, c, env.limit, rt.(pendingNavigation := Some(pending), notice := None),
                       [Audit(RequestReceived, Accepted, pending.requestId, TransitionMode)]);
    } else {
      SameQuestionSameAnswer(rt, RequestForward(rt, env, session, t, authored, c).change);
    }
  }

  lemma RequestIsAuthored(t: Terminal, authored: ContentNode, pending: PendingCommand)
    requires Selected(t, pending.commandId) == Some(authored)
    requires authored.Behavior() == Ordinary || authored.Behavior() == Changing
    requires pending.commandName == DisplayedName(t, authored) && pending.mode == ModeOf(t, authored)
    requires pending.confirmationText == ConfirmationText(authored)
    ensures StillAuthored(t, pending)
  {
  }

  lemma CommandRequestKeepsAnswer(rt: Runtime, env: Env, session: string, t: Terminal, authored: ContentNode,
                                  c: PlayerCommand)
    requires Inv(rt, env.limit) && InOrder(rt) && Acting(rt, t)
    requires Selected(t, authored.id) == Some(authored) &&
             (authored.Behavior() == Ordinary || authored.Behavior() == Changing)
    ensures AnswerKept(RequestCommand(rt, env, session, t, authored, c).change)
  {
    hide StillAuthored, Selected;
    var pending := PendingCommand(env.id, rt.broadcast.value.id, t.terminalId, authored.id, DisplayedName(t, authored),
                                  ModeOf(t, authored), ConfirmationText(authored), session);
    var waiting := t.(execution := Some(Execution(Awaiting, authored.id)));
    var shown := PutActive(rt, waiting).(pendingCommand := Some(pending));
    RequestIsAuthored(t, authored, pending);
    SameOffer(t, waiting, pending);
    assert InOrder(shown);
    SameQuestionSameAnswer(shown, RequestCommand(rt, env, session, t, authored, c).change);
  }

  lemma PlayKeepsAnswer(rt: Runtime, env: Env, session: string, t: Terminal, c: PlayerCommand, rules: Rules)
    requires InOrder(rt) && Acting(rt, t)
    ensures AnswerKept(RequestPlay(rt, env, session, t, c, rules).change)
  {
    var played := Play(t, c, rules);
    RefusalKeepsAnswer(rt, session, c, InvalidAction, env.limit);
    if played.Some? {
      var shown := PutActive(rt, played.value);
      TakenKeepsAnswer(rt, session, c, env.limit,
                       if ParseKind(c.kind) == Present then shown else SetNotice(shown, session, false), []);
    }
  }

  lemma ReturnKeepsAnswer(rt: Runtime, env: Env, session: string, t: Terminal, c: PlayerCommand)
    requires Inv(rt, env.limit) && InOrder(rt) && Acting(rt, t) && rt.broadcast.value.route != []
    ensures AnswerKept(RequestReturn(rt, env, session, t, c).change)
  {
    RefusalKeepsAnswer(rt, session, c, InvalidAction, env.limit);
  }

  lemma DispatchKeepsAnswer(rt: Runtime, env: Env, connection: string, c: PlayerCommand, rules: Rules)
    requires Inv(rt, env.limit) && InOrder(rt)
    ensures AnswerKept(DispatchAction(rt, env, connection, c, rules).change)
  {
    var prepared := Prepare(rt, env, connection, c, rules);
    PrepareFacts(rt, env, connection, c, rules);
    if prepared.Stop? {
      if prepared.reply.change.Persist? {
        RefusalKeepsAnswer(rt, Owner(rt, connection).value, c, prepared.reply.result.reason, env.limit);
      }
    } else {
      var t := prepared.terminal;
      if ReturnRequested(t, c, rt.broadcast.value.route) {
        ReturnKeepsAnswer(rt, env, prepared.session, t, c);
      } else if !IsNavigation(c, OpenCommand) {
        PlayKeepsAnswer(rt, env, prepared.session, t, c, rules);
      } else {
        OpenKeepsAnswer(rt, env, prepared.session, t, c);
      }
    }
  }

  // ---------------------------------------------------------------- every operation

  /** An accepted operation leaves every pending decision answerable exactly when it is
      not one of those that forget it. */
  lemma AnswerableIff(rt: Runtime, env: Env, op: Operation)
    requires Inv(rt, env.limit) && CanBeAnswered(rt) && SwitchLeaves(rt) && !Execute(rt, env, op).Reject?
    ensures SwitchLeaves(Execute(rt, env, op).rt)
    ensures CanBeAnswered(Execute(rt, env, op).rt) <==> !Forgets(rt, env, op)
  {
    match op {
      case Setup(setup) => SetupKeepsAnswer(rt, env, setup);
      case OnSession(session) =>
        SessionOpAsksTheSame(rt, env, session);
        SameQuestionSameAnswer(rt, ExecuteSession(rt, env, session));
      case OnClaim(claim) =>
        ClaimOpAsksTheSame(rt, claim);
        SameQuestionSameAnswer(rt, ExecuteClaim(rt, claim));
      case OnTerminal(terminal) => TerminalOpForgetsIff(rt, env, terminal);
      case Decide(decision) => DecisionForgetsIff(rt, env, decision);
      case PlayerAction(connection, action, rules) => DispatchKeepsAnswer(rt, env, connection, action, rules);
    }
  }

  /** A forgotten command or link blocks everyone: no answer to it is accepted and no
      player gets through. A forgotten switch cannot even be cancelled. */
  lemma ForgottenBlocks(rt: Runtime, env: Env)
    requires PendingOk(rt)
    ensures !CommandAnswerable(rt) || !NavigationAnswerable(rt) ==>
              && (forall request, approve, durable :: ResolveCommand(rt, request, approve, durable).Reject?)
              && (forall request, approve :: ResolveNavigation(rt, env, request, approve).Reject?)
              && (forall connection, c, rules :: !DispatchAction(rt, env, connection, c, rules).change.Accept?)
    ensures !SwitchAnswerable(rt) ==> forall id, choice :: ResolveSwitch(rt, env, id, choice).Reject?
  {
    if !CommandAnswerable(rt) || !NavigationAnswerable(rt) {
      forall connection, c, rules ensures !DispatchAction(rt, env, connection, c, rules).change.Accept? {
        PrepareFacts(rt, env, connection, c, rules);
      }
    }
  }

  /** An answerable command request can always be declined, and declining frees the
      players. */
  lemma CurrentCanBeDeclined(rt: Runtime, request: string, durable: Durable)
    requires CommandAnswerable(rt) && rt.pendingCommand.Some?
    requires Text.Trim(request) == rt.pendingCommand.value.requestId != ""
    ensures var change := ResolveCommand(rt, request, false, durable);
            change.Accept? && change.rt.pendingCommand.None?
  {
  }

  // ---------------------------------------------------------------- what drops a forgotten decision

  /** The operations, if accepted, after which a forgotten command waits no more. */
  predicate DropsCommand(rt: Runtime, op: Operation) {
    match op
    case Setup(EndBroadcast) => true
    case OnTerminal(RequestActivation(target)) => true
    case OnTerminal(RequestClear) => true
    case Decide(ResetCommandStates(terminal, node, durable)) =>
      && rt.broadcast.Some? && Text.Trim(terminal) in rt.broadcast.value.terminals
      && ResetDrops(rt.pendingCommand, rt.broadcast.value.terminals[Text.Trim(terminal)], TrimmedNode(node))
    case _ => false
  }

  predicate DropsNavigation(op: Operation) {
    op == Setup(EndBroadcast) || op == OnTerminal(RequestClear) || (op.OnTerminal? && op.terminal.RequestActivation?)
  }

  // Clearing an empty screen, accepted to clear a notice or a route, leaves the switch.
  predicate DropsSwitch(rt: Runtime, op: Operation) {
    || op == Setup(EndBroadcast)
    || (op.OnTerminal? && op.terminal.RequestActivation?)
    || (op == OnTerminal(RequestClear) && rt.broadcast.Some? && rt.broadcast.value.active.Some?)
  }

  // What an operation does to the three waiting decisions, if they are forgotten.
  ghost predicate EndsForgotten(rt: Runtime, op: Operation, change: Change) {
    !change.Reject? ==>
      && (!CommandAnswerable(rt) ==> (change.rt.pendingCommand != rt.pendingCommand <==> DropsCommand(rt, op)))
      && (!NavigationAnswerable(rt) ==> (change.rt.pendingNavigation != rt.pendingNavigation <==> DropsNavigation(op)))
      && (!SwitchAnswerable(rt) ==> (change.rt.pendingSwitch != rt.pendingSwitch <==> DropsSwitch(rt, op)))
  }

  lemma TerminalOpEndsForgotten(rt: Runtime, env: Env, op: TerminalOp)
    requires Inv(rt, env.limit)
    ensures EndsForgotten(rt, OnTerminal(op), ExecuteTerminal(rt, env, op))
  {
    hide StillAuthored, Opened, Updated, Reactivated, Created, Hidden, LeftBehind, ShownKept;
    match op {
      case RequestActivation(target) => ActivationEndsForgotten(rt, env, target);
      case RequestClear => ClearingEndsForgotten(rt, env);
      case _ => OthersLeaveForgotten(rt, env, op);
    }
  }

  lemma ActivationEndsForgotten(rt: Runtime, env: Env, target: Target)
    requires Inv(rt, env.limit)
    ensures EndsForgotten(rt, OnTerminal(RequestActivation(target)), Activate(rt, env, target))
  {
    hide StillAuthored, ShownFirst;
  }

  lemma ClearingEndsForgotten(rt: Runtime, env: Env)
    requires Inv(rt, env.limit)
    ensures EndsForgotten(rt, OnTerminal(RequestClear), ClearTerminal(rt, env.id))
  {
    hide StillAuthored, Hidden;
  }

  lemma OthersLeaveForgotten(rt: Runtime, env: Env, op: TerminalOp)
    requires Inv(rt, env.limit) && !op.RequestActivation? && !op.RequestClear?
    ensures EndsForgotten(rt, OnTerminal(op), ExecuteTerminal(rt, env, op))
  {
    hide StillAuthored, Updated, Renewed, Created, LeftBehind, ShownKept;
  }

  lemma DecisionEndsForgotten(rt: Runtime, env: Env, op: DecisionOp)
    requires Inv(rt, env.limit)
    ensures EndsForgotten(rt, Decide(op), ExecuteDecision(rt, env, op))
  {
    match op {
      case ResolveCommandExecution(request, approve, durable) =>
        CommandAnswerEndsForgotten(rt, request, approve, durable);
      case ResetCommandStates(terminal, node, durable) => ResetEndsForgotten(rt, terminal, node, durable);
      case ResolveTerminalNavigation(request, approve) => NavigationEndsForgotten(rt, env, request, approve);
      case ReplaceTerminalGroups(groups, revision, store) =>
    }
  }

  lemma CommandAnswerEndsForgotten(rt: Runtime, request: string, approve: bool, durable: Durable)
    requires PendingOk(rt)
    ensures EndsForgotten(rt, Decide(ResolveCommandExecution(request, approve, durable)),
                          ResolveCommand(rt, request, approve, durable))
  {
    hide Approved, DurableSucceeds;
  }

  lemma ResetEndsForgotten(rt: Runtime, terminal: string, node: Option<string>, durable: Durable)
    requires PendingOk(rt)
    ensures EndsForgotten(rt, Decide(ResetCommandStates(terminal, node, durable)),
                          ResetStates(rt, terminal, node, durable))
  {
    hide StillAuthored, CommandCurrent, NavigationCurrent, SwitchCurrent, ResetAccepted, ResetTerminal;
  }

  lemma NavigationEndsForgotten(rt: Runtime, env: Env, request: string, approve: bool)
    requires PendingOk(rt)
    ensures EndsForgotten(rt, Decide(ResolveTerminalNavigation(request, approve)),
                          ResolveNavigation(rt, env, request, approve))
  {
    hide StillAuthored, Travel, Nav.Restored, Route.ValidReturn;
  }

  // An admitted action leaves a waiting switch alone.
  lemma ActLeavesDecisions(rt: Runtime, env: Env, session: string, t: Terminal, c: PlayerCommand, rules: Rules)
    requires rt.broadcast.Some? && rt.broadcast.value.active.Some?
    ensures Act(rt, env, session, t, c, rules).change.rt.pendingSwitch == rt.pendingSwitch
    ensures !Act(rt, env, session, t, c, rules).change.Reject?
  {
    hide StillAuthored, Play, Selected, Route.ValidReturn, LinkCurrent, Sessions.Stored;
  }

  lemma ActionEndsForgotten(rt: Runtime, env: Env, connection: string, c: PlayerCommand, rules: Rules)
    requires Inv(rt, env.limit)
    ensures EndsForgotten(rt, PlayerAction(connection, c, rules), DispatchAction(rt, env, connection, c, rules).change)
  {
    hide StillAuthored, CommandCurrent, NavigationCurrent, SwitchCurrent, Act;
    PrepareFacts(rt, env, connection, c, rules);
    var prepared := Prepare(rt, env, connection, c, rules);
    if prepared.Go? {
      ActLeavesDecisions(rt, env, prepared.session, prepared.terminal, c, rules);
    }
  }

  /** Exactly these operations, when accepted, end the wait for a forgotten decision. */
  lemma ForgottenEndsIff(rt: Runtime, env: Env, op: Operation)
    requires Inv(rt, env.limit) && !Execute(rt, env, op).Reject?
    ensures !CommandAnswerable(rt) ==>
              (Execute(rt, env, op).rt.pendingCommand != rt.pendingCommand <==> DropsCommand(rt, op))
    ensures !NavigationAnswerable(rt) ==>
              (Execute(rt, env, op).rt.pendingNavigation != rt.pendingNavigation <==> DropsNavigation(op))
    ensures !SwitchAnswerable(rt) ==>
              (Execute(rt, env, op).rt.pendingSwitch != rt.pendingSwitch <==> DropsSwitch(rt, op))
  {
    hide CommandAnswerable, NavigationAnswerable, SwitchAnswerable;
    assert EndsForgotten(rt, op, Execute(rt, env, op)) by {
      match op {
        case Setup(setup) => SetupEndsForgotten(rt, env, setup);
        case OnSession(session) => SessionOpAsksTheSame(rt, env, session);
        case OnClaim(claim) => ClaimOpAsksTheSame(rt, claim);
        case OnTerminal(terminal) => TerminalOpEndsForgotten(rt, env, terminal);
        case Decide(decision) => DecisionEndsForgotten(rt, env, decision);
        case PlayerAction(connection, action, rules) => ActionEndsForgotten(rt, env, connection, action, rules);
      }
    }
  }

  lemma SetupEndsForgotten(rt: Runtime, env: Env, op: SetupOp)
    requires Inv(rt, env.limit)
    ensures EndsForgotten(rt, Setup(op), ExecuteSetup(rt, env, op))
  {
    hide StillAuthored;
  }

  /** Which of them are accepted: ending the broadcast and showing a named terminal that
      can be delivered always, clearing the screen only if there is something on it, or a
      route, a waiting link or a notice to clear. */
  lemma RecoveryAcceptedIff(rt: Runtime, env: Env, target: Target)
    requires Inv(rt, env.limit) && rt.broadcast.Some?
    ensures Execute(rt, env, Setup(EndBroadcast)).Accept?
    ensures !Text.Blank(target.terminalId) && env.delivered ==>
            Execute(rt, env, OnTerminal(RequestActivation(target))).Accept?
    ensures Execute(rt, env, OnTerminal(RequestClear)).Accept? <==>
              rt.broadcast.value.active.Some? || NavigationToClear(rt)
  {
  }

  // ---------------------------------------------------------------- whole runs

  predicate Attentive(states: seq<Coordinator>, steps: seq<Step>, i: nat)
    requires |states| == |steps| + 1 && i < |steps|
  {
    !Forgets(states[i].rt, steps[i].env, steps[i].op)
  }

  /** In every run without the forgetful operations each pending decision, of all three
      kinds, can be answered. */
  lemma {:induction false} RunStaysAnswerable(states: seq<Coordinator>, steps: seq<Step>, limit: nat, n: nat)
    requires IsRun(states, steps, limit) && limit >= 1 && n < |states|
    requires forall i :: 0 <= i < n ==> Attentive(states, steps, i)
    ensures CanBeAnswered(states[n].rt) && SwitchLeaves(states[n].rt)
  {
    if n > 0 {
      RunStaysAnswerable(states, steps, limit, n - 1);
      RunKeepsInv(states, steps, limit, n - 1);
      assert Linked(states, steps, n - 1, limit) && Attentive(states, steps, n - 1);
      StepStaysAnswerable(states[n - 1], steps[n - 1].env, steps[n - 1].op);
    }
  }

  lemma StepStaysAnswerable(s: Coordinator, env: Env, op: Operation)
    requires Inv(s.rt, env.limit) && InOrder(s.rt) && !Forgets(s.rt, env, op)
    ensures InOrder(Commit(s, Execute(s.rt, env, op)).rt)
  {
    var change := Execute(s.rt, env, op);
    if !change.Reject? {
      AnswerableIff(s.rt, env, op);
    }
    CommitFramesAnswer(s, change);
  }

  lemma CommitFramesAnswer(s: Coordinator, change: Change)
    requires InOrder(s.rt) && AnswerKept(change)
    ensures InOrder(Commit(s, change).rt)
  {
  }
}
