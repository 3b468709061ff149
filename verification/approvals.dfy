/** What the players have to ask the Overseer for, what exactly is asked, and what the
    answer does. */
module Approvals {
  import opened Domain
  import opened State
  import opened Changes
  import opened Sessions
  import opened Claims
  import opened Catalogue
  import opened Terminals
  import opened Dispatch
  import opened Coordinator
  import opened Invariants
  import opened Positions
  import opened Checkpoints
  import opened Visits
  import opened Actions
  import Homeward
  import Nav
  import Route
  import Text

  // ---------------------------------------------------------------- what is asked

  /** The command a request names, in the folder the players stand in. */
  predicate Offers(t: Terminal, nodeId: string, authored: ContentNode) {
    var folder := Nav.FolderAt(t.tree, t.nav.path);
    nodeId != "" && folder.Some? && Nav.Child(folder.value, nodeId, Command) == Some(authored)
  }

  lemma OfferedIsSelected(t: Terminal, nodeId: string, authored: ContentNode)
    requires Placed(t)
    ensures Offers(t, nodeId, authored) <==> Selected(t, nodeId) == Some(authored)
    ensures Offers(t, nodeId, authored) ==> authored.id == nodeId
  {
    SelectedIsOpenable(t, nodeId);
  }

  /** Only the command can be asked for, completed under its new name, with the text the
      author wrote for it. */
  predicate AsksToRun(pending: PendingCommand, b: Broadcast, session: string, t: Terminal, authored: ContentNode) {
    && pending.broadcastId == b.id && pending.terminalId == t.terminalId && pending.controller == session
    && pending.commandId == authored.id
    && pending.commandName == (if authored.id in t.commandStates then t.commandStates[authored.id].completedName
                               else authored.name)
    && pending.confirmationText == (if authored.stateChange.Some? then authored.stateChange.value.confirmationText
                                    else "Выполнить команду?")
    && (pending.mode == OrdinaryMode <==> authored.stateChange.None?)
    && (pending.mode == ChangeMode <==> authored.stateChange.Some? && authored.id !in t.commandStates)
  }

  /** The Overseer is asked, the command is shown as awaited, and nothing else happens. */
  ghost predicate AskedToRun(rt: Runtime, env: Env, session: string, reply: Reply, requestId: string, t: Terminal,
                             authored: ContentNode)
    requires rt.broadcast.Some?
  {
    && reply.change.Accept? && reply.result == ActionResult(requestId, true, AcceptedAction, rt.revision + 1)
    && reply.change.rt.pendingCommand.Some?
    && var pending := reply.change.rt.pendingCommand.value;
       && pending.requestId == env.id && AsksToRun(pending, rt.broadcast.value, session, t, authored)
       && OnlyShown(rt, reply.change.rt.(pendingCommand := None), session,
                    t.(execution := Some(Execution(Awaiting, authored.id))), false)
       && reply.change.audits == [Audit(RequestReceived, Accepted, env.id, CommandMode(pending.mode))]
  }

  /** A command without a link is never run by the players: it is always the Overseer who
      is asked. */
  lemma CommandsAreAskedFor(rt: Runtime, env: Env, connection: string, session: string, c: PlayerCommand, rules: Rules,
                            t: Terminal, authored: ContentNode)
    requires Inv(rt, env.limit) && MayAct(rt, connection, session, c, rules) && ActiveTerminal(rt.broadcast) == Some(t)
    requires Placed(t) && c.kind == "navigate" && c.action == "command"
    requires Offers(t, c.nodeId, authored) && authored.transition.None?
    ensures AskedToRun(rt, env, session, DispatchAction(rt, env, connection, c, rules), c.requestId, t, authored)
  {
    hide AskedToRun, Act, Inv, MayAct, RequestCommand, Placed, Offers, Selected;
    AirIsOn(rt, env, connection, session, c, rules);
    BroadcastIsNamed(rt, env, connection, session, c, rules);
    DispatchIsAct(rt, env, connection, session, c, rules);
    OfferedIsSelected(t, c.nodeId, authored);
    ActOpens(rt, env, session, t, c, rules);
    CommandAsks(rt, env, session, t, authored, c);
  }

  lemma ActOpens(rt: Runtime, env: Env, session: string, t: Terminal, c: PlayerCommand, rules: Rules)
    requires rt.broadcast.Some? && rt.broadcast.value.active.Some? && c.kind == "navigate" && c.action == "command"
    ensures Act(rt, env, session, t, c, rules) ==
            var authored := Selected(t, c.nodeId);
            if authored.None? || (authored.value.stateChange.Some? && authored.value.transition.Some?)
            then Refuse(rt, session, c, InvalidAction, env.limit)
            else if authored.value.transition.Some? then RequestForward(rt, env, session, t, authored.value, c)
            else RequestCommand(rt, env, session, t, authored.value, c)
  {
    hide RequestForward, RequestCommand, Refuse, Selected;
  }

  lemma CommandAsks(rt: Runtime, env: Env, session: string, t: Terminal, authored: ContentNode, c: PlayerCommand)
    requires rt.broadcast.Some? && rt.broadcast.value.active.Some? && session in rt.sessions
    requires rt.pendingCommand == None
    ensures AskedToRun(rt, env, session, RequestCommand(rt, env, session, t, authored, c), c.requestId, t, authored)
  {
    hide Sessions.Stored, Fingerprint;
    var reply := RequestCommand(rt, env, session, t, authored, c);
    var pending := reply.change.rt.pendingCommand;
    var awaited := PutActive(rt, t.(execution := Some(Execution(Awaiting, authored.id))));
    var shown := SetNotice(awaited.(pendingCommand := pending), session, false);
    assert shown.sessions.Keys == rt.sessions.Keys;
    StoringAnswers(shown, session, c.requestId, ResultRecord(Fingerprint(c), reply.result), env.limit);
  }

  /** A command with a link and a result is nothing at all, and neither is one that is not
      in the folder shown. */
  lemma NothingElseOpens(rt: Runtime, env: Env, connection: string, session: string, c: PlayerCommand, rules: Rules,
                         t: Terminal)
    requires Inv(rt, env.limit) && MayAct(rt, connection, session, c, rules) && ActiveTerminal(rt.broadcast) == Some(t)
    requires Placed(t) && c.kind == "navigate" && c.action == "command"
    requires forall authored :: Offers(t, c.nodeId, authored) ==>
             authored.stateChange.Some? && authored.transition.Some?
    ensures RefusedFor(rt, session, DispatchAction(rt, env, connection, c, rules), c.requestId, InvalidAction)
  {
    hide RefusedFor, Act, Inv, MayAct, Placed, Offers, Selected, Refuse, RequestCommand, RequestForward;
    AirIsOn(rt, env, connection, session, c, rules);
    DispatchIsAct(rt, env, connection, session, c, rules);
    ActOpens(rt, env, session, t, c, rules);
    RefusingAnswers(rt, session, c, InvalidAction, env.limit);
    if Selected(t, c.nodeId).Some? {
      OfferedIsSelected(t, c.nodeId, Selected(t, c.nodeId).value);
    }
  }

  // ---------------------------------------------------------------- links and returns

  /** The catalogue has the link, and both terminals are in one group. */
  predicate LinkStands(catalog: Catalog, source: string, commandId: string, target: string) {
    && target != source && Route.Together(catalog.groups, source, target)
    && var from := LookupTerminal(catalog, source);
       && from.Some?
       && var command := FindNode(from.value.tree, commandId);
          command.Some? && command.value.kind == Command && command.value.transition == Some(target)
  }

  predicate Leads(catalog: Catalog, source: string, commandId: string, target: string) {
    var link := LookupTransition(catalog, source, commandId);
    && link.Some? && link.value.target.terminalId == target && link.value.target.terminalId != source
    && SameGroup(catalog.groups, source, target)
  }

  lemma LinkStandsIff(catalog: Catalog, source: string, commandId: string, target: string)
    requires ValidCatalog(catalog)
    ensures Leads(catalog, source, commandId, target) <==> LinkStands(catalog, source, commandId, target)
    ensures Leads(catalog, source, commandId, target) ==>
              Some(LookupTransition(catalog, source, commandId).value.target) == LookupTerminal(catalog, target)
  {
    Route.TogetherIff(catalog.groups, source, target);
    SameGroupMeansEqual(catalog.groups, source, target);
    FoundGroup(catalog.groups, source);
    FoundGroup(catalog.groups, target);
    if LookupTerminal(catalog, target).Some? {
      FoundTerminal(catalog.terminals, target);
    }
    if LookupTransition(catalog, source, commandId).Some? {
      var command := FindNode(LookupTerminal(catalog, source).value.tree, commandId).value;
      FoundTerminal(catalog.terminals, command.transition.value);
    }
  }

  lemma CurrentLeads(catalog: Catalog, t: Terminal, authored: ContentNode)
    requires authored.transition.Some?
    ensures LinkCurrent(catalog, t, authored) <==> Leads(catalog, t.terminalId, authored.id, authored.transition.value)
  {
  }

  /** Asked, with an earlier notice about links gone; everything else is as it was. */
  ghost predicate AskedToTravel(rt: Runtime, session: string, reply: Reply, requestId: string,
                                pending: PendingNavigation) {
    && session in rt.sessions
    && reply.change.Accept? && reply.result == ActionResult(requestId, true, AcceptedAction, rt.revision + 1)
    && reply.change.rt.pendingNavigation == Some(pending) && reply.change.rt.notice == None
    && OnlyAnswered(rt.sessions, reply.change.rt.sessions, session, rt.sessions[session].notice)
    && reply.change.rt.(sessions := rt.sessions, pendingNavigation := None, notice := rt.notice) == rt
  }

  /** Where the players stand, to come back to. */
  function Here(t: Terminal, authored: ContentNode): ReturnPoint
    requires t.nav.path != []
  {
    ReturnPoint(t.terminalId, t.terminalName, Nav.Last(t.nav.path), t.nav.path[..|t.nav.path| - 1],
                authored.id, authored.name, Authored, "", 0)
  }

  /** A link that stands asks the Overseer to let the players through to the terminal it
      names; a broken one is refused with a notice to the Overseer, and still accepted as
      a revision. */
  lemma LinksAreAskedFor(rt: Runtime, env: Env, connection: string, session: string, c: PlayerCommand, rules: Rules,
                         t: Terminal, authored: ContentNode)
    requires Inv(rt, env.limit) && MayAct(rt, connection, session, c, rules) && ActiveTerminal(rt.broadcast) == Some(t)
    requires Placed(t) && ValidCatalog(env.catalog) && c.kind == "navigate" && c.action == "command"
    requires Offers(t, c.nodeId, authored) && authored.transition.Some? && authored.stateChange.None?
    ensures var reply, target := DispatchAction(rt, env, connection, c, rules), authored.transition.value;
            if LinkStands(env.catalog, t.terminalId, authored.id, target) then
              && LookupTerminal(env.catalog, target).Some?
              && AskedToTravel(rt, session, reply, c.requestId,
                               PendingNavigation(env.id, c.broadcastId, session, Forward, t.terminalId, t.terminalName,
                                                 authored.id, authored.name, target,
                                                 LookupTerminal(env.catalog, target).value.terminalName,
                                                     Here(t, authored)))
              && reply.change.audits == [Audit(RequestReceived, Accepted, env.id, TransitionMode)]
            else
              && reply.change.Accept? && reply.change.audits == [] && session in rt.sessions
              && reply.result == ActionResult(c.requestId, false, InvalidAction, rt.revision + 1)
              && reply.change.rt.notice == Some(NavigationNotice(TargetMissing, t.terminalId, authored.id, target))
              && OnlyAnswered(rt.sessions, reply.change.rt.sessions, session, rt.sessions[session].notice)
              && reply.change.rt.(sessions := rt.sessions, notice := rt.notice) == rt
  {
    hide Act, Inv, MayAct, RequestForward, Offers, Selected, AskedToTravel, LinkStands, OnlyAnswered, ValidCatalog,
         Here;
    AirIsOn(rt, env, connection, session, c, rules);
    BroadcastIsNamed(rt, env, connection, session, c, rules);
    DispatchIsAct(rt, env, connection, session, c, rules);
    OfferedIsSelected(t, c.nodeId, authored);
    ActOpens(rt, env, session, t, c, rules);
    ForwardAsks(rt, env, session, t, authored, c);
  }

  lemma BroadcastIsNamed(rt: Runtime, env: Env, connection: string, session: string, c: PlayerCommand, rules: Rules)
    requires MayAct(rt, connection, session, c, rules)
    ensures rt.broadcast.Some? && rt.broadcast.value.id == c.broadcastId
    ensures rt.pendingNavigation == None && rt.pendingCommand == None
  {
  }

  lemma ForwardAsks(rt: Runtime, env: Env, session: string, t: Terminal, authored: ContentNode, c: PlayerCommand)
    requires rt.broadcast.Some? && session in rt.sessions && Placed(t) && ValidCatalog(env.catalog)
    requires authored.transition.Some? && rt.pendingNavigation == None
    ensures var reply, target := RequestForward(rt, env, session, t, authored, c), authored.transition.value;
            if LinkStands(env.catalog, t.terminalId, authored.id, target) then
              && LookupTerminal(env.catalog, target).Some?
              && AskedToTravel(rt, session, reply, c.requestId,
                               PendingNavigation(env.id, rt.broadcast.value.id, session, Forward, t.terminalId,
                                                 t.terminalName, authored.id, authored.name, target,
                                                 LookupTerminal(env.catalog, target).value.terminalName,
                                                     Here(t, authored)))
              && reply.change.audits == [Audit(RequestReceived, Accepted, env.id, TransitionMode)]
            else
              && reply.change.Accept? && reply.change.audits == []
              && reply.result == ActionResult(c.requestId, false, InvalidAction, rt.revision + 1)
              && reply.change.rt.notice == Some(NavigationNotice(TargetMissing, t.terminalId, authored.id, target))
              && OnlyAnswered(rt.sessions, reply.change.rt.sessions, session, rt.sessions[session].notice)
              && reply.change.rt.(sessions := rt.sessions, notice := rt.notice) == rt
  {
    hide Sessions.Stored, Fingerprint, LinkStands, ValidCatalog, OnlyAnswered, LinkCurrent, LookupTransition,
         LookupTerminal,
         StoreResult, Leads;
    var reply, target := RequestForward(rt, env, session, t, authored, c), authored.transition.value;
    CurrentLeads(env.catalog, t, authored);
    LinkStandsIff(env.catalog, t.terminalId, authored.id, target);
    var record := ResultRecord(Fingerprint(c), reply.result);
    if LinkCurrent(env.catalog, t, authored) {
      LinkTells(env.catalog, t, authored);
      var link := LookupTransition(env.catalog, t.terminalId, authored.id).value;
      var pending := ForwardDecision(rt, session, t, authored, link.target, env.id);
      StoringAnswers(rt.(pendingNavigation := Some(pending), notice := None), session, c.requestId, record, env.limit);
    } else {
      StoringAnswers(rt.(notice := Some(NavigationNotice(TargetMissing, t.terminalId, authored.id, target))), session,
                     c.requestId, record, env.limit);
    }
  }

  lemma LinkTells(catalog: Catalog, t: Terminal, authored: ContentNode)
    requires LinkCurrent(catalog, t, authored)
    ensures LookupTransition(catalog, t.terminalId, authored.id).Some?
    ensures Some(LookupTransition(catalog, t.terminalId, authored.id).value.target.terminalId) == authored.transition
  {
  }

  /** "back" in the bare root asks to return to the top stop of the route, if the group
      still allows it, and to no other. */
  lemma ReturnsAreAskedFor(rt: Runtime, env: Env, connection: string, session: string, c: PlayerCommand, rules: Rules,
                           t: Terminal)
    requires Inv(rt, env.limit) && MayAct(rt, connection, session, c, rules) && ActiveTerminal(rt.broadcast) == Some(t)
    requires ValidCatalog(env.catalog) && c.kind == "navigate" && c.action == "back"
    requires rt.broadcast.Some? && AtTheDoor(t, rt.broadcast.value.route)
    ensures var reply, route := DispatchAction(rt, env, connection, c, rules), rt.broadcast.value.route;
            var top := route[|route| - 1];
            if Route.Together(env.catalog.groups, t.terminalId, top.terminalId)
               && (top.origin == InitialPrefix ==>
                     Route.Adjacent(env.catalog.groups, top.groupId, top.groupPosition, top.terminalId, t.terminalId))
            then
              && AskedToTravel(rt, session, reply, c.requestId,
                               PendingNavigation(env.id, c.broadcastId, session, Return, t.terminalId, t.terminalName,
                                                 top.commandId, top.commandName, top.terminalId, top.terminalName, top))
              && reply.change.audits == []
            else RefusedFor(rt, session, reply, c.requestId, InvalidAction)
  {
    hide Act, Inv, MayAct, RequestReturn, AskedToTravel, RefusedFor, ValidCatalog, Route.Together, Route.Adjacent;
    AirIsOn(rt, env, connection, session, c, rules);
    BroadcastIsNamed(rt, env, connection, session, c, rules);
    DispatchIsAct(rt, env, connection, session, c, rules);
    Homeward.BackIsReturn(rt, env, session, t, c, rules);
    ReturnAsks(rt, env, session, t, c);
    GroupsAreValid(env.catalog);
    Route.ReturnableIff(env.catalog.groups, t.terminalId, rt.broadcast.value.route[|rt.broadcast.value.route| - 1]);
  }

  lemma GroupsAreValid(catalog: Catalog)
    requires ValidCatalog(catalog)
    ensures ValidGroups(catalog.groups)
  {
  }

  lemma ReturnAsks(rt: Runtime, env: Env, session: string, t: Terminal, c: PlayerCommand)
    requires rt.broadcast.Some? && session in rt.sessions && rt.broadcast.value.route != [] &&
             rt.pendingNavigation == None
    ensures var reply, route := RequestReturn(rt, env, session, t, c), rt.broadcast.value.route;
            var top := route[|route| - 1];
            if Route.ValidReturn(env.catalog.groups, t.terminalId, top)
            then
              && AskedToTravel(rt, session, reply, c.requestId,
                               PendingNavigation(env.id, rt.broadcast.value.id, session, Return, t.terminalId,
                                                 t.terminalName,
                                                 top.commandId, top.commandName, top.terminalId, top.terminalName, top))
              && reply.change.audits == []
            else RefusedFor(rt, session, reply, c.requestId, InvalidAction)
  {
    hide Sessions.Stored, Fingerprint, Route.ValidReturn, RefusedFor, OnlyAnswered, StoreResult, Refuse;
    var reply, top := RequestReturn(rt, env, session, t, c), rt.broadcast.value.route[|rt.broadcast.value.route| - 1];
    RefusingAnswers(rt, session, c, InvalidAction, env.limit);
    StoringAnswers(rt.(pendingNavigation := Some(ReturnDecision(rt, session, t, top, env.id)), notice := None), session,
                   c.requestId, ResultRecord(Fingerprint(c), reply.result), env.limit);
  }

  // ---------------------------------------------------------------- answers

  /** The store has kept the change: the document it returned is valid and still has a
      result for the command, for the block of text the author tied it to. */
  predicate Recorded(durable: Durable, authored: ContentNode) {
    && durable.Stored? && durable.valid && durable.states.Some? && authored.id in durable.states.value
    && authored.stateChange.Some? && durable.states.value[authored.id].blockId == authored.stateChange.value.blockId
  }

  /** Nothing is awaited any more, one checkpoint is replaced, and one session may be
      noticed. */
  predicate Settled(rt: Runtime, after: Runtime, shown: Terminal, noticed: Option<string>) {
    && rt.broadcast.Some? && rt.broadcast.value.active.Some? && after.pendingCommand == None
    && after.broadcast == Some(rt.broadcast.value.(terminals :=
                                 rt.broadcast.value.terminals[rt.broadcast.value.active.value := shown]))
    && after.sessions == (if noticed.Some? && noticed.value in rt.sessions
                          then rt.sessions[noticed.value := rt.sessions[noticed.value].(notice := true)]
                              else rt.sessions)
    && after.(sessions := rt.sessions, broadcast := rt.broadcast, pendingCommand := rt.pendingCommand) == rt
  }

  /** The first approval of a one-way change. */
  predicate FirstChange(t: Terminal, authored: ContentNode) {
    authored.stateChange.Some? && authored.id !in t.commandStates
  }

  /** What an approval shows, and whether it went through. */
  predicate Takes(rt: Runtime, change: Change, t: Terminal, authored: ContentNode, durable: Durable)
    requires rt.pendingCommand.Some?
  {
    var pending := rt.pendingCommand.value;
    && change.Accept?
    && (FirstChange(t, authored) && Recorded(durable, authored) ==>
          Settled(rt, change.rt, t.(commandStates := durable.states.value, execution := None,
                                    nav := t.nav.(command := Some(authored.id))), None))
    && (FirstChange(t, authored) && !Recorded(durable, authored) ==>
          Settled(rt, change.rt, t.(execution := None), Some(pending.controller)))
    && (!FirstChange(t, authored) ==>
          Settled(rt, change.rt, t.(execution := None, nav := t.nav.(command := Some(authored.id))), None))
    && change.audits == [Audit(Decided, if FirstChange(t, authored) && !Recorded(durable, authored) then Failed
                               else Succeeded,
                               pending.requestId, CommandMode(pending.mode))]
  }

  /** An accepted approval opens the command the players stand before. A change not made
      yet is made first: it ends recorded as the store returned it, or with nothing changed
      and a notice to whoever asked. A completed or an ordinary command opens whatever the
      store answers, and its result is not made again. */
  lemma ApprovalTakes(rt: Runtime, request: string, durable: Durable) returns (authored: ContentNode)
    requires ActiveTerminal(rt.broadcast).Some? && Placed(ActiveTerminal(rt.broadcast).value)
    requires ResolveCommand(rt, request, true, durable).Accept?
    ensures rt.pendingCommand.Some?
    ensures var t := ActiveTerminal(rt.broadcast).value;
            && Offers(t, rt.pendingCommand.value.commandId, authored) && authored.transition.None?
            && Takes(rt, ResolveCommand(rt, request, true, durable), t, authored, durable)
  {
    hide Offers, Settled, AnswerCommand, Placed, StillAuthored;
    var t, pending := ActiveTerminal(rt.broadcast).value, rt.pendingCommand.value;
    OfferStands(rt, pending, t, true, durable);
    authored := Selected(t, pending.commandId).value;
    OfferedIsSelected(t, pending.commandId, authored);
    AuthoredStands(t, pending, authored);
    GrantTakes(rt, pending, t, authored, durable);
  }

  lemma OfferStands(rt: Runtime, pending: PendingCommand, t: Terminal, approve: bool, durable: Durable)
    requires rt.broadcast.Some? && rt.broadcast.value.active.Some? &&
             AnswerCommand(rt, pending, t, approve, durable).Accept?
    ensures StillAuthored(t, pending) && Selected(t, pending.commandId).Some?
    ensures approve ==> AnswerCommand(rt, pending, t, approve, durable) ==
                        GrantCommand(rt, pending, t, Selected(t, pending.commandId).value, durable)
  {
    hide GrantCommand, Selected;
  }

  lemma AuthoredStands(t: Terminal, pending: PendingCommand, authored: ContentNode)
    requires StillAuthored(t, pending) && Selected(t, pending.commandId) == Some(authored)
    ensures authored.transition.None? && (pending.mode == ChangeMode <==> FirstChange(t, authored))
    ensures pending.commandName == DisplayedName(t, authored) && pending.confirmationText == ConfirmationText(authored)
  {
    hide Selected;
  }

  lemma GrantTakes(rt: Runtime, pending: PendingCommand, t: Terminal, authored: ContentNode, durable: Durable)
    requires rt.broadcast.Some? && rt.broadcast.value.active.Some? && rt.pendingCommand == Some(pending)
    requires Placed(t) && Offers(t, authored.id, authored) && pending.commandId == authored.id
    requires pending.mode == ChangeMode <==> FirstChange(t, authored)
    ensures Takes(rt, GrantCommand(rt, pending, t, authored, durable), t, authored, durable)
  {
  }

  /** A refusal is shown, and that is all. */
  lemma DeclineShows(rt: Runtime, request: string, durable: Durable)
    requires ResolveCommand(rt, request, false, durable).Accept?
    ensures rt.pendingCommand.Some? && ActiveTerminal(rt.broadcast).Some?
    ensures var t, pending, change := ActiveTerminal(rt.broadcast).value, rt.pendingCommand.value,
                                      ResolveCommand(rt, request, false, durable);
            && Settled(rt, change.rt, t.(execution := Some(Execution(Rejected, pending.commandId))), None)
            && change.audits == [Audit(Decided, Declined, pending.requestId, CommandMode(pending.mode))]
  {
    hide StillAuthored;
  }

  // ---------------------------------------------------------------- a request and its answer

  lemma AwaitedIsCurrent(rt: Runtime, env: Env, session: string, reply: Reply, requestId: string, t: Terminal,
                         authored: ContentNode, limit: nat)
    requires Inv(rt, limit) && Placed(t) && ActiveTerminal(rt.broadcast) == Some(t) && rt.broadcast.Some?
    requires AskedToRun(rt, env, session, reply, requestId, t, authored)
    requires Offers(t, authored.id, authored) && authored.transition.None?
    ensures var asked, awaited := Homeward.After(rt, reply.change),
            t.(execution := Some(Execution(Awaiting, authored.id)));
            && CommandCurrent(asked) && ActiveTerminal(asked.broadcast) == Some(awaited)
            && StillAuthored(awaited, asked.pendingCommand.value)
  {
    hide Nav.FolderAt, Nav.Child, Inv, OnlyShown, AskedToRun, StillAuthored, Placed, Offers;
    AwaitedIsShown(rt, env, session, reply, requestId, t, authored, limit);
    AwaitingStaysPlaced(t, authored);
    AwaitedIsAuthored(t.(execution := Some(Execution(Awaiting, authored.id))), t, authored,
                      Homeward.After(rt, reply.change).pendingCommand.value, rt.broadcast.value, session);
  }

  lemma AwaitedIsShown(rt: Runtime, env: Env, session: string, reply: Reply, requestId: string, t: Terminal,
                       authored: ContentNode, limit: nat)
    requires Inv(rt, limit) && ActiveTerminal(rt.broadcast) == Some(t) && rt.broadcast.Some?
    requires AskedToRun(rt, env, session, reply, requestId, t, authored)
    ensures var asked, awaited := Homeward.After(rt, reply.change),
            t.(execution := Some(Execution(Awaiting, authored.id)));
            && CommandCurrent(asked) && ActiveTerminal(asked.broadcast) == Some(awaited)
            && AsksToRun(asked.pendingCommand.value, rt.broadcast.value, session, t, authored)
  {
  }

  lemma AwaitedIsAuthored(awaited: Terminal, t: Terminal, authored: ContentNode, pending: PendingCommand, b: Broadcast,
                          session: string)
    requires awaited == t.(execution := Some(Execution(Awaiting, authored.id))) && Placed(awaited)
    requires AsksToRun(pending, b, session, t, authored) && Offers(t, authored.id, authored)
    requires authored.transition.None?
    ensures StillAuthored(awaited, pending)
  {
    hide Nav.FolderAt, Nav.Child, Placed;
    OfferedIsSelected(awaited, authored.id, authored);
  }

  /** Whatever the players ask for can be answered either way. */
  lemma AnsweredEitherWay(rt: Runtime, env: Env, connection: string, session: string, c: PlayerCommand, rules: Rules,
                          t: Terminal, authored: ContentNode, approve: bool, durable: Durable)
    requires Inv(rt, env.limit) && MayAct(rt, connection, session, c, rules) && ActiveTerminal(rt.broadcast) == Some(t)
    requires Placed(t) && c.kind == "navigate" && c.action == "command"
    requires Offers(t, c.nodeId, authored) && authored.transition.None?
    requires env.id == Text.Trim(env.id) != ""
    ensures var asked := Homeward.Performed(rt, env, PlayerAction(connection, c, rules));
            && ResolveCommand(asked, env.id, approve, durable).Accept?
            && asked.pendingCommand.Some? && asked.pendingCommand.value.controller == session
            && asked.pendingCommand.value.commandId == authored.id == c.nodeId
            && ActiveTerminal(asked.broadcast) == Some(t.(execution := Some(Execution(Awaiting, authored.id))))
            && session in asked.sessions && !asked.sessions[session].notice
  {
    hide AskedToRun, DispatchAction, Inv, MayAct, Placed, Offers, Homeward.After, CommandCurrent, AnswerCommand;
    AirIsOn(rt, env, connection, session, c, rules);
    CommandsAreAskedFor(rt, env, connection, session, c, rules, t, authored);
    OfferedIsSelected(t, c.nodeId, authored);
    var reply := DispatchAction(rt, env, connection, c, rules);
    AwaitedIsCurrent(rt, env, session, reply, c.requestId, t, authored, env.limit);
    AskedIs(rt, env, session, reply, c.requestId, t, authored);
    AnswerIsTaken(Homeward.After(rt, reply.change), env.id, approve, durable);
  }

  lemma AskedIs(rt: Runtime, env: Env, session: string, reply: Reply, requestId: string, t: Terminal,
                authored: ContentNode)
    requires rt.broadcast.Some? && AskedToRun(rt, env, session, reply, requestId, t, authored)
    ensures var asked := Homeward.After(rt, reply.change);
            && asked.pendingCommand.Some? && asked.pendingCommand.value.requestId == env.id
            && asked.pendingCommand.value.controller == session && asked.pendingCommand.value.commandId == authored.id
            && session in asked.sessions && !asked.sessions[session].notice
  {
  }

  lemma AnswerIsTaken(rt: Runtime, request: string, approve: bool, durable: Durable)
    requires CommandCurrent(rt) && rt.pendingCommand.value.requestId == request == Text.Trim(request) != ""
    requires StillAuthored(ActiveTerminal(rt.broadcast).value, rt.pendingCommand.value)
    ensures ResolveCommand(rt, request, approve, durable).Accept?
  {
  }

  ghost function AskedAndApproved(rt: Runtime, env: Env, connection: string, c: PlayerCommand, rules: Rules, later: Env,
                                  durable: Durable): Runtime {
    Homeward.Performed(Homeward.Performed(rt, env, PlayerAction(connection, c, rules)), later,
                       Decide(ResolveCommandExecution(env.id, true, durable)))
  }

  /** A request and its approval, from the command the players see to what they see then. */
  lemma ApprovedRequestTakes(rt: Runtime, env: Env, connection: string, session: string, c: PlayerCommand, rules: Rules,
                             t: Terminal, authored: ContentNode, later: Env, durable: Durable)
    requires Inv(rt, env.limit) && MayAct(rt, connection, session, c, rules) && ActiveTerminal(rt.broadcast) == Some(t)
    requires Placed(t) && c.kind == "navigate" && c.action == "command"
    requires Offers(t, c.nodeId, authored) && authored.transition.None?
    requires env.id == Text.Trim(env.id) != ""
    ensures var done := AskedAndApproved(rt, env, connection, c, rules, later, durable);
            && done.pendingCommand == None && session in done.sessions
            && ActiveTerminal(done.broadcast) ==
               Some(if !FirstChange(t, authored) then t.(execution := None, nav := t.nav.(command := Some(c.nodeId)))
                    else if Recorded(durable, authored)
                    then t.(commandStates := durable.states.value, execution := None,
                            nav := t.nav.(command := Some(c.nodeId)))
                    else t.(execution := None))
            && done.sessions[session].notice == (FirstChange(t, authored) && !Recorded(durable, authored))
  {
    hide DispatchAction, Inv, MayAct, Offers, Homeward.After, ResolveCommand, Takes, Proper, Text.Trim;
    AnsweredEitherWay(rt, env, connection, session, c, rules, t, authored, true, durable);
    var asked := Homeward.Performed(rt, env, PlayerAction(connection, c, rules));
    var awaited := ActiveTerminal(asked.broadcast).value;
    AwaitingStaysPlaced(t, authored);
    var named := ApprovalTakes(asked, env.id, durable);
    SameOffers(t, c.nodeId, authored, named);
    ApprovalShows(asked, ResolveCommand(asked, env.id, true, durable), awaited, authored, durable, session);
  }

  lemma AwaitingStaysPlaced(t: Terminal, authored: ContentNode)
    requires Placed(t)
    ensures Placed(t.(execution := Some(Execution(Awaiting, authored.id))))
  {
  }

  lemma SameOffers(t: Terminal, nodeId: string, authored: ContentNode, named: ContentNode)
    requires Offers(t, nodeId, authored)
    requires Offers(t.(execution := Some(Execution(Awaiting, authored.id))), nodeId, named)
    ensures named == authored
  {
  }

  lemma ApprovalShows(rt: Runtime, change: Change, t: Terminal, authored: ContentNode, durable: Durable,
                      session: string)
    requires rt.pendingCommand.Some? && rt.pendingCommand.value.controller == session &&
             Takes(rt, change, t, authored, durable)
    requires session in rt.sessions && !rt.sessions[session].notice
    ensures var done := Homeward.After(rt, change);
            && done.pendingCommand == None && session in done.sessions
            && ActiveTerminal(done.broadcast) ==
               Some(if !FirstChange(t, authored) then t.(execution := None, nav := t.nav.(command := Some(authored.id)))
                    else if Recorded(durable, authored)
                    then t.(commandStates := durable.states.value, execution := None,
                            nav := t.nav.(command := Some(authored.id)))
                    else t.(execution := None))
            && done.sessions[session].notice == (FirstChange(t, authored) && !Recorded(durable, authored))
  {
  }

  // ---------------------------------------------------------------- answers to a link or a return

  /** The decision that waits, about the terminal on the air. */
  predicate Waiting(rt: Runtime, request: string, pending: PendingNavigation) {
    && rt.pendingNavigation == Some(pending) && pending.requestId == Text.Trim(request) != ""
    && ActiveTerminal(rt.broadcast).Some? && ActiveTerminal(rt.broadcast).value.terminalId == pending.source
  }

  lemma OnlyTheWaitingIsAnswered(rt: Runtime, env: Env, request: string, approve: bool, limit: nat)
    requires Inv(rt, limit) && !ResolveNavigation(rt, env, request, approve).Reject?
    ensures rt.pendingNavigation.Some? && Waiting(rt, request, rt.pendingNavigation.value)
  {
    hide AnswerNavigation;
  }

  lemma WaitingIsAnswered(rt: Runtime, env: Env, request: string, approve: bool, pending: PendingNavigation, limit: nat)
    requires Inv(rt, limit) && Waiting(rt, request, pending)
    ensures rt.broadcast.Some? && rt.broadcast.value.active.Some?
    ensures ResolveNavigation(rt, env, request, approve) == AnswerNavigation(rt, env, pending, approve)
  {
    hide AnswerNavigation;
  }

  /** The link was changed or is gone: the Overseer is told, and nobody moves. */
  predicate Told(rt: Runtime, after: Runtime, reason: NoticeReason, pending: PendingNavigation) {
    after == rt.(pendingNavigation := None,
                 notice := Some(NavigationNotice(reason, pending.source, pending.commandId, pending.target)))
  }

  /** Only the screen and the route change, and the decision is over. */
  predicate Moved(rt: Runtime, after: Runtime, target: string, route: seq<ReturnPoint>) {
    && rt.broadcast.Some? && after.broadcast.Some?
    && after.(broadcast := rt.broadcast, pendingNavigation := rt.pendingNavigation, notice := rt.notice) == rt
    && after.broadcast.value.(terminals := rt.broadcast.value.terminals, active := rt.broadcast.value.active,
                              route := rt.broadcast.value.route) == rt.broadcast.value
    && after.broadcast.value.active == Some(target) && after.broadcast.value.route == route
    && after.pendingNavigation == None && after.notice == None
  }

  /** An approved link is followed if the catalogue still has it, one stop further on; if
      it was changed meanwhile the Overseer is told; and if the terminal cannot be shown
      the decision goes on waiting. */
  lemma LinkApproved(rt: Runtime, env: Env, request: string, pending: PendingNavigation, limit: nat)
    requires Inv(rt, limit) && Waiting(rt, request, pending) && ValidCatalog(env.catalog) &&
             pending.direction == Forward
    ensures rt.broadcast.Some?
    ensures var change := ResolveNavigation(rt, env, request, true);
            if !LinkStands(env.catalog, pending.source, pending.commandId, pending.target) then
              && change.Accept? && Told(rt, change.rt, TargetChanged, pending)
              && change.audits == [Audit(Decided, Stale, pending.requestId, TransitionMode)]
            else if !env.delivered then change == Reject([Audit(Decided, Failed, pending.requestId, TransitionMode)])
            else
              && change.Accept? && Moved(rt, change.rt, pending.target,
                                         rt.broadcast.value.route + [pending.returnPoint])
              && change.audits == [Audit(Decided, Succeeded, pending.requestId, TransitionMode)]
  {
    hide LinkStands, Leads, ValidCatalog, LookupTransition, LookupTerminal, Travel, ApproveForward, Told, Moved, Inv;
    WaitingIsAnswered(rt, env, request, true, pending, limit);
    LinkStandsIff(env.catalog, pending.source, pending.commandId, pending.target);
    ForwardAnswer(rt, env, pending);
  }

  lemma ForwardAnswer(rt: Runtime, env: Env, pending: PendingNavigation)
    requires rt.broadcast.Some? && rt.broadcast.value.active.Some? && pending.direction == Forward
    ensures var change := ApproveForward(rt, env, pending);
            if !Leads(env.catalog, pending.source, pending.commandId, pending.target) then
              && change.Accept? && Told(rt, change.rt, TargetChanged, pending)
              && change.audits == [Audit(Decided, Stale, pending.requestId, TransitionMode)]
            else if !env.delivered then change == Reject([Audit(Decided, Failed, pending.requestId, TransitionMode)])
            else
              && change.Accept? && Moved(rt, change.rt, pending.target,
                                         rt.broadcast.value.route + [pending.returnPoint])
              && change.audits == [Audit(Decided, Succeeded, pending.requestId, TransitionMode)]
  {
    hide LookupTransition, Travel;
  }

  /** The stop is still on top of the route and may be returned to from here. */
  predicate StopStands(catalog: Catalog, route: seq<ReturnPoint>, source: string, point: ReturnPoint) {
    && route != [] && route[|route| - 1] == point && Route.Together(catalog.groups, source, point.terminalId)
    && (point.origin == InitialPrefix ==>
          Route.Adjacent(catalog.groups, point.groupId, point.groupPosition, point.terminalId, source))
  }

  /** An approved return goes back to the top stop, one stop less to return and in the
      folder it remembers; a terminal that is gone is told to the Overseer; a stop that
      cannot be returned to any more leaves the decision waiting. */
  lemma ReturnApproved(rt: Runtime, env: Env, request: string, pending: PendingNavigation, limit: nat)
    requires Inv(rt, limit) && Waiting(rt, request, pending) && ValidCatalog(env.catalog) && pending.direction == Return
    ensures rt.broadcast.Some?
    ensures var change, route := ResolveNavigation(rt, env, request, true), rt.broadcast.value.route;
            if !StopStands(env.catalog, route, pending.source, pending.returnPoint) then change == Reject([])
            else if LookupTerminal(env.catalog, pending.target).None? ||
                pending.target != pending.returnPoint.terminalId
            then change.Accept? && Told(rt, change.rt, TargetMissing, pending) && change.audits == []
            else if !env.delivered then change == Reject([])
            else
              && change.Accept? && change.audits == [] && Moved(rt, change.rt, pending.target, route[..|route| - 1])
              && pending.target in CheckpointsOf(change.rt)
              && CheckpointsOf(change.rt)[pending.target].nav ==
                 Nav.Restored(LookupTerminal(env.catalog, pending.target).value.tree, pending.returnPoint.folderId,
                              pending.returnPoint.ancestors)
  {
    hide StopStands, ValidCatalog, LookupTerminal, ApproveReturn, Told, Moved, Inv, Nav.Restored, CheckpointsOf;
    WaitingIsAnswered(rt, env, request, true, pending, limit);
    GroupsAreValid(env.catalog);
    ReturnAnswer(rt, env, pending);
  }

  lemma ReturnAnswer(rt: Runtime, env: Env, pending: PendingNavigation)
    requires rt.broadcast.Some? && rt.broadcast.value.active.Some? && ValidGroups(env.catalog.groups)
    ensures var change, route := ApproveReturn(rt, env, pending), rt.broadcast.value.route;
            if !StopStands(env.catalog, route, pending.source, pending.returnPoint) then change == Reject([])
            else if LookupTerminal(env.catalog, pending.target).None? ||
                pending.target != pending.returnPoint.terminalId
            then change.Accept? && Told(rt, change.rt, TargetMissing, pending) && change.audits == []
            else if !env.delivered then change == Reject([])
            else
              && change.Accept? && change.audits == [] && Moved(rt, change.rt, pending.target, route[..|route| - 1])
              && pending.target in CheckpointsOf(change.rt)
              && CheckpointsOf(change.rt)[pending.target].nav ==
                 Nav.Restored(LookupTerminal(env.catalog, pending.target).value.tree, pending.returnPoint.folderId,
                              pending.returnPoint.ancestors)
  {
    hide Nav.Restored, Route.ValidReturn, Route.Together, Route.Adjacent, LookupTerminal, SameGroup, Suspend;
    Route.ReturnableIff(env.catalog.groups, pending.source, pending.returnPoint);
    Route.TogetherIff(env.catalog.groups, pending.source, pending.target);
    if LookupTerminal(env.catalog, pending.target).Some? {
      KnownUnderItsName(env.catalog, pending.target);
    }
  }

  lemma KnownUnderItsName(catalog: Catalog, id: string)
    requires LookupTerminal(catalog, id).Some?
    ensures LookupTerminal(catalog, id).value.terminalId == id
  {
    FoundTerminal(catalog.terminals, id);
  }

  /** A declined link is shown as refused, a declined return only ends the question. */
  lemma NavigationDeclined(rt: Runtime, env: Env, request: string, pending: PendingNavigation, limit: nat)
    requires Inv(rt, limit) && Waiting(rt, request, pending)
    ensures rt.broadcast.Some? && rt.broadcast.value.active.Some?
    ensures var change, t, b := ResolveNavigation(rt, env, request, false), ActiveTerminal(rt.broadcast).value,
                                rt.broadcast.value;
            && change.Accept? && change.rt.pendingNavigation == None && change.rt.notice == None
            && change.rt.(pendingNavigation := rt.pendingNavigation, notice := rt.notice, broadcast := rt.broadcast) ==
               rt
            && (pending.direction == Return ==> change.rt.broadcast == rt.broadcast && change.audits == [])
            && (pending.direction == Forward ==>
                  && change.rt.broadcast == Some(b.(terminals := b.terminals[b.active.value :=
                       t.(execution := Some(Execution(Rejected, pending.commandId)))]))
                  && change.audits == [Audit(Decided, Declined, pending.requestId, TransitionMode)])
  {
    hide Inv;
    WaitingIsAnswered(rt, env, request, false, pending, limit);
  }
}
