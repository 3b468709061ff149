/** What a session sees is where the players are: the last update published to it tells
    the truth about the terminal, the way back and the session itself. */
module Screens {
  import opened Domain
  import opened State
  import opened Changes
  import opened Sessions
  import opened Claims
  import opened Terminals
  import opened Dispatch
  import opened Views
  import opened Coordinator
  import opened Catalogue
  import opened Invariants
  import opened Publication
  import opened Positions
  import opened Ownership
  import opened Actions
  import opened Approvals
  import Nav
  import Puzzles

  // ---------------------------------------------------------------- the terminal

  /** The folder the players are shown: the published tree walked along the published path. */
  function ShownFolder(view: TerminalView): Option<ContentNode> {
    Nav.FolderAt(view.tree, view.nav.path)
  }

  /** The screen shows the checkpoint: its content, the folder the players stand in, and as
      open exactly what is open there. */
  predicate ShowsTerminal(view: TerminalView, t: Terminal) {
    && view.terminalId == t.terminalId && view.terminalName == t.terminalName && view.introText == t.introText
    && view.commandStates == t.commandStates && view.hackLevel == t.hackLevel && view.presentation == t.presentation
    && ShownFolder(view).Some? && ShownFolder(view) == Nav.FolderAt(t.tree, t.nav.path)
    && view.nav.viewEntry == t.nav.viewEntry && (view.nav.mode == EntryMode <==> view.nav.viewEntry.Some?)
    && view.nav.command == t.nav.command && view.execution == t.execution
    && (view.hack.Some? <==> t.hack.Some?)
    && (view.hack.Some? ==>
          && view.hack.value.solved == t.hack.value.solved && view.hack.value.failed == t.hack.value.failed
          && view.hack.value.attemptsLeft == t.hack.value.attemptsLeft && view.hack.value.log == t.hack.value.log
          && view.hack.value.columns == t.hack.value.columns)
  }

  /** And how far the players have come: how many stops there are to go back, which is
      next, and what the Overseer is asked about. */
  predicate ShowsWay(view: TerminalView, rt: Runtime)
    requires rt.broadcast.Some?
  {
    var route, pending := rt.broadcast.value.route, rt.pendingNavigation;
    && (view.navigation.None? <==> route == [] && pending.None?)
    && (view.navigation.Some? ==>
          var way := view.navigation.value;
          && way.depth == |route|
          && (way.returnTarget.Some? <==> route != [])
          && (route != [] ==> way.returnTarget.value.id == route[|route| - 1].terminalId
                              && way.returnTarget.value.name == route[|route| - 1].terminalName)
          && (way.pending.Some? <==> pending.Some?) && (way.pendingTarget.Some? <==> pending.Some?)
          && (pending.Some? ==> way.pending.value == pending.value.direction
                                && way.pendingTarget.value.id == pending.value.target
                                && way.pendingTarget.value.name == pending.value.targetName))
  }

  /** A session that plays somebody is shown the terminal on the air, or that there is
      none; a session that plays nobody is shown neither. */
  ghost predicate TellsTerminal(rt: Runtime, session: string, update: Update) {
    && (update.terminal.Some? <==> PlaysSomebody(rt, session))
    && (update.terminal.Some? ==>
          && rt.broadcast.Some?
          && (update.terminal.value.NoLiveTerminal? <==> rt.broadcast.value.active.None?)
          && (update.terminal.value.Live? ==>
                && ActiveTerminal(rt.broadcast).Some?
                && ShowsTerminal(update.terminal.value.view, ActiveTerminal(rt.broadcast).value)
                && ShowsWay(update.terminal.value.view, rt)))
  }

  /** What the session is told about itself. */
  ghost predicate TellsPlayer(rt: Runtime, session: string, player: PlayerState) {
    && player.revision == rt.revision && player.sessionId == session
    && session in rt.sessions && player.fallbackName == rt.sessions[session].fallbackName
    && player.notice == rt.sessions[session].notice
    && (player.role == ActiveRole <==> ControllerOf(rt) == Some(session))
    && (player.role == UnassignedRole <==> !PlaysSomebody(rt, session))
    && (player.character.Some? <==> PlaysSomebody(rt, session))
    && (player.character.Some? ==>
          && Claim(session, player.character.value.id) in ClaimsOf(rt)
          && player.character.value.id in rt.roster
          && player.character.value.name == rt.roster[player.character.value.id].name)
    && (player.phase == NoBroadcast <==> rt.broadcast.None?)
    && (player.phase == Selecting <==> rt.broadcast.Some? && !PlaysSomebody(rt, session))
    && (player.phase == Waiting <==>
          PlaysSomebody(rt, session) && rt.broadcast.Some? && rt.broadcast.value.active.None?)
    && (player.phase == Controlling <==>
          ControllerOf(rt) == Some(session) && rt.broadcast.Some? && rt.broadcast.value.active.Some?)
    && (rt.broadcast.Some? ==> player.broadcastId == rt.broadcast.value.id)
    && (rt.broadcast.Some? && rt.broadcast.value.active.Some? ==>
          player.activeTerminalId == rt.broadcast.value.active.value)
  }

  lemma ProjectionShows(t: Terminal, navigation: Option<NavigationView>)
    requires Placed(t)
    ensures ShowsTerminal(Project(t, navigation), t)
  {
    hide Puzzles.SpansFrom, Puzzles.PublicPatterns;
  }

  lemma NavigationShows(rt: Runtime, t: Terminal)
    requires rt.broadcast.Some?
    ensures ShowsWay(Project(t, Navigation(rt)), rt)
  {
    hide Puzzles.Public;
  }

  lemma PlaysIff(rt: Runtime, session: string, limit: nat)
    requires Inv(rt, limit)
    ensures Plays(rt, session) <==> PlaysSomebody(rt, session)
  {
    if rt.broadcast.Some? {
      PlaysReads(rt, session);
    }
  }

  lemma UpdateTellsTerminal(rt: Runtime, session: string, limit: nat)
    requires Inv(rt, limit) && PositionsOk(rt) && session in rt.sessions
    ensures TellsTerminal(rt, session, CompoundUpdate(rt, session))
  {
    hide PlayerView, Project, Navigation, ShowsTerminal, ShowsWay, Placed;
    PlaysIff(rt, session, limit);
    if ActiveTerminal(rt.broadcast).Some? {
      var t := ActiveTerminal(rt.broadcast).value;
      ProjectionShows(t, Navigation(rt));
      NavigationShows(rt, t);
    }
  }

  lemma UpdateTellsPlayer(rt: Runtime, session: string, limit: nat)
    requires Inv(rt, limit) && session in rt.sessions
    ensures TellsPlayer(rt, session, CompoundUpdate(rt, session).player)
  {
    hide RosterView, Views.RosterIds, ShownTerminal;
    if rt.broadcast.Some? {
      PlaysReads(rt, session);
    }
  }

  // ---------------------------------------------------------------- every reachable state

  /** The last update a session has been sent. */
  ghost function Screen(s: Coordinator, session: string): Option<Update> {
    LastUpdate(s.log, session)
  }

  ghost predicate RunOver(states: seq<Coordinator>, steps: seq<Step>, limit: nat, n: nat) {
    && IsRun(states, steps, limit) && limit >= 1 && n < |states|
    && forall step :: step in steps[..n] ==> ValidCatalog(step.env.catalog) && RootedContent(step.op)
  }

  /** In every reachable state the last thing each session was sent is true. */
  lemma ScreensTellTheTruth(states: seq<Coordinator>, steps: seq<Step>, limit: nat, n: nat, session: string)
    requires RunOver(states, steps, limit, n) && session in states[n].rt.sessions
    ensures Screen(states[n], session).Some?
    ensures var rt, update := states[n].rt, Screen(states[n], session).value;
            TellsTerminal(rt, session, update) && TellsPlayer(rt, session, update.player) &&
                update.revision == rt.revision
  {
    hide TellsTerminal, TellsPlayer;
    RunIsHealthy(states, steps, limit, n);
    RunKeepsPositions(states, steps, limit, n);
    UpdateTellsTerminal(states[n].rt, session, limit);
    UpdateTellsPlayer(states[n].rt, session, limit);
  }

  /** A command that does one thing, in the folder shown on the screen. */
  predicate ShownCommand(view: TerminalView, nodeId: string, authored: ContentNode) {
    && nodeId != "" && ShownFolder(view).Some?
    && Nav.Child(ShownFolder(view).value, nodeId, Command) == Some(authored)
  }

  predicate OneThing(authored: ContentNode) {
    authored.stateChange.None? || authored.transition.None?
  }

  /** So the screen tells what may be asked for: a request to open a command moves things
      on exactly if the folder on the screen has a command of that identifier, and that
      command does one thing. */
  lemma OnlyShownCommandsOpen(states: seq<Coordinator>, steps: seq<Step>, limit: nat, n: nat, env: Env,
                              connection: string, session: string, c: PlayerCommand, rules: Rules)
    requires RunOver(states, steps, limit, n) && ValidCatalog(env.catalog) && env.limit == limit
    requires MayAct(states[n].rt, connection, session, c, rules) && c.kind == "navigate" && c.action == "command"
    ensures Screen(states[n], session).Some? && Screen(states[n], session).value.terminal.Some?
    ensures Screen(states[n], session).value.terminal.value.Live?
    ensures var view := Screen(states[n], session).value.terminal.value.view;
            DispatchAction(states[n].rt, env, connection, c, rules).change.Accept? <==>
            exists authored :: ShownCommand(view, c.nodeId, authored) && OneThing(authored)
  {
    hide DispatchAction, MayAct, Inv, RunOver, PositionsOk, TellsPlayer, ShowsWay, ValidCatalog, ShownCommand, Offers,
         Placed, ActiveTerminal, PlaysSomebody;
    Reachable(states, steps, limit, n);
    var rt := states[n].rt;
    ControllerIsShown(rt, env, connection, session, c, rules);
    ScreensTellTheTruth(states, steps, limit, n, session);
    var t, view := ActiveTerminal(rt.broadcast).value, Screen(states[n], session).value.terminal.value.view;
    ActiveIsPlaced(rt);
    forall authored ensures ShownCommand(view, c.nodeId, authored) <==> Offers(t, c.nodeId, authored) {
      SameFolderSameCommands(view, t, c.nodeId, authored);
    }
    if authored :| Offers(t, c.nodeId, authored) && OneThing(authored) {
      if authored.transition.None? {
        CommandsAreAskedFor(rt, env, connection, session, c, rules, t, authored);
      } else {
        LinksAreAskedFor(rt, env, connection, session, c, rules, t, authored);
      }
    } else {
      NothingElseOpens(rt, env, connection, session, c, rules, t);
    }
  }

  lemma Reachable(states: seq<Coordinator>, steps: seq<Step>, limit: nat, n: nat)
    requires RunOver(states, steps, limit, n)
    ensures n < |states| && Inv(states[n].rt, limit) && PositionsOk(states[n].rt)
  {
    RunKeepsInv(states, steps, limit, n);
    RunKeepsPositions(states, steps, limit, n);
  }

  lemma ControllerIsShown(rt: Runtime, env: Env, connection: string, session: string, c: PlayerCommand, rules: Rules)
    requires Inv(rt, env.limit) && MayAct(rt, connection, session, c, rules)
    ensures rt.broadcast.Some? && rt.broadcast.value.active.Some? && ActiveTerminal(rt.broadcast).Some?
    ensures PlaysSomebody(rt, session) && session in rt.sessions
  {
    PlaysReads(rt, session);
  }

  lemma SameFolderSameCommands(view: TerminalView, t: Terminal, nodeId: string, authored: ContentNode)
    requires ShowsTerminal(view, t)
    ensures ShownCommand(view, nodeId, authored) <==> Offers(t, nodeId, authored)
  {
  }

  // ---------------------------------------------------------------- a step and what it shows

  /** What a session that may act sees. */
  ghost predicate Sees(s: Coordinator, session: string, t: Terminal, view: TerminalView) {
    && ActiveTerminal(s.rt.broadcast) == Some(t) && ShowsTerminal(view, t)
    && exists revision, player :: Screen(s, session) == Some(Update(revision, player, Some(Live(view))))
  }

  /** Entering a folder on the screen shows that folder, with nothing open; whatever else
      a player tries to enter, the screen stays where it is. */
  lemma EnteringShows(s: Coordinator, env: Env, connection: string, session: string, c: PlayerCommand, rules: Rules,
                      t: Terminal, view: TerminalView)
    returns (u: Terminal, after: TerminalView)
    requires Healthy(s, env.limit) && env.limit >= 1 && PositionsOk(s.rt) && Sees(s, session, t, view)
    requires MayAct(s.rt, connection, session, c, rules) && c.kind == "navigate" && c.action == "enter"
    requires t.execution == None
    ensures Sees(Commit(s, DispatchAction(s.rt, env, connection, c, rules).change), session, u, after)
    ensures ShownFolder(view).Some?
    ensures var inner := Nav.Child(ShownFolder(view).value, c.nodeId, Folder);
            if inner.Some? then
              ShownFolder(after) == inner && after.nav.viewEntry == None && after.nav.command == None
            else
              ShownFolder(after) == ShownFolder(view) && after.nav.viewEntry == view.nav.viewEntry
              && after.nav.command == view.nav.command
  {
    hide DispatchAction, MayAct, Inv, TakenOn, RefusedFor, ViewsCurrent, LogOrdered, Conserved, PositionsOk, Commit,
         Nav.Applied, ShowsTerminal, Screen;
    var reply := DispatchAction(s.rt, env, connection, c, rules);
    ControllerIsShown(s.rt, env, connection, session, c, rules);
    ActiveIsPlaced(s.rt);
    MovesExactly(s.rt, env, connection, session, c, rules, t);
    u := t.(execution := None, nav := Nav.Applied(t.nav, t.tree, Enter, c.nodeId));
    after := StepShows(s, env, connection, session, c, rules, reply, u);
    EnteredFolder(t, view, u, after, c.nodeId);
  }

  lemma EnteredFolder(t: Terminal, view: TerminalView, u: Terminal, after: TerminalView, nodeId: string)
    requires Placed(t) && ShowsTerminal(view, t) && ShowsTerminal(after, u)
    requires u == t.(execution := None, nav := Nav.Applied(t.nav, t.tree, Enter, nodeId))
    ensures ShownFolder(view).Some?
    ensures var inner := Nav.Child(ShownFolder(view).value, nodeId, Folder);
            if inner.Some? then
              ShownFolder(after) == inner && after.nav.viewEntry == None && after.nav.command == None
            else
              ShownFolder(after) == ShownFolder(view) && after.nav.viewEntry == view.nav.viewEntry
              && after.nav.command == view.nav.command
  {
    hide Nav.Applied;
    Nav.EntersExactly(t.nav, t.tree, nodeId);
  }

  // An accepted step of the controller is on its screen at once.
  lemma StepShows(s: Coordinator, env: Env, connection: string, session: string, c: PlayerCommand, rules: Rules,
                  reply: Reply, u: Terminal)
    returns (view: TerminalView)
    requires Healthy(s, env.limit) && env.limit >= 1 && PositionsOk(s.rt)
    requires MayAct(s.rt, connection, session, c, rules) && DispatchAction(s.rt, env, connection, c, rules) == reply
    requires TakenOn(s.rt, session, reply, c.requestId, u, false)
    ensures Sees(Commit(s, reply.change), session, u, view)
  {
    hide DispatchAction, MayAct, Inv, ViewsCurrent, LogOrdered, Conserved, Commit, ShowsTerminal, ShowsWay,
         PlaysSomebody,
         TellsPlayer;
    var op := PlayerAction(connection, c, rules);
    StepIsHealthy(s, env, op);
    OperationFramesPositions(s, env, op);
    var next := Commit(s, reply.change);
    CommitShows(s, reply, u, session, c.requestId);
    ControllerIsShown(s.rt, env, connection, session, c, rules);
    StillPlays(s.rt, next.rt, session);
    CurrentScreen(next, session, env.limit);
    UpdateTellsTerminal(next.rt, session, env.limit);
    var update := CompoundUpdate(next.rt, session);
    view := update.terminal.value.view;
    assert Screen(next, session) == Some(Update(update.revision, update.player, Some(Live(view))));
  }

  lemma OperationFramesPositions(s: Coordinator, env: Env, op: Operation)
    requires PositionsOk(s.rt) && op.PlayerAction?
    ensures PositionsOk(Commit(s, Execute(s.rt, env, op)).rt)
  {
    hide DispatchAction, PositionsOk;
    DispatchKeepsPositions(s.rt, env, op.connection, op.action, op.rules);
    CommitFramesPositions(s, Execute(s.rt, env, op));
  }

  lemma CommitShows(s: Coordinator, reply: Reply, u: Terminal, session: string, requestId: string)
    requires TakenOn(s.rt, session, reply, requestId, u, false)
    ensures var next := Commit(s, reply.change).rt;
            && ActiveTerminal(next.broadcast) == Some(u) && session in next.sessions
            && ClaimsOf(next) == ClaimsOf(s.rt)
            && next.broadcast.Some? && next.broadcast.value.active.Some?
  {
  }

  lemma StillPlays(rt: Runtime, after: Runtime, session: string)
    requires ClaimsOf(after) == ClaimsOf(rt) && PlaysSomebody(rt, session)
    ensures PlaysSomebody(after, session)
  {
  }

  lemma CurrentScreen(s: Coordinator, session: string, limit: nat)
    requires Healthy(s, limit) && session in s.rt.sessions
    ensures Screen(s, session) == Some(CompoundUpdate(s.rt, session))
  {
    hide Inv;
  }

  // ---------------------------------------------------------------- telling states apart

  /** Nothing the players could notice about a terminal is hidden from them: two states
      that show the same screen agree on the terminal, on where the players stand in it
      and on the way back. */
  lemma SameScreenSameTruth(rt: Runtime, other: Runtime, session: string, limit: nat)
    requires Inv(rt, limit) && Inv(other, limit) && session in rt.sessions && session in other.sessions
    requires PlaysSomebody(rt, session) && PlaysSomebody(other, session)
    requires CompoundUpdate(rt, session).terminal == CompoundUpdate(other, session).terminal
    ensures rt.broadcast.Some? && other.broadcast.Some?
    ensures ActiveTerminal(rt.broadcast).Some? <==> ActiveTerminal(other.broadcast).Some?
    ensures ActiveTerminal(rt.broadcast).Some? ==>
              var t, u := ActiveTerminal(rt.broadcast).value, ActiveTerminal(other.broadcast).value;
              var route, way := rt.broadcast.value.route, other.broadcast.value.route;
              && t.(hack := u.hack) == u && (t.hack.Some? <==> u.hack.Some?)
              && |route| == |way|
              && (route != [] ==> route[|route| - 1].terminalId == way[|way| - 1].terminalId)
              && (rt.pendingNavigation.Some? <==> other.pendingNavigation.Some?)
              && (rt.pendingNavigation.Some? ==>
                    rt.pendingNavigation.value.direction == other.pendingNavigation.value.direction
                    && rt.pendingNavigation.value.target == other.pendingNavigation.value.target)
  {
    hide PlayerView, Puzzles.Public, PlaysSomebody;
    PlaysIff(rt, session, limit);
    PlaysIff(other, session, limit);
  }
}
