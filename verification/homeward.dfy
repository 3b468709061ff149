/** The way home: pressing "back" and approving each return climbs folder by folder
    and stop by stop, and undoes a step forward. */
module Homeward {
  import opened Domain
  import opened State
  import opened Changes
  import opened Sessions
  import opened Claims
  import opened Terminals
  import opened Dispatch
  import opened Coordinator
  import opened Catalogue
  import opened Invariants
  import opened Runs
  import opened Journeys
  import opened Positions
  import Nav
  import Route
  import Text

  // ---------------------------------------------------------------- standing somewhere

  /** Nothing is being asked, and the players see terminal `t` at the end of `route`. */
  predicate Standing(rt: Runtime, t: Terminal, route: seq<ReturnPoint>) {
    && rt.broadcast.Some? && rt.broadcast.value.active == Some(t.terminalId)
    && ActiveTerminal(rt.broadcast) == Some(t) && t.lifecycle == Active
    && rt.broadcast.value.route == route
    && rt.pendingCommand == None && rt.pendingNavigation == None
  }

  // Everything the invariants say about a state under one catalogue.
  predicate Sane(catalog: Catalog, rt: Runtime, limit: nat) {
    && ValidCatalog(catalog) && limit >= 1
    && Inv(rt, limit) && JourneyOk(catalog.groups, rt) && PositionsOk(rt)
  }

  function After(rt: Runtime, change: Change): Runtime {
    match change
    case Reject(audits) => rt
    case Persist(next, audits) => next.(revision := rt.revision)
    case Accept(next, audits) => next.(revision := rt.revision + 1)
  }

  lemma CommitInstalls(s: Coordinator, change: Change)
    ensures Commit(s, change).rt == After(s.rt, change)
  {
  }

  ghost function Performed(rt: Runtime, env: Env, op: Operation): Runtime {
    After(rt, Execute(rt, env, op))
  }

  lemma PerformedIsSane(rt: Runtime, env: Env, op: Operation)
    requires Sane(env.catalog, rt, env.limit) && Supplied(rt, op) && RootedContent(op)
    requires !op.OnTerminal?
    requires op.Decide? ==> !op.decision.ReplaceTerminalGroups?
    ensures Sane(env.catalog, Performed(rt, env, op), env.limit)
  {
    OperationKeeps(rt, env, op);
    OperationKeepsJourney(rt, env, op);
    OperationKeepsPositions(rt, env, op);
  }

  // ---------------------------------------------------------------- one press

  /** A press of "back" the coordinator lets through, with a working identifier source
      and a terminal runtime that delivers. */
  ghost predicate Pressing(rt: Runtime, env: Env, connection: string, c: PlayerCommand, rules: Rules) {
    && IsNavigation(c, Back)
    && Prepare(rt, env, connection, c, rules).Go?
    && env.delivered && env.id != "" && Text.Trim(env.id) == env.id
  }

  lemma LetThrough(rt: Runtime, env: Env, connection: string, c: PlayerCommand, rules: Rules, t: Terminal)
    returns (session: string)
    requires ActiveTerminal(rt.broadcast) == Some(t) && Prepare(rt, env, connection, c, rules).Go?
    ensures rt.broadcast.Some? && rt.broadcast.value.active.Some?
    ensures DispatchAction(rt, env, connection, c, rules) == Act(rt, env, session, t, c, rules)
  {
    session := Prepare(rt, env, connection, c, rules).session;
    PreparedShowsActive(rt, env, connection, c, rules, t);
  }

  lemma PreparedShowsActive(rt: Runtime, env: Env, connection: string, c: PlayerCommand, rules: Rules, t: Terminal)
    requires Prepare(rt, env, connection, c, rules).Go? && ActiveTerminal(rt.broadcast) == Some(t)
    ensures Prepare(rt, env, connection, c, rules).terminal == t
  {
    PrepareFacts(rt, env, connection, c, rules);
  }

  lemma PlayStands(rt: Runtime, env: Env, session: string, c: PlayerCommand, rules: Rules, t: Terminal,
                   route: seq<ReturnPoint>)
    requires Standing(rt, t, route) && IsNavigation(c, Back)
    requires t.execution.Some? ==> t.execution.value.phase == Rejected
    ensures Standing(After(rt, RequestPlay(rt, env, session, t, c, rules).change),
                     t.(execution := None, nav := Nav.Applied(t.nav, t.tree, Back, c.nodeId)), route)
  {
  }

  lemma ActionPerforms(rt: Runtime, env: Env, connection: string, c: PlayerCommand, rules: Rules, reply: Reply)
    requires DispatchAction(rt, env, connection, c, rules) == reply
    ensures Performed(rt, env, PlayerAction(connection, c, rules)) == After(rt, reply.change)
  {
  }

  lemma PressIsPlay(rt: Runtime, env: Env, connection: string, c: PlayerCommand, rules: Rules, t: Terminal)
    returns (session: string)
    requires ActiveTerminal(rt.broadcast) == Some(t) && rt.broadcast.Some? && rt.broadcast.value.active.Some?
    requires Pressing(rt, env, connection, c, rules) && !ReturnRequested(t, c, rt.broadcast.value.route)
    ensures Performed(rt, env, PlayerAction(connection, c, rules)) ==
            After(rt, RequestPlay(rt, env, session, t, c, rules).change)
  {
    session := LetThrough(rt, env, connection, c, rules, t);
    BackIsPlay(rt, env, session, t, c, rules);
    ActionPerforms(rt, env, connection, c, rules, RequestPlay(rt, env, session, t, c, rules));
  }

  lemma BackIsPlay(rt: Runtime, env: Env, session: string, t: Terminal, c: PlayerCommand, rules: Rules)
    requires rt.broadcast.Some? && rt.broadcast.value.active.Some? && IsNavigation(c, Back)
    requires !ReturnRequested(t, c, rt.broadcast.value.route)
    ensures Act(rt, env, session, t, c, rules) == RequestPlay(rt, env, session, t, c, rules)
  {
  }

  lemma PressIsReturn(rt: Runtime, env: Env, connection: string, c: PlayerCommand, rules: Rules, t: Terminal)
    returns (session: string)
    requires ActiveTerminal(rt.broadcast) == Some(t) && rt.broadcast.Some?
    requires Pressing(rt, env, connection, c, rules) && ReturnRequested(t, c, rt.broadcast.value.route)
    ensures Performed(rt, env, PlayerAction(connection, c, rules)) ==
            After(rt, RequestReturn(rt, env, session, t, c).change)
  {
    hide RequestReturn, DispatchAction, Act;
    session := LetThrough(rt, env, connection, c, rules, t);
    BackIsReturn(rt, env, session, t, c, rules);
    ActionPerforms(rt, env, connection, c, rules, RequestReturn(rt, env, session, t, c));
  }

  lemma BackIsReturn(rt: Runtime, env: Env, session: string, t: Terminal, c: PlayerCommand, rules: Rules)
    requires rt.broadcast.Some? && rt.broadcast.value.active.Some? && ReturnRequested(t, c, rt.broadcast.value.route)
    ensures Act(rt, env, session, t, c, rules) == RequestReturn(rt, env, session, t, c)
  {
  }

  lemma PressInside(rt: Runtime, env: Env, connection: string, c: PlayerCommand, rules: Rules, t: Terminal,
                    route: seq<ReturnPoint>)
    requires Standing(rt, t, route) && Pressing(rt, env, connection, c, rules)
    requires !ReturnRequested(t, c, route) && (t.execution.Some? ==> t.execution.value.phase == Rejected)
    ensures Standing(Performed(rt, env, PlayerAction(connection, c, rules)),
                     t.(execution := None, nav := Nav.Applied(t.nav, t.tree, Back, c.nodeId)), route)
  {
    var session := PressIsPlay(rt, env, connection, c, rules, t);
    PlayStands(rt, env, session, c, rules, t, route);
  }

  /** The Overseer is asked whether the players may go back to the top of the route. */
  predicate AsksToReturn(rt: Runtime, t: Terminal, route: seq<ReturnPoint>) {
    && rt.pendingNavigation.Some? && rt.broadcast.Some? && route != []
    && Standing(rt.(pendingNavigation := None), t, route)
    && var p := rt.pendingNavigation.value; var top := route[|route| - 1];
       && p.direction == Return && p.broadcastId == rt.broadcast.value.id && p.source == t.terminalId
       && p.returnPoint == top && p.target == top.terminalId
       && p.requestId == Text.Trim(p.requestId) != ""
  }

  /** The stop at the top of the route can be returned to and is known. */
  predicate Returnable(catalog: Catalog, t: Terminal, route: seq<ReturnPoint>) {
    && route != []
    && Route.ValidReturn(catalog.groups, t.terminalId, route[|route| - 1])
    && LookupTerminal(catalog, route[|route| - 1].terminalId).Some?
  }

  lemma PressAtRoot(rt: Runtime, env: Env, connection: string, c: PlayerCommand, rules: Rules, t: Terminal,
                    route: seq<ReturnPoint>)
    requires Standing(rt, t, route) && Pressing(rt, env, connection, c, rules)
    requires ReturnRequested(t, c, route) && Returnable(env.catalog, t, route)
    ensures AsksToReturn(Performed(rt, env, PlayerAction(connection, c, rules)), t, route)
    ensures var asked := Performed(rt, env, PlayerAction(connection, c, rules));
            asked.pendingNavigation.value.requestId == env.id && asked.pendingSwitch == rt.pendingSwitch
  {
    var session := PressIsReturn(rt, env, connection, c, rules, t);
    ReturnAsks(rt, env, session, c, t, route);
  }

  lemma ReturnAsks(rt: Runtime, env: Env, session: string, c: PlayerCommand, t: Terminal, route: seq<ReturnPoint>)
    requires Standing(rt, t, route) && Returnable(env.catalog, t, route) && env.id == Text.Trim(env.id) != ""
    ensures AsksToReturn(After(rt, RequestReturn(rt, env, session, t, c).change), t, route)
    ensures var asked := After(rt, RequestReturn(rt, env, session, t, c).change);
            asked.pendingNavigation.value.requestId == env.id && asked.pendingSwitch == rt.pendingSwitch
  {
  }

  lemma ApprovalResolves(rt: Runtime, env: Env, t: Terminal, route: seq<ReturnPoint>)
    requires AsksToReturn(rt, t, route)
    ensures var pending := rt.pendingNavigation.value;
            Performed(rt, env, Decide(ResolveTerminalNavigation(pending.requestId, true))) ==
                After(rt, ApproveReturn(rt, env, pending))
  {
    assert NavigationCurrent(rt, rt.pendingNavigation.value.requestId);
  }

  /** Approving a return that is still possible shows the previous terminal at its
      remembered folder and shortens the route by that stop. */
  lemma ApprovedReturnArrives(rt: Runtime, env: Env, t: Terminal, route: seq<ReturnPoint>)
    requires AsksToReturn(rt, t, route) && Returnable(env.catalog, t, route) && env.delivered
    requires OneActive(rt.broadcast.value.terminals, rt.broadcast.value.active)
    ensures Returned(env.catalog,
                     Performed(rt, env, Decide(ResolveTerminalNavigation(rt.pendingNavigation.value.requestId, true))),
                     route)
  {
    FoundTerminal(env.catalog.terminals, route[|route| - 1].terminalId);
    var pending := rt.pendingNavigation.value;
    ApprovalResolves(rt, env, t, route);
    ReturnShows(rt, env, pending, t, route);
  }

  /** The players stand at the remembered folder of what was the top of the route. */
  predicate Returned(catalog: Catalog, rt: Runtime, route: seq<ReturnPoint>) {
    && route != [] && ActiveTerminal(rt.broadcast).Some?
    && var shown := ActiveTerminal(rt.broadcast).value;
       var top := route[|route| - 1];
       && LookupTerminal(catalog, top.terminalId).Some?
       && Standing(rt, shown, route[..|route| - 1])
       && shown.terminalId == top.terminalId && shown.execution == None
       && shown.tree == LookupTerminal(catalog, top.terminalId).value.tree
       && shown.nav == Nav.Restored(shown.tree, top.folderId, top.ancestors)
  }

  lemma ReturnShows(rt: Runtime, env: Env, pending: PendingNavigation, t: Terminal, route: seq<ReturnPoint>)
    requires rt.pendingCommand == None && env.delivered && route != []
    requires rt.broadcast.Some? && OneActive(rt.broadcast.value.terminals, rt.broadcast.value.active)
    requires Standing(rt.(pendingNavigation := None), t, route)
    requires pending.source == t.terminalId && pending.returnPoint == route[|route| - 1]
    requires pending.target == route[|route| - 1].terminalId
    requires Route.ValidReturn(env.catalog.groups, t.terminalId, route[|route| - 1])
    requires LookupTerminal(env.catalog, pending.target).Some?
    requires LookupTerminal(env.catalog, pending.target).value.terminalId == pending.target
    ensures ApproveReturn(rt, env, pending).Accept?
    ensures Returned(env.catalog, ApproveReturn(rt, env, pending).rt, route)
  {
  }

  // ---------------------------------------------------------------- one step home

  /** One press, and the approval of the return it may ask for. */
  datatype Press = Press(env: Env, approval: Env, connection: string, action: PlayerCommand, rules: Rules)

  ghost function Pressed(rt: Runtime, p: Press): Runtime {
    Performed(rt, p.env, PlayerAction(p.connection, p.action, p.rules))
  }

  ghost function StepHome(rt: Runtime, p: Press): Runtime {
    var pressed := Pressed(rt, p);
    if pressed.pendingNavigation.None? then pressed
    else
      Performed(pressed, p.approval,
                Decide(ResolveTerminalNavigation(pressed.pendingNavigation.value.requestId, true)))
  }

  ghost predicate Admitted(catalog: Catalog, limit: nat, rt: Runtime, p: Press) {
    && Pressing(rt, p.env, p.connection, p.action, p.rules)
    && p.env.catalog == p.approval.catalog == catalog && p.env.limit == p.approval.limit == limit
    && p.approval.delivered
  }

  /** A sane state in which nobody waits for a decision. */
  predicate AtEase(catalog: Catalog, limit: nat, rt: Runtime) {
    && Sane(catalog, rt, limit)
    && ActiveTerminal(rt.broadcast).Some?
    && var t := ActiveTerminal(rt.broadcast).value;
       && Standing(rt, t, rt.broadcast.value.route)
       && (t.execution.Some? ==> t.execution.value.phase == Rejected)
  }

  function Shown(rt: Runtime): Terminal
    requires ActiveTerminal(rt.broadcast).Some?
  {
    ActiveTerminal(rt.broadcast).value
  }

  function RouteOf(rt: Runtime): seq<ReturnPoint>
    requires rt.broadcast.Some?
  {
    rt.broadcast.value.route
  }

  // Folders, open views and a refused command between the players and the bare root.
  function Height(t: Terminal): nat
    requires t.nav.path != []
  {
    Nav.Depth(t.nav) + if t.execution.Some? then 1 else 0
  }

  predicate Home(rt: Runtime) {
    ActiveTerminal(rt.broadcast).Some? && rt.broadcast.Some? && RouteOf(rt) == [] && AtRoot(Shown(rt))
  }

  /** The stop at the top of a sound route can always be returned to. */
  lemma TopIsReturnable(catalog: Catalog, limit: nat, rt: Runtime)
    requires AtEase(catalog, limit, rt) && RouteOf(rt) != []
    ensures Returnable(catalog, Shown(rt), RouteOf(rt))
  {
    Route.SoundRouteCanReturn(catalog.groups, JourneyOf(rt.broadcast.value));
    FoundGroup(catalog.groups, RouteOf(rt)[|RouteOf(rt)| - 1].terminalId);
  }

  lemma StepInside(catalog: Catalog, limit: nat, rt: Runtime, p: Press)
    requires AtEase(catalog, limit, rt) && Admitted(catalog, limit, rt, p)
    requires !ReturnRequested(Shown(rt), p.action, RouteOf(rt))
    ensures var next := StepHome(rt, p);
            && AtEase(catalog, limit, next)
            && RouteOf(next) == RouteOf(rt) && Shown(next).terminalId == Shown(rt).terminalId
            && (if Home(rt) then Home(next) else Height(Shown(next)) < Height(Shown(rt)))
  {
    var t := Shown(rt);
    PressInside(rt, p.env, p.connection, p.action, p.rules, t, RouteOf(rt));
    PerformedIsSane(rt, p.env, PlayerAction(p.connection, p.action, p.rules));
    ActiveIsPlaced(rt);
    Nav.BackClimbs(t.nav, t.tree, p.action.nodeId);
  }

  lemma StepAcross(catalog: Catalog, limit: nat, rt: Runtime, p: Press)
    requires AtEase(catalog, limit, rt) && Admitted(catalog, limit, rt, p)
    requires ReturnRequested(Shown(rt), p.action, RouteOf(rt))
    ensures AtEase(catalog, limit, StepHome(rt, p)) && Returned(catalog, StepHome(rt, p), RouteOf(rt))
  {
    TopIsReturnable(catalog, limit, rt);
    PressAtRoot(rt, p.env, p.connection, p.action, p.rules, Shown(rt), RouteOf(rt));
    PerformedIsSane(rt, p.env, PlayerAction(p.connection, p.action, p.rules));
    ApprovalArrives(catalog, limit, Pressed(rt, p), p.approval, Shown(rt), RouteOf(rt));
  }

  lemma ApprovalArrives(catalog: Catalog, limit: nat, rt: Runtime, env: Env, t: Terminal, route: seq<ReturnPoint>)
    requires Sane(catalog, rt, limit) && AsksToReturn(rt, t, route) && Returnable(catalog, t, route)
    requires env.catalog == catalog && env.limit == limit && env.delivered
    ensures var next :=
              Performed(rt, env, Decide(ResolveTerminalNavigation(rt.pendingNavigation.value.requestId, true)));
            AtEase(catalog, limit, next) && Returned(catalog, next, route)
  {
    ApprovedReturnArrives(rt, env, t, route);
    PerformedIsSane(rt, env, Decide(ResolveTerminalNavigation(rt.pendingNavigation.value.requestId, true)));
  }

  // ---------------------------------------------------------------- how far home is

  /** The deepest nesting of folders below a node. */
  function FolderDepth(node: ContentNode): nat
    decreases node, 1
  {
    DepthAmong(node.children)
  }

  function DepthAmong(children: seq<ContentNode>): nat
    decreases children, 0
  {
    if children == [] then 0
    else
      var here := 1 + FolderDepth(children[0]);
      var rest := DepthAmong(children[1..]);
      if here > rest then here else rest
  }

  lemma {:induction false} ChildIsShallower(children: seq<ContentNode>, id: string, kind: NodeKind)
    requires Nav.FirstChild(children, id, kind).Some?
    ensures 1 + FolderDepth(Nav.FirstChild(children, id, kind).value) <= DepthAmong(children)
  {
    if children[0].id != id || children[0].kind != kind {
      ChildIsShallower(children[1..], id, kind);
    }
  }

  lemma {:induction false} WalkIsBounded(folder: ContentNode, ids: seq<string>)
    requires Nav.Walk(folder, ids).Some?
    ensures |ids| <= FolderDepth(folder)
    decreases |ids|
  {
    if ids != [] {
      ChildIsShallower(folder.children, ids[0], Folder);
      WalkIsBounded(Nav.Child(folder, ids[0], Folder).value, ids[1..]);
    }
  }

  function MaxDepth(terminals: seq<Target>): nat {
    if terminals == [] then 0
    else
      var here, rest := FolderDepth(terminals[0].tree), MaxDepth(terminals[1..]);
      if here > rest then here else rest
  }

  lemma {:induction false} KnownIsBounded(terminals: seq<Target>, id: string)
    requires FindTerminal(terminals, id).Some?
    ensures FolderDepth(FindTerminal(terminals, id).value.tree) <= MaxDepth(terminals)
  {
    if terminals[0].terminalId != id {
      KnownIsBounded(terminals[1..], id);
    }
  }

  // Presses needed for `stops` returns when no tree is nested deeper than `depth`.
  function Budget(stops: nat, depth: nat): nat {
    if stops == 0 then 0 else Budget(stops - 1, depth) + depth + 1
  }

  /** How many presses of "back" suffice from here. */
  function Distance(catalog: Catalog, rt: Runtime): nat
    requires ActiveTerminal(rt.broadcast).Some? && rt.broadcast.Some? && Shown(rt).nav.path != []
  {
    Budget(|RouteOf(rt)|, MaxDepth(catalog.terminals)) + Height(Shown(rt))
  }

  /** No distance is left exactly at home. */
  lemma NoDistanceIsHome(catalog: Catalog, limit: nat, rt: Runtime)
    requires AtEase(catalog, limit, rt) && Shown(rt).nav.path != []
    ensures Distance(catalog, rt) == 0 <==> Home(rt)
  {
    ActiveIsPlaced(rt);
    Nav.BackClimbs(Shown(rt).nav, Shown(rt).tree, "");
  }

  /** Until the players are home every press brings them closer, in the folder or
      along the route; home, they stay. */
  lemma StepDescends(catalog: Catalog, limit: nat, rt: Runtime, p: Press)
    requires AtEase(catalog, limit, rt) && Admitted(catalog, limit, rt, p)
    ensures var next := StepHome(rt, p);
            && AtEase(catalog, limit, next)
            && Shown(rt).nav.path != [] && Shown(next).nav.path != []
            && (if Home(rt) then Home(next) else Distance(catalog, next) < Distance(catalog, rt))
            && (if ReturnRequested(Shown(rt), p.action, RouteOf(rt)) then Returned(catalog, next, RouteOf(rt))
                else RouteOf(next) == RouteOf(rt) && Shown(next).terminalId == Shown(rt).terminalId)
  {
    var next := StepHome(rt, p);
    ActiveIsPlaced(rt);
    if ReturnRequested(Shown(rt), p.action, RouteOf(rt)) {
      StepAcross(catalog, limit, rt, p);
      ReturnIsCloser(catalog, rt, next);
    } else {
      StepInside(catalog, limit, rt, p);
      ActiveIsPlaced(next);
    }
  }

  lemma ReturnIsCloser(catalog: Catalog, rt: Runtime, next: Runtime)
    requires PositionsOk(next) && ValidCatalog(catalog)
    requires ActiveTerminal(rt.broadcast).Some? && rt.broadcast.Some? && Shown(rt).nav.path != []
    requires Returned(catalog, next, RouteOf(rt))
    ensures Shown(next).nav.path != [] && Distance(catalog, next) < Distance(catalog, rt)
  {
    var top := RouteOf(rt)[|RouteOf(rt)| - 1];
    var t := Shown(next);
    FoundTerminal(catalog.terminals, top.terminalId);
    KnownIsBounded(catalog.terminals, top.terminalId);
    Nav.RestoreFollowsTheFolder(t.tree, top.folderId, top.ancestors);
    WalkIsBounded(t.tree, t.nav.path[1..]);
  }

  // ---------------------------------------------------------------- all the way

  ghost predicate IsWayHome(catalog: Catalog, limit: nat, states: seq<Runtime>, presses: seq<Press>) {
    && |states| == |presses| + 1
    && AtEase(catalog, limit, states[0])
    && forall i :: 0 <= i < |presses| ==>
         Admitted(catalog, limit, states[i], presses[i]) && states[i + 1] == StepHome(states[i], presses[i])
  }

  // The terminals still ahead are the bottom of the original route, and the players
  // stand at the stop that was just above it.
  predicate Unwound(origin: Runtime, rt: Runtime)
    requires ActiveTerminal(origin.broadcast).Some? && ActiveTerminal(rt.broadcast).Some?
    requires origin.broadcast.Some? && rt.broadcast.Some?
  {
    var route := RouteOf(origin);
    var left := |RouteOf(rt)|;
    && left <= |route| && RouteOf(rt) == route[..left]
    && Shown(rt).terminalId == if left < |route| then route[left].terminalId else Shown(origin).terminalId
  }

  lemma UnwindsFurther(catalog: Catalog, origin: Runtime, rt: Runtime, next: Runtime)
    requires ActiveTerminal(origin.broadcast).Some? && ActiveTerminal(rt.broadcast).Some? &&
             ActiveTerminal(next.broadcast).Some?
    requires origin.broadcast.Some? && rt.broadcast.Some? && next.broadcast.Some? && Unwound(origin, rt)
    requires Returned(catalog, next, RouteOf(rt))
             || (RouteOf(next) == RouteOf(rt) && Shown(next).terminalId == Shown(rt).terminalId)
    ensures Unwound(origin, next) && |RouteOf(rt)| - 1 <= |RouteOf(next)| <= |RouteOf(rt)|
  {
  }

  /** However the presses are made, the stops are visited from the top of the route
      down, none left out; and after `Distance` presses at the latest the players are
      home: at the root of the bottom stop with nothing left to return to. */
  lemma {:induction false} WayHomeUnwinds(catalog: Catalog, limit: nat, states: seq<Runtime>, presses: seq<Press>,
                                          n: nat)
    requires IsWayHome(catalog, limit, states, presses) && n < |states|
    ensures AtEase(catalog, limit, states[n]) && Shown(states[0]).nav.path != [] && Shown(states[n]).nav.path != []
    ensures Unwound(states[0], states[n])
    ensures n > 0 ==> AtEase(catalog, limit, states[n - 1]) &&
                      |RouteOf(states[n - 1])| - 1 <= |RouteOf(states[n])| <= |RouteOf(states[n - 1])|
    ensures Home(states[n]) || Distance(catalog, states[n]) + n <= Distance(catalog, states[0])
    ensures n >= Distance(catalog, states[0]) ==> Home(states[n])
  {
    if n == 0 {
      ActiveIsPlaced(states[0]);
    } else {
      WayHomeUnwinds(catalog, limit, states, presses, n - 1);
      StepDescends(catalog, limit, states[n - 1], presses[n - 1]);
      UnwindsFurther(catalog, states[0], states[n - 1], states[n]);
    }
    NoDistanceIsHome(catalog, limit, states[n]);
  }

  /** The stops that were seeded are the members of the group from its beginning, so
      they are visited in exactly the opposite order. */
  lemma SeededStopsAreMembers(catalog: Catalog, limit: nat, rt: Runtime, i: nat)
    requires AtEase(catalog, limit, rt) && i < |RouteOf(rt)| && RouteOf(rt)[i].origin == InitialPrefix
    ensures var group := FindGroup(catalog.groups, Shown(rt).terminalId);
            && group.Some? && i < |group.value.members|
            && (forall k :: 0 <= k <= i ==> RouteOf(rt)[k].terminalId == group.value.members[k])
  {
    var groups := catalog.groups;
    var route := RouteOf(rt);
    forall k | 0 <= k <= i
      ensures var group := FindGroup(groups, Shown(rt).terminalId);
              group.Some? && k < |group.value.members| && route[k].terminalId == group.value.members[k]
    {
      assert Route.SeedSound(groups, JourneyOf(rt.broadcast.value), i);
      assert Route.SeedSound(groups, JourneyOf(rt.broadcast.value), k);
      SameGroupMeansEqual(groups, route[k].terminalId, Shown(rt).terminalId);
    }
  }

  lemma OwnerOfConnection(rt: Runtime, connection: string, session: string)
    requires Distinct(rt.sessions) && session in rt.sessions && connection in rt.sessions[session].connections
    ensures Owner(rt, connection) == Some(session)
  {
    assert session in Owners(rt, connection);
    assert Owner(rt, connection).value in Owners(rt, connection);
  }

  /** Whoever controls the broadcast and is connected can press: a "back" with an
      unused request identifier is let through. */
  lemma BackIsAdmitted(rt: Runtime, env: Env, connection: string, session: string, requestId: string, rules: Rules,
                       t: Terminal, route: seq<ReturnPoint>)
    requires Inv(rt, env.limit) && Standing(rt, t, route)
    requires env.delivered && env.id != "" && Text.Trim(env.id) == env.id
    requires rt.broadcast.value.id != "" && !Text.Blank(t.terminalId)
    requires rt.broadcast.value.controller == Some(session) && session in rt.sessions
    requires connection in rt.sessions[session].connections && requestId != "" &&
             requestId !in rt.sessions[session].results
    ensures Pressing(rt, env, connection,
                     PlayerCommand(requestId, rt.broadcast.value.id, t.terminalId, "navigate", "back",
                                   "", "", "", NO_PRESENTATION, ""), rules)
  {
    OwnerOfConnection(rt, connection, session);
    NobodyObjects(rt, session, requestId, rules, t, route);
    var c := PlayerCommand(requestId, rt.broadcast.value.id, t.terminalId, "navigate", "back",
                           "", "", "", NO_PRESENTATION, "");
    assert IsNavigation(c, Back);
    assert Admit(rt, session, c, rules, env.limit).Go?;
  }

  lemma NobodyObjects(rt: Runtime, session: string, requestId: string, rules: Rules, t: Terminal,
                      route: seq<ReturnPoint>)
    requires rt.broadcast.Some? && ClaimsInverse(rt.broadcast.value.assignments, rt.broadcast.value.claimants,
                                                 rt.broadcast.value.controller)
    requires Standing(rt, t, route) && rt.broadcast.value.id != "" && !Text.Blank(t.terminalId)
    requires rt.broadcast.value.controller == Some(session) && session in rt.sessions && Connected(rt.sessions[session])
    requires requestId != ""
    ensures Obstacle(rt, session,
                     PlayerCommand(requestId, rt.broadcast.value.id, t.terminalId, "navigate", "back",
                                   "", "", "", NO_PRESENTATION, ""), rules).None?
  {
  }
}
