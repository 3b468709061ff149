/** Following a link and coming back is a round trip. */
module RoundTrip {
  import opened Domain
  import opened State
  import opened Changes
  import opened Sessions
  import opened Claims
  import opened Terminals
  import opened Dispatch
  import opened Coordinator
  import opened Catalogue
  import opened Invariants
  import opened Journeys
  import opened Positions
  import opened Homeward
  import opened Publication
  import opened Checkpoints
  import opened Visits
  import Nav
  import Puzzles
  import Route
  import Text

  /** A player opens a command that is linked to another terminal of the group. */
  ghost predicate Following(rt: Runtime, env: Env, connection: string, c: PlayerCommand, rules: Rules, t: Terminal,
                            authored: ContentNode) {
    && IsNavigation(c, OpenCommand)
    && Prepare(rt, env, connection, c, rules).Go?
    && Selected(t, c.nodeId) == Some(authored) && authored.Behavior() == Transition
    && LinkCurrent(env.catalog, t, authored)
    && env.id != "" && Text.Trim(env.id) == env.id
  }

  /** The Overseer is asked whether the players may follow the link. */
  predicate AsksToFollow(rt: Runtime, t: Terminal, route: seq<ReturnPoint>, authored: ContentNode, target: string) {
    && rt.pendingNavigation.Some? && rt.broadcast.Some?
    && Standing(rt.(pendingNavigation := None), t, route)
    && var p := rt.pendingNavigation.value;
       && p.direction == Forward && p.broadcastId == rt.broadcast.value.id && p.source == t.terminalId
       && p.commandId == authored.id && p.target == target && p.returnPoint == PointOf(t, authored)
       && p.requestId == Text.Trim(p.requestId) != ""
  }

  lemma OpeningIsForward(rt: Runtime, env: Env, connection: string, c: PlayerCommand, rules: Rules, t: Terminal,
                         authored: ContentNode)
    returns (session: string)
    requires ActiveTerminal(rt.broadcast) == Some(t) && rt.broadcast.Some?
    requires Following(rt, env, connection, c, rules, t, authored)
    ensures Performed(rt, env, PlayerAction(connection, c, rules)) ==
            After(rt, RequestForward(rt, env, session, t, authored, c).change)
  {
    session := LetThrough(rt, env, connection, c, rules, t);
    ActIsForward(rt, env, session, t, c, rules, authored);
    ActionPerforms(rt, env, connection, c, rules, RequestForward(rt, env, session, t, authored, c));
  }

  lemma ActIsForward(rt: Runtime, env: Env, session: string, t: Terminal, c: PlayerCommand, rules: Rules,
                     authored: ContentNode)
    requires rt.broadcast.Some? && rt.broadcast.value.active.Some? && IsNavigation(c, OpenCommand)
    requires Selected(t, c.nodeId) == Some(authored) && authored.Behavior() == Transition
    ensures Act(rt, env, session, t, c, rules) == RequestForward(rt, env, session, t, authored, c)
  {
  }

  lemma RequestAsks(rt: Runtime, env: Env, connection: string, c: PlayerCommand, rules: Rules,
                    t: Terminal, route: seq<ReturnPoint>, authored: ContentNode)
    requires Standing(rt, t, route) && Following(rt, env, connection, c, rules, t, authored)
    ensures var target := LookupTransition(env.catalog, t.terminalId, authored.id).value.target;
            AsksToFollow(Performed(rt, env, PlayerAction(connection, c, rules)), t, route, authored, target.terminalId)
  {
    var session := OpeningIsForward(rt, env, connection, c, rules, t, authored);
    LinkAsks(rt, env, session, c, t, route, authored);
  }

  lemma LinkAsks(rt: Runtime, env: Env, session: string, c: PlayerCommand, t: Terminal, route: seq<ReturnPoint>,
                 authored: ContentNode)
    requires Standing(rt, t, route) && LinkCurrent(env.catalog, t, authored) && env.id == Text.Trim(env.id) != ""
    requires authored.Behavior() == Transition
    ensures var target := LookupTransition(env.catalog, t.terminalId, authored.id).value.target;
            AsksToFollow(After(rt, RequestForward(rt, env, session, t, authored, c).change), t, route, authored,
                         target.terminalId)
  {
  }

  /** The players stand at the root of the linked terminal, one stop further on. */
  predicate Followed(catalog: Catalog, rt: Runtime, t: Terminal, route: seq<ReturnPoint>, authored: ContentNode,
                     target: string) {
    && ActiveTerminal(rt.broadcast).Some?
    && var shown := ActiveTerminal(rt.broadcast).value;
       && Standing(rt, shown, route + [PointOf(t, authored)])
       && shown.terminalId == target && AtRoot(shown)
  }

  lemma ApprovedLinkArrives(rt: Runtime, env: Env, t: Terminal, route: seq<ReturnPoint>, authored: ContentNode)
    requires LinkCurrent(env.catalog, t, authored) && env.delivered
    requires AsksToFollow(rt, t, route, authored,
                          LookupTransition(env.catalog, t.terminalId, authored.id).value.target.terminalId)
    requires OneActive(rt.broadcast.value.terminals, rt.broadcast.value.active)
    ensures Followed(env.catalog,
                     Performed(rt, env, Decide(ResolveTerminalNavigation(rt.pendingNavigation.value.requestId, true))),
                     t, route, authored,
                     LookupTransition(env.catalog, t.terminalId, authored.id).value.target.terminalId)
  {
    var pending := rt.pendingNavigation.value;
    assert NavigationCurrent(rt, pending.requestId);
    LinkShows(rt, env, pending, t, route, authored);
  }

  lemma LinkShows(rt: Runtime, env: Env, pending: PendingNavigation, t: Terminal, route: seq<ReturnPoint>,
                  authored: ContentNode)
    requires LinkCurrent(env.catalog, t, authored) && env.delivered && rt.pendingCommand == None
    requires Standing(rt.(pendingNavigation := None), t, route)
    requires pending.source == t.terminalId && pending.commandId == authored.id &&
             pending.returnPoint == PointOf(t, authored)
    requires pending.target == LookupTransition(env.catalog, t.terminalId, authored.id).value.target.terminalId
    requires rt.broadcast.Some? && OneActive(rt.broadcast.value.terminals, rt.broadcast.value.active)
    ensures ApproveForward(rt, env, pending).Accept?
    ensures Followed(env.catalog, ApproveForward(rt, env, pending).rt, t, route, authored, pending.target)
  {
  }

  /** The four steps of a trip: follow a link, approve it, press "back", approve that. */
  datatype Trip = Trip(request: Env, approval: Env, connection: string, action: PlayerCommand, rules: Rules,
                       back: Press)

  ghost function Away(rt: Runtime, trip: Trip): Runtime {
    var asked := Performed(rt, trip.request, PlayerAction(trip.connection, trip.action, trip.rules));
    if asked.pendingNavigation.None? then asked
    else
      Performed(asked, trip.approval,
                Decide(ResolveTerminalNavigation(asked.pendingNavigation.value.requestId, true)))
  }

  lemma AwayArrives(catalog: Catalog, limit: nat, rt: Runtime, trip: Trip, authored: ContentNode)
    requires AtEase(catalog, limit, rt)
    requires trip.request.catalog == trip.approval.catalog == catalog &&
             trip.request.limit == trip.approval.limit == limit
    requires Following(rt, trip.request, trip.connection, trip.action, trip.rules, Shown(rt), authored) &&
             trip.approval.delivered
    ensures var target := LookupTransition(catalog, Shown(rt).terminalId, authored.id).value.target;
            && Followed(catalog, Away(rt, trip), Shown(rt), RouteOf(rt), authored, target.terminalId)
            && AtEase(catalog, limit, Away(rt, trip))
  {
    var asked := Performed(rt, trip.request, PlayerAction(trip.connection, trip.action, trip.rules));
    RequestAsks(rt, trip.request, trip.connection, trip.action, trip.rules, Shown(rt), RouteOf(rt), authored);
    PerformedIsSane(rt, trip.request, PlayerAction(trip.connection, trip.action, trip.rules));
    ApprovedLinkArrives(asked, trip.approval, Shown(rt), RouteOf(rt), authored);
    PerformedIsSane(asked, trip.approval,
                    Decide(ResolveTerminalNavigation(asked.pendingNavigation.value.requestId, true)));
  }

  // ---------------------------------------------------------------- a stay at the other terminal

  /** The lowest `k` stops, if there are still that many, are the ones there were. */
  predicate StopsKept(rt: Runtime, change: Change, k: nat) {
    !change.Reject? && rt.broadcast.Some? && change.rt.broadcast.Some?
    && |RouteOf(rt)| >= k && |RouteOf(change.rt)| >= k ==>
      RouteOf(change.rt)[..k] == RouteOf(rt)[..k] && change.rt.broadcast.value.established
  }

  predicate OnTheWay(rt: Runtime, k: nat) {
    rt.broadcast.Some? && rt.broadcast.value.established && |RouteOf(rt)| >= k
  }

  lemma FramesKeepStops(rt: Runtime, change: Change, k: nat)
    requires OnTheWay(rt, k) && Frames(rt, change)
    ensures StopsKept(rt, change, k)
  {
  }

  lemma TerminalOpKeepsStops(rt: Runtime, env: Env, op: TerminalOp, k: nat)
    requires OnTheWay(rt, k) && k > 0
    ensures StopsKept(rt, ExecuteTerminal(rt, env, op), k)
  {
    hide Opened, Updated, Reactivated, Created, ShownKept, LeftBehind, Puzzles.Forced, Suspend;
    match op {
      case RequestActivation(target) => ActivationKeepsStops(rt, env, target, k);
      case RequestClear =>
      case ResolveTerminalSwitch(id, choice) => SwitchKeepsStops(rt, env, id, choice, k);
      case _ =>
    }
  }

  lemma ActivationKeepsStops(rt: Runtime, env: Env, target: Target, k: nat)
    requires OnTheWay(rt, k) && k > 0
    ensures StopsKept(rt, Activate(rt, env, target), k)
  {
    hide Opened, Suspend;
  }

  lemma SwitchKeepsStops(rt: Runtime, env: Env, id: string, choice: Choice, k: nat)
    requires OnTheWay(rt, k)
    ensures StopsKept(rt, ResolveSwitch(rt, env, id, choice), k)
  {
    hide Reactivated, Created, Suspend;
  }

  lemma DecisionKeepsStops(rt: Runtime, env: Env, op: DecisionOp, k: nat)
    requires OnTheWay(rt, k)
    ensures StopsKept(rt, ExecuteDecision(rt, env, op), k)
  {
    match op {
      case ResolveCommandExecution(request, approve, durable) => CommandDecisionFrames(rt, request, approve, durable);
      case ResolveTerminalNavigation(request, approve) => NavigationKeepsStops(rt, env, request, approve, k);
      case _ =>
    }
  }

  lemma NavigationKeepsStops(rt: Runtime, env: Env, request: string, approve: bool, k: nat)
    requires OnTheWay(rt, k)
    ensures StopsKept(rt, ResolveNavigation(rt, env, request, approve), k)
  {
    hide Travel, Nav.Restored, Route.ValidReturn;
  }

  lemma ActKeepsStops(rt: Runtime, env: Env, session: string, t: Terminal, c: PlayerCommand, rules: Rules, k: nat)
    requires OnTheWay(rt, k) && Acting(rt, t)
    ensures StopsKept(rt, Act(rt, env, session, t, c, rules).change, k)
  {
    hide RequestReturn, RequestPlay, RequestOpen;
    if ReturnRequested(t, c, RouteOf(rt)) {
      ReturnRequestKeepsStops(rt, env, session, t, c, k);
    } else if !IsNavigation(c, OpenCommand) {
      PlayFrames(rt, env, session, t, c, rules);
    } else {
      OpenKeepsStops(rt, env, session, t, c, k);
    }
  }

  lemma ReturnRequestKeepsStops(rt: Runtime, env: Env, session: string, t: Terminal, c: PlayerCommand, k: nat)
    requires OnTheWay(rt, k) && RouteOf(rt) != []
    ensures StopsKept(rt, RequestReturn(rt, env, session, t, c).change, k)
  {
    hide Route.ValidReturn;
  }

  lemma OpenKeepsStops(rt: Runtime, env: Env, session: string, t: Terminal, c: PlayerCommand, k: nat)
    requires OnTheWay(rt, k) && Acting(rt, t)
    ensures StopsKept(rt, RequestOpen(rt, env, session, t, c).change, k)
  {
    hide LinkCurrent, Selected, Dispatch.RequestForward;
    var authored := Selected(t, c.nodeId);
    if authored.Some? && authored.value.Behavior() == Transition {
      ForwardRequestKeepsStops(rt, env, session, t, authored.value, c, k);
    } else {
      CommandRequestFrames(rt, env, session, t, c);
    }
  }

  lemma ForwardRequestKeepsStops(rt: Runtime, env: Env, session: string, t: Terminal, authored: ContentNode,
                                 c: PlayerCommand, k: nat)
    requires OnTheWay(rt, k) && authored.transition.Some?
    ensures StopsKept(rt, RequestForward(rt, env, session, t, authored, c).change, k)
  {
    hide LinkCurrent;
  }

  lemma OperationKeepsStops(rt: Runtime, env: Env, op: Operation, k: nat)
    requires Inv(rt, env.limit) && OnTheWay(rt, k) && k > 0
    ensures StopsKept(rt, Execute(rt, env, op), k)
  {
    match op {
      case Setup(setup) =>
      case OnSession(session) => SessionOpFrames(rt, env, session);
      case OnClaim(claim) => ClaimOpFrames(rt, claim);
      case OnTerminal(terminal) => TerminalOpKeepsStops(rt, env, terminal, k);
      case Decide(decision) => DecisionKeepsStops(rt, env, decision, k);
      case PlayerAction(connection, action, rules) =>
        PrepareFacts(rt, env, connection, action, rules);
        var prepared := Prepare(rt, env, connection, action, rules);
        if prepared.Go? {
          ActKeepsStops(rt, env, prepared.session, prepared.terminal, action, rules, k);
        }
    }
  }

  /** Any operations at all, as long as the lowest `k` stops are never given up. */
  ghost predicate Stays(states: seq<Runtime>, steps: seq<Step>, limit: nat, k: nat) {
    && |states| == |steps| + 1
    && (forall i :: 0 <= i < |states| ==>
          Inv(states[i], limit) && states[i].broadcast.Some? && |RouteOf(states[i])| >= k)
    && (forall i :: 0 <= i < |steps| ==>
          steps[i].env.limit == limit && states[i + 1] == Performed(states[i], steps[i].env, steps[i].op))
  }

  lemma {:induction false} StayKeepsStops(states: seq<Runtime>, steps: seq<Step>, limit: nat, k: nat, n: nat)
    requires Stays(states, steps, limit, k) && k > 0 && n < |states| && states[0].broadcast.value.established
    ensures OnTheWay(states[n], k) && RouteOf(states[n])[..k] == RouteOf(states[0])[..k]
  {
    if n > 0 {
      StayKeepsStops(states, steps, limit, k, n - 1);
      OperationKeepsStops(states[n - 1], steps[n - 1].env, steps[n - 1].op, k);
    }
  }

  // ---------------------------------------------------------------- there and back

  // The approved return of a stop made at `t` shows it again as it was left.
  lemma ReturnRestores(catalog: Catalog, limit: nat, last: Runtime, press: Press, t: Terminal, route: seq<ReturnPoint>,
                       authored: ContentNode)
    requires AtEase(catalog, limit, last) && Admitted(catalog, limit, last, press)
    requires RouteOf(last) == route + [PointOf(t, authored)] &&
             ReturnRequested(Shown(last), press.action, RouteOf(last))
    requires Placed(t) && LookupTerminal(catalog, t.terminalId).Some? &&
             LookupTerminal(catalog, t.terminalId).value.tree == t.tree
    ensures AtEase(catalog, limit, StepHome(last, press)) && Restores(StepHome(last, press), t, route)
  {
    hide AtEase, Admitted, StepHome, Standing;
    StepAcross(catalog, limit, last, press);
    CatalogIsValid(catalog, limit, last);
    FoundTerminal(catalog.terminals, t.terminalId);
    Nav.RestoreUndoesLeaving(t.tree, t.nav);
    ReturnedRestores(catalog, StepHome(last, press), t, route, authored);
  }

  lemma CatalogIsValid(catalog: Catalog, limit: nat, rt: Runtime)
    requires AtEase(catalog, limit, rt)
    ensures ValidCatalog(catalog)
  {
  }

  lemma ReturnedRestores(catalog: Catalog, back: Runtime, t: Terminal, route: seq<ReturnPoint>, authored: ContentNode)
    requires Returned(catalog, back, route + [PointOf(t, authored)])
    requires Placed(t) && LookupTerminal(catalog, t.terminalId).Some? &&
             LookupTerminal(catalog, t.terminalId).value.tree == t.tree
    requires Nav.Restored(t.tree, Nav.Last(t.nav.path), t.nav.path[..|t.nav.path| - 1]) ==
             NavState(t.nav.path, ListMode, None, None)
    ensures Restores(back, t, route)
  {
    assert (route + [PointOf(t, authored)])[..|route|] == route;
  }

  /** The players see `t` in the folder it was left in, with `route` still to return. */
  predicate Restores(back: Runtime, t: Terminal, route: seq<ReturnPoint>) {
    && ActiveTerminal(back.broadcast).Some? && back.broadcast.Some?
    && Shown(back).terminalId == t.terminalId && RouteOf(back) == route && Shown(back).tree == t.tree
    && Shown(back).nav == NavState(t.nav.path, ListMode, None, None)
  }

  // ---------------------------------------------------------------- the puzzle on the way

  lemma PerformedKeepsPuzzle(rt: Runtime, env: Env, op: Operation, id: string)
    requires Inv(rt, env.limit) && !ReachesPuzzle(rt, op, id)
    ensures KeepsPuzzle(rt, Performed(rt, env, op), id)
  {
    hide Execute;
    if id in CheckpointsOf(rt) && !Execute(rt, env, op).Reject? {
      PuzzleStays(rt, env, op, id);
    }
  }

  lemma StepHomeKeepsPuzzle(catalog: Catalog, limit: nat, rt: Runtime, p: Press, id: string)
    requires AtEase(catalog, limit, rt) && Admitted(catalog, limit, rt, p)
    ensures KeepsPuzzle(rt, StepHome(rt, p), id)
  {
    hide Performed, Prepare, Standing;
    var op := PlayerAction(p.connection, p.action, p.rules);
    PerformedIsSane(rt, p.env, op);
    PerformedKeepsPuzzle(rt, p.env, op, id);
    var pressed := Pressed(rt, p);
    if pressed.pendingNavigation.Some? {
      PerformedKeepsPuzzle(pressed, p.approval,
                           Decide(ResolveTerminalNavigation(pressed.pendingNavigation.value.requestId, true)), id);
    }
  }

  lemma AwayKeepsPuzzle(catalog: Catalog, limit: nat, rt: Runtime, trip: Trip, authored: ContentNode, id: string)
    requires AtEase(catalog, limit, rt) && Leaves(catalog, limit, rt, trip, authored)
    ensures KeepsPuzzle(rt, Away(rt, trip), id)
  {
    hide Performed, Prepare, Standing;
    var op := PlayerAction(trip.connection, trip.action, trip.rules);
    PerformedIsSane(rt, trip.request, op);
    PerformedKeepsPuzzle(rt, trip.request, op, id);
    var asked := Performed(rt, trip.request, op);
    if asked.pendingNavigation.Some? {
      PerformedKeepsPuzzle(asked, trip.approval,
                           Decide(ResolveTerminalNavigation(asked.pendingNavigation.value.requestId, true)), id);
    }
  }

  /** Nobody reaches the puzzle of `id` during the stay. */
  predicate Unplayed(states: seq<Runtime>, steps: seq<Step>, id: string)
    requires |states| == |steps| + 1
  {
    forall i :: 0 <= i < |steps| ==> !ReachesPuzzle(states[i], steps[i].op, id)
  }

  lemma {:induction false} StayKeepsPuzzle(states: seq<Runtime>, steps: seq<Step>, limit: nat, k: nat, id: string,
                                           n: nat)
    requires Stays(states, steps, limit, k) && Unplayed(states, steps, id) && n < |states|
    ensures KeepsPuzzle(states[0], states[n], id)
  {
    hide KeepsPuzzle, ReachesPuzzle, Inv, Performed, RouteOf;
    if n == 0 {
      PuzzleKeptAsIs(states[0], id);
    } else {
      StayKeepsPuzzle(states, steps, limit, k, id, n - 1);
      PerformedKeepsPuzzle(states[n - 1], steps[n - 1].env, steps[n - 1].op, id);
      PuzzleKeptOn(states[0], states[n - 1], states[n], id);
    }
  }

  lemma PuzzleKeptAsIs(rt: Runtime, id: string)
    ensures KeepsPuzzle(rt, rt, id)
  {
  }

  lemma PuzzleKeptOn(a: Runtime, b: Runtime, c: Runtime, id: string)
    requires KeepsPuzzle(a, b, id) && KeepsPuzzle(b, c, id)
    ensures KeepsPuzzle(a, c, id)
  {
  }

  /** Whoever is on the air is so with a checkpoint of its own. */
  lemma ShownIsKept(rt: Runtime, limit: nat)
    requires Inv(rt, limit) && ActiveTerminal(rt.broadcast).Some?
    ensures Shown(rt).terminalId in CheckpointsOf(rt) && CheckpointsOf(rt)[Shown(rt).terminalId] == Shown(rt)
  {
  }

  lemma TripKeepsPuzzle(catalog: Catalog, later: Catalog, limit: nat, rt: Runtime, trip: Trip, authored: ContentNode,
                        states: seq<Runtime>, steps: seq<Step>)
    requires AtEase(catalog, limit, rt) && Leaves(catalog, limit, rt, trip, authored)
    requires Stays(states, steps, limit, |RouteOf(rt)| + 1) && states[0] == Away(rt, trip)
    requires AtEase(later, limit, states[|steps|]) && Admitted(later, limit, states[|steps|], trip.back)
    requires Unplayed(states, steps, Shown(rt).terminalId)
    requires AtEase(later, limit, StepHome(states[|steps|], trip.back))
    requires Shown(StepHome(states[|steps|], trip.back)).terminalId == Shown(rt).terminalId
    ensures Shown(StepHome(states[|steps|], trip.back)).hack == Shown(rt).hack
  {
    hide Unplayed, StepHome, Away, Admitted, Leaves, Inv, Standing, JourneyOk, PositionsOk, ValidCatalog;
    var id, last := Shown(rt).terminalId, states[|steps|];
    ShownIsKept(rt, limit);
    AwayKeepsPuzzle(catalog, limit, rt, trip, authored, id);
    StayKeepsPuzzle(states, steps, limit, |RouteOf(rt)| + 1, id, |steps|);
    StepHomeKeepsPuzzle(later, limit, last, trip.back, id);
    ShownIsKept(StepHome(last, trip.back), limit);
  }

  /** An approved link, any stay beyond it, and the approved return of that stop restore
      the terminal, the route and the exact folder, with every view closed, as long as
      the terminal left behind is authored as it was when the players come back; and its
      puzzle too, unless somebody reached it meanwhile. */
  lemma StayThenReturn(catalog: Catalog, later: Catalog, limit: nat, rt: Runtime, trip: Trip, authored: ContentNode,
                       states: seq<Runtime>, steps: seq<Step>)
    requires AtEase(catalog, limit, rt) && Leaves(catalog, limit, rt, trip, authored)
    requires Stays(states, steps, limit, |RouteOf(rt)| + 1) && states[0] == Away(rt, trip)
    requires AtEase(later, limit, states[|steps|]) && Admitted(later, limit, states[|steps|], trip.back)
    requires |RouteOf(states[|steps|])| == |RouteOf(rt)| + 1
    requires ReturnRequested(Shown(states[|steps|]), trip.back.action, RouteOf(states[|steps|]))
    requires LookupTerminal(later, Shown(rt).terminalId).Some? &&
             LookupTerminal(later, Shown(rt).terminalId).value.tree == Shown(rt).tree
    ensures var back := StepHome(states[|steps|], trip.back);
            && AtEase(later, limit, back) && Restores(back, Shown(rt), RouteOf(rt))
            && (Unplayed(states, steps, Shown(rt).terminalId) ==> Shown(back).hack == Shown(rt).hack)
  {
    hide StepHome, Admitted, Away, Unplayed, ReturnRequested, LookupTerminal, Restores, Leaves, Invariants.Inv,
         Homeward.Sane,
         Placed, PointOf;
    var t, last, k := Shown(rt), states[|steps|], |RouteOf(rt)| + 1;
    Arrived(catalog, limit, rt, trip, authored);
    StayKeepsStops(states, steps, limit, k, |steps|);
    assert RouteOf(last) == RouteOf(last)[..k];
    ReturnRestores(later, limit, last, trip.back, t, RouteOf(rt), authored);
    ShownAgain(StepHome(last, trip.back), t, RouteOf(rt));
    if Unplayed(states, steps, t.terminalId) {
      TripKeepsPuzzle(catalog, later, limit, rt, trip, authored, states, steps);
    }
  }

  lemma ShownAgain(back: Runtime, t: Terminal, route: seq<ReturnPoint>)
    requires Restores(back, t, route)
    ensures ActiveTerminal(back.broadcast).Some? && Shown(back).terminalId == t.terminalId
  {
  }

  /** The first half of a trip: the link is let through and the Overseer approves. */
  ghost predicate Leaves(catalog: Catalog, limit: nat, rt: Runtime, trip: Trip, authored: ContentNode)
    requires ActiveTerminal(rt.broadcast).Some?
  {
    && trip.request.catalog == trip.approval.catalog == catalog && trip.request.limit == trip.approval.limit == limit
    && Following(rt, trip.request, trip.connection, trip.action, trip.rules, Shown(rt), authored) &&
       trip.approval.delivered
  }

  // Beyond the link the new stop is on top of the route.
  lemma Arrived(catalog: Catalog, limit: nat, rt: Runtime, trip: Trip, authored: ContentNode)
    requires AtEase(catalog, limit, rt) && Leaves(catalog, limit, rt, trip, authored)
    ensures var away := Away(rt, trip);
            && AtEase(catalog, limit, away) && RouteOf(away) == RouteOf(rt) + [PointOf(Shown(rt), authored)]
            && away.broadcast.value.established && AtRoot(Shown(away)) && Placed(Shown(rt))
  {
    hide Away, Following;
    ActiveIsPlaced(rt);
    AwayArrives(catalog, limit, rt, trip, authored);
  }

  /** Without a stay in between: a link, and the "back" that undoes it. */
  lemma ForwardThenReturn(catalog: Catalog, limit: nat, rt: Runtime, trip: Trip, authored: ContentNode)
    requires AtEase(catalog, limit, rt) && Leaves(catalog, limit, rt, trip, authored)
    requires Admitted(catalog, limit, Away(rt, trip), trip.back)
    requires LookupTerminal(catalog, Shown(rt).terminalId).Some? &&
             LookupTerminal(catalog, Shown(rt).terminalId).value.tree == Shown(rt).tree
    ensures var back := StepHome(Away(rt, trip), trip.back);
            AtEase(catalog, limit, back) && Restores(back, Shown(rt), RouteOf(rt)) && Shown(back).hack == Shown(rt).hack
  {
    hide StepHome, Away, LookupTerminal, Restores, Leaves, OneActive;
    Arrived(catalog, limit, rt, trip, authored);
    BackReturns(catalog, limit, Away(rt, trip), trip.back);
    AwayIsStay(catalog, limit, rt, trip, authored);
    StayThenReturn(catalog, catalog, limit, rt, trip, authored, [Away(rt, trip)], []);
  }

  lemma AwayIsStay(catalog: Catalog, limit: nat, rt: Runtime, trip: Trip, authored: ContentNode)
    requires AtEase(catalog, limit, rt) && Leaves(catalog, limit, rt, trip, authored)
    ensures Stays([Away(rt, trip)], [], limit, |RouteOf(rt)| + 1) &&
            Unplayed([Away(rt, trip)], [], Shown(rt).terminalId)
  {
    hide Away, Leaves;
    Arrived(catalog, limit, rt, trip, authored);
  }

  // At the bare root with a way back, "back" asks to return.
  lemma BackReturns(catalog: Catalog, limit: nat, rt: Runtime, press: Press)
    requires AtEase(catalog, limit, rt) && Admitted(catalog, limit, rt, press) && RouteOf(rt) != [] && AtRoot(Shown(rt))
    ensures ReturnRequested(Shown(rt), press.action, RouteOf(rt))
  {
  }
}
