/** The return route stays walkable over whole runs: which operations keep it, what
    a group replacement may change, and the one decision that can break it. */
module Journeys {
  import opened Domain
  import opened State
  import opened Changes
  import opened Sessions
  import opened Claims
  import opened Terminals
  import opened Dispatch
  import opened Coordinator
  import opened Catalogue
  import opened Route
  import opened Saves
  import opened Invariants
  import opened Publication
  import Nav
  import Text

  /** The route and the pending step are sound under the groups in force. */
  predicate JourneyOk(groups: seq<Group>, rt: Runtime) {
    && JourneySound(groups, CurrentJourney(rt))
    && (rt.broadcast.Some? ==> Started(JourneyOf(rt.broadcast.value)))
    && PendingSound(groups, CurrentJourney(rt), rt.pendingNavigation)
    && (rt.pendingNavigation.Some? ==> WellShaped(rt.pendingNavigation.value))
  }

  // Nothing is seeded before the first activation.
  predicate Started(j: Journey) {
    !j.established ==> j.initialGroup == "" && j.route == [] && j.active == None
  }

  predicate WellShaped(p: PendingNavigation) {
    if p.direction == Forward then p.returnPoint.origin == Authored && p.returnPoint.terminalId == p.source
    else p.target == p.returnPoint.terminalId
  }

  predicate JourneyKept(groups: seq<Group>, change: Change) {
    !change.Reject? ==> JourneyOk(groups, change.rt)
  }

  lemma FrameJourney(groups: seq<Group>, rt: Runtime, after: Runtime)
    requires JourneyOk(groups, rt)
    requires CurrentJourney(after) == CurrentJourney(rt) && after.pendingNavigation == rt.pendingNavigation
    ensures JourneyOk(groups, after)
  {
  }

  // ---------------------------------------------------------------- Overseer's terminal operations

  lemma ActivateKeepsJourney(rt: Runtime, env: Env, target: Target)
    requires JourneyOk(env.catalog.groups, rt) && ValidCatalog(env.catalog)
    ensures JourneyKept(env.catalog.groups, Activate(rt, env, target))
  {
    if rt.broadcast.Some? {
      ClearedKeepsJourney(env.catalog.groups, rt);
      ActivatedKeepsJourney(Cleared(rt), env, target);
    }
  }

  lemma ClearedKeepsJourney(groups: seq<Group>, rt: Runtime)
    requires JourneyOk(groups, rt)
    ensures JourneyOk(groups, Cleared(rt)) && Cleared(rt).pendingNavigation == None
    ensures rt.broadcast.Some? ==> Cleared(rt).broadcast.Some? && Cleared(rt).broadcast.value.route == []
  {
  }

  lemma ActivatedKeepsJourney(rt: Runtime, env: Env, target: Target)
    requires JourneyOk(env.catalog.groups, rt) && ValidCatalog(env.catalog)
    requires rt.broadcast.Some? && rt.broadcast.value.route == [] && rt.pendingNavigation == None
    ensures JourneyOk(env.catalog.groups, Activated(rt, env, target))
  {
    var j := JourneyOf(rt.broadcast.value).(active := Some(target.terminalId));
    if !j.established {
      EstablishIsSound(env.catalog, j, target.terminalId);
    }
    assert CurrentJourney(Activated(rt, env, target)) == Some(Establish(env.catalog, j, target.terminalId));
  }

  lemma ClearKeepsJourney(groups: seq<Group>, rt: Runtime, id: string)
    requires JourneyOk(groups, rt)
    ensures JourneyKept(groups, ClearTerminal(rt, id))
  {
  }

  /** A switch resolved away from its source while players still have a way back. */
  predicate SwitchesMidRoute(rt: Runtime, op: TerminalOp) {
    op.ResolveTerminalSwitch? && op.choice != Cancel && rt.broadcast.Some? && rt.broadcast.value.route != []
  }

  lemma SwitchKeepsJourney(rt: Runtime, env: Env, id: string, choice: Choice)
    requires JourneyOk(env.catalog.groups, rt) && !SwitchesMidRoute(rt, ResolveTerminalSwitch(id, choice))
    ensures JourneyKept(env.catalog.groups, ResolveSwitch(rt, env, id, choice))
  {
    hide Sound, Reactivated, Created;
    var change := ResolveSwitch(rt, env, id, choice);
    if change.Accept? && choice != Cancel {
      RoutelessIsSound(env.catalog.groups, JourneyOf(rt.broadcast.value), change.rt.broadcast.value.active);
    }
  }

  lemma RoutelessIsSound(groups: seq<Group>, j: Journey, active: Option<string>)
    requires Sound(groups, j) && j.route == []
    ensures Sound(groups, j.(active := active))
  {
  }

  lemma TerminalOpKeepsJourney(rt: Runtime, env: Env, op: TerminalOp)
    requires JourneyOk(env.catalog.groups, rt) && ValidCatalog(env.catalog) && !SwitchesMidRoute(rt, op)
    ensures JourneyKept(env.catalog.groups, ExecuteTerminal(rt, env, op))
  {
    match op {
      case RequestActivation(target) => ActivateKeepsJourney(rt, env, target);
      case RequestClear => ClearKeepsJourney(env.catalog.groups, rt, env.id);
      case ResolveTerminalSwitch(id, choice) => SwitchKeepsJourney(rt, env, id, choice);
      case _ =>
        var change := ExecuteTerminal(rt, env, op);
        if change.Accept? {
          FrameJourney(env.catalog.groups, rt, change.rt);
        }
    }
  }

  // ---------------------------------------------------------------- player steps

  lemma ReturnRequestKeepsJourney(rt: Runtime, env: Env, session: string, t: Terminal, c: PlayerCommand)
    requires JourneyOk(env.catalog.groups, rt) && ValidCatalog(env.catalog) && Acting(rt, t)
    requires rt.broadcast.value.active == Some(t.terminalId) && rt.broadcast.value.route != []
    ensures JourneyKept(env.catalog.groups, RequestReturn(rt, env, session, t, c).change)
  {
    var route := rt.broadcast.value.route;
    var pending := ReturnDecision(rt, session, t, route[|route| - 1], env.id);
    ReturnIsPendingSound(env.catalog.groups, JourneyOf(rt.broadcast.value), pending);
  }

  lemma OpenKeepsJourney(rt: Runtime, env: Env, session: string, t: Terminal, c: PlayerCommand)
    requires JourneyOk(env.catalog.groups, rt) && Acting(rt, t)
    ensures JourneyKept(env.catalog.groups, RequestOpen(rt, env, session, t, c).change)
  {
    var authored := Selected(t, c.nodeId);
    if authored.Some? && authored.value.Behavior() == Transition {
      ForwardRequestKeepsJourney(rt, env, session, t, authored.value, c);
    } else {
      CommandRequestFrames(rt, env, session, t, c);
      FrameChange(env.catalog.groups, rt, RequestOpen(rt, env, session, t, c).change);
    }
  }

  lemma CommandRequestFrames(rt: Runtime, env: Env, session: string, t: Terminal, c: PlayerCommand)
    requires Acting(rt, t)
    requires Selected(t, c.nodeId).Some? ==> Selected(t, c.nodeId).value.Behavior() != Transition
    ensures Frames(rt, RequestOpen(rt, env, session, t, c).change)
  {
  }

  lemma PlayFrames(rt: Runtime, env: Env, session: string, t: Terminal, c: PlayerCommand, rules: Rules)
    requires Acting(rt, t)
    ensures Frames(rt, RequestPlay(rt, env, session, t, c, rules).change)
  {
    var played := Play(t, c, rules);
    RefuseFrames(rt, session, c, InvalidAction, env.limit);
    if played.Some? {
      var shown := PutActive(rt, played.value);
      TakeFrames(rt, session, c, env.limit,
                 if ParseKind(c.kind) == Present then shown else SetNotice(shown, session, false), []);
    }
  }

  lemma RefuseFrames(rt: Runtime, session: string, c: PlayerCommand, reason: Reason, limit: nat)
    ensures Frames(rt, Refuse(rt, session, c, reason, limit).change)
  {
  }

  lemma TakeFrames(rt: Runtime, session: string, c: PlayerCommand, limit: nat, after: Runtime, audits: seq<Audit>)
    requires CurrentJourney(after) == CurrentJourney(rt) && after.pendingNavigation == rt.pendingNavigation
    ensures Frames(rt, Take(rt, session, c, limit, after, audits).change)
  {
  }

  lemma ForwardRequestKeepsJourney(rt: Runtime, env: Env, session: string, t: Terminal, authored: ContentNode,
                                   c: PlayerCommand)
    requires JourneyOk(env.catalog.groups, rt) && Acting(rt, t) && authored.transition.Some?
    ensures JourneyKept(env.catalog.groups, RequestForward(rt, env, session, t, authored, c).change)
  {
    var change := RequestForward(rt, env, session, t, authored, c).change;
    assert CurrentJourney(change.rt) == CurrentJourney(rt);
  }

  lemma ActKeepsJourney(rt: Runtime, env: Env, session: string, t: Terminal, c: PlayerCommand, rules: Rules)
    requires JourneyOk(env.catalog.groups, rt) && ValidCatalog(env.catalog) && Acting(rt, t)
    requires rt.broadcast.value.active == Some(t.terminalId)
    ensures JourneyKept(env.catalog.groups, Act(rt, env, session, t, c, rules).change)
  {
    if ReturnRequested(t, c, rt.broadcast.value.route) {
      ReturnRequestKeepsJourney(rt, env, session, t, c);
    } else if !IsNavigation(c, OpenCommand) {
      PlayFrames(rt, env, session, t, c, rules);
      FrameChange(env.catalog.groups, rt, RequestPlay(rt, env, session, t, c, rules).change);
    } else {
      OpenKeepsJourney(rt, env, session, t, c);
    }
  }

  lemma DispatchKeepsJourney(rt: Runtime, env: Env, connection: string, c: PlayerCommand, rules: Rules)
    requires Inv(rt, env.limit) && JourneyOk(env.catalog.groups, rt) && ValidCatalog(env.catalog)
    ensures JourneyKept(env.catalog.groups, DispatchAction(rt, env, connection, c, rules).change)
  {
    var prepared := Prepare(rt, env, connection, c, rules);
    PrepareFacts(rt, env, connection, c, rules);
    if prepared.Go? {
      ActKeepsJourney(rt, env, prepared.session, prepared.terminal, c, rules);
    } else if prepared.reply.change.Persist? {
      FrameJourney(env.catalog.groups, rt, prepared.reply.change.rt);
    }
  }

  // ---------------------------------------------------------------- decisions on steps

  lemma ApproveForwardKeepsJourney(rt: Runtime, env: Env, pending: PendingNavigation)
    requires JourneyOk(env.catalog.groups, rt) && rt.pendingNavigation == Some(pending) && pending.direction == Forward
    requires rt.broadcast.Some? && rt.broadcast.value.active == Some(pending.source)
    ensures JourneyKept(env.catalog.groups, ApproveForward(rt, env, pending))
  {
    var link := LookupTransition(env.catalog, pending.source, pending.commandId);
    if link.Some? && SameGroup(env.catalog.groups, pending.source, pending.target) {
      PushIsSound(env.catalog.groups, JourneyOf(rt.broadcast.value), pending.returnPoint, pending.target);
    }
  }

  lemma ApproveReturnKeepsJourney(rt: Runtime, env: Env, pending: PendingNavigation)
    requires JourneyOk(env.catalog.groups, rt) && rt.pendingNavigation == Some(pending) && pending.direction == Return
    requires rt.broadcast.Some? && rt.broadcast.value.active == Some(pending.source)
    ensures JourneyKept(env.catalog.groups, ApproveReturn(rt, env, pending))
  {
    hide Travel, Nav.Restored;
    if rt.broadcast.value.route != [] {
      PopIsSound(env.catalog.groups, JourneyOf(rt.broadcast.value));
    }
  }

  lemma NavigationKeepsJourney(rt: Runtime, env: Env, request: string, approve: bool)
    requires Inv(rt, env.limit) && JourneyOk(env.catalog.groups, rt)
    ensures JourneyKept(env.catalog.groups, ResolveNavigation(rt, env, request, approve))
  {
    var id := Text.Trim(request);
    if NavigationCurrent(rt, id) {
      var pending := rt.pendingNavigation.value;
      if pending.direction == Return {
        ApproveReturnKeepsJourney(rt, env, pending);
      } else {
        ApproveForwardKeepsJourney(rt, env, pending);
      }
    }
  }

  // ---------------------------------------------------------------- group replacement

  /** The store keeps only group sets the document validator admits. */
  predicate ValidReplacement(op: Operation) {
    op.Decide? && op.decision.ReplaceTerminalGroups? && op.decision.store == GroupsReplaced ==>
        ValidGroups(op.decision.groups)
  }

  /** The groups in force after an operation. */
  ghost function GroupsAfter(rt: Runtime, env: Env, op: Operation): seq<Group> {
    if op.Decide? && op.decision.ReplaceTerminalGroups? && Execute(rt, env, op).Accept?
    then op.decision.groups else env.catalog.groups
  }

  /** A replacement is accepted only if the live route and the pending step are sound
      under the new groups. */
  lemma ReplacementKeepsJourney(groups: seq<Group>, rt: Runtime, candidate: seq<Group>, expected: nat,
                                store: GroupStore)
    requires JourneyOk(groups, rt) && (store == GroupsReplaced ==> ValidGroups(candidate))
    ensures JourneyKept(candidate, ReplaceGroups(rt, candidate, expected, store))
  {
    if store == GroupsReplaced {
      AcceptedIffSound(candidate, CurrentJourney(rt), rt.pendingNavigation);
    }
  }

  /** Offering the groups already in force is never refused by the route check while
      the active terminal is listed in them. */
  lemma UnchangedGroupsAccepted(groups: seq<Group>, rt: Runtime)
    requires ValidGroups(groups) && JourneyOk(groups, rt)
    requires rt.broadcast.Some? && rt.broadcast.value.active.Some? ==>
             FindGroup(groups, rt.broadcast.value.active.value).Some?
    ensures Accepts(CurrentJourney(rt), rt.pendingNavigation, groups)
  {
    AcceptedIffSound(groups, CurrentJourney(rt), rt.pendingNavigation);
  }

  lemma DecisionKeepsJourney(rt: Runtime, env: Env, op: DecisionOp)
    requires Inv(rt, env.limit) && JourneyOk(env.catalog.groups, rt) && ValidReplacement(Decide(op))
    ensures JourneyKept(GroupsAfter(rt, env, Decide(op)), ExecuteDecision(rt, env, op))
  {
    match op {
      case ResolveTerminalNavigation(request, approve) => NavigationKeepsJourney(rt, env, request, approve);
      case ReplaceTerminalGroups(candidate, revision, store) =>
        ReplacementKeepsJourney(env.catalog.groups, rt, candidate, revision, store);
      case ResolveCommandExecution(request, approve, durable) =>
        CommandDecisionFrames(rt, request, approve, durable);
        FrameChange(env.catalog.groups, rt, ResolveCommand(rt, request, approve, durable));
      case ResetCommandStates(terminal, node, durable) =>
        FrameChange(env.catalog.groups, rt, ResetStates(rt, terminal, node, durable));
    }
  }

  // A change that leaves the journey and the pending step where they are.
  predicate Frames(rt: Runtime, change: Change) {
    !change.Reject? ==>
      CurrentJourney(change.rt) == CurrentJourney(rt) && change.rt.pendingNavigation == rt.pendingNavigation
  }

  lemma FrameChange(groups: seq<Group>, rt: Runtime, change: Change)
    requires JourneyOk(groups, rt) && Frames(rt, change)
    ensures JourneyKept(groups, change)
  {
    if !change.Reject? {
      FrameJourney(groups, rt, change.rt);
    }
  }

  lemma CommandDecisionFrames(rt: Runtime, request: string, approve: bool, durable: Durable)
    ensures Frames(rt, ResolveCommand(rt, request, approve, durable))
  {
  }

  // ---------------------------------------------------------------- every operation

  lemma SetupKeepsJourney(groups: seq<Group>, rt: Runtime, env: Env, op: SetupOp)
    requires PendingOk(rt) && JourneyOk(groups, rt)
    ensures JourneyKept(groups, ExecuteSetup(rt, env, op))
  {
    if !op.StartBroadcast? && !op.EndBroadcast? {
      FrameChange(groups, rt, ExecuteSetup(rt, env, op));
    }
  }

  lemma SessionOpFrames(rt: Runtime, env: Env, op: SessionOp)
    ensures Frames(rt, ExecuteSession(rt, env, op))
  {
  }

  lemma ClaimOpFrames(rt: Runtime, op: ClaimOp)
    ensures Frames(rt, ExecuteClaim(rt, op))
  {
  }

  /** Every operation keeps the journey sound under the groups it leaves in force,
      except a terminal switch resolved in the middle of a route. */
  lemma OperationKeepsJourney(rt: Runtime, env: Env, op: Operation)
    requires Inv(rt, env.limit) && JourneyOk(env.catalog.groups, rt) && ValidCatalog(env.catalog) &&
             ValidReplacement(op)
    requires op.OnTerminal? ==> !SwitchesMidRoute(rt, op.terminal)
    ensures JourneyKept(GroupsAfter(rt, env, op), Execute(rt, env, op))
  {
    match op {
      case OnTerminal(terminal) => TerminalOpKeepsJourney(rt, env, terminal);
      case Decide(decision) => DecisionKeepsJourney(rt, env, decision);
      case PlayerAction(connection, action, rules) => DispatchKeepsJourney(rt, env, connection, action, rules);
      case Setup(setup) => SetupKeepsJourney(env.catalog.groups, rt, env, setup);
      case OnSession(session) =>
        SessionOpFrames(rt, env, session);
        FrameChange(env.catalog.groups, rt, ExecuteSession(rt, env, session));
      case OnClaim(claim) =>
        ClaimOpFrames(rt, claim);
        FrameChange(env.catalog.groups, rt, ExecuteClaim(rt, claim));
    }
  }

  // ---------------------------------------------------------------- whole runs

  /** The save deletes nothing the way back or the pending step leans on. */
  predicate SparedBy(groups: seq<Group>, rt: Runtime, kept: set<string>) {
    && (rt.broadcast.Some? ==> Spares(groups, JourneyOf(rt.broadcast.value), kept))
    && SparesPending(rt.pendingNavigation, kept)
  }

  /** Exactly when saving the document keeps the journey sound. */
  lemma SaveKeepsJourneyIff(groups: seq<Group>, kept: set<string>, next: seq<Group>, rt: Runtime)
    requires ValidGroups(groups) && SavedAs(groups, kept, next) && JourneyOk(groups, rt)
    ensures JourneyOk(next, rt) <==> SparedBy(groups, rt, kept)
  {
    hide Sound, Spares, PendingSound, SavedAs;
    if rt.broadcast.Some? {
      RouteSavedIff(groups, kept, next, JourneyOf(rt.broadcast.value));
    }
    if JourneySound(next, CurrentJourney(rt)) {
      PendingSavedIff(groups, kept, next, CurrentJourney(rt), rt.pendingNavigation);
    }
  }

  /** What the coordinator offers to ask before a terminal is deleted. */
  predicate CanDelete(rt: Runtime, id: string) {
    Text.Trim(id) != "" && (rt.broadcast.Some? ==> Text.Trim(id) !in rt.broadcast.value.terminals)
  }

  /** A run in which the group set changes only by accepted replacements and by saves of
      the document that spare the way back, and no switch is resolved in the middle of a
      route. */
  ghost predicate IsJourneyRun(states: seq<Coordinator>, steps: seq<Step>, limit: nat) {
    && IsRun(states, steps, limit)
    && forall i :: 0 <= i < |steps| ==> Permitted(states, steps, i)
  }

  ghost predicate Permitted(states: seq<Coordinator>, steps: seq<Step>, i: nat)
    requires |states| == |steps| + 1 && i < |steps|
  {
    && ValidCatalog(steps[i].env.catalog)
    && ValidReplacement(steps[i].op)
    && (steps[i].op.OnTerminal? ==> !SwitchesMidRoute(states[i].rt, steps[i].op.terminal))
    && (i > 0 ==>
          SavedWithCare(GroupsAfter(states[i - 1].rt, steps[i - 1].env, steps[i - 1].op), steps[i].env.catalog.groups,
                        states[i].rt))
  }

  ghost predicate SavedWithCare(groups: seq<Group>, next: seq<Group>, rt: Runtime) {
    exists kept :: SavedAs(groups, kept, next) && SparedBy(groups, rt, kept)
  }

  lemma CareKeepsJourney(groups: seq<Group>, next: seq<Group>, rt: Runtime)
    requires ValidGroups(groups) && SavedWithCare(groups, next, rt) && JourneyOk(groups, rt)
    ensures JourneyOk(next, rt)
  {
    var kept :| SavedAs(groups, kept, next) && SparedBy(groups, rt, kept);
    SaveKeepsJourneyIff(groups, kept, next, rt);
  }

  /** In every such run the way back is sound before each operation under the groups
      that operation sees, and after it under the groups it leaves. */
  lemma {:induction false} RunKeepsJourney(states: seq<Coordinator>, steps: seq<Step>, limit: nat, n: nat)
    requires IsJourneyRun(states, steps, limit) && limit >= 1 && n < |steps|
    ensures JourneyOk(steps[n].env.catalog.groups, states[n].rt)
    ensures JourneyOk(GroupsAfter(states[n].rt, steps[n].env, steps[n].op), states[n + 1].rt)
  {
    var step := steps[n];
    var groups := step.env.catalog.groups;
    assert Linked(states, steps, n, limit) && Permitted(states, steps, n);
    if n > 0 {
      RunKeepsJourney(states, steps, limit, n - 1);
      assert Permitted(states, steps, n - 1);
      CareKeepsJourney(GroupsAfter(states[n - 1].rt, steps[n - 1].env, steps[n - 1].op), groups, states[n].rt);
    }
    RunKeepsInv(states, steps, limit, n);
    StepKeepsJourney(states[n], step.env, step.op);
  }

  lemma StepKeepsJourney(s: Coordinator, env: Env, op: Operation)
    requires Inv(s.rt, env.limit) && JourneyOk(env.catalog.groups, s.rt) && ValidCatalog(env.catalog) &&
             ValidReplacement(op)
    requires op.OnTerminal? ==> !SwitchesMidRoute(s.rt, op.terminal)
    ensures JourneyOk(GroupsAfter(s.rt, env, op), Commit(s, Execute(s.rt, env, op)).rt)
  {
    OperationKeepsJourney(s.rt, env, op);
    CommitFramesJourney(env.catalog.groups, s, Execute(s.rt, env, op), GroupsAfter(s.rt, env, op));
  }

  lemma CommitFramesJourney(before: seq<Group>, s: Coordinator, change: Change, groups: seq<Group>)
    requires JourneyOk(before, s.rt) && JourneyKept(groups, change) && (change.Reject? ==> groups == before)
    ensures JourneyOk(groups, Commit(s, change).rt)
  {
  }

  // ---------------------------------------------------------------- the exception

  /** Where a resolved switch leaves the players. */
  function SwitchTarget(rt: Runtime): Option<string>
    requires rt.pendingSwitch.Some?
  {
    if rt.pendingSwitch.value.target.None? then None else Some(rt.pendingSwitch.value.target.value.terminalId)
  }

  /** The new terminal continues the route the players came by. */
  predicate Continues(groups: seq<Group>, route: seq<ReturnPoint>, target: Option<string>)
    requires route != []
  {
    var top := route[|route| - 1];
    && target.Some?
    && SameGroup(groups, top.terminalId, target.value)
    && (top.origin == InitialPrefix ==> At(groups, top.groupId, |route|, target.value))
  }

  /** Exactly when a resolved switch keeps the journey sound: the route is empty or
      the new terminal happens to continue it. */
  lemma SwitchKeepsJourneyIff(rt: Runtime, env: Env, id: string, choice: Choice)
    requires JourneyOk(env.catalog.groups, rt) && choice != Cancel && ResolveSwitch(rt, env, id, choice).Accept?
    ensures var route := rt.broadcast.value.route;
            JourneyOk(env.catalog.groups, ResolveSwitch(rt, env, id, choice).rt) <==>
            route == [] || Continues(env.catalog.groups, route, SwitchTarget(rt))
  {
    var groups := env.catalog.groups;
    var j := JourneyOf(rt.broadcast.value);
    var after := j.(active := SwitchTarget(rt));
    assert CurrentJourney(ResolveSwitch(rt, env, id, choice).rt) == Some(after);
    if j.route != [] {
      RedirectedIff(groups, j, SwitchTarget(rt));
    }
  }

  lemma RedirectedIff(groups: seq<Group>, j: Journey, target: Option<string>)
    requires Sound(groups, j) && j.route != []
    ensures Sound(groups, j.(active := target)) <==> Continues(groups, j.route, target)
  {
    var after := j.(active := target);
    var last := |j.route| - 1;
    var top := j.route[last];
    if Continues(groups, j.route, target) {
      forall i | 0 <= i < |j.route|
        ensures SameGroup(groups, j.route[i].terminalId, target.value)
        ensures j.route[i].origin == InitialPrefix ==> SeedSound(groups, after, i)
      {
        SameGroupIsEquivalence(groups, top.terminalId, j.active.value, top.terminalId);
        SameGroupIsEquivalence(groups, j.route[i].terminalId, j.active.value, top.terminalId);
        SameGroupIsEquivalence(groups, j.route[i].terminalId, top.terminalId, target.value);
        if j.route[i].origin == InitialPrefix {
          assert SeedSound(groups, j, i);
          assert i < last ==> Successor(after, i) == Successor(j, i);
        }
      }
    }
    if Sound(groups, after) {
      assert SameGroup(groups, top.terminalId, target.value);
      assert top.origin == InitialPrefix ==> SeedSound(groups, after, last);
    }
  }
}
