/** Terminals the players come back to: what is kept of them while something else is on
    the air, and what they show when they are on the air again. */
module Visits {
  import opened Domain
  import opened State
  import opened Sessions
  import opened Changes
  import opened Catalogue
  import opened Terminals
  import opened Dispatch
  import opened Coordinator
  import opened Invariants
  import opened Positions
  import opened Publication
  import opened Checkpoints
  import Nav
  import Puzzles
  import Route
  import Text

  // ---------------------------------------------------------------- one visit

  /** On the air with the content as it is authored now, and no outcome on display. */
  predicate Displays(shown: Terminal, target: Target) {
    && shown.terminalId == target.terminalId && shown.terminalName == target.terminalName
    && shown.tree == target.tree && shown.commandStates == target.commandStates && shown.introText == target.introText
    && shown.execution == None && shown.lifecycle == Active
  }

  /** A terminal visited before has kept its puzzle, solved, failed or open, and with it
      the level it was made for. */
  predicate Resumes(kept: Terminal, shown: Terminal, target: Target) {
    && Displays(shown, target) && shown.hack == kept.hack && shown.presentation == kept.presentation
    && shown.hackLevel == if kept.hack.Some? then kept.hackLevel else target.hackLevel
  }

  /** A first visit has a puzzle exactly when the level asks for one. */
  predicate Begins(shown: Terminal, target: Target, board: Option<HackState>) {
    && Displays(shown, target) && shown.hackLevel == target.hackLevel && shown.presentation == NO_PRESENTATION
    && (target.hackLevel > 0 ==> shown.hack == board) && (target.hackLevel <= 0 ==> shown.hack == None)
  }

  predicate Visited(before: map<string, Terminal>, after: map<string, Terminal>, target: Target,
                    board: Option<HackState>) {
    var id := target.terminalId;
    && after.Keys == before.Keys + {id}
    && (if id in before then Resumes(before[id], after[id], target) else Begins(after[id], target, board))
  }

  /** The checkpoint left is suspended and no other is touched. */
  predicate LeftAlone(before: map<string, Terminal>, after: map<string, Terminal>, left: Option<string>,
                      shown: Option<string>) {
    forall id :: id in before && Some(id) != shown ==>
      id in after && after[id] == before[id].(lifecycle := if left == Some(id) then Suspended else before[id].lifecycle)
  }

  function WithoutOutcomes(terminals: map<string, Terminal>): map<string, Terminal> {
    map id | id in terminals :: terminals[id].(execution := None)
  }

  // ---------------------------------------------------------------- following a link or returning

  predicate Travels(rt: Runtime, after: Runtime) {
    rt.broadcast.Some? && after.broadcast.Some? && after.broadcast.value.route != rt.broadcast.value.route
  }

  /** An approved step suspends the terminal left, shows the target as it is authored now
      over the puzzle it has kept, and touches no other checkpoint. */
  lemma TravelVisits(rt: Runtime, env: Env, request: string, limit: nat)
    requires Inv(rt, limit) && ResolveNavigation(rt, env, request, true).Accept?
    requires Travels(rt, ResolveNavigation(rt, env, request, true).rt)
    ensures rt.pendingNavigation.Some? && LookupTerminal(env.catalog, rt.pendingNavigation.value.target).Some?
    ensures var after, pending := ResolveNavigation(rt, env, request, true).rt, rt.pendingNavigation.value;
            var target := LookupTerminal(env.catalog, pending.target).value;
            && after.broadcast.value.active == Some(pending.target) && target.terminalId == pending.target
            && Visited(CheckpointsOf(rt), CheckpointsOf(after), target, env.board)
            && LeftAlone(CheckpointsOf(rt), CheckpointsOf(after), rt.broadcast.value.active, Some(pending.target))
            && (pending.direction == Forward ==> CheckpointsOf(after)[pending.target].nav == Nav.Default())
            && after.pendingNavigation == None && after.notice == None
  {
    var pending := rt.pendingNavigation.value;
    if pending.direction == Forward {
      ForwardVisits(rt, env, pending);
    } else {
      ReturnVisits(rt, env, pending);
    }
  }

  lemma LinkIsKnown(catalog: Catalog, source: string, commandId: string)
    requires LookupTransition(catalog, source, commandId).Some?
    ensures var target := LookupTransition(catalog, source, commandId).value.target;
            LookupTerminal(catalog, target.terminalId) == Some(target)
  {
    var command := FindNode(LookupTerminal(catalog, source).value.tree, commandId).value;
    FoundTerminal(catalog.terminals, command.transition.value);
  }

  lemma ForwardVisits(rt: Runtime, env: Env, pending: PendingNavigation)
    requires rt.broadcast.Some? && rt.broadcast.value.active.Some? &&
             rt.broadcast.value.active.value in rt.broadcast.value.terminals
    requires OneActive(rt.broadcast.value.terminals, rt.broadcast.value.active)
    requires ApproveForward(rt, env, pending).Accept? && Travels(rt, ApproveForward(rt, env, pending).rt)
    requires rt.pendingNavigation == Some(pending)
    ensures LookupTerminal(env.catalog, pending.target).Some?
    ensures var after := ApproveForward(rt, env, pending).rt;
            var target := LookupTerminal(env.catalog, pending.target).value;
            && after.broadcast.value.active == Some(pending.target) && target.terminalId == pending.target
            && Visited(CheckpointsOf(rt), CheckpointsOf(after), target, env.board)
            && LeftAlone(CheckpointsOf(rt), CheckpointsOf(after), rt.broadcast.value.active, Some(pending.target))
            && CheckpointsOf(after)[pending.target].nav == Nav.Default()
            && after.pendingNavigation == None && after.notice == None
  {
    LinkIsKnown(env.catalog, pending.source, pending.commandId);
  }

  lemma ReturnVisits(rt: Runtime, env: Env, pending: PendingNavigation)
    requires rt.broadcast.Some? && rt.broadcast.value.active.Some? &&
             rt.broadcast.value.active.value in rt.broadcast.value.terminals
    requires OneActive(rt.broadcast.value.terminals, rt.broadcast.value.active)
    requires ApproveReturn(rt, env, pending).Accept? && Travels(rt, ApproveReturn(rt, env, pending).rt)
    requires rt.pendingNavigation == Some(pending)
    ensures LookupTerminal(env.catalog, pending.target).Some?
    ensures var after := ApproveReturn(rt, env, pending).rt;
            var target := LookupTerminal(env.catalog, pending.target).value;
            && after.broadcast.value.active == Some(pending.target) && target.terminalId == pending.target
            && Visited(CheckpointsOf(rt), CheckpointsOf(after), target, env.board)
            && LeftAlone(CheckpointsOf(rt), CheckpointsOf(after), rt.broadcast.value.active, Some(pending.target))
            && after.pendingNavigation == None && after.notice == None
  {
    hide Nav.Restored, Route.ValidReturn;
    FoundTerminal(env.catalog.terminals, pending.target);
  }

  // ---------------------------------------------------------------- activating and clearing

  lemma OutcomesAreCleared(rt: Runtime)
    requires rt.broadcast.Some?
    ensures var cleared := Cleared(rt);
            && cleared.broadcast.Some? && CheckpointsOf(cleared) == WithoutOutcomes(CheckpointsOf(rt))
            && cleared.broadcast.value.active == rt.broadcast.value.active && cleared.broadcast.value.route == []
            && cleared.pendingCommand == None && cleared.pendingNavigation == None && cleared.notice == None
            && cleared.pendingSwitch == rt.pendingSwitch && cleared.broadcast.value.id == rt.broadcast.value.id
  {
  }

  lemma InsteadVisits(b: Broadcast, target: Target, board: Option<HackState>)
    requires OneActive(b.terminals, b.active) && forall id :: id in b.terminals ==> b.terminals[id].execution == None
    ensures var after := ShownInstead(b, target, board);
            && after.active == Some(target.terminalId)
            && Visited(b.terminals, after.terminals, target, board)
            && LeftAlone(b.terminals, after.terminals, b.active, Some(target.terminalId))
            && after.terminals[target.terminalId].nav ==
               (if target.terminalId in b.terminals
                then Nav.Revalidated(b.terminals[target.terminalId].nav, target.tree)
                else Nav.Default())
  {
    hide Nav.Revalidated;
  }

  lemma ClearedStaysOneActive(rt: Runtime, limit: nat)
    requires Inv(rt, limit) && rt.broadcast.Some?
    ensures OneActive(Cleared(rt).broadcast.value.terminals, Cleared(rt).broadcast.value.active)
  {
  }

  /** An activation that does not ask first suspends the terminal left, shows the target
      over what it has kept, and clears what was going on. */
  lemma ActivationVisits(rt: Runtime, env: Env, target: Target, limit: nat)
    requires Inv(rt, limit) && Activate(rt, env, target).Accept? && Activate(rt, env, target).rt.pendingSwitch.None?
    ensures rt.broadcast.Some?
    ensures var after := Activate(rt, env, target).rt;
            && after.broadcast.Some? && after.broadcast.value.active == Some(target.terminalId)
            && Visited(WithoutOutcomes(CheckpointsOf(rt)), CheckpointsOf(after), target, env.board)
            && LeftAlone(WithoutOutcomes(CheckpointsOf(rt)), CheckpointsOf(after), rt.broadcast.value.active,
                         Some(target.terminalId))
            && (target.terminalId in CheckpointsOf(rt) ==>
                  CheckpointsOf(after)[target.terminalId].nav ==
                  Nav.Revalidated(CheckpointsOf(rt)[target.terminalId].nav, target.tree))
            && (target.terminalId !in CheckpointsOf(rt) ==>
                CheckpointsOf(after)[target.terminalId].nav == Nav.Default())
            && after.pendingCommand == None && after.pendingNavigation == None && after.notice == None
  {
    hide Route.Establish, Cleared, ShownInstead, Inv, Unfinished, Nav.Revalidated, Visited, LeftAlone, OneActive;
    if rt.broadcast.Some? {
      OutcomesAreCleared(rt);
      ClearedStaysOneActive(rt, limit);
      InsteadVisits(Cleared(rt).broadcast.value, target, env.board);
      EstablishingKeepsActive(env, JourneyOf(ShownInstead(Cleared(rt).broadcast.value, target, env.board)),
                              target.terminalId);
    }
  }

  /** Asking first leaves every checkpoint as it is, but for outcomes on display. */
  lemma AskingLeavesAll(rt: Runtime, env: Env, target: Target, limit: nat)
    requires Inv(rt, limit) && Activate(rt, env, target).Accept? && Activate(rt, env, target).rt.pendingSwitch.Some?
    ensures rt.broadcast.Some?
    ensures var after := Activate(rt, env, target).rt;
            && after.broadcast.Some? && after.broadcast.value.active == rt.broadcast.value.active
            && CheckpointsOf(after) == WithoutOutcomes(CheckpointsOf(rt))
            && after.pendingCommand == None && after.pendingNavigation == None && after.notice == None
  {
  }

  /** Clearing the screen suspends what was on it and keeps every checkpoint; over an open
      puzzle it asks first. */
  lemma ClearingLeavesAll(rt: Runtime, id: string, limit: nat)
    requires Inv(rt, limit) && ClearTerminal(rt, id).Accept?
    ensures rt.broadcast.Some?
    ensures var after := ClearTerminal(rt, id).rt;
            && after.broadcast.Some? && CheckpointsOf(after).Keys == CheckpointsOf(rt).Keys
            && after.broadcast.value.active ==
               (if Unfinished(ActiveTerminal(rt.broadcast)) then rt.broadcast.value.active else None)
            && LeftAlone(WithoutOutcomes(CheckpointsOf(rt)), CheckpointsOf(after),
                         if after.broadcast.value.active.None? then rt.broadcast.value.active else None, None)
            && after.broadcast.value.route == []
            && after.pendingCommand == None && after.pendingNavigation == None && after.notice == None
  {
    hide Cleared, Inv, Unfinished;
    if rt.broadcast.Some? {
      OutcomesAreCleared(rt);
      ClearedStaysOneActive(rt, limit);
    }
  }

  /** Showing another terminal and then this one again is a round trip for it: puzzle,
      folder and open view are as they were, as long as its content is. */
  lemma ActivatedAwayAndBack(rt: Runtime, env: Env, other: Target, later: Env, target: Target, limit: nat)
    requires Inv(rt, limit) && Activate(rt, env, other).Accept? && Activate(rt, env, other).rt.pendingSwitch.None?
    requires var left := ActiveTerminal(rt.broadcast);
             left.Some? && Placed(left.value) && ContentOf(target, left.value) && other.terminalId != target.terminalId
    requires var away := Activate(rt, env, other).rt;
             Activate(away, later, target).Accept? && Activate(away, later, target).rt.pendingSwitch.None?
    ensures var back := Activate(Activate(rt, env, other).rt, later, target).rt;
            ActiveTerminal(back.broadcast) == Some(ActiveTerminal(rt.broadcast).value.(execution := None))
  {
    var t := ActiveTerminal(rt.broadcast).value;
    var away := Activate(rt, env, other).rt;
    hide Activate, Cleared;
    ActivationVisits(rt, env, other, limit);
    ActivateKeepsInv(rt, env, other, limit);
    ActivationVisits(away, later, target, limit);
    Nav.WellFormedIsFixed(t.nav, t.tree);
    var back := CheckpointsOf(Activate(away, later, target).rt)[target.terminalId];
    assert Resumes(CheckpointsOf(away)[target.terminalId], back, target);
  }

  lemma ActivateKeepsInv(rt: Runtime, env: Env, target: Target, limit: nat)
    requires Inv(rt, limit) && Activate(rt, env, target).Accept?
    ensures Inv(Activate(rt, env, target).rt, limit)
  {
    ActivateKeeps(rt, env, target, limit);
  }

  /** So is clearing the screen. */
  lemma ClearedAndBack(rt: Runtime, id: string, later: Env, target: Target, limit: nat)
    requires Inv(rt, limit) && ClearTerminal(rt, id).Accept? && ClearTerminal(rt, id).rt.broadcast.Some?
    requires ClearTerminal(rt, id).rt.broadcast.value.active.None?
    requires var left := ActiveTerminal(rt.broadcast); left.Some? && Placed(left.value) && ContentOf(target, left.value)
    requires var away := ClearTerminal(rt, id).rt;
             Activate(away, later, target).Accept? && Activate(away, later, target).rt.pendingSwitch.None?
    ensures var back := Activate(ClearTerminal(rt, id).rt, later, target).rt;
            ActiveTerminal(back.broadcast) == Some(ActiveTerminal(rt.broadcast).value.(execution := None))
  {
    var t := ActiveTerminal(rt.broadcast).value;
    var away := ClearTerminal(rt, id).rt;
    hide Activate, ClearTerminal, Cleared;
    ClearingLeavesAll(rt, id, limit);
    ClearKeepsInv(rt, id, limit);
    ActivationVisits(away, later, target, limit);
    Nav.WellFormedIsFixed(t.nav, t.tree);
    var back := CheckpointsOf(Activate(away, later, target).rt)[target.terminalId];
    assert Resumes(CheckpointsOf(away)[target.terminalId], back, target);
  }

  lemma ClearKeepsInv(rt: Runtime, id: string, limit: nat)
    requires Inv(rt, limit) && ClearTerminal(rt, id).Accept?
    ensures Inv(ClearTerminal(rt, id).rt, limit)
  {
    ClearTerminalKeeps(rt, id, limit);
  }

  // ---------------------------------------------------------------- the target of a switch

  /** A resolved switch shows its target over what it has kept, unless that is just what
      was discarded. */
  lemma SwitchVisits(rt: Runtime, env: Env, id: string, choice: Choice, limit: nat)
    requires Inv(rt, limit) && ResolveSwitch(rt, env, id, choice).Accept? && choice != Cancel
    requires rt.pendingSwitch.Some? && rt.pendingSwitch.value.target.Some?
    ensures var after, target := ResolveSwitch(rt, env, id, choice).rt, rt.pendingSwitch.value.target.value;
            var before := if choice == Discard then CheckpointsOf(rt) - {rt.pendingSwitch.value.source}
                else CheckpointsOf(rt);
            && Visited(before, CheckpointsOf(after), target, env.board)
            && (target.terminalId in before ==>
                  CheckpointsOf(after)[target.terminalId].nav ==
                      Nav.Revalidated(before[target.terminalId].nav, target.tree))
            && (target.terminalId !in before ==> CheckpointsOf(after)[target.terminalId].nav == Nav.Default())
  {
  }

  // ---------------------------------------------------------------- new content

  predicate OthersStay(rt: Runtime, after: Runtime, id: string) {
    && rt.broadcast.Some? && after.broadcast.Some? && after.broadcast.value.active == rt.broadcast.value.active
    && CheckpointsOf(after).Keys == CheckpointsOf(rt).Keys
    && forall other :: other in CheckpointsOf(rt) && other != id ==>
       CheckpointsOf(after)[other] == CheckpointsOf(rt)[other]
  }

  /** An edit of the content on the air changes the tree, the intro text if it is given,
      and where the players stand as far as the new tree makes it necessary. */
  lemma EditChangesContentOnly(rt: Runtime, env: Env, tree: ContentNode, intro: Option<string>, limit: nat)
    requires Inv(rt, limit) && UpdateLive(rt, env, tree, intro).Accept?
    ensures ActiveTerminal(rt.broadcast).Some?
    ensures var after, t := UpdateLive(rt, env, tree, intro).rt, ActiveTerminal(rt.broadcast).value;
            && OthersStay(rt, after, t.terminalId)
            && var u := ActiveTerminal(after.broadcast);
               && u.Some? && u.value.(tree := t.tree, introText := t.introText, nav := t.nav) == t
               && u.value.tree == tree && u.value.nav == Nav.Revalidated(t.nav, tree)
               && (intro.Some? ==> u.value.introText == intro.value) &&
                  (intro.None? ==> u.value.introText == t.introText)
  {
  }

  /** A refresh installs all of the authored content; the puzzle, an outcome on display
      and the presentation stay, and so does the level of a puzzle. A command whose result
      is gone is no longer open. */
  lemma RefreshInstallsContent(rt: Runtime, env: Env, target: Target, limit: nat)
    requires Inv(rt, limit) && Refresh(rt, env, target).Accept?
    ensures ActiveTerminal(rt.broadcast).Some?
    ensures var after, t := Refresh(rt, env, target).rt, ActiveTerminal(rt.broadcast).value;
            && OthersStay(rt, after, t.terminalId)
            && var u := ActiveTerminal(after.broadcast);
               && u.Some? && u.value.terminalName == target.terminalName && u.value.tree == target.tree
               && u.value.commandStates == target.commandStates && u.value.introText == target.introText
               && u.value.hackLevel == (if t.hack.Some? then t.hackLevel else target.hackLevel)
               && u.value.hack == t.hack && u.value.execution == t.execution && u.value.presentation == t.presentation
               && u.value.terminalId == t.terminalId && u.value.lifecycle == t.lifecycle
               && (forall c :: t.nav.command == Some(c) && c in t.commandStates && c !in target.commandStates ==>
                     u.value.nav == Nav.Revalidated(t.nav.(command := None), target.tree))
               && (t.nav.command.None? || t.nav.command.value !in t.commandStates ||
                   t.nav.command.value in target.commandStates
                   ==> u.value.nav == Nav.Revalidated(t.nav, target.tree))
  {
  }

  /** A failed puzzle, and only that, can be replaced; the terminal starts anew. */
  lemma ResetBeginsAnew(rt: Runtime, env: Env, target: Target, limit: nat)
    requires Inv(rt, limit) && ResetHack(rt, env, target).Accept?
    ensures ActiveTerminal(rt.broadcast).Some? && ActiveTerminal(rt.broadcast).value.hack.Some?
    ensures var after, t := ResetHack(rt, env, target).rt, ActiveTerminal(rt.broadcast).value;
            && t.hack.value.failed && !t.hack.value.solved
            && OthersStay(rt, after, t.terminalId)
            && var u := ActiveTerminal(after.broadcast);
               && u.Some? && Begins(u.value, target.(terminalId := t.terminalId), env.board)
               && u.value.nav == Nav.Default() && u.value.hack.Some? && !Puzzles.Ended(u.value.hack.value)
  {
  }

  // ---------------------------------------------------------------- puzzles over whole runs

  /** Playing, forcing or resetting the puzzle on the air, discarding it, and the end of the
      broadcast: nothing else reaches a puzzle. */
  predicate ReachesPuzzle(rt: Runtime, op: Operation, id: string) {
    match op
    case Setup(EndBroadcast) => true
    case OnTerminal(ForceHackSuccess) => rt.broadcast.Some? && rt.broadcast.value.active == Some(id)
    case OnTerminal(ResetFailedHack(target)) => rt.broadcast.Some? && rt.broadcast.value.active == Some(id)
    case OnTerminal(ResolveTerminalSwitch(switchId, choice)) =>
      choice == Discard && rt.broadcast.Some? && rt.broadcast.value.active == Some(id)
    case PlayerAction(connection, c, rules) =>
      (c.kind == "guess" || c.kind == "activate-pattern") && rt.broadcast.Some? && rt.broadcast.value.active == Some(id)
    case _ => false
  }

  predicate KeepsPuzzle(rt: Runtime, after: Runtime, id: string) {
    id in CheckpointsOf(rt) ==>
      id in CheckpointsOf(after) && CheckpointsOf(after)[id].hack == CheckpointsOf(rt)[id].hack
  }

  predicate PuzzleKept(rt: Runtime, change: Change, id: string) {
    !change.Reject? ==> KeepsPuzzle(rt, change.rt, id)
  }

  lemma TerminalOpKeepsPuzzle(rt: Runtime, env: Env, op: TerminalOp, id: string)
    requires Inv(rt, env.limit) && !ReachesPuzzle(rt, OnTerminal(op), id)
    ensures PuzzleKept(rt, ExecuteTerminal(rt, env, op), id)
  {
    hide Activate, ResolveSwitch, ClearTerminal, UpdateLive, Refresh, ResetHack, ForceHack;
    match op {
      case RequestActivation(target) => ActivationKeepsPuzzle(rt, env, target, id);
      case RequestClear => ClearingKeepsPuzzle(rt, env, id);
      case ResolveTerminalSwitch(switchId, choice) => SwitchKeepsPuzzle(rt, env, switchId, choice, id);
      case _ => ContentOpKeepsPuzzle(rt, env, op, id);
    }
  }

  lemma ClearingKeepsPuzzle(rt: Runtime, env: Env, id: string)
    requires Inv(rt, env.limit)
    ensures PuzzleKept(rt, ClearTerminal(rt, env.id), id)
  {
    hide Cleared, Hidden, Inv;
    if ClearTerminal(rt, env.id).Accept? {
      ClearingLeavesAll(rt, env.id, env.limit);
    }
  }

  lemma ContentOpKeepsPuzzle(rt: Runtime, env: Env, op: TerminalOp, id: string)
    requires Inv(rt, env.limit) && !ReachesPuzzle(rt, OnTerminal(op), id)
    requires op.UpdateLiveTerminal? || op.RefreshActiveTerminal? || op.ResetFailedHack? || op.ForceHackSuccess?
    ensures PuzzleKept(rt, ExecuteTerminal(rt, env, op), id)
  {
    hide Nav.Revalidated, PutActive, Puzzles.Forced;
    if ExecuteTerminal(rt, env, op).Accept? {
      match op {
        case UpdateLiveTerminal(tree, intro) => EditChangesContentOnly(rt, env, tree, intro, env.limit);
        case RefreshActiveTerminal(target) => RefreshInstallsContent(rt, env, target, env.limit);
        case ResetFailedHack(target) => ResetBeginsAnew(rt, env, target, env.limit);
        case ForceHackSuccess =>
          var t := ActiveTerminal(rt.broadcast).value;
          PutActiveKeepsPuzzle(rt, t.(hack := Some(Puzzles.Forced(t.hack.value))), id);
      }
    }
  }

  lemma ActivationKeepsPuzzle(rt: Runtime, env: Env, target: Target, id: string)
    requires Inv(rt, env.limit)
    ensures PuzzleKept(rt, Activate(rt, env, target), id)
  {
    hide Activate, Inv;
    var change := Activate(rt, env, target);
    if change.Accept? {
      if change.rt.pendingSwitch.Some? {
        AskingLeavesAll(rt, env, target, env.limit);
      } else {
        ActivationVisits(rt, env, target, env.limit);
      }
    } else {
      ActivationNeverStores(rt, env, target);
    }
  }

  lemma ActivationNeverStores(rt: Runtime, env: Env, target: Target)
    ensures !Activate(rt, env, target).Persist?
  {
    hide Cleared, ShownFirst;
  }

  lemma SwitchKeepsPuzzle(rt: Runtime, env: Env, switchId: string, choice: Choice, id: string)
    requires Inv(rt, env.limit) && !ReachesPuzzle(rt, OnTerminal(ResolveTerminalSwitch(switchId, choice)), id)
    ensures PuzzleKept(rt, ResolveSwitch(rt, env, switchId, choice), id)
  {
    hide Nav.Revalidated;
  }

  lemma PutActiveKeepsPuzzle(rt: Runtime, u: Terminal, id: string)
    requires ActiveTerminal(rt.broadcast).Some?
    requires rt.broadcast.value.active != Some(id) || u.hack == ActiveTerminal(rt.broadcast).value.hack
    ensures KeepsPuzzle(rt, PutActive(rt, u), id)
  {
  }

  lemma CommandKeepsPuzzle(rt: Runtime, request: string, approve: bool, durable: Durable, id: string)
    ensures PuzzleKept(rt, ResolveCommand(rt, request, approve, durable), id)
  {
    hide AnswerCommand;
    if CommandCurrent(rt) {
      CommandAnswerKeepsPuzzle(rt, rt.pendingCommand.value, ActiveTerminal(rt.broadcast).value, approve, durable, id);
    }
  }

  lemma CommandAnswerKeepsPuzzle(rt: Runtime, pending: PendingCommand, t: Terminal, approve: bool, durable: Durable,
                                 id: string)
    requires ActiveTerminal(rt.broadcast) == Some(t)
    ensures PuzzleKept(rt, AnswerCommand(rt, pending, t, approve, durable), id)
  {
    hide StillAuthored, DurableMatches, PutActive, Nav.Applied;
    PutActiveKeepsPuzzle(rt, t.(execution := Some(Execution(Rejected, pending.commandId))), id);
    PutActiveKeepsPuzzle(rt, t.(execution := None), id);
    if pending.mode == ChangeMode ==> durable.Stored? && durable.states.Some? {
      PutActiveKeepsPuzzle(rt, Approved(t, pending, durable), id);
    }
  }

  lemma ResetStatesKeepsPuzzle(rt: Runtime, terminal: string, node: Option<string>, durable: Durable, id: string)
    ensures PuzzleKept(rt, ResetStates(rt, terminal, node, durable), id)
  {
    hide ResetAccepted, ResetAffects;
  }

  lemma DecisionKeepsPuzzle(rt: Runtime, env: Env, op: DecisionOp, id: string)
    requires Inv(rt, env.limit)
    ensures PuzzleKept(rt, ExecuteDecision(rt, env, op), id)
  {
    hide ResolveCommand, ResolveNavigation, ResetStates, Route.Accepts;
    match op {
      case ResolveCommandExecution(request, approve, durable) => CommandKeepsPuzzle(rt, request, approve, durable, id);
      case ResetCommandStates(terminal, node, durable) => ResetStatesKeepsPuzzle(rt, terminal, node, durable, id);
      case ResolveTerminalNavigation(request, approve) => NavigationKeepsPuzzle(rt, env, request, approve, id);
      case ReplaceTerminalGroups(groups, revision, store) =>
    }
  }

  lemma NavigationKeepsPuzzle(rt: Runtime, env: Env, request: string, approve: bool, id: string)
    requires Inv(rt, env.limit)
    ensures PuzzleKept(rt, ResolveNavigation(rt, env, request, approve), id)
  {
    hide ApproveForward, ApproveReturn, RejectNavigation;
    if NavigationCurrent(rt, Text.Trim(request)) {
      ForwardKeepsPuzzle(rt, env, rt.pendingNavigation.value, id);
      ReturnKeepsPuzzle(rt, env, rt.pendingNavigation.value, id);
      RejectionKeepsPuzzle(rt, rt.pendingNavigation.value, ActiveTerminal(rt.broadcast).value, id);
    }
  }

  lemma ForwardKeepsPuzzle(rt: Runtime, env: Env, pending: PendingNavigation, id: string)
    requires rt.broadcast.Some? && rt.broadcast.value.active.Some?
    requires OneActive(rt.broadcast.value.terminals, rt.broadcast.value.active)
    ensures PuzzleKept(rt, ApproveForward(rt, env, pending), id)
  {
    hide Nav.Revalidated;
  }

  lemma ReturnKeepsPuzzle(rt: Runtime, env: Env, pending: PendingNavigation, id: string)
    requires rt.broadcast.Some? && rt.broadcast.value.active.Some?
    requires OneActive(rt.broadcast.value.terminals, rt.broadcast.value.active)
    ensures PuzzleKept(rt, ApproveReturn(rt, env, pending), id)
  {
    hide Nav.Revalidated, Nav.Restored, Route.ValidReturn;
  }

  lemma RejectionKeepsPuzzle(rt: Runtime, pending: PendingNavigation, t: Terminal, id: string)
    requires ActiveTerminal(rt.broadcast) == Some(t)
    ensures PuzzleKept(rt, RejectNavigation(rt, pending, t), id)
  {
  }

  lemma PlayKeepsPuzzle(rt: Runtime, env: Env, session: string, t: Terminal, c: PlayerCommand, rules: Rules, id: string)
    requires Acting(rt, t) && (rt.broadcast.value.active == Some(id) ==>
                               c.kind != "guess" && c.kind != "activate-pattern")
    ensures PuzzleKept(rt, RequestPlay(rt, env, session, t, c, rules).change, id)
  {
    hide Nav.Applied, PutActive, Sessions.Stored, Puzzles.Guessed, Puzzles.Activated;
    if Play(t, c, rules).Some? {
      PutActiveKeepsPuzzle(rt, Play(t, c, rules).value, id);
    }
  }

  lemma OpenKeepsPuzzle(rt: Runtime, env: Env, session: string, t: Terminal, c: PlayerCommand, id: string)
    requires Acting(rt, t)
    ensures PuzzleKept(rt, RequestOpen(rt, env, session, t, c).change, id)
  {
    hide Selected, LinkCurrent, PutActive, Sessions.Stored, ModeOf, DisplayedName, Fingerprint;
    var authored := Selected(t, c.nodeId);
    if authored.Some? {
      PutActiveKeepsPuzzle(rt, t.(execution := Some(Execution(Awaiting, authored.value.id))), id);
    }
  }

  lemma ActKeepsPuzzle(rt: Runtime, env: Env, session: string, t: Terminal, c: PlayerCommand, rules: Rules, id: string)
    requires Acting(rt, t) && (rt.broadcast.value.active == Some(id) ==>
                               c.kind != "guess" && c.kind != "activate-pattern")
    ensures PuzzleKept(rt, Act(rt, env, session, t, c, rules).change, id)
  {
    hide RequestPlay, RequestOpen, Route.ValidReturn, Sessions.Stored;
    PlayKeepsPuzzle(rt, env, session, t, c, rules, id);
    OpenKeepsPuzzle(rt, env, session, t, c, id);
  }

  lemma ActionKeepsPuzzle(rt: Runtime, env: Env, connection: string, c: PlayerCommand, rules: Rules, id: string)
    requires Inv(rt, env.limit) && !ReachesPuzzle(rt, PlayerAction(connection, c, rules), id)
    ensures PuzzleKept(rt, DispatchAction(rt, env, connection, c, rules).change, id)
  {
    hide Act;
    PrepareFacts(rt, env, connection, c, rules);
    var prepared := Prepare(rt, env, connection, c, rules);
    if prepared.Go? {
      ActKeepsPuzzle(rt, env, prepared.session, prepared.terminal, c, rules, id);
    }
  }

  lemma SetupKeepsPuzzle(rt: Runtime, env: Env, op: SetupOp, id: string)
    requires !op.EndBroadcast?
    ensures PuzzleKept(rt, ExecuteSetup(rt, env, op), id)
  {
  }

  lemma SessionOpKeepsPuzzle(rt: Runtime, env: Env, op: SessionOp, id: string)
    ensures PuzzleKept(rt, ExecuteSession(rt, env, op), id)
  {
  }

  lemma ClaimOpKeepsPuzzle(rt: Runtime, op: ClaimOp, id: string)
    ensures PuzzleKept(rt, ExecuteClaim(rt, op), id)
  {
  }

  /** Nothing else reaches the puzzle of a terminal, on the air or not. */
  lemma PuzzleStays(rt: Runtime, env: Env, op: Operation, id: string)
    requires Inv(rt, env.limit) && !Execute(rt, env, op).Reject? && !ReachesPuzzle(rt, op, id) &&
             id in CheckpointsOf(rt)
    ensures id in CheckpointsOf(Execute(rt, env, op).rt)
    ensures CheckpointsOf(Execute(rt, env, op).rt)[id].hack == CheckpointsOf(rt)[id].hack
  {
    hide ExecuteSetup, ExecuteSession, ExecuteClaim, ExecuteTerminal, ExecuteDecision, DispatchAction, CheckpointsOf,
         Inv;
    match op {
      case Setup(setup) => SetupKeepsPuzzle(rt, env, setup, id);
      case OnSession(session) => SessionOpKeepsPuzzle(rt, env, session, id);
      case OnClaim(claim) => ClaimOpKeepsPuzzle(rt, claim, id);
      case OnTerminal(terminal) => TerminalOpKeepsPuzzle(rt, env, terminal, id);
      case Decide(decision) => DecisionKeepsPuzzle(rt, env, decision, id);
      case PlayerAction(connection, action, rules) => ActionKeepsPuzzle(rt, env, connection, action, rules, id);
    }
  }

  /** Over a whole run a terminal keeps its puzzle, however often it leaves the screen and
      comes back, until somebody plays, forces or resets it, discards it, or the broadcast
      ends. */
  lemma {:induction false} PuzzleStands(states: seq<Coordinator>, steps: seq<Step>, limit: nat, i: nat, n: nat,
                                        id: string)
    requires IsRun(states, steps, limit) && limit >= 1 && i <= n < |states| && id in CheckpointsOf(states[i].rt)
    requires forall k :: i <= k < n ==> LeavesPuzzle(states, steps, k, id)
    ensures id in CheckpointsOf(states[n].rt) &&
            CheckpointsOf(states[n].rt)[id].hack == CheckpointsOf(states[i].rt)[id].hack
    decreases n
  {
    if i < n {
      PuzzleStands(states, steps, limit, i, n - 1, id);
      RunKeepsInv(states, steps, limit, n - 1);
      assert Linked(states, steps, n - 1, limit) && LeavesPuzzle(states, steps, n - 1, id);
      CommittedPuzzleStays(states[n - 1], steps[n - 1].env, steps[n - 1].op, id);
    }
  }

  predicate LeavesPuzzle(states: seq<Coordinator>, steps: seq<Step>, k: nat, id: string)
    requires |states| == |steps| + 1 && k < |steps|
  {
    !ReachesPuzzle(states[k].rt, steps[k].op, id)
  }

  lemma CommittedPuzzleStays(s: Coordinator, env: Env, op: Operation, id: string)
    requires Inv(s.rt, env.limit) && !ReachesPuzzle(s.rt, op, id) && id in CheckpointsOf(s.rt)
    ensures KeepsPuzzle(s.rt, Commit(s, Execute(s.rt, env, op)).rt, id)
  {
    hide Execute;
    if !Execute(s.rt, env, op).Reject? {
      PuzzleStays(s.rt, env, op, id);
    }
  }
}
