/** The Overseer's own commands: when each is accepted, what it takes back, and what is
    reported of a request that is gone. */
module Upkeep {
  import opened Domain
  import opened State
  import opened Changes
  import opened Catalogue
  import opened Terminals
  import opened Dispatch
  import opened Coordinator
  import opened Invariants
  import opened Checkpoints
  import opened Views
  import opened Visits
  import Puzzles
  import Route
  import Text

  // ---------------------------------------------------------------- content and puzzles

  predicate Open(puzzle: HackState) {
    !puzzle.solved && !puzzle.failed
  }

  /** Content goes to the terminal on the air, and only there. */
  lemma ContentTakenIff(rt: Runtime, env: Env, tree: ContentNode, intro: Option<string>, target: Target, limit: nat)
    requires Inv(rt, limit)
    ensures var onAir := if rt.broadcast.Some? then rt.broadcast.value.active else None;
            && (Execute(rt, env, OnTerminal(UpdateLiveTerminal(tree, intro))).Accept? <==> onAir.Some? && env.delivered)
            && (Execute(rt, env, OnTerminal(RefreshActiveTerminal(target))).Accept? <==>
                  Text.Trim(target.terminalId) != "" && onAir == Some(Text.Trim(target.terminalId)) && env.delivered)
  {
    hide ExecuteDecision, ExecuteSetup, ExecuteSession, ExecuteClaim, DispatchAction;
  }

  /** A puzzle is replaced exactly if it has failed and a new one comes for it; it is forced
      exactly if it is open. */
  lemma PuzzleTakenIff(rt: Runtime, env: Env, target: Target, limit: nat)
    requires Inv(rt, limit)
    ensures Execute(rt, env, OnTerminal(ResetFailedHack(target))).Accept? <==>
            && ActiveTerminal(rt.broadcast).Some? && Text.Trim(target.terminalId) != ""
            && ActiveTerminal(rt.broadcast).value.terminalId == Text.Trim(target.terminalId)
            && var hack := ActiveTerminal(rt.broadcast).value.hack;
               && hack.Some? && hack.value.failed && !hack.value.solved
               && env.delivered && target.hackLevel > 0 && env.board.Some? && Open(env.board.value)
    ensures Execute(rt, env, OnTerminal(ForceHackSuccess)).Accept? <==>
            ActiveTerminal(rt.broadcast).Some? && ActiveTerminal(rt.broadcast).value.hack.Some?
            && Open(ActiveTerminal(rt.broadcast).value.hack.value)
    ensures Execute(rt, env, OnTerminal(ForceHackSuccess)).Accept? ==>
              var t := ActiveTerminal(rt.broadcast).value;
              && OthersStay(rt, Execute(rt, env, OnTerminal(ForceHackSuccess)).rt, t.terminalId)
              && ActiveTerminal(Execute(rt, env, OnTerminal(ForceHackSuccess)).rt.broadcast) ==
                 Some(t.(hack := Some(Puzzles.Forced(t.hack.value))))
  {
    hide ExecuteDecision, ExecuteSetup, ExecuteSession, ExecuteClaim, DispatchAction;
    hide Puzzles.Forced;
  }

  // ---------------------------------------------------------------- showing and asking first

  predicate OpenPuzzleOnAir(rt: Runtime) {
    && ActiveTerminal(rt.broadcast).Some? && ActiveTerminal(rt.broadcast).value.hack.Some?
    && Open(ActiveTerminal(rt.broadcast).value.hack.value)
  }

  /** Showing a terminal asks first exactly if that leaves an open puzzle; otherwise it is
      shown if it can be delivered or only has to be resumed. */
  lemma ShowingAsksIff(rt: Runtime, env: Env, target: Target, limit: nat)
    requires Inv(rt, limit) && rt.broadcast.Some? && !Text.Blank(target.terminalId)
    ensures var change, other := Execute(rt, env, OnTerminal(RequestActivation(target))),
            rt.broadcast.value.active != Some(target.terminalId);
            var kept := CheckpointsOf(rt);
            && (change.Accept? <==>
                  || (OpenPuzzleOnAir(rt) && other) || env.delivered
                  || (target.terminalId in kept && rt.broadcast.value.active != Some(target.terminalId)))
            && (change.Accept? ==> (change.rt.pendingSwitch.Some? <==> OpenPuzzleOnAir(rt) && other))
            && (change.Accept? && change.rt.pendingSwitch.Some? ==>
                  change.rt.pendingSwitch == Some(PendingSwitch(env.id, rt.broadcast.value.id,
                                                                rt.broadcast.value.active.value,
                                                                Some(target))))
  {
    hide ExecuteDecision, ExecuteSetup, ExecuteSession, ExecuteClaim, DispatchAction;
    hide Route.Establish, Opened, ShownInstead, Cleared, Inv;
    OutcomesAreCleared(rt);
    ClearingKeepsPuzzle(rt, limit);
  }

  lemma ClearingKeepsPuzzle(rt: Runtime, limit: nat)
    requires Inv(rt, limit) && rt.broadcast.Some?
    ensures Unfinished(ActiveTerminal(Cleared(rt).broadcast)) <==> OpenPuzzleOnAir(rt)
    ensures Unfinished(ActiveTerminal(rt.broadcast)) <==> OpenPuzzleOnAir(rt)
    ensures OpenPuzzleOnAir(rt) ==>
              rt.broadcast.value.active.Some?
              && ActiveTerminal(Cleared(rt).broadcast).value.terminalId == rt.broadcast.value.active.value
    ensures forall id :: id in CheckpointsOf(rt) ==>
              (CheckpointsOf(rt)[id].lifecycle == Suspended <==> rt.broadcast.value.active != Some(id))
  {
    hide Cleared, SessionsOk, RosterOk, PendingOk;
    OutcomesAreCleared(rt);
  }

  /** Clearing the screen asks first exactly if that leaves an open puzzle; with nothing on
      the air it is refused unless there is something to forget. */
  lemma ClearingAsksIff(rt: Runtime, env: Env, limit: nat)
    requires Inv(rt, limit) && rt.broadcast.Some?
    ensures var change, onAir := Execute(rt, env, OnTerminal(RequestClear)), rt.broadcast.value.active;
            && (change.Accept? <==>
                  onAir.Some? || rt.pendingNavigation.Some? || rt.notice.Some? || rt.broadcast.value.route != [])
            && (onAir.Some? ==> (change.rt.pendingSwitch.Some? <==> OpenPuzzleOnAir(rt)))
            && (onAir.Some? && OpenPuzzleOnAir(rt) ==>
                  change.rt.pendingSwitch == Some(PendingSwitch(env.id, rt.broadcast.value.id, onAir.value, None)))
            && (onAir.None? && change.Accept? ==> change.rt.pendingSwitch == rt.pendingSwitch)
  {
    hide Cleared, Inv, Hidden;
    OutcomesAreCleared(rt);
    ClearingKeepsPuzzle(rt, limit);
  }

  /** The question is answered under its own identifier while its terminal is on the air;
      cancelling needs nothing else, leaving needs the next terminal to be there. */
  lemma SwitchTakenIff(rt: Runtime, env: Env, id: string, choice: Choice, limit: nat)
    requires Inv(rt, limit)
    ensures Execute(rt, env, OnTerminal(ResolveTerminalSwitch(id, choice))).Accept? <==>
            && id != "" && rt.pendingSwitch.Some? && rt.pendingSwitch.value.id == id
            && rt.broadcast.Some? && rt.broadcast.value.active == Some(rt.pendingSwitch.value.source)
            && (choice == Cancel || rt.pendingSwitch.value.target.None? || env.delivered)
  {
    hide LeftBehind, ShownKept;
  }

  // ---------------------------------------------------------------- results taken back

  /** What a reset is about: one command, or every command that has a result. */
  predicate About(t: Terminal, node: Option<string>, commandId: string) {
    if node.Some? then node == Some(commandId) else commandId in t.commandStates
  }

  predicate ClosedBy(t: Terminal, u: Terminal, node: Option<string>) {
    && u.nav == (if t.nav.command.Some? && About(t, node, t.nav.command.value) then t.nav.(command := None) else t.nav)
    && u.execution == (if t.execution.Some? && About(t, node, t.execution.value.commandId) then None else t.execution)
  }

  /** The store must have taken the results back: they are gone from the valid document it
      returned, and something changed. */
  predicate TakenBack(durable: Durable, node: Option<string>) {
    && durable.Stored? && durable.changed && durable.valid && durable.states.Some?
    && match node
       case None => durable.states.value == map[]
       case Some(id) => id !in durable.states.value
  }

  predicate Spelled(terminal: string, node: Option<string>) {
    Text.Trim(terminal) != "" && (node.Some? ==> Text.Trim(node.value) != "")
  }

  /** Then the checkpoint takes over what the store has left, and whatever showed a result
      that is gone is closed: the open view, the outcome on display and the question. */
  lemma ResultsAreTakenBack(rt: Runtime, env: Env, terminal: string, node: Option<string>, durable: Durable, limit: nat)
    requires Inv(rt, limit)
    ensures var change := Execute(rt, env, Decide(ResetCommandStates(terminal, node, durable)));
            var id, about := Text.Trim(terminal), if node.Some? then Some(Text.Trim(node.value)) else None;
            && (change.Accept? <==> Spelled(terminal, node) && TakenBack(durable, about))
            && (change.Accept? && id !in CheckpointsOf(rt) ==> change.rt == rt)
            && (change.Accept? && id in CheckpointsOf(rt) ==>
                  && OthersStay(rt, change.rt, id)
                  && var t, u := CheckpointsOf(rt)[id], CheckpointsOf(change.rt)[id];
                     && u.commandStates == durable.states.value && ClosedBy(t, u, about)
                     && u.(commandStates := t.commandStates, nav := t.nav, execution := t.execution) == t
                     && (change.rt.pendingCommand.None? <==>
                           rt.pendingCommand.None?
                           || (rt.pendingCommand.value.terminalId == id &&
                               About(t, about, rt.pendingCommand.value.commandId)))
                     && (change.rt.pendingCommand.Some? ==> change.rt.pendingCommand == rt.pendingCommand))
  {
    hide ExecuteTerminal, ExecuteSetup, ExecuteSession, ExecuteClaim, DispatchAction, ResetTerminal, ClosedBy;
    var id := Text.Trim(terminal);
    if id in CheckpointsOf(rt) && Execute(rt, env, Decide(ResetCommandStates(terminal, node, durable))).Accept? {
      ResetCloses(CheckpointsOf(rt)[id], if node.Some? then Some(Text.Trim(node.value))
                  else None, durable.states.value);
    }
  }

  lemma ResetCloses(t: Terminal, node: Option<string>, states: map<string, CommandState>)
    ensures var u := ResetTerminal(t, node, states);
            && u.commandStates == states && ClosedBy(t, u, node)
            && u.(commandStates := t.commandStates, nav := t.nav, execution := t.execution) == t
  {
  }

  // ---------------------------------------------------------------- groups

  /** New groups are taken exactly at the revision they were made for, if the journey on
      the air and the step that waits are sound under them, they list the terminal on the
      air, and the store replaces them; the aggregate itself does not change. */
  lemma GroupsTakenIff(rt: Runtime, env: Env, groups: seq<Group>, expected: nat, store: GroupStore)
    requires ValidGroups(groups)
    requires rt.broadcast.Some? && rt.broadcast.value.active.None? ==> rt.broadcast.value.route == []
    ensures var change, journey := Execute(rt, env, Decide(ReplaceTerminalGroups(groups, expected, store))),
            CurrentJourney(rt);
            && (change.Accept? <==>
                  && expected == rt.revision && store == GroupsReplaced
                  && Route.JourneySound(groups, journey) && Route.PendingSound(groups, journey, rt.pendingNavigation)
                  && (rt.broadcast.Some? && rt.broadcast.value.active.Some? ==>
                        exists g :: g in groups && rt.broadcast.value.active.value in g.members))
            && (change.Accept? ==> change.rt == rt)
  {
    hide Route.Accepts, Route.JourneySound, Route.PendingSound;
    Route.AcceptedIffSound(groups, CurrentJourney(rt), rt.pendingNavigation);
    if rt.broadcast.Some? && rt.broadcast.value.active.Some? {
      FoundGroup(groups, rt.broadcast.value.active.value);
    }
  }

  // ---------------------------------------------------------------- what is reported

  predicate Gone(rt: Runtime, after: Runtime, requestId: string) {
    || (rt.pendingCommand.Some? && after.pendingCommand.None? && rt.pendingCommand.value.requestId == requestId)
    || (rt.pendingNavigation.Some? && after.pendingNavigation.None? && rt.pendingNavigation.value.direction == Forward
        && rt.pendingNavigation.value.requestId == requestId)
  }

  /** A command or link that no longer waits is always reported: by the decision on it, or
      else as superseded; and nothing is reported as superseded that still waits. */
  lemma GoneIsReported(rt: Runtime, after: Runtime, audits: seq<Audit>, requestId: string)
    ensures Gone(rt, after, requestId) ==>
              exists a :: a in AcceptedAudits(rt, after, audits) && a.requestId == requestId
    ensures rt.pendingCommand.Some? && after.pendingCommand.None? && rt.pendingCommand.value.requestId == requestId ==>
              exists a :: a in AcceptedAudits(rt, after, audits) && a.requestId == requestId
                          && (a.name == Decided || a.outcome == Superseded)
    ensures audits <= AcceptedAudits(rt, after, audits)
    ensures forall a :: a in AcceptedAudits(rt, after, audits) && a !in audits ==>
              a.outcome == Superseded && a.name == RequestOutcome && Gone(rt, after, a.requestId)
  {
    var first, second := SupersededCommand(rt, after, audits), audits + SupersededCommand(rt, after, audits);
    var third := SupersededNavigation(rt, after, second);
    assert AcceptedAudits(rt, after, audits) == audits + first + third;
    if rt.pendingCommand.Some? && after.pendingCommand.None? && first != [] {
      assert first[0] in AcceptedAudits(rt, after, audits);
    }
    if rt.pendingNavigation.Some? && after.pendingNavigation.None? && third != [] {
      assert third[0] in AcceptedAudits(rt, after, audits);
    }
  }

  /** What a commit installs and reports: nothing, replay records, or the next revision, and
      in each case every audit of the change, in order and before any update. */
  lemma CommitReports(s: Coordinator, change: Change)
    ensures var next := Commit(s, change);
            && s.log <= next.log && |s.log| + |change.audits| <= |next.log|
            && (forall i :: 0 <= i < |change.audits| ==>
                  next.log[|s.log| + i] == Audited(next.rt.revision, change.audits[i]))
            && (!change.Accept? ==> |next.log| == |s.log| + |change.audits| && next.rt.revision == s.rt.revision)
            && (change.Reject? ==> next.rt == s.rt)
            && (!change.Reject? ==> next.rt == change.rt.(revision := next.rt.revision))
            && (change.Accept? ==> next.rt.revision == s.rt.revision + 1)
  {
    var next := Commit(s, change);
    if change.Accept? {
      AuditRevisions(AcceptedAudits(s.rt, next.rt, change.audits), next.rt.revision);
      GoneIsReported(s.rt, next.rt, change.audits, "");
    } else {
      AuditRevisions(change.audits, s.rt.revision);
    }
  }
}
