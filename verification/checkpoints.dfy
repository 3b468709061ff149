/** What becomes of a checkpoint the players leave: kept as it was, or gone. */
module Checkpoints {
  import opened Domain
  import opened State
  import opened Changes
  import opened Terminals
  import opened Dispatch
  import opened Invariants
  import opened Positions
  import Nav
  import Text

  /** The authored content a checkpoint was opened with, unchanged. */
  predicate ContentOf(target: Target, t: Terminal) {
    && target.terminalId == t.terminalId && target.terminalName == t.terminalName && target.tree == t.tree
    && target.commandStates == t.commandStates && target.introText == t.introText && target.hackLevel == t.hackLevel
  }

  function CheckpointsOf(rt: Runtime): map<string, Terminal> {
    if rt.broadcast.None? then map[] else rt.broadcast.value.terminals
  }

  /** The terminal a resolved switch was waiting to show, if any. */
  function Awaited(rt: Runtime): Option<string> {
    if rt.pendingSwitch.None? || rt.pendingSwitch.value.target.None? then None
    else Some(rt.pendingSwitch.value.target.value.terminalId)
  }

  /** A resolved switch decides about the terminal left behind and about nothing else:
      preserved, its checkpoint is only suspended; discarded, it is gone; cancelled, the
      players stay. Every other checkpoint but the one shown next is as it was. */
  lemma SwitchDecidesTheSource(rt: Runtime, env: Env, id: string, choice: Choice, limit: nat)
    requires Inv(rt, limit) && ResolveSwitch(rt, env, id, choice).Accept?
    ensures rt.broadcast.Some? && rt.broadcast.value.active.Some?
    ensures var after := ResolveSwitch(rt, env, id, choice).rt;
            var source := rt.broadcast.value.active.value;
            && after.pendingSwitch.None?
            && (choice == Cancel ==> after == rt.(pendingSwitch := None))
            && (choice != Cancel ==> after.broadcast.value.active == Awaited(rt))
            && (choice == Preserve && Awaited(rt) != Some(source) ==>
                  source in CheckpointsOf(after)
                  && CheckpointsOf(after)[source] == CheckpointsOf(rt)[source].(lifecycle := Suspended))
            && (choice == Discard && Awaited(rt) != Some(source) ==> source !in CheckpointsOf(after))
            && (forall other :: other != source && Some(other) != Awaited(rt) ==>
                  && (other in CheckpointsOf(after) <==> other in CheckpointsOf(rt))
                  && (other in CheckpointsOf(rt) ==> CheckpointsOf(after)[other] == CheckpointsOf(rt)[other]))
  {
  }

  /** Opening a suspended checkpoint again with the content it was left with brings it
      back exactly: same folder, same open view, same puzzle. */
  lemma ReopeningRestores(terminals: map<string, Terminal>, t: Terminal, target: Target, board: Option<HackState>)
    requires Placed(t) && ContentOf(target, t) && t.terminalId in terminals
    requires terminals[t.terminalId] == t.(lifecycle := Suspended, execution := terminals[t.terminalId].execution)
    ensures Opened(terminals, target, board) == t.(execution := None, lifecycle := Active)
  {
    Nav.WellFormedIsFixed(t.nav, t.tree);
  }

  // What activating shows, when it does not have to ask first.
  lemma EstablishingKeepsActive(env: Env, j: Journey, id: string)
    ensures Route.Establish(env.catalog, j, id).active == j.active
  {
  }

  lemma ActivationShows(rt: Runtime, env: Env, target: Target, limit: nat)
    requires Inv(rt, limit) && Activate(rt, env, target).Accept? && Activate(rt, env, target).rt.pendingSwitch.None?
    ensures rt.broadcast.Some?
    ensures ActiveTerminal(Activate(rt, env, target).rt.broadcast)
            == Some(Opened(WithoutExecutions(CheckpointsOf(rt)), target, env.board))
  {
    hide Route.Establish;
    if rt.broadcast.Some? {
      EstablishingKeepsActive(env, JourneyOf(ShownInstead(Cleared(rt).broadcast.value, target, env.board)),
                              target.terminalId);
    }
  }

  /** Switching away with "preserve" and coming back is a round trip for the terminal
      left behind: its puzzle, its folder and its open view are as they were, as long
      as its content is; only a command outcome still on display is gone. */
  lemma PreservedComesBack(rt: Runtime, env: Env, id: string, later: Env, target: Target, limit: nat)
    requires Inv(rt, limit) && ResolveSwitch(rt, env, id, Preserve).Accept?
    requires var left := ActiveTerminal(rt.broadcast);
             left.Some? && Placed(left.value) && ContentOf(target, left.value) &&
                 Awaited(rt) != Some(left.value.terminalId)
    requires var away := ResolveSwitch(rt, env, id, Preserve).rt;
             Activate(away, later, target).Accept? && Activate(away, later, target).rt.pendingSwitch.None?
    ensures var back := Activate(ResolveSwitch(rt, env, id, Preserve).rt, later, target).rt;
            ActiveTerminal(back.broadcast) == Some(ActiveTerminal(rt.broadcast).value.(execution := None))
  {
    var t := ActiveTerminal(rt.broadcast).value;
    var away := ResolveSwitch(rt, env, id, Preserve).rt;
    SwitchDecidesTheSource(rt, env, id, Preserve, limit);
    ResolveSwitchKeeps(rt, env, id, Preserve, limit);
    ActivationShows(away, later, target, limit);
    ReopeningRestores(WithoutExecutions(CheckpointsOf(away)), t, target, later.board);
  }

  /** After "discard" the same terminal starts anew, with a puzzle of its own. */
  lemma DiscardedStartsAnew(rt: Runtime, env: Env, id: string, later: Env, target: Target, limit: nat)
    requires Inv(rt, limit) && ResolveSwitch(rt, env, id, Discard).Accept?
    requires var left := ActiveTerminal(rt.broadcast);
             left.Some? && target.terminalId == left.value.terminalId && Awaited(rt) != Some(left.value.terminalId)
    requires var away := ResolveSwitch(rt, env, id, Discard).rt;
             Activate(away, later, target).Accept? && Activate(away, later, target).rt.pendingSwitch.None?
    ensures var shown := ActiveTerminal(Activate(ResolveSwitch(rt, env, id, Discard).rt, later, target).rt.broadcast);
            && shown.Some? && shown.value.nav == Nav.Default() && shown.value.execution == None
            && shown.value.hack == (if target.hackLevel > 0 then later.board else None)
  {
    var away := ResolveSwitch(rt, env, id, Discard).rt;
    SwitchDecidesTheSource(rt, env, id, Discard, limit);
    ResolveSwitchKeeps(rt, env, id, Discard, limit);
    ActivationShows(away, later, target, limit);
  }

  /** An unfinished puzzle is never left silently: activating another terminal, or
      clearing the screen, over it asks first and keeps every checkpoint. */
  lemma PuzzlesAreNotLeftSilently(rt: Runtime, env: Env, target: Target, limit: nat)
    requires Inv(rt, limit) && ActiveTerminal(rt.broadcast).Some? && ActivePuzzle(ActiveTerminal(rt.broadcast).value)
    ensures var source := ActiveTerminal(rt.broadcast).value;
            var change := ClearTerminal(rt, env.id);
            && change.Accept? && AsksFirst(rt, change.rt, env.id, None)
            && (!Text.Blank(target.terminalId) && target.terminalId != source.terminalId ==>
                  Activate(rt, env, target).Accept? &&
                      AsksFirst(rt, Activate(rt, env, target).rt, env.id, Some(target)))
  {
  }

  predicate AsksFirst(rt: Runtime, after: Runtime, id: string, target: Option<Target>) {
    && rt.broadcast.Some? && after.broadcast.Some? && rt.broadcast.value.active.Some?
    && after.broadcast.value.active == rt.broadcast.value.active
    && CheckpointsOf(after) == WithoutExecutions(CheckpointsOf(rt))
    && after.pendingSwitch == Some(PendingSwitch(id, rt.broadcast.value.id, rt.broadcast.value.active.value, target))
  }

  // ---------------------------------------------------------------- one-way changes

  /** The store kept the change the players asked for. */
  predicate Kept(rt: Runtime, durable: Durable)
    requires rt.pendingCommand.Some?
  {
    && ActiveTerminal(rt.broadcast).Some?
    && var command := Selected(ActiveTerminal(rt.broadcast).value, rt.pendingCommand.value.commandId);
       command.Some? && DurableSucceeds(durable, rt.pendingCommand.value, command.value)
  }

  // Nothing but one checkpoint is touched, and its completed states are as given.
  predicate Completes(rt: Runtime, after: Runtime, terminal: string, states: map<string, CommandState>) {
    && CheckpointsOf(after).Keys == CheckpointsOf(rt).Keys && terminal in CheckpointsOf(rt)
    && (forall other :: other in CheckpointsOf(rt) && other != terminal ==>
          CheckpointsOf(after)[other] == CheckpointsOf(rt)[other])
    && CheckpointsOf(after)[terminal].commandStates == states
  }

  lemma GrantCompletes(rt: Runtime, pending: PendingCommand, t: Terminal, authored: ContentNode, durable: Durable)
    requires ActiveTerminal(rt.broadcast) == Some(t)
    ensures Completes(rt, GrantCommand(rt, pending, t, authored, durable).rt, rt.broadcast.value.active.value,
                      if pending.mode == ChangeMode && DurableSucceeds(durable, pending, authored)
                      then durable.states.value else t.commandStates)
  {
  }

  lemma AnswerCompletes(rt: Runtime, pending: PendingCommand, t: Terminal, approve: bool, durable: Durable)
    requires ActiveTerminal(rt.broadcast) == Some(t) && rt.pendingCommand == Some(pending)
    requires AnswerCommand(rt, pending, t, approve, durable).Accept?
    ensures Completes(rt, AnswerCommand(rt, pending, t, approve, durable).rt, rt.broadcast.value.active.value,
                      if approve && pending.mode == ChangeMode && Kept(rt, durable) then durable.states.value
                          else t.commandStates)
  {
    if approve {
      GrantCompletes(rt, pending, t, Selected(t, pending.commandId).value, durable);
    }
  }

  /** A command is shown as completed only when the store already had it so or has
      kept it: approving takes the completed states from the store, and a failed store
      leaves them, and every other checkpoint, as they were. */
  lemma CompletionIsDurable(rt: Runtime, request: string, approve: bool, durable: Durable)
    requires ResolveCommand(rt, request, approve, durable).Accept?
    ensures rt.pendingCommand.Some? && rt.pendingCommand.value.terminalId in CheckpointsOf(rt)
    ensures var terminal := rt.pendingCommand.value.terminalId;
            Completes(rt, ResolveCommand(rt, request, approve, durable).rt, terminal,
                      if approve && rt.pendingCommand.value.mode == ChangeMode && Kept(rt, durable)
                      then durable.states.value else CheckpointsOf(rt)[terminal].commandStates)
  {
    AnswerCompletes(rt, rt.pendingCommand.value, ActiveTerminal(rt.broadcast).value, approve, durable);
  }
}
