/** Terminal checkpoints and the Overseer's terminal switching. */
module Terminals {
  import opened Domain
  import opened State
  import opened Changes
  import opened Claims
  import Nav
  import Puzzles
  import Route
  import Text

  // ---------------------------------------------------------------- one checkpoint

  const NO_PRESENTATION := Presentation("none", "", "", "", 0)

  function Created(target: Target, board: Option<HackState>): Terminal {
    Terminal(target.terminalId, target.terminalName, target.tree, target.commandStates, None, target.hackLevel,
             target.introText, Nav.Default(), if target.hackLevel > 0 then board else None, NO_PRESENTATION, Active)
  }

  /** New authored content reaches a checkpoint; its puzzle stays, its position is repaired. */
  function Updated(t: Terminal, target: Target): Terminal {
    t.(terminalName := target.terminalName, tree := target.tree, commandStates := target.commandStates,
       introText := target.introText, hackLevel := if t.hack.None? then target.hackLevel else t.hackLevel,
       nav := Nav.Revalidated(t.nav, target.tree))
  }

  function Reactivated(t: Terminal, target: Target): Terminal {
    Updated(t, target).(execution := None, lifecycle := Active)
  }

  predicate ActivePuzzle(t: Terminal) {
    t.hack.Some? && !Puzzles.Ended(t.hack.value)
  }

  predicate Unfinished(t: Option<Terminal>) {
    t.Some? && ActivePuzzle(t.value)
  }

  // ---------------------------------------------------------------- clearing

  function WithoutExecutions(terminals: map<string, Terminal>): map<string, Terminal> {
    map id | id in terminals :: terminals[id].(execution := None)
  }

  function ClearExecution(rt: Runtime): Runtime {
    if rt.broadcast.None? then rt.(pendingCommand := None)
    else
      var b := rt.broadcast.value;
      WithBroadcast(rt.(pendingCommand := None), b.(terminals := WithoutExecutions(b.terminals)))
  }

  function ClearNavigation(rt: Runtime): Runtime {
    var cleared := rt.(pendingNavigation := None, notice := None);
    if rt.broadcast.None? then cleared else WithBroadcast(cleared, rt.broadcast.value.(route := []))
  }

  predicate NavigationToClear(rt: Runtime) {
    || rt.pendingNavigation.Some?
    || rt.notice.Some?
    || (rt.broadcast.Some? && rt.broadcast.value.route != [])
  }

  function Cleared(rt: Runtime): Runtime {
    ClearNavigation(ClearExecution(rt))
  }

  // ---------------------------------------------------------------- activation

  function Suspend(terminals: map<string, Terminal>, id: string): map<string, Terminal> {
    if id in terminals then terminals[id := terminals[id].(lifecycle := Suspended)] else terminals
  }

  /** The checkpoint that becomes active for a target. */
  function Opened(terminals: map<string, Terminal>, target: Target, board: Option<HackState>): Terminal {
    if target.terminalId !in terminals then Created(target, board)
    else if terminals[target.terminalId].lifecycle == Suspended then Reactivated(terminals[target.terminalId], target)
    else Updated(terminals[target.terminalId], target).(lifecycle := Active)
  }

  function WithJourney(b: Broadcast, j: Journey): Broadcast {
    b.(active := j.active, route := j.route, established := j.established, initialId := j.initialId,
       initialGroup := j.initialGroup, initialPosition := j.initialPosition)
  }

  function Activate(rt: Runtime, env: Env, target: Target): Change {
    if Text.Blank(target.terminalId) || rt.broadcast.None? then Reject([])
    else
      ActivateCleared(Cleared(rt), env, target)
  }

  /** Whatever was going on is cleared by now. */
  function ActivateCleared(rt: Runtime, env: Env, target: Target): Change
    requires rt.broadcast.Some?
  {
    var source := ActiveTerminal(rt.broadcast);
    if Unfinished(source) && source.value.terminalId != target.terminalId then AskToSwitch(rt, env.id, Some(target))
    else ShowDelivered(rt, env, target)
  }

  function ShowDelivered(rt: Runtime, env: Env, target: Target): Change
    requires rt.broadcast.Some?
  {
    if !env.delivered && !Resumable(rt.broadcast.value.terminals, target.terminalId) then Reject([])
    else Accept(Activated(rt, env, target), [])
  }

  // Resuming a suspended checkpoint is not checked for delivery.
  predicate Resumable(terminals: map<string, Terminal>, id: string) {
    id in terminals && terminals[id].lifecycle == Suspended
  }

  function AskToSwitch(rt: Runtime, id: string, target: Option<Target>): Change
    requires rt.broadcast.Some? && ActiveTerminal(rt.broadcast).Some?
  {
    var source := ActiveTerminal(rt.broadcast).value;
    Accept(rt.(pendingSwitch := Some(PendingSwitch(id, rt.broadcast.value.id, source.terminalId, target))), [])
  }

  function Activated(rt: Runtime, env: Env, target: Target): Runtime
    requires rt.broadcast.Some?
  {
    WithBroadcast(rt, ShownFirst(rt.broadcast.value, env, target)).(pendingSwitch := None)
  }

  /** The target is shown and what was shown before is suspended. */
  function ShownInstead(b: Broadcast, target: Target, board: Option<HackState>): Broadcast {
    var shown := Opened(b.terminals, target, board);
    var others := if b.active.Some? then Suspend(b.terminals, b.active.value) else b.terminals;
    b.(terminals := others[target.terminalId := shown], active := Some(target.terminalId))
  }

  function ShownFirst(b: Broadcast, env: Env, target: Target): Broadcast {
    var moved := ShownInstead(b, target, env.board);
    WithJourney(moved, Route.Establish(env.catalog, JourneyOf(moved), target.terminalId))
  }

  function ClearTerminal(rt: Runtime, id: string): Change {
    if rt.broadcast.None? then Reject([])
    else ClearCleared(Cleared(rt), id, Unfinished(ActiveTerminal(rt.broadcast)), NavigationToClear(rt))
  }

  function Hidden(b: Broadcast): Broadcast {
    b.(terminals := if b.active.Some? then Suspend(b.terminals, b.active.value) else b.terminals, active := None)
  }

  function ClearCleared(rt: Runtime, id: string, unfinished: bool, navigationCleared: bool): Change
    requires rt.broadcast.Some? && (unfinished ==> ActiveTerminal(rt.broadcast).Some?)
  {
    if unfinished then AskToSwitch(rt, id, None)
    else if rt.broadcast.value.active.None? then (if navigationCleared then Accept(rt, []) else Reject([]))
    else Accept(WithBroadcast(rt, Hidden(rt.broadcast.value)).(pendingSwitch := None), [])
  }

  // ---------------------------------------------------------------- the switch decision

  datatype Choice = Preserve | Discard | Cancel

  predicate SwitchCurrent(rt: Runtime, id: string) {
    && rt.pendingSwitch.Some? && rt.pendingSwitch.value.id == id
    && rt.broadcast.Some? && rt.pendingSwitch.value.broadcastId == rt.broadcast.value.id
    && rt.broadcast.value.active == Some(rt.pendingSwitch.value.source)
  }

  /** Resolving a switch never looks at the route or at the other pending decisions. */
  function ResolveSwitch(rt: Runtime, env: Env, id: string, choice: Choice): Change {
    if id == "" || !SwitchCurrent(rt, id) then Reject([])
    else if choice == Cancel then Accept(rt.(pendingSwitch := None), [])
    else
      var pending := rt.pendingSwitch.value;
      var source := ActiveTerminal(rt.broadcast);
      if source.None? || source.value.terminalId != pending.source then Reject([])
      else SwitchAway(rt, env, choice, pending)
  }

  function LeftBehind(b: Broadcast, source: string, choice: Choice): Broadcast {
    b.(terminals := if choice == Preserve then Suspend(b.terminals, source) else b.terminals - {source})
  }

  /** The target shown instead of what was left: reactivated if it is still kept. */
  function ShownKept(b: Broadcast, target: Target, board: Option<HackState>): Broadcast {
    var id := target.terminalId;
    var shown := if id in b.terminals then Reactivated(b.terminals[id], target) else Created(target, board);
    b.(terminals := b.terminals[id := shown], active := Some(id))
  }

  function SwitchAway(rt: Runtime, env: Env, choice: Choice, pending: PendingSwitch): Change
    requires rt.broadcast.Some?
  {
    var left := LeftBehind(rt.broadcast.value, pending.source, choice);
    if pending.target.None? then Accept(WithBroadcast(rt, left.(active := None)).(pendingSwitch := None), [])
    else if !env.delivered then Reject([])
    else Accept(WithBroadcast(rt, ShownKept(left, pending.target.value, env.board)).(pendingSwitch := None), [])
  }

  // ---------------------------------------------------------------- content updates

  function PutActive(rt: Runtime, t: Terminal): Runtime
    requires rt.broadcast.Some? && rt.broadcast.value.active.Some?
  {
    var b := rt.broadcast.value;
    WithBroadcast(rt, b.(terminals := b.terminals[b.active.value := t]))
  }

  function UpdateLive(rt: Runtime, env: Env, tree: ContentNode, intro: Option<string>): Change {
    var active := ActiveTerminal(rt.broadcast);
    if active.None? || !env.delivered then Reject([])
    else
      var t := active.value;
      var text := if intro.Some? then intro.value else t.introText;
      Accept(PutActive(rt, Updated(t, Target(t.terminalId, t.terminalName, tree, t.commandStates, t.hackLevel, text))),
             [])
  }

  // A reset removed the frozen result the open view was showing.
  function DropStaleResult(t: Terminal, states: map<string, CommandState>): Terminal {
    if t.nav.command.Some? && t.nav.command.value in t.commandStates && t.nav.command.value !in states
    then t.(nav := t.nav.(command := None)) else t
  }

  function Renewed(t: Terminal, target: Target): Terminal {
    Updated(DropStaleResult(t, target.commandStates), target)
  }

  function Refresh(rt: Runtime, env: Env, target: Target): Change {
    var id := Text.Trim(target.terminalId);
    var active := ActiveTerminal(rt.broadcast);
    if id == "" || active.None? || active.value.terminalId != id || !env.delivered then Reject([])
    else
      Accept(PutActive(rt, Renewed(active.value, target.(terminalId := id))), [])
  }

  function ResetHack(rt: Runtime, env: Env, target: Target): Change {
    var id := Text.Trim(target.terminalId);
    var active := ActiveTerminal(rt.broadcast);
    if id == "" || active.None? || rt.broadcast.value.active.value != id || active.value.terminalId != id
        then Reject([])
    else
      var t := active.value;
      var replacement := Created(target.(terminalId := id), env.board);
      if t.lifecycle != Active || t.hack.None? || !t.hack.value.failed || t.hack.value.solved
         || !env.delivered || !ActivePuzzle(replacement) then Reject([])
      else Accept(PutActive(rt, replacement), [])
  }

  function ForceHack(rt: Runtime): Change {
    var active := ActiveTerminal(rt.broadcast);
    if active.None? || active.value.lifecycle != Active || !ActivePuzzle(active.value) then Reject([])
    else Accept(PutActive(rt, active.value.(hack := Some(Puzzles.Forced(active.value.hack.value)))), [])
  }
}
