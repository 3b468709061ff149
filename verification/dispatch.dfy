/** Player actions, the Overseer's decisions on them, and group replacement. */
module Dispatch {
  import opened Domain
  import opened State
  import opened Changes
  import opened Sessions
  import opened Claims
  import opened Terminals
  import opened Catalogue
  import Nav
  import Puzzles
  import Route
  import Text

  // ---------------------------------------------------------------- what a command means

  // The field validator's verdict on a presentation, the random source's contribution
  // to a pattern, and the verdict on a presentation change.
  datatype Rules = Rules(fieldsValid: bool, roll: Puzzles.Roll, presentable: bool)

  function FingerprintFields(c: PlayerCommand): seq<string> {
    [c.kind, c.broadcastId, c.terminalId, c.action, c.nodeId, c.targetId, c.patternId,
     c.presentation.kind, c.presentation.contextKey, c.presentation.targetId, c.presentation.patternId,
     Text.Decimal(c.presentation.pageIndex)]
  }

  function Fingerprint(c: PlayerCommand): string {
    if c.payloadFingerprint != "" then c.payloadFingerprint else Text.Fields(FingerprintFields(c))
  }

  /** Commands without a payload fingerprint of their own match only when every
      fingerprinted field matches. */
  lemma FingerprintIdentifies(a: PlayerCommand, b: PlayerCommand)
    requires a.payloadFingerprint == "" && b.payloadFingerprint == "" && Fingerprint(a) == Fingerprint(b)
    ensures a.(requestId := b.requestId) == b
  {
    Text.FieldsAreInjective(FingerprintFields(a), FingerprintFields(b));
    var fa, fb := FingerprintFields(a), FingerprintFields(b);
    assert forall i :: 0 <= i < 12 ==> fa[i] == fb[i];
    Text.DecimalIsInjective(a.presentation.pageIndex, b.presentation.pageIndex);
    assert fa[0] == a.kind && fa[1] == a.broadcastId && fa[2] == a.terminalId && fa[3] == a.action && fa[4] == a.nodeId;
    assert fa[5] == a.targetId && fa[6] == a.patternId && fa[7] == a.presentation.kind;
    assert fa[8] == a.presentation.contextKey && fa[9] == a.presentation.targetId && fa[10] == a.presentation.patternId;
  }

  const MAX_PAGE := 4_294_967_295

  predicate ValidCommand(c: PlayerCommand, rules: Rules) {
    && c.requestId != "" && c.broadcastId != "" && !Text.Blank(c.terminalId)
    && match ParseKind(c.kind)
       case Navigate =>
         && c.targetId == "" && c.patternId == ""
         && (match ParseAction(c.action)
             case Enter => !Text.Blank(c.nodeId)
             case OpenCommand => !Text.Blank(c.nodeId)
             case OpenEntry => !Text.Blank(c.nodeId)
             case Back => c.nodeId == "" || !Text.Blank(c.nodeId)
             case UnknownAction => false)
       case Guess => !Text.Blank(c.targetId) && c.action == "" && c.nodeId == "" && c.patternId == ""
       case ActivatePattern => !Text.Blank(c.patternId) && c.action == "" && c.nodeId == "" && c.targetId == ""
       case Present => c.action == "" && c.nodeId == "" && c.targetId == "" && c.patternId == "" && rules.fieldsValid
       case Select => false
       case UnknownKind => false
  }

  predicate IsNavigation(c: PlayerCommand, action: Action) {
    ParseKind(c.kind) == Navigate && ParseAction(c.action) == action
  }

  // ---------------------------------------------------------------- who may act

  datatype Prepared = Stop(reply: Reply) | Go(session: string, terminal: Terminal)

  function RequestOutcomeAudits(c: PlayerCommand, outcome: Outcome): seq<Audit> {
    if IsNavigation(c, OpenCommand) && c.requestId != "" then [Audit(RequestOutcome, outcome, c.requestId, NoMode)]
        else []
  }

  ghost function Refuse(rt: Runtime, session: string, c: PlayerCommand, reason: Reason, limit: nat): Reply {
    var result := Refusal(rt, c.requestId, reason);
    Reply(result, Persist(
      StoreResult(rt, session, c.requestId, ResultRecord(Fingerprint(c), result), limit),
      RequestOutcomeAudits(c, Refused(reason))))
  }

  /** Why a broadcast does not let a session act on the command's terminal. */
  function Obstacle(rt: Runtime, session: string, c: PlayerCommand, rules: Rules): Option<Reason>
    requires session in rt.sessions
  {
    if !ValidCommand(c, rules) then Some(InvalidAction)
    else if rt.broadcast.None? || rt.broadcast.value.id != c.broadcastId then Some(StaleBroadcast)
    else
      var b := rt.broadcast.value;
      if session !in b.assignments then Some(Unassigned)
      else if b.controller != Some(session) then Some(NotController)
      else if !Connected(rt.sessions[session]) then Some(ControllerDisconnected)
      else if b.active != Some(c.terminalId) then Some(StaleTerminal)
      else if c.terminalId !in b.terminals || b.terminals[c.terminalId].lifecycle != Active then Some(StaleTerminal)
      else if rt.pendingCommand.Some? || rt.pendingNavigation.Some? then Some(Conflict)
      else None
  }

  ghost function Prepare(rt: Runtime, env: Env, connection: string, c: PlayerCommand, rules: Rules): Prepared {
    var owner := Owner(rt, connection);
    if owner.None? then
      Stop(Reply(Refusal(rt, c.requestId, InvalidSession), Reject(RequestOutcomeAudits(c, Refused(InvalidSession)))))
    else if c.requestId == "" then Stop(Reply(Refusal(rt, c.requestId, InvalidAction), Reject([])))
    else Admit(rt, owner.value, c, rules, env.limit)
  }

  /** A request already answered is answered the same way; any other has to pass
      every check. */
  ghost function Admit(rt: Runtime, session: string, c: PlayerCommand, rules: Rules, limit: nat): Prepared
    requires session in rt.sessions
  {
    if c.requestId in rt.sessions[session].results then
      var cached := rt.sessions[session].results[c.requestId];
      if cached.fingerprint == Fingerprint(c) then
        Stop(Reply(cached.result, Reject(RequestOutcomeAudits(c, Replayed))))
      else Stop(Reply(Refusal(rt, c.requestId, Duplicate), Reject(RequestOutcomeAudits(c, Refused(Duplicate)))))
    else
      var obstacle := Obstacle(rt, session, c, rules);
      if obstacle.Some? then Stop(Refuse(rt, session, c, obstacle.value, limit))
      else Go(session, rt.broadcast.value.terminals[c.terminalId])
  }

  ghost function Take(rt: Runtime, session: string, c: PlayerCommand, limit: nat, after: Runtime,
                      audits: seq<Audit>): Reply {
    var result := ActionResult(c.requestId, true, AcceptedAction, rt.revision + 1);
    Reply(result, Accept(StoreResult(after, session, c.requestId, ResultRecord(Fingerprint(c), result), limit), audits))
  }

  // ---------------------------------------------------------------- player actions

  predicate AtRoot(t: Terminal) {
    t.nav == Nav.Default() && t.execution == None
  }

  predicate ReturnRequested(t: Terminal, c: PlayerCommand, route: seq<ReturnPoint>) {
    IsNavigation(c, Back) && route != [] && AtRoot(t)
  }

  /** The authored command a request points at: a command directly in the folder shown. */
  function Selected(t: Terminal, nodeId: string): Option<ContentNode> {
    if nodeId == "" || t.nav.path == [] || t.nav.path[0] != t.tree.id then None
    else
      var folder := Nav.Walk(t.tree, t.nav.path[1..]);
      if folder.None? then None else Nav.Child(folder.value, nodeId, Command)
  }

  function ReturnDecision(rt: Runtime, session: string, t: Terminal, point: ReturnPoint, id: string): PendingNavigation
    requires rt.broadcast.Some?
  {
    PendingNavigation(id, rt.broadcast.value.id, session, Return, t.terminalId, t.terminalName,
                      point.commandId, point.commandName, point.terminalId, point.terminalName, point)
  }

  function PointOf(t: Terminal, authored: ContentNode): ReturnPoint {
    var path := t.nav.path;
    ReturnPoint(t.terminalId, t.terminalName,
                if path == [] then ROOT else path[|path| - 1], if path == [] then [] else path[..|path| - 1],
                authored.id, authored.name, Authored, "", 0)
  }

  function ForwardDecision(rt: Runtime, session: string, t: Terminal, authored: ContentNode, target: Target, id: string)
    : PendingNavigation
    requires rt.broadcast.Some?
  {
    PendingNavigation(id, rt.broadcast.value.id, session, Forward, t.terminalId, t.terminalName,
                      authored.id, authored.name, target.terminalId, target.terminalName, PointOf(t, authored))
  }

  ghost function RequestReturn(rt: Runtime, env: Env, session: string, t: Terminal, c: PlayerCommand): Reply
    requires rt.broadcast.Some? && rt.broadcast.value.route != []
  {
    var route := rt.broadcast.value.route;
    var top := route[|route| - 1];
    if !Route.ValidReturn(env.catalog.groups, t.terminalId, top) then Refuse(rt, session, c, InvalidAction, env.limit)
    else
      Take(rt, session, c, env.limit,
           rt.(pendingNavigation := Some(ReturnDecision(rt, session, t, top, env.id)), notice := None), [])
  }

  predicate LinkCurrent(catalog: Catalog, t: Terminal, authored: ContentNode) {
    var link := LookupTransition(catalog, t.terminalId, authored.id);
    && link.Some?
    && link.value.target.terminalId != t.terminalId
    && Some(link.value.target.terminalId) == authored.transition
    && SameGroup(catalog.groups, t.terminalId, link.value.target.terminalId)
  }

  ghost function RequestForward(rt: Runtime, env: Env, session: string, t: Terminal, authored: ContentNode,
                                c: PlayerCommand): Reply
    requires rt.broadcast.Some? && authored.transition.Some?
  {
    if !LinkCurrent(env.catalog, t, authored) then
      // The one refusal that is accepted as a revision: the Overseer gets a notice.
      var result := ActionResult(c.requestId, false, InvalidAction, rt.revision + 1);
      var noted := rt.(notice := Some(NavigationNotice(TargetMissing, t.terminalId, authored.id,
                                                       authored.transition.value)));
      Reply(result, Accept(StoreResult(noted, session, c.requestId, ResultRecord(Fingerprint(c), result), env.limit),
                           []))
    else
      var link := LookupTransition(env.catalog, t.terminalId, authored.id).value;
      var pending := ForwardDecision(rt, session, t, authored, link.target, env.id);
      Take(rt, session, c, env.limit, rt.(pendingNavigation := Some(pending), notice := None),
           [Audit(RequestReceived, Accepted, pending.requestId, TransitionMode)])
  }

  function ModeOf(t: Terminal, authored: ContentNode): ApprovalMode {
    if authored.stateChange.None? then OrdinaryMode
    else if authored.id in t.commandStates then CompletedChangeMode
    else ChangeMode
  }

  function DisplayedName(t: Terminal, authored: ContentNode): string {
    if authored.id in t.commandStates then t.commandStates[authored.id].completedName else authored.name
  }

  const DEFAULT_CONFIRMATION := "Выполнить команду?"

  function ConfirmationText(authored: ContentNode): string {
    if authored.stateChange.Some? then authored.stateChange.value.confirmationText else DEFAULT_CONFIRMATION
  }

  function SetNotice(rt: Runtime, session: string, notice: bool): Runtime {
    if session in rt.sessions then PutSession(rt, session, rt.sessions[session].(notice := notice)) else rt
  }

  ghost function RequestCommand(rt: Runtime, env: Env, session: string, t: Terminal, authored: ContentNode,
                                c: PlayerCommand): Reply
    requires rt.broadcast.Some? && rt.broadcast.value.active.Some?
  {
    var pending := PendingCommand(env.id, rt.broadcast.value.id, t.terminalId, authored.id, DisplayedName(t, authored),
                                  ModeOf(t, authored), ConfirmationText(authored), session);
    var shown := PutActive(rt, t.(execution := Some(Execution(Awaiting, authored.id))));
    Take(rt, session, c, env.limit, SetNotice(shown.(pendingCommand := Some(pending)), session, false),
         [Audit(RequestReceived, Accepted, pending.requestId, CommandMode(pending.mode))])
  }

  // A guess that leaves no trace is not accepted.
  predicate Counts(s: HackState, target: string) {
    var after := Puzzles.Guessed(s, target);
    || after.attemptsLeft != s.attemptsLeft || after.solved != s.solved || after.failed != s.failed
    || |after.log| != |s.log|
  }

  /** The gameplay rules; None when they refuse. A command awaiting its decision
      blocks everything, a rejected one everything but "back". */
  function Play(t: Terminal, c: PlayerCommand, rules: Rules): Option<Terminal> {
    if t.execution.Some? && (t.execution.value.phase == Awaiting || !IsNavigation(c, Back)) then None
    else
      var t' := t.(execution := None);
      match ParseKind(c.kind)
      case Navigate => Some(t'.(nav := Nav.Applied(t.nav, t.tree, ParseAction(c.action), c.nodeId)))
      case Guess =>
        if !ActivePuzzle(t) || !Counts(t.hack.value, c.targetId) then None
        else Some(t'.(hack := Some(Puzzles.Guessed(t.hack.value, c.targetId))))
      case ActivatePattern =>
        if !ActivePuzzle(t) || !Puzzles.Activated(t.hack.value, c.patternId, rules.roll).1 then None
        else Some(t'.(hack := Some(Puzzles.Activated(t.hack.value, c.patternId, rules.roll).0)))
      case Present =>
        if rules.presentable && t.presentation != c.presentation then Some(t'.(presentation := c.presentation))
            else None
      case Select => None
      case UnknownKind => None
  }

  ghost function RequestPlay(rt: Runtime, env: Env, session: string, t: Terminal, c: PlayerCommand, rules: Rules): Reply
    requires rt.broadcast.Some? && rt.broadcast.value.active.Some?
  {
    var played := Play(t, c, rules);
    if played.None? then Refuse(rt, session, c, InvalidAction, env.limit)
    else
      var shown := PutActive(rt, played.value);
      Take(rt, session, c, env.limit, if ParseKind(c.kind) == Present then shown
           else SetNotice(shown, session, false), [])
  }

  ghost function RequestOpen(rt: Runtime, env: Env, session: string, t: Terminal, c: PlayerCommand): Reply
    requires rt.broadcast.Some? && rt.broadcast.value.active.Some?
  {
    var authored := Selected(t, c.nodeId);
    if authored.None? then Refuse(rt, session, c, InvalidAction, env.limit)
    else
      match authored.value.Behavior()
      case Invalid => Refuse(rt, session, c, InvalidAction, env.limit)
      case Transition => RequestForward(rt, env, session, t, authored.value, c)
      case Changing => RequestCommand(rt, env, session, t, authored.value, c)
      case Ordinary => RequestCommand(rt, env, session, t, authored.value, c)
  }

  ghost function Act(rt: Runtime, env: Env, session: string, t: Terminal, c: PlayerCommand, rules: Rules): Reply
    requires rt.broadcast.Some? && rt.broadcast.value.active.Some?
  {
    if ReturnRequested(t, c, rt.broadcast.value.route) then RequestReturn(rt, env, session, t, c)
    else if !IsNavigation(c, OpenCommand) then RequestPlay(rt, env, session, t, c, rules)
    else RequestOpen(rt, env, session, t, c)
  }

  ghost function DispatchAction(rt: Runtime, env: Env, connection: string, c: PlayerCommand, rules: Rules): Reply {
    match Prepare(rt, env, connection, c, rules)
    case Stop(reply) => reply
    case Go(session, t) => Act(rt, env, session, t, c, rules)
  }

  // ---------------------------------------------------------------- command decisions

  /** What the durable store answered: whether the document it returned is valid and
      the command states of the terminal in it, if the terminal is there at all. */
  datatype Durable = StoreFailed | Stored(changed: bool, valid: bool, states: Option<map<string, CommandState>>)

  predicate CommandCurrent(rt: Runtime) {
    && rt.pendingCommand.Some? && rt.broadcast.Some?
    && var pending := rt.pendingCommand.value;
       var t := ActiveTerminal(rt.broadcast);
       && pending.broadcastId == rt.broadcast.value.id
       && rt.broadcast.value.active == Some(pending.terminalId)
       && t.Some? && t.value.terminalId == pending.terminalId && t.value.lifecycle == Active
       && t.value.execution == Some(Execution(Awaiting, pending.commandId))
  }

  /** The authored command is still the one the Overseer was asked about. */
  predicate StillAuthored(t: Terminal, pending: PendingCommand) {
    var authored := Selected(t, pending.commandId);
    && authored.Some?
    && authored.value.Behavior() != Invalid && authored.value.Behavior() != Transition
    && DisplayedName(t, authored.value) == pending.commandName
    && ModeOf(t, authored.value) == pending.mode
    && ConfirmationText(authored.value) == pending.confirmationText
  }

  function DecisionAudit(pending: PendingCommand, outcome: Outcome): Audit {
    Audit(Decided, outcome, pending.requestId, CommandMode(pending.mode))
  }

  predicate DurableMatches(state: CommandState, authored: ContentNode) {
    && authored.stateChange.Some?
    && state.blockId == authored.stateChange.value.blockId
  }

  predicate DurableSucceeds(durable: Durable, pending: PendingCommand, authored: ContentNode) {
    && durable.Stored? && durable.valid && durable.states.Some?
    && pending.commandId in durable.states.value
    && DurableMatches(durable.states.value[pending.commandId], authored)
  }

  /** The terminal after an approval that went through. */
  function Approved(t: Terminal, pending: PendingCommand, durable: Durable): Terminal
    requires pending.mode == ChangeMode ==> durable.Stored? && durable.states.Some?
  {
    if pending.mode == ChangeMode then
      t.(commandStates := durable.states.value, execution := None, nav := t.nav.(command := Some(pending.commandId)))
    else
      t.(execution := None, nav := Nav.Applied(t.nav, t.tree, OpenCommand, pending.commandId))
  }

  function Settle(rt: Runtime, t: Terminal): Runtime
    requires rt.broadcast.Some? && rt.broadcast.value.active.Some?
  {
    PutActive(rt, t).(pendingCommand := None)
  }

  function ResolveCommand(rt: Runtime, request: string, approve: bool, durable: Durable): Change {
    var id := Text.Trim(request);
    if id == "" then Reject([])
    else if !CommandCurrent(rt) || rt.pendingCommand.value.requestId != id
        then Reject([Audit(Decided, Stale, id, NoMode)])
    else AnswerCommand(rt, rt.pendingCommand.value, ActiveTerminal(rt.broadcast).value, approve, durable)
  }

  function AnswerCommand(rt: Runtime, pending: PendingCommand, t: Terminal, approve: bool, durable: Durable): Change
    requires rt.broadcast.Some? && rt.broadcast.value.active.Some?
  {
    if !StillAuthored(t, pending) then Reject([DecisionAudit(pending, Stale)])
    else if !approve then
      Accept(Settle(rt, t.(execution := Some(Execution(Rejected, pending.commandId)))),
             [DecisionAudit(pending, Declined)])
    else GrantCommand(rt, pending, t, Selected(t, pending.commandId).value, durable)
  }

  /** An approval; a one-way change takes effect only after the store has kept it. */
  function GrantCommand(rt: Runtime, pending: PendingCommand, t: Terminal, authored: ContentNode,
                        durable: Durable): Change
    requires rt.broadcast.Some? && rt.broadcast.value.active.Some?
  {
    if pending.mode == ChangeMode && !DurableSucceeds(durable, pending, authored) then
      Accept(SetNotice(Settle(rt, t.(execution := None)), pending.controller, true), [DecisionAudit(pending, Failed)])
    else
      Accept(Settle(rt, Approved(t, pending, durable)), [DecisionAudit(pending, Succeeded)])
  }

  // ---------------------------------------------------------------- command-state resets

  predicate ResetAffects(t: Terminal, candidate: string, command: Option<string>) {
    if command.None? then candidate in t.commandStates else candidate == command.value
  }

  predicate ResetAccepted(durable: Durable, command: Option<string>) {
    && durable.Stored? && durable.valid && durable.states.Some?
    && (if command.None? then durable.states.value == map[] else command.value !in durable.states.value)
  }

  function ResetTerminal(t: Terminal, command: Option<string>, states: map<string, CommandState>): Terminal {
    t.(nav := if t.nav.command.Some? && ResetAffects(t, t.nav.command.value, command) then t.nav.(command := None)
       else t.nav,
       execution := if t.execution.Some? && ResetAffects(t, t.execution.value.commandId, command) then None
           else t.execution,
       commandStates := states)
  }

  predicate ResetDrops(pending: Option<PendingCommand>, t: Terminal, command: Option<string>) {
    pending.Some? && pending.value.terminalId == t.terminalId && ResetAffects(t, pending.value.commandId, command)
  }

  function ResetCheckpoint(rt: Runtime, id: string, command: Option<string>, states: map<string, CommandState>): Runtime
    requires rt.broadcast.Some? && id in rt.broadcast.value.terminals
  {
    var b := rt.broadcast.value;
    WithBroadcast(rt, b.(terminals := b.terminals[id := ResetTerminal(b.terminals[id], command, states)]))
    .(pendingCommand := if ResetDrops(rt.pendingCommand, b.terminals[id], command) then None else rt.pendingCommand)
  }

  /** Removes the result of one command (or, with None, of every command) of a terminal. */
  function ResetStates(rt: Runtime, terminal: string, command: Option<string>, durable: Durable): Change {
    var id := Text.Trim(terminal);
    var node := if command.Some? then Some(Text.Trim(command.value)) else None;
    if id == "" || node == Some("") || !ResetAccepted(durable, node) || !durable.changed then Reject([])
    else if rt.broadcast.None? || id !in rt.broadcast.value.terminals then Accept(rt, [])
    else Accept(ResetCheckpoint(rt, id, node, durable.states.value), [])
  }

  // ---------------------------------------------------------------- navigation decisions

  predicate NavigationCurrent(rt: Runtime, id: string) {
    && rt.pendingNavigation.Some? && rt.pendingNavigation.value.requestId == id
    && rt.broadcast.Some? && rt.pendingNavigation.value.broadcastId == rt.broadcast.value.id
    && ActiveTerminal(rt.broadcast).Some?
    && ActiveTerminal(rt.broadcast).value.terminalId == rt.pendingNavigation.value.source
  }

  // Only forward links are audited as commands.
  function NavigationAudits(pending: Option<PendingNavigation>, outcome: Outcome): seq<Audit> {
    if pending.Some? && pending.value.direction == Forward
    then [Audit(Decided, outcome, pending.value.requestId, TransitionMode)] else []
  }

  function Notify(rt: Runtime, pending: PendingNavigation, reason: NoticeReason): Runtime {
    rt.(pendingNavigation := None,
        notice := Some(NavigationNotice(reason, pending.source, pending.commandId, pending.target)))
  }

  function Reached(left: map<string, Terminal>, board: Option<HackState>, target: Target,
                   nav: NavState): map<string, Terminal> {
    var shown := if target.terminalId in left then Reactivated(left[target.terminalId], target)
        else Created(target, board);
    left[target.terminalId := shown.(nav := nav)]
  }

  /** The source is suspended and the target shown at `nav`. */
  function Travel(b: Broadcast, board: Option<HackState>, source: string, target: Target,
                  nav: NavState): map<string, Terminal> {
    Reached(Suspend(b.terminals, source), board, target, nav)
  }

  function Arrive(rt: Runtime, env: Env, target: Target, nav: NavState, route: seq<ReturnPoint>): Runtime
    requires rt.broadcast.Some? && rt.broadcast.value.active.Some?
  {
    var b := rt.broadcast.value;
    WithBroadcast(rt, b.(terminals := Travel(b, env.board, b.active.value, target, nav),
                         active := Some(target.terminalId), route := route))
    .(pendingNavigation := None, notice := None)
  }

  function ApproveReturn(rt: Runtime, env: Env, pending: PendingNavigation): Change
    requires rt.broadcast.Some? && rt.broadcast.value.active.Some?
  {
    var route := rt.broadcast.value.route;
    if route == [] || route[|route| - 1] != pending.returnPoint
       || !Route.ValidReturn(env.catalog.groups, pending.source, pending.returnPoint) then Reject([])
    else
      var latest := LookupTerminal(env.catalog, pending.target);
      if latest.None? || latest.value.terminalId != pending.returnPoint.terminalId
         || !SameGroup(env.catalog.groups, pending.source, pending.target)
      then Accept(Notify(rt, pending, TargetMissing), [])
      else if !env.delivered then Reject([])
      else
        var point := pending.returnPoint;
        Accept(Arrive(rt, env, latest.value, Nav.Restored(latest.value.tree, point.folderId, point.ancestors),
                      route[..|route| - 1]), [])
  }

  function ApproveForward(rt: Runtime, env: Env, pending: PendingNavigation): Change
    requires rt.broadcast.Some? && rt.broadcast.value.active.Some?
  {
    var link := LookupTransition(env.catalog, pending.source, pending.commandId);
    if link.None? || link.value.target.terminalId != pending.target || link.value.target.terminalId == pending.source
       || !SameGroup(env.catalog.groups, pending.source, pending.target)
    then Accept(Notify(rt, pending, TargetChanged), NavigationAudits(Some(pending), Stale))
    else if !env.delivered then Reject(NavigationAudits(Some(pending), Failed))
    else
      Accept(Arrive(rt, env, link.value.target, Nav.Default(), rt.broadcast.value.route + [pending.returnPoint]),
             NavigationAudits(Some(pending), Succeeded))
  }

  function RejectNavigation(rt: Runtime, pending: PendingNavigation, t: Terminal): Change
    requires rt.broadcast.Some? && rt.broadcast.value.active.Some?
  {
    var answered := rt.(pendingNavigation := None, notice := None);
    Accept(
      if pending.direction == Forward
      then PutActive(answered, t.(execution := Some(Execution(Rejected, pending.commandId)))) else answered,
      NavigationAudits(Some(pending), Declined))
  }

  function ResolveNavigation(rt: Runtime, env: Env, request: string, approve: bool): Change {
    var id := Text.Trim(request);
    if id == "" then Reject([])
    else if !NavigationCurrent(rt, id) then
      Reject(if rt.pendingNavigation.Some? && rt.pendingNavigation.value.requestId == id
             then NavigationAudits(rt.pendingNavigation, Stale) else [])
    else AnswerNavigation(rt, env, rt.pendingNavigation.value, approve)
  }

  function AnswerNavigation(rt: Runtime, env: Env, pending: PendingNavigation, approve: bool): Change
    requires rt.broadcast.Some? && rt.broadcast.value.active.Some? && ActiveTerminal(rt.broadcast).Some?
  {
    if !approve then RejectNavigation(rt, pending, ActiveTerminal(rt.broadcast).value)
    else if pending.direction == Return then ApproveReturn(rt, env, pending)
    else ApproveForward(rt, env, pending)
  }

  // ---------------------------------------------------------------- group replacement

  datatype GroupStore = GroupsRefused | GroupsUnchanged | GroupsReplaced

  function CurrentJourney(rt: Runtime): Option<Journey> {
    if rt.broadcast.None? then None else Some(JourneyOf(rt.broadcast.value))
  }

  function ReplaceGroups(rt: Runtime, groups: seq<Group>, expected: nat, store: GroupStore): Change {
    if expected != rt.revision || !Route.Accepts(CurrentJourney(rt), rt.pendingNavigation, groups)
       || store != GroupsReplaced
    then Reject([])
    else Accept(rt, [])
  }
}
