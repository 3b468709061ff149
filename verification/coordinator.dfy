/** The coordinator as a state machine: every operation goes through one
    transaction boundary. */
module Coordinator {
  import opened Domain
  import opened State
  import opened Changes
  import opened Sessions
  import opened Claims
  import opened Terminals
  import opened Dispatch
  import opened Views
  import opened Catalogue

  // ---------------------------------------------------------------- the boundary

  datatype Coordinator = Coordinator(rt: Runtime, log: seq<Entry>)

  predicate DecisionReported(audits: seq<Audit>, requestId: string) {
    exists a :: a in audits && a.name == Decided && a.requestId == requestId
  }

  predicate CommandReported(audits: seq<Audit>, requestId: string) {
    exists a :: a in audits && a.requestId == requestId
  }

  /** A command request that disappeared without a decision was superseded. */
  function SupersededCommand(before: Runtime, after: Runtime, audits: seq<Audit>): seq<Audit> {
    if before.pendingCommand.None? || after.pendingCommand.Some?
       || DecisionReported(audits, before.pendingCommand.value.requestId) then []
    else
      var pending := before.pendingCommand.value;
      [Audit(RequestOutcome, Superseded, pending.requestId, CommandMode(pending.mode))]
  }

  function SupersededNavigation(before: Runtime, after: Runtime, audits: seq<Audit>): seq<Audit> {
    if before.pendingNavigation.None? || before.pendingNavigation.value.direction != Forward
       || after.pendingNavigation.Some? || CommandReported(audits, before.pendingNavigation.value.requestId) then []
    else [Audit(RequestOutcome, Superseded, before.pendingNavigation.value.requestId, TransitionMode)]
  }

  function AcceptedAudits(before: Runtime, after: Runtime, audits: seq<Audit>): seq<Audit> {
    var first := audits + SupersededCommand(before, after, audits);
    first + SupersededNavigation(before, after, first)
  }

  ghost function Publish(rt: Runtime): seq<Entry> {
    SortedMembers(rt.sessions.Keys);
    UpdateEntries(rt, Sorted(rt.sessions.Keys))
  }

  ghost function Commit(s: Coordinator, change: Change): Coordinator {
    match change
    case Reject(audits) => s.(log := s.log + AuditEntries(audits, s.rt.revision))
    case Persist(rt, audits) =>
      Coordinator(rt.(revision := s.rt.revision), s.log + AuditEntries(audits, s.rt.revision))
    case Accept(rt, audits) =>
      var after := rt.(revision := s.rt.revision + 1);
      Coordinator(after,
                  s.log + AuditEntries(AcceptedAudits(s.rt, after, audits), after.revision) + Publish(after))
  }

  // ---------------------------------------------------------------- operations

  datatype SetupOp =
    | InstallPlayerConfig(handle: ConfigHandle, authored: seq<Character>, valid: bool)
    | ClearPlayerConfig
    | AddCharacterOp(expected: nat, entry: Character, valid: bool, saved: Option<ConfigHandle>)
    | UpdateCharacterOp(expected: nat, entry: Character, valid: bool, saved: Option<ConfigHandle>)
    | DeleteCharacterOp(expected: nat, id: string, saved: Option<ConfigHandle>)
    | StartBroadcast
    | EndBroadcast

  datatype SessionOp =
    | RenameSession(id: string, name: string)
    | AttachConnection(connection: string, token: string, newSession: string, newToken: string)
    | DetachConnection(connection: string)
    | SelectCharacter(selection: Selection)

  datatype ClaimOp =
    | AssignCharacter(session: string, character: string)
    | ReleaseCharacter(session: string)
    | MoveCharacter(character: string, session: string)
    | SetActiveController(session: string)

  datatype TerminalOp =
    | RequestActivation(target: Target)
    | RequestClear
    | ResolveTerminalSwitch(id: string, choice: Choice)
    | UpdateLiveTerminal(tree: ContentNode, intro: Option<string>)
    | RefreshActiveTerminal(target: Target)
    | ResetFailedHack(target: Target)
    | ForceHackSuccess

  datatype DecisionOp =
    | ResolveCommandExecution(request: string, approve: bool, durable: Durable)
    | ResetCommandStates(terminal: string, node: Option<string>, durable: Durable)
    | ResolveTerminalNavigation(request: string, approve: bool)
    | ReplaceTerminalGroups(groups: seq<Group>, revision: nat, store: GroupStore)

  /** Everything the desktop, the players and the transport can ask for. */
  datatype Operation =
    | Setup(setup: SetupOp)
    | OnSession(session: SessionOp)
    | OnClaim(claim: ClaimOp)
    | OnTerminal(terminal: TerminalOp)
    | Decide(decision: DecisionOp)
    | PlayerAction(connection: string, action: PlayerCommand, rules: Rules)

  /** The identifier source never repeats itself and never yields a blank. */
  predicate Supplied(rt: Runtime, op: Operation) {
    op.OnSession? && op.session.AttachConnection? ==>
      && op.session.newSession != "" && op.session.newSession !in rt.sessions
      && op.session.newToken != "" && op.session.newToken !in rt.tokens
  }

  function ExecuteSetup(rt: Runtime, env: Env, op: SetupOp): Change {
    match op
    case InstallPlayerConfig(handle, authored, valid) => Install(rt, handle, authored, valid)
    case ClearPlayerConfig => Uninstall(rt)
    case AddCharacterOp(expected, entry, valid, saved) => AddCharacter(rt, expected, entry, valid, saved)
    case UpdateCharacterOp(expected, entry, valid, saved) => UpdateCharacter(rt, expected, entry, valid, saved)
    case DeleteCharacterOp(expected, id, saved) => DeleteCharacter(rt, expected, id, saved)
    case StartBroadcast => Start(rt, env.id)
    case EndBroadcast => End(rt)
  }

  ghost function ExecuteSession(rt: Runtime, env: Env, op: SessionOp): Change {
    match op
    case RenameSession(id, name) => Rename(rt, id, name)
    case AttachConnection(connection, token, newSession, newToken) =>
      Attach(rt, connection, token, newSession, newToken)
    case DetachConnection(connection) => Detach(rt, connection)
    case SelectCharacter(selection) => Choose(rt, selection, env.limit).change
  }

  ghost function ExecuteClaim(rt: Runtime, op: ClaimOp): Change {
    match op
    case AssignCharacter(session, character) => Assign(rt, session, character)
    case ReleaseCharacter(session) => Release(rt, session)
    case MoveCharacter(character, session) => Move(rt, character, session)
    case SetActiveController(session) => SetController(rt, session)
  }

  function ExecuteTerminal(rt: Runtime, env: Env, op: TerminalOp): Change {
    match op
    case RequestActivation(target) => Activate(rt, env, target)
    case RequestClear => ClearTerminal(rt, env.id)
    case ResolveTerminalSwitch(id, choice) => ResolveSwitch(rt, env, id, choice)
    case UpdateLiveTerminal(tree, intro) => UpdateLive(rt, env, tree, intro)
    case RefreshActiveTerminal(target) => Refresh(rt, env, target)
    case ResetFailedHack(target) => ResetHack(rt, env, target)
    case ForceHackSuccess => ForceHack(rt)
  }

  function ExecuteDecision(rt: Runtime, env: Env, op: DecisionOp): Change {
    match op
    case ResolveCommandExecution(request, approve, durable) => ResolveCommand(rt, request, approve, durable)
    case ResetCommandStates(terminal, node, durable) => ResetStates(rt, terminal, node, durable)
    case ResolveTerminalNavigation(request, approve) => ResolveNavigation(rt, env, request, approve)
    case ReplaceTerminalGroups(groups, revision, store) => ReplaceGroups(rt, groups, revision, store)
  }

  ghost function Execute(rt: Runtime, env: Env, op: Operation): Change {
    match op
    case Setup(setup) => ExecuteSetup(rt, env, setup)
    case OnSession(session) => ExecuteSession(rt, env, session)
    case OnClaim(claim) => ExecuteClaim(rt, claim)
    case OnTerminal(terminal) => ExecuteTerminal(rt, env, terminal)
    case Decide(decision) => ExecuteDecision(rt, env, decision)
    case PlayerAction(connection, action, rules) => DispatchAction(rt, env, connection, action, rules).change
  }
}
