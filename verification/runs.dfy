/** Whole runs of the coordinator: the structural invariant, the published views,
    and the balance of command requests hold in every reachable state. */
module Runs {
  import opened Domain
  import opened State
  import opened Changes
  import opened Sessions
  import opened Claims
  import opened Terminals
  import opened Dispatch
  import opened Views
  import opened Coordinator
  import opened Invariants

  // ---------------------------------------------------------------- every operation keeps the invariant

  lemma SetupKeeps(rt: Runtime, env: Env, op: SetupOp)
    requires Inv(rt, env.limit)
    ensures Keeps(ExecuteSetup(rt, env, op), env.limit)
  {
    match op
    case InstallPlayerConfig(handle, authored, valid) => InstallKeeps(rt, handle, authored, valid, env.limit);
    case ClearPlayerConfig =>
    case AddCharacterOp(expected, entry, valid, saved) =>
      AddCharacterKeeps(rt, expected, entry, valid, saved, env.limit);
    case UpdateCharacterOp(expected, entry, valid, saved) =>
      UpdateCharacterKeeps(rt, expected, entry, valid, saved, env.limit);
    case DeleteCharacterOp(expected, id, saved) => DeleteCharacterKeeps(rt, expected, id, saved, env.limit);
    case StartBroadcast => StartKeeps(rt, env.id, env.limit);
    case EndBroadcast => EndKeeps(rt, env.limit);
  }

  lemma TerminalOpKeeps(rt: Runtime, env: Env, op: TerminalOp)
    requires Inv(rt, env.limit)
    ensures Keeps(ExecuteTerminal(rt, env, op), env.limit)
  {
    match op
    case RequestActivation(target) => ActivateKeeps(rt, env, target, env.limit);
    case RequestClear => ClearTerminalKeeps(rt, env.id, env.limit);
    case ResolveTerminalSwitch(id, choice) => ResolveSwitchKeeps(rt, env, id, choice, env.limit);
    case UpdateLiveTerminal(tree, intro) => UpdateLiveKeeps(rt, env, tree, intro, env.limit);
    case RefreshActiveTerminal(target) => RefreshKeeps(rt, env, target, env.limit);
    case ResetFailedHack(target) => ResetHackKeeps(rt, env, target, env.limit);
    case ForceHackSuccess => ForceHackKeeps(rt, env.limit);
  }

  lemma DecisionKeeps(rt: Runtime, env: Env, op: DecisionOp)
    requires Inv(rt, env.limit)
    ensures Keeps(ExecuteDecision(rt, env, op), env.limit)
  {
    match op
    case ResolveCommandExecution(request, approve, durable) =>
      ResolveCommandKeeps(rt, request, approve, durable, env.limit);
    case ResetCommandStates(terminal, node, durable) => ResetStatesKeeps(rt, terminal, node, durable, env.limit);
    case ResolveTerminalNavigation(request, approve) => ResolveNavigationKeeps(rt, env, request, approve, env.limit);
    case ReplaceTerminalGroups(groups, revision, store) =>
  }

  lemma ClaimOpKeeps(rt: Runtime, op: ClaimOp, limit: nat)
    requires Inv(rt, limit)
    ensures Keeps(ExecuteClaim(rt, op), limit)
  {
    match op
    case AssignCharacter(session, character) => AssignKeeps(rt, session, character, limit);
    case ReleaseCharacter(session) => ReleaseKeeps(rt, session, limit);
    case MoveCharacter(character, session) => MoveKeeps(rt, character, session, limit);
    case SetActiveController(session) => SetControllerKeeps(rt, session, limit);
  }

  /** No operation, accepted or not, breaks the structural invariant. */
  lemma OperationKeeps(rt: Runtime, env: Env, op: Operation)
    requires Inv(rt, env.limit) && env.limit >= 1 && Supplied(rt, op)
    ensures Keeps(Execute(rt, env, op), env.limit)
  {
    match op {
      case Setup(setup) => SetupKeeps(rt, env, setup);
      case OnSession(session) =>
        match session {
          case RenameSession(id, name) => RenameKeeps(rt, id, name, env.limit);
          case AttachConnection(connection, token, newSession, newToken) =>
            AttachKeeps(rt, connection, token, newSession, newToken, env.limit);
          case DetachConnection(connection) => DetachKeeps(rt, connection, env.limit);
          case SelectCharacter(selection) => ChooseKeeps(rt, selection, env.limit);
        }
      case OnClaim(claim) => ClaimOpKeeps(rt, claim, env.limit);
      case OnTerminal(terminal) => TerminalOpKeeps(rt, env, terminal);
      case Decide(decision) => DecisionKeeps(rt, env, decision);
      case PlayerAction(connection, action, rules) =>
        DispatchActionKeeps(rt, env, connection, action, rules, env.limit);
    }
  }

  // ---------------------------------------------------------------- what the transaction boundary guarantees

  /** Storing a replay record is all a refusal may do. */
  ghost predicate CachesOnly(rt: Runtime, after: Runtime) {
    && after.(sessions := rt.sessions, revision := rt.revision) == rt
    && after.sessions.Keys == rt.sessions.Keys
    && (forall s :: s in rt.sessions ==> after.sessions[s].(results := rt.sessions[s].results) == rt.sessions[s])
  }

  lemma StoringTouchesCaches(rt: Runtime, id: string, requestId: string, record: ResultRecord, limit: nat)
    ensures CachesOnly(rt, StoreResult(rt, id, requestId, record, limit))
  {
    var after := StoreResult(rt, id, requestId, record, limit);
    assert after.sessions.Keys == rt.sessions.Keys;
  }

  lemma RefusalTouchesCaches(rt: Runtime, session: string, c: PlayerCommand, reason: Reason, limit: nat)
    ensures CachesOnly(rt, Refuse(rt, session, c, reason, limit).change.rt)
  {
    StoringTouchesCaches(rt, session, c.requestId, ResultRecord(Fingerprint(c), Refusal(rt, c.requestId, reason)),
                         limit);
  }

  lemma DispatchPersistsCaches(rt: Runtime, env: Env, connection: string, c: PlayerCommand, rules: Rules)
    ensures var change := DispatchAction(rt, env, connection, c, rules).change;
            change.Persist? ==> CachesOnly(rt, change.rt)
  {
    var prepared := Prepare(rt, env, connection, c, rules);
    PrepareFacts(rt, env, connection, c, rules);
    if prepared.Stop? && prepared.reply.change.Persist? {
      RefusalTouchesCaches(rt, Owner(rt, connection).value, c, prepared.reply.result.reason, env.limit);
    } else if prepared.Go? {
      RefusalTouchesCaches(rt, prepared.session, c, InvalidAction, env.limit);
      ActPersistsRefusals(rt, env, prepared.session, prepared.terminal, c, rules);
    }
  }

  lemma ActPersistsRefusals(rt: Runtime, env: Env, session: string, t: Terminal, c: PlayerCommand, rules: Rules)
    requires rt.broadcast.Some? && rt.broadcast.value.active.Some?
    ensures Act(rt, env, session, t, c, rules).change.Persist? ==>
              Act(rt, env, session, t, c, rules) == Refuse(rt, session, c, InvalidAction, env.limit)
  {
  }

  lemma SetupNeverPersists(rt: Runtime, env: Env, op: SetupOp)
    ensures !ExecuteSetup(rt, env, op).Persist?
  {
  }

  lemma ClaimNeverPersists(rt: Runtime, op: ClaimOp)
    ensures !ExecuteClaim(rt, op).Persist?
  {
  }

  lemma TerminalNeverPersists(rt: Runtime, env: Env, op: TerminalOp)
    ensures !ExecuteTerminal(rt, env, op).Persist?
  {
  }

  lemma DecisionNeverPersists(rt: Runtime, env: Env, op: DecisionOp)
    ensures !ExecuteDecision(rt, env, op).Persist?
  {
  }

  /** Whatever is stored without being accepted changes replay caches and nothing else. */
  lemma PersistTouchesCachesOnly(rt: Runtime, env: Env, op: Operation)
    ensures Execute(rt, env, op).Persist? ==> CachesOnly(rt, Execute(rt, env, op).rt)
  {
    hide ExecuteSetup, ExecuteClaim, ExecuteTerminal, ExecuteDecision, DispatchAction;
    match op {
      case PlayerAction(connection, action, rules) => DispatchPersistsCaches(rt, env, connection, action, rules);
      case OnSession(session) =>
        if session.SelectCharacter? {
          var reply := Choose(rt, session.selection, env.limit);
          StoringTouchesCaches(rt, session.selection.session, session.selection.requestId,
                               ResultRecord(SelectionFingerprint(session.selection), reply.result), env.limit);
        }
      case Setup(setup) => SetupNeverPersists(rt, env, setup);
      case OnClaim(claim) => ClaimNeverPersists(rt, claim);
      case OnTerminal(terminal) => TerminalNeverPersists(rt, env, terminal);
      case Decide(decision) => DecisionNeverPersists(rt, env, decision);
    }
  }
}
