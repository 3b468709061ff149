/** The coordinator itself: every operation runs on a private copy of the aggregate,
    which replaces the current one only when the transaction is kept. */
module CoordinatorService {
  import opened Domain
  import opened State
  import opened Changes
  import opened Heap
  import opened Publishing
  import opened ClaimSteps
  import opened SessionSteps
  import opened TerminalSteps
  import opened SwitchSteps
  import opened DecisionSteps
  import opened DispatchSteps
  import C = Coordinator
  import Claims
  import Dispatch
  import Invariants
  import Publication
  import Runs
  import Views

  // ---------------------------------------------------------------- running one operation

  method ApplySetup(working: ProcessRuntime, env: Env, op: C.SetupOp) returns (verdict: Verdict)
    requires working.Valid()
    modifies working.Repr()
    ensures Sealed(working)
    ensures Carries(C.ExecuteSetup(old(working.Value()), env, op), verdict, working.Value())
  {
    match op {
      case InstallPlayerConfig(handle, authored, valid) =>
        verdict := InstallPlayerConfig(working, handle, authored, valid);
      case ClearPlayerConfig => verdict := ClearPlayerConfig(working);
      case AddCharacterOp(expected, entry, valid, saved) =>
        verdict := AddCharacter(working, expected, entry, valid, saved);
      case UpdateCharacterOp(expected, entry, valid, saved) =>
        verdict := UpdateCharacter(working, expected, entry, valid, saved);
      case DeleteCharacterOp(expected, id, saved) => verdict := DeleteCharacter(working, expected, id, saved);
      case StartBroadcast => verdict := StartBroadcast(working, env.id);
      case EndBroadcast => verdict := EndBroadcast(working);
    }
  }

  method ApplySession(working: ProcessRuntime, env: Env, op: C.SessionOp) returns (verdict: Verdict)
    requires working.Valid() && (op.AttachConnection? ==> op.newSession !in working.sessions)
    modifies working.Repr()
    ensures Sealed(working)
    ensures Carries(C.ExecuteSession(old(working.Value()), env, op), verdict, working.Value())
  {
    match op {
      case RenameSession(id, name) => verdict := RenameLogicalSession(working, id, name);
      case AttachConnection(connection, token, newSession, newToken) =>
        verdict := AttachConnection(working, connection, token, newSession, newToken);
      case DetachConnection(connection) => verdict := DetachConnection(working, connection);
      case SelectCharacter(selection) =>
        var result;
        result, verdict := SelectCharacter(working, selection, env.limit);
    }
  }

  method ApplyClaim(working: ProcessRuntime, op: C.ClaimOp) returns (verdict: Verdict)
    requires working.Valid() && ClaimsAgree(working)
    modifies working.Repr()
    ensures Sealed(working)
    ensures Carries(C.ExecuteClaim(old(working.Value()), op), verdict, working.Value())
  {
    match op {
      case AssignCharacter(session, character) => verdict := AssignCharacter(working, session, character);
      case ReleaseCharacter(session) => verdict := ReleaseCharacter(working, session);
      case MoveCharacter(character, session) => verdict := MoveCharacter(working, character, session);
      case SetActiveController(session) => verdict := SetActiveController(working, session);
    }
  }

  method ApplyTerminal(working: ProcessRuntime, env: Env, op: C.TerminalOp) returns (verdict: Verdict)
    requires working.Valid()
    modifies working.Repr()
    ensures Sealed(working)
    ensures Carries(C.ExecuteTerminal(old(working.Value()), env, op), verdict, working.Value())
  {
    match op {
      case RequestActivation(target) => verdict := RequestTerminalActivation(working, env, target);
      case RequestClear => verdict := RequestTerminalClear(working, env.id);
      case ResolveTerminalSwitch(id, choice) => verdict := ResolveTerminalSwitch(working, env, id, choice);
      case UpdateLiveTerminal(tree, intro) => verdict := UpdateLiveTerminal(working, env, tree, intro);
      case RefreshActiveTerminal(target) => verdict := RefreshActiveTerminal(working, env, target);
      case ResetFailedHack(target) => verdict := ResetFailedHack(working, env, target);
      case ForceHackSuccess => verdict := ForceHackSuccess(working);
    }
  }

  method ApplyDecision(working: ProcessRuntime, env: Env, op: C.DecisionOp) returns (verdict: Verdict)
    requires working.Valid()
    modifies working.Repr()
    ensures Sealed(working)
    ensures Carries(C.ExecuteDecision(old(working.Value()), env, op), verdict, working.Value())
  {
    match op {
      case ResolveCommandExecution(request, approve, durable) =>
        verdict := ResolveCommandExecution(working, request, approve, durable);
      case ResetCommandStates(terminal, node, durable) =>
        verdict := ResetCommandStates(working, terminal, node, durable);
      case ResolveTerminalNavigation(request, approve) =>
        verdict := ResolveTerminalNavigation(working, env, request, approve);
      case ReplaceTerminalGroups(groups, revision, store) =>
        verdict := ReplaceTerminalGroups(working, groups, revision, store);
    }
  }

  method ApplyOperation(working: ProcessRuntime, env: Env, op: C.Operation, ghost rt: Runtime)
    returns (verdict: Verdict)
    requires working.Valid() && ClaimsAgree(working) && working.Value() == rt && C.Supplied(rt, op)
    modifies working.Repr()
    ensures Sealed(working)
    ensures Carries(C.Execute(rt, env, op), verdict, working.Value())
  {
    match op {
      case Setup(setup) => verdict := ApplySetup(working, env, setup);
      case OnSession(session) => verdict := ApplySession(working, env, session);
      case OnClaim(claim) => verdict := ApplyClaim(working, claim);
      case OnTerminal(terminal) => verdict := ApplyTerminal(working, env, terminal);
      case Decide(decision) => verdict := ApplyDecision(working, env, decision);
      case PlayerAction(connection, action, rules) =>
        var result;
        result, verdict := DispatchPlayerAction(working, env, connection, action, rules, rt);
    }
  }

  // ---------------------------------------------------------------- requests that disappeared

  method DecisionReported(audits: seq<Audit>, requestId: string) returns (reported: bool)
    ensures reported <==> C.DecisionReported(audits, requestId)
  {
    for index := 0 to |audits|
      invariant forall a :: a in audits[..index] ==> !(a.name == Decided && a.requestId == requestId)
    {
      if audits[index].name == Decided && audits[index].requestId == requestId {
        return true;
      }
      assert audits[..index + 1] == audits[..index] + [audits[index]];
    }
    assert audits[..|audits|] == audits;
    return false;
  }

  method CommandReported(audits: seq<Audit>, requestId: string) returns (reported: bool)
    ensures reported <==> C.CommandReported(audits, requestId)
  {
    for index := 0 to |audits|
      invariant forall a :: a in audits[..index] ==> a.requestId != requestId
    {
      if audits[index].requestId == requestId {
        return true;
      }
      assert audits[..index + 1] == audits[..index] + [audits[index]];
    }
    assert audits[..|audits|] == audits;
    return false;
  }

  method SupersededCommandAudit(before: Option<PendingCommand>, after: Option<PendingCommand>, audits: seq<Audit>)
    returns (more: seq<Audit>)
    ensures more == C.SupersededCommand(Fresh().(pendingCommand := before), Fresh().(pendingCommand := after), audits)
  {
    if before.None? || after.Some? {
      return [];
    }
    var pending := before.value;
    var reported := DecisionReported(audits, pending.requestId);
    return if reported then [] else [Audit(RequestOutcome, Superseded, pending.requestId, CommandMode(pending.mode))];
  }

  method SupersededNavigationAudit(before: Option<PendingNavigation>, after: Option<PendingNavigation>,
                                   audits: seq<Audit>)
    returns (more: seq<Audit>)
    ensures more == C.SupersededNavigation(Fresh().(pendingNavigation := before), Fresh().(pendingNavigation := after),
                                           audits)
  {
    if before.None? || before.value.direction != Forward || after.Some? {
      return [];
    }
    var pending := before.value;
    var reported := CommandReported(audits, pending.requestId);
    return if reported then [] else [Audit(RequestOutcome, Superseded, pending.requestId, TransitionMode)];
  }

  method AcceptedAudits(before: ProcessRuntime, after: ProcessRuntime, audits: seq<Audit>, ghost b: Runtime,
                        ghost a: Runtime)
    returns (all: seq<Audit>)
    requires before.pendingCommand == b.pendingCommand && before.pendingNavigation == b.pendingNavigation
    requires after.pendingCommand == a.pendingCommand && after.pendingNavigation == a.pendingNavigation
    ensures all == C.AcceptedAudits(b, a, audits)
  {
    var command := SupersededCommandAudit(before.pendingCommand, after.pendingCommand, audits);
    all := audits + command;
    var navigation := SupersededNavigationAudit(before.pendingNavigation, after.pendingNavigation, all);
    all := all + navigation;
  }

  method Publish(runtime: ProcessRuntime, ghost rt: Runtime) returns (entries: seq<Views.Entry>)
    requires runtime.Value() == rt
    ensures entries == C.Publish(rt)
  {
    assert rt.sessions.Keys == runtime.sessions.Keys;
    var ids := SortIds(runtime.sessions.Keys);
    RuntimeStays(runtime);
    Views.SortedMembers(rt.sessions.Keys);
    entries := PublishUpdates(runtime, ids, rt);
  }

  /** What an accepted change enqueues: its audits, the requests it superseded, then
      one update for every session. */
  ghost function Reported(before: Runtime, after: Runtime, audits: seq<Audit>): seq<Views.Entry> {
    Views.AuditEntries(C.AcceptedAudits(before, after, audits), after.revision) + C.Publish(after)
  }

  method Report(before: ProcessRuntime, after: ProcessRuntime, audits: seq<Audit>, ghost b: Runtime, ghost a: Runtime)
    returns (entries: seq<Views.Entry>)
    requires before.pendingCommand == b.pendingCommand && before.pendingNavigation == b.pendingNavigation
    requires after.Value() == a
    ensures entries == Reported(b, a, audits)
  {
    var all := AcceptedAudits(before, after, audits, b, a);
    var reported := StampAudits(all, after.revision);
    RuntimeStays(after);
    var updates := Publish(after, a);
    entries := reported + updates;
  }

  // ---------------------------------------------------------------- the transaction boundary

  // Every object of the collection was there before or is new.
  twostate predicate Grows(before: set<object?>, new after: set<object?>) {
    forall o :: o in after ==> o in before || fresh(o)
  }

  twostate lemma SessionCellsGrow(before: map<string, LogicalSession>, new after: map<string, LogicalSession>)
    requires SessionsKeptOrAdded(before, after)
    ensures Grows(SessionCells(before), SessionCells(after))
  {
  }

  twostate lemma TerminalCellsGrow(before: map<string, TerminalRuntime>, new after: map<string, TerminalRuntime>)
    requires KeptOrAdded(before, after)
    ensures Grows(TerminalCells(before), TerminalCells(after))
  {
  }

  twostate lemma BroadcastCellsGrow(runtime: ProcessRuntime)
    requires BroadcastKeptOrAdded(runtime)
    ensures Grows(old(BroadcastCells(runtime.broadcast)), BroadcastCells(runtime.broadcast))
  {
    if runtime.broadcast != null && runtime.broadcast == old(runtime.broadcast) {
      TerminalCellsGrow(old(runtime.broadcast.terminals), runtime.broadcast.terminals);
    } else if runtime.broadcast != null {
      NewTerminalCells(runtime.broadcast.terminals);
    }
  }

  // A step may add objects of its own to the working copy, never others.
  twostate lemma SealedGrows(working: ProcessRuntime)
    requires Sealed(working)
    ensures Grows(old(working.Repr()), working.Repr())
  {
    hide SessionCells, BroadcastCells, SessionsKeptOrAdded, BroadcastKeptOrAdded;
    SessionCellsGrow(old(working.sessions), working.sessions);
    BroadcastCellsGrow(working);
  }

  /** Runs one operation on a copy. The aggregate itself is only read. */
  method RunOnCopy(runtime: ProcessRuntime, env: Env, op: C.Operation, ghost rt: Runtime)
    returns (working: ProcessRuntime, verdict: Verdict)
    requires ClaimsAgree(runtime) && runtime.Value() == rt && C.Supplied(rt, op)
    ensures runtime.Value() == rt
    ensures working.Valid() && fresh(working) && fresh(working.Repr())
    ensures Carries(C.Execute(rt, env, op), verdict, working.Value())
  {
    hide ProcessRuntime.Repr, ProcessRuntime.Value, SessionValues, Sealed;
    working := CloneForTransaction(runtime);
    label Copied:
    verdict := ApplyOperation(working, env, op, rt);
    SealedGrows@Copied(working);
    RuntimeStays(runtime);
  }

  method CloneForTransaction(runtime: ProcessRuntime) returns (working: ProcessRuntime)
    requires ClaimsAgree(runtime)
    ensures working.Valid() && ClaimsAgree(working) && fresh(working) && fresh(working.Repr())
    ensures working.Value() == old(runtime.Value())
  {
    working := runtime.Clone();
  }

  lemma ClaimsAgreeIn(runtime: ProcessRuntime, limit: nat)
    requires runtime.Valid() && Invariants.Inv(runtime.Value(), limit)
    ensures ClaimsAgree(runtime)
  {
  }

  method DispatchOnCopy(runtime: ProcessRuntime, env: Env, connection: string, c: PlayerCommand, rules: Dispatch.Rules,
                        ghost rt: Runtime)
    returns (working: ProcessRuntime, result: ActionResult, verdict: Verdict)
    requires ClaimsAgree(runtime) && runtime.Value() == rt
    ensures runtime.Value() == rt
    ensures working.Valid() && fresh(working) && fresh(working.Repr())
    ensures var reply := Dispatch.DispatchAction(rt, env, connection, c, rules);
            result == reply.result && Carries(reply.change, verdict, working.Value())
  {
    hide ProcessRuntime.Repr, ProcessRuntime.Value, SessionValues, Sealed;
    working := CloneForTransaction(runtime);
    label Copied:
    result, verdict := DispatchPlayerAction(working, env, connection, c, rules, rt);
    SealedGrows@Copied(working);
    RuntimeStays(runtime);
  }

  method SelectOnCopy(runtime: ProcessRuntime, selection: Claims.Selection, limit: nat, ghost rt: Runtime)
    returns (working: ProcessRuntime, result: ActionResult, verdict: Verdict)
    requires ClaimsAgree(runtime) && runtime.Value() == rt
    ensures runtime.Value() == rt
    ensures working.Valid() && fresh(working) && fresh(working.Repr())
    ensures var reply := Claims.Choose(rt, selection, limit);
            result == reply.result && Carries(reply.change, verdict, working.Value())
  {
    hide ProcessRuntime.Repr, ProcessRuntime.Value, SessionValues, Sealed;
    working := CloneForTransaction(runtime);
    label Copied:
    result, verdict := SelectCharacter(working, selection, limit);
    SealedGrows@Copied(working);
    RuntimeStays(runtime);
  }

  lemma AcceptAppends(s: C.Coordinator, rt: Runtime, audits: seq<Audit>)
    ensures var after := rt.(revision := s.rt.revision + 1);
            C.Commit(s, Change.Accept(rt, audits)) == C.Coordinator(after, s.log + Reported(s.rt, after, audits))
  {
  }

  lemma StepKeepsInv(s: C.Coordinator, env: Env, op: C.Operation)
    requires Invariants.Inv(s.rt, env.limit) && env.limit >= 1 && C.Supplied(s.rt, op)
    ensures Invariants.Inv(C.Commit(s, C.Execute(s.rt, env, op)).rt, env.limit)
  {
    Runs.OperationKeeps(s.rt, env, op);
    Publication.CommitKeepsInv(s, C.Execute(s.rt, env, op), env.limit);
  }

  lemma ActionKeepsInv(s: C.Coordinator, env: Env, connection: string, c: PlayerCommand, rules: Dispatch.Rules)
    requires Invariants.Inv(s.rt, env.limit) && env.limit >= 1
    ensures Invariants.Inv(C.Commit(s, Dispatch.DispatchAction(s.rt, env, connection, c, rules).change).rt, env.limit)
  {
    Invariants.DispatchActionKeeps(s.rt, env, connection, c, rules, env.limit);
    Publication.CommitKeepsInv(s, Dispatch.DispatchAction(s.rt, env, connection, c, rules).change, env.limit);
  }

  lemma SelectionKeepsInv(s: C.Coordinator, selection: Claims.Selection, limit: nat)
    requires Invariants.Inv(s.rt, limit) && limit >= 1
    ensures Invariants.Inv(C.Commit(s, Claims.Choose(s.rt, selection, limit).change).rt, limit)
  {
    Invariants.ChooseKeeps(s.rt, selection, limit);
    Publication.CommitKeepsInv(s, Claims.Choose(s.rt, selection, limit).change, limit);
  }

  class Service {
    var runtime: ProcessRuntime
    var log: seq<Views.Entry>
    const limit: nat

    ghost predicate Valid()
      reads this, runtime, runtime.broadcast, runtime.Repr()
    {
      limit >= 1 && runtime.Valid() && Invariants.Inv(runtime.Value(), limit)
    }

    /** The state machine this object implements. */
    ghost function State(): C.Coordinator
      reads this, runtime, runtime.broadcast, runtime.Repr()
    {
      C.Coordinator(runtime.Value(), log)
    }

    constructor (limit: nat)
      requires limit >= 1
      ensures Valid() && State() == C.Coordinator(Fresh(), [])
    {
      this.limit, log := limit, [];
      runtime := new ProcessRuntime();
    }

    /** Keeps, stores or drops the working copy, and reports exactly what happened. */
    method Commit(working: ProcessRuntime, verdict: Verdict, ghost change: Change)
      requires runtime.Valid() && working.Valid() && working != runtime
      requires Carries(change, verdict, working.Value())
      requires limit >= 1 && Invariants.Inv(C.Commit(State(), change).rt, limit)
      modifies this, working`revision
      ensures Valid()
      ensures State() == C.Commit(old(State()), change)
      ensures runtime == if change.Reject? then old(runtime) else working
      ensures working.Repr() == old(working.Repr())
    {
      hide SessionCells, TerminalCells, SessionValues, TerminalValues, Invariants.Inv;
      ghost var s := State();
      if verdict.accepted {
        Accept(working, verdict.audits, s, working.Value());
      } else if verdict.persist {
        Install(working, runtime.revision, working.Value());
        Enqueue(verdict.audits, runtime.Value());
      } else {
        Enqueue(verdict.audits, s.rt);
      }
      assert State() == C.Commit(s, change);
    }

    method Enqueue(audits: seq<Audit>, ghost rt: Runtime)
      requires runtime.Value() == rt
      modifies this`log
      ensures runtime.Value() == rt && log == old(log) + Views.AuditEntries(audits, rt.revision)
    {
      hide SessionValues, TerminalValues;
      var entries := StampAudits(audits, runtime.revision);
      RuntimeStays(runtime);
      log := log + entries;
    }

    method Accept(working: ProcessRuntime, audits: seq<Audit>, ghost s: C.Coordinator, ghost rt: Runtime)
      requires working != runtime && working.Value() == rt && State() == s
      modifies this`runtime, this`log, working`revision
      ensures runtime == working && State() == C.Commit(s, Change.Accept(rt, audits))
    {
      var before := runtime;
      Install(working, runtime.revision + 1, rt);
      EnqueueAccepted(before, audits, s.rt, rt.(revision := s.rt.revision + 1));
      AcceptAppends(s, rt, audits);
    }

    method EnqueueAccepted(before: ProcessRuntime, audits: seq<Audit>, ghost b: Runtime, ghost a: Runtime)
      requires before.pendingCommand == b.pendingCommand && before.pendingNavigation == b.pendingNavigation
      requires runtime.Value() == a
      modifies this`log
      ensures runtime.Value() == a && log == old(log) + Reported(b, a, audits)
    {
      hide ProcessRuntime.Value;
      var entries := Report(before, runtime, audits, b, a);
      RuntimeStays(runtime);
      log := log + entries;
    }

    method Install(working: ProcessRuntime, revision: nat, ghost rt: Runtime)
      requires working.Value() == rt
      modifies this`runtime, working`revision
      ensures runtime == working && working.Value() == rt.(revision := revision)
    {
      hide SessionValues, TerminalValues;
      working.revision := revision;
      SessionsStay(working.sessions);
      BroadcastStays(working.broadcast);
      runtime := working;
    }

    /** One operation: the service takes exactly the step of the state machine, and
        never touches an object of the aggregate it started from. A refused operation
        leaves even the aggregate's identity alone; any other installs objects that
        did not exist before. */
    method Execute(env: Env, op: C.Operation)
      requires Valid() && env.limit == limit && C.Supplied(runtime.Value(), op)
      modifies this
      ensures Valid()
      ensures State() == C.Commit(old(State()), C.Execute(old(runtime.Value()), env, op))
      ensures if C.Execute(old(runtime.Value()), env, op).Reject? then runtime == old(runtime)
              else fresh(runtime.Repr())
      ensures old(runtime).Value() == old(runtime.Value())
    {
      hide ProcessRuntime.Repr, ProcessRuntime.Value, Invariants.Inv, C.Execute, Dispatch.DispatchAction, Claims.Choose;
      ghost var s := State();
      ghost var change := C.Execute(s.rt, env, op);
      StepKeepsInv(s, env, op);
      ClaimsAgreeIn(runtime, limit);
      var working, verdict := RunOnCopy(runtime, env, op, s.rt);
      Commit(working, verdict, change);
      RuntimeStays(old(runtime));
    }

    /** The same for a player's action, with the answer its sender gets. */
    method DispatchAction(env: Env, connection: string, c: PlayerCommand, rules: Dispatch.Rules)
      returns (result: ActionResult)
      requires Valid() && env.limit == limit
      modifies this
      ensures Valid()
      ensures var reply := Dispatch.DispatchAction(old(runtime.Value()), env, connection, c, rules);
              result == reply.result && State() == C.Commit(old(State()), reply.change)
    {
      hide ProcessRuntime.Repr, ProcessRuntime.Value, Invariants.Inv, C.Execute, Dispatch.DispatchAction, Claims.Choose;
      ghost var s := State();
      ghost var change := Dispatch.DispatchAction(s.rt, env, connection, c, rules).change;
      var working, verdict;
      ActionKeepsInv(s, env, connection, c, rules);
      ClaimsAgreeIn(runtime, limit);
      working, result, verdict := DispatchOnCopy(runtime, env, connection, c, rules, s.rt);
      Commit(working, verdict, change);
    }

    method Select(selection: Claims.Selection) returns (result: ActionResult)
      requires Valid()
      modifies this
      ensures Valid()
      ensures var reply := Claims.Choose(old(runtime.Value()), selection, limit);
              result == reply.result && State() == C.Commit(old(State()), reply.change)
    {
      hide ProcessRuntime.Repr, ProcessRuntime.Value, Invariants.Inv, C.Execute, Dispatch.DispatchAction, Claims.Choose;
      ghost var s := State();
      ghost var change := Claims.Choose(s.rt, selection, limit).change;
      var working, verdict;
      SelectionKeepsInv(s, selection, limit);
      ClaimsAgreeIn(runtime, limit);
      working, result, verdict := SelectOnCopy(runtime, selection, limit, s.rt);
      assert result == Claims.Choose(s.rt, selection, limit).result;
      Commit(working, verdict, change);
    }
  }
}
