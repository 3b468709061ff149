/** Who plays whom: how each operation changes the claims, and that no other does. */
module Ownership {
  import opened Domain
  import opened State
  import opened Changes
  import opened Sessions
  import opened Claims
  import opened Terminals
  import opened Dispatch
  import opened Coordinator
  import opened Invariants
  import Publication
  import Views

  datatype Claim = Claim(session: string, character: string)

  function ClaimsOf(rt: Runtime): set<Claim> {
    if rt.broadcast.None? then {}
    else set s | s in rt.broadcast.value.assignments :: Claim(s, rt.broadcast.value.assignments[s])
  }

  function ControllerOf(rt: Runtime): Option<string> {
    if rt.broadcast.None? then None else rt.broadcast.value.controller
  }

  function WithoutSession(claims: set<Claim>, session: string): set<Claim> {
    set claim | claim in claims && claim.session != session
  }

  function WithoutCharacter(claims: set<Claim>, character: string): set<Claim> {
    set claim | claim in claims && claim.character != character
  }

  predicate Taken(rt: Runtime, session: string, character: string) {
    exists claim :: claim in ClaimsOf(rt) && (claim.session == session || claim.character == character)
  }

  // ---------------------------------------------------------------- the claim commands

  lemma TakenReads(rt: Runtime, session: string, character: string, limit: nat)
    requires Inv(rt, limit) && rt.broadcast.Some?
    ensures var b := rt.broadcast.value;
            Taken(rt, session, character) <==> session in b.assignments || character in b.claimants
  {
    var b := rt.broadcast.value;
    if session in b.assignments {
      assert Claim(session, b.assignments[session]) in ClaimsOf(rt);
    }
    if character in b.claimants {
      assert Claim(b.claimants[character], character) in ClaimsOf(rt);
    }
  }

  lemma AddingClaims(b: Broadcast, rt: Runtime, session: string, character: string)
    requires rt.broadcast == Some(b) && session !in b.assignments
    ensures ClaimsOf(WithBroadcast(rt, Claimed(b, session, character))) == ClaimsOf(rt) + {Claim(session, character)}
  {
    var after := Claimed(b, session, character).assignments;
    assert forall s :: s in after ==> s == session || (s in b.assignments && after[s] == b.assignments[s]);
    assert session in after;
    forall s | s in b.assignments ensures s in after && after[s] == b.assignments[s] {
    }
  }

  /** A claim is given exactly to a known session for a known character when neither
      takes part in another claim; an idle broadcast gets its controller with it. */
  lemma AssignGivesOne(rt: Runtime, session: string, character: string, limit: nat)
    requires Inv(rt, limit)
    ensures var change := Assign(rt, session, character);
            && (change.Accept? <==>
                  rt.broadcast.Some? && session in rt.sessions && character in rt.roster &&
                      !Taken(rt, session, character))
            && (change.Accept? ==>
                  && ClaimsOf(change.rt) == ClaimsOf(rt) + {Claim(session, character)}
                  && ControllerOf(change.rt) == if ControllerOf(rt).None? && Connected(rt.sessions[session])
                                                then Some(session) else ControllerOf(rt))
  {
    if rt.broadcast.Some? {
      TakenReads(rt, session, character, limit);
      ClaimsReadEitherWay(rt.broadcast.value, session, character);
      if session !in rt.broadcast.value.assignments {
        AddingClaims(rt.broadcast.value, rt, session, character);
      }
    }
  }

  /** A player's own choice follows the same rule, needs a connection, and makes the
      player the controller of a broadcast that has none. */
  lemma ChoiceGivesOne(rt: Runtime, s: Selection, limit: nat)
    requires Inv(rt, limit) && Choose(rt, s, limit).change.Accept?
    ensures s.session in rt.sessions && Connected(rt.sessions[s.session])
    ensures s.character in rt.roster && !Taken(rt, s.session, s.character)
    ensures ClaimsOf(Choose(rt, s, limit).change.rt) == ClaimsOf(rt) + {Claim(s.session, s.character)}
    ensures ControllerOf(Choose(rt, s, limit).change.rt) ==
              if ControllerOf(rt).None? then Some(s.session) else ControllerOf(rt)
  {
    TakenReads(rt, s.session, s.character, limit);
    AddingClaims(rt.broadcast.value, rt, s.session, s.character);
  }

  lemma RemovedClaims(rt: Runtime, b: Broadcast, session: string)
    requires rt.broadcast == Some(b)
    ensures var after := b.assignments - {session};
            (set s | s in after :: Claim(s, after[s])) == WithoutSession(ClaimsOf(rt), session)
  {
    var after := b.assignments - {session};
    forall s | s in b.assignments && s != session ensures s in after && after[s] == b.assignments[s] {
    }
    forall s | s in after ensures Claim(s, after[s]) in ClaimsOf(rt) && s != session {
      assert s in b.assignments && after[s] == b.assignments[s];
    }
  }

  lemma ReleasableIff(rt: Runtime, session: string, limit: nat)
    requires Inv(rt, limit)
    ensures Release(rt, session).Accept? <==> exists claim :: claim in ClaimsOf(rt) && claim.session == session
  {
    if Release(rt, session).Accept? {
      assert Claim(session, rt.broadcast.value.assignments[session]) in ClaimsOf(rt);
    } else {
      forall claim | claim in ClaimsOf(rt) ensures claim.session != session {
        assert claim.session in rt.broadcast.value.assignments && claim.session in rt.sessions;
      }
    }
  }

  /** Exactly the claim of the session goes, and control with it. */
  lemma ReleaseRemovesOne(rt: Runtime, session: string)
    requires Release(rt, session).Accept?
    ensures ClaimsOf(Release(rt, session).rt) == WithoutSession(ClaimsOf(rt), session)
    ensures ControllerOf(Release(rt, session).rt) == if ControllerOf(rt) == Some(session) then None
            else ControllerOf(rt)
  {
    RemovedClaims(rt, rt.broadcast.value, session);
  }

  /** A moved character changes hands: whoever played it plays nothing, and loses
      control; the new session plays it and nobody else is touched. */
  lemma MoveReplacesOne(rt: Runtime, character: string, session: string, limit: nat)
    requires Inv(rt, limit)
    ensures var change := Move(rt, character, session);
            && (change.Accept? <==>
                  rt.broadcast.Some? && character in rt.roster && session in rt.sessions
                  && forall claim :: claim in ClaimsOf(rt) ==> claim.session != session)
            && (change.Accept? ==>
                  && ClaimsOf(change.rt) ==
                       WithoutCharacter(ClaimsOf(rt), character) + {Claim(session, character)}
                  && ControllerOf(change.rt) ==
                       if ControllerOf(rt).Some? && Claim(ControllerOf(rt).value, character) in ClaimsOf(rt) then None
                       else ControllerOf(rt))
  {
    if rt.broadcast.Some? && character in rt.roster && session in rt.sessions {
      var b := rt.broadcast.value;
      MoveReads(rt, character, session, limit);
      if session in b.assignments {
        assert Claim(session, b.assignments[session]) in ClaimsOf(rt);
      } else if character in b.claimants {
        MovedClaims(rt, b, character, session);
      } else {
        AddingClaims(b, rt, session, character);
      }
    }
  }

  lemma MovedClaims(rt: Runtime, b: Broadcast, character: string, session: string)
    requires rt.broadcast == Some(b) && ClaimsInverse(b.assignments, b.claimants, b.controller)
    requires character in b.claimants && session !in b.assignments
    ensures var after := (b.assignments - {b.claimants[character]})[session := character];
            (set s | s in after :: Claim(s, after[s]))
            == WithoutCharacter(ClaimsOf(rt), character) + {Claim(session, character)}
  {
    var owner := b.claimants[character];
    var after := (b.assignments - {owner})[session := character];
    forall s | s in b.assignments && b.assignments[s] != character ensures s in after && after[s] == b.assignments[s] {
      assert s != owner;
    }
    forall s | s in after && s != session
      ensures Claim(s, after[s]) in ClaimsOf(rt) && after[s] != character
    {
      assert s in b.assignments && s != owner;
      assert b.claimants[b.assignments[s]] == s;
    }
    assert session in after && after[session] == character;
  }

  // ---------------------------------------------------------------- everything else

  predicate SameClaims(rt: Runtime, after: Runtime) {
    && (rt.broadcast.Some? <==> after.broadcast.Some?)
    && (rt.broadcast.Some? ==>
          && after.broadcast.value.assignments == rt.broadcast.value.assignments
          && after.broadcast.value.controller == rt.broadcast.value.controller)
  }

  lemma ActivationKeepsClaims(rt: Runtime, env: Env, target: Target)
    requires !Activate(rt, env, target).Reject?
    ensures SameClaims(rt, Activate(rt, env, target).rt)
  {
  }

  lemma ClearingKeepsClaims(rt: Runtime, id: string)
    requires !ClearTerminal(rt, id).Reject?
    ensures SameClaims(rt, ClearTerminal(rt, id).rt)
  {
  }

  lemma SwitchKeepsClaims(rt: Runtime, env: Env, id: string, choice: Choice)
    requires !ResolveSwitch(rt, env, id, choice).Reject?
    ensures SameClaims(rt, ResolveSwitch(rt, env, id, choice).rt)
  {
  }

  lemma TerminalOpKeepsClaims(rt: Runtime, env: Env, op: TerminalOp)
    requires !ExecuteTerminal(rt, env, op).Reject?
    ensures SameClaims(rt, ExecuteTerminal(rt, env, op).rt)
  {
    match op {
      case RequestActivation(target) => ActivationKeepsClaims(rt, env, target);
      case RequestClear => ClearingKeepsClaims(rt, env.id);
      case ResolveTerminalSwitch(id, choice) => SwitchKeepsClaims(rt, env, id, choice);
      case _ =>
    }
  }

  lemma GrantKeepsClaims(rt: Runtime, pending: PendingCommand, t: Terminal, authored: ContentNode, durable: Durable)
    requires rt.broadcast.Some? && rt.broadcast.value.active.Some?
    ensures SameClaims(rt, GrantCommand(rt, pending, t, authored, durable).rt)
  {
  }

  lemma AnswerKeepsClaims(rt: Runtime, pending: PendingCommand, t: Terminal, approve: bool, durable: Durable)
    requires rt.broadcast.Some? && rt.broadcast.value.active.Some? &&
             !AnswerCommand(rt, pending, t, approve, durable).Reject?
    ensures SameClaims(rt, AnswerCommand(rt, pending, t, approve, durable).rt)
  {
    if approve {
      GrantKeepsClaims(rt, pending, t, Selected(t, pending.commandId).value, durable);
    }
  }

  lemma CommandKeepsClaims(rt: Runtime, request: string, approve: bool, durable: Durable)
    requires !ResolveCommand(rt, request, approve, durable).Reject?
    ensures SameClaims(rt, ResolveCommand(rt, request, approve, durable).rt)
  {
    AnswerKeepsClaims(rt, rt.pendingCommand.value, ActiveTerminal(rt.broadcast).value, approve, durable);
  }

  lemma AnsweredStepKeepsClaims(rt: Runtime, env: Env, pending: PendingNavigation, approve: bool)
    requires ActiveTerminal(rt.broadcast).Some?
    requires !AnswerNavigation(rt, env, pending, approve).Reject?
    ensures SameClaims(rt, AnswerNavigation(rt, env, pending, approve).rt)
  {
  }

  lemma NavigationKeepsClaims(rt: Runtime, env: Env, request: string, approve: bool)
    requires !ResolveNavigation(rt, env, request, approve).Reject?
    ensures SameClaims(rt, ResolveNavigation(rt, env, request, approve).rt)
  {
    AnsweredStepKeepsClaims(rt, env, rt.pendingNavigation.value, approve);
  }

  lemma DecisionKeepsClaims(rt: Runtime, env: Env, op: DecisionOp)
    requires !ExecuteDecision(rt, env, op).Reject?
    ensures SameClaims(rt, ExecuteDecision(rt, env, op).rt)
  {
    if op.ResolveCommandExecution? {
      CommandKeepsClaims(rt, op.request, op.approve, op.durable);
    } else if op.ResolveTerminalNavigation? {
      NavigationKeepsClaims(rt, env, op.request, op.approve);
    }
  }

  lemma ForwardKeepsClaims(rt: Runtime, env: Env, session: string, t: Terminal, authored: ContentNode, c: PlayerCommand)
    requires rt.broadcast.Some? && authored.transition.Some?
    ensures SameClaims(rt, RequestForward(rt, env, session, t, authored, c).change.rt)
  {
  }

  lemma CommandRequestKeepsClaims(rt: Runtime, env: Env, session: string, t: Terminal, authored: ContentNode,
                                  c: PlayerCommand)
    requires rt.broadcast.Some? && rt.broadcast.value.active.Some?
    ensures SameClaims(rt, RequestCommand(rt, env, session, t, authored, c).change.rt)
  {
  }

  lemma OpenKeepsClaims(rt: Runtime, env: Env, session: string, t: Terminal, c: PlayerCommand)
    requires rt.broadcast.Some? && rt.broadcast.value.active.Some? &&
             !RequestOpen(rt, env, session, t, c).change.Reject?
    ensures SameClaims(rt, RequestOpen(rt, env, session, t, c).change.rt)
  {
    var authored := Selected(t, c.nodeId);
    if authored.Some? && authored.value.Behavior() == Transition {
      ForwardKeepsClaims(rt, env, session, t, authored.value, c);
    } else if authored.Some? && authored.value.Behavior() != Invalid {
      CommandRequestKeepsClaims(rt, env, session, t, authored.value, c);
    }
  }

  lemma PlayKeepsClaims(rt: Runtime, env: Env, session: string, t: Terminal, c: PlayerCommand, rules: Rules)
    requires rt.broadcast.Some? && rt.broadcast.value.active.Some?
    ensures SameClaims(rt, RequestPlay(rt, env, session, t, c, rules).change.rt)
  {
    hide Play;
  }

  lemma ActKeepsClaims(rt: Runtime, env: Env, session: string, t: Terminal, c: PlayerCommand, rules: Rules)
    requires rt.broadcast.Some? && rt.broadcast.value.active.Some? && !Act(rt, env, session, t, c, rules).change.Reject?
    ensures SameClaims(rt, Act(rt, env, session, t, c, rules).change.rt)
  {
    if !ReturnRequested(t, c, rt.broadcast.value.route) {
      if IsNavigation(c, OpenCommand) {
        OpenKeepsClaims(rt, env, session, t, c);
      } else {
        PlayKeepsClaims(rt, env, session, t, c, rules);
      }
    }
  }

  lemma ActionKeepsClaims(rt: Runtime, env: Env, connection: string, c: PlayerCommand, rules: Rules)
    requires !DispatchAction(rt, env, connection, c, rules).change.Reject?
    ensures SameClaims(rt, DispatchAction(rt, env, connection, c, rules).change.rt)
  {
    PrepareFacts(rt, env, connection, c, rules);
    var prepared := Prepare(rt, env, connection, c, rules);
    if prepared.Go? {
      ActKeepsClaims(rt, env, prepared.session, prepared.terminal, c, rules);
    }
  }

  // ---------------------------------------------------------------- the whole machine

  /** The claims an operation leaves when it is not refused. */
  function ClaimsAfter(rt: Runtime, op: Operation, accepted: bool): set<Claim> {
    match op
    case OnClaim(AssignCharacter(s, c)) => ClaimsOf(rt) + {Claim(s, c)}
    case OnClaim(ReleaseCharacter(s)) => WithoutSession(ClaimsOf(rt), s)
    case OnClaim(MoveCharacter(c, s)) => WithoutCharacter(ClaimsOf(rt), c) + {Claim(s, c)}
    case OnSession(SelectCharacter(s)) => if accepted then ClaimsOf(rt) + {Claim(s.session, s.character)}
      else ClaimsOf(rt)
    case Setup(StartBroadcast) => {}
    case Setup(EndBroadcast) => {}
    case _ => ClaimsOf(rt)
  }

  /** The controller an operation leaves when it is not refused. */
  function ControllerAfter(rt: Runtime, op: Operation, accepted: bool): Option<string> {
    var held := ControllerOf(rt);
    match op
    case OnClaim(AssignCharacter(s, c)) =>
      if held.None? && s in rt.sessions && Connected(rt.sessions[s]) then Some(s) else held
    case OnClaim(ReleaseCharacter(s)) => if held == Some(s) then None else held
    case OnClaim(MoveCharacter(c, s)) => if held.Some? && Claim(held.value, c) in ClaimsOf(rt) then None else held
    case OnClaim(SetActiveController(s)) => Some(s)
    case OnSession(SelectCharacter(s)) => if accepted && held.None? then Some(s.session) else held
    case Setup(StartBroadcast) => None
    case Setup(EndBroadcast) => None
    case _ => held
  }

  predicate AsAsked(rt: Runtime, op: Operation, accepted: bool, after: Runtime) {
    ClaimsOf(after) == ClaimsAfter(rt, op, accepted) && ControllerOf(after) == ControllerAfter(rt, op, accepted)
  }

  lemma SetupClaims(rt: Runtime, env: Env, op: SetupOp)
    requires !ExecuteSetup(rt, env, op).Reject?
    ensures AsAsked(rt, Setup(op), true, ExecuteSetup(rt, env, op).rt)
  {
  }

  lemma ConnectingKeepsClaims(rt: Runtime, env: Env, op: SessionOp)
    requires !op.SelectCharacter? && !ExecuteSession(rt, env, op).Reject?
    ensures SameClaims(rt, ExecuteSession(rt, env, op).rt)
  {
  }

  lemma RefusedChoiceKeepsClaims(rt: Runtime, s: Selection, limit: nat)
    requires Choose(rt, s, limit).change.Persist?
    ensures Choose(rt, s, limit).change.rt.broadcast == rt.broadcast
  {
  }

  lemma ChoiceClaims(rt: Runtime, s: Selection, limit: nat)
    requires Inv(rt, limit) && !Choose(rt, s, limit).change.Reject?
    ensures var change := Choose(rt, s, limit).change;
            AsAsked(rt, OnSession(SelectCharacter(s)), change.Accept?, change.rt)
  {
    if Choose(rt, s, limit).change.Accept? {
      ChoiceGivesOne(rt, s, limit);
    } else {
      RefusedChoiceKeepsClaims(rt, s, limit);
      SameAssignments(rt, Choose(rt, s, limit).change.rt);
    }
  }

  lemma SessionClaims(rt: Runtime, env: Env, op: SessionOp)
    requires Inv(rt, env.limit) && !ExecuteSession(rt, env, op).Reject?
    ensures AsAsked(rt, OnSession(op), ExecuteSession(rt, env, op).Accept?, ExecuteSession(rt, env, op).rt)
  {
    if op.SelectCharacter? {
      ChoiceClaims(rt, op.selection, env.limit);
    } else {
      ConnectingKeepsClaims(rt, env, op);
      SameAssignments(rt, ExecuteSession(rt, env, op).rt);
    }
  }

  lemma AssignClaims(rt: Runtime, session: string, character: string, limit: nat)
    requires Inv(rt, limit) && !Assign(rt, session, character).Reject?
    ensures AsAsked(rt, OnClaim(AssignCharacter(session, character)), true, Assign(rt, session, character).rt)
  {
    AssignGivesOne(rt, session, character, limit);
  }

  lemma ReleaseClaims(rt: Runtime, session: string)
    requires !Release(rt, session).Reject?
    ensures AsAsked(rt, OnClaim(ReleaseCharacter(session)), true, Release(rt, session).rt)
  {
    ReleaseRemovesOne(rt, session);
  }

  lemma MoveClaims(rt: Runtime, character: string, session: string, limit: nat)
    requires Inv(rt, limit) && !Move(rt, character, session).Reject?
    ensures AsAsked(rt, OnClaim(MoveCharacter(character, session)), true, Move(rt, character, session).rt)
  {
    MoveReplacesOne(rt, character, session, limit);
  }

  lemma ControllerClaims(rt: Runtime, session: string)
    requires !SetController(rt, session).Reject?
    ensures AsAsked(rt, OnClaim(SetActiveController(session)), true, SetController(rt, session).rt)
  {
    SameAssignments(rt, SetController(rt, session).rt);
  }

  lemma SameAssignments(rt: Runtime, after: Runtime)
    requires rt.broadcast.Some? <==> after.broadcast.Some?
    requires rt.broadcast.Some? ==> after.broadcast.value.assignments == rt.broadcast.value.assignments
    ensures ClaimsOf(after) == ClaimsOf(rt)
  {
  }

  lemma ClaimOpClaims(rt: Runtime, op: ClaimOp, limit: nat)
    requires Inv(rt, limit) && !ExecuteClaim(rt, op).Reject?
    ensures AsAsked(rt, OnClaim(op), true, ExecuteClaim(rt, op).rt)
  {
    match op {
      case AssignCharacter(s, c) => AssignClaims(rt, s, c, limit);
      case ReleaseCharacter(s) => ReleaseClaims(rt, s);
      case MoveCharacter(c, s) => MoveClaims(rt, c, s, limit);
      case SetActiveController(s) => ControllerClaims(rt, s);
    }
  }

  /** Claims and control change as the claim commands and the players ask, at a
      broadcast boundary, and never otherwise. */
  lemma ClaimsChangeOnlyAsAsked(rt: Runtime, env: Env, op: Operation)
    requires Inv(rt, env.limit) && !Execute(rt, env, op).Reject?
    ensures ClaimsOf(Execute(rt, env, op).rt) == ClaimsAfter(rt, op, Execute(rt, env, op).Accept?)
    ensures ControllerOf(Execute(rt, env, op).rt) == ControllerAfter(rt, op, Execute(rt, env, op).Accept?)
  {
    var after := Execute(rt, env, op).rt;
    match op {
      case Setup(setup) => SetupClaims(rt, env, setup);
      case OnSession(session) => SessionClaims(rt, env, session);
      case OnClaim(claim) => ClaimOpClaims(rt, claim, env.limit);
      case OnTerminal(terminal) => TerminalOpKeepsClaims(rt, env, terminal); SameAssignments(rt, after);
      case Decide(decision) => DecisionKeepsClaims(rt, env, decision); SameAssignments(rt, after);
      case PlayerAction(connection, action, rules) =>
        ActionKeepsClaims(rt, env, connection, action, rules);
        SameAssignments(rt, after);
    }
  }

  /** What can take a character from a session. */
  predicate Ends(op: Operation, claim: Claim) {
    match op
    case OnClaim(ReleaseCharacter(s)) => s == claim.session
    case OnClaim(MoveCharacter(c, s)) => c == claim.character && s != claim.session
    case Setup(StartBroadcast) => true
    case Setup(EndBroadcast) => true
    case _ => false
  }

  lemma StepKeepsClaim(s: Coordinator, env: Env, op: Operation, claim: Claim)
    requires Inv(s.rt, env.limit) && claim in ClaimsOf(s.rt) && !Ends(op, claim)
    ensures claim in ClaimsOf(Commit(s, Execute(s.rt, env, op)).rt)
  {
    if !Execute(s.rt, env, op).Reject? {
      ClaimsChangeOnlyAsAsked(s.rt, env, op);
      assert ClaimsOf(Commit(s, Execute(s.rt, env, op)).rt) == ClaimsOf(Execute(s.rt, env, op).rt);
    }
  }

  ghost predicate Stands(steps: seq<Publication.Step>, k: nat, claim: Claim)
    requires k < |steps|
  {
    !Ends(steps[k].op, claim)
  }

  /** Over a whole run a session keeps its character until it is released, moved to
      another session, or the broadcast ends; connections may come and go. */
  lemma {:induction false} ClaimStands(states: seq<Coordinator>, steps: seq<Publication.Step>, limit: nat, i: nat,
                                       n: nat, claim: Claim)
    requires Publication.IsRun(states, steps, limit) && limit >= 1 && i <= n < |states|
    requires claim in ClaimsOf(states[i].rt) && forall k :: i <= k < n ==> Stands(steps, k, claim)
    ensures claim in ClaimsOf(states[n].rt)
    decreases n
  {
    if i < n {
      ClaimStands(states, steps, limit, i, n - 1, claim);
      RunStepKeepsClaim(states, steps, limit, n - 1, claim);
    }
  }

  lemma RunStepKeepsClaim(states: seq<Coordinator>, steps: seq<Publication.Step>, limit: nat, k: nat, claim: Claim)
    requires Publication.IsRun(states, steps, limit) && limit >= 1 && k < |steps|
    requires claim in ClaimsOf(states[k].rt) && Stands(steps, k, claim)
    ensures claim in ClaimsOf(states[k + 1].rt)
  {
    Publication.RunKeepsInv(states, steps, limit, k);
    assert Publication.Linked(states, steps, k, limit);
    StepKeepsClaim(states[k], steps[k].env, steps[k].op, claim);
  }
}
