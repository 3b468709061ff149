/** Published views agree with the truth, and command requests are conserved. */
module Publication {
  import opened Domain
  import opened State
  import opened Changes
  import opened Sessions
  import opened Claims
  import opened Terminals
  import opened Dispatch
  import opened Views
  import opened Coordinator
  import opened Invariants
  import opened Runs

  // ---------------------------------------------------------------- published views

  /** The last update enqueued for every session shows the current aggregate at the
      current revision. */
  ghost predicate ViewsCurrent(s: Coordinator) {
    forall id :: id in s.rt.sessions ==> LastUpdate(s.log, id) == Some(CompoundUpdate(s.rt, id))
  }

  predicate LogOrdered(s: Coordinator) {
    RevisionsRise(s.log) && forall i :: 0 <= i < |s.log| ==> s.log[i].revision <= s.rt.revision
  }

  lemma CachesAreInvisible(rt: Runtime, after: Runtime, id: string)
    requires CachesOnly(rt, after) && after.revision == rt.revision && id in rt.sessions
    ensures CompoundUpdate(after, id) == CompoundUpdate(rt, id)
  {
    assert after.sessions[id].(results := rt.sessions[id].results) == rt.sessions[id];
    assert after.roster == rt.roster && after.rosterOrder == rt.rosterOrder && after.broadcast == rt.broadcast;
  }

  lemma AuditsKeepViews(log: seq<Entry>, audits: seq<Audit>, revision: nat, id: string)
    ensures LastUpdate(log + AuditEntries(audits, revision), id) == LastUpdate(log, id)
  {
    AuditsPublishNothing(audits, revision, id);
    LastUpdateAfter(log, AuditEntries(audits, revision), id);
  }

  /** The boundary publishes exactly what changed: views stay current through
      refusals, stored refusals and accepted changes alike. */
  lemma CommitKeepsViews(s: Coordinator, change: Change)
    requires ViewsCurrent(s) && (change.Persist? ==> CachesOnly(s.rt, change.rt))
    ensures ViewsCurrent(Commit(s, change))
  {
    var after := Commit(s, change);
    forall id | id in after.rt.sessions ensures LastUpdate(after.log, id) == Some(CompoundUpdate(after.rt, id)) {
      match change {
        case Reject(audits) => AuditsKeepViews(s.log, audits, s.rt.revision, id);
        case Persist(rt, audits) =>
          AuditsKeepViews(s.log, audits, s.rt.revision, id);
          assert CachesOnly(s.rt, after.rt);
          CachesAreInvisible(s.rt, after.rt, id);
        case Accept(rt, audits) => AcceptedViews(s, rt, audits, id);
      }
    }
  }

  lemma AcceptedViews(s: Coordinator, rt: Runtime, audits: seq<Audit>, id: string)
    requires id in rt.sessions
    ensures var after := Commit(s, Accept(rt, audits));
            LastUpdate(after.log, id) == Some(CompoundUpdate(after.rt, id))
  {
    var after := Commit(s, Accept(rt, audits)).rt;
    var reported := AuditEntries(AcceptedAudits(s.rt, after, audits), after.revision);
    SortedMembers(after.sessions.Keys);
    EachIsPublished(after, Sorted(after.sessions.Keys), id);
    LastUpdateAfter(s.log + reported, Publish(after), id);
  }

  lemma AppendOrdered(log: seq<Entry>, more: seq<Entry>, revision: nat)
    requires RevisionsRise(log) && forall i :: 0 <= i < |log| ==> log[i].revision <= revision
    requires forall i :: 0 <= i < |more| ==> more[i].revision == revision
    ensures RevisionsRise(log + more) && forall i :: 0 <= i < |log + more| ==> (log + more)[i].revision <= revision
  {
  }

  /** The revision rises by exactly one when a change is accepted and not at all
      otherwise, and no entry is enqueued behind a later one. */
  lemma CommitOrdersLog(s: Coordinator, change: Change)
    requires LogOrdered(s)
    ensures LogOrdered(Commit(s, change))
    ensures Commit(s, change).rt.revision == s.rt.revision + if change.Accept? then 1 else 0
    ensures s.log <= Commit(s, change).log
  {
    match change {
      case Reject(audits) =>
        AuditRevisions(audits, s.rt.revision);
        AppendOrdered(s.log, AuditEntries(audits, s.rt.revision), s.rt.revision);
      case Persist(rt, audits) =>
        AuditRevisions(audits, s.rt.revision);
        AppendOrdered(s.log, AuditEntries(audits, s.rt.revision), s.rt.revision);
      case Accept(rt, audits) =>
        var after := Commit(s, change).rt;
        var all := AcceptedAudits(s.rt, after, audits);
        AuditRevisions(all, after.revision);
        SortedMembers(after.sessions.Keys);
        UpdateRevisions(after, Sorted(after.sessions.Keys));
        AppendOrdered(s.log, AuditEntries(all, after.revision), after.revision);
        AppendOrdered(s.log + AuditEntries(all, after.revision), Publish(after), after.revision);
    }
  }

  // ---------------------------------------------------------------- conservation of command requests

  /** +1 for a command request taken on, -1 for the event that closes one. */
  function Weight(event: Audit): int {
    if !event.mode.CommandMode? then 0
    else if event.name == RequestReceived && event.outcome == Accepted then 1
    else if event.name == Decided && (event.outcome == Succeeded || event.outcome == Declined ||
                                      event.outcome == Failed) then -1
    else if event.name == RequestOutcome && event.outcome == Superseded then -1
    else 0
  }

  function Total(audits: seq<Audit>): int {
    if audits == [] then 0 else Weight(audits[0]) + Total(audits[1..])
  }

  function Balance(log: seq<Entry>): int {
    if log == [] then 0 else (if log[0].Audited? then Weight(log[0].event) else 0) + Balance(log[1..])
  }

  function Open(rt: Runtime): int {
    if rt.pendingCommand.Some? then 1 else 0
  }

  lemma {:induction false} TotalAdds(a: seq<Audit>, b: seq<Audit>)
    ensures Total(a + b) == Total(a) + Total(b)
  {
    if a == [] {
      assert a + b == b;
    } else {
      assert (a + b)[1..] == a[1..] + b;
      TotalAdds(a[1..], b);
    }
  }

  lemma {:induction false} BalanceAdds(a: seq<Entry>, b: seq<Entry>)
    ensures Balance(a + b) == Balance(a) + Balance(b)
  {
    if a == [] {
      assert a + b == b;
    } else {
      assert (a + b)[1..] == a[1..] + b;
      BalanceAdds(a[1..], b);
    }
  }

  lemma {:induction false} AuditBalance(audits: seq<Audit>, revision: nat)
    ensures Balance(AuditEntries(audits, revision)) == Total(audits)
  {
    if audits != [] {
      AuditBalance(audits[1..], revision);
      BalanceAdds([Audited(revision, audits[0])], AuditEntries(audits[1..], revision));
      assert [Audited(revision, audits[0])][1..] == [];
    }
  }

  lemma {:induction false} UpdatesWeighNothing(rt: Runtime, sessions: seq<string>)
    requires forall s :: s in sessions ==> s in rt.sessions
    ensures Balance(UpdateEntries(rt, sessions)) == 0
  {
    if sessions != [] {
      UpdatesWeighNothing(rt, sessions[1..]);
      var first := [Published(rt.revision, sessions[0], CompoundUpdate(rt, sessions[0]))];
      BalanceAdds(first, UpdateEntries(rt, sessions[1..]));
      assert first[1..] == [];
    }
  }

  /** The audits of a change, with what the boundary adds, account for the pending command. */
  predicate Balanced(rt: Runtime, change: Change) {
    match change
    case Reject(audits) => Total(audits) == 0
    case Persist(after, audits) => Total(audits) == 0 && Open(after) == Open(rt)
    case Accept(after, audits) => Total(AcceptedAudits(rt, after, audits)) == Open(after) - Open(rt)
  }

  /** A change that takes on no command and reports no decision on one. */
  predicate Quiet(rt: Runtime, change: Change) {
    match change
    case Reject(audits) => Total(audits) == 0
    case Persist(after, audits) => Total(audits) == 0 && after.pendingCommand == rt.pendingCommand
    case Accept(after, audits) =>
      && Total(audits) == 0
      && (after.pendingCommand.None? || after.pendingCommand == rt.pendingCommand)
      && (rt.pendingCommand.Some? ==> audits == [])
  }

  lemma AcceptedTotal(rt: Runtime, after: Runtime, audits: seq<Audit>)
    ensures Total(AcceptedAudits(rt, after, audits)) ==
            Total(audits) - if SupersededCommand(rt, after, audits) == [] then 0 else 1
  {
    var first := SupersededCommand(rt, after, audits);
    TotalAdds(audits, first);
    TotalAdds(audits + first, SupersededNavigation(rt, after, audits + first));
    if first != [] {
      assert first[1..] == [];
    }
    var second := SupersededNavigation(rt, after, audits + first);
    if second != [] {
      assert second[1..] == [];
    }
  }

  lemma QuietIsBalanced(rt: Runtime, change: Change)
    requires Quiet(rt, change)
    ensures Balanced(rt, change)
  {
    if change.Accept? {
      AcceptedTotal(rt, change.rt, change.audits);
    }
  }

  lemma NavigationAuditsWeighNothing(pending: Option<PendingNavigation>, outcome: Outcome)
    ensures Total(NavigationAudits(pending, outcome)) == 0
  {
    var audits := NavigationAudits(pending, outcome);
    if audits != [] {
      assert audits[1..] == [];
    }
  }

  lemma RequestAuditsWeighNothing(c: PlayerCommand, outcome: Outcome)
    ensures Total(RequestOutcomeAudits(c, outcome)) == 0
  {
    var audits := RequestOutcomeAudits(c, outcome);
    if audits != [] {
      assert audits[1..] == [];
    }
  }

  lemma NavigationIsQuiet(rt: Runtime, env: Env, request: string, approve: bool)
    requires PendingOk(rt)
    ensures Quiet(rt, ResolveNavigation(rt, env, request, approve))
  {
    NavigationAuditsWeighNothing(rt.pendingNavigation, Stale);
    NavigationAuditsWeighNothing(rt.pendingNavigation, Declined);
    NavigationAuditsWeighNothing(rt.pendingNavigation, Failed);
    NavigationAuditsWeighNothing(rt.pendingNavigation, Succeeded);
  }

  lemma DecisionIsBalanced(rt: Runtime, request: string, approve: bool, durable: Durable)
    ensures Balanced(rt, ResolveCommand(rt, request, approve, durable))
  {
    var change := ResolveCommand(rt, request, approve, durable);
    if change.Reject? {
      if change.audits != [] {
        assert change.audits[1..] == [];
      }
    } else {
      var pending := rt.pendingCommand.value;
      var event := change.audits[0];
      assert change.audits[1..] == [] && event in change.audits;
      assert event.name == Decided && event.requestId == pending.requestId;
      AcceptedTotal(rt, change.rt, change.audits);
    }
  }

  lemma DispatchIsBalanced(rt: Runtime, env: Env, connection: string, c: PlayerCommand, rules: Rules)
    ensures Balanced(rt, DispatchAction(rt, env, connection, c, rules).change)
  {
    var prepared := Prepare(rt, env, connection, c, rules);
    PrepareFacts(rt, env, connection, c, rules);
    if prepared.Stop? {
      StoppedIsQuiet(rt, env, connection, c, rules);
    } else {
      ActIsBalanced(rt, env, prepared.session, prepared.terminal, c, rules);
    }
  }

  lemma StoppedIsQuiet(rt: Runtime, env: Env, connection: string, c: PlayerCommand, rules: Rules)
    requires Prepare(rt, env, connection, c, rules).Stop?
    ensures Balanced(rt, Prepare(rt, env, connection, c, rules).reply.change)
  {
    var change := Prepare(rt, env, connection, c, rules).reply.change;
    RequestAuditsWeighNothing(c, Replayed);
    RequestAuditsWeighNothing(c, Refused(Duplicate));
    RequestAuditsWeighNothing(c, Refused(InvalidSession));
    if change.Persist? {
      RefuseIsQuiet(rt, Owner(rt, connection).value, c, Prepare(rt, env, connection, c, rules).reply.result.reason,
                    env.limit);
    }
  }

  lemma RefuseIsQuiet(rt: Runtime, session: string, c: PlayerCommand, reason: Reason, limit: nat)
    ensures Balanced(rt, Refuse(rt, session, c, reason, limit).change)
  {
    RequestAuditsWeighNothing(c, Refused(reason));
  }

  lemma ActIsBalanced(rt: Runtime, env: Env, session: string, t: Terminal, c: PlayerCommand, rules: Rules)
    requires Acting(rt, t)
    ensures Balanced(rt, Act(rt, env, session, t, c, rules).change)
  {
    RefuseIsQuiet(rt, session, c, InvalidAction, env.limit);
    if !ReturnRequested(t, c, rt.broadcast.value.route) && IsNavigation(c, OpenCommand) {
      OpenIsBalanced(rt, env, session, t, c);
    } else {
      var change := Act(rt, env, session, t, c, rules).change;
      if change.Accept? {
        AcceptedTotal(rt, change.rt, change.audits);
      }
    }
  }

  lemma OpenIsBalanced(rt: Runtime, env: Env, session: string, t: Terminal, c: PlayerCommand)
    requires Acting(rt, t)
    ensures Balanced(rt, RequestOpen(rt, env, session, t, c).change)
  {
    var authored := Selected(t, c.nodeId);
    RefuseIsQuiet(rt, session, c, InvalidAction, env.limit);
    if authored.Some? && authored.value.Behavior() == Transition {
      ForwardIsBalanced(rt, env, session, t, authored.value, c);
    } else if authored.Some? && authored.value.Behavior() != Invalid {
      CommandIsBalanced(rt, env, session, t, authored.value, c);
    }
  }

  lemma ForwardIsBalanced(rt: Runtime, env: Env, session: string, t: Terminal, authored: ContentNode, c: PlayerCommand)
    requires Acting(rt, t) && authored.transition.Some?
    ensures Balanced(rt, RequestForward(rt, env, session, t, authored, c).change)
  {
    var change := RequestForward(rt, env, session, t, authored, c).change;
    AcceptedTotal(rt, change.rt, change.audits);
    if change.audits != [] {
      assert change.audits[1..] == [];
    }
  }

  lemma CommandIsBalanced(rt: Runtime, env: Env, session: string, t: Terminal, authored: ContentNode, c: PlayerCommand)
    requires Acting(rt, t)
    ensures Balanced(rt, RequestCommand(rt, env, session, t, authored, c).change)
  {
    var change := RequestCommand(rt, env, session, t, authored, c).change;
    AcceptedTotal(rt, change.rt, change.audits);
    assert change.audits[1..] == [];
  }

  lemma TerminalOpIsQuiet(rt: Runtime, env: Env, op: TerminalOp)
    ensures Quiet(rt, ExecuteTerminal(rt, env, op))
  {
  }

  lemma SessionOpIsQuiet(rt: Runtime, env: Env, op: SessionOp)
    ensures Quiet(rt, ExecuteSession(rt, env, op))
  {
  }

  lemma PlainOpIsQuiet(rt: Runtime, env: Env, setup: SetupOp, claim: ClaimOp)
    ensures Quiet(rt, ExecuteSetup(rt, env, setup)) && Quiet(rt, ExecuteClaim(rt, claim))
  {
  }

  lemma DecisionOpIsBalanced(rt: Runtime, env: Env, op: DecisionOp)
    requires PendingOk(rt)
    ensures Balanced(rt, ExecuteDecision(rt, env, op))
  {
    match op {
      case ResolveCommandExecution(request, approve, durable) => DecisionIsBalanced(rt, request, approve, durable);
      case ResolveTerminalNavigation(request, approve) =>
        NavigationIsQuiet(rt, env, request, approve);
        QuietIsBalanced(rt, ResolveNavigation(rt, env, request, approve));
      case _ => QuietIsBalanced(rt, ExecuteDecision(rt, env, op));
    }
  }

  lemma OperationIsBalanced(rt: Runtime, env: Env, op: Operation)
    requires PendingOk(rt)
    ensures Balanced(rt, Execute(rt, env, op))
  {
    match op {
      case Setup(setup) =>
        PlainOpIsQuiet(rt, env, setup, ReleaseCharacter(""));
        QuietIsBalanced(rt, ExecuteSetup(rt, env, setup));
      case OnSession(session) =>
        SessionOpIsQuiet(rt, env, session);
        QuietIsBalanced(rt, ExecuteSession(rt, env, session));
      case OnClaim(claim) =>
        PlainOpIsQuiet(rt, env, EndBroadcast, claim);
        QuietIsBalanced(rt, ExecuteClaim(rt, claim));
      case OnTerminal(terminal) =>
        TerminalOpIsQuiet(rt, env, terminal);
        QuietIsBalanced(rt, ExecuteTerminal(rt, env, terminal));
      case Decide(decision) => DecisionOpIsBalanced(rt, env, decision);
      case PlayerAction(connection, action, rules) => DispatchIsBalanced(rt, env, connection, action, rules);
    }
  }

  /** Requests taken on minus requests closed is one while a command is pending, zero
      otherwise. */
  predicate Conserved(s: Coordinator) {
    Balance(s.log) == Open(s.rt)
  }

  lemma CommitConserves(s: Coordinator, change: Change)
    requires Conserved(s) && Balanced(s.rt, change)
    ensures Conserved(Commit(s, change))
  {
    match change {
      case Reject(audits) =>
        AuditBalance(audits, s.rt.revision);
        BalanceAdds(s.log, AuditEntries(audits, s.rt.revision));
      case Persist(rt, audits) =>
        AuditBalance(audits, s.rt.revision);
        BalanceAdds(s.log, AuditEntries(audits, s.rt.revision));
      case Accept(rt, audits) =>
        var after := Commit(s, change).rt;
        var all := AcceptedAudits(s.rt, after, audits);
        assert all == AcceptedAudits(s.rt, rt, audits);
        AuditBalance(all, after.revision);
        BalanceAdds(s.log, AuditEntries(all, after.revision));
        SortedMembers(after.sessions.Keys);
        UpdatesWeighNothing(after, Sorted(after.sessions.Keys));
        BalanceAdds(s.log + AuditEntries(all, after.revision), Publish(after));
    }
  }

  // ---------------------------------------------------------------- every reachable state

  ghost predicate Healthy(s: Coordinator, limit: nat) {
    Inv(s.rt, limit) && ViewsCurrent(s) && LogOrdered(s) && Conserved(s)
  }

  lemma StepIsHealthy(s: Coordinator, env: Env, op: Operation)
    requires Healthy(s, env.limit) && env.limit >= 1 && Supplied(s.rt, op)
    ensures Healthy(Commit(s, Execute(s.rt, env, op)), env.limit)
  {
    var change := Execute(s.rt, env, op);
    OperationKeeps(s.rt, env, op);
    PersistTouchesCachesOnly(s.rt, env, op);
    OperationIsBalanced(s.rt, env, op);
    CommitKeepsInv(s, change, env.limit);
    CommitKeepsViews(s, change);
    CommitOrdersLog(s, change);
    CommitConserves(s, change);
  }

  lemma CommitKeepsInv(s: Coordinator, change: Change, limit: nat)
    requires Inv(s.rt, limit) && Keeps(change, limit)
    ensures Inv(Commit(s, change).rt, limit)
  {
  }

  datatype Step = Step(env: Env, op: Operation)

  /** States linked by operations, starting from a fresh process; environments vary
      freely except for the cache bound. */
  ghost predicate IsRun(states: seq<Coordinator>, steps: seq<Step>, limit: nat) {
    && |states| == |steps| + 1
    && states[0] == Coordinator(Fresh(), [])
    && forall i :: 0 <= i < |steps| ==> Linked(states, steps, i, limit)
  }

  ghost predicate Linked(states: seq<Coordinator>, steps: seq<Step>, i: nat, limit: nat)
    requires |states| == |steps| + 1 && i < |steps|
  {
    && steps[i].env.limit == limit
    && Supplied(states[i].rt, steps[i].op)
    && states[i + 1] == Commit(states[i], Execute(states[i].rt, steps[i].env, steps[i].op))
  }

  /** The structural part alone. */
  lemma RunKeepsInv(states: seq<Coordinator>, steps: seq<Step>, limit: nat, n: nat)
    requires IsRun(states, steps, limit) && limit >= 1 && n < |states|
    ensures Inv(states[n].rt, limit)
  {
    RunIsHealthy(states, steps, limit, n);
  }

  lemma FreshIsHealthy(limit: nat)
    ensures Healthy(Coordinator(Fresh(), []), limit)
  {
  }

  /** Every reachable state is healthy. */
  lemma {:induction false} RunIsHealthy(states: seq<Coordinator>, steps: seq<Step>, limit: nat, n: nat)
    requires IsRun(states, steps, limit) && limit >= 1 && n < |states|
    ensures Healthy(states[n], limit)
  {
    hide Healthy, Execute, Commit, Supplied;
    if n == 0 {
      FreshIsHealthy(limit);
    } else {
      RunIsHealthy(states, steps, limit, n - 1);
      assert Linked(states, steps, n - 1, limit);
      StepIsHealthy(states[n - 1], steps[n - 1].env, steps[n - 1].op);
    }
  }
}
