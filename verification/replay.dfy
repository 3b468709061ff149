/** Repeating a request is harmless: it gets the stored answer and changes nothing,
    for as long as the answer is kept. */
module Replay {
  import opened Domain
  import opened State
  import opened Changes
  import opened Sessions
  import opened Claims
  import opened Terminals
  import opened Dispatch
  import opened Coordinator
  import opened Catalogue
  import opened Invariants
  import opened Runs
  import opened Publication
  import Route
  import Text

  function Record(sessions: map<string, Session>, session: string, requestId: string): Option<ResultRecord> {
    if session in sessions && requestId in sessions[session].results then Some(sessions[session].results[requestId])
        else None
  }

  // ---------------------------------------------------------------- one request

  /** A request already answered gets the same answer and nothing changes; the same
      identifier used for another request is turned away, and nothing changes. */
  lemma AnsweredRequestIsReplayed(rt: Runtime, env: Env, connection: string, session: string, c: PlayerCommand,
                                  rules: Rules)
    requires Owner(rt, connection) == Some(session) && c.requestId != ""
    requires Record(rt.sessions, session, c.requestId).Some?
    ensures var reply := DispatchAction(rt, env, connection, c, rules);
            var record := Record(rt.sessions, session, c.requestId).value;
            && reply.change.Reject?
            && (if record.fingerprint == Fingerprint(c) then reply.result == record.result
                else reply.result == ActionResult(c.requestId, false, Duplicate, rt.revision))
  {
  }

  lemma StoredIsRecorded(rt: Runtime, session: string, requestId: string, record: ResultRecord, limit: nat)
    requires session in rt.sessions
    ensures Record(StoreResult(rt, session, requestId, record, limit).sessions, session, requestId) == Some(record)
  {
  }

  /** Whatever a new request is told is remembered under its identifier. */
  lemma AnswerIsRemembered(rt: Runtime, env: Env, connection: string, c: PlayerCommand, rules: Rules)
    requires !DispatchAction(rt, env, connection, c, rules).change.Reject?
    ensures Owner(rt, connection).Some?
    ensures var reply := DispatchAction(rt, env, connection, c, rules);
            Record(reply.change.rt.sessions, Owner(rt, connection).value, c.requestId)
            == Some(ResultRecord(Fingerprint(c), reply.result))
  {
    var after := StoresOnce(rt, env, connection, c, rules);
    var session := Owner(rt, connection).value;
    assert session in Owners(rt, connection);
    StoredIsRecorded(after, session, c.requestId,
                     ResultRecord(Fingerprint(c), DispatchAction(rt, env, connection, c, rules).result), env.limit);
  }

  /** Every request that changes anything stores exactly one new record, for the
      session that sent it, on top of a state whose caches are untouched. */
  lemma StoresOnce(rt: Runtime, env: Env, connection: string, c: PlayerCommand, rules: Rules)
    returns (after: Runtime)
    requires !DispatchAction(rt, env, connection, c, rules).change.Reject?
    ensures Owner(rt, connection).Some? && Owner(rt, connection).value in rt.sessions
    ensures c.requestId !in rt.sessions[Owner(rt, connection).value].results
    ensures SameCaches(rt.sessions, after.sessions)
    ensures var reply := DispatchAction(rt, env, connection, c, rules);
            reply.change.rt == StoreResult(after, Owner(rt, connection).value, c.requestId,
                                           ResultRecord(Fingerprint(c), reply.result), env.limit)
  {
    var prepared := Prepare(rt, env, connection, c, rules);
    PrepareFacts(rt, env, connection, c, rules);
    PrepareIsFirst(rt, env, connection, c, rules);
    if prepared.Stop? {
      after := rt;
    } else {
      after := ActStoresOnce(rt, env, prepared.session, prepared.terminal, c, rules);
    }
  }

  predicate SameCaches(before: map<string, Session>, after: map<string, Session>) {
    before.Keys == after.Keys && forall s :: s in before ==> after[s].results == before[s].results
  }

  lemma PrepareIsFirst(rt: Runtime, env: Env, connection: string, c: PlayerCommand, rules: Rules)
    ensures var prepared := Prepare(rt, env, connection, c, rules);
            prepared.Go? || !prepared.reply.change.Reject? ==>
              && Owner(rt, connection).Some? && Owner(rt, connection).value in rt.sessions
              && c.requestId !in rt.sessions[Owner(rt, connection).value].results
              && (prepared.Go? ==> prepared.session == Owner(rt, connection).value)
  {
    if Owner(rt, connection).Some? {
      assert Owner(rt, connection).value in Owners(rt, connection);
    }
  }

  lemma ActStoresOnce(rt: Runtime, env: Env, session: string, t: Terminal, c: PlayerCommand, rules: Rules)
    returns (after: Runtime)
    requires Acting(rt, t) && session in rt.sessions
    ensures SameCaches(rt.sessions, after.sessions)
    ensures var reply := Act(rt, env, session, t, c, rules);
            && !reply.change.Reject?
            && reply.change.rt == StoreResult(after, session, c.requestId, ResultRecord(Fingerprint(c), reply.result),
                                              env.limit)
  {
    if ReturnRequested(t, c, rt.broadcast.value.route) {
      after := ReturnStoresOnce(rt, env, session, t, c);
    } else if !IsNavigation(c, OpenCommand) {
      after := PlayStoresOnce(rt, env, session, t, c, rules);
    } else {
      after := OpenStoresOnce(rt, env, session, t, c);
    }
  }

  lemma ReturnStoresOnce(rt: Runtime, env: Env, session: string, t: Terminal, c: PlayerCommand)
    returns (after: Runtime)
    requires Acting(rt, t) && rt.broadcast.value.route != []
    ensures SameCaches(rt.sessions, after.sessions)
    ensures var reply := RequestReturn(rt, env, session, t, c);
            && !reply.change.Reject?
            && reply.change.rt == StoreResult(after, session, c.requestId, ResultRecord(Fingerprint(c), reply.result),
                                              env.limit)
  {
    var route := rt.broadcast.value.route;
    after := if !Route.ValidReturn(env.catalog.groups, t.terminalId, route[|route| - 1]) then rt
             else rt.(pendingNavigation := Some(ReturnDecision(rt, session, t, route[|route| - 1], env.id)),
                      notice := None);
  }

  lemma PlayStoresOnce(rt: Runtime, env: Env, session: string, t: Terminal, c: PlayerCommand, rules: Rules)
    returns (after: Runtime)
    requires Acting(rt, t)
    ensures SameCaches(rt.sessions, after.sessions)
    ensures var reply := RequestPlay(rt, env, session, t, c, rules);
            && !reply.change.Reject?
            && reply.change.rt == StoreResult(after, session, c.requestId, ResultRecord(Fingerprint(c), reply.result),
                                              env.limit)
  {
    var played := Play(t, c, rules);
    if played.None? {
      after := rt;
    } else {
      var shown := PutActive(rt, played.value);
      after := if ParseKind(c.kind) == Present then shown else SetNotice(shown, session, false);
      NoticeKeepsCaches(shown, session, false);
    }
  }

  lemma NoticeKeepsCaches(rt: Runtime, session: string, notice: bool)
    ensures SameCaches(rt.sessions, SetNotice(rt, session, notice).sessions)
  {
    assert session in rt.sessions ==> rt.sessions.Keys == SetNotice(rt, session, notice).sessions.Keys;
  }

  lemma OpenStoresOnce(rt: Runtime, env: Env, session: string, t: Terminal, c: PlayerCommand)
    returns (after: Runtime)
    requires Acting(rt, t)
    ensures SameCaches(rt.sessions, after.sessions)
    ensures var reply := RequestOpen(rt, env, session, t, c);
            && !reply.change.Reject?
            && reply.change.rt == StoreResult(after, session, c.requestId, ResultRecord(Fingerprint(c), reply.result),
                                              env.limit)
  {
    var authored := Selected(t, c.nodeId);
    if authored.None? || authored.value.Behavior() == Invalid {
      after := rt;
    } else if authored.value.Behavior() == Transition {
      after := ForwardStoresOnce(rt, env, session, t, authored.value, c);
    } else {
      after := CommandStoresOnce(rt, env, session, t, authored.value, c);
    }
  }

  lemma ForwardStoresOnce(rt: Runtime, env: Env, session: string, t: Terminal, authored: ContentNode, c: PlayerCommand)
    returns (after: Runtime)
    requires Acting(rt, t) && authored.transition.Some?
    ensures after.sessions == rt.sessions
    ensures var reply := RequestForward(rt, env, session, t, authored, c);
            && !reply.change.Reject?
            && reply.change.rt == StoreResult(after, session, c.requestId, ResultRecord(Fingerprint(c), reply.result),
                                              env.limit)
    ensures var reply := RequestForward(rt, env, session, t, authored, c);
            !reply.result.accepted ==>
              after == rt.(notice := Some(NavigationNotice(TargetMissing, t.terminalId, authored.id,
                                                           authored.transition.value)))
  {
    if !LinkCurrent(env.catalog, t, authored) {
      after := rt.(notice := Some(NavigationNotice(TargetMissing, t.terminalId, authored.id,
                                                   authored.transition.value)));
    } else {
      var link := LookupTransition(env.catalog, t.terminalId, authored.id).value;
      after := rt.(pendingNavigation := Some(ForwardDecision(rt, session, t, authored, link.target, env.id)),
                   notice := None);
    }
  }

  lemma CommandStoresOnce(rt: Runtime, env: Env, session: string, t: Terminal, authored: ContentNode, c: PlayerCommand)
    returns (after: Runtime)
    requires Acting(rt, t)
    ensures SameCaches(rt.sessions, after.sessions)
    ensures var reply := RequestCommand(rt, env, session, t, authored, c);
            && !reply.change.Reject?
            && reply.change.rt == StoreResult(after, session, c.requestId, ResultRecord(Fingerprint(c), reply.result),
                                              env.limit)
  {
    var pending := PendingCommand(env.id, rt.broadcast.value.id, t.terminalId, authored.id, DisplayedName(t, authored),
                                  ModeOf(t, authored), ConfirmationText(authored), session);
    var shown := PutActive(rt, t.(execution := Some(Execution(Awaiting, authored.id)))).(pendingCommand :=
        Some(pending));
    after := SetNotice(shown, session, false);
    NoticeKeepsCaches(shown, session, false);
  }

  /** A refusal changes one replay record and nothing else, unless it tells the
      Overseer that a link leads nowhere. */
  lemma RefusalChangesOneRecord(rt: Runtime, env: Env, connection: string, c: PlayerCommand, rules: Rules)
    requires var reply := DispatchAction(rt, env, connection, c, rules); !reply.change.Reject? && !reply.result.accepted
    ensures Owner(rt, connection).Some?
    ensures var reply := DispatchAction(rt, env, connection, c, rules);
            var stored := (from: Runtime) =>
              StoreResult(from, Owner(rt, connection).value, c.requestId, ResultRecord(Fingerprint(c), reply.result),
                          env.limit);
            || (reply.change.Persist? && reply.change.rt == stored(rt))
            || (reply.change.Accept? && exists note: NavigationNotice ::
                  note.reason == TargetMissing && reply.change.rt == stored(rt.(notice := Some(note))))
  {
    var prepared := Prepare(rt, env, connection, c, rules);
    PrepareFacts(rt, env, connection, c, rules);
    PrepareIsFirst(rt, env, connection, c, rules);
    if prepared.Go? {
      RefusedActChangesOneRecord(rt, env, prepared.session, prepared.terminal, c, rules);
    }
  }

  lemma RefusedActChangesOneRecord(rt: Runtime, env: Env, session: string, t: Terminal, c: PlayerCommand, rules: Rules)
    requires Acting(rt, t) && !Act(rt, env, session, t, c, rules).result.accepted
    ensures var reply := Act(rt, env, session, t, c, rules);
            var stored := (from: Runtime) =>
              StoreResult(from, session, c.requestId, ResultRecord(Fingerprint(c), reply.result), env.limit);
            || (reply.change.Persist? && reply.change.rt == stored(rt))
            || (reply.change.Accept? && exists note: NavigationNotice ::
                  note.reason == TargetMissing && reply.change.rt == stored(rt.(notice := Some(note))))
  {
    if !ReturnRequested(t, c, rt.broadcast.value.route) && IsNavigation(c, OpenCommand) {
      var authored := Selected(t, c.nodeId);
      if authored.Some? && authored.value.Behavior() == Transition {
        var after := ForwardStoresOnce(rt, env, session, t, authored.value, c);
      }
    }
  }

  // ---------------------------------------------------------------- how long an answer is kept

  /** The two ways a stored answer goes: the broadcast starts or ends, or the session's
      full cache gives up its smallest identifier for a new one. */
  ghost predicate Forgotten(rt: Runtime, env: Env, op: Operation, session: string, requestId: string)
    requires session in rt.sessions
  {
    || (op.Setup? && (op.setup.StartBroadcast? || op.setup.EndBroadcast?))
    || (&& (|| (op.OnSession? && op.session.SelectCharacter? && op.session.selection.session == session)
            || (op.PlayerAction? && Owner(rt, op.connection) == Some(session)))
        && |rt.sessions[session].results| == env.limit
        && Text.IsLeast(requestId, rt.sessions[session].results.Keys))
  }

  // A record is kept unchanged unless the operation is one that forgets it.
  ghost predicate KeepsRecord(rt: Runtime, env: Env, op: Operation, session: string, requestId: string)
    requires Record(rt.sessions, session, requestId).Some?
  {
    var change := Execute(rt, env, op);
    !change.Reject? ==>
      || Record(change.rt.sessions, session, requestId) == Record(rt.sessions, session, requestId)
      || (Record(change.rt.sessions, session, requestId) == None && Forgotten(rt, env, op, session, requestId))
  }

  lemma SameCachesSameRecord(before: map<string, Session>, after: map<string, Session>, session: string,
                             requestId: string)
    requires SameCaches(before, after)
    ensures Record(after, session, requestId) == Record(before, session, requestId)
  {
  }

  /** Storing one record disturbs another only to make room for it. */
  lemma StoringSparesOthers(rt: Runtime, owner: string, newId: string, record: ResultRecord, limit: nat,
                            session: string, requestId: string)
    requires limit >= 1 && CachesOk(rt.sessions, limit) && owner in rt.sessions && newId !in rt.sessions[owner].results
    requires Record(rt.sessions, session, requestId).Some?
    ensures var after := Record(StoreResult(rt, owner, newId, record, limit).sessions, session, requestId);
            || after == Record(rt.sessions, session, requestId)
            || (after == None && session == owner && |rt.sessions[session].results| == limit
                && Text.IsLeast(requestId, rt.sessions[session].results.Keys))
  {
    if session == owner {
      StoringIsBounded(rt.sessions[owner].results, newId, record, limit);
    }
  }

  lemma ActionKeepsRecord(rt: Runtime, env: Env, connection: string, c: PlayerCommand, rules: Rules, session: string,
                          requestId: string)
    requires Inv(rt, env.limit) && env.limit >= 1 && Record(rt.sessions, session, requestId).Some?
    ensures KeepsRecord(rt, env, PlayerAction(connection, c, rules), session, requestId)
  {
    hide DispatchAction, Sessions.Stored;
    var reply := DispatchAction(rt, env, connection, c, rules);
    if !reply.change.Reject? {
      var after := StoresOnce(rt, env, connection, c, rules);
      SameCachesSameRecord(rt.sessions, after.sessions, session, requestId);
      StoringSparesOthers(after, Owner(rt, connection).value, c.requestId, ResultRecord(Fingerprint(c), reply.result),
                          env.limit, session, requestId);
    }
  }

  lemma SelectionPerforms(rt: Runtime, env: Env, s: Selection)
    ensures Execute(rt, env, OnSession(SelectCharacter(s))) == Choose(rt, s, env.limit).change
  {
    hide Choose;
  }

  lemma SelectionKeepsRecord(rt: Runtime, env: Env, s: Selection, session: string, requestId: string)
    requires Inv(rt, env.limit) && env.limit >= 1 && Record(rt.sessions, session, requestId).Some?
    ensures KeepsRecord(rt, env, OnSession(SelectCharacter(s)), session, requestId)
  {
    hide Execute;
    SelectionPerforms(rt, env, s);
    var reply := Choose(rt, s, env.limit);
    if !reply.change.Reject? {
      StoringSparesOthers(rt, s.session, s.requestId, ResultRecord(SelectionFingerprint(s), reply.result), env.limit,
                          session, requestId);
    }
  }

  lemma OthersKeepRecord(rt: Runtime, env: Env, op: Operation, session: string, requestId: string)
    requires Supplied(rt, op) && Record(rt.sessions, session, requestId).Some?
    requires op.Setup? || (op.OnSession? && !op.session.SelectCharacter?) || op.OnClaim?
    ensures KeepsRecord(rt, env, op, session, requestId)
  {
  }

  lemma TerminalOpKeepsSessions(rt: Runtime, env: Env, op: TerminalOp)
    ensures var change := ExecuteTerminal(rt, env, op); !change.Reject? ==> change.rt.sessions == rt.sessions
  {
  }

  lemma DecisionKeepsCaches(rt: Runtime, env: Env, op: DecisionOp)
    ensures var change := ExecuteDecision(rt, env, op); !change.Reject? ==> SameCaches(rt.sessions, change.rt.sessions)
  {
    match op {
      case ResolveCommandExecution(request, approve, durable) => CommandKeepsCaches(rt, request, approve, durable);
      case _ =>
    }
  }

  lemma CommandKeepsCaches(rt: Runtime, request: string, approve: bool, durable: Durable)
    ensures var change := ResolveCommand(rt, request, approve, durable);
            !change.Reject? ==> SameCaches(rt.sessions, change.rt.sessions)
  {
    if CommandCurrent(rt) {
      var t := ActiveTerminal(rt.broadcast).value;
      NoticeKeepsCaches(Settle(rt, t.(execution := None)), rt.pendingCommand.value.controller, true);
    }
  }

  /** No operation rewrites a stored answer; it is kept or it goes in one of the two
      known ways. */
  lemma OperationKeepsRecord(rt: Runtime, env: Env, op: Operation, session: string, requestId: string)
    requires Inv(rt, env.limit) && env.limit >= 1 && Supplied(rt, op) && Record(rt.sessions, session, requestId).Some?
    ensures KeepsRecord(rt, env, op, session, requestId)
  {
    match op {
      case OnTerminal(terminal) => TerminalOpKeepsSessions(rt, env, terminal);
      case Decide(decision) =>
        DecisionKeepsCaches(rt, env, decision);
        if !ExecuteDecision(rt, env, decision).Reject? {
          SameCachesSameRecord(rt.sessions, ExecuteDecision(rt, env, decision).rt.sessions, session, requestId);
        }
      case PlayerAction(connection, action, rules) =>
        ActionKeepsRecord(rt, env, connection, action, rules, session, requestId);
      case OnSession(s) =>
        if s.SelectCharacter? {
          SelectionKeepsRecord(rt, env, s.selection, session, requestId);
        } else {
          OthersKeepRecord(rt, env, op, session, requestId);
        }
      case _ => OthersKeepRecord(rt, env, op, session, requestId);
    }
  }

  ghost predicate Remembers(states: seq<Coordinator>, steps: seq<Step>, k: nat, session: string, requestId: string)
    requires |states| == |steps| + 1 && k < |steps|
  {
    session in states[k].rt.sessions ==> !Forgotten(states[k].rt, steps[k].env, steps[k].op, session, requestId)
  }

  /** Over a whole run: an answer given at step `i` is still the one stored at every
      later state up to which nothing forgot it. */
  lemma {:induction false} AnswerStays(states: seq<Coordinator>, steps: seq<Step>, limit: nat, i: nat, n: nat,
                                       session: string, requestId: string)
    requires IsRun(states, steps, limit) && limit >= 1 && i <= n < |states|
    requires Record(states[i].rt.sessions, session, requestId).Some?
    requires forall k :: i <= k < n ==> Remembers(states, steps, k, session, requestId)
    ensures Record(states[n].rt.sessions, session, requestId) == Record(states[i].rt.sessions, session, requestId)
  {
    if n > i {
      AnswerStays(states, steps, limit, i, n - 1, session, requestId);
      RunKeepsInv(states, steps, limit, n - 1);
      assert Remembers(states, steps, n - 1, session, requestId);
      NextKeepsRecord(states, steps, limit, n - 1, session, requestId);
    }
  }

  lemma NextKeepsRecord(states: seq<Coordinator>, steps: seq<Step>, limit: nat, k: nat, session: string,
                        requestId: string)
    requires |states| == |steps| + 1 && k < |steps| && limit >= 1 && Linked(states, steps, k, limit)
    requires Inv(states[k].rt, limit) && Record(states[k].rt.sessions, session, requestId).Some?
    requires Remembers(states, steps, k, session, requestId)
    ensures Record(states[k + 1].rt.sessions, session, requestId) == Record(states[k].rt.sessions, session, requestId)
  {
    StepKeepsRecord(states[k], steps[k].env, steps[k].op, session, requestId);
  }

  lemma StepKeepsRecord(s: Coordinator, env: Env, op: Operation, session: string, requestId: string)
    requires Inv(s.rt, env.limit) && env.limit >= 1 && Supplied(s.rt, op) &&
             Record(s.rt.sessions, session, requestId).Some?
    requires !Forgotten(s.rt, env, op, session, requestId)
    ensures Record(Commit(s, Execute(s.rt, env, op)).rt.sessions, session, requestId) ==
            Record(s.rt.sessions, session, requestId)
  {
    OperationKeepsRecord(s.rt, env, op, session, requestId);
    CommitKeepsRecords(s, Execute(s.rt, env, op));
  }

  lemma CommitKeepsRecords(s: Coordinator, change: Change)
    ensures Commit(s, change).rt.sessions == if change.Reject? then s.rt.sessions else change.rt.sessions
  {
  }

  /** So a request that was acted on is answered the same way when it is repeated, from
      any connection of the same session, and is not acted on again. */
  lemma RepeatedRequestIsHarmless(states: seq<Coordinator>, steps: seq<Step>, limit: nat, i: nat, n: nat,
                                  env: Env, connection: string, rules: Rules)
    requires IsRun(states, steps, limit) && limit >= 1 && i < n < |states|
    requires steps[i].op.PlayerAction? && !Execute(states[i].rt, steps[i].env, steps[i].op).Reject?
    requires var session := Owner(states[i].rt, steps[i].op.connection);
             && session.Some? && Owner(states[n].rt, connection) == session
             && forall k :: i < k < n ==> Remembers(states, steps, k, session.value, steps[i].op.action.requestId)
    ensures var first := DispatchAction(states[i].rt, steps[i].env, steps[i].op.connection, steps[i].op.action,
                                        steps[i].op.rules);
            var again := DispatchAction(states[n].rt, env, connection, steps[i].op.action, rules);
            again.result == first.result && again.change.Reject?
  {
    var op := steps[i].op;
    assert Linked(states, steps, i, limit);
    var session := Owner(states[i].rt, op.connection).value;
    AnswerIsRemembered(states[i].rt, steps[i].env, op.connection, op.action, op.rules);
    CommitKeepsRecords(states[i], Execute(states[i].rt, steps[i].env, op));
    AnswerStays(states, steps, limit, i + 1, n, session, op.action.requestId);
    NamedRequest(states[i].rt, steps[i].env, op.connection, op.action, op.rules);
    AnsweredRequestIsReplayed(states[n].rt, env, connection, session, op.action, rules);
  }

  lemma NamedRequest(rt: Runtime, env: Env, connection: string, c: PlayerCommand, rules: Rules)
    requires !DispatchAction(rt, env, connection, c, rules).change.Reject?
    ensures c.requestId != ""
  {
    PrepareFacts(rt, env, connection, c, rules);
  }
}
