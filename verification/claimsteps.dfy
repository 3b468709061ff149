/** Broadcast lifetimes, the roster and claims, changed in place on a working copy. */
module ClaimSteps {
  import opened Domain
  import opened State
  import opened Changes
  import opened Heap
  import opened Invariants
  import Claims
  import Sessions
  import Text

  // ---------------------------------------------------------------- replay caches

  /** Keeps the cache bounded: a full one gives up its smallest identifier. */
  method Remember(cache: ResultCache, requestId: string, record: ResultRecord, limit: nat)
    modifies cache
    ensures cache.records == Sessions.Stored(old(cache.records), requestId, record, limit)
  {
    if requestId !in cache.records && |cache.records| >= limit && cache.records.Keys != {} {
      var evict := Text.FindLeast(cache.records.Keys);
      cache.records := cache.records - {evict};
    }
    cache.records := cache.records[requestId := record];
  }

  method RememberFor(sessions: map<string, LogicalSession>, id: string, requestId: string, record: ResultRecord,
                     limit: nat)
    requires SessionsApart(sessions) && id in sessions
    modifies ResultCaches(sessions)
    ensures var values := old(SessionValues(sessions));
            SessionValues(sessions)
            == values[id := values[id].(results := Sessions.Stored(values[id].results, requestId, record, limit))]
  {
    hide SessionValues, SessionsApart;
    var session := sessions[id];
    Remember(session.results, requestId, record, limit);
    OnlySession(sessions, id, session);
  }

  method StoreRequestResult(runtime: ProcessRuntime, id: string, requestId: string, record: ResultRecord, limit: nat)
    requires runtime.Valid()
    modifies ResultCaches(runtime.sessions)
    ensures SameObjects(runtime)
    ensures runtime.Value() == Sessions.StoreResult(old(runtime.Value()), id, requestId, record, limit)
  {
    if id in runtime.sessions {
      RememberFor(runtime.sessions, id, requestId, record, limit);
      BroadcastStays(runtime.broadcast);
    }
  }

  method ClearRequestResults(sessions: map<string, LogicalSession>)
    requires SessionsApart(sessions)
    modifies ResultCaches(sessions)
    ensures SessionValues(sessions) == WithoutResults(old(SessionValues(sessions)))
  {
    var rest := sessions.Keys;
    while rest != {}
      invariant rest <= sessions.Keys
      invariant forall id :: id in rest ==> sessions[id].Value() == old(sessions[id].Value())
      invariant forall id :: id in sessions.Keys - rest ==>
                sessions[id].Value() == old(sessions[id].Value()).(results := map[])
      decreases rest
    {
      var id :| id in rest;
      sessions[id].results.records := map[];
      rest := rest - {id};
    }
  }

  ghost function WithoutResults(sessions: map<string, Session>): map<string, Session> {
    Sessions.ClearResults(Fresh().(sessions := sessions)).sessions
  }

  // ---------------------------------------------------------------- broadcasts

  // What a broadcast boundary drops; a pending command survives only a start.
  method ChangeEpoch(runtime: ProcessRuntime, live: LiveBroadcast?, pending: Option<PendingCommand>)
    modifies runtime`broadcast, runtime`pendingSwitch, runtime`pendingCommand, runtime`pendingNavigation, runtime`notice
    ensures runtime.broadcast == live
    ensures runtime.Value() == old(runtime.Value()).(
              broadcast := BroadcastValue(live), pendingSwitch := None, pendingCommand := pending,
              pendingNavigation := None, notice := None)
  {
    runtime.broadcast := live;
    runtime.pendingSwitch, runtime.pendingCommand := None, pending;
    runtime.pendingNavigation, runtime.notice := None, None;
    SessionsStay(runtime.sessions);
  }

  method ClearResults(runtime: ProcessRuntime)
    requires runtime.Valid()
    modifies ResultCaches(runtime.sessions)
    ensures runtime.Value() == Sessions.ClearResults(old(runtime.Value()))
  {
    ClearRequestResults(runtime.sessions);
    BroadcastStays(runtime.broadcast);
  }

  method EnterEpoch(runtime: ProcessRuntime, live: LiveBroadcast?, pending: Option<PendingCommand>)
    requires runtime.Valid() && (live != null ==> TerminalsApart(live.terminals))
    modifies runtime`broadcast, runtime`pendingSwitch, runtime`pendingCommand, runtime`pendingNavigation, runtime`notice
    modifies ResultCaches(runtime.sessions)
    ensures runtime.Valid() && runtime.broadcast == live && runtime.sessions == old(runtime.sessions)
    ensures live != null ==> live.terminals == old(live.terminals)
    ensures runtime.Value() == Sessions.ClearResults(old(runtime.Value())).(
              broadcast := old(BroadcastValue(live)), pendingSwitch := None, pendingCommand := pending,
              pendingNavigation := None, notice := None)
  {
    ChangeEpoch(runtime, live, pending);
    BroadcastStays(live);
    ClearResults(runtime);
  }

  twostate predicate NewBroadcast(new live: LiveBroadcast) {
    fresh({live, live.assignments, live.claimants, live.route})
  }

  twostate lemma EpochIsSealed(runtime: ProcessRuntime)
    requires old(runtime.Valid()) && runtime.sessions == old(runtime.sessions)
    requires runtime.broadcast == null || (NewBroadcast(runtime.broadcast) && runtime.broadcast.terminals == map[])
    ensures Sealed(runtime)
  {
  }

  method StartBroadcast(runtime: ProcessRuntime, id: string) returns (verdict: Verdict)
    requires runtime.Valid()
    modifies runtime.Repr()
    ensures Sealed(runtime)
    ensures Carries(Claims.Start(old(runtime.Value()), id), verdict, runtime.Value())
  {
    hide SessionValues, TerminalValues, SessionsApart, TerminalsApart, Sealed;
    SameIsSealed(runtime);
    if runtime.config.None? || runtime.broadcast != null {
      return REFUSED;
    }
    var live := new LiveBroadcast(id);
    RuntimeStays(runtime);
    EnterEpoch(runtime, live, runtime.pendingCommand);
    EpochIsSealed(runtime);
    return ACCEPTED;
  }

  method EndBroadcast(runtime: ProcessRuntime) returns (verdict: Verdict)
    requires runtime.Valid()
    modifies runtime.Repr()
    ensures Sealed(runtime)
    ensures Carries(Claims.End(old(runtime.Value())), verdict, runtime.Value())
  {
    SameIsSealed(runtime);
    if runtime.broadcast == null {
      return REFUSED;
    }
    EnterEpoch(runtime, null, None);
    EpochIsSealed(runtime);
    return ACCEPTED;
  }

  // ---------------------------------------------------------------- roster

  method IndexRoster(roster: seq<Character>) returns (byId: map<string, Character>, order: seq<string>)
    ensures byId == Claims.RosterMap(roster) && order == Claims.RosterIds(roster)
  {
    byId, order := map[], [];
    for index := 0 to |roster|
      invariant byId == Claims.RosterMap(roster[..index]) && order == Claims.RosterIds(roster)[..index]
    {
      byId := byId[roster[index].id := roster[index]];
      order := order + [roster[index].id];
      assert roster[..index + 1][..index] == roster[..index];
    }
    assert roster[..|roster|] == roster;
  }

  method WithoutEntry(order: seq<string>, id: string) returns (kept: seq<string>)
    ensures kept == Claims.Without(order, id)
  {
    kept := [];
    for index := 0 to |order|
      invariant kept + Claims.Without(order[index..], id) == Claims.Without(order, id)
    {
      ghost var rest := Claims.Without(order[index + 1..], id);
      assert order[index..][1..] == order[index + 1..];
      if order[index] != id {
        assert kept + ([order[index]] + rest) == (kept + [order[index]]) + rest;
        kept := kept + [order[index]];
      } else {
        assert [] + rest == rest;
      }
    }
  }

  method SetRoster(runtime: ProcessRuntime, roster: map<string, Character>, order: seq<string>,
                   config: Option<ConfigHandle>)
    requires runtime.Valid()
    modifies runtime.roster, runtime`config
    ensures runtime.Value() == old(runtime.Value()).(roster := roster, rosterOrder := order, config := config)
  {
    runtime.roster.byId, runtime.roster.order, runtime.config := roster, order, config;
    SessionsStay(runtime.sessions);
    BroadcastStays(runtime.broadcast);
  }

  method InstallPlayerConfig(runtime: ProcessRuntime, handle: ConfigHandle, roster: seq<Character>, valid: bool)
    returns (verdict: Verdict)
    requires runtime.Valid()
    modifies runtime, runtime.roster
    ensures Sealed(runtime)
    ensures Carries(Claims.Install(old(runtime.Value()), handle, roster, valid), verdict, runtime.Value())
  {
    if Text.Blank(handle.path) || !valid || runtime.broadcast != null {
      return REFUSED;
    }
    var byId, order := IndexRoster(roster);
    SetRoster(runtime, byId, order, Some(handle));
    return ACCEPTED;
  }

  method ClearPlayerConfig(runtime: ProcessRuntime) returns (verdict: Verdict)
    requires runtime.Valid()
    modifies runtime, runtime.roster
    ensures Sealed(runtime)
    ensures Carries(Claims.Uninstall(old(runtime.Value())), verdict, runtime.Value())
  {
    if runtime.broadcast != null {
      return REFUSED;
    }
    SetRoster(runtime, map[], [], None);
    return ACCEPTED;
  }

  method AddCharacter(runtime: ProcessRuntime, expected: nat, entry: Character, valid: bool,
                      saved: Option<ConfigHandle>)
    returns (verdict: Verdict)
    requires runtime.Valid()
    modifies runtime, runtime.roster
    ensures Sealed(runtime)
    ensures Carries(Claims.AddCharacter(old(runtime.Value()), expected, entry, valid, saved), verdict, runtime.Value())
  {
    if !valid || expected != runtime.revision || runtime.config.None? || runtime.broadcast != null || saved.None? {
      return REFUSED;
    }
    SetRoster(runtime, runtime.roster.byId[entry.id := entry], runtime.roster.order + [entry.id], saved);
    return ACCEPTED;
  }

  method UpdateCharacter(runtime: ProcessRuntime, expected: nat, entry: Character, valid: bool,
                         saved: Option<ConfigHandle>)
    returns (verdict: Verdict)
    requires runtime.Valid()
    modifies runtime, runtime.roster
    ensures Sealed(runtime)
    ensures Carries(Claims.UpdateCharacter(old(runtime.Value()), expected, entry, valid, saved), verdict,
                    runtime.Value())
  {
    if expected != runtime.revision || runtime.config.None? || runtime.broadcast != null {
      return REFUSED;
    }
    if entry.id !in runtime.roster.byId || !valid || runtime.roster.byId[entry.id] == entry || saved.None? {
      return REFUSED;
    }
    SetRoster(runtime, runtime.roster.byId[entry.id := entry], runtime.roster.order, saved);
    return ACCEPTED;
  }

  method DeleteCharacter(runtime: ProcessRuntime, expected: nat, id: string, saved: Option<ConfigHandle>)
    returns (verdict: Verdict)
    requires runtime.Valid()
    modifies runtime, runtime.roster
    ensures Sealed(runtime)
    ensures Carries(Claims.DeleteCharacter(old(runtime.Value()), expected, id, saved), verdict, runtime.Value())
  {
    if expected != runtime.revision || runtime.config.None? || runtime.broadcast != null
       || id !in runtime.roster.byId || saved.None? {
      return REFUSED;
    }
    var order := WithoutEntry(runtime.roster.order, id);
    SetRoster(runtime, runtime.roster.byId - {id}, order, saved);
    return ACCEPTED;
  }

  // ---------------------------------------------------------------- claims

  method SessionAssigned(broadcast: LiveBroadcast, session: string) returns (plays: bool)
    ensures plays <==> Claims.Assigned(broadcast.Value(), session)
  {
    if session in broadcast.assignments.entries {
      return true;
    }
    var rest := broadcast.claimants.entries.Keys;
    while rest != {}
      invariant rest <= broadcast.claimants.entries.Keys
      invariant forall c :: c in broadcast.claimants.entries.Keys - rest ==> broadcast.claimants.entries[c] != session
      decreases rest
    {
      var character :| character in rest;
      if broadcast.claimants.entries[character] == session {
        return true;
      }
      rest := rest - {character};
    }
    return false;
  }

  method CharacterOwner(broadcast: LiveBroadcast, character: string) returns (owner: Option<string>)
    requires ClaimsInverse(broadcast.assignments.entries, broadcast.claimants.entries, broadcast.controller)
    ensures owner == Claims.OwnerOf(broadcast.Value(), character)
  {
    ClaimsReadEitherWay(broadcast.Value(), "", character);
    if character in broadcast.claimants.entries {
      return Some(broadcast.claimants.entries[character]);
    }
    var rest := broadcast.assignments.entries.Keys;
    while rest != {}
      invariant rest <= broadcast.assignments.entries.Keys
      decreases rest
    {
      var session :| session in rest;
      if broadcast.assignments.entries[session] == character {
        return Some(session);
      }
      rest := rest - {session};
    }
    return None;
  }

  /** Both directions of one claim, and control when it is taken with it. */
  method InstallClaim(broadcast: LiveBroadcast, session: string, character: string, control: bool)
    modifies broadcast`controller, broadcast.assignments, broadcast.claimants
    ensures broadcast.Value() == Claims.Claimed(old(broadcast.Value()), session, character)
                                 .(controller := if control then Some(session) else old(broadcast.controller))
  {
    broadcast.assignments.entries := broadcast.assignments.entries[session := character];
    broadcast.claimants.entries := broadcast.claimants.entries[character := session];
    if control {
      broadcast.controller := Some(session);
    }
    TerminalsStay(broadcast.terminals);
  }

  /** The session no longer plays and no longer controls. */
  method Unassign(broadcast: LiveBroadcast, session: string)
    modifies broadcast`controller, broadcast.assignments
    ensures var b := old(broadcast.Value());
            broadcast.Value() == b.(assignments := b.assignments - {session},
                                    controller := Claims.ReleaseControl(b.controller, session))
  {
    broadcast.assignments.entries := broadcast.assignments.entries - {session};
    if broadcast.controller == Some(session) {
      broadcast.controller := None;
    }
    TerminalsStay(broadcast.terminals);
  }

  method RemoveClaim(broadcast: LiveBroadcast, session: string)
    requires session in broadcast.assignments.entries
    modifies broadcast`controller, broadcast.assignments, broadcast.claimants
    ensures var b := old(broadcast.Value());
            broadcast.Value() == b.(assignments := b.assignments - {session},
                                    claimants := b.claimants - {b.assignments[session]},
                                    controller := Claims.ReleaseControl(b.controller, session))
  {
    var character := broadcast.assignments.entries[session];
    Unassign(broadcast, session);
    broadcast.claimants.entries := broadcast.claimants.entries - {character};
    TerminalsStay(broadcast.terminals);
  }

  method TransferClaim(broadcast: LiveBroadcast, owner: Option<string>, session: string, character: string)
    modifies broadcast`controller, broadcast.assignments, broadcast.claimants
    ensures var b := old(broadcast.Value());
            var freed := if owner.None? then b
                         else b.(assignments := b.assignments - {owner.value},
                                 controller := Claims.ReleaseControl(b.controller, owner.value));
            broadcast.Value() == Claims.Claimed(freed, session, character)
  {
    if owner.Some? {
      Unassign(broadcast, owner.value);
    }
    InstallClaim(broadcast, session, character, false);
    TerminalsStay(broadcast.terminals);
  }

  // What the claim commands rely on: the two claim maps agree.
  predicate ClaimsAgree(runtime: ProcessRuntime)
    reads runtime, runtime.broadcast, BroadcastOwn(runtime.broadcast)
  {
    runtime.broadcast != null ==>
      ClaimsInverse(runtime.broadcast.assignments.entries, runtime.broadcast.claimants.entries,
                    runtime.broadcast.controller)
  }

  /** Both must be known, and neither may already be claimed. */
  method CanAssign(runtime: ProcessRuntime, session: string, character: string, ghost rt: Runtime)
    returns (ok: bool, control: bool)
    requires ClaimsAgree(runtime) && runtime.Value() == rt
    ensures runtime.Value() == rt && (ok <==> !Claims.Assign(rt, session, character).Reject?)
    ensures ok ==> (control <==> rt.broadcast.value.controller.None? && Sessions.Connected(rt.sessions[session]))
    ensures ok ==> runtime.broadcast != null
  {
    if runtime.broadcast == null || session !in runtime.sessions || character !in runtime.roster.byId {
      return false, false;
    }
    var plays := SessionAssigned(runtime.broadcast, session);
    RuntimeStays(runtime);
    var owner := CharacterOwner(runtime.broadcast, character);
    RuntimeStays(runtime);
    return !plays && owner.None?, runtime.broadcast.controller == None &&
        runtime.sessions[session].connections.members != {};
  }

  method GiveClaim(runtime: ProcessRuntime, session: string, character: string, control: bool)
    requires runtime.Valid() && runtime.broadcast != null
    modifies runtime.broadcast`controller, runtime.broadcast.assignments, runtime.broadcast.claimants
    ensures SameObjects(runtime)
    ensures var rt := old(runtime.Value()); var b := rt.broadcast.value;
            runtime.Value() == Claims.WithBroadcast(rt, Claims.Claimed(b, session, character)
                                                        .(controller := if control then Some(session)
                                                          else b.controller))
  {
    InstallClaim(runtime.broadcast, session, character, control);
    SessionsStay(runtime.sessions);
  }

  method AssignCharacter(runtime: ProcessRuntime, session: string, character: string) returns (verdict: Verdict)
    requires runtime.Valid() && ClaimsAgree(runtime)
    modifies BroadcastOwn(runtime.broadcast)
    ensures Sealed(runtime)
    ensures Carries(Claims.Assign(old(runtime.Value()), session, character), verdict, runtime.Value())
  {
    hide ProcessRuntime.Value, Sealed, SessionsApart, TerminalsApart;
    var ok, control := CanAssign(runtime, session, character, runtime.Value());
    SameIsSealed(runtime);
    if !ok {
      return REFUSED;
    }
    GiveClaim(runtime, session, character, control);
    SameIsSealed(runtime);
    return ACCEPTED;
  }

  method ReleaseCharacter(runtime: ProcessRuntime, session: string) returns (verdict: Verdict)
    requires runtime.Valid()
    modifies BroadcastOwn(runtime.broadcast)
    ensures Sealed(runtime)
    ensures Carries(Claims.Release(old(runtime.Value()), session), verdict, runtime.Value())
  {
    var broadcast := runtime.broadcast;
    if broadcast == null || session !in runtime.sessions || session !in broadcast.assignments.entries {
      return REFUSED;
    }
    RemoveClaim(broadcast, session);
    SessionsStay(runtime.sessions);
    return ACCEPTED;
  }

  method CanMove(runtime: ProcessRuntime, character: string, session: string) returns (ok: bool)
    requires runtime.Valid()
    ensures ok <==> !Claims.Move(runtime.Value(), character, session).Reject?
  {
    if runtime.broadcast == null || character !in runtime.roster.byId || session !in runtime.sessions {
      return false;
    }
    var plays := SessionAssigned(runtime.broadcast, session);
    return !plays;
  }

  method Transfer(runtime: ProcessRuntime, session: string, character: string, ghost rt: Runtime)
    requires runtime.Valid() && ClaimsAgree(runtime) && runtime.broadcast != null && runtime.Value() == rt
    modifies runtime.broadcast`controller, runtime.broadcast.assignments, runtime.broadcast.claimants
    ensures var b := rt.broadcast.value;
            var from := Claims.OwnerOf(b, character);
            var freed := if from.None? then b
                         else b.(assignments := b.assignments - {from.value},
                                 controller := Claims.ReleaseControl(b.controller, from.value));
            runtime.Value() == Claims.WithBroadcast(rt, Claims.Claimed(freed, session, character))
  {
    var owner := CharacterOwner(runtime.broadcast, character);
    BroadcastStays(runtime.broadcast);
    TransferClaim(runtime.broadcast, owner, session, character);
    SessionsStay(runtime.sessions);
  }

  method MoveCharacter(runtime: ProcessRuntime, character: string, session: string) returns (verdict: Verdict)
    requires runtime.Valid() && ClaimsAgree(runtime)
    modifies BroadcastOwn(runtime.broadcast)
    ensures Sealed(runtime)
    ensures Carries(Claims.Move(old(runtime.Value()), character, session), verdict, runtime.Value())
  {
    var ok := CanMove(runtime, character, session);
    RuntimeStays(runtime);
    SameIsSealed(runtime);
    if !ok {
      return REFUSED;
    }
    ghost var rt := runtime.Value();
    Transfer(runtime, session, character, rt);
    SameIsSealed(runtime);
    return ACCEPTED;
  }

  method PutController(runtime: ProcessRuntime, session: string)
    requires runtime.Valid() && runtime.broadcast != null
    modifies runtime.broadcast`controller
    ensures var rt := old(runtime.Value());
            runtime.Value() == rt.(broadcast := Some(rt.broadcast.value.(controller := Some(session))))
  {
    runtime.broadcast.controller := Some(session);
    TerminalsStay(runtime.broadcast.terminals);
    SessionsStay(runtime.sessions);
  }

  method SetActiveController(runtime: ProcessRuntime, session: string) returns (verdict: Verdict)
    requires runtime.Valid()
    modifies BroadcastOwn(runtime.broadcast)
    ensures Sealed(runtime)
    ensures Carries(Claims.SetController(old(runtime.Value()), session), verdict, runtime.Value())
  {
    var broadcast := runtime.broadcast;
    if broadcast == null || session !in runtime.sessions {
      return REFUSED;
    }
    var plays := SessionAssigned(broadcast, session);
    RuntimeStays(runtime);
    if !plays || runtime.sessions[session].connections.members == {} || broadcast.controller == Some(session) {
      return REFUSED;
    }
    PutController(runtime, session);
    SameIsSealed(runtime);
    return ACCEPTED;
  }

  // ---------------------------------------------------------------- selection by a player

  method RefuseSelection(runtime: ProcessRuntime, s: Claims.Selection, reason: Reason, limit: nat)
    returns (result: ActionResult, verdict: Verdict)
    requires runtime.Valid()
    modifies runtime.Repr()
    ensures SameObjects(runtime)
    ensures var reply := Claims.RefuseSelection(old(runtime.Value()), s, reason, limit);
            result == reply.result && Carries(reply.change, verdict, runtime.Value())
  {
    result := ActionResult(s.requestId, false, reason, runtime.revision);
    StoreRequestResult(runtime, s.session, s.requestId, ResultRecord(Claims.SelectionFingerprint(s), result), limit);
    return result, Verdict(false, true, []);
  }

  method SelectCharacter(runtime: ProcessRuntime, s: Claims.Selection, limit: nat)
    returns (result: ActionResult, verdict: Verdict)
    requires runtime.Valid()
    modifies runtime.Repr()
    ensures Sealed(runtime)
    ensures var reply := Claims.Choose(old(runtime.Value()), s, limit);
            result == reply.result && Carries(reply.change, verdict, runtime.Value())
  {
    result := ActionResult(s.requestId, false, InvalidSession, runtime.revision);
    SameIsSealed(runtime);
    if s.session !in runtime.sessions {
      return result, REFUSED;
    }
    var session := runtime.sessions[s.session];
    if s.requestId == "" {
      return result.(reason := InvalidAction), REFUSED;
    }
    if session.connections.members == {} {
      return result, REFUSED;
    }
    if s.requestId in session.results.records {
      var cached := session.results.records[s.requestId];
      if cached.fingerprint == Claims.SelectionFingerprint(s) {
        return cached.result, REFUSED;
      }
      return result.(reason := Duplicate), REFUSED;
    }
    if s.character == "" {
      result, verdict := RefuseSelection(runtime, s, InvalidAction, limit);
      SameIsSealed(runtime);
      return;
    }
    var broadcast := runtime.broadcast;
    if broadcast == null || broadcast.id != s.broadcastId {
      return result.(reason := StaleBroadcast), REFUSED;
    }
    if s.session in broadcast.assignments.entries || s.character !in runtime.roster.byId ||
        s.character in broadcast.claimants.entries {
      result, verdict := RefuseSelection(runtime, s, Conflict, limit);
      SameIsSealed(runtime);
      return;
    }
    result := AcceptSelection(runtime, s, limit);
    SameIsSealed(runtime);
    return result, ACCEPTED;
  }

  method AcceptSelection(runtime: ProcessRuntime, s: Claims.Selection, limit: nat) returns (result: ActionResult)
    requires runtime.Valid() && runtime.broadcast != null
    modifies runtime.Repr()
    ensures SameObjects(runtime)
    ensures result == ActionResult(s.requestId, true, AcceptedAction, old(runtime.revision) + 1)
    ensures var rt := old(runtime.Value());
            var b := Claims.Claimed(rt.broadcast.value, s.session, s.character);
            var control := if b.controller.None? then Some(s.session) else b.controller;
            runtime.Value() == Sessions.StoreResult(Claims.WithBroadcast(rt, b.(controller := control)), s.session,
                                                    s.requestId,
                                                    ResultRecord(Claims.SelectionFingerprint(s), result), limit)
  {
    GiveClaim(runtime, s.session, s.character, runtime.broadcast.controller == None);
    result := ActionResult(s.requestId, true, AcceptedAction, runtime.revision + 1);
    StoreRequestResult(runtime, s.session, s.requestId, ResultRecord(Claims.SelectionFingerprint(s), result), limit);
  }
}
