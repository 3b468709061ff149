/** Sessions and their connections, changed in place on a working copy. */
module SessionSteps {
  import opened Domain
  import opened State
  import opened Changes
  import opened Heap
  import Sessions
  import Text

  // ---------------------------------------------------------------- names

  method NameInUse(sessions: map<string, LogicalSession>, id: string, name: string) returns (taken: bool)
    ensures var values := SessionValues(sessions);
            taken <==> exists other :: other in values && other != id && values[other].fallbackName == name
  {
    ghost var values := SessionValues(sessions);
    var rest := sessions.Keys;
    while rest != {}
      invariant rest <= sessions.Keys
      invariant forall other :: other in values && other !in rest && other != id ==> values[other].fallbackName != name
      decreases rest
    {
      var other :| other in rest;
      assert values[other] == sessions[other].Value();
      if other != id && sessions[other].fallbackName == name {
        return true;
      }
      rest := rest - {other};
    }
    return false;
  }

  method CanRename(runtime: ProcessRuntime, id: string, name: string) returns (ok: bool)
    requires runtime.Valid()
    ensures ok <==> !Sessions.Rename(runtime.Value(), id, name).Reject?
  {
    var trimmed := Text.Trim(name);
    if trimmed == "" || |trimmed| > Sessions.MAX_NAME || id !in runtime.sessions {
      return false;
    }
    if runtime.sessions[id].fallbackName == trimmed {
      return false;
    }
    var taken := NameInUse(runtime.sessions, id, trimmed);
    return !taken;
  }

  method RenameLogicalSession(runtime: ProcessRuntime, id: string, name: string) returns (verdict: Verdict)
    requires runtime.Valid()
    modifies runtime.sessions.Values
    ensures Sealed(runtime)
    ensures Carries(Sessions.Rename(old(runtime.Value()), id, name), verdict, runtime.Value())
  {
    var ok := CanRename(runtime, id, name);
    RuntimeStays(runtime);
    if !ok {
      return REFUSED;
    }
    PutName(runtime, id, Text.Trim(name));
    SameIsSealed(runtime);
    return ACCEPTED;
  }

  method NameAt(sessions: map<string, LogicalSession>, id: string, name: string)
    requires SessionsApart(sessions) && id in sessions
    modifies sessions.Values
    ensures var values := old(SessionValues(sessions));
            SessionValues(sessions) == values[id := values[id].(fallbackName := name)]
  {
    hide SessionValues, SessionsApart;
    var session := sessions[id];
    session.fallbackName := name;
    OnlySession(sessions, id, session);
  }

  method PutName(runtime: ProcessRuntime, id: string, name: string)
    requires runtime.Valid() && id in runtime.sessions
    modifies runtime.sessions.Values
    ensures var rt := old(runtime.Value());
            runtime.Value() == Sessions.PutSession(rt, id, rt.sessions[id].(fallbackName := name))
  {
    NameAt(runtime.sessions, id, name);
    BroadcastStays(runtime.broadcast);
  }

  // ---------------------------------------------------------------- connections

  /** The owner of a connection, looked for in identifier order. */
  method SessionForConnection(runtime: ProcessRuntime, connection: string) returns (owner: Option<string>)
    ensures owner == Sessions.Owner(runtime.Value(), connection)
  {
    ghost var owners := Sessions.Owners(runtime.Value(), connection);
    var rest := runtime.sessions.Keys;
    while rest != {}
      invariant rest <= runtime.sessions.Keys && owners <= rest
      decreases rest
    {
      var id := Text.FindLeast(rest);
      if connection in runtime.sessions[id].connections.members {
        assert id in owners;
        assert Text.IsLeast(id, owners);
        Text.LeastIsUnique(id, Text.Least(owners), owners);
        RuntimeStays(runtime);
        return Some(id);
      }
      rest := rest - {id};
    }
    assert owners == {};
    RuntimeStays(runtime);
    return None;
  }

  method DropAt(sessions: map<string, LogicalSession>, id: string, connection: string)
    requires SessionsApart(sessions) && id in sessions
    modifies ConnectionSets(sessions)
    ensures var values := old(SessionValues(sessions));
            SessionValues(sessions) == values[id := values[id].(connections := values[id].connections - {connection})]
  {
    ConnectionsAt(sessions, id, sessions[id].connections.members - {connection});
  }

  // The sessions in `todo` still have the connection.
  function DroppedBut(values: map<string, Session>, connection: string, kept: string,
                      todo: set<string>): map<string, Session> {
    map id | id in values ::
      if id == kept || id in todo then values[id] else values[id].(connections := values[id].connections - {connection})
  }

  lemma DroppedEnds(values: map<string, Session>, connection: string, kept: string)
    ensures DroppedBut(values, connection, kept, values.Keys) == values
    ensures DroppedBut(values, connection, kept, {}) == Sessions.WithoutConnection(values, connection, kept)
  {
  }

  lemma DroppedOne(values: map<string, Session>, connection: string, kept: string, todo: set<string>, id: string)
    requires id in todo && todo <= values.Keys
    ensures var now := DroppedBut(values, connection, kept, todo);
            && id in now && now[id] == values[id]
            && DroppedBut(values, connection, kept, todo - {id})
               == if id == kept then now else now[id :=
                                                  values[id].(connections := values[id].connections - {connection})]
  {
  }

  method RemoveConnectionFromOtherSessions(sessions: map<string, LogicalSession>, connection: string, kept: string)
    requires SessionsApart(sessions)
    modifies ConnectionSets(sessions)
    ensures SessionValues(sessions) == Sessions.WithoutConnection(old(SessionValues(sessions)), connection, kept)
  {
    ghost var values := SessionValues(sessions);
    assert values.Keys == sessions.Keys;
    hide SessionValues, SessionsApart, ConnectionSets, DroppedBut;
    DroppedEnds(values, connection, kept);
    var rest := sessions.Keys;
    while rest != {}
      invariant rest <= sessions.Keys && SessionValues(sessions) == DroppedBut(values, connection, kept, rest)
      decreases rest
    {
      var id :| id in rest;
      DroppedOne(values, connection, kept, rest, id);
      if id != kept {
        DropAt(sessions, id, connection);
      }
      rest := rest - {id};
    }
  }

  method UsedNames(sessions: map<string, LogicalSession>) returns (used: set<string>)
    ensures var values := SessionValues(sessions);
            used == set id | id in values :: values[id].fallbackName
  {
    ghost var values := SessionValues(sessions);
    used := {};
    var rest := sessions.Keys;
    while rest != {}
      invariant rest <= sessions.Keys
      invariant used == set id | id in values && id !in rest :: values[id].fallbackName
      decreases rest
    {
      var id :| id in rest;
      assert values[id] == sessions[id].Value();
      used := used + {sessions[id].fallbackName};
      rest := rest - {id};
    }
  }

  method NextFallbackName(runtime: ProcessRuntime) returns (name: string)
    ensures name == Text.LeastFreeName(Sessions.Names(runtime.Value()))
  {
    var used := UsedNames(runtime.sessions);
    assert used == Sessions.Names(runtime.Value());
    name := Text.NextFallbackName(used);
    ghost var number: nat :| Text.IsLeastFree(used, number) && name == Text.PlayerName(number);
    Text.LeastFreeNameIsLeast(used, number);
  }

  method JoinSession(runtime: ProcessRuntime, connection: string, id: string, token: string)
    requires runtime.Valid() && id !in runtime.sessions
    modifies runtime`sessions, runtime.tokens, ConnectionSets(runtime.sessions)
    ensures Sealed(runtime)
    ensures var rt := old(runtime.Value());
            var joined := Session(id, Text.LeastFreeName(Sessions.Names(rt)), {connection}, map[], false);
            runtime.Value() == rt.(
              sessions := Sessions.WithoutConnection(rt.sessions, connection, id)[id := joined],
              tokens := rt.tokens[token := id])
  {
    var name := NextFallbackName(runtime);
    RuntimeStays(runtime);
    DropElsewhere(runtime, connection, id);
    label Dropped:
    var session := new LogicalSession(Session(id, name, {connection}, map[], false));
    RuntimeStays@Dropped(runtime);
    AddSession(runtime, session, token);
  }

  lemma Added(sessions: map<string, LogicalSession>, session: LogicalSession)
    requires SessionsApart(sessions) && forall other :: other in sessions ==> !Share(sessions[other], session)
    ensures SessionsApart(sessions[session.id := session])
    ensures SessionValues(sessions[session.id := session]) == SessionValues(sessions)[session.id := session.Value()]
  {
    var after := sessions[session.id := session];
    forall a, b | a in after && b in after && Share(after[a], after[b]) ensures a == b {
      assert a != session.id && b != session.id ==> Share(sessions[a], sessions[b]);
    }
  }

  method AddSession(runtime: ProcessRuntime, session: LogicalSession, token: string)
    requires runtime.Valid() && session.id !in runtime.sessions
    requires session !in runtime.sessions.Values && session.connections !in ConnectionSets(runtime.sessions)
    requires session.results !in ResultCaches(runtime.sessions)
    modifies runtime`sessions, runtime.tokens
    ensures runtime.Valid() && runtime.broadcast == old(runtime.broadcast)
    ensures runtime.sessions == old(runtime.sessions)[session.id := session]
    ensures var rt := old(runtime.Value());
            runtime.Value() == rt.(sessions := rt.sessions[session.id := session.Value()],
                                   tokens := rt.tokens[token := session.id])
  {
    hide SessionValues, TerminalValues, SessionsApart, TerminalsApart;
    ghost var before := runtime.sessions;
    Added(runtime.sessions, session);
    runtime.tokens.entries := runtime.tokens.entries[token := session.id];
    runtime.sessions := runtime.sessions[session.id := session];
    SessionsStay(before);
    BroadcastStays(runtime.broadcast);
    SessionsStay(runtime.sessions);
  }

  method TakeOverConnection(runtime: ProcessRuntime, connection: string, id: string)
    requires runtime.Valid() && id in runtime.sessions
    modifies ConnectionSets(runtime.sessions)
    ensures var rt := old(runtime.Value());
            var others := Sessions.WithoutConnection(rt.sessions, connection, id);
            runtime.Value() == rt.(sessions :=
                                   others[id := others[id].(connections := others[id].connections + {connection})])
  {
    DropElsewhere(runtime, connection, id);
    ChangeConnections(runtime, id, runtime.sessions[id].connections.members + {connection});
  }

  method DropElsewhere(runtime: ProcessRuntime, connection: string, kept: string)
    requires runtime.Valid()
    modifies ConnectionSets(runtime.sessions)
    ensures var rt := old(runtime.Value());
            runtime.Value() == rt.(sessions := Sessions.WithoutConnection(rt.sessions, connection, kept))
  {
    RemoveConnectionFromOtherSessions(runtime.sessions, connection, kept);
    BroadcastStays(runtime.broadcast);
  }

  method ConnectionsAt(sessions: map<string, LogicalSession>, id: string, members: set<string>)
    requires SessionsApart(sessions) && id in sessions
    modifies ConnectionSets(sessions)
    ensures var values := old(SessionValues(sessions));
            SessionValues(sessions) == values[id := values[id].(connections := members)]
  {
    hide SessionValues, SessionsApart;
    var session := sessions[id];
    session.connections.members := members;
    OnlySession(sessions, id, session);
  }

  method ChangeConnections(runtime: ProcessRuntime, id: string, members: set<string>)
    requires runtime.Valid() && id in runtime.sessions
    modifies ConnectionSets(runtime.sessions)
    ensures var rt := old(runtime.Value());
            runtime.Value() == Sessions.PutSession(rt, id, rt.sessions[id].(connections := members))
  {
    ConnectionsAt(runtime.sessions, id, members);
    BroadcastStays(runtime.broadcast);
  }

  method AttachConnection(runtime: ProcessRuntime, connection: string, token: string, newSession: string,
                          newToken: string)
    returns (verdict: Verdict)
    requires runtime.Valid() && newSession !in runtime.sessions
    modifies runtime`sessions, runtime.tokens, ConnectionSets(runtime.sessions)
    ensures Sealed(runtime)
    ensures Carries(Sessions.Attach(old(runtime.Value()), connection, token, newSession, newToken), verdict,
                    runtime.Value())
  {
    if connection == "" {
      return REFUSED;
    }
    var tokens := runtime.tokens.entries;
    if token == "" || token !in tokens || tokens[token] !in runtime.sessions {
      JoinSession(runtime, connection, newSession, newToken);
      return ACCEPTED;
    }
    var id := tokens[token];
    if connection in runtime.sessions[id].connections.members {
      return REFUSED;
    }
    TakeOverConnection(runtime, connection, id);
    SameIsSealed(runtime);
    return ACCEPTED;
  }

  method DetachConnection(runtime: ProcessRuntime, connection: string) returns (verdict: Verdict)
    requires runtime.Valid()
    modifies ConnectionSets(runtime.sessions)
    ensures Sealed(runtime)
    ensures Carries(Sessions.Detach(old(runtime.Value()), connection), verdict, runtime.Value())
  {
    if connection == "" {
      return REFUSED;
    }
    var owner := SessionForConnection(runtime, connection);
    RuntimeStays(runtime);
    if owner.None? {
      return REFUSED;
    }
    assert owner.value in Sessions.Owners(runtime.Value(), connection);
    ChangeConnections(runtime, owner.value, runtime.sessions[owner.value].connections.members - {connection});
    SameIsSealed(runtime);
    return ACCEPTED;
  }
}
