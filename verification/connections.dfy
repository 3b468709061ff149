/** Every connection belongs to one session, so counting streams session by session
    counts connections. */
module Connections {
  import opened Domain
  import opened State
  import opened Changes
  import opened Sessions
  import opened Invariants
  import Text

  function Attached(sessions: map<string, Session>, ids: set<string>): set<string>
    requires ids <= sessions.Keys
  {
    set id, connection | id in ids && connection in sessions[id].connections :: connection
  }

  lemma OneMore(sessions: map<string, Session>, seen: set<string>, id: string)
    requires Distinct(sessions) && seen <= sessions.Keys && id in sessions && id !in seen
    ensures |Attached(sessions, seen + {id})| == |Attached(sessions, seen)| + |sessions[id].connections|
  {
    assert Attached(sessions, seen + {id}) == Attached(sessions, seen) + sessions[id].connections;
    assert Attached(sessions, seen) !! sessions[id].connections;
  }

  /** The sum over sessions, taken in any order, is the number of distinct connections. */
  method ActiveStreamCount(sessions: map<string, Session>) returns (count: nat)
    requires Distinct(sessions)
    ensures count == |Attached(sessions, sessions.Keys)|
  {
    count := 0;
    var rest := sessions.Keys;
    assert Attached(sessions, sessions.Keys - rest) == {};
    while rest != {}
      invariant rest <= sessions.Keys
      invariant count == |Attached(sessions, sessions.Keys - rest)|
      decreases rest
    {
      var id :| id in rest;
      OneMore(sessions, sessions.Keys - rest, id);
      assert sessions.Keys - (rest - {id}) == sessions.Keys - rest + {id};
      count := count + |sessions[id].connections|;
      rest := rest - {id};
    }
    assert sessions.Keys - rest == sessions.Keys;
  }

  // The sessions after `joined` took a connection over from whoever had it.
  ghost predicate Moved(before: map<string, Session>, after: map<string, Session>, connection: string, joined: string) {
    && after.Keys == before.Keys + {joined}
    && connection in after[joined].connections
    && forall id :: id in after ==>
         && (id != joined ==> connection !in after[id].connections)
         && (forall other :: other != connection ==>
               (other in after[id].connections <==> id in before && other in before[id].connections))
  }

  lemma TakingOverMoves(before: map<string, Session>, connection: string, joined: string, session: Session)
    requires session.connections == (if joined in before then before[joined].connections else {}) + {connection}
    ensures Moved(before, WithoutConnection(before, connection, joined)[joined := session], connection, joined)
  {
  }

  lemma MovedIsAttached(before: map<string, Session>, after: map<string, Session>, connection: string, joined: string)
    requires Moved(before, after, connection, joined)
    ensures Attached(after, after.Keys) == Attached(before, before.Keys) + {connection}
  {
    forall c | c in Attached(before, before.Keys) ensures c in Attached(after, after.Keys) {
      var id :| id in before && c in before[id].connections;
      assert c != connection ==> c in after[id].connections;
      assert connection in after[joined].connections;
    }
    assert joined in after.Keys && connection in Attached(after, after.Keys);
  }

  /** Attaching moves a connection to exactly one session and adds no other; nobody
      else's connections change. */
  lemma AttachMovesConnection(rt: Runtime, connection: string, token: string, newSession: string, newToken: string)
    requires newSession !in rt.sessions && Attach(rt, connection, token, newSession, newToken).Accept?
    ensures var after := Attach(rt, connection, token, newSession, newToken).rt;
            var joined := if Recognised(rt, token) then rt.tokens[token] else newSession;
            && Moved(rt.sessions, after.sessions, connection, joined)
            && Owners(after, connection) == {joined}
            && Attached(after.sessions, after.sessions.Keys) == Attached(rt.sessions, rt.sessions.Keys) + {connection}
  {
    var after := Attach(rt, connection, token, newSession, newToken).rt;
    var joined := if Recognised(rt, token) then rt.tokens[token] else newSession;
    TakingOverMoves(rt.sessions, connection, joined, after.sessions[joined]);
    MovedIsAttached(rt.sessions, after.sessions, connection, joined);
  }

  /** Detaching takes a connection from the only session that had it. */
  lemma DetachRemovesConnection(rt: Runtime, connection: string, limit: nat)
    requires Inv(rt, limit) && Detach(rt, connection).Accept?
    ensures var after := Detach(rt, connection).rt;
            && Owners(after, connection) == {}
            && after.sessions.Keys == rt.sessions.Keys
            && Attached(after.sessions, after.sessions.Keys) == Attached(rt.sessions, rt.sessions.Keys) - {connection}
  {
    var id := Owner(rt, connection).value;
    assert id in Owners(rt, connection);
    DroppingRemoves(rt.sessions, connection, id);
  }

  lemma DroppingRemoves(sessions: map<string, Session>, connection: string, id: string)
    requires Distinct(sessions) && id in sessions && connection in sessions[id].connections
    ensures var after := sessions[id := sessions[id].(connections := sessions[id].connections - {connection})];
            && (forall s :: s in after ==> connection !in after[s].connections)
            && after.Keys == sessions.Keys
            && Attached(after, after.Keys) == Attached(sessions, sessions.Keys) - {connection}
  {
    var after := sessions[id := sessions[id].(connections := sessions[id].connections - {connection})];
    forall c | c in Attached(sessions, sessions.Keys) && c != connection ensures c in Attached(after, after.Keys) {
      var other :| other in sessions && c in sessions[other].connections;
      assert c in after[other].connections;
    }
  }
}
