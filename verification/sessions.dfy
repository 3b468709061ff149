/** Recognised sessions: their connections, names, tokens and replay caches. */
module Sessions {
  import opened Domain
  import opened State
  import opened Changes
  import Text

  const MAX_NAME := 80

  predicate Connected(session: Session) {
    session.connections != {}
  }

  function Names(rt: Runtime): set<string> {
    set id | id in rt.sessions :: rt.sessions[id].fallbackName
  }

  function Rename(rt: Runtime, id: string, name: string): Change {
    var trimmed := Text.Trim(name);
    if trimmed == "" || |trimmed| > MAX_NAME || id !in rt.sessions then Reject([])
    else if rt.sessions[id].fallbackName == trimmed then Reject([])
    else if exists other :: other in rt.sessions && other != id && rt.sessions[other].fallbackName == trimmed
        then Reject([])
    else Accept(PutSession(rt, id, rt.sessions[id].(fallbackName := trimmed)), [])
  }

  function PutSession(rt: Runtime, id: string, session: Session): Runtime {
    rt.(sessions := rt.sessions[id := session])
  }

  // ---------------------------------------------------------------- connections

  function Owners(rt: Runtime, connection: string): set<string> {
    set id | id in rt.sessions && connection in rt.sessions[id].connections
  }

  /** The session a connection belongs to: the first in identifier order. */
  ghost function Owner(rt: Runtime, connection: string): Option<string> {
    if Owners(rt, connection) == {} then None else Some(Text.Least(Owners(rt, connection)))
  }

  function WithoutConnection(sessions: map<string, Session>, connection: string, kept: string): map<string, Session> {
    map id | id in sessions ::
      if id == kept then sessions[id] else sessions[id].(connections := sessions[id].connections - {connection})
  }

  predicate Recognised(rt: Runtime, token: string) {
    token != "" && token in rt.tokens && rt.tokens[token] in rt.sessions
  }

  /** A connection that presents a known token joins that session; any other gets a
      new session, token and fallback name. */
  ghost function Attach(rt: Runtime, connection: string, token: string, newSession: string, newToken: string): Change {
    if connection == "" then Reject([])
    else if !Recognised(rt, token) then
      var joined := Session(newSession, Text.LeastFreeName(Names(rt)), {connection}, map[], false);
      Accept(
        rt.(sessions := WithoutConnection(rt.sessions, connection, newSession)[newSession := joined],
            tokens := rt.tokens[newToken := newSession]), [])
    else
      var id := rt.tokens[token];
      if connection in rt.sessions[id].connections then Reject([])
      else
        var others := WithoutConnection(rt.sessions, connection, id);
        Accept(
          rt.(sessions := others[id := others[id].(connections := others[id].connections + {connection})]), [])
  }

  ghost function Detach(rt: Runtime, connection: string): Change {
    if connection == "" || Owner(rt, connection).None? then Reject([])
    else
      var id := Owner(rt, connection).value;
      Accept(PutSession(rt, id, rt.sessions[id].(connections := rt.sessions[id].connections - {connection})), [])
  }

  // ---------------------------------------------------------------- replay cache

  ghost function Stored(results: map<string, ResultRecord>, requestId: string, record: ResultRecord, limit: nat)
    : map<string, ResultRecord>
  {
    var room := if requestId !in results && |results| >= limit && results.Keys != {}
                then results - {Text.Least(results.Keys)} else results;
    room[requestId := record]
  }

  ghost function StoreResult(rt: Runtime, id: string, requestId: string, record: ResultRecord, limit: nat): Runtime {
    if id !in rt.sessions then rt
    else PutSession(rt, id, rt.sessions[id].(results := Stored(rt.sessions[id].results, requestId, record, limit)))
  }

  function ClearResults(rt: Runtime): Runtime {
    rt.(sessions := map id | id in rt.sessions :: rt.sessions[id].(results := map[]))
  }

  /** Storing never exceeds the bound, keeps the new record, and when the cache is
      full gives up exactly the smallest identifier. */
  lemma StoringIsBounded(results: map<string, ResultRecord>, requestId: string, record: ResultRecord, limit: nat)
    requires limit >= 1 && |results| <= limit
    ensures var after := Stored(results, requestId, record, limit);
            && |after| <= limit
            && requestId in after && after[requestId] == record
            && (forall id :: id in after && id != requestId ==> id in results && after[id] == results[id])
            && (forall id :: id in results && id !in after ==>
                  |results| == limit && requestId !in results && Text.IsLeast(id, results.Keys))
            && (|results| == limit && requestId !in results ==> |results.Keys - after.Keys| == 1)
  {
    var after := Stored(results, requestId, record, limit);
    if requestId !in results && |results| >= limit {
      assert results.Keys != {};
      var least := Text.Least(results.Keys);
      assert after.Keys == results.Keys - {least} + {requestId};
      assert results.Keys - after.Keys == {least};
    } else if requestId in results {
      assert after.Keys == results.Keys;
    } else {
      assert after.Keys == results.Keys + {requestId};
    }
  }
}
