/** Who is there and whom they can play: sessions and their connections, the roster, the
    ends of a broadcast, and who is told about it. */
module Lobby {
  import opened Domain
  import opened State
  import opened Changes
  import opened Sessions
  import opened Claims
  import opened Views
  import opened Coordinator
  import opened Invariants
  import opened Ownership
  import Disclosure
  import Dispatch
  import Homeward
  import Text

  // ---------------------------------------------------------------- names and connections

  /** A session takes a name exactly if nobody has it; the name is all that changes. */
  lemma RenamesExactly(rt: Runtime, env: Env, id: string, name: string)
    ensures var trimmed := Text.Trim(name);
            Execute(rt, env, OnSession(RenameSession(id, name))) ==
            if id in rt.sessions && 0 < |trimmed| <= 80
               && forall other :: other in rt.sessions ==> rt.sessions[other].fallbackName != trimmed
            then Accept(rt.(sessions := rt.sessions[id := rt.sessions[id].(fallbackName := trimmed)]), [])
                else Reject([])
  {
  }

  predicate SameButConnections(before: Session, after: Session) {
    after.(connections := before.connections) == before
  }

  /** A known token brings a connection back to its session, which keeps its name, its
      answers and its notice; whoever had the connection loses it, and there is no new
      session. It is refused only if the connection is there already. */
  lemma KnownTokenComesBack(rt: Runtime, env: Env, connection: string, token: string, newSession: string,
                            newToken: string,
                            limit: nat)
    requires Inv(rt, limit) && connection != "" && token in rt.tokens
    ensures rt.tokens[token] in rt.sessions
    ensures var id, change := rt.tokens[token],
            Execute(rt, env, OnSession(AttachConnection(connection, token, newSession, newToken)));
            && (change.Accept? <==> connection !in rt.sessions[id].connections)
            && (change.Accept? ==>
                  && change.rt.sessions.Keys == rt.sessions.Keys && change.rt.(sessions := rt.sessions) == rt
                  && (forall s :: s in rt.sessions ==> SameButConnections(rt.sessions[s], change.rt.sessions[s])))
  {
    hide ExecuteTerminal, ExecuteDecision, ExecuteSetup, ExecuteClaim, Dispatch.DispatchAction;
  }

  /** Any other connection gets a session of its own, under the least number not in use,
      and a token to come back with. */
  lemma NewcomersGetSession(rt: Runtime, env: Env, connection: string, token: string, newSession: string,
                            newToken: string,
                            limit: nat)
    returns (number: nat)
    requires Inv(rt, limit) && connection != "" && token !in rt.tokens
    requires newSession !in rt.sessions && newToken !in rt.tokens
    ensures number >= 1 && Text.PlayerName(number) !in Sessions.Names(rt)
    ensures forall k: nat :: 1 <= k < number ==> Text.PlayerName(k) in Sessions.Names(rt)
    ensures var change := Execute(rt, env, OnSession(AttachConnection(connection, token, newSession, newToken)));
            && change.Accept? && change.rt.sessions.Keys == rt.sessions.Keys + {newSession}
            && change.rt.sessions[newSession] ==
               Session(newSession, Text.PlayerName(number), {connection}, map[], false)
            && change.rt.tokens == rt.tokens[newToken := newSession]
            && change.rt.(sessions := rt.sessions, tokens := rt.tokens) == rt
            && forall s :: s in rt.sessions ==> SameButConnections(rt.sessions[s], change.rt.sessions[s])
  {
    hide ExecuteTerminal, ExecuteDecision, ExecuteSetup, ExecuteClaim, Dispatch.DispatchAction;
    Text.LeastFreeExists(Sessions.Names(rt));
    number :| Text.IsLeastFree(Sessions.Names(rt), number);
    Text.LeastFreeNameIsLeast(Sessions.Names(rt), number);
  }

  /** Detaching takes the connection from the session that has it, which stays. */
  lemma DetachesExactly(rt: Runtime, env: Env, connection: string, session: string, limit: nat)
    requires Inv(rt, limit) && session in rt.sessions && connection in rt.sessions[session].connections
    ensures var change, s := Execute(rt, env, OnSession(DetachConnection(connection))), rt.sessions[session];
            change == if connection == "" then Reject([])
                      else Accept(rt.(sessions :=
                                      rt.sessions[session := s.(connections := s.connections - {connection})]), [])
  {
    Homeward.OwnerOfConnection(rt, connection, session);
  }

  // ---------------------------------------------------------------- the roster

  /** The roster as the players see it: characters in the authored order, each once. */
  predicate ListedAs(rt: Runtime, list: seq<Character>) {
    && |rt.rosterOrder| == |list| && Once(list)
    && (forall i :: 0 <= i < |list| ==> rt.rosterOrder[i] == list[i].id)
    && (forall i :: 0 <= i < |list| ==> list[i].id in rt.roster && rt.roster[list[i].id] == list[i])
    && (forall id :: id in rt.roster ==> id in rt.rosterOrder)
  }

  predicate Once(list: seq<Character>) {
    forall i, k :: 0 <= i < k < |list| ==> list[i].id != list[k].id
  }

  // Nothing but the roster and where it is saved.
  predicate RosterOnly(rt: Runtime, after: Runtime, saved: Option<ConfigHandle>) {
    after.(roster := rt.roster, rosterOrder := rt.rosterOrder, config := rt.config) == rt && after.config == saved
  }

  lemma {:induction false} MapLists(list: seq<Character>)
    requires Once(list)
    ensures forall i :: 0 <= i < |list| ==> list[i].id in RosterMap(list) && RosterMap(list)[list[i].id] == list[i]
    ensures forall id :: id in RosterMap(list) ==> id in Claims.RosterIds(list)
  {
    if list != [] {
      var init := list[..|list| - 1];
      MapLists(init);
      assert forall i :: 0 <= i < |init| ==> list[i] == init[i];
      assert Claims.RosterIds(list) == Claims.RosterIds(init) + [list[|list| - 1].id];
    }
  }

  /** Outside a broadcast a valid configuration with a path replaces the roster as it is
      written, and it can be removed altogether. */
  lemma InstallsExactly(rt: Runtime, env: Env, handle: ConfigHandle, list: seq<Character>, valid: bool)
    requires valid ==> Once(list)
    ensures Execute(rt, env, Setup(InstallPlayerConfig(handle, list, valid))).Accept? <==>
            valid && !Text.Blank(handle.path) && rt.broadcast.None?
    ensures Execute(rt, env, Setup(InstallPlayerConfig(handle, list, valid))).Accept? ==>
              ListedAs(Execute(rt, env, Setup(InstallPlayerConfig(handle, list, valid))).rt, list)
              && RosterOnly(rt, Execute(rt, env, Setup(InstallPlayerConfig(handle, list, valid))).rt, Some(handle))
    ensures Execute(rt, env, Setup(ClearPlayerConfig)).Accept? <==> rt.broadcast.None?
    ensures Execute(rt, env, Setup(ClearPlayerConfig)).Accept? ==>
            ListedAs(Execute(rt, env, Setup(ClearPlayerConfig)).rt, []) &&
                RosterOnly(rt, Execute(rt, env, Setup(ClearPlayerConfig)).rt, None)
  {
    hide ExecuteTerminal, ExecuteDecision, ExecuteSession, ExecuteClaim, Dispatch.DispatchAction;
    if valid {
      MapLists(list);
    }
  }

  /** An edit of the roster needs the revision it was made against, a configuration, no
      broadcast, and a saved file. */
  predicate Editable(rt: Runtime, expected: nat, saved: Option<ConfigHandle>) {
    expected == rt.revision && rt.config.Some? && rt.broadcast.None? && saved.Some?
  }

  /** A new character is listed last. */
  lemma AddsExactly(rt: Runtime, env: Env, expected: nat, entry: Character, valid: bool, saved: Option<ConfigHandle>,
                    list: seq<Character>)
    requires ListedAs(rt, list) && (valid ==> Once(list + [entry]))
    ensures var change := Execute(rt, env, Setup(AddCharacterOp(expected, entry, valid, saved)));
            && (change.Accept? <==> Editable(rt, expected, saved) && valid)
            && (change.Accept? ==> ListedAs(change.rt, list + [entry]) && RosterOnly(rt, change.rt, saved))
  {
    hide ExecuteTerminal, ExecuteDecision, ExecuteSession, ExecuteClaim, Dispatch.DispatchAction;
    assert (list + [entry])[|list|] == entry;
    if valid {
      forall i | 0 <= i < |list| ensures list[i].id != entry.id {
        assert (list + [entry])[i].id != (list + [entry])[|list|].id;
      }
    }
  }

  /** A changed character keeps its place. */
  lemma UpdatesExactly(rt: Runtime, env: Env, expected: nat, entry: Character, valid: bool, saved: Option<ConfigHandle>,
                       list: seq<Character>, i: nat)
    requires ListedAs(rt, list) && i < |list| && list[i].id == entry.id
    ensures var change := Execute(rt, env, Setup(UpdateCharacterOp(expected, entry, valid, saved)));
            && (change.Accept? <==> Editable(rt, expected, saved) && valid && list[i] != entry)
            && (change.Accept? ==> ListedAs(change.rt, list[i := entry]) && RosterOnly(rt, change.rt, saved))
  {
    hide ExecuteTerminal, ExecuteDecision, ExecuteSession, ExecuteClaim, Dispatch.DispatchAction;
  }

  lemma {:induction false} WithoutSkips(order: seq<string>, i: nat)
    requires i < |order| && forall a, b :: 0 <= a < b < |order| ==> order[a] != order[b]
    ensures Without(order, order[i]) == order[..i] + order[i + 1..]
    decreases |order|
  {
    if i == 0 {
      WithoutAbsent(order[1..], order[0]);
      assert order[..0] == [];
    } else {
      WithoutSkips(order[1..], i - 1);
      assert order[1..][..i - 1] == order[1..i] && order[1..][i..] == order[i + 1..];
      assert order[..i] == [order[0]] + order[1..i];
    }
  }

  lemma {:induction false} WithoutAbsent(order: seq<string>, id: string)
    requires id !in order
    ensures Without(order, id) == order
  {
    if order != [] {
      WithoutAbsent(order[1..], id);
      assert order == [order[0]] + order[1..];
    }
  }

  /** A deleted character is gone and the others stay in order. */
  lemma DeletesExactly(rt: Runtime, env: Env, expected: nat, saved: Option<ConfigHandle>, list: seq<Character>, i: nat)
    requires ListedAs(rt, list) && i < |list|
    ensures var change := Execute(rt, env, Setup(DeleteCharacterOp(expected, list[i].id, saved)));
            && (change.Accept? <==> Editable(rt, expected, saved))
            && (change.Accept? ==> ListedAs(change.rt, list[..i] + list[i + 1..]) && RosterOnly(rt, change.rt, saved))
  {
    hide ListedAs;
    ListStarts(rt, list, i);
    WithoutSkips(rt.rosterOrder, i);
    if Editable(rt, expected, saved) {
      RestIsListed(rt, Execute(rt, env, Setup(DeleteCharacterOp(expected, list[i].id, saved))).rt, list, i);
    }
  }

  lemma ListStarts(rt: Runtime, list: seq<Character>, i: nat)
    requires ListedAs(rt, list) && i < |list|
    ensures i < |rt.rosterOrder| && rt.rosterOrder[i] == list[i].id && list[i].id in rt.roster
    ensures forall a, b :: 0 <= a < b < |rt.rosterOrder| ==> rt.rosterOrder[a] != rt.rosterOrder[b]
  {
  }

  lemma RestIsListed(rt: Runtime, after: Runtime, list: seq<Character>, i: nat)
    requires ListedAs(rt, list) && i < |list|
    requires after.roster == rt.roster - {list[i].id}
    requires after.rosterOrder == rt.rosterOrder[..i] + rt.rosterOrder[i + 1..]
    ensures ListedAs(after, list[..i] + list[i + 1..])
  {
    hide Once;
    RestIsOnce(list, i);
    RestCorresponds(list, rt.rosterOrder, i);
    RestIsEverybody(rt.rosterOrder, after.rosterOrder, i);
  }

  lemma RestCorresponds(list: seq<Character>, order: seq<string>, i: nat)
    requires i < |list| == |order| && forall k :: 0 <= k < |list| ==> order[k] == list[k].id
    ensures var rest, left := list[..i] + list[i + 1..], order[..i] + order[i + 1..];
            |rest| == |left| && forall k :: 0 <= k < |rest| ==> left[k] == rest[k].id && rest[k] in list
  {
  }

  lemma RestIsOnce(list: seq<Character>, i: nat)
    requires i < |list| && Once(list)
    ensures Once(list[..i] + list[i + 1..])
    ensures forall other :: other in list[..i] + list[i + 1..] ==> other.id != list[i].id
  {
    var rest := list[..i] + list[i + 1..];
    assert forall k :: 0 <= k < |rest| ==> rest[k] == list[if k < i then k else k + 1];
  }

  lemma RestIsEverybody(order: seq<string>, rest: seq<string>, i: nat)
    requires i < |order| && rest == order[..i] + order[i + 1..]
    ensures forall id :: id in order && id != order[i] ==> id in rest
  {
    forall id | id in order && id != order[i] ensures id in rest {
      var k :| 0 <= k < |order| && order[k] == id;
      assert rest[if k < i then k else k - 1] == id;
    }
  }

  /** Nobody can be changed or deleted who is not on the roster. */
  lemma StrangersStayOff(rt: Runtime, env: Env, expected: nat, entry: Character, valid: bool,
                         saved: Option<ConfigHandle>)
    ensures Execute(rt, env, Setup(UpdateCharacterOp(expected, entry, valid, saved))).Accept? ==> entry.id in rt.roster
    ensures Execute(rt, env, Setup(DeleteCharacterOp(expected, entry.id, saved))).Accept? ==> entry.id in rt.roster
  {
  }

  // ---------------------------------------------------------------- the ends of a broadcast

  /** No session has an answer to replay; otherwise the sessions are as they were. */
  predicate AnswersForgotten(before: map<string, Session>, after: map<string, Session>) {
    after.Keys == before.Keys && forall s :: s in before ==> after[s] == before[s].(results := map[])
  }

  predicate NothingWaits(rt: Runtime) {
    rt.pendingSwitch.None? && rt.pendingCommand.None? && rt.pendingNavigation.None? && rt.notice.None?
  }

  // Nobody plays, nothing has been shown and there is nowhere to go back to.
  predicate Blank(b: Broadcast) {
    && b.assignments == map[] && b.claimants == map[] && b.controller == None && b.active == None &&
       b.terminals == map[]
    && b.route == [] && !b.established && b.initialGroup == b.initialId == "" && b.initialPosition == 0
  }

  /** With a configuration and no broadcast a new one starts blank; ending it leaves
      nothing of it. Both forget every answer. */
  lemma BroadcastsStartBlankAndEnd(rt: Runtime, env: Env, limit: nat)
    requires Inv(rt, limit)
    ensures var started := Execute(rt, env, Setup(StartBroadcast));
            && (started.Accept? <==> rt.config.Some? && rt.broadcast.None?)
            && (started.Accept? ==>
                  && started.rt.broadcast.Some? && started.rt.broadcast.value.id == env.id &&
                     Blank(started.rt.broadcast.value)
                  && NothingWaits(started.rt) && AnswersForgotten(rt.sessions, started.rt.sessions)
                  && started.rt.(sessions := rt.sessions, broadcast := None, notice := rt.notice) == rt)
    ensures var ended := Execute(rt, env, Setup(EndBroadcast));
            && (ended.Accept? <==> rt.broadcast.Some?)
            && (ended.Accept? ==>
                  && ended.rt.broadcast.None? && NothingWaits(ended.rt) &&
                     AnswersForgotten(rt.sessions, ended.rt.sessions)
                  && ended.rt.(sessions := rt.sessions, broadcast := rt.broadcast, pendingSwitch := rt.pendingSwitch,
                               pendingCommand := rt.pendingCommand, pendingNavigation := rt.pendingNavigation,
                               notice := rt.notice) == rt)
  {
    hide ExecuteTerminal, ExecuteDecision, ExecuteSession, ExecuteClaim, Dispatch.DispatchAction;
  }

  // ---------------------------------------------------------------- who may be given what

  /** A session is given control exactly if it plays somebody, is connected and has no
      control yet. */
  lemma ControlGivenIff(rt: Runtime, env: Env, session: string, limit: nat)
    requires Inv(rt, limit)
    ensures Execute(rt, env, OnClaim(SetActiveController(session))).Accept? <==>
            && (exists claim :: claim in ClaimsOf(rt) && claim.session == session)
            && session in rt.sessions && rt.sessions[session].connections != {} && ControllerOf(rt) != Some(session)
  {
    hide ExecuteTerminal, ExecuteDecision, ExecuteSession, ExecuteSetup, Dispatch.DispatchAction;
    if rt.broadcast.Some? && session in rt.broadcast.value.assignments {
      assert Claim(session, rt.broadcast.value.assignments[session]) in ClaimsOf(rt);
    }
  }

  /** A character is given exactly to a known session when neither plays a part in a claim,
      taken back exactly from a session that has one, and moved exactly to a known session
      that plays nobody. */
  lemma ClaimsTakenIff(rt: Runtime, env: Env, session: string, character: string)
    requires Inv(rt, env.limit)
    ensures Execute(rt, env, OnClaim(AssignCharacter(session, character))).Accept? <==>
            rt.broadcast.Some? && session in rt.sessions && character in rt.roster && !Taken(rt, session, character)
    ensures Execute(rt, env, OnClaim(ReleaseCharacter(session))).Accept? <==>
            exists claim :: claim in ClaimsOf(rt) && claim.session == session
    ensures Execute(rt, env, OnClaim(MoveCharacter(character, session))).Accept? <==>
            && rt.broadcast.Some? && character in rt.roster && session in rt.sessions
            && forall claim :: claim in ClaimsOf(rt) ==> claim.session != session
  {
    hide Assign, Release, Move, Taken, Inv;
    AssignGivesOne(rt, session, character, env.limit);
    ReleasableIff(rt, session, env.limit);
    MoveReplacesOne(rt, character, session, env.limit);
  }

  /** A player's choice is taken exactly if it is new, is made over a connection for the
      broadcast on the air, and takes a character of the roster from nobody. */
  lemma ChoiceTakenIff(rt: Runtime, s: Selection, limit: nat)
    requires Inv(rt, limit)
    ensures Choose(rt, s, limit).change.Accept? <==>
            && s.session in rt.sessions && rt.sessions[s.session].connections != {}
            && s.requestId != "" && s.requestId !in rt.sessions[s.session].results
            && s.character != "" && s.character in rt.roster
            && rt.broadcast.Some? && rt.broadcast.value.id == s.broadcastId && !Taken(rt, s.session, s.character)
    ensures Choose(rt, s, limit).change.Accept? ==>
              Choose(rt, s, limit).result == ActionResult(s.requestId, true, AcceptedAction, rt.revision + 1)
  {
    if rt.broadcast.Some? {
      TakenReads(rt, s.session, s.character, limit);
    }
  }

  /** A choice that comes too late is answered as a conflict, one for another broadcast as
      stale. */
  lemma ChoiceRefusedFor(rt: Runtime, s: Selection, limit: nat)
    requires Inv(rt, limit) && s.session in rt.sessions && rt.sessions[s.session].connections != {}
    requires s.requestId != "" && s.requestId !in rt.sessions[s.session].results && s.character != ""
    ensures var current := rt.broadcast.Some? && rt.broadcast.value.id == s.broadcastId;
            && (!current ==>
                  Choose(rt, s, limit).result == ActionResult(s.requestId, false, StaleBroadcast, rt.revision))
            && (current && (Taken(rt, s.session, s.character) || s.character !in rt.roster) ==>
                  Choose(rt, s, limit).result == ActionResult(s.requestId, false, Conflict, rt.revision))
  {
    if rt.broadcast.Some? {
      TakenReads(rt, s.session, s.character, limit);
    }
  }

  /** Two choices without a fingerprint of their own pass for the same request only if they
      are for the same broadcast and character. */
  lemma ChoiceFingerprintIdentifies(a: Selection, b: Selection)
    requires a.fingerprint == b.fingerprint == "" && SelectionFingerprint(a) == SelectionFingerprint(b)
    ensures a.broadcastId == b.broadcastId && a.character == b.character
  {
    var fa, fb := ["SelectCharacter", a.broadcastId, a.character], ["SelectCharacter", b.broadcastId, b.character];
    Text.FieldsAreInjective(fa, fb);
    assert fa[1] == fb[1] && fa[2] == fb[2];
  }

  // ---------------------------------------------------------------- who is told

  /** How often a session is sent an update by some entries of the log. */
  function Sent(log: seq<Entry>, session: string): nat {
    if log == [] then 0
    else (if log[0].Published? && log[0].session == session then 1 else 0) + Sent(log[1..], session)
  }

  lemma {:induction false} SentAdds(a: seq<Entry>, b: seq<Entry>, session: string)
    ensures Sent(a + b, session) == Sent(a, session) + Sent(b, session)
  {
    if a == [] {
      assert a + b == b;
    } else {
      assert (a + b)[1..] == a[1..] + b;
      SentAdds(a[1..], b, session);
    }
  }

  lemma {:induction false} AuditsAreNotSent(audits: seq<Audit>, revision: nat, session: string)
    ensures Sent(AuditEntries(audits, revision), session) == 0
  {
    if audits != [] {
      AuditsAreNotSent(audits[1..], revision, session);
      SentAdds([Audited(revision, audits[0])], AuditEntries(audits[1..], revision), session);
      assert [Audited(revision, audits[0])][1..] == [];
    }
  }

  lemma {:induction false} EachIsSentOnce(rt: Runtime, sessions: seq<string>, session: string)
    requires (forall s :: s in sessions ==> s in rt.sessions) && Disclosure.Distinct(sessions)
    ensures Sent(UpdateEntries(rt, sessions), session) == if session in sessions then 1 else 0
  {
    if sessions != [] {
      EachIsSentOnce(rt, sessions[1..], session);
      var first := [Published(rt.revision, sessions[0], CompoundUpdate(rt, sessions[0]))];
      SentAdds(first, UpdateEntries(rt, sessions[1..]), session);
      assert first[1..] == [];
      assert session in sessions <==> session == sessions[0] || session in sessions[1..];
    }
  }

  /** An accepted change is sent to every recognised session once, a refusal to nobody. */
  lemma EverybodyIsToldOnce(s: Coordinator, change: Change, session: string)
    ensures s.log <= Commit(s, change).log
    ensures Sent(Commit(s, change).log, session) ==
            Sent(s.log, session) + if change.Accept? && session in change.rt.sessions then 1 else 0
  {
    match change {
      case Reject(audits) =>
        AuditsAreNotSent(audits, s.rt.revision, session);
        SentAdds(s.log, AuditEntries(audits, s.rt.revision), session);
      case Persist(rt, audits) =>
        AuditsAreNotSent(audits, s.rt.revision, session);
        SentAdds(s.log, AuditEntries(audits, s.rt.revision), session);
      case Accept(rt, audits) =>
        var after := Commit(s, change).rt;
        var reported := AuditEntries(AcceptedAudits(s.rt, after, audits), after.revision);
        AuditsAreNotSent(AcceptedAudits(s.rt, after, audits), after.revision, session);
        SortedMembers(after.sessions.Keys);
        Disclosure.SortedIsDistinct(after.sessions.Keys);
        EachIsSentOnce(after, Sorted(after.sessions.Keys), session);
        SentAdds(s.log, reported, session);
        SentAdds(s.log + reported, Publish(after), session);
    }
  }

  // ---------------------------------------------------------------- the order of the roster

  function FirstMention(order: seq<string>, id: string): nat
    requires id in order
  {
    if order[0] == id then 0 else 1 + FirstMention(order[1..], id)
  }

  lemma MentionShifts(order: seq<string>, id: string)
    requires order != [] && id in order[1..] && id != order[0]
    ensures id in order && FirstMention(order, id) == 1 + FirstMention(order[1..], id)
  {
    assert order == [order[0]] + order[1..];
  }

  predicate Rising(order: seq<string>, ids: seq<string>) {
    && (forall i :: 0 <= i < |ids| ==> ids[i] in order)
    && (forall i, k :: 0 <= i < k < |ids| ==> FirstMention(order, ids[i]) < FirstMention(order, ids[k]))
  }

  lemma RisesOn(order: seq<string>, rest: seq<string>)
    requires order != [] && Rising(order[1..], rest) && forall i :: 0 <= i < |rest| ==> rest[i] != order[0]
    ensures Rising(order, rest) && Rising(order, [order[0]] + rest)
  {
    forall i | 0 <= i < |rest|
      ensures rest[i] in order && FirstMention(order, rest[i]) == 1 + FirstMention(order[1..], rest[i])
    {
      MentionShifts(order, rest[i]);
    }
  }

  lemma {:induction false} OrderedFollowsMentions(order: seq<string>, known: set<string>)
    ensures Rising(order, Ordered(order, known))
  {
    if order != [] {
      var left := if order[0] in known then known - {order[0]} else known;
      OrderedFollowsMentions(order[1..], left);
      Disclosure.OrderedIsDistinct(order[1..], left);
      var rest := Ordered(order[1..], left);
      assert forall i :: 0 <= i < |rest| ==> rest[i] in rest;
      RisesOn(order, rest);
    }
  }

  lemma {:induction false} SortedAscends(ids: set<string>)
    ensures forall i, k :: 0 <= i < k < |Sorted(ids)| ==> Text.Before(Sorted(ids)[i], Sorted(ids)[k])
  {
    if ids != {} {
      var rest := Sorted(ids - {Text.Least(ids)});
      SortedAscends(ids - {Text.Least(ids)});
      SortedMembers(ids - {Text.Least(ids)});
      assert Sorted(ids) == [Text.Least(ids)] + rest;
      assert forall k :: 0 <= k < |rest| ==> rest[k] in rest;
    }
  }

  /** Characters in the authored order come first, each at its first mention, and any others
      after them by identifier. */
  lemma AuthoredComeFirst(roster: map<string, Character>, order: seq<string>) returns (n: nat)
    ensures var ids := Views.RosterIds(roster, order);
            && n <= |ids| && (forall i :: 0 <= i < n ==> ids[i] in order) &&
               (forall i :: n <= i < |ids| ==> ids[i] !in order)
            && Rising(order, ids[..n])
            && (forall i, k :: n <= i < k < |ids| ==> Text.Before(ids[i], ids[k]))
  {
    var first, rest := Ordered(order, roster.Keys), Sorted(roster.Keys - Elements(order));
    n := |first|;
    OrderedFollowsMentions(order, roster.Keys);
    SortedAscends(roster.Keys - Elements(order));
    SortedMembers(roster.Keys - Elements(order));
    assert (first + rest)[..n] == first;
    assert forall i :: 0 <= i < |rest| ==> rest[i] in rest && rest[i] !in Elements(order);
  }

  lemma {:induction false} OrderedAsListed(order: seq<string>, known: set<string>)
    requires Disclosure.Distinct(order) && forall id :: id in order ==> id in known
    ensures Ordered(order, known) == order
  {
    if order != [] {
      forall id | id in order[1..] ensures id in known - {order[0]} {
        var i :| 0 <= i < |order[1..]| && order[1..][i] == id;
        assert order[i + 1] == id;
      }
      OrderedAsListed(order[1..], known - {order[0]});
      assert order == [order[0]] + order[1..];
    }
  }

  lemma ListIsEverybody(rt: Runtime, list: seq<Character>)
    requires ListedAs(rt, list)
    ensures Views.RosterIds(rt.roster, rt.rosterOrder) == rt.rosterOrder
  {
    OrderedAsListed(rt.rosterOrder, rt.roster.Keys);
    forall id | id in rt.roster.Keys ensures id in Elements(rt.rosterOrder) {
      assert id in rt.rosterOrder;
    }
    assert rt.roster.Keys - Elements(rt.rosterOrder) == {};
  }

  /** The players see the roster in the order it was authored in. */
  lemma RosterIsShownInOrder(rt: Runtime, session: string, list: seq<Character>, limit: nat)
    requires Inv(rt, limit) && session in rt.sessions && ListedAs(rt, list)
    ensures var view := CompoundUpdate(rt, session).player.roster;
            |view| == |list| && forall i :: 0 <= i < |list| ==> view[i].id == list[i].id && view[i].name == list[i].name
  {
    ListIsEverybody(rt, list);
    Disclosure.ViewFollowsIds(rt.roster, rt.broadcast, rt.rosterOrder);
  }
}
