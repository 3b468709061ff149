/** What every transition keeps, one concern at a time. */
module Invariants {
  import opened Domain
  import opened State
  import opened Changes
  import opened Sessions
  import opened Claims
  import opened Terminals
  import opened Dispatch
  import opened Catalogue
  import Nav
  import Text

  // ---------------------------------------------------------------- sessions

  /** Sessions are stored under their own identifier; tokens and sessions correspond
      one to one; no name and no connection is shared; caches are bounded. */
  predicate SessionsOk(sessions: map<string, Session>, tokens: map<string, string>, limit: nat) {
    Keyed(sessions) && Distinct(sessions) && CachesOk(sessions, limit) && TokensOk(sessions.Keys, tokens)
  }

  predicate Keyed(sessions: map<string, Session>) {
    forall s :: s in sessions ==> sessions[s].id == s
  }

  predicate Distinct(sessions: map<string, Session>) {
    forall s, t :: s in sessions && t in sessions && s != t ==>
      && sessions[s].fallbackName != sessions[t].fallbackName
      && sessions[s].connections !! sessions[t].connections
  }

  predicate CachesOk(sessions: map<string, Session>, limit: nat) {
    forall s :: s in sessions ==> |sessions[s].results| <= limit && "" !in sessions[s].results
  }

  predicate TokensOk(ids: set<string>, tokens: map<string, string>) {
    && "" !in tokens
    && (forall k :: k in tokens ==> tokens[k] in ids)
    && (forall k, l :: k in tokens && l in tokens && tokens[k] == tokens[l] ==> k == l)
    && (forall s :: s in ids ==> exists k :: k in tokens && tokens[k] == s)
  }

  // ---------------------------------------------------------------- claims

  predicate RosterOk(roster: map<string, Character>) {
    forall c :: c in roster ==> roster[c].id == c
  }

  /** The two claim maps are inverse to each other; whoever controls holds a claim. */
  predicate ClaimsInverse(assignments: map<string, string>, claimants: map<string, string>,
                          controller: Option<string>) {
    && (forall s :: s in assignments ==> assignments[s] in claimants && claimants[assignments[s]] == s)
    && (forall c :: c in claimants ==> claimants[c] in assignments && assignments[claimants[c]] == c)
    && (controller.Some? ==> controller.value in assignments)
  }

  /** Only recognised sessions and roster characters are claimed. */
  predicate ClaimsKnown(rt: Runtime, b: Broadcast) {
    b.assignments.Keys <= rt.sessions.Keys && b.claimants.Keys <= rt.roster.Keys
  }

  // ---------------------------------------------------------------- one active terminal

  /** Every checkpoint is stored under its own identifier, and the active one is
      exactly the one the broadcast names. */
  predicate OneActive(terminals: map<string, Terminal>, active: Option<string>) {
    && (active.Some? ==> active.value in terminals)
    && (forall id :: id in terminals ==>
          && terminals[id].terminalId == id
          && (terminals[id].lifecycle == Active <==> active == Some(id)))
  }

  predicate BroadcastOk(rt: Runtime, b: Broadcast) {
    && ClaimsInverse(b.assignments, b.claimants, b.controller)
    && ClaimsKnown(rt, b)
    && OneActive(b.terminals, b.active)
  }

  // ---------------------------------------------------------------- pending decisions

  /** Every pending decision belongs to the current broadcast, and a command and a
      navigation are never pending together. */
  predicate PendingOk(rt: Runtime) {
    && (rt.pendingSwitch.Some? ==> rt.broadcast.Some? && rt.pendingSwitch.value.broadcastId == rt.broadcast.value.id)
    && (rt.pendingCommand.Some? ==> rt.broadcast.Some? && rt.pendingCommand.value.broadcastId == rt.broadcast.value.id)
    && (rt.pendingNavigation.Some? ==>
          rt.broadcast.Some? && rt.pendingNavigation.value.broadcastId == rt.broadcast.value.id)
    && !(rt.pendingCommand.Some? && rt.pendingNavigation.Some?)
  }

  /** The structural invariant of the aggregate. */
  predicate Inv(rt: Runtime, limit: nat) {
    && SessionsOk(rt.sessions, rt.tokens, limit)
    && RosterOk(rt.roster)
    && (rt.broadcast.Some? ==> BroadcastOk(rt, rt.broadcast.value))
    && PendingOk(rt)
  }

  predicate Keeps(change: Change, limit: nat) {
    !change.Reject? ==> Inv(change.rt, limit)
  }

  // ---------------------------------------------------------------- building blocks

  lemma {:induction false} RosterMapIsKeyed(roster: seq<Character>)
    ensures RosterOk(RosterMap(roster))
  {
    if roster != [] {
      RosterMapIsKeyed(roster[..|roster| - 1]);
    }
  }

  lemma SessionsKeep(rt: Runtime, sessions: map<string, Session>, tokens: map<string, string>, limit: nat)
    requires Inv(rt, limit) && SessionsOk(sessions, tokens, limit) && rt.sessions.Keys <= sessions.Keys
    ensures Inv(rt.(sessions := sessions, tokens := tokens), limit)
  {
  }

  lemma ClaimsKeep(rt: Runtime, assignments: map<string, string>, claimants: map<string, string>,
                   controller: Option<string>, limit: nat)
    requires Inv(rt, limit) && rt.broadcast.Some? && ClaimsInverse(assignments, claimants, controller)
    requires assignments.Keys <= rt.sessions.Keys && claimants.Keys <= rt.roster.Keys
    ensures Inv(WithBroadcast(rt, rt.broadcast.value.(assignments := assignments, claimants := claimants,
                                                      controller := controller)), limit)
  {
  }

  lemma JoinKeeps(sessions: map<string, Session>, id: string, session: Session, limit: nat)
    requires Keyed(sessions) && Distinct(sessions) && CachesOk(sessions, limit)
    requires session.id == id && |session.results| <= limit && "" !in session.results
    requires forall s :: s in sessions && s != id ==>
               sessions[s].fallbackName != session.fallbackName && sessions[s].connections !! session.connections
    ensures Keyed(sessions[id := session]) && Distinct(sessions[id := session]) &&
            CachesOk(sessions[id := session], limit)
  {
  }

  /** Changing notices and caches of known sessions keeps the session facts. */
  lemma PutSessionKeeps(rt: Runtime, id: string, session: Session, limit: nat)
    requires Inv(rt, limit) && id in rt.sessions
    requires session.id == id && session.fallbackName == rt.sessions[id].fallbackName
    requires session.connections == rt.sessions[id].connections
    requires |session.results| <= limit && "" !in session.results
    ensures Inv(PutSession(rt, id, session), limit)
  {
    JoinKeeps(rt.sessions, id, session, limit);
    assert rt.sessions[id := session].Keys == rt.sessions.Keys;
    SessionsKeep(rt, rt.sessions[id := session], rt.tokens, limit);
  }

  lemma StoreKeeps(rt: Runtime, id: string, requestId: string, record: ResultRecord, limit: nat)
    requires Inv(rt, limit) && limit >= 1 && requestId != ""
    ensures Inv(StoreResult(rt, id, requestId, record, limit), limit)
  {
    if id in rt.sessions {
      StoringIsBounded(rt.sessions[id].results, requestId, record, limit);
      PutSessionKeeps(rt, id,
                      rt.sessions[id].(results := Sessions.Stored(rt.sessions[id].results, requestId, record, limit)),
                      limit);
    }
  }

  lemma SetNoticeKeeps(rt: Runtime, id: string, notice: bool, limit: nat)
    requires Inv(rt, limit)
    ensures Inv(SetNotice(rt, id, notice), limit)
  {
    if id in rt.sessions {
      PutSessionKeeps(rt, id, rt.sessions[id].(notice := notice), limit);
    }
  }

  /** A broadcast that keeps its identity and its claims only has to keep one
      active terminal. */
  lemma BroadcastKeeps(rt: Runtime, b: Broadcast, limit: nat)
    requires Inv(rt, limit) && rt.broadcast.Some?
    requires b.id == rt.broadcast.value.id && b.assignments == rt.broadcast.value.assignments
    requires b.claimants == rt.broadcast.value.claimants && b.controller == rt.broadcast.value.controller
    requires OneActive(b.terminals, b.active)
    ensures Inv(WithBroadcast(rt, b), limit)
  {
  }

  lemma ClearedKeeps(rt: Runtime, limit: nat)
    requires Inv(rt, limit)
    ensures Inv(Cleared(rt), limit)
  {
    if rt.broadcast.Some? {
      var b := rt.broadcast.value;
      BroadcastKeeps(rt.(pendingCommand := None), b.(terminals := WithoutExecutions(b.terminals)), limit);
    }
  }

  lemma SuspendKeeps(terminals: map<string, Terminal>, active: Option<string>)
    requires OneActive(terminals, active)
    ensures active.Some? ==> OneActive(Suspend(terminals, active.value), None)
    ensures active.Some? ==> OneActive(terminals - {active.value}, None)
  {
  }

  lemma ShowKeeps(terminals: map<string, Terminal>, t: Terminal)
    requires OneActive(terminals, None) && t.lifecycle == Active
    ensures OneActive(terminals[t.terminalId := t], Some(t.terminalId))
  {
  }

  lemma PutActiveKeeps(rt: Runtime, t: Terminal, limit: nat)
    requires Inv(rt, limit) && rt.broadcast.Some? && rt.broadcast.value.active == Some(t.terminalId) &&
             t.lifecycle == Active
    ensures Inv(PutActive(rt, t), limit)
  {
    var b := rt.broadcast.value;
    BroadcastKeeps(rt, b.(terminals := b.terminals[b.active.value := t]), limit);
  }

  lemma OpenedIsShown(terminals: map<string, Terminal>, active: Option<string>, target: Target,
                      board: Option<HackState>)
    requires OneActive(terminals, active)
    ensures var others := if active.Some? then Suspend(terminals, active.value) else terminals;
            OneActive(others[target.terminalId := Opened(terminals, target, board)], Some(target.terminalId))
  {
    SuspendKeeps(terminals, active);
  }

  lemma EnterKeeps(rt: Runtime, env: Env, target: Target, limit: nat)
    requires Inv(rt, limit) && rt.broadcast.Some?
    ensures Inv(Activated(rt, env, target), limit)
  {
    OpenedIsShown(rt.broadcast.value.terminals, rt.broadcast.value.active, target, env.board);
    BroadcastKeeps(rt, Activated(rt, env, target).broadcast.value, limit);
  }

  lemma ArriveKeeps(rt: Runtime, env: Env, target: Target, nav: NavState, route: seq<ReturnPoint>, limit: nat)
    requires Inv(rt, limit) && rt.broadcast.Some? && rt.broadcast.value.active.Some?
    ensures Inv(Arrive(rt, env, target, nav, route), limit)
  {
    var b := rt.broadcast.value;
    var left := Suspend(b.terminals, b.active.value);
    var shown := if target.terminalId in left then Reactivated(left[target.terminalId], target)
        else Created(target, env.board);
    SuspendKeeps(b.terminals, b.active);
    ShowKeeps(left, shown.(nav := nav));
    BroadcastKeeps(rt, b.(terminals := Travel(b, env.board, b.active.value, target, nav),
                          active := Some(target.terminalId), route := route), limit);
  }

  // ---------------------------------------------------------------- operations

  lemma InstallKeeps(rt: Runtime, handle: ConfigHandle, roster: seq<Character>, valid: bool, limit: nat)
    requires Inv(rt, limit)
    ensures Keeps(Install(rt, handle, roster, valid), limit)
  {
    RosterMapIsKeyed(roster);
  }

  lemma AddCharacterKeeps(rt: Runtime, expected: nat, entry: Character, valid: bool, saved: Option<ConfigHandle>,
                          limit: nat)
    requires Inv(rt, limit)
    ensures Keeps(AddCharacter(rt, expected, entry, valid, saved), limit)
  {
  }

  lemma UpdateCharacterKeeps(rt: Runtime, expected: nat, entry: Character, valid: bool, saved: Option<ConfigHandle>,
                             limit: nat)
    requires Inv(rt, limit)
    ensures Keeps(UpdateCharacter(rt, expected, entry, valid, saved), limit)
  {
  }

  lemma DeleteCharacterKeeps(rt: Runtime, expected: nat, id: string, saved: Option<ConfigHandle>, limit: nat)
    requires Inv(rt, limit)
    ensures Keeps(DeleteCharacter(rt, expected, id, saved), limit)
  {
  }

  lemma RenameKeeps(rt: Runtime, id: string, name: string, limit: nat)
    requires Inv(rt, limit)
    ensures Keeps(Rename(rt, id, name), limit)
  {
    var change := Rename(rt, id, name);
    if change.Accept? {
      var session := rt.sessions[id].(fallbackName := Text.Trim(name));
      JoinKeeps(rt.sessions, id, session, limit);
      assert rt.sessions[id := session].Keys == rt.sessions.Keys;
      SessionsKeep(rt, rt.sessions[id := session], rt.tokens, limit);
    }
  }

  lemma AssignKeeps(rt: Runtime, session: string, character: string, limit: nat)
    requires Inv(rt, limit)
    ensures Keeps(Assign(rt, session, character), limit)
  {
    if rt.broadcast.Some? && session in rt.sessions && character in rt.roster {
      var b := rt.broadcast.value;
      ClaimsReadEitherWay(b, session, character);
      if session !in b.assignments && character !in b.claimants {
        var control := if b.controller.None? && Connected(rt.sessions[session]) then Some(session) else b.controller;
        ClaimKeeps(b, session, character, control);
        ClaimsKeep(rt, b.assignments[session := character], b.claimants[character := session], control, limit);
      }
    }
  }

  lemma ReleaseKeeps(rt: Runtime, session: string, limit: nat)
    requires Inv(rt, limit)
    ensures Keeps(Release(rt, session), limit)
  {
    if Release(rt, session).Accept? {
      var b := rt.broadcast.value;
      UnclaimKeeps(b, session);
      ClaimsKeep(rt, b.assignments - {session}, b.claimants - {b.assignments[session]},
                 ReleaseControl(b.controller, session), limit);
    }
  }

  /** With inverse claim maps either map alone tells who is assigned and who owns. */
  lemma ClaimsReadEitherWay(b: Broadcast, session: string, character: string)
    requires ClaimsInverse(b.assignments, b.claimants, b.controller)
    ensures Assigned(b, session) <==> session in b.assignments
    ensures OwnerOf(b, character) == if character in b.claimants then Some(b.claimants[character]) else None
  {
    var holders := set s | s in b.assignments && b.assignments[s] == character;
    if character !in b.claimants {
      assert holders == {};
    }
  }

  lemma ClaimKeeps(b: Broadcast, session: string, character: string, control: Option<string>)
    requires ClaimsInverse(b.assignments, b.claimants, b.controller)
    requires session !in b.assignments && character !in b.claimants
    requires control == b.controller || control == Some(session)
    ensures ClaimsInverse(b.assignments[session := character], b.claimants[character := session], control)
  {
  }

  lemma UnclaimKeeps(b: Broadcast, session: string)
    requires ClaimsInverse(b.assignments, b.claimants, b.controller) && session in b.assignments
    ensures ClaimsInverse(b.assignments - {session}, b.claimants - {b.assignments[session]},
                          ReleaseControl(b.controller, session))
  {
  }

  lemma MoveReads(rt: Runtime, character: string, session: string, limit: nat)
    requires Inv(rt, limit) && rt.broadcast.Some? && character in rt.roster && session in rt.sessions
    ensures var b := rt.broadcast.value;
            Move(rt, character, session) ==
            if session in b.assignments then Reject([])
            else if character in b.claimants then
              Accept(WithBroadcast(rt, b.(
                assignments := (b.assignments - {b.claimants[character]})[session := character],
                claimants := b.claimants[character := session],
                controller := ReleaseControl(b.controller, b.claimants[character]))), [])
            else Accept(WithBroadcast(rt, Claimed(b, session, character)), [])
  {
    ClaimsReadEitherWay(rt.broadcast.value, session, character);
  }

  lemma TransferInverse(assignments: map<string, string>, claimants: map<string, string>, controller: Option<string>,
                        session: string, character: string)
    requires ClaimsInverse(assignments, claimants, controller)
    requires session !in assignments && character in claimants
    ensures ClaimsInverse((assignments - {claimants[character]})[session := character], claimants[character := session],
                          ReleaseControl(controller, claimants[character]))
  {
    var left := (assignments - {claimants[character]})[session := character];
    assert forall s :: s in left <==> s == session || (s in assignments && s != claimants[character]);
  }

  lemma TransferKeeps(rt: Runtime, character: string, session: string, limit: nat)
    requires Inv(rt, limit) && rt.broadcast.Some? && session in rt.sessions
    requires session !in rt.broadcast.value.assignments && character in rt.broadcast.value.claimants
    ensures var b := rt.broadcast.value;
            Inv(WithBroadcast(rt, b.(
              assignments := (b.assignments - {b.claimants[character]})[session := character],
              claimants := b.claimants[character := session],
              controller := ReleaseControl(b.controller, b.claimants[character]))), limit)
  {
    var b := rt.broadcast.value;
    TransferInverse(b.assignments, b.claimants, b.controller, session, character);
    ClaimsKeep(rt, (b.assignments - {b.claimants[character]})[session := character], b.claimants[character := session],
               ReleaseControl(b.controller, b.claimants[character]), limit);
  }

  lemma MoveKeeps(rt: Runtime, character: string, session: string, limit: nat)
    requires Inv(rt, limit)
    ensures Keeps(Move(rt, character, session), limit)
  {
    if rt.broadcast.Some? && character in rt.roster && session in rt.sessions {
      MoveReads(rt, character, session, limit);
      if session !in rt.broadcast.value.assignments {
        if character in rt.broadcast.value.claimants {
          TransferKeeps(rt, character, session, limit);
        } else {
          ClaimKeeps(rt.broadcast.value, session, character, rt.broadcast.value.controller);
        }
      }
    }
  }

  lemma SetControllerKeeps(rt: Runtime, session: string, limit: nat)
    requires Inv(rt, limit)
    ensures Keeps(SetController(rt, session), limit)
  {
  }

  lemma ActivateKeeps(rt: Runtime, env: Env, target: Target, limit: nat)
    requires Inv(rt, limit)
    ensures Keeps(Activate(rt, env, target), limit)
  {
    ClearedKeeps(rt, limit);
    if rt.broadcast.Some? {
      EnterKeeps(Cleared(rt), env, target, limit);
    }
  }

  lemma ClearClearedKeeps(rt: Runtime, id: string, unfinished: bool, navigationCleared: bool, limit: nat)
    requires Inv(rt, limit) && rt.broadcast.Some? && (unfinished ==> ActiveTerminal(rt.broadcast).Some?)
    ensures Keeps(ClearCleared(rt, id, unfinished, navigationCleared), limit)
  {
    var b := rt.broadcast.value;
    if b.active.Some? {
      SuspendKeeps(b.terminals, b.active);
      BroadcastKeeps(rt, b.(terminals := Suspend(b.terminals, b.active.value), active := None), limit);
    }
  }

  lemma ClearTerminalKeeps(rt: Runtime, id: string, limit: nat)
    requires Inv(rt, limit)
    ensures Keeps(ClearTerminal(rt, id), limit)
  {
    hide ClearCleared, Inv;
    if rt.broadcast.Some? {
      ClearedKeeps(rt, limit);
      ClearClearedKeeps(Cleared(rt), id, Unfinished(ActiveTerminal(rt.broadcast)), NavigationToClear(rt), limit);
    }
  }

  lemma SwitchAwayKeeps(rt: Runtime, env: Env, choice: Choice, pending: PendingSwitch, limit: nat)
    requires Inv(rt, limit) && rt.broadcast.Some? && rt.broadcast.value.active == Some(pending.source)
    ensures Keeps(SwitchAway(rt, env, choice, pending), limit)
  {
    var b := rt.broadcast.value;
    var left := LeftBehind(b, pending.source, choice).terminals;
    SuspendKeeps(b.terminals, b.active);
    BroadcastKeeps(rt, b.(terminals := left, active := None), limit);
    if pending.target.Some? {
      var target := pending.target.value;
      var shown := if target.terminalId in left then Reactivated(left[target.terminalId], target)
                   else Created(target, env.board);
      ShowKeeps(left, shown);
      BroadcastKeeps(rt, b.(terminals := left[target.terminalId := shown], active := Some(target.terminalId)), limit);
    }
  }

  lemma ResolveSwitchKeeps(rt: Runtime, env: Env, id: string, choice: Choice, limit: nat)
    requires Inv(rt, limit)
    ensures Keeps(ResolveSwitch(rt, env, id, choice), limit)
  {
    hide SwitchAway;
    if SwitchCurrent(rt, id) && choice != Cancel {
      SwitchAwayKeeps(rt, env, choice, rt.pendingSwitch.value, limit);
    }
  }

  lemma GrantKeeps(rt: Runtime, pending: PendingCommand, t: Terminal, authored: ContentNode, durable: Durable,
                   limit: nat)
    requires Inv(rt, limit) && ActiveTerminal(rt.broadcast) == Some(t)
    ensures Keeps(GrantCommand(rt, pending, t, authored, durable), limit)
  {
    if pending.mode == ChangeMode && !DurableSucceeds(durable, pending, authored) {
      PutActiveKeeps(rt, t.(execution := None), limit);
      SetNoticeKeeps(Settle(rt, t.(execution := None)), pending.controller, true, limit);
    } else {
      PutActiveKeeps(rt, Approved(t, pending, durable), limit);
    }
  }

  lemma ResolveCommandKeeps(rt: Runtime, request: string, approve: bool, durable: Durable, limit: nat)
    requires Inv(rt, limit)
    ensures Keeps(ResolveCommand(rt, request, approve, durable), limit)
  {
    if CommandCurrent(rt) {
      AnswerKeeps(rt, rt.pendingCommand.value, ActiveTerminal(rt.broadcast).value, approve, durable, limit);
    }
  }

  lemma AnswerKeeps(rt: Runtime, pending: PendingCommand, t: Terminal, approve: bool, durable: Durable, limit: nat)
    requires Inv(rt, limit) && ActiveTerminal(rt.broadcast) == Some(t)
    ensures Keeps(AnswerCommand(rt, pending, t, approve, durable), limit)
  {
    PutActiveKeeps(rt, t.(execution := Some(Execution(Rejected, pending.commandId))), limit);
    if StillAuthored(t, pending) && approve {
      GrantKeeps(rt, pending, t, Selected(t, pending.commandId).value, durable, limit);
    }
  }

  lemma ResetStatesKeeps(rt: Runtime, terminal: string, command: Option<string>, durable: Durable, limit: nat)
    requires Inv(rt, limit)
    ensures Keeps(ResetStates(rt, terminal, command, durable), limit)
  {
  }

  lemma ApproveReturnKeeps(rt: Runtime, env: Env, pending: PendingNavigation, limit: nat)
    requires Inv(rt, limit) && rt.broadcast.Some? && rt.broadcast.value.active.Some?
    ensures Keeps(ApproveReturn(rt, env, pending), limit)
  {
    var change := ApproveReturn(rt, env, pending);
    var latest := LookupTerminal(env.catalog, pending.target);
    if change.Accept? && latest.Some? {
      var point := pending.returnPoint;
      var route := rt.broadcast.value.route;
      ArriveKeeps(rt, env, latest.value, Nav.Restored(latest.value.tree, point.folderId, point.ancestors),
                  route[..|route| - 1], limit);
    }
  }

  lemma ApproveForwardKeeps(rt: Runtime, env: Env, pending: PendingNavigation, limit: nat)
    requires Inv(rt, limit) && rt.broadcast.Some? && rt.broadcast.value.active.Some?
    ensures Keeps(ApproveForward(rt, env, pending), limit)
  {
    var link := LookupTransition(env.catalog, pending.source, pending.commandId);
    if link.Some? {
      ArriveKeeps(rt, env, link.value.target, Nav.Default(), rt.broadcast.value.route + [pending.returnPoint], limit);
    }
  }

  lemma ResolveNavigationKeeps(rt: Runtime, env: Env, request: string, approve: bool, limit: nat)
    requires Inv(rt, limit)
    ensures Keeps(ResolveNavigation(rt, env, request, approve), limit)
  {
    var id := Text.Trim(request);
    if NavigationCurrent(rt, id) {
      var pending := rt.pendingNavigation.value;
      ApproveReturnKeeps(rt, env, pending, limit);
      ApproveForwardKeeps(rt, env, pending, limit);
      var t := ActiveTerminal(rt.broadcast).value;
      PutActiveKeeps(rt.(pendingNavigation := None, notice := None),
                     t.(execution := Some(Execution(Rejected, pending.commandId))), limit);
    }
  }

  lemma UpdateLiveKeeps(rt: Runtime, env: Env, tree: ContentNode, intro: Option<string>, limit: nat)
    requires Inv(rt, limit)
    ensures Keeps(UpdateLive(rt, env, tree, intro), limit)
  {
  }

  lemma RefreshKeeps(rt: Runtime, env: Env, target: Target, limit: nat)
    requires Inv(rt, limit)
    ensures Keeps(Refresh(rt, env, target), limit)
  {
  }

  lemma ResetHackKeeps(rt: Runtime, env: Env, target: Target, limit: nat)
    requires Inv(rt, limit)
    ensures Keeps(ResetHack(rt, env, target), limit)
  {
  }

  lemma ForceHackKeeps(rt: Runtime, limit: nat)
    requires Inv(rt, limit)
    ensures Keeps(ForceHack(rt), limit)
  {
  }

  lemma StartKeeps(rt: Runtime, id: string, limit: nat)
    requires Inv(rt, limit)
    ensures Keeps(Start(rt, id), limit)
  {
  }

  lemma EndKeeps(rt: Runtime, limit: nat)
    requires Inv(rt, limit)
    ensures Keeps(End(rt), limit)
  {
  }

  lemma RemovalKeeps(sessions: map<string, Session>, connection: string, kept: string, limit: nat)
    requires Keyed(sessions) && Distinct(sessions) && CachesOk(sessions, limit)
    ensures var after := WithoutConnection(sessions, connection, kept);
            && after.Keys == sessions.Keys
            && Keyed(after) && Distinct(after) && CachesOk(after, limit)
            && (forall s :: s in after && s != kept ==> connection !in after[s].connections)
            && (kept in sessions ==> after[kept] == sessions[kept])
            && (forall s :: s in after ==> after[s].fallbackName == sessions[s].fallbackName)
  {
  }

  lemma TokenKeeps(ids: set<string>, tokens: map<string, string>, session: string, token: string)
    requires TokensOk(ids, tokens) && session !in ids && token !in tokens && token != ""
    ensures TokensOk(ids + {session}, tokens[token := session])
  {
    var after := tokens[token := session];
    forall s | s in ids + {session} ensures exists k :: k in after && after[k] == s {
      if s == session {
        assert after[token] == s;
      } else {
        var k :| k in tokens && tokens[k] == s;
        assert k in after && after[k] == s;
      }
    }
  }

  lemma NewcomerKeeps(rt: Runtime, connection: string, id: string, token: string, limit: nat)
    requires Inv(rt, limit) && id !in rt.sessions && token !in rt.tokens && token != ""
    ensures var joined := Session(id, Text.LeastFreeName(Names(rt)), {connection}, map[], false);
            Inv(rt.(sessions := WithoutConnection(rt.sessions, connection, id)[id := joined],
                    tokens := rt.tokens[token := id]), limit)
  {
    var others := WithoutConnection(rt.sessions, connection, id);
    var joined := Session(id, Text.LeastFreeName(Names(rt)), {connection}, map[], false);
    RemovalKeeps(rt.sessions, connection, id, limit);
    forall s | s in others ensures others[s].fallbackName != joined.fallbackName {
      assert rt.sessions[s].fallbackName in Names(rt);
    }
    JoinKeeps(others, id, joined, limit);
    TokenKeeps(rt.sessions.Keys, rt.tokens, id, token);
    assert others.Keys == rt.sessions.Keys;
    SessionsKeep(rt, others[id := joined], rt.tokens[token := id], limit);
  }

  lemma RejoinKeeps(rt: Runtime, connection: string, id: string, limit: nat)
    requires Inv(rt, limit) && id in rt.sessions
    ensures var others := WithoutConnection(rt.sessions, connection, id);
            Inv(rt.(sessions := others[id := others[id].(connections := others[id].connections + {connection})]), limit)
  {
    var others := WithoutConnection(rt.sessions, connection, id);
    var joined := others[id].(connections := others[id].connections + {connection});
    RemovalKeeps(rt.sessions, connection, id, limit);
    JoinKeeps(others, id, joined, limit);
    assert others[id := joined].Keys == rt.sessions.Keys;
    SessionsKeep(rt, others[id := joined], rt.tokens, limit);
  }

  lemma AttachKeeps(rt: Runtime, connection: string, token: string, newSession: string, newToken: string, limit: nat)
    requires Inv(rt, limit)
    requires newSession != "" && newSession !in rt.sessions && newToken != "" && newToken !in rt.tokens
    ensures Keeps(Attach(rt, connection, token, newSession, newToken), limit)
  {
    if connection != "" {
      if !Recognised(rt, token) {
        NewcomerKeeps(rt, connection, newSession, newToken, limit);
      } else {
        RejoinKeeps(rt, connection, rt.tokens[token], limit);
      }
    }
  }

  lemma DetachKeeps(rt: Runtime, connection: string, limit: nat)
    requires Inv(rt, limit)
    ensures Keeps(Detach(rt, connection), limit)
  {
    if connection != "" && Owner(rt, connection).Some? {
      var id := Owner(rt, connection).value;
      assert id in Owners(rt, connection);
      var session := rt.sessions[id].(connections := rt.sessions[id].connections - {connection});
      JoinKeeps(rt.sessions, id, session, limit);
      assert rt.sessions[id := session].Keys == rt.sessions.Keys;
      SessionsKeep(rt, rt.sessions[id := session], rt.tokens, limit);
    }
  }

  lemma ChooseKeeps(rt: Runtime, s: Selection, limit: nat)
    requires Inv(rt, limit)
    requires limit >= 1
    ensures Keeps(Choose(rt, s, limit).change, limit)
  {
    var reply := Choose(rt, s, limit);
    if reply.change.Persist? {
      StoreKeeps(rt, s.session, s.requestId, ResultRecord(SelectionFingerprint(s), reply.result), limit);
    } else if reply.change.Accept? {
      var b := rt.broadcast.value;
      var control := if b.controller.None? then Some(s.session) else b.controller;
      ClaimKeeps(b, s.session, s.character, control);
      ClaimsKeep(rt, b.assignments[s.session := s.character], b.claimants[s.character := s.session], control, limit);
      StoreKeeps(WithBroadcast(rt, Claimed(b, s.session, s.character).(controller := control)), s.session, s.requestId,
                 ResultRecord(SelectionFingerprint(s), reply.result), limit);
    }
  }

  /** Whoever gets through controls the broadcast and stands on its active terminal,
      with nothing pending. */
  lemma PrepareFacts(rt: Runtime, env: Env, connection: string, c: PlayerCommand, rules: Rules)
    ensures var prepared := Prepare(rt, env, connection, c, rules);
            if prepared.Stop? then
              prepared.reply.change.Reject?
              || (Owner(rt, connection).Some? && c.requestId != ""
                  && prepared.reply == Refuse(rt, Owner(rt, connection).value, c, prepared.reply.result.reason,
                                              env.limit))
            else
              && c.requestId != "" && prepared.session in rt.sessions
              && rt.broadcast.Some? && rt.broadcast.value.active.Some?
              && ActiveTerminal(rt.broadcast) == Some(prepared.terminal) && prepared.terminal.lifecycle == Active
              && rt.broadcast.value.controller == Some(prepared.session)
              && rt.pendingCommand.None? && rt.pendingNavigation.None?
  {
  }

  ghost predicate Acting(rt: Runtime, t: Terminal) {
    && rt.broadcast.Some? && rt.broadcast.value.active.Some?
    && ActiveTerminal(rt.broadcast) == Some(t) && t.lifecycle == Active
    && rt.pendingCommand.None? && rt.pendingNavigation.None?
  }

  lemma RefuseKeeps(rt: Runtime, session: string, c: PlayerCommand, reason: Reason, limit: nat)
    requires Inv(rt, limit) && limit >= 1 && c.requestId != ""
    ensures Keeps(Refuse(rt, session, c, reason, limit).change, limit)
  {
    StoreKeeps(rt, session, c.requestId, ResultRecord(Fingerprint(c), Refusal(rt, c.requestId, reason)), limit);
  }

  lemma TakeKeeps(rt: Runtime, session: string, c: PlayerCommand, after: Runtime, audits: seq<Audit>, limit: nat)
    requires Inv(after, limit) && limit >= 1 && c.requestId != ""
    ensures Keeps(Take(rt, session, c, limit, after, audits).change, limit)
  {
    StoreKeeps(after, session, c.requestId, ResultRecord(Fingerprint(c),
                                                         Take(rt, session, c, limit, after, audits).result), limit);
  }

  lemma RequestReturnKeeps(rt: Runtime, env: Env, session: string, t: Terminal, c: PlayerCommand, limit: nat)
    requires Inv(rt, limit) && limit >= 1 && env.limit == limit && Acting(rt, t) && c.requestId != ""
    requires rt.broadcast.value.route != []
    ensures Keeps(RequestReturn(rt, env, session, t, c).change, limit)
  {
    var route := rt.broadcast.value.route;
    var pending := ReturnDecision(rt, session, t, route[|route| - 1], env.id);
    RefuseKeeps(rt, session, c, InvalidAction, limit);
    TakeKeeps(rt, session, c, rt.(pendingNavigation := Some(pending), notice := None), [], limit);
  }

  lemma RequestForwardKeeps(rt: Runtime, env: Env, session: string, t: Terminal, authored: ContentNode,
                            c: PlayerCommand, limit: nat)
    requires Inv(rt, limit) && limit >= 1 && env.limit == limit && Acting(rt, t) && c.requestId != ""
    requires authored.transition.Some?
    ensures Keeps(RequestForward(rt, env, session, t, authored, c).change, limit)
  {
    var reply := RequestForward(rt, env, session, t, authored, c);
    var record := ResultRecord(Fingerprint(c), reply.result);
    if !LinkCurrent(env.catalog, t, authored) {
      StoreKeeps(rt.(notice := Some(NavigationNotice(TargetMissing, t.terminalId, authored.id,
                                                     authored.transition.value))),
                 session, c.requestId, record, limit);
    } else {
      var target := LookupTransition(env.catalog, t.terminalId, authored.id).value.target;
      StoreKeeps(rt.(pendingNavigation := Some(ForwardDecision(rt, session, t, authored, target, env.id)),
                     notice := None),
                 session, c.requestId, record, limit);
    }
  }

  lemma RequestCommandKeeps(rt: Runtime, env: Env, session: string, t: Terminal, authored: ContentNode,
                            c: PlayerCommand, limit: nat)
    requires Inv(rt, limit) && limit >= 1 && env.limit == limit && Acting(rt, t) && c.requestId != ""
    ensures Keeps(RequestCommand(rt, env, session, t, authored, c).change, limit)
  {
    var pending := PendingCommand(env.id, rt.broadcast.value.id, t.terminalId, authored.id, DisplayedName(t, authored),
                                  ModeOf(t, authored), ConfirmationText(authored), session);
    var shown := PutActive(rt, t.(execution := Some(Execution(Awaiting, authored.id))));
    PutActiveKeeps(rt, t.(execution := Some(Execution(Awaiting, authored.id))), limit);
    SetNoticeKeeps(shown.(pendingCommand := Some(pending)), session, false, limit);
    TakeKeeps(rt, session, c, SetNotice(shown.(pendingCommand := Some(pending)), session, false),
              [Audit(RequestReceived, Accepted, pending.requestId, CommandMode(pending.mode))], limit);
  }

  lemma RequestPlayKeeps(rt: Runtime, env: Env, session: string, t: Terminal, c: PlayerCommand, rules: Rules,
                         limit: nat)
    requires Inv(rt, limit) && limit >= 1 && env.limit == limit && Acting(rt, t) && c.requestId != ""
    ensures Keeps(RequestPlay(rt, env, session, t, c, rules).change, limit)
  {
    var played := Play(t, c, rules);
    RefuseKeeps(rt, session, c, InvalidAction, limit);
    if played.Some? {
      var shown := PutActive(rt, played.value);
      PutActiveKeeps(rt, played.value, limit);
      SetNoticeKeeps(shown, session, false, limit);
      TakeKeeps(rt, session, c, if ParseKind(c.kind) == Present then shown
                else SetNotice(shown, session, false), [], limit);
    }
  }

  lemma RequestOpenKeeps(rt: Runtime, env: Env, session: string, t: Terminal, c: PlayerCommand, limit: nat)
    requires Inv(rt, limit) && limit >= 1 && env.limit == limit && Acting(rt, t) && c.requestId != ""
    ensures Keeps(RequestOpen(rt, env, session, t, c).change, limit)
  {
    if Selected(t, c.nodeId).None? {
      RefuseKeeps(rt, session, c, InvalidAction, limit);
    } else {
      var authored := Selected(t, c.nodeId).value;
      match authored.Behavior() {
        case Invalid => RefuseKeeps(rt, session, c, InvalidAction, limit);
        case Transition => RequestForwardKeeps(rt, env, session, t, authored, c, limit);
        case Changing => RequestCommandKeeps(rt, env, session, t, authored, c, limit);
        case Ordinary => RequestCommandKeeps(rt, env, session, t, authored, c, limit);
      }
    }
  }

  lemma ActKeeps(rt: Runtime, env: Env, session: string, t: Terminal, c: PlayerCommand, rules: Rules, limit: nat)
    requires Inv(rt, limit) && limit >= 1 && env.limit == limit && Acting(rt, t) && c.requestId != ""
    ensures Keeps(Act(rt, env, session, t, c, rules).change, limit)
  {
    if ReturnRequested(t, c, rt.broadcast.value.route) {
      RequestReturnKeeps(rt, env, session, t, c, limit);
    } else if !IsNavigation(c, OpenCommand) {
      RequestPlayKeeps(rt, env, session, t, c, rules, limit);
    } else {
      RequestOpenKeeps(rt, env, session, t, c, limit);
    }
  }

  lemma DispatchActionKeeps(rt: Runtime, env: Env, connection: string, c: PlayerCommand, rules: Rules, limit: nat)
    requires Inv(rt, limit)
    requires limit >= 1 && env.limit == limit
    ensures Keeps(DispatchAction(rt, env, connection, c, rules).change, limit)
  {
    var prepared := Prepare(rt, env, connection, c, rules);
    PrepareFacts(rt, env, connection, c, rules);
    if prepared.Stop? {
      if prepared.reply.change.Persist? {
        StoreKeeps(rt, Owner(rt, connection).value, c.requestId, ResultRecord(Fingerprint(c), prepared.reply.result),
                   limit);
      }
    } else {
      ActKeeps(rt, env, prepared.session, prepared.terminal, c, rules, limit);
    }
  }
}
