/** What each kind of operation can touch at all: who is there, and what is on the air,
    are two halves that do not disturb each other. */
module Footprints {
  import opened Domain
  import opened State
  import opened Changes
  import opened Sessions
  import opened Claims
  import opened Terminals
  import opened Dispatch
  import opened Coordinator
  import opened Invariants
  import opened Lobby
  import opened Publication
  import Catalogue
  import Nav
  import Puzzles
  import Route
  import Text

  // ---------------------------------------------------------------- two halves

  /** The same people with the same names and connections, the same roster and the same
      claims; only answers and notices may differ. */
  predicate SamePeople(rt: Runtime, after: Runtime) {
    && after.tokens == rt.tokens && after.roster == rt.roster && after.rosterOrder == rt.rosterOrder
    && after.config == rt.config && SameSessions(rt.sessions, after.sessions)
    && (rt.broadcast.Some? <==> after.broadcast.Some?)
    && (rt.broadcast.Some? ==>
          && after.broadcast.value.id == rt.broadcast.value.id
          && after.broadcast.value.assignments == rt.broadcast.value.assignments
          && after.broadcast.value.claimants == rt.broadcast.value.claimants
          && after.broadcast.value.controller == rt.broadcast.value.controller)
  }

  predicate SameSessions(before: map<string, Session>, after: map<string, Session>) {
    after.Keys == before.Keys
    && forall s :: s in before ==> after[s].(results := before[s].results, notice := before[s].notice) == before[s]
  }

  /** The same terminal on the air, the same checkpoints, the same way back, and the same
      decisions waiting. */
  predicate SameAir(rt: Runtime, after: Runtime) {
    && after.pendingSwitch == rt.pendingSwitch && after.pendingCommand == rt.pendingCommand
    && after.pendingNavigation == rt.pendingNavigation && after.notice == rt.notice
    && (rt.broadcast.Some? <==> after.broadcast.Some?)
    && (rt.broadcast.Some? ==>
          after.broadcast.value.(assignments := rt.broadcast.value.assignments,
                                 claimants := rt.broadcast.value.claimants,
                                 controller := rt.broadcast.value.controller) == rt.broadcast.value)
  }

  predicate PeopleKept(rt: Runtime, change: Change) {
    !change.Reject? ==> SamePeople(rt, change.rt)
  }

  lemma PeopleAgain(a: Runtime, b: Runtime, c: Runtime)
    requires SamePeople(a, b) && SamePeople(b, c)
    ensures SamePeople(a, c)
  {
  }

  // ---------------------------------------------------------------- what is on the air

  lemma ClearedKeepsPeople(rt: Runtime)
    ensures SamePeople(rt, Cleared(rt))
  {
  }

  lemma ActivationKeepsPeople(rt: Runtime, env: Env, target: Target)
    ensures PeopleKept(rt, Activate(rt, env, target))
  {
    hide Route.Establish, Opened, Suspend, Unfinished, Cleared;
    ClearedKeepsPeople(rt);
  }

  lemma ClearingKeepsPeople(rt: Runtime, id: string)
    ensures PeopleKept(rt, ClearTerminal(rt, id))
  {
    hide Suspend, Unfinished, Cleared, NavigationToClear;
    ClearedKeepsPeople(rt);
  }

  lemma TerminalOpKeepsPeople(rt: Runtime, env: Env, op: TerminalOp)
    ensures PeopleKept(rt, ExecuteTerminal(rt, env, op))
  {
    hide Activate, ClearTerminal, ResolveSwitch, Updated, Created, Renewed, Puzzles.Forced, PutActive;
    match op {
      case RequestActivation(target) => ActivationKeepsPeople(rt, env, target);
      case RequestClear => ClearingKeepsPeople(rt, env.id);
      case ResolveTerminalSwitch(id, choice) => SwitchKeepsPeople(rt, env, id, choice);
      case _ =>
        if ActiveTerminal(rt.broadcast).Some? && ExecuteTerminal(rt, env, op).Accept? {
          PuttingKeepsPeople(rt);
        }
    }
  }

  lemma PuttingKeepsPeople(rt: Runtime)
    requires rt.broadcast.Some? && rt.broadcast.value.active.Some?
    ensures forall t :: SamePeople(rt, PutActive(rt, t))
  {
  }

  lemma SwitchKeepsPeople(rt: Runtime, env: Env, id: string, choice: Choice)
    ensures PeopleKept(rt, ResolveSwitch(rt, env, id, choice))
  {
    hide Reactivated, Created, Suspend;
  }

  lemma NoticeKeepsPeople(rt: Runtime, session: string, notice: bool)
    ensures SamePeople(rt, SetNotice(rt, session, notice))
  {
  }

  lemma CommandKeepsPeople(rt: Runtime, pending: PendingCommand, t: Terminal, approve: bool, durable: Durable)
    requires rt.broadcast.Some? && rt.broadcast.value.active.Some?
    ensures PeopleKept(rt, AnswerCommand(rt, pending, t, approve, durable))
  {
    hide StillAuthored, DurableSucceeds, Nav.Applied, Selected, SetNotice;
    NoticeKeepsPeople(Settle(rt, t.(execution := None)), pending.controller, true);
  }

  lemma StepKeepsPeople(rt: Runtime, env: Env, pending: PendingNavigation, approve: bool)
    requires rt.broadcast.Some? && rt.broadcast.value.active.Some? && ActiveTerminal(rt.broadcast).Some?
    ensures PeopleKept(rt, AnswerNavigation(rt, env, pending, approve))
  {
    hide Nav.Restored, Route.ValidReturn, Arrive, RejectNavigation, Catalogue.SameGroup, Catalogue.LookupTerminal,
         Catalogue.LookupTransition;
    ArrivingKeepsPeople(rt, env);
    RejectingKeepsPeople(rt, pending, ActiveTerminal(rt.broadcast).value);
  }

  lemma ArrivingKeepsPeople(rt: Runtime, env: Env)
    requires rt.broadcast.Some? && rt.broadcast.value.active.Some?
    ensures forall target, nav, route :: SamePeople(rt, Arrive(rt, env, target, nav, route))
  {
    hide Travel;
  }

  lemma RejectingKeepsPeople(rt: Runtime, pending: PendingNavigation, t: Terminal)
    requires rt.broadcast.Some? && rt.broadcast.value.active.Some?
    ensures SamePeople(rt, RejectNavigation(rt, pending, t).rt)
  {
  }

  lemma DecisionKeepsPeople(rt: Runtime, env: Env, op: DecisionOp)
    ensures PeopleKept(rt, ExecuteDecision(rt, env, op))
  {
    hide AnswerCommand, AnswerNavigation, Route.Accepts, ResetTerminal, ResetAffects;
    match op {
      case ResolveCommandExecution(request, approve, durable) =>
        if CommandCurrent(rt) {
          CommandKeepsPeople(rt, rt.pendingCommand.value, ActiveTerminal(rt.broadcast).value, approve, durable);
        }
      case ResolveTerminalNavigation(request, approve) =>
        if NavigationCurrent(rt, Text.Trim(request)) {
          StepKeepsPeople(rt, env, rt.pendingNavigation.value, approve);
        }
      case _ =>
    }
  }

  lemma StoringKeepsPeople(rt: Runtime, session: string, requestId: string, record: ResultRecord, limit: nat)
    ensures SamePeople(rt, StoreResult(rt, session, requestId, record, limit))
  {
    hide Sessions.Stored;
  }

  lemma TakingKeepsPeople(rt: Runtime, after: Runtime, session: string, c: PlayerCommand, limit: nat,
                          audits: seq<Audit>)
    requires SamePeople(rt, after)
    ensures PeopleKept(rt, Take(rt, session, c, limit, after, audits).change)
  {
    hide SamePeople, StoreResult, Fingerprint;
    StoringKeepsPeople(after, session, c.requestId,
                       ResultRecord(Fingerprint(c), Take(rt, session, c, limit, after, audits).result), limit);
    PeopleAgain(rt, after, Take(rt, session, c, limit, after, audits).change.rt);
  }

  lemma RefusingKeepsPeople(rt: Runtime, session: string, c: PlayerCommand, reason: Reason, limit: nat)
    ensures PeopleKept(rt, Refuse(rt, session, c, reason, limit).change)
  {
    hide SamePeople, StoreResult, Fingerprint;
    StoringKeepsPeople(rt, session, c.requestId, ResultRecord(Fingerprint(c), Refusal(rt, c.requestId, reason)), limit);
  }

  lemma PlayingKeepsPeople(rt: Runtime, env: Env, session: string, t: Terminal, c: PlayerCommand, rules: Rules)
    requires rt.broadcast.Some? && rt.broadcast.value.active.Some?
    ensures PeopleKept(rt, RequestPlay(rt, env, session, t, c, rules).change)
  {
    hide Play, Take, Refuse, SetNotice;
    RefusingKeepsPeople(rt, session, c, InvalidAction, env.limit);
    var played := Play(t, c, rules);
    if played.Some? {
      var shown := PutActive(rt, played.value);
      NoticeKeepsPeople(shown, session, false);
      TakingKeepsPeople(rt, if ParseKind(c.kind) == Present then shown
                        else SetNotice(shown, session, false), session, c,
                        env.limit, []);
    }
  }

  lemma OpeningKeepsPeople(rt: Runtime, env: Env, session: string, t: Terminal, c: PlayerCommand)
    requires rt.broadcast.Some? && rt.broadcast.value.active.Some?
    ensures PeopleKept(rt, RequestOpen(rt, env, session, t, c).change)
  {
    hide Selected, RequestForward, RequestCommand, Refuse;
    RefusingKeepsPeople(rt, session, c, InvalidAction, env.limit);
    var authored := Selected(t, c.nodeId);
    if authored.Some? && authored.value.Behavior() == Transition {
      LinkKeepsPeople(rt, env, session, t, authored.value, c);
    } else if authored.Some? {
      AskingKeepsPeople(rt, env, session, t, authored.value, c);
    }
  }

  lemma LinkKeepsPeople(rt: Runtime, env: Env, session: string, t: Terminal, authored: ContentNode, c: PlayerCommand)
    requires rt.broadcast.Some? && authored.transition.Some?
    ensures PeopleKept(rt, RequestForward(rt, env, session, t, authored, c).change)
  {
    hide Take, StoreResult, Fingerprint, PointOf;
    var reply := RequestForward(rt, env, session, t, authored, c);
    if LinkCurrent(env.catalog, t, authored) {
      var link := Catalogue.LookupTransition(env.catalog, t.terminalId, authored.id).value;
      var pending := ForwardDecision(rt, session, t, authored, link.target, env.id);
      TakingKeepsPeople(rt, rt.(pendingNavigation := Some(pending), notice := None), session, c, env.limit,
                        [Audit(RequestReceived, Accepted, pending.requestId, TransitionMode)]);
    } else {
      var noted := rt.(notice := Some(NavigationNotice(TargetMissing, t.terminalId, authored.id,
                                                       authored.transition.value)));
      StoringKeepsPeople(noted, session, c.requestId, ResultRecord(Fingerprint(c), reply.result), env.limit);
    }
  }

  lemma AskingKeepsPeople(rt: Runtime, env: Env, session: string, t: Terminal, authored: ContentNode, c: PlayerCommand)
    requires rt.broadcast.Some? && rt.broadcast.value.active.Some?
    ensures PeopleKept(rt, RequestCommand(rt, env, session, t, authored, c).change)
  {
  }

  lemma ReturningKeepsPeople(rt: Runtime, env: Env, session: string, t: Terminal, c: PlayerCommand)
    requires rt.broadcast.Some? && rt.broadcast.value.route != []
    ensures PeopleKept(rt, RequestReturn(rt, env, session, t, c).change)
  {
    hide Route.ValidReturn, Take, Refuse;
    RefusingKeepsPeople(rt, session, c, InvalidAction, env.limit);
    var route := rt.broadcast.value.route;
    TakingKeepsPeople(rt, rt.(pendingNavigation := Some(ReturnDecision(rt, session, t, route[|route| - 1], env.id)),
                              notice := None), session, c, env.limit, []);
  }

  lemma ActionKeepsPeople(rt: Runtime, env: Env, connection: string, c: PlayerCommand, rules: Rules)
    ensures PeopleKept(rt, DispatchAction(rt, env, connection, c, rules).change)
  {
    hide SamePeople, RequestReturn, RequestPlay, RequestOpen, Refuse, Prepare;
    PrepareFacts(rt, env, connection, c, rules);
    var prepared := Prepare(rt, env, connection, c, rules);
    if prepared.Go? {
      var session, t := prepared.session, prepared.terminal;
      PlayingKeepsPeople(rt, env, session, t, c, rules);
      OpeningKeepsPeople(rt, env, session, t, c);
      if rt.broadcast.value.route != [] {
        ReturningKeepsPeople(rt, env, session, t, c);
      }
    } else if Owner(rt, connection).Some? {
      RefusingKeepsPeople(rt, Owner(rt, connection).value, c, prepared.reply.result.reason, env.limit);
    }
  }

  // ---------------------------------------------------------------- who is there

  lemma ClaimOpKeepsAir(rt: Runtime, op: ClaimOp)
    requires !ExecuteClaim(rt, op).Reject?
    ensures SameAir(rt, ExecuteClaim(rt, op).rt)
  {
  }

  lemma SessionOpKeepsAir(rt: Runtime, env: Env, op: SessionOp)
    requires !ExecuteSession(rt, env, op).Reject?
    ensures SameAir(rt, ExecuteSession(rt, env, op).rt)
  {
  }

  /** Whatever happens on the air leaves everybody who they are, and whoever comes, goes or
      changes character leaves the air as it is; only the ends of a broadcast reach both. */
  lemma HalvesStayApart(rt: Runtime, env: Env, op: Operation)
    requires !Execute(rt, env, op).Reject?
    ensures var after := Execute(rt, env, op).rt;
            match op
            case Setup(setup) => setup.StartBroadcast? || setup.EndBroadcast? || SameAir(rt, after)
            case OnSession(session) => SameAir(rt, after)
            case OnClaim(claim) => SameAir(rt, after)
            case OnTerminal(terminal) => SamePeople(rt, after)
            case Decide(decision) => SamePeople(rt, after)
            case PlayerAction(connection, action, rules) => SamePeople(rt, after)
  {
    hide SamePeople, ExecuteSession, ExecuteClaim, ExecuteTerminal, ExecuteDecision, DispatchAction;
    match op {
      case Setup(setup) =>
      case OnSession(session) => SessionOpKeepsAir(rt, env, session);
      case OnClaim(claim) => ClaimOpKeepsAir(rt, claim);
      case OnTerminal(terminal) => TerminalOpKeepsPeople(rt, env, terminal);
      case Decide(decision) => DecisionKeepsPeople(rt, env, decision);
      case PlayerAction(connection, action, rules) => ActionKeepsPeople(rt, env, connection, action, rules);
    }
  }

  // ---------------------------------------------------------------- the roster over a whole run

  /** A configuration or a new character passes the check only if identifiers differ. */
  predicate CheckedHonestly(rt: Runtime, op: Operation) {
    match op
    case Setup(InstallPlayerConfig(handle, authored, valid)) => valid ==> Once(authored)
    case Setup(AddCharacterOp(expected, entry, valid, saved)) => valid ==> entry.id !in rt.roster
    case _ => true
  }

  ghost predicate Listed(rt: Runtime) {
    exists list :: ListedAs(rt, list)
  }

  lemma SetupKeepsListed(rt: Runtime, env: Env, op: SetupOp, list: seq<Character>)
    requires ListedAs(rt, list) && CheckedHonestly(rt, Setup(op)) && ExecuteSetup(rt, env, op).Accept?
    ensures Listed(ExecuteSetup(rt, env, op).rt)
  {
    hide ListedAs, Install, AddCharacter, UpdateCharacter, DeleteCharacter;
    match op {
      case InstallPlayerConfig(handle, authored, valid) => InstallsExactly(rt, env, handle, authored, valid);
      case ClearPlayerConfig => InstallsExactly(rt, env, ConfigHandle("", 0, "", ""), [], false);
      case AddCharacterOp(expected, entry, valid, saved) =>
        NewIsOnce(rt, list, entry, valid);
        AddsExactly(rt, env, expected, entry, valid, saved, list);
      case UpdateCharacterOp(expected, entry, valid, saved) =>
        StrangersStayOff(rt, env, expected, entry, valid, saved);
        var i := PlaceOf(rt, list, entry.id);
        UpdatesExactly(rt, env, expected, entry, valid, saved, list, i);
      case DeleteCharacterOp(expected, id, saved) =>
        StrangersStayOff(rt, env, expected, Character(id, "", 0, false), false, saved);
        var i := PlaceOf(rt, list, id);
        DeletesExactly(rt, env, expected, saved, list, i);
      case _ => SameRosterSameList(rt, ExecuteSetup(rt, env, op).rt, list);
    }
  }

  lemma SameRosterSameList(rt: Runtime, after: Runtime, list: seq<Character>)
    requires ListedAs(rt, list) && after.roster == rt.roster && after.rosterOrder == rt.rosterOrder
    ensures ListedAs(after, list)
  {
  }

  lemma NewIsOnce(rt: Runtime, list: seq<Character>, entry: Character, valid: bool)
    requires ListedAs(rt, list) && (valid ==> entry.id !in rt.roster)
    ensures valid ==> Once(list + [entry])
  {
  }

  lemma PlaceOf(rt: Runtime, list: seq<Character>, id: string) returns (i: nat)
    requires ListedAs(rt, list) && id in rt.roster
    ensures i < |list| && list[i].id == id
  {
    i :| 0 <= i < |rt.rosterOrder| && rt.rosterOrder[i] == id;
  }

  lemma OperationKeepsListed(s: Coordinator, env: Env, op: Operation)
    requires Listed(s.rt) && CheckedHonestly(s.rt, op)
    ensures Listed(Commit(s, Execute(s.rt, env, op)).rt)
  {
    hide ListedAs, ExecuteSetup, ExecuteSession, ExecuteClaim, ExecuteTerminal, ExecuteDecision, DispatchAction,
         CheckedHonestly;
    var change := Execute(s.rt, env, op);
    var list :| ListedAs(s.rt, list);
    if !change.Reject? {
      if op.Setup? {
        SetupNeverStores(s.rt, env, op.setup);
        SetupKeepsListed(s.rt, env, op.setup, list);
        var more :| ListedAs(change.rt, more);
        SameRosterSameList(change.rt, Commit(s, change).rt, more);
      } else {
        RosterOnlyBySetup(s.rt, env, op);
        SameRosterSameList(s.rt, Commit(s, change).rt, list);
      }
    }
  }

  lemma SetupNeverStores(rt: Runtime, env: Env, op: SetupOp)
    ensures !ExecuteSetup(rt, env, op).Persist?
  {
  }

  lemma RosterOnlyBySetup(rt: Runtime, env: Env, op: Operation)
    requires !op.Setup? && !Execute(rt, env, op).Reject?
    ensures Execute(rt, env, op).rt.roster == rt.roster && Execute(rt, env, op).rt.rosterOrder == rt.rosterOrder
  {
    hide ExecuteTerminal, ExecuteDecision, DispatchAction;
    if !op.OnSession? && !op.OnClaim? {
      HalvesStayApart(rt, env, op);
    }
  }

  /** In every reachable state the roster is a list of different characters, so every
      session is shown it in the authored order. */
  lemma {:induction false} RunKeepsRosterListed(states: seq<Coordinator>, steps: seq<Step>, limit: nat, n: nat)
    requires IsRun(states, steps, limit) && n < |states|
    requires forall i :: 0 <= i < n ==> CheckedHonestly(states[i].rt, steps[i].op)
    ensures Listed(states[n].rt)
  {
    if n == 0 {
      assert ListedAs(states[0].rt, []);
    } else {
      RunKeepsRosterListed(states, steps, limit, n - 1);
      assert Linked(states, steps, n - 1, limit);
      OperationKeepsListed(states[n - 1], steps[n - 1].env, steps[n - 1].op);
    }
  }
}
