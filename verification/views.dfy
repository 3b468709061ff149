/** What each recognised session is shown, and the ordered publication log. */
module Views {
  import opened Domain
  import opened State
  import opened Changes
  import Puzzles
  import Text

  // ---------------------------------------------------------------- projections

  datatype Role = UnassignedRole | ActiveRole | ObserverRole

  datatype PlayerPhase = NoBroadcast | Selecting | Waiting | Controlling | Observing

  datatype Named = Named(id: string, name: string)

  datatype RosterEntry = RosterEntry(id: string, name: string, claimed: bool)

  datatype PlayerState = PlayerState(
    revision: nat,
    sessionId: string,
    fallbackName: string,
    character: Option<Named>,
    role: Role,
    phase: PlayerPhase,
    broadcastId: string,
    activeTerminalId: string,
    roster: seq<RosterEntry>,
    notice: bool)

  function RoleOf(broadcast: Option<Broadcast>, session: string): Role {
    if broadcast.None? || session !in broadcast.value.assignments then UnassignedRole
    else if broadcast.value.controller == Some(session) then ActiveRole
    else ObserverRole
  }

  function CharacterOf(roster: map<string, Character>, broadcast: Option<Broadcast>, session: string): Option<Named> {
    if broadcast.None? || session !in broadcast.value.assignments then None
    else
      var id := broadcast.value.assignments[session];
      if id in roster then Some(Named(roster[id].id, roster[id].name)) else None
  }

  function PhaseOf(character: Option<Named>, role: Role, broadcast: Option<Broadcast>): PlayerPhase {
    if broadcast.None? then NoBroadcast
    else if character.None? then Selecting
    else if broadcast.value.active.None? then Waiting
    else if role == ActiveRole then Controlling
    else Observing
  }

  /** Known members of `order`, each at its first mention. */
  function Ordered(order: seq<string>, known: set<string>): seq<string> {
    if order == [] then []
    else if order[0] in known then [order[0]] + Ordered(order[1..], known - {order[0]})
    else Ordered(order[1..], known)
  }

  ghost function Sorted(ids: set<string>): seq<string> {
    if ids == {} then [] else [Text.Least(ids)] + Sorted(ids - {Text.Least(ids)})
  }

  function Elements(order: seq<string>): set<string> {
    set id | id in order
  }

  ghost function RosterIds(roster: map<string, Character>, order: seq<string>): seq<string> {
    Ordered(order, roster.Keys) + Sorted(roster.Keys - Elements(order))
  }

  function RosterView(roster: map<string, Character>, broadcast: Option<Broadcast>,
                      ids: seq<string>): seq<RosterEntry> {
    if ids == [] then []
    else
      var entry := if ids[0] !in roster then []
                   else [RosterEntry(roster[ids[0]].id, roster[ids[0]].name,
                                     broadcast.Some? && roster[ids[0]].id in broadcast.value.claimants)];
      entry + RosterView(roster, broadcast, ids[1..])
  }

  ghost function PlayerView(rt: Runtime, session: string): PlayerState
    requires session in rt.sessions
  {
    var s := rt.sessions[session];
    var character := CharacterOf(rt.roster, rt.broadcast, s.id);
    var role := RoleOf(rt.broadcast, s.id);
    PlayerState(rt.revision, s.id, s.fallbackName, character, role, PhaseOf(character, role, rt.broadcast),
                if rt.broadcast.Some? then rt.broadcast.value.id else "",
                if rt.broadcast.Some? && rt.broadcast.value.active.Some? then rt.broadcast.value.active.value else "",
                RosterView(rt.roster, rt.broadcast, RosterIds(rt.roster, rt.rosterOrder)), s.notice)
  }

  datatype NavigationView = NavigationView(
    depth: nat, returnTarget: Option<Named>, pending: Option<Direction>, pendingTarget: Option<Named>)

  datatype TerminalView = TerminalView(
    terminalId: string,
    terminalName: string,
    tree: ContentNode,
    commandStates: map<string, CommandState>,
    hackLevel: int,
    introText: string,
    nav: NavState,
    hack: Option<Puzzles.PublicHack>,
    execution: Option<Execution>,
    presentation: Presentation,
    navigation: Option<NavigationView>)

  function Navigation(rt: Runtime): Option<NavigationView> {
    if rt.broadcast.None? || (rt.broadcast.value.route == [] && rt.pendingNavigation.None?) then None
    else
      var route := rt.broadcast.value.route;
      var pending := rt.pendingNavigation;
      Some(NavigationView(
        |route|,
        if route == [] then None else Some(Named(route[|route| - 1].terminalId, route[|route| - 1].terminalName)),
        if pending.None? then None else Some(pending.value.direction),
        if pending.None? then None else Some(Named(pending.value.target, pending.value.targetName))))
  }

  /** A puzzle reaches a projection as its public board only. */
  function Project(t: Terminal, navigation: Option<NavigationView>): TerminalView {
    TerminalView(t.terminalId, t.terminalName, t.tree, t.commandStates, t.hackLevel, t.introText, t.nav,
                 if t.hack.None? then None else Some(Puzzles.Public(t.hack.value)),
                 t.execution, t.presentation, navigation)
  }

  datatype Shown = NoLiveTerminal | Live(view: TerminalView)

  /** The terminal part is absent for a session that plays nobody. */
  datatype Update = Update(revision: nat, player: PlayerState, terminal: Option<Shown>)

  function ShownTerminal(rt: Runtime): Shown {
    var t := ActiveTerminal(rt.broadcast);
    if t.None? || t.value.lifecycle != Active then NoLiveTerminal else Live(Project(t.value, Navigation(rt)))
  }

  predicate Plays(rt: Runtime, session: string) {
    && rt.broadcast.Some?
    && (session in rt.broadcast.value.assignments
        || exists c :: c in rt.broadcast.value.claimants && rt.broadcast.value.claimants[c] == session)
  }

  ghost function CompoundUpdate(rt: Runtime, session: string): Update
    requires session in rt.sessions
  {
    Update(rt.revision, PlayerView(rt, session), if Plays(rt, session) then Some(ShownTerminal(rt)) else None)
  }

  // ---------------------------------------------------------------- the log

  datatype Entry = Published(revision: nat, session: string, update: Update) | Audited(revision: nat, event: Audit)

  function AuditEntries(audits: seq<Audit>, revision: nat): seq<Entry> {
    if audits == [] then [] else [Audited(revision, audits[0])] + AuditEntries(audits[1..], revision)
  }

  ghost function UpdateEntries(rt: Runtime, sessions: seq<string>): seq<Entry>
    requires forall s :: s in sessions ==> s in rt.sessions
  {
    if sessions == [] then []
    else [Published(rt.revision, sessions[0], CompoundUpdate(rt, sessions[0]))] + UpdateEntries(rt, sessions[1..])
  }

  /** The last update enqueued for a session. */
  function LastUpdate(log: seq<Entry>, session: string): Option<Update> {
    if log == [] then None
    else
      var last := log[|log| - 1];
      if last.Published? && last.session == session then Some(last.update) else LastUpdate(log[..|log| - 1], session)
  }

  lemma {:induction false} LastUpdateAfter(log: seq<Entry>, more: seq<Entry>, session: string)
    ensures LastUpdate(log + more, session) ==
            if LastUpdate(more, session).Some? then LastUpdate(more, session) else LastUpdate(log, session)
    decreases |more|
  {
    if more == [] {
      assert log + more == log;
    } else {
      var init := more[..|more| - 1];
      assert (log + more)[..|log + more| - 1] == log + init;
      LastUpdateAfter(log, init, session);
    }
  }

  lemma {:induction false} AuditsPublishNothing(audits: seq<Audit>, revision: nat, session: string)
    ensures LastUpdate(AuditEntries(audits, revision), session) == None
  {
    if audits != [] {
      AuditsPublishNothing(audits[1..], revision, session);
      LastUpdateAfter([Audited(revision, audits[0])], AuditEntries(audits[1..], revision), session);
      assert [Audited(revision, audits[0])][..0] == [];
    }
  }

  lemma {:induction false} SortedMembers(ids: set<string>)
    ensures forall id :: id in Sorted(ids) <==> id in ids
  {
    if ids != {} {
      SortedMembers(ids - {Text.Least(ids)});
    }
  }

  lemma {:induction false} EachIsPublished(rt: Runtime, sessions: seq<string>, session: string)
    requires forall s :: s in sessions ==> s in rt.sessions
    ensures session in sessions ==>
              LastUpdate(UpdateEntries(rt, sessions), session) == Some(CompoundUpdate(rt, session))
    ensures session !in sessions ==> LastUpdate(UpdateEntries(rt, sessions), session) == None
  {
    if sessions != [] {
      EachIsPublished(rt, sessions[1..], session);
      var first := [Published(rt.revision, sessions[0], CompoundUpdate(rt, sessions[0]))];
      LastUpdateAfter(first, UpdateEntries(rt, sessions[1..]), session);
      assert first[..0] == [];
    }
  }

  predicate RevisionsRise(log: seq<Entry>) {
    forall i, k :: 0 <= i < k < |log| ==> log[i].revision <= log[k].revision
  }

  lemma {:induction false} AuditRevisions(audits: seq<Audit>, revision: nat)
    ensures |AuditEntries(audits, revision)| == |audits|
    ensures forall i :: 0 <= i < |audits| ==> AuditEntries(audits, revision)[i] == Audited(revision, audits[i])
  {
    if audits != [] {
      AuditRevisions(audits[1..], revision);
    }
  }

  lemma {:induction false} UpdateRevisions(rt: Runtime, sessions: seq<string>)
    requires forall s :: s in sessions ==> s in rt.sessions
    ensures forall e :: e in UpdateEntries(rt, sessions) ==>
            e.Published? && e.revision == rt.revision && e.update.revision == rt.revision
  {
    if sessions != [] {
      UpdateRevisions(rt, sessions[1..]);
    }
  }
}
