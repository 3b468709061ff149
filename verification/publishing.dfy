/** Snapshots and projections read off the objects of the aggregate. */
module Publishing {
  import opened Domain
  import opened State
  import opened Changes
  import opened Heap
  import opened TerminalSteps
  import ClaimSteps
  import PuzzleSteps
  import Views
  import Text

  method SortIds(ids: set<string>) returns (sorted: seq<string>)
    ensures sorted == Views.Sorted(ids)
  {
    sorted := [];
    var rest := ids;
    while rest != {}
      invariant rest <= ids && sorted + Views.Sorted(rest) == Views.Sorted(ids)
      decreases rest
    {
      var id := Text.FindLeast(rest);
      sorted := sorted + [id];
      rest := rest - {id};
    }
  }

  /** The authored order first, each known character once; any other by identifier. */
  method OrderedRosterIds(roster: map<string, Character>, order: seq<string>) returns (ids: seq<string>)
    ensures ids == Views.RosterIds(roster, order)
  {
    ids := [];
    var unseen := roster.Keys;
    for index := 0 to |order|
      invariant unseen == roster.Keys - Views.Elements(order[..index])
      invariant ids + Views.Ordered(order[index..], unseen) == Views.Ordered(order, roster.Keys)
    {
      assert order[index..][1..] == order[index + 1..];
      assert order[..index + 1] == order[..index] + [order[index]];
      if order[index] in unseen {
        ids := ids + [order[index]];
        unseen := unseen - {order[index]};
      }
    }
    assert order[..|order|] == order;
    var remainder := SortIds(unseen);
    ids := ids + remainder;
  }

  method RosterEntries(roster: map<string, Character>, broadcast: LiveBroadcast?, ids: seq<string>)
    returns (entries: seq<Views.RosterEntry>)
    ensures entries == Views.RosterView(roster, old(BroadcastValue(broadcast)), ids)
  {
    entries := [];
    ghost var live := BroadcastValue(broadcast);
    for index := 0 to |ids|
      invariant entries + Views.RosterView(roster, live, ids[index..]) == Views.RosterView(roster, live, ids)
    {
      assert ids[index..][1..] == ids[index + 1..];
      if ids[index] in roster {
        var character := roster[ids[index]];
        var claimed := broadcast != null && character.id in broadcast.claimants.entries;
        entries := entries + [Views.RosterEntry(character.id, character.name, claimed)];
      }
    }
  }

  function RoleForSession(broadcast: LiveBroadcast?, session: string): (role: Views.Role)
    reads broadcast, if broadcast == null then {} else {broadcast.assignments}
  {
    if broadcast == null || session !in broadcast.assignments.entries then Views.UnassignedRole
    else if broadcast.controller == Some(session) then Views.ActiveRole
    else Views.ObserverRole
  }

  function AssignedCharacter(roster: map<string, Character>, broadcast: LiveBroadcast?,
                             session: string): (character: Option<Views.Named>)
    reads if broadcast == null then {} else {broadcast.assignments}
  {
    if broadcast == null || session !in broadcast.assignments.entries then None
    else
      var id := broadcast.assignments.entries[session];
      if id in roster then Some(Views.Named(roster[id].id, roster[id].name)) else None
  }

  method RosterShown(runtime: ProcessRuntime, ghost rt: Runtime) returns (entries: seq<Views.RosterEntry>)
    requires runtime.Value() == rt
    ensures runtime.Value() == rt
    ensures entries == Views.RosterView(rt.roster, rt.broadcast, Views.RosterIds(rt.roster, rt.rosterOrder))
  {
    var ids := OrderedRosterIds(runtime.roster.byId, runtime.roster.order);
    RuntimeStays(runtime);
    entries := RosterEntries(runtime.roster.byId, runtime.broadcast, ids);
    RuntimeStays(runtime);
  }

  method PlayerSnapshot(runtime: ProcessRuntime, id: string, ghost rt: Runtime) returns (state: Views.PlayerState)
    requires runtime.Value() == rt && id in runtime.sessions
    ensures runtime.Value() == rt && state == Views.PlayerView(rt, id)
  {
    var entries := RosterShown(runtime, rt);
    var session, broadcast := runtime.sessions[id], runtime.broadcast;
    var role := RoleForSession(broadcast, session.id);
    var character := AssignedCharacter(runtime.roster.byId, broadcast, session.id);
    var phase := if broadcast == null then Views.NoBroadcast
                 else if character.None? then Views.Selecting
                 else if broadcast.active.None? then Views.Waiting
                 else if role == Views.ActiveRole then Views.Controlling
                 else Views.Observing;
    state := Views.PlayerState(
      runtime.revision, session.id, session.fallbackName, character, role, phase,
      if broadcast == null then "" else broadcast.id,
      if broadcast == null || broadcast.active.None? then "" else broadcast.active.value,
      entries, session.notice);
  }

  /** What the players may see of a checkpoint: its puzzle as a public board only. */
  method ProjectRuntime(t: TerminalRuntime, navigation: Option<Views.NavigationView>) returns (view: Views.TerminalView)
    ensures view == Views.Project(old(t.Value()), navigation)
  {
    var board := None;
    if t.hack != null {
      var public := PuzzleSteps.PublicState(t.hack);
      board := Some(public);
    }
    view := Views.TerminalView(t.terminalId, t.terminalName, t.tree.root, t.commandStates.states, t.hackLevel,
                               t.introText, t.nav,
                               board, t.execution, t.presentation, navigation);
  }

  function DecorateNavigation(runtime: ProcessRuntime): (navigation: Option<Views.NavigationView>)
    reads runtime, if runtime.broadcast == null then {} else {runtime.broadcast.route}
  {
    if runtime.broadcast == null || (runtime.broadcast.route.points == [] && runtime.pendingNavigation.None?) then None
    else
      var route, pending := runtime.broadcast.route.points, runtime.pendingNavigation;
      Some(Views.NavigationView(
        |route|,
        if route == [] then None else Some(Views.Named(route[|route| - 1].terminalId, route[|route| - 1].terminalName)),
        if pending.None? then None else Some(pending.value.direction),
        if pending.None? then None else Some(Views.Named(pending.value.target, pending.value.targetName))))
  }

  method ShownTerminal(runtime: ProcessRuntime, ghost rt: Runtime) returns (shown: Views.Shown)
    requires runtime.Value() == rt
    ensures runtime.Value() == rt && shown == Views.ShownTerminal(rt)
  {
    ActiveReads(runtime.broadcast);
    var t := ActiveTerminalRuntime(runtime.broadcast);
    if t == null || t.lifecycle != Active {
      return Views.NoLiveTerminal;
    }
    var view := ProjectRuntime(t, DecorateNavigation(runtime));
    RuntimeStays(runtime);
    return Views.Live(view);
  }

  method CompoundUpdate(runtime: ProcessRuntime, id: string, ghost rt: Runtime) returns (update: Views.Update)
    requires runtime.Value() == rt && id in runtime.sessions
    ensures runtime.Value() == rt && update == Views.CompoundUpdate(rt, id)
  {
    var plays := IsPlaying(runtime, id, rt);
    var player := PlayerSnapshot(runtime, id, rt);
    if !plays {
      return Views.Update(runtime.revision, player, None);
    }
    var shown := ShownTerminal(runtime, rt);
    return Views.Update(runtime.revision, player, Some(shown));
  }

  method IsPlaying(runtime: ProcessRuntime, id: string, ghost rt: Runtime) returns (plays: bool)
    requires runtime.Value() == rt
    ensures runtime.Value() == rt && (plays <==> Views.Plays(rt, id))
  {
    plays := false;
    if runtime.broadcast != null {
      plays := ClaimSteps.SessionAssigned(runtime.broadcast, id);
      RuntimeStays(runtime);
    }
  }

  /** One update for every recognised session, in identifier order. */
  method PublishUpdates(runtime: ProcessRuntime, ids: seq<string>, ghost rt: Runtime)
    returns (entries: seq<Views.Entry>)
    requires runtime.Value() == rt && forall s :: s in ids ==> s in runtime.sessions
    ensures (forall s :: s in ids ==> s in rt.sessions) && entries == Views.UpdateEntries(rt, ids)
  {
    assert forall s :: s in ids ==> s in rt.sessions;
    entries := [];
    for index := 0 to |ids|
      invariant runtime.Value() == rt && |entries| == index
      invariant forall k :: 0 <= k < index ==> IsUpdate(entries[k], rt, ids[k])
    {
      var entry := UpdateFor(runtime, ids[index], rt);
      entries := entries + [entry];
    }
    EntriesAreUpdates(rt, ids, entries);
  }

  ghost predicate IsUpdate(entry: Views.Entry, rt: Runtime, id: string) {
    id in rt.sessions && entry == Views.Published(rt.revision, id, Views.CompoundUpdate(rt, id))
  }

  lemma {:induction false} EntriesAreUpdates(rt: Runtime, ids: seq<string>, entries: seq<Views.Entry>)
    requires (forall s :: s in ids ==> s in rt.sessions) && |entries| == |ids|
    requires forall k :: 0 <= k < |ids| ==> IsUpdate(entries[k], rt, ids[k])
    ensures entries == Views.UpdateEntries(rt, ids)
  {
    if ids != [] {
      assert IsUpdate(entries[0], rt, ids[0]);
      forall k | 0 <= k < |ids| - 1 ensures IsUpdate(entries[1..][k], rt, ids[1..][k]) {
        assert IsUpdate(entries[k + 1], rt, ids[k + 1]);
      }
      EntriesAreUpdates(rt, ids[1..], entries[1..]);
      assert entries == [entries[0]] + entries[1..];
    }
  }

  method UpdateFor(runtime: ProcessRuntime, id: string, ghost rt: Runtime) returns (entry: Views.Entry)
    requires runtime.Value() == rt && id in runtime.sessions
    ensures runtime.Value() == rt && IsUpdate(entry, rt, id)
  {
    var update := CompoundUpdate(runtime, id, rt);
    entry := Views.Published(runtime.revision, id, update);
  }

  method StampAudits(audits: seq<Audit>, revision: nat) returns (entries: seq<Views.Entry>)
    ensures entries == Views.AuditEntries(audits, revision)
  {
    entries := [];
    for index := 0 to |audits|
      invariant entries + Views.AuditEntries(audits[index..], revision) == Views.AuditEntries(audits, revision)
    {
      assert audits[index..][1..] == audits[index + 1..];
      entries := entries + [Views.Audited(revision, audits[index])];
    }
  }
}
