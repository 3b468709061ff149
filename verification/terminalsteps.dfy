/** Terminal checkpoints and switching, changed in place on a working copy. */
module TerminalSteps {
  import opened Domain
  import opened State
  import opened Changes
  import opened Catalogue
  import opened Heap
  import Claims
  import Nav
  import Route
  import Terminals
  import Text

  // ---------------------------------------------------------------- one checkpoint

  method UpdateRuntime(t: TerminalRuntime, target: Target)
    modifies t, t.tree, t.commandStates
    ensures t.Value() == Terminals.Updated(old(t.Value()), target)
  {
    t.terminalName, t.introText := target.terminalName, target.introText;
    t.tree.root, t.commandStates.states := target.tree, target.commandStates;
    if t.hack == null {
      t.hackLevel := target.hackLevel;
    }
    var nav := Nav.Revalidate(t.nav, t.tree.root);
    t.nav := nav;
  }

  method ReactivateRuntime(t: TerminalRuntime, target: Target)
    modifies t, t.tree, t.commandStates
    ensures t.Value() == Terminals.Reactivated(old(t.Value()), target)
  {
    UpdateRuntime(t, target);
    t.execution, t.lifecycle := None, Active;
  }

  method CreateRuntime(target: Target, board: Option<HackState>) returns (t: TerminalRuntime)
    ensures fresh(t.Cells()) && t.Value() == Terminals.Created(target, board)
  {
    t := new TerminalRuntime(Terminals.Created(target, board));
  }

  predicate Unfinished(t: TerminalRuntime)
    reads t.hack
  {
    t.hack != null && !t.hack.solved && !t.hack.failed
  }

  // ---------------------------------------------------------------- the checkpoints of a broadcast

  /** The checkpoint shown to the players. */
  function ActiveTerminalRuntime(broadcast: LiveBroadcast?): (t: TerminalRuntime?)
    reads broadcast
    ensures t != null ==> broadcast != null && broadcast.active.Some? && broadcast.active.value in broadcast.terminals
                          && t == broadcast.terminals[broadcast.active.value]
  {
    if broadcast == null || broadcast.active.None? || broadcast.active.value !in broadcast.terminals then null
    else broadcast.terminals[broadcast.active.value]
  }

  lemma ActiveReads(broadcast: LiveBroadcast?)
    ensures var t := ActiveTerminalRuntime(broadcast);
            ActiveTerminal(BroadcastValue(broadcast)) == if t == null then None else Some(t.Value())
  {
  }

  method LifecycleAt(terminals: map<string, TerminalRuntime>, id: string, lifecycle: Lifecycle)
    requires TerminalsApart(terminals) && id in terminals
    modifies terminals.Values
    ensures var values := old(TerminalValues(terminals));
            TerminalValues(terminals) == values[id := values[id].(lifecycle := lifecycle)]
  {
    hide TerminalValues, TerminalsApart;
    var t := terminals[id];
    t.lifecycle := lifecycle;
    OnlyAt(terminals, id, t);
  }

  method SuspendAt(terminals: map<string, TerminalRuntime>, id: string)
    requires TerminalsApart(terminals)
    modifies terminals.Values
    ensures TerminalValues(terminals) == Terminals.Suspend(old(TerminalValues(terminals)), id)
  {
    if id in terminals {
      LifecycleAt(terminals, id, Suspended);
    }
  }

  // A checkpoint that shares nothing with those stored.
  ghost predicate Outside(t: TerminalRuntime, terminals: map<string, TerminalRuntime>) {
    && t !in terminals.Values && t.tree !in ContentTrees(terminals) && t.commandStates !in CommandTables(terminals)
    && (t.hack != null ==> t.hack !in PuzzleObjects(terminals))
  }

  twostate lemma NewIsOutside(new t: TerminalRuntime, terminals: map<string, TerminalRuntime>)
    requires fresh(t.Cells())
    ensures Outside(t, terminals)
  {
  }

  twostate lemma PutKeeps(before: map<string, TerminalRuntime>, new after: map<string, TerminalRuntime>, new id: string,
                          new t: TerminalRuntime)
    requires after == before[id := t] && fresh(t.Cells())
    ensures KeptOrAdded(before, after)
  {
  }

  twostate lemma SameKeeps(terminals: map<string, TerminalRuntime>)
    ensures KeptOrAdded(terminals, terminals)
  {
  }

  method PutRuntime(broadcast: LiveBroadcast, id: string, t: TerminalRuntime)
    requires TerminalsApart(broadcast.terminals) && Outside(t, broadcast.terminals)
    modifies broadcast`terminals
    ensures TerminalsApart(broadcast.terminals)
    ensures broadcast.terminals == old(broadcast.terminals)[id := t]
    ensures TerminalValues(broadcast.terminals) == old(TerminalValues(broadcast.terminals))[id := t.Value()]
  {
    broadcast.terminals := broadcast.terminals[id := t];
  }

  method ExecutionAt(terminals: map<string, TerminalRuntime>, id: string, execution: Option<Execution>)
    requires TerminalsApart(terminals) && id in terminals
    modifies terminals.Values
    ensures var values := old(TerminalValues(terminals));
            TerminalValues(terminals) == values[id := values[id].(execution := execution)]
  {
    hide TerminalValues, TerminalsApart;
    var t := terminals[id];
    t.execution := execution;
    OnlyAt(terminals, id, t);
  }

  // The checkpoints in `todo` still have their execution.
  function ClearedBut(values: map<string, Terminal>, todo: set<string>): map<string, Terminal> {
    map id | id in values :: if id in todo then values[id] else values[id].(execution := None)
  }

  lemma ClearedEnds(values: map<string, Terminal>)
    ensures ClearedBut(values, values.Keys) == values && ClearedBut(values, {}) == Terminals.WithoutExecutions(values)
  {
  }

  lemma ClearedOne(values: map<string, Terminal>, todo: set<string>, id: string)
    requires id in todo && todo <= values.Keys
    ensures id in ClearedBut(values, todo) && ClearedBut(values, todo)[id] == values[id]
    ensures ClearedBut(values, todo - {id}) == ClearedBut(values, todo)[id := values[id].(execution := None)]
  {
  }

  method ClearExecutions(terminals: map<string, TerminalRuntime>)
    requires TerminalsApart(terminals)
    modifies terminals.Values
    ensures TerminalValues(terminals) == Terminals.WithoutExecutions(old(TerminalValues(terminals)))
  {
    ghost var values := TerminalValues(terminals);
    assert values.Keys == terminals.Keys;
    hide TerminalValues, TerminalsApart, ClearedBut;
    ClearedEnds(values);
    var rest := terminals.Keys;
    while rest != {}
      invariant rest <= terminals.Keys && TerminalValues(terminals) == ClearedBut(values, rest)
      decreases rest
    {
      var id :| id in rest;
      ClearedOne(values, rest, id);
      ExecutionAt(terminals, id, None);
      rest := rest - {id};
    }
  }

  method SetPendingCommand(runtime: ProcessRuntime, pending: Option<PendingCommand>)
    requires runtime.Valid()
    modifies runtime`pendingCommand
    ensures SameObjects(runtime)
    ensures runtime.Value() == old(runtime.Value()).(pendingCommand := pending)
  {
    runtime.pendingCommand := pending;
    SessionsStay(runtime.sessions);
    BroadcastStays(runtime.broadcast);
  }

  method ClearCommandExecution(runtime: ProcessRuntime)
    requires runtime.Valid()
    modifies runtime`pendingCommand, if runtime.broadcast == null then {} else runtime.broadcast.terminals.Values
    ensures runtime.Value() == Terminals.ClearExecution(old(runtime.Value()))
  {
    SetPendingCommand(runtime, None);
    if runtime.broadcast != null {
      ClearShown(runtime);
    }
  }

  method ClearShown(runtime: ProcessRuntime)
    requires runtime.Valid() && runtime.broadcast != null
    modifies runtime.broadcast.terminals.Values
    ensures var rt := old(runtime.Value()); var b := rt.broadcast.value;
            runtime.Value() == Claims.WithBroadcast(rt, b.(terminals := Terminals.WithoutExecutions(b.terminals)))
  {
    ClearExecutions(runtime.broadcast.terminals);
    TerminalsAlone(runtime);
  }

  method SetNavigation(runtime: ProcessRuntime, pending: Option<PendingNavigation>, notice: Option<NavigationNotice>)
    requires runtime.Valid()
    modifies runtime`pendingNavigation, runtime`notice
    ensures SameObjects(runtime)
    ensures runtime.Value() == old(runtime.Value()).(pendingNavigation := pending, notice := notice)
  {
    runtime.pendingNavigation, runtime.notice := pending, notice;
    SessionsStay(runtime.sessions);
    BroadcastStays(runtime.broadcast);
  }

  method SetRoute(broadcast: LiveBroadcast, route: seq<ReturnPoint>)
    modifies broadcast.route
    ensures broadcast.Value() == old(broadcast.Value()).(route := route)
  {
    broadcast.route.points := route;
    TerminalsStay(broadcast.terminals);
  }

  method ClearTerminalNavigation(runtime: ProcessRuntime) returns (changed: bool)
    requires runtime.Valid()
    modifies runtime`pendingNavigation, runtime`notice, BroadcastOwn(runtime.broadcast)
    ensures SameObjects(runtime)
    ensures runtime.broadcast != null ==> runtime.broadcast.active == old(runtime.broadcast.active)
    ensures runtime.Value() == Terminals.ClearNavigation(old(runtime.Value()))
    ensures changed <==> Terminals.NavigationToClear(old(runtime.Value()))
  {
    changed := runtime.pendingNavigation.Some? || runtime.notice.Some?
               || (runtime.broadcast != null && runtime.broadcast.route.points != []);
    runtime.pendingNavigation, runtime.notice := None, None;
    if runtime.broadcast != null {
      runtime.broadcast.route.points := [];
      TerminalsStay(runtime.broadcast.terminals);
    }
    SessionsStay(runtime.sessions);
  }

  // ---------------------------------------------------------------- the initial route

  method FindMember(members: seq<string>, id: string) returns (position: int)
    ensures position == Route.IndexOf(members, id)
  {
    for index := 0 to |members|
      invariant Route.IndexOf(members, id) ==
        if Route.IndexOf(members[index..], id) < 0 then -1 else index + Route.IndexOf(members[index..], id)
    {
      if members[index] == id {
        return index;
      }
      assert members[index..][1..] == members[index + 1..];
    }
    return -1;
  }

  lemma {:induction false} UnknownMemberStops(catalog: Catalog, group: Group, known: nat, count: nat)
    requires known <= count <= |group.members| && Route.SeedRoute(catalog, group, known).None?
    ensures Route.SeedRoute(catalog, group, count).None?
  {
    if known < count {
      UnknownMemberStops(catalog, group, known, count - 1);
    }
  }

  method BuildSeedRoute(catalog: Catalog, group: Group, count: nat) returns (route: Option<seq<ReturnPoint>>)
    requires count <= |group.members|
    ensures route == Route.SeedRoute(catalog, group, count)
  {
    var points := [];
    for index := 0 to count
      invariant Route.SeedRoute(catalog, group, index) == Some(points)
    {
      var target := LookupTerminal(catalog, group.members[index]);
      if target.None? {
        UnknownMemberStops(catalog, group, index + 1, count);
        return None;
      }
      points := points + [Route.SeedPoint(target.value, group, index)];
    }
    return Some(points);
  }

  method Anchor(broadcast: LiveBroadcast, id: string, groupId: string, position: int, route: seq<ReturnPoint>)
    modifies broadcast`initialId, broadcast`initialGroup, broadcast`initialPosition, broadcast.route
    ensures broadcast.Value() == old(broadcast.Value()).(initialId := id, initialGroup := groupId,
                                                         initialPosition := position, route := route)
  {
    broadcast.initialId, broadcast.initialGroup, broadcast.initialPosition := id, groupId, position;
    broadcast.route.points := route;
    TerminalsStay(broadcast.terminals);
  }

  method EstablishInitialTerminalRoute(broadcast: LiveBroadcast, catalog: Catalog, id: string)
    modifies broadcast`established, broadcast`initialId, broadcast`initialGroup, broadcast`initialPosition,
             broadcast.route
    ensures var b := old(broadcast.Value());
            broadcast.Value() == Terminals.WithJourney(b, Route.Establish(catalog, JourneyOf(b), id))
  {
    if broadcast.established {
      return;
    }
    broadcast.established := true;
    TerminalsStay(broadcast.terminals);
    var group := FindGroup(catalog.groups, id);
    if group.None? || group.value.id == "" {
      return;
    }
    var position := FindMember(group.value.members, id);
    if position < 0 {
      TerminalsStay(broadcast.terminals);
      return;
    }
    if position == 0 {
      TerminalsStay(broadcast.terminals);
      Anchor(broadcast, id, group.value.id, position, broadcast.route.points);
      return;
    }
    var route := BuildSeedRoute(catalog, group.value, position);
    TerminalsStay(broadcast.terminals);
    if route.Some? {
      Anchor(broadcast, id, group.value.id, position, route.value);
    }
  }

  // ---------------------------------------------------------------- activation

  method Reopen(t: TerminalRuntime, target: Target)
    modifies t, t.tree, t.commandStates
    ensures t.Value() == if old(t.lifecycle) == Suspended then Terminals.Reactivated(old(t.Value()), target)
                         else Terminals.Updated(old(t.Value()), target).(lifecycle := Active)
  {
    if t.lifecycle == Suspended {
      ReactivateRuntime(t, target);
    } else {
      UpdateRuntime(t, target);
      t.lifecycle := Active;
    }
  }

  method ReopenAt(terminals: map<string, TerminalRuntime>, target: Target, board: Option<HackState>)
    requires TerminalsApart(terminals) && target.terminalId in terminals
    modifies terminals.Values, ContentTrees(terminals), CommandTables(terminals)
    ensures var values := old(TerminalValues(terminals));
            TerminalValues(terminals) == values[target.terminalId := Terminals.Opened(values, target, board)]
  {
    hide TerminalValues, TerminalsApart;
    var t := terminals[target.terminalId];
    Reopen(t, target);
    OnlyAt(terminals, target.terminalId, t);
  }

  /** The target's checkpoint is created, reactivated or refreshed, and is active. */
  method OpenTarget(broadcast: LiveBroadcast, target: Target, board: Option<HackState>)
    requires TerminalsApart(broadcast.terminals)
    modifies broadcast`terminals, broadcast.terminals.Values, ContentTrees(broadcast.terminals),
             CommandTables(broadcast.terminals)
    ensures TerminalsApart(broadcast.terminals) && KeptOrAdded(old(broadcast.terminals), broadcast.terminals)
    ensures TerminalValues(broadcast.terminals)
            == old(TerminalValues(broadcast.terminals))[target.terminalId :=
                 Terminals.Opened(old(TerminalValues(broadcast.terminals)), target, board)]
  {
    if target.terminalId !in broadcast.terminals {
      var created := CreateRuntime(target, board);
      TerminalsStay(broadcast.terminals);
      PutRuntime(broadcast, target.terminalId, created);
    } else {
      ReopenAt(broadcast.terminals, target, board);
    }
  }

  method OpenInstead(broadcast: LiveBroadcast, target: Target, board: Option<HackState>)
    requires TerminalsApart(broadcast.terminals)
    modifies broadcast`terminals, broadcast.terminals.Values, ContentTrees(broadcast.terminals),
             CommandTables(broadcast.terminals)
    ensures TerminalsApart(broadcast.terminals) && KeptOrAdded(old(broadcast.terminals), broadcast.terminals)
    ensures var terminals := old(TerminalValues(broadcast.terminals));
            var others := if broadcast.active.Some? then Terminals.Suspend(terminals, broadcast.active.value)
                else terminals;
            TerminalValues(broadcast.terminals) ==
                others[target.terminalId := Terminals.Opened(terminals, target, board)]
  {
    ghost var terminals := TerminalValues(broadcast.terminals);
    OpenTarget(broadcast, target, board);
    if broadcast.active.Some? {
      SuspensionCommutes(terminals, broadcast.active.value, target.terminalId,
                         Terminals.Opened(terminals, target, board));
      if broadcast.active.value != target.terminalId {
        SuspendAt(broadcast.terminals, broadcast.active.value);
      }
    }
  }

  lemma SuspensionCommutes(terminals: map<string, Terminal>, active: string, id: string, shown: Terminal)
    ensures Terminals.Suspend(terminals, active)[id := shown]
            == if active == id then terminals[id := shown] else Terminals.Suspend(terminals[id := shown], active)
  {
  }

  /** Shows the target and suspends what was shown before. */
  method ShowTarget(broadcast: LiveBroadcast, target: Target, board: Option<HackState>)
    requires TerminalsApart(broadcast.terminals)
    modifies broadcast`terminals, broadcast`active
    modifies broadcast.terminals.Values, ContentTrees(broadcast.terminals), CommandTables(broadcast.terminals)
    ensures TerminalsApart(broadcast.terminals) && KeptOrAdded(old(broadcast.terminals), broadcast.terminals)
    ensures var b := old(broadcast.Value());
            broadcast.Value() == Terminals.ShownInstead(b, target, board)
  {
    hide TerminalsApart, KeptOrAdded, ContentTrees, CommandTables, PuzzleObjects;
    OpenInstead(broadcast, target, board);
    SetActive(broadcast, Some(target.terminalId));
  }

  method SetActive(broadcast: LiveBroadcast, active: Option<string>)
    modifies broadcast`active
    ensures broadcast.Value() == old(broadcast.Value()).(active := active)
  {
    broadcast.active := active;
    TerminalsStay(broadcast.terminals);
  }

  method DropSwitch(runtime: ProcessRuntime)
    requires runtime.Valid()
    modifies runtime`pendingSwitch
    ensures SameObjects(runtime)
    ensures runtime.Value() == old(runtime.Value()).(pendingSwitch := None)
  {
    runtime.pendingSwitch := None;
    SessionsStay(runtime.sessions);
    BroadcastStays(runtime.broadcast);
  }

  method ShowFirst(broadcast: LiveBroadcast, env: Env, target: Target)
    requires TerminalsApart(broadcast.terminals)
    modifies broadcast, broadcast.route
    modifies broadcast.terminals.Values, ContentTrees(broadcast.terminals), CommandTables(broadcast.terminals)
    ensures TerminalsApart(broadcast.terminals) && KeptOrAdded(old(broadcast.terminals), broadcast.terminals)
    ensures var b := old(broadcast.Value());
            broadcast.Value() == Terminals.ShownFirst(b, env, target)
  {
    hide TerminalValues, TerminalsApart, KeptOrAdded, Terminals.ShownInstead, Terminals.WithJourney;
    ShowTarget(broadcast, target, env.board);
    EstablishInitialTerminalRoute(broadcast, env.catalog, target.terminalId);
  }

  method ShowOnAir(runtime: ProcessRuntime, env: Env, target: Target)
    requires runtime.Valid() && runtime.broadcast != null
    modifies runtime.broadcast, runtime.broadcast.route
    modifies runtime.broadcast.terminals.Values, ContentTrees(runtime.broadcast.terminals),
             CommandTables(runtime.broadcast.terminals)
    ensures Grown(runtime)
    ensures var rt := old(runtime.Value());
            runtime.Value() == Claims.WithBroadcast(rt, Terminals.ShownFirst(rt.broadcast.value, env, target))
  {
    hide SessionValues, TerminalValues, SessionsApart, TerminalsApart, KeptOrAdded, Terminals.ShownFirst;
    ShowFirst(runtime.broadcast, env, target);
    BroadcastAlone(runtime);
  }

  method ActivateTarget(runtime: ProcessRuntime, env: Env, target: Target)
    requires runtime.Valid() && runtime.broadcast != null
    modifies runtime`pendingSwitch, runtime.broadcast, runtime.broadcast.route
    modifies runtime.broadcast.terminals.Values, ContentTrees(runtime.broadcast.terminals),
             CommandTables(runtime.broadcast.terminals)
    ensures Grown(runtime)
    ensures runtime.Value() == Terminals.Activated(old(runtime.Value()), env, target)
  {
    ShowOnAir(runtime, env, target);
    DropSwitch(runtime);
  }

  method AskToSwitch(runtime: ProcessRuntime, id: string, source: TerminalRuntime, target: Option<Target>)
    returns (verdict: Verdict)
    requires runtime.Valid() && runtime.broadcast != null
    requires ActiveTerminal(runtime.Value().broadcast) == Some(source.Value())
    modifies runtime`pendingSwitch
    ensures SameObjects(runtime)
    ensures Carries(Terminals.AskToSwitch(old(runtime.Value()), id, target), verdict, runtime.Value())
  {
    runtime.pendingSwitch := Some(PendingSwitch(id, runtime.broadcast.id, source.terminalId, target));
    SessionsStay(runtime.sessions);
    BroadcastStays(runtime.broadcast);
    return ACCEPTED;
  }

  /** Everything about the previous activity is cleared before the outcome is known;
      a refusal after that leaves the working copy half changed. */
  method RequestTerminalActivation(runtime: ProcessRuntime, env: Env, target: Target) returns (verdict: Verdict)
    requires runtime.Valid()
    modifies runtime.Repr()
    ensures Sealed(runtime)
    ensures Carries(Terminals.Activate(old(runtime.Value()), env, target), verdict, runtime.Value())
  {
    SameIsSealed(runtime);
    if Text.Blank(target.terminalId) || runtime.broadcast == null {
      return REFUSED;
    }
    var _ := ClearActivity(runtime);
    verdict := ActivateCleared(runtime, env, target, runtime.Value());
    GrownIsSealed(runtime);
  }

  method ClearActivity(runtime: ProcessRuntime) returns (navigationCleared: bool)
    requires runtime.Valid()
    modifies runtime`pendingCommand, runtime`pendingNavigation, runtime`notice, BroadcastOwn(runtime.broadcast)
    modifies if runtime.broadcast == null then {} else runtime.broadcast.terminals.Values
    ensures SameObjects(runtime)
    ensures runtime.Value() == Terminals.Cleared(old(runtime.Value()))
    ensures navigationCleared <==> Terminals.NavigationToClear(old(runtime.Value()))
  {
    ClearCommandExecution(runtime);
    navigationCleared := ClearTerminalNavigation(runtime);
  }

  method ActivateCleared(runtime: ProcessRuntime, env: Env, target: Target, ghost rt: Runtime)
    returns (verdict: Verdict)
    requires runtime.Valid() && runtime.broadcast != null && runtime.Value() == rt
    modifies runtime`pendingSwitch, runtime.broadcast, runtime.broadcast.route
    modifies runtime.broadcast.terminals.Values, ContentTrees(runtime.broadcast.terminals),
             CommandTables(runtime.broadcast.terminals)
    ensures Grown(runtime)
    ensures Carries(Terminals.ActivateCleared(rt, env, target), verdict, runtime.Value())
  {
    hide SessionValues, TerminalValues, SessionsApart, TerminalsApart, Terminals.ShowDelivered;
    ActiveReads(runtime.broadcast);
    var source := ActiveTerminalRuntime(runtime.broadcast);
    if source != null && Unfinished(source) && source.terminalId != target.terminalId {
      verdict := AskToSwitch(runtime, env.id, source, Some(target));
      return;
    }
    verdict := ShowDelivered(runtime, env, target);
  }

  lemma StoredReads(runtime: ProcessRuntime, id: string)
    ensures var b := runtime.Value().broadcast;
            && (b.Some? <==> runtime.broadcast != null)
            && (b.Some? && id in b.value.terminals <==> runtime.broadcast != null && id in runtime.broadcast.terminals)
            && (b.Some? && id in b.value.terminals ==> b.value.terminals[id] == runtime.broadcast.terminals[id].Value())
            && (b.Some? ==> b.value.route == runtime.broadcast.route.points) &&
               runtime.Value().revision == runtime.revision
  {
  }

  method ShowDelivered(runtime: ProcessRuntime, env: Env, target: Target) returns (verdict: Verdict)
    requires runtime.Valid() && runtime.broadcast != null
    modifies runtime`pendingSwitch, runtime.broadcast, runtime.broadcast.route
    modifies runtime.broadcast.terminals.Values, ContentTrees(runtime.broadcast.terminals),
             CommandTables(runtime.broadcast.terminals)
    ensures Grown(runtime)
    ensures Carries(Terminals.ShowDelivered(old(runtime.Value()), env, target), verdict, runtime.Value())
  {
    hide ProcessRuntime.Value, SessionValues, TerminalValues, SessionsApart, TerminalsApart, Terminals.Activated;
    StoredReads(runtime, target.terminalId);
    var terminals := runtime.broadcast.terminals;
    var resumable := target.terminalId in terminals && terminals[target.terminalId].lifecycle == Suspended;
    if !env.delivered && !resumable {
      return REFUSED;
    }
    ActivateTarget(runtime, env, target);
    return ACCEPTED;
  }

  // ---------------------------------------------------------------- clearing the terminal

  method HideActive(runtime: ProcessRuntime)
    requires runtime.Valid() && runtime.broadcast != null && runtime.broadcast.active.Some?
    modifies runtime`pendingSwitch, runtime.broadcast`active, runtime.broadcast.terminals.Values
    ensures var rt := old(runtime.Value()); var b := rt.broadcast.value;
            runtime.Value() == Claims.WithBroadcast(rt, Terminals.Hidden(b)).(pendingSwitch := None)
  {
    SuspendActive(runtime.broadcast);
    BroadcastAlone(runtime);
    DropSwitch(runtime);
  }

  method SuspendActive(broadcast: LiveBroadcast)
    requires TerminalsApart(broadcast.terminals) && broadcast.active.Some?
    modifies broadcast`active, broadcast.terminals.Values
    ensures var b := old(broadcast.Value());
            broadcast.Value() == Terminals.Hidden(b)
  {
    SuspendAt(broadcast.terminals, broadcast.active.value);
    SetActive(broadcast, None);
  }

  method RequestTerminalClear(runtime: ProcessRuntime, id: string) returns (verdict: Verdict)
    requires runtime.Valid()
    modifies runtime.Repr()
    ensures Sealed(runtime)
    ensures Carries(Terminals.ClearTerminal(old(runtime.Value()), id), verdict, runtime.Value())
  {
    hide SessionValues, TerminalValues, SessionsApart, TerminalsApart, Sealed, KeptOrAdded, Terminals.ClearCleared;
    SameIsSealed(runtime);
    ActiveReads(runtime.broadcast);
    if runtime.broadcast == null {
      return REFUSED;
    }
    var source := ActiveTerminalRuntime(runtime.broadcast);
    var unfinished := source != null && Unfinished(source);
    ghost var rt := runtime.Value();
    assert unfinished <==> Terminals.Unfinished(ActiveTerminal(rt.broadcast));
    var navigationCleared := ClearActivity(runtime);
    verdict := ClearCleared(runtime, id, unfinished, navigationCleared, runtime.Value());
    SameIsSealed(runtime);
  }

  method ClearCleared(runtime: ProcessRuntime, id: string, unfinished: bool, navigationCleared: bool, ghost rt: Runtime)
    returns (verdict: Verdict)
    requires runtime.Valid() && runtime.broadcast != null && runtime.Value() == rt
    requires unfinished ==> ActiveTerminal(rt.broadcast).Some?
    modifies runtime`pendingSwitch, runtime.broadcast`active, runtime.broadcast.terminals.Values
    ensures Carries(Terminals.ClearCleared(rt, id, unfinished, navigationCleared), verdict, runtime.Value())
  {
    if unfinished {
      ActiveReads(runtime.broadcast);
      verdict := AskToSwitch(runtime, id, ActiveTerminalRuntime(runtime.broadcast), None);
      return;
    }
    if runtime.broadcast.active.None? {
      return if navigationCleared then ACCEPTED else REFUSED;
    }
    HideActive(runtime);
    return ACCEPTED;
  }
}
