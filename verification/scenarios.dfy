/** Short runs from a fresh process that end badly: a switch resolved in the middle
    of a route, and decisions forgotten while they wait for an answer, once for each way
    to forget them. */
module Scenarios {
  import opened Domain
  import opened State
  import opened Changes
  import opened Catalogue
  import opened Sessions
  import opened Claims
  import opened Terminals
  import opened Dispatch
  import opened Coordinator
  import opened Invariants
  import opened Publication
  import opened Journeys
  import opened Answerable
  import opened Homeward
  import opened RoundTrip
  import Nav
  import Puzzles
  import Route
  import Saves
  import Text

  // ---------------------------------------------------------------- the document and the player

  const PLAYER := "s"
  const WIRE := "w"
  const TOKEN := "k"
  const HERO := "h"
  const AIR := "air"
  const LIMIT: nat := 8

  const TALK := ContentNode("talk", Command, "Talk", [], None, None)
  const TO_C := ContentNode("to-c", Command, "Go", [], None, Some("c"))
  const TO_A := ContentNode("to-a", Command, "Back", [], None, Some("a"))
  const A := Target("a", "A", ContentNode(ROOT, Folder, "", [TALK, TO_C], None, None), map[], 1, "")
  const B := Target("b", "B", ContentNode(ROOT, Folder, "", [], None, None), map[], 0, "")
  const C := Target("c", "C", ContentNode(ROOT, Folder, "", [TO_A], None, None), map[], 0, "")

  // Terminals "a" and "c" lead to each other; "b" stands apart.
  const DOCUMENT := Catalog([Group("g", "", ["a", "c"]), Group("h", "", ["b"])], [A, B, C])

  // One attempt is left to find "ok".
  const BOARD := HackState("p", 1, 2, 1, 1, "ok", map["w" := "no"], {}, false, false, [], [])

  function Now(id: string): Env {
    Env(DOCUMENT, id, Some(BOARD), true, LIMIT)
  }

  const ANY := Rules(true, Puzzles.Roll(0, 0), true)

  lemma LeafIsUnique(leaf: ContentNode)
    requires leaf.children == []
    ensures Nav.Ids(leaf) == {leaf.id} && Nav.UniqueIds(leaf)
  {
  }

  lemma LeavesAreUnique(first: ContentNode, rest: seq<ContentNode>)
    requires first.children == [] && first.id !in Nav.IdsOf(rest) && Nav.UniqueAmong(rest)
    ensures Nav.UniqueAmong([first] + rest) && Nav.IdsOf([first] + rest) == {first.id} + Nav.IdsOf(rest)
  {
    LeafIsUnique(first);
    assert ([first] + rest)[1..] == rest;
  }

  lemma TreesAreValid()
    ensures ValidTarget(A) && ValidTarget(B) && ValidTarget(C)
  {
    LeavesAreUnique(TO_C, []);
    LeavesAreUnique(TALK, [TO_C]);
    LeavesAreUnique(TO_A, []);
    assert [TO_C] + [] == [TO_C] && [TALK] + [TO_C] == [TALK, TO_C] && [TO_A] + [] == [TO_A];
  }

  lemma Lookups()
    ensures LookupTerminal(DOCUMENT, "a") == Some(A) && LookupTerminal(DOCUMENT, "b") == Some(B) &&
            LookupTerminal(DOCUMENT, "c") == Some(C)
    ensures FindGroup(DOCUMENT.groups, "a") == FindGroup(DOCUMENT.groups, "c") == Some(DOCUMENT.groups[0])
    ensures FindGroup(DOCUMENT.groups, "b") == Some(DOCUMENT.groups[1])
  {
    assert [A, B, C][1..] == [B, C] && [B, C][1..] == [C];
    assert FindTerminal([C], "c") == Some(C);
    assert FindTerminal([B, C], "c") == Some(C) && FindTerminal([B, C], "b") == Some(B);
    assert DOCUMENT.groups[1..] == [DOCUMENT.groups[1]];
  }

  lemma DocumentIsValid()
    ensures ValidCatalog(DOCUMENT)
  {
    TreesAreValid();
    Lookups();
    var groups := DOCUMENT.groups;
    assert groups == [groups[0], groups[1]] && groups[0].members == ["a", "c"] && groups[1].members == ["b"];
    forall g, id | g in groups && id in g.members ensures LookupTerminal(DOCUMENT, id).Some? {
      assert id == "a" || id == "b" || id == "c";
    }
    assert ValidGroups(groups);
  }

  // ---------------------------------------------------------------- runs

  /** A run over this document that ends in `rt`. */
  ghost predicate EndsIn(states: seq<Coordinator>, steps: seq<Step>, rt: Runtime) {
    && IsRun(states, steps, LIMIT) && states[|steps|].rt == rt
    && forall i :: 0 <= i < |steps| ==> steps[i].env.catalog == DOCUMENT
  }

  ghost predicate Reached(rt: Runtime) {
    && (exists states, steps :: EndsIn(states, steps, rt))
    && JourneyOk(DOCUMENT.groups, rt)
  }

  lemma Extended(states: seq<Coordinator>, steps: seq<Step>, rt: Runtime, env: Env, op: Operation)
    returns (more: seq<Coordinator>)
    requires EndsIn(states, steps, rt) && Supplied(rt, op) && env.catalog == DOCUMENT && env.limit == LIMIT
    ensures EndsIn(more, steps + [Step(env, op)], Performed(rt, env, op)) && more[..|states|] == states
  {
    var last := states[|steps|];
    var next := Commit(last, Execute(rt, env, op));
    more := states + [next];
    var all := steps + [Step(env, op)];
    CommitInstalls(last, Execute(rt, env, op));
    forall i | 0 <= i < |all| ensures Linked(more, all, i, LIMIT) {
      if i < |steps| {
        assert Linked(states, steps, i, LIMIT);
      }
    }
  }

  lemma Starts()
    ensures Reached(Fresh())
  {
    assert EndsIn([Coordinator(Fresh(), [])], [], Fresh());
  }

  lemma Onward(rt: Runtime, env: Env, op: Operation)
    requires Reached(rt) && Supplied(rt, op) && env.catalog == DOCUMENT && env.limit == LIMIT
    requires op.OnTerminal? ==> !SwitchesMidRoute(rt, op.terminal)
    requires op.Decide? ==> !op.decision.ReplaceTerminalGroups?
    ensures Reached(Performed(rt, env, op))
  {
    var states, steps :| EndsIn(states, steps, rt);
    var more := Extended(states, steps, rt, env, op);
    RunKeepsInv(states, steps, LIMIT, |steps|);
    DocumentIsValid();
    StepKeepsJourney(states[|steps|], env, op);
    CommitInstalls(states[|steps|], Execute(rt, env, op));
  }

  // ---------------------------------------------------------------- a player takes a seat

  predicate Seated(rt: Runtime, used: set<string>) {
    && rt.sessions.Keys == {PLAYER} && rt.sessions[PLAYER].connections == {WIRE}
    && rt.sessions[PLAYER].results.Keys <= used && |used| < LIMIT
    && rt.broadcast.Some? && rt.broadcast.value.id == AIR
    && PLAYER in rt.broadcast.value.assignments && rt.broadcast.value.controller == Some(PLAYER)
  }

  predicate Quiet(rt: Runtime) {
    && rt.pendingSwitch == None && rt.pendingCommand == None && rt.pendingNavigation == None && rt.notice == None
  }

  predicate Empty(rt: Runtime) {
    && Quiet(rt) && rt.broadcast.Some? && JourneyOf(rt.broadcast.value) == Journey(None, [], false, "", "", 0)
    && rt.broadcast.value.terminals == map[]
  }

  lemma Configured() returns (rt: Runtime)
    ensures Reached(rt) && Quiet(rt) && rt.config.Some? && HERO in rt.roster
    ensures rt.broadcast == None && rt.sessions == map[] && rt.tokens == map[]
  {
    hide Reached;
    var roster := [Character(HERO, "Hero", 5, false)];
    var op := Setup(InstallPlayerConfig(ConfigHandle("p", 1, "n", "d"), roster, true));
    Starts();
    Onward(Fresh(), Now(AIR), op);
    rt := Performed(Fresh(), Now(AIR), op);
    assert !Text.Blank("p");
    assert RosterMap(roster) == RosterMap([])[HERO := roster[0]];
  }

  lemma OnAir() returns (rt: Runtime)
    ensures Reached(rt) && Empty(rt) && HERO in rt.roster && rt.sessions == map[] && rt.tokens == map[]
    ensures rt.broadcast.value.id == AIR && rt.broadcast.value.claimants == map[] &&
            rt.broadcast.value.assignments == map[]
    ensures rt.broadcast.value.controller == None
  {
    hide Reached;
    var before := Configured();
    Onward(before, Now(AIR), Setup(StartBroadcast));
    rt := Performed(before, Now(AIR), Setup(StartBroadcast));
  }

  lemma Connected() returns (rt: Runtime)
    ensures Reached(rt) && Empty(rt) && HERO in rt.roster
    ensures rt.sessions.Keys == {PLAYER} && rt.sessions[PLAYER].connections == {WIRE} &&
            rt.sessions[PLAYER].results == map[]
    ensures rt.broadcast.value.id == AIR && rt.broadcast.value.claimants == map[] &&
            rt.broadcast.value.assignments == map[]
    ensures rt.broadcast.value.controller == None
  {
    hide Reached;
    var before := OnAir();
    var op := OnSession(AttachConnection(WIRE, "", PLAYER, TOKEN));
    Onward(before, Now("x"), op);
    rt := Performed(before, Now("x"), op);
  }

  lemma Sits(before: Runtime)
    requires Empty(before) && HERO in before.roster && before.sessions.Keys == {PLAYER}
    requires before.sessions[PLAYER].connections == {WIRE} && before.sessions[PLAYER].results == map[]
    requires before.broadcast.value.id == AIR && before.broadcast.value.controller == None
    requires before.broadcast.value.claimants == map[] && before.broadcast.value.assignments == map[]
    ensures var rt := After(before, Choose(before, Selection(PLAYER, "pick", AIR, HERO, ""), LIMIT).change);
            Empty(rt) && Seated(rt, {"pick"})
  {
  }

  lemma TakesSeat() returns (rt: Runtime)
    ensures Reached(rt) && Empty(rt) && Seated(rt, {"pick"})
  {
    hide Reached, Choose;
    var before := Connected();
    var op := OnSession(SelectCharacter(Selection(PLAYER, "pick", AIR, HERO, "")));
    Onward(before, Now("x"), op);
    rt := Performed(before, Now("x"), op);
    Sits(before);
  }

  /** The player stands in front of terminal `t`, and nothing but a switch is asked. */
  ghost predicate Stage(rt: Runtime, used: set<string>, t: Terminal, route: seq<ReturnPoint>,
                        asked: Option<PendingSwitch>) {
    Reached(rt) && Seated(rt, used) && Standing(rt, t, route) && rt.pendingSwitch == asked
  }

  lemma OpensFirst(before: Runtime)
    requires Empty(before) && Seated(before, {"pick"})
    ensures var rt := After(before, Activate(before, Now("x"), A));
            Seated(rt, {"pick"}) && Standing(rt, Created(A, Some(BOARD)), []) && rt.pendingSwitch == None
  {
    Lookups();
    assert Cleared(before) == before;
    assert Activate(before, Now("x"), A) == Accept(Activated(before, Now("x"), A), []);
    hide Activate;
  }

  lemma CurtainUp() returns (rt: Runtime)
    ensures Stage(rt, {"pick"}, Created(A, Some(BOARD)), [], None)
  {
    hide Reached, Activate;
    var before := TakesSeat();
    var op := OnTerminal(RequestActivation(A));
    Onward(before, Now("x"), op);
    rt := Performed(before, Now("x"), op);
    OpensFirst(before);
  }

  lemma AsksAway(before: Runtime)
    requires Seated(before, {"pick"}) && Standing(before, Created(A, Some(BOARD)), [])
    ensures var rt := After(before, Activate(before, Now("sw"), B));
            && Seated(rt, {"pick"}) && Standing(rt, Created(A, Some(BOARD)), [])
            && rt.pendingSwitch == Some(PendingSwitch("sw", AIR, "a", Some(B)))
  {
    var cleared := Cleared(before);
    assert ActiveTerminal(cleared.broadcast) == Some(Created(A, Some(BOARD)));
    assert Activate(before, Now("sw"), B) == AskToSwitch(cleared, "sw", Some(B));
  }

  /** Showing "b" instead is a question first, while the puzzle of "a" is open. */
  lemma AskedAway() returns (rt: Runtime)
    ensures Stage(rt, {"pick"}, Created(A, Some(BOARD)), [], Some(PendingSwitch("sw", AIR, "a", Some(B))))
  {
    hide Reached, Activate;
    var before := CurtainUp();
    var op := OnTerminal(RequestActivation(B));
    Onward(before, Now("sw"), op);
    rt := Performed(before, Now("sw"), op);
    AsksAway(before);
  }

  // ---------------------------------------------------------------- what the player does

  lemma Admitted(rt: Runtime, used: set<string>, t: Terminal, env: Env, c: PlayerCommand)
    requires Seated(rt, used) && Standing(rt, t, RouteOf(rt)) && ValidCommand(c, ANY)
    requires c.requestId !in used && c.broadcastId == AIR && c.terminalId == t.terminalId
    ensures Prepare(rt, env, WIRE, c, ANY) == Go(PLAYER, t)
  {
    assert Owners(rt, WIRE) == {PLAYER};
    assert Owner(rt, WIRE) == Some(PLAYER);
  }

  lemma Remembered(rt: Runtime, used: set<string>, id: string, record: ResultRecord)
    requires Seated(rt, used) && |used + {id}| < LIMIT
    ensures Seated(StoreResult(rt, PLAYER, id, record, LIMIT), used + {id})
  {
  }

  /** The player opens a command that is directly in the root folder shown. */
  predicate Opens(c: PlayerCommand, t: Terminal, request: string, node: string) {
    && c == PlayerCommand(request, AIR, t.terminalId, "navigate", "command", node, "", "", NO_PRESENTATION, "")
    && ValidCommand(c, ANY) && t.nav == Nav.Default() && RootTree(t.tree)
  }

  lemma CommandFound(t: Terminal, node: string)
    requires t.nav == Nav.Default() && RootTree(t.tree) && node != ""
    ensures Selected(t, node) == Nav.Child(t.tree, node, Command)
  {
    assert t.nav.path[1..] == [];
  }

  lemma CommandIsAsked(rt: Runtime, used: set<string>, t: Terminal, env: Env, c: PlayerCommand)
    requires Seated(rt, used) && Standing(rt, t, RouteOf(rt)) && env.limit == LIMIT && |used + {c.requestId}| < LIMIT
    ensures var after := After(rt, RequestCommand(rt, env, PLAYER, t, TALK, c).change);
            && Seated(after, used + {c.requestId}) && after.pendingSwitch == rt.pendingSwitch
            && after.pendingCommand.Some? && after.pendingNavigation == None && CommandCurrent(after)
            && after.broadcast.value.active == Some(t.terminalId)
            && after.notice == rt.notice && RouteOf(after) == RouteOf(rt) &&
               after.pendingCommand.value.commandId == "talk"
            && ActiveTerminal(after.broadcast) == Some(t.(execution := Some(Execution(Awaiting, "talk"))))
  {
  }

  lemma CommandWaits(rt: Runtime, used: set<string>, t: Terminal, env: Env, c: PlayerCommand)
    requires Seated(rt, used) && Standing(rt, t, RouteOf(rt)) && Opens(c, t, c.requestId, "talk") && env.limit == LIMIT
    requires c.requestId !in used && |used + {c.requestId}| < LIMIT && Nav.Child(t.tree, "talk", Command) == Some(TALK)
    ensures var after := Performed(rt, env, PlayerAction(WIRE, c, ANY));
            && Seated(after, used + {c.requestId}) && after.pendingSwitch == rt.pendingSwitch
            && after.pendingCommand.Some? && after.pendingNavigation == None && CommandCurrent(after)
            && after.broadcast.value.active == Some(t.terminalId)
            && after.notice == rt.notice && RouteOf(after) == RouteOf(rt) &&
               after.pendingCommand.value.commandId == "talk"
            && ActiveTerminal(after.broadcast) == Some(t.(execution := Some(Execution(Awaiting, "talk"))))
  {
    hide RequestCommand;
    Admitted(rt, used, t, env, c);
    CommandFound(t, "talk");
    var reply := RequestCommand(rt, env, PLAYER, t, TALK, c);
    assert DispatchAction(rt, env, WIRE, c, ANY) == reply;
    ActionPerforms(rt, env, WIRE, c, ANY, reply);
    CommandIsAsked(rt, used, t, env, c);
  }

  /** The authored link of a terminal of the document to its neighbour. */
  predicate Links(t: Terminal, node: string, authored: ContentNode, target: Target) {
    && Nav.Child(t.tree, node, Command) == Some(authored) && authored.id == node
    && authored.Behavior() == Transition && authored.transition == Some(target.terminalId)
    && LookupTransition(DOCUMENT, t.terminalId, node).Some?
    && LookupTransition(DOCUMENT, t.terminalId, node).value.target == target
    && target.terminalId != t.terminalId && SameGroup(DOCUMENT.groups, t.terminalId, target.terminalId)
  }

  predicate LinkWaits(after: Runtime, rt: Runtime, t: Terminal, target: Target, id: string) {
    && rt.broadcast.Some? && after.broadcast == rt.broadcast && after.pendingSwitch == rt.pendingSwitch
    && after.pendingCommand == None && after.pendingNavigation.Some?
    && var p := after.pendingNavigation.value;
       && p.requestId == id && p.direction == Forward && p.broadcastId == AIR
       && p.source == t.terminalId && p.target == target.terminalId && p.returnPoint.terminalId == t.terminalId
  }

  lemma LinkIsAsked(rt: Runtime, used: set<string>, t: Terminal, env: Env, c: PlayerCommand, authored: ContentNode,
                    target: Target)
    requires Seated(rt, used) && Standing(rt, t, RouteOf(rt)) && env.limit == LIMIT && env.catalog == DOCUMENT
    requires |used + {c.requestId}| < LIMIT && Links(t, authored.id, authored, target)
    ensures var after := After(rt, RequestForward(rt, env, PLAYER, t, authored, c).change);
            && Seated(after, used + {c.requestId}) && LinkWaits(after, rt, t, target, env.id)
            && after.pendingNavigation.value.commandId == authored.id
  {
  }

  lemma LinkPends(rt: Runtime, used: set<string>, t: Terminal, env: Env, c: PlayerCommand, authored: ContentNode,
                  target: Target)
    requires Seated(rt, used) && Standing(rt, t, RouteOf(rt)) && env.limit == LIMIT && env.catalog == DOCUMENT
    requires c.requestId !in used && |used + {c.requestId}| < LIMIT
    requires Opens(c, t, c.requestId, authored.id) && Links(t, authored.id, authored, target) && authored.id != ""
    ensures var after := Performed(rt, env, PlayerAction(WIRE, c, ANY));
            && Seated(after, used + {c.requestId}) && LinkWaits(after, rt, t, target, env.id)
            && after.pendingNavigation.value.commandId == authored.id
  {
    hide RequestForward;
    Admitted(rt, used, t, env, c);
    CommandFound(t, authored.id);
    var reply := RequestForward(rt, env, PLAYER, t, authored, c);
    assert DispatchAction(rt, env, WIRE, c, ANY) == reply;
    ActionPerforms(rt, env, WIRE, c, ANY, reply);
    LinkIsAsked(rt, used, t, env, c, authored, target);
  }

  lemma LinkTaken(rt: Runtime, used: set<string>, env: Env, t: Terminal, authored: ContentNode, target: Target,
                  id: string)
    returns (shown: Terminal)
    requires Seated(rt, used) && env.delivered && env.catalog == DOCUMENT && env.limit == LIMIT
    requires LinkWaits(rt, rt, t, target, id) && rt.pendingNavigation.value.commandId == authored.id
    requires ActiveTerminal(rt.broadcast) == Some(t) && rt.broadcast.value.active == Some(t.terminalId)
    requires Links(t, authored.id, authored, target) && Text.Trim(id) == id != ""
    requires forall k :: k in rt.broadcast.value.terminals ==> rt.broadcast.value.terminals[k].terminalId == k
    ensures var after := After(rt, ResolveNavigation(rt, env, id, true));
            && Seated(after, used) && after.pendingSwitch == rt.pendingSwitch
            && Standing(after, shown, RouteOf(rt) + [rt.pendingNavigation.value.returnPoint])
            && shown.terminalId == target.terminalId && shown.tree == target.tree && AtRoot(shown)
    ensures ResolveNavigation(rt, env, id, true).Accept?
  {
    assert NavigationCurrent(rt, id);
    var after := After(rt, ApproveForward(rt, env, rt.pendingNavigation.value));
    shown := ActiveTerminal(after.broadcast).value;
  }

  lemma ReachedIsSound(rt: Runtime)
    requires Reached(rt)
    ensures Inv(rt, LIMIT)
  {
    var states, steps :| EndsIn(states, steps, rt);
    RunKeepsInv(states, steps, LIMIT, |steps|);
  }

  lemma AsksAlong(rt: Runtime, used: set<string>, t: Terminal, c: PlayerCommand, authored: ContentNode, target: Target)
    returns (asking: Runtime)
    requires Reached(rt) && Seated(rt, used) && Standing(rt, t, RouteOf(rt))
    requires c.requestId !in used && |used + {c.requestId}| < LIMIT
    requires Opens(c, t, c.requestId, authored.id) && Links(t, authored.id, authored, target) && authored.id != ""
    ensures Reached(asking) && Seated(asking, used + {c.requestId}) && LinkWaits(asking, rt, t, target, "go")
    ensures asking.pendingNavigation.value.commandId == authored.id
  {
    hide Reached, Execute;
    LinkPends(rt, used, t, Now("go"), c, authored, target);
    Onward(rt, Now("go"), PlayerAction(WIRE, c, ANY));
    asking := Performed(rt, Now("go"), PlayerAction(WIRE, c, ANY));
  }

  /** The player opens the link and the Overseer lets them through. */
  lemma Follows(rt: Runtime, used: set<string>, t: Terminal, route: seq<ReturnPoint>, asked: Option<PendingSwitch>,
                c: PlayerCommand, authored: ContentNode, target: Target)
                  returns (after: Runtime, shown: Terminal, point: ReturnPoint)
    requires Stage(rt, used, t, route, asked)
    requires c.requestId !in used && |used + {c.requestId}| < LIMIT
    requires Opens(c, t, c.requestId, authored.id) && Links(t, authored.id, authored, target) && authored.id != ""
    ensures Stage(after, used + {c.requestId}, shown, route + [point], asked)
    ensures shown.terminalId == target.terminalId && shown.tree == target.tree && AtRoot(shown) &&
            point.terminalId == t.terminalId
  {
    hide Reached, ResolveNavigation, Links, Opens;
    var asking := AsksAlong(rt, used, t, c, authored, target);
    after, shown, point := Arrives(asking, used + {c.requestId}, t, authored, target);
    assert asking.broadcast == rt.broadcast;
  }

  lemma ApprovalPerforms(rt: Runtime, env: Env, id: string)
    ensures Performed(rt, env, Decide(ResolveTerminalNavigation(id, true))) ==
            After(rt, ResolveNavigation(rt, env, id, true))
  {
    hide ResolveNavigation;
  }

  lemma Arrives(asking: Runtime, used: set<string>, t: Terminal, authored: ContentNode, target: Target)
    returns (after: Runtime, shown: Terminal, point: ReturnPoint)
    requires Reached(asking) && Seated(asking, used) && LinkWaits(asking, asking, t, target, "go")
    requires asking.pendingNavigation.value.commandId == authored.id && Links(t, authored.id, authored, target)
    requires ActiveTerminal(asking.broadcast) == Some(t) && asking.broadcast.value.active == Some(t.terminalId)
    ensures Stage(after, used, shown, RouteOf(asking) + [point], asking.pendingSwitch)
    ensures shown.terminalId == target.terminalId && shown.tree == target.tree && AtRoot(shown) &&
            point.terminalId == t.terminalId
  {
    hide Reached, ResolveNavigation, Links, Execute;
    ReachedIsSound(asking);
    assert Text.Trim("go") == "go";
    shown := LinkTaken(asking, used, Now("x"), t, authored, target, "go");
    ApprovalPerforms(asking, Now("x"), "go");
    Onward(asking, Now("x"), Decide(ResolveTerminalNavigation("go", true)));
    after, point := Performed(asking, Now("x"), Decide(ResolveTerminalNavigation("go", true))),
        asking.pendingNavigation.value.returnPoint;
  }

  lemma LinksOfDocument(t: Terminal)
    ensures t.terminalId == "a" && t.tree == A.tree ==>
            Links(t, "to-c", TO_C, C) && Nav.Child(t.tree, "talk", Command) == Some(TALK)
    ensures t.terminalId == "c" && t.tree == C.tree ==> Links(t, "to-a", TO_A, A)
  {
    Lookups();
    assert A.tree.children[1..] == [TO_C];
    assert FindNode(TO_C, "to-c") == Some(TO_C) && FindNodeIn([TO_C], "to-c") == Some(TO_C);
    assert FindNodeIn([TALK, TO_C], "to-c") == FindNodeIn([TO_C], "to-c");
    assert FindNode(TO_A, "to-a") == Some(TO_A) && FindNodeIn([TO_A], "to-a") == Some(TO_A);
    assert Nav.FirstChild([TO_C], "to-c", Command) == Some(TO_C);
  }

  // ---------------------------------------------------------------- how these runs end

  /** The last step of a run over this document is `op`, and it is accepted. */
  ghost predicate Finale(states: seq<Coordinator>, steps: seq<Step>, op: Operation) {
    && IsRun(states, steps, LIMIT) && ValidCatalog(DOCUMENT)
    && (forall i :: 0 <= i < |steps| ==> steps[i].env.catalog == DOCUMENT)
    && steps != [] && steps[|steps| - 1].op == op
    && Execute(states[|steps| - 1].rt, steps[|steps| - 1].env, op).Accept?
  }

  lemma Ending(rt: Runtime, op: Operation) returns (states: seq<Coordinator>, steps: seq<Step>)
    requires Reached(rt) && Supplied(rt, op) && Execute(rt, Now("x"), op).Accept?
    ensures Finale(states, steps, op) && steps != [] && |states| == |steps| + 1
    ensures states[|steps| - 1].rt == rt && states[|steps|].rt == Performed(rt, Now("x"), op)
  {
    var before, done :| EndsIn(before, done, rt);
    states := Extended(before, done, rt, Now("x"), op);
    steps := done + [Step(Now("x"), op)];
    DocumentIsValid();
    assert states[|done|] == before[|done|];
  }

  const SWITCH := OnTerminal(ResolveTerminalSwitch("sw", Preserve))

  lemma SwitchGoesThrough(rt: Runtime)
    requires rt.broadcast.Some? && rt.broadcast.value.id == AIR && ActiveTerminal(rt.broadcast).Some?
    requires rt.broadcast.value.active == Some("a") && ActiveTerminal(rt.broadcast).value.terminalId == "a"
    requires rt.pendingSwitch == Some(PendingSwitch("sw", AIR, "a", Some(B)))
    ensures ResolveSwitch(rt, Now("x"), "sw", Preserve).Accept?
  {
  }

  /** Asked to show "b" instead of "a", the Overseer lets the players go to "c" and
      back before answering: now "b" stands at the end of a route it is not part of. */
  lemma SwitchCanStrandPlayers() returns (states: seq<Coordinator>, steps: seq<Step>)
    ensures Finale(states, steps, SWITCH)
    ensures JourneyOk(DOCUMENT.groups, states[|steps| - 1].rt) && !JourneyOk(DOCUMENT.groups, states[|steps|].rt)
  {
    hide Reached, Continues, ResolveSwitch;
    var rt, shown, route := WanderedOff();
    SwitchGoesThrough(rt);
    IsSoundBefore(rt);
    SwitchKeepsJourneyIff(rt, Now("x"), "sw", Preserve);
    NotBeyond(rt, route);
    states, steps := Ending(rt, SWITCH);
  }

  lemma IsSoundBefore(rt: Runtime)
    requires Reached(rt)
    ensures JourneyOk(DOCUMENT.groups, rt)
  {
  }

  lemma WanderedOff() returns (rt: Runtime, shown: Terminal, route: seq<ReturnPoint>)
    ensures Stage(rt, {"pick", "r1", "r2"}, shown, route, Some(PendingSwitch("sw", AIR, "a", Some(B))))
    ensures shown.terminalId == "a" && AtRoot(shown) && route != [] && route[|route| - 1].terminalId == "c"
  {
    hide Reached;
    var asked := Some(PendingSwitch("sw", AIR, "a", Some(B)));
    var start := AskedAway();
    var a := Created(A, Some(BOARD));
    LinksOfDocument(a);
    var there, c, first := Follows(start, {"pick"}, a, [], asked, Opening("r1", "a", "to-c"), TO_C, C);
    LinksOfDocument(c);
    var back, again, second := Follows(there, {"pick"} + {"r1"}, c, [] + [first], asked, Opening("r2", "c", "to-a"),
                                       TO_A, A);
    rt, shown, route := back, again, [] + [first] + [second];
    assert {"pick"} + {"r1"} + {"r2"} == {"pick", "r1", "r2"};
  }

  function Opening(request: string, terminal: string, node: string): PlayerCommand {
    PlayerCommand(request, AIR, terminal, "navigate", "command", node, "", "", NO_PRESENTATION, "")
  }

  lemma NotBeyond(rt: Runtime, route: seq<ReturnPoint>)
    requires JourneyOk(DOCUMENT.groups, rt) && rt.broadcast.Some? && RouteOf(rt) == route != [] &&
             rt.broadcast.value.active == Some("a")
    requires rt.pendingSwitch.Some? && rt.pendingSwitch.value.target == Some(B)
    ensures !Continues(DOCUMENT.groups, route, SwitchTarget(rt))
  {
    Lookups();
    assert SameGroup(DOCUMENT.groups, route[|route| - 1].terminalId, "a");
  }

  // ---------------------------------------------------------------- forgotten decisions

  lemma RevisionAsksTheSame(rt: Runtime, env: Env, op: Operation)
    requires Inv(rt, env.limit) && InOrder(rt) && Execute(rt, env, op).Accept? && Forgets(rt, env, op)
    ensures !CanBeAnswered(Performed(rt, env, op))
  {
    AnswerableIff(rt, env, op);
  }

  lemma StaysInOrder(rt: Runtime, env: Env, op: Operation)
    requires Inv(rt, env.limit) && InOrder(rt) && !Forgets(rt, env, op)
    ensures InOrder(Performed(rt, env, op))
  {
    if !Execute(rt, env, op).Reject? {
      AnswerableIff(rt, env, op);
    }
  }

  /** The player opens the command "talk" and the Overseer has not answered yet. */
  lemma Talking(before: Runtime, used: set<string>, t: Terminal) returns (rt: Runtime)
    requires Reached(before) && Seated(before, used) && Standing(before, t, RouteOf(before)) && InOrder(before)
    requires "r1" !in used && |used + {"r1"}| < LIMIT && t.nav == Nav.Default() && t.tree == A.tree &&
             t.terminalId == "a"
    ensures Reached(rt) && InOrder(rt) && Seated(rt, used + {"r1"})
    ensures rt.pendingCommand.Some? && rt.pendingNavigation == None && rt.pendingSwitch == before.pendingSwitch
    ensures rt.broadcast.value.active == Some("a") && rt.notice == before.notice && RouteOf(rt) == RouteOf(before)
    ensures ActiveTerminal(rt.broadcast) == Some(t.(execution := Some(Execution(Awaiting, "talk"))))
    ensures rt.pendingCommand.value.commandId == "talk"
  {
    hide Reached, Execute, InOrder;
    var c := Opening("r1", "a", "talk");
    LinksOfDocument(t);
    CommandWaits(before, used, t, Now("q"), c);
    ReachedIsSound(before);
    StaysInOrder(before, Now("q"), PlayerAction(WIRE, c, ANY));
    Onward(before, Now("q"), PlayerAction(WIRE, c, ANY));
    rt := Performed(before, Now("q"), PlayerAction(WIRE, c, ANY));
  }

  /** The player opens a command while the switch is being asked for: the answer to
      the switch leaves the command without one. */
  lemma SwitchForgetsCommand() returns (states: seq<Coordinator>, steps: seq<Step>)
    ensures Finale(states, steps, SWITCH)
    ensures states[|steps| - 1].rt.pendingCommand.Some?
    ensures CanBeAnswered(states[|steps| - 1].rt) && !CanBeAnswered(states[|steps|].rt)
  {
    hide Reached, ResolveSwitch;
    var rt := AskedWhileTalking();
    SwitchGoesThrough(rt);
    ReachedIsSound(rt);
    RevisionAsksTheSame(rt, Now("x"), SWITCH);
    states, steps := Ending(rt, SWITCH);
  }

  lemma AskedWhileTalking() returns (rt: Runtime)
    ensures Reached(rt) && rt.pendingCommand.Some? && rt.pendingCommand.value.commandId == "talk" && InOrder(rt)
    ensures rt.broadcast.Some? && rt.broadcast.value.id == AIR && rt.broadcast.value.active == Some("a")
    ensures ActiveTerminal(rt.broadcast) == Some(Created(A,
                                                         Some(BOARD)).(execution := Some(Execution(Awaiting, "talk"))))
    ensures rt.pendingSwitch == Some(PendingSwitch("sw", AIR, "a", Some(B)))
  {
    hide Reached;
    var before := AskedAway();
    rt := Talking(before, {"pick"}, Created(A, Some(BOARD)));
  }

  /** The same with a link the player asks to follow. */
  lemma SwitchForgetsNavigation() returns (states: seq<Coordinator>, steps: seq<Step>)
    ensures Finale(states, steps, SWITCH)
    ensures states[|steps| - 1].rt.pendingNavigation.Some?
    ensures CanBeAnswered(states[|steps| - 1].rt) && !CanBeAnswered(states[|steps|].rt)
  {
    hide Reached, ResolveSwitch;
    var rt := AskedWhileLeaving();
    SwitchGoesThrough(rt);
    ReachedIsSound(rt);
    RevisionAsksTheSame(rt, Now("x"), SWITCH);
    states, steps := Ending(rt, SWITCH);
  }

  lemma AskedWhileLeaving() returns (rt: Runtime)
    ensures Reached(rt) && InOrder(rt) && Seated(rt, {"pick"} + {"r1"})
    ensures LinkWaits(rt, rt, Created(A, Some(BOARD)), C, "go") && rt.pendingNavigation.value.commandId == "to-c"
    ensures rt.broadcast.value.active == Some("a") && ActiveTerminal(rt.broadcast) == Some(Created(A, Some(BOARD)))
    ensures rt.pendingSwitch == Some(PendingSwitch("sw", AIR, "a", Some(B)))
  {
    hide Reached, Links;
    var before := AskedAway();
    var a := Created(A, Some(BOARD));
    LinksOfDocument(a);
    rt := AsksAlong(before, {"pick"}, a, Opening("r1", "a", "to-c"), TO_C, C);
  }

  const RESET := OnTerminal(ResetFailedHack(A))

  function Guessing(): PlayerCommand {
    PlayerCommand("g1", AIR, "a", "guess", "", "", "w", "", NO_PRESENTATION, "")
  }

  lemma WrongGuessFails()
    ensures var after := Puzzles.Guessed(BOARD, "w"); after.failed && !after.solved && after.attemptsLeft == 0
  {
    assert Puzzles.Matches("o", "k") == 0;
    assert "no"[1..] == "o" && "ok"[1..] == "k";
  }

  function Locked(): Terminal {
    Created(A, Some(BOARD)).(hack := Some(Puzzles.Guessed(BOARD, "w")))
  }

  lemma GuessPlays()
    ensures Play(Created(A, Some(BOARD)), Guessing(), ANY) == Some(Locked())
  {
    hide Puzzles.Guessed;
    WrongGuessFails();
  }

  lemma PlayLands(rt: Runtime, used: set<string>, t: Terminal, played: Terminal, c: PlayerCommand)
    requires Seated(rt, used) && Standing(rt, t, RouteOf(rt)) && |used + {c.requestId}| < LIMIT
    requires Play(t, c, ANY) == Some(played) && played.terminalId == t.terminalId && played.lifecycle == Active
    ensures var after := After(rt, RequestPlay(rt, Now("x"), PLAYER, t, c, ANY).change);
            && Seated(after, used + {c.requestId}) && Standing(after, played, RouteOf(rt)) &&
               after.pendingSwitch == rt.pendingSwitch
  {
    hide Play, Sessions.Stored;
    var shown := PutActive(rt, played);
    var quiet := if ParseKind(c.kind) == Present then shown else SetNotice(shown, PLAYER, false);
    assert Seated(quiet, used) && Standing(quiet, played, RouteOf(rt));
    Remembered(quiet, used, c.requestId, ResultRecord(Fingerprint(c),
                                                      ActionResult(c.requestId, true, AcceptedAction,
                                                                   rt.revision + 1)));
  }

  lemma GuessIsPlay(rt: Runtime)
    requires rt.broadcast.Some? && rt.broadcast.value.active.Some?
    ensures var a := Created(A, Some(BOARD));
            Dispatch.Act(rt, Now("x"), PLAYER, a, Guessing(), ANY) ==
                RequestPlay(rt, Now("x"), PLAYER, a, Guessing(), ANY)
  {
    hide RequestPlay;
  }

  lemma LastGuess(rt: Runtime)
    requires Seated(rt, {"pick"}) && Standing(rt, Created(A, Some(BOARD)), [])
    ensures var after := Performed(rt, Now("x"), PlayerAction(WIRE, Guessing(), ANY));
            Seated(after, {"pick", "g1"}) && Standing(after, Locked(), []) && after.pendingSwitch == rt.pendingSwitch
  {
    hide RequestPlay, Dispatch.Act, Puzzles.Guessed;
    var a := Created(A, Some(BOARD));
    Admitted(rt, {"pick"}, a, Now("x"), Guessing());
    GuessIsPlay(rt);
    GuessPlays();
    PlayLands(rt, {"pick"}, a, Locked(), Guessing());
    ActionPerforms(rt, Now("x"), WIRE, Guessing(), ANY, RequestPlay(rt, Now("x"), PLAYER, a, Guessing(), ANY));
  }

  lemma OutOfAttempts() returns (rt: Runtime)
    ensures Stage(rt, {"pick", "g1"}, Locked(), [], None)
  {
    hide Reached, Execute;
    var start := CurtainUp();
    LastGuess(start);
    Onward(start, Now("x"), PlayerAction(WIRE, Guessing(), ANY));
    rt := Performed(start, Now("x"), PlayerAction(WIRE, Guessing(), ANY));
  }

  lemma LockedWhileTalking() returns (rt: Runtime)
    ensures Reached(rt) && rt.pendingCommand.Some? && InOrder(rt)
    ensures rt.broadcast.Some? && rt.broadcast.value.active == Some("a")
    ensures ActiveTerminal(rt.broadcast) == Some(Locked().(execution := Some(Execution(Awaiting, "talk"))))
  {
    hide Reached, Execute;
    var before := OutOfAttempts();
    rt := Talking(before, {"pick", "g1"}, Locked());
  }

  /** A failed puzzle reset while a command waits: the command is forgotten. */
  lemma ResetForgetsCommand() returns (states: seq<Coordinator>, steps: seq<Step>)
    ensures Finale(states, steps, RESET)
    ensures states[|steps| - 1].rt.pendingCommand.Some?
    ensures CanBeAnswered(states[|steps| - 1].rt) && !CanBeAnswered(states[|steps|].rt)
  {
    hide Reached;
    var rt := LockedWhileTalking();
    WrongGuessFails();
    assert Text.Trim("a") == "a";
    assert ResetHack(rt, Now("x"), A).Accept?;
    ReachedIsSound(rt);
    RevisionAsksTheSame(rt, Now("x"), RESET);
    states, steps := Ending(rt, RESET);
  }

  const EMPTIED := ContentNode(ROOT, Folder, "", [], None, None)
  const EDIT := OnTerminal(UpdateLiveTerminal(EMPTIED, None))

  lemma NothingIsOffered(t: Terminal, states: map<string, CommandState>, pending: PendingCommand)
    requires t.nav == Nav.Default()
    ensures !StillOffers(t, EMPTIED, states, pending)
  {
    assert Nav.WellFormed(t.nav, EMPTIED);
    Nav.WellFormedIsFixed(t.nav, EMPTIED);
  }

  /** The Overseer edits the content on the air and removes the command that waits. */
  lemma EditForgetsCommand() returns (states: seq<Coordinator>, steps: seq<Step>)
    ensures Finale(states, steps, EDIT)
    ensures states[|steps| - 1].rt.pendingCommand.Some?
    ensures CanBeAnswered(states[|steps| - 1].rt) && !CanBeAnswered(states[|steps|].rt)
  {
    hide Reached, StillOffers;
    var rt := AskedWhileTalking();
    var t := ActiveTerminal(rt.broadcast).value;
    NothingIsOffered(t, t.commandStates, rt.pendingCommand.value);
    ReachedIsSound(rt);
    RevisionAsksTheSame(rt, Now("x"), EDIT);
    states, steps := Ending(rt, EDIT);
  }

  const FOLLOW := Decide(ResolveTerminalNavigation("go", true))

  /** The switch is about "a", and the players see something else. */
  lemma SwitchIsStale(rt: Runtime)
    requires rt.pendingSwitch == Some(PendingSwitch("sw", AIR, "a", Some(B)))
    requires rt.broadcast.Some? && rt.broadcast.value.active != Some("a")
    ensures !CanBeAnswered(rt) && forall env, id, choice :: ResolveSwitch(rt, env, id, choice).Reject?
  {
    hide CommandAnswerable, NavigationAnswerable;
  }

  /** The players follow a link while the switch is being asked for: nobody can answer
      the switch any more, not even by cancelling it. */
  lemma LinkForgetsSwitch() returns (states: seq<Coordinator>, steps: seq<Step>)
    ensures Finale(states, steps, FOLLOW)
    ensures CanBeAnswered(states[|steps| - 1].rt) && !CanBeAnswered(states[|steps|].rt)
    ensures states[|steps|].rt.pendingSwitch == states[|steps| - 1].rt.pendingSwitch != None
    ensures forall env, id, choice :: ResolveSwitch(states[|steps|].rt, env, id, choice).Reject?
  {
    hide Reached, ResolveNavigation, ResolveSwitch, Links, CanBeAnswered, Finale, Seated, Standing;
    var rt := AskedWhileLeaving();
    var a := Created(A, Some(BOARD));
    LinksOfDocument(a);
    ReachedIsSound(rt);
    assert Text.Trim("go") == "go";
    var shown := LinkTaken(rt, {"pick"} + {"r1"}, Now("x"), a, TO_C, C, "go");
    ApprovalPerforms(rt, Now("x"), "go");
    SwitchIsStale(Performed(rt, Now("x"), FOLLOW));
    states, steps := Ending(rt, FOLLOW);
  }

  const BACK := PlayerCommand("r3", AIR, "a", "navigate", "back", "", "", "", NO_PRESENTATION, "")

  lemma TopStopStands(rt: Runtime, t: Terminal, route: seq<ReturnPoint>)
    requires JourneyOk(DOCUMENT.groups, rt) && Standing(rt, t, route) && route != []
    ensures Returnable(DOCUMENT, t, route)
  {
    DocumentIsValid();
    Route.SoundRouteCanReturn(DOCUMENT.groups, JourneyOf(rt.broadcast.value));
    FoundGroup(DOCUMENT.groups, route[|route| - 1].terminalId);
  }

  /** Back at "a", the player asks to return to "c" once more. */
  lemma AsksBack() returns (rt: Runtime, t: Terminal, route: seq<ReturnPoint>)
    ensures Reached(rt) && InOrder(rt) && AsksToReturn(rt, t, route) && Returnable(DOCUMENT, t, route)
    ensures route[|route| - 1].terminalId == "c" && rt.pendingNavigation.value.requestId == "go"
    ensures rt.pendingSwitch == Some(PendingSwitch("sw", AIR, "a", Some(B)))
  {
    hide Reached, Execute, Seated, Returnable, Pressing;
    var before, shown, stops := WanderedOff();
    t, route := shown, stops;
    IsSoundBefore(before);
    ReachedIsSound(before);
    TopStopStands(before, t, route);
    BackIsPressed(before, t, route);
    PressAtRoot(before, Now("go"), WIRE, BACK, ANY, t, route);
    StaysInOrder(before, Now("go"), PlayerAction(WIRE, BACK, ANY));
    Onward(before, Now("go"), PlayerAction(WIRE, BACK, ANY));
    rt := Performed(before, Now("go"), PlayerAction(WIRE, BACK, ANY));
  }

  lemma BackIsPressed(rt: Runtime, t: Terminal, route: seq<ReturnPoint>)
    requires Inv(rt, LIMIT) && Seated(rt, {"pick", "r1", "r2"}) && Standing(rt, t, route) && t.terminalId == "a"
    ensures Pressing(rt, Now("go"), WIRE, BACK, ANY)
  {
    assert Text.Trim("go") == "go";
    BackIsAdmitted(rt, Now("go"), WIRE, PLAYER, "r3", ANY, t, route);
  }

  /** A return does the same as a link. */
  lemma ReturnForgetsSwitch() returns (states: seq<Coordinator>, steps: seq<Step>)
    ensures Finale(states, steps, FOLLOW)
    ensures CanBeAnswered(states[|steps| - 1].rt) && !CanBeAnswered(states[|steps|].rt)
    ensures states[|steps| - 1].rt.pendingNavigation.Some? &&
            states[|steps| - 1].rt.pendingNavigation.value.direction == Return
    ensures states[|steps|].rt.pendingSwitch == states[|steps| - 1].rt.pendingSwitch != None
    ensures forall env, id, choice :: ResolveSwitch(states[|steps|].rt, env, id, choice).Reject?
  {
    hide Reached, ResolveNavigation, ResolveSwitch, ApproveReturn, CanBeAnswered;
    var rt, t, route := AsksBack();
    ReachedIsSound(rt);
    ReturnGoesThrough(rt, t, route);
    SwitchIsStale(Performed(rt, Now("x"), FOLLOW));
    states, steps := Ending(rt, FOLLOW);
  }

  lemma ReturnGoesThrough(rt: Runtime, t: Terminal, route: seq<ReturnPoint>)
    requires Inv(rt, LIMIT) && AsksToReturn(rt, t, route) && Returnable(DOCUMENT, t, route)
    requires rt.pendingNavigation.value.requestId == "go"
    ensures Execute(rt, Now("x"), FOLLOW).Accept?
    ensures var after := Performed(rt, Now("x"), FOLLOW);
            && after.broadcast.Some? && after.broadcast.value.active == Some(route[|route| - 1].terminalId)
            && after.pendingSwitch == rt.pendingSwitch
  {
    hide Travel, Nav.Restored;
    var point := route[|route| - 1];
    FoundTerminal(DOCUMENT.terminals, point.terminalId);
    assert NavigationCurrent(rt, "go") && Text.Trim("go") == "go";
    assert Execute(rt, Now("x"), FOLLOW) == ApproveReturn(rt, Now("x"), rt.pendingNavigation.value);
  }

  // ---------------------------------------------------------------- no way out

  lemma AsksToClear(before: Runtime)
    requires Seated(before, {"pick"}) && Standing(before, Created(A, Some(BOARD)), [])
    ensures var rt := After(before, ClearTerminal(before, "sw"));
            && Seated(rt, {"pick"}) && Standing(rt, Created(A, Some(BOARD)), []) && rt.notice == None
            && rt.pendingSwitch == Some(PendingSwitch("sw", AIR, "a", None))
  {
    var cleared := Cleared(before);
    assert ActiveTerminal(cleared.broadcast) == Some(Created(A, Some(BOARD)));
    assert ClearTerminal(before, "sw") == AskToSwitch(cleared, "sw", None);
  }

  lemma AskedToClear() returns (rt: Runtime)
    ensures Stage(rt, {"pick"}, Created(A, Some(BOARD)), [], Some(PendingSwitch("sw", AIR, "a", None))) &&
            rt.notice == None
  {
    hide Reached, ClearTerminal;
    var before := CurtainUp();
    Onward(before, Now("sw"), OnTerminal(RequestClear));
    rt := Performed(before, Now("sw"), OnTerminal(RequestClear));
    AsksToClear(before);
  }

  /** Asked whether to clear the screen over an open puzzle, the Overseer agrees after the
      player opened a command: the command is forgotten, and since nothing is on the
      screen any more, clearing it again is refused and does not help. */
  lemma ClearingCannotRecover() returns (states: seq<Coordinator>, steps: seq<Step>)
    ensures Finale(states, steps, SWITCH)
    ensures CanBeAnswered(states[|steps| - 1].rt) && !CommandAnswerable(states[|steps|].rt)
    ensures forall id :: ClearTerminal(states[|steps|].rt, id).Reject?
  {
    hide Reached, StillAuthored, Finale;
    var before := AskedToClear();
    var rt := Talking(before, {"pick"}, Created(A, Some(BOARD)));
    states, steps := Ending(rt, SWITCH);
  }

  // ---------------------------------------------------------------- a way back cut off

  const WITHOUT_A: set<string> := {"b", "c"}

  // The document without "a", and without the link that led there.
  const SAVED := Catalog([Group("g", "", ["c"]), Group("h", "", ["b"])], [B, C.(tree := EMPTIED)])

  lemma SavedIsValid()
    ensures ValidCatalog(SAVED) && Saves.SavedAs(DOCUMENT.groups, WITHOUT_A, SAVED.groups)
    ensures FindGroup(SAVED.groups, "a") == None
  {
    TreesAreValid();
    var groups := DOCUMENT.groups;
    assert ["a", "c"][1..] == ["c"] && ["c"][1..] == [] && ["b"][1..] == [];
    assert Saves.KeptMembers(["c"], WITHOUT_A) == ["c"] && Saves.KeptMembers(["b"], WITHOUT_A) == ["b"];
    assert Saves.KeptMembers(groups[0].members, WITHOUT_A) == ["c"];
    assert groups[1..] == [groups[1]] && [groups[1]][1..] == [];
    assert Saves.Kept([groups[1]], WITHOUT_A) == [SAVED.groups[1]];
    assert Saves.Kept(groups, WITHOUT_A) == SAVED.groups;
    assert SAVED.terminals[1..] == [SAVED.terminals[1]];
    assert FindTerminal([SAVED.terminals[1]], "c").Some?;
    assert LookupTerminal(SAVED, "b").Some? && LookupTerminal(SAVED, "c").Some?;
    assert SAVED.groups[1..] == [SAVED.groups[1]];
    forall g, id | g in SAVED.groups && id in g.members ensures LookupTerminal(SAVED, id).Some? {
      assert id == "b" || id == "c";
    }
  }

  lemma OpensLast(before: Runtime)
    requires Empty(before)
    ensures var rt := After(before, Activate(before, Now("x"), C));
            && rt.broadcast.Some? && rt.broadcast.value.active == Some("c") &&
               rt.broadcast.value.terminals.Keys == {"c"}
            && |RouteOf(rt)| == 1 && RouteOf(rt)[0].terminalId == "a"
  {
    Lookups();
    DocumentIsValid();
    assert Cleared(before) == before;
    assert Activate(before, Now("x"), C) == Accept(Activated(before, Now("x"), C), []);
    hide Activate;
    var moved := ShownInstead(before.broadcast.value, C, Some(BOARD));
    Route.EstablishIsSound(DOCUMENT, JourneyOf(moved), "c");
    assert Route.IndexOf(["a", "c"], "c") == 1;
  }

  lemma BeginsInTheMiddle() returns (rt: Runtime)
    ensures Reached(rt) && rt.broadcast.Some? && rt.broadcast.value.active == Some("c")
    ensures rt.broadcast.value.terminals.Keys == {"c"} && |RouteOf(rt)| == 1 && RouteOf(rt)[0].terminalId == "a"
  {
    hide Reached, Activate;
    var before := TakesSeat();
    Onward(before, Now("x"), OnTerminal(RequestActivation(C)));
    rt := Performed(before, Now("x"), OnTerminal(RequestActivation(C)));
    OpensLast(before);
  }

  lemma CutOff(rt: Runtime)
    requires JourneyOk(DOCUMENT.groups, rt) && rt.broadcast.Some? && rt.broadcast.value.active == Some("c")
    requires |RouteOf(rt)| == 1 && RouteOf(rt)[0].terminalId == "a"
    ensures !JourneyOk(SAVED.groups, rt) && !Route.ValidReturn(SAVED.groups, "c", RouteOf(rt)[0])
  {
    DocumentIsValid();
    SavedIsValid();
    hide ValidCatalog, Saves.SavedAs, JourneyOk;
    SaveKeepsJourneyIff(DOCUMENT.groups, WITHOUT_A, SAVED.groups, rt);
    assert !Saves.SparesStop(DOCUMENT.groups, JourneyOf(rt.broadcast.value), 0, WITHOUT_A);
  }

  /** The broadcast began at "c", so the players may go back to "a", where they have not
      been yet. Nothing keeps the Overseer from deleting "a"; the way back is then cut off. */
  lemma SaveCutsTheWayBack() returns (states: seq<Coordinator>, steps: seq<Step>)
    ensures IsRun(states, steps, LIMIT) && ValidCatalog(DOCUMENT)
    ensures forall i :: 0 <= i < |steps| ==> steps[i].env.catalog == DOCUMENT
    ensures ValidCatalog(SAVED) && Saves.SavedAs(DOCUMENT.groups, WITHOUT_A, SAVED.groups)
    ensures var rt := states[|steps|].rt;
            && JourneyOk(DOCUMENT.groups, rt) && CanDelete(rt, "a") && !JourneyOk(SAVED.groups, rt)
            && rt.broadcast.Some? && RouteOf(rt) != []
            && !Route.ValidReturn(SAVED.groups, "c", RouteOf(rt)[|RouteOf(rt)| - 1])
  {
    hide JourneyOk, ValidCatalog, Saves.SavedAs, Route.ValidReturn;
    var rt := BeginsInTheMiddle();
    states, steps :| EndsIn(states, steps, rt);
    DocumentIsValid();
    SavedIsValid();
    assert Text.Trim("a") == "a";
    IsSoundBefore(rt);
    CutOff(rt);
  }
}
