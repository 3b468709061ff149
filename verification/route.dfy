/** The return route of a broadcast: how it is seeded from an ordered group, what
    makes it walkable under a group set, and the validator that decides it. */
module Route {
  import opened Domain
  import opened State
  import opened Catalogue

  // ---------------------------------------------------------------- a walkable route

  /** Terminal `id` is member number `position` of the group called `groupId`. */
  predicate At(groups: seq<Group>, groupId: string, position: int, id: string) {
    var group := FindGroup(groups, id);
    && group.Some? && group.value.id == groupId
    && 0 <= position < |group.value.members| && group.value.members[position] == id
  }

  /** The terminal a player came from when standing at route point `i`. */
  function Successor(j: Journey, i: nat): string
    requires i < |j.route| && j.active.Some?
  {
    if i + 1 < |j.route| then j.route[i + 1].terminalId else j.active.value
  }

  predicate Anchored(groups: seq<Group>, j: Journey) {
    j.established && j.initialGroup != "" ==> At(groups, j.initialGroup, j.initialPosition, j.initialId)
  }

  /** A seeded point: only seeded points below it, numbered by its place in the
      route, with the next stop one place further in the same group. */
  predicate SeedSound(groups: seq<Group>, j: Journey, i: nat)
    requires i < |j.route| && j.active.Some?
  {
    var point := j.route[i];
    && (forall k :: 0 <= k < i ==> j.route[k].origin == InitialPrefix)
    && point.groupPosition == i
    && At(groups, point.groupId, i, point.terminalId)
    && At(groups, point.groupId, i + 1, Successor(j, i))
    && (j.initialGroup != "" ==> point.groupId == j.initialGroup && i < j.initialPosition)
  }

  /** The route invariant: all stops and the active terminal share one group, and
      the seeded stops at the bottom follow the order of that group. */
  predicate Sound(groups: seq<Group>, j: Journey) {
    && Anchored(groups, j)
    && (j.active.None? ==> j.route == [])
    && (j.active.Some? ==>
          forall i :: 0 <= i < |j.route| ==>
            && SameGroup(groups, j.route[i].terminalId, j.active.value)
            && (j.route[i].origin == InitialPrefix ==> SeedSound(groups, j, i)))
  }

  /** A pending step stays inside one group; a pending return is the top of the route. */
  predicate PendingSound(groups: seq<Group>, j: Option<Journey>, pending: Option<PendingNavigation>) {
    pending.Some? ==>
      var p := pending.value;
      && SameGroup(groups, p.source, p.target)
      && (p.direction == Return ==>
            && j.Some? && j.value.route != []
            && p.returnPoint == j.value.route[|j.value.route| - 1]
            && (p.returnPoint.origin == InitialPrefix ==>
                  At(groups, p.returnPoint.groupId, p.returnPoint.groupPosition, p.target)
                  && At(groups, p.returnPoint.groupId, p.returnPoint.groupPosition + 1, p.source)))
  }

  predicate JourneySound(groups: seq<Group>, j: Option<Journey>) {
    j.Some? ==> Sound(groups, j.value)
  }

  // ---------------------------------------------------------------- the validator

  datatype Membership = Membership(groupId: string, position: int)

  function MembersOf(group: Group, count: nat): map<string, Membership>
    requires count <= |group.members|
  {
    if count == 0 then map[]
    else MembersOf(group, count - 1)[group.members[count - 1] := Membership(group.id, count - 1)]
  }

  function ByTerminal(groups: seq<Group>): map<string, Membership> {
    if groups == [] then map[]
    else
      var last := groups[|groups| - 1];
      ByTerminal(groups[..|groups| - 1]) + MembersOf(last, |last.members|)
  }

  function ByGroup(groups: seq<Group>): map<string, seq<string>> {
    if groups == [] then map[]
    else
      var last := groups[|groups| - 1];
      ByGroup(groups[..|groups| - 1])[last.id := last.members]
  }

  predicate AcceptsPending(j: Option<Journey>, pending: Option<PendingNavigation>,
                           byTerminal: map<string, Membership>) {
    pending.Some? ==>
      var p := pending.value;
      && p.source in byTerminal && p.target in byTerminal
      && byTerminal[p.source].groupId == byTerminal[p.target].groupId
      && (p.direction == Return ==>
            && j.Some? && j.value.route != []
            && j.value.route[|j.value.route| - 1] == p.returnPoint
            && (p.returnPoint.origin == InitialPrefix ==>
                  && byTerminal[p.source].position == byTerminal[p.target].position + 1
                  && p.returnPoint.groupId == byTerminal[p.target].groupId
                  && p.returnPoint.groupPosition == byTerminal[p.target].position))
  }

  predicate AcceptsPoint(j: Journey, i: nat, byTerminal: map<string, Membership>, byGroup: map<string, seq<string>>)
    requires i < |j.route| && j.active.Some? && j.active.value in byTerminal
  {
    var point := j.route[i];
    && point.terminalId in byTerminal
    && byTerminal[point.terminalId].groupId == byTerminal[j.active.value].groupId
    && (point.origin == InitialPrefix ==>
          var position := point.groupPosition;
          var ordered := if point.groupId in byGroup then byGroup[point.groupId] else [];
          && (forall k :: 0 <= k < i ==> j.route[k].origin == InitialPrefix)
          && position == i
          && byTerminal[point.terminalId] == Membership(point.groupId, position)
          && 0 <= position < |ordered| && ordered[position] == point.terminalId
          && (j.initialGroup != "" ==> point.groupId == j.initialGroup && position < j.initialPosition)
          && Successor(j, i) in byTerminal
          && byTerminal[Successor(j, i)] == Membership(point.groupId, position + 1))
  }

  predicate AcceptsAnchor(j: Option<Journey>, byTerminal: map<string, Membership>) {
    j.Some? && j.value.established && j.value.initialGroup != "" ==>
      && j.value.initialId in byTerminal
      && byTerminal[j.value.initialId] == Membership(j.value.initialGroup, j.value.initialPosition)
  }

  predicate AcceptsRoute(j: Journey, byTerminal: map<string, Membership>, byGroup: map<string, seq<string>>) {
    j.active.Some? ==>
      && j.active.value in byTerminal
      && forall i :: 0 <= i < |j.route| ==> AcceptsPoint(j, i, byTerminal, byGroup)
  }

  predicate Accepts(j: Option<Journey>, pending: Option<PendingNavigation>, groups: seq<Group>) {
    && AcceptsAnchor(j, ByTerminal(groups))
    && AcceptsPending(j, pending, ByTerminal(groups))
    && (j.Some? ==> AcceptsRoute(j.value, ByTerminal(groups), ByGroup(groups)))
  }

  method IndexGroups(groups: seq<Group>)
    returns (byTerminal: map<string, Membership>, byGroup: map<string, seq<string>>)
    ensures byTerminal == ByTerminal(groups) && byGroup == ByGroup(groups)
  {
    byTerminal, byGroup := map[], map[];
    for g := 0 to |groups|
      invariant byTerminal == ByTerminal(groups[..g]) && byGroup == ByGroup(groups[..g])
    {
      var group := groups[g];
      byGroup := byGroup[group.id := group.members];
      for position := 0 to |group.members|
        invariant byTerminal == ByTerminal(groups[..g]) + MembersOf(group, position)
      {
        byTerminal := byTerminal[group.members[position] := Membership(group.id, position)];
      }
      assert groups[..g + 1][..g] == groups[..g];
    }
    assert groups[..|groups|] == groups;
  }

  /** The check every replacement of the group set has to pass. */
  method ValidateTerminalGroups(j: Option<Journey>, pending: Option<PendingNavigation>, groups: seq<Group>)
    returns (ok: bool)
    ensures ok <==> Accepts(j, pending, groups)
  {
    var byTerminal, byGroup := IndexGroups(groups);
    if j.Some? && j.value.established && j.value.initialGroup != "" {
      if j.value.initialId !in byTerminal { return false; }
      var initial := byTerminal[j.value.initialId];
      if initial.groupId != j.value.initialGroup || initial.position != j.value.initialPosition {
        return false;
      }
    }
    var pendingOk := ValidatePending(j, pending, byTerminal);
    if !pendingOk { return false; }
    if j.None? || j.value.active.None? {
      return true;
    }
    ok := ValidateRoute(j.value, byTerminal, byGroup);
  }

  method ValidatePending(j: Option<Journey>, pending: Option<PendingNavigation>, byTerminal: map<string, Membership>)
    returns (ok: bool)
    ensures ok <==> AcceptsPending(j, pending, byTerminal)
  {
    if pending.None? { return true; }
    var p := pending.value;
    if p.source !in byTerminal || p.target !in byTerminal { return false; }
    var source, target := byTerminal[p.source], byTerminal[p.target];
    if source.groupId != target.groupId { return false; }
    if p.direction == Return {
      if j.None? || |j.value.route| == 0 || j.value.route[|j.value.route| - 1] != p.returnPoint { return false; }
      if p.returnPoint.origin == InitialPrefix {
        if source.position != target.position + 1 || p.returnPoint.groupId != target.groupId
           || p.returnPoint.groupPosition != target.position {
          return false;
        }
      }
    }
    return true;
  }

  method ValidateRoute(j: Journey, byTerminal: map<string, Membership>, byGroup: map<string, seq<string>>)
    returns (ok: bool)
    requires j.active.Some?
    ensures ok <==> AcceptsRoute(j, byTerminal, byGroup)
  {
    if j.active.value !in byTerminal { return false; }
    var active := byTerminal[j.active.value];
    var seededPosition := 0;
    var seededChainEnded := false;
    for i := 0 to |j.route|
      invariant seededChainEnded <==> exists k :: 0 <= k < i && j.route[k].origin != InitialPrefix
      invariant !seededChainEnded ==> seededPosition == i
      invariant forall k :: 0 <= k < i ==> AcceptsPoint(j, k, byTerminal, byGroup)
    {
      var point := j.route[i];
      ghost var stands := AcceptsPoint(j, i, byTerminal, byGroup);
      if point.terminalId !in byTerminal { return false; }
      var member := byTerminal[point.terminalId];
      if member.groupId != active.groupId { return false; }
      if point.origin != InitialPrefix {
        seededChainEnded := true;
        continue;
      }
      var ordered := if point.groupId in byGroup then byGroup[point.groupId] else [];
      if seededChainEnded || point.groupPosition != seededPosition { return false; }
      if point.groupId != member.groupId || point.groupPosition < 0 || point.groupPosition >= |ordered|
         || ordered[point.groupPosition] != point.terminalId || member.position != point.groupPosition {
        return false;
      }
      if j.initialGroup != "" && (point.groupId != j.initialGroup || point.groupPosition >= j.initialPosition) {
        return false;
      }
      var successorId := j.active.value;
      if i + 1 < |j.route| {
        successorId := j.route[i + 1].terminalId;
      }
      // A missing terminal reads as position 0 of no group, which is never next.
      var successor := if successorId in byTerminal then byTerminal[successorId] else Membership("", 0);
      if successor.groupId != member.groupId || successor.position != point.groupPosition + 1 { return false; }
      seededPosition := seededPosition + 1;
    }
    return true;
  }

  // ---------------------------------------------------------------- what acceptance means

  lemma {:induction false} MembersOfIsMember(group: Group, count: nat, id: string)
    requires count <= |group.members|
    requires forall i, k :: 0 <= i < k < |group.members| ==> group.members[i] != group.members[k]
    ensures id in MembersOf(group, count) <==> exists i :: 0 <= i < count && group.members[i] == id
    ensures forall i :: 0 <= i < count && group.members[i] == id ==>
            MembersOf(group, count)[id] == Membership(group.id, i)
  {
    if count > 0 {
      MembersOfIsMember(group, count - 1, id);
    }
  }

  lemma ValidInit(groups: seq<Group>)
    requires ValidGroups(groups) && groups != []
    ensures ValidGroups(groups[..|groups| - 1])
  {
    var init := groups[..|groups| - 1];
    assert forall g :: g in init ==> g in groups;
  }

  lemma {:induction false} FindGroupInit(groups: seq<Group>, id: string)
    requires groups != []
    ensures var last := groups[|groups| - 1];
            FindGroup(groups, id) ==
            if FindGroup(groups[..|groups| - 1], id).Some? then FindGroup(groups[..|groups| - 1], id)
            else if id in last.members then Some(last) else None
  {
    if |groups| == 1 {
      assert groups[1..] == [] && groups[..0] == [];
    } else {
      var init := groups[..|groups| - 1];
      assert init[1..] == groups[1..][..|groups| - 2] && groups[1..][|groups| - 2] == groups[|groups| - 1];
      FindGroupInit(groups[1..], id);
    }
  }

  /** The two indexes agree with looking the group up, for every valid group set. */
  lemma {:induction false} IndexMeansAt(groups: seq<Group>, id: string)
    requires ValidGroups(groups)
    ensures id in ByTerminal(groups) <==> FindGroup(groups, id).Some?
    ensures id in ByTerminal(groups) ==> ByTerminal(groups)[id].groupId == FindGroup(groups, id).value.id
    ensures forall groupId, position ::
              At(groups, groupId, position, id) <==>
                  id in ByTerminal(groups) && ByTerminal(groups)[id] == Membership(groupId, position)
  {
    if groups != [] {
      var init, last := groups[..|groups| - 1], groups[|groups| - 1];
      ValidInit(groups);
      IndexMeansAt(init, id);
      FindGroupInit(groups, id);
      MembersOfIsMember(last, |last.members|, id);
      if id in last.members {
        FoundGroup(init, id);
        assert forall i :: 0 <= i < |init| ==> id !in groups[i].members;
      }
    }
  }

  lemma {:induction false} GroupIndexMeansMembers(groups: seq<Group>, group: Group)
    requires ValidGroups(groups) && group in groups
    ensures group.id in ByGroup(groups) && ByGroup(groups)[group.id] == group.members
  {
    var init, last := groups[..|groups| - 1], groups[|groups| - 1];
    if group != last {
      ValidInit(groups);
      GroupIndexMeansMembers(init, group);
      var i :| 0 <= i < |groups| && groups[i] == group;
    }
  }

  lemma PointAcceptedIffSound(groups: seq<Group>, j: Journey, i: nat)
    requires ValidGroups(groups) && i < |j.route| && j.active.Some? && FindGroup(groups, j.active.value).Some?
    ensures j.active.value in ByTerminal(groups)
    ensures AcceptsPoint(j, i, ByTerminal(groups), ByGroup(groups)) <==>
            && SameGroup(groups, j.route[i].terminalId, j.active.value)
            && (j.route[i].origin == InitialPrefix ==> SeedSound(groups, j, i))
  {
    var point := j.route[i];
    IndexMeansAt(groups, j.active.value);
    IndexMeansAt(groups, point.terminalId);
    IndexMeansAt(groups, Successor(j, i));
    FoundGroup(groups, point.terminalId);
    FoundGroup(groups, j.active.value);
    if FindGroup(groups, point.terminalId).Some? {
      GroupIndexMeansMembers(groups, FindGroup(groups, point.terminalId).value);
    }
  }

  lemma PendingAcceptedIffSound(groups: seq<Group>, j: Option<Journey>, pending: Option<PendingNavigation>)
    requires ValidGroups(groups)
    ensures AcceptsPending(j, pending, ByTerminal(groups)) <==> PendingSound(groups, j, pending)
  {
    if pending.Some? {
      IndexMeansAt(groups, pending.value.source);
      IndexMeansAt(groups, pending.value.target);
      FoundGroup(groups, pending.value.source);
    }
  }

  /** Acceptance is exactness: a valid group set passes the check exactly when the
      anchor, the whole live route and the pending step are sound under it and it
      still lists the active terminal. */
  lemma AcceptedIffSound(groups: seq<Group>, j: Option<Journey>, pending: Option<PendingNavigation>)
    requires ValidGroups(groups)
    requires j.Some? && j.value.active.None? ==> j.value.route == []
    ensures Accepts(j, pending, groups) <==>
            && JourneySound(groups, j)
            && PendingSound(groups, j, pending)
            && (j.Some? && j.value.active.Some? ==> FindGroup(groups, j.value.active.value).Some?)
  {
    PendingAcceptedIffSound(groups, j, pending);
    if j.Some? {
      IndexMeansAt(groups, j.value.initialId);
      if j.value.active.Some? {
        IndexMeansAt(groups, j.value.active.value);
        if FindGroup(groups, j.value.active.value).Some? {
          forall i | 0 <= i < |j.value.route|
            ensures AcceptsPoint(j.value, i, ByTerminal(groups), ByGroup(groups)) <==>
                    && SameGroup(groups, j.value.route[i].terminalId, j.value.active.value)
                    && (j.value.route[i].origin == InitialPrefix ==> SeedSound(groups, j.value, i))
          {
            PointAcceptedIffSound(groups, j.value, i);
          }
        }
      }
    }
  }

  // ---------------------------------------------------------------- seeding

  function IndexOf(members: seq<string>, id: string): (index: int)
    ensures -1 <= index < |members|
    ensures index >= 0 ==> members[index] == id
    ensures index == -1 <==> id !in members
  {
    if members == [] then -1
    else if members[0] == id then 0
    else
      var rest := IndexOf(members[1..], id);
      if rest < 0 then -1 else rest + 1
  }

  function SeedPoint(target: Target, group: Group, position: nat): ReturnPoint {
    ReturnPoint(target.terminalId, target.terminalName, ROOT, [], "", "", InitialPrefix, group.id, position)
  }

  /** One seeded point for each of the first `count` members, if all are known. */
  function SeedRoute(catalog: Catalog, group: Group, count: nat): Option<seq<ReturnPoint>>
    requires count <= |group.members|
  {
    if count == 0 then Some([])
    else
      var below := SeedRoute(catalog, group, count - 1);
      var target := LookupTerminal(catalog, group.members[count - 1]);
      if below.None? || target.None? then None
      else Some(below.value + [SeedPoint(target.value, group, count - 1)])
  }

  /** The journey after the first activation of a broadcast. */
  function Establish(catalog: Catalog, j: Journey, id: string): Journey {
    if j.established then j
    else
      var marked := j.(established := true);
      var group := FindGroup(catalog.groups, id);
      if group.None? || group.value.id == "" then marked
      else
        var position := IndexOf(group.value.members, id);
        if position < 0 then marked
        else if position == 0 then marked.(initialId := id, initialGroup := group.value.id, initialPosition := 0)
        else
          var route := SeedRoute(catalog, group.value, position);
          if route.None? then marked
          else marked.(initialId := id, initialGroup := group.value.id, initialPosition := position,
                       route := route.value)
  }

  // A seeded stop leads back to the root of its terminal, and no command led away from it.
  predicate Leads(point: ReturnPoint, target: Target) {
    && point.terminalName == target.terminalName && point.folderId == ROOT && point.ancestors == []
    && point.commandId == "" && point.commandName == ""
  }

  lemma {:induction false} SeedRouteShape(catalog: Catalog, group: Group, count: nat)
    requires count <= |group.members|
    requires forall id :: id in group.members ==> LookupTerminal(catalog, id).Some?
    ensures SeedRoute(catalog, group, count).Some?
    ensures var route := SeedRoute(catalog, group, count).value;
            && |route| == count
            && (forall i :: 0 <= i < count ==>
                  && route[i].terminalId == group.members[i]
                  && route[i].origin == InitialPrefix && route[i].groupId == group.id && route[i].groupPosition == i
                  && Leads(route[i], LookupTerminal(catalog, group.members[i]).value))
  {
    if count > 0 {
      SeedRouteShape(catalog, group, count - 1);
      assert group.members[count - 1] in group.members;
      FoundTerminal(catalog.terminals, group.members[count - 1]);
    }
  }

  lemma SeededStopsAreSound(groups: seq<Group>, j: Journey, g: Group)
    requires j.active.Some? && |j.route| == j.initialPosition < |g.members| && j.active.value == g.members[|j.route|]
    requires j.initialGroup == g.id && forall member :: member in g.members ==> FindGroup(groups, member) == Some(g)
    requires forall i :: 0 <= i < |j.route| ==>
               && j.route[i].terminalId == g.members[i] && j.route[i].origin == InitialPrefix
               && j.route[i].groupId == g.id && j.route[i].groupPosition == i
    ensures forall i :: 0 <= i < |j.route| ==> SeedSound(groups, j, i)
  {
    forall i | 0 <= i < |j.route| ensures SeedSound(groups, j, i) {
      assert Successor(j, i) == g.members[i + 1] && g.members[i + 1] in g.members && g.members[i] in g.members;
    }
  }

  /** The first activation seeds exactly the members before the activated terminal,
      in order, and the result is sound. */
  lemma EstablishIsSound(catalog: Catalog, j: Journey, id: string)
    requires ValidCatalog(catalog)
    requires !j.established && j.initialGroup == "" && j.route == [] && j.active == Some(id)
    ensures var after := Establish(catalog, j, id);
            && Sound(catalog.groups, after)
            && after.established && after.active == j.active
            && var group := FindGroup(catalog.groups, id);
               if group.None? then after.route == [] && after.initialGroup == ""
               else
                 && after.initialGroup == group.value.id && after.initialId == id
                 && |after.route| == after.initialPosition == IndexOf(group.value.members, id)
                 && (forall i :: 0 <= i < |after.route| ==>
                       && after.route[i].terminalId == group.value.members[i] && after.route[i].origin == InitialPrefix
                       && LookupTerminal(catalog, group.value.members[i]).Some?
                       && Leads(after.route[i], LookupTerminal(catalog, group.value.members[i]).value))
  {
    hide SeedSound, Leads;
    FoundGroup(catalog.groups, id);
    var group := FindGroup(catalog.groups, id);
    if group.Some? {
      var g := group.value;
      forall member | member in g.members ensures LookupTerminal(catalog, member).Some? {}
      SeedRouteShape(catalog, g, IndexOf(g.members, id));
      forall member | member in g.members ensures FindGroup(catalog.groups, member) == group {
        OnlyGroup(catalog.groups, g, member);
      }
      SeededStopsAreSound(catalog.groups, Establish(catalog, j, id), g);
    }
  }

  // ---------------------------------------------------------------- steps along the route

  function Pushed(j: Journey, point: ReturnPoint, target: string): Journey {
    j.(route := j.route + [point], active := Some(target))
  }

  function Popped(j: Journey): Journey
    requires j.route != []
  {
    j.(route := j.route[..|j.route| - 1], active := Some(j.route[|j.route| - 1].terminalId))
  }

  lemma SameGroupIsEquivalence(groups: seq<Group>, a: string, b: string, c: string)
    requires SameGroup(groups, a, b) && SameGroup(groups, b, c)
    ensures SameGroup(groups, a, c) && SameGroup(groups, b, a)
  {
  }

  /** Going forward inside the group keeps the route sound. */
  lemma PushIsSound(groups: seq<Group>, j: Journey, point: ReturnPoint, target: string)
    requires Sound(groups, j)
    requires j.active == Some(point.terminalId) && point.origin == Authored
    requires SameGroup(groups, point.terminalId, target)
    ensures Sound(groups, Pushed(j, point, target))
  {
    var after := Pushed(j, point, target);
    forall i | 0 <= i < |after.route|
      ensures SameGroup(groups, after.route[i].terminalId, target)
      ensures after.route[i].origin == InitialPrefix ==> SeedSound(groups, after, i)
    {
      if i < |j.route| {
        assert after.route[i] == j.route[i];
        SameGroupIsEquivalence(groups, j.route[i].terminalId, point.terminalId, target);
        if j.route[i].origin == InitialPrefix {
          assert SeedSound(groups, j, i);
          assert Successor(after, i) == Successor(j, i);
          assert forall k :: 0 <= k < i ==> after.route[k] == j.route[k];
        }
      }
    }
  }

  /** Going back to the top of the route keeps it sound. */
  lemma PopIsSound(groups: seq<Group>, j: Journey)
    requires Sound(groups, j) && j.route != [] && j.active.Some?
    ensures Sound(groups, Popped(j))
  {
    var after := Popped(j);
    var top := j.route[|j.route| - 1];
    SameGroupIsEquivalence(groups, top.terminalId, j.active.value, top.terminalId);
    forall i | 0 <= i < |after.route|
      ensures SameGroup(groups, after.route[i].terminalId, top.terminalId)
      ensures after.route[i].origin == InitialPrefix ==> SeedSound(groups, after, i)
    {
      assert after.route[i] == j.route[i];
      SameGroupIsEquivalence(groups, j.route[i].terminalId, j.active.value, top.terminalId);
      if j.route[i].origin == InitialPrefix {
        assert SeedSound(groups, j, i);
        assert Successor(after, i) == Successor(j, i);
        assert forall k :: 0 <= k < i ==> after.route[k] == j.route[k];
      }
    }
  }

  /** The rule the coordinator applies before a return. */
  predicate ValidReturn(groups: seq<Group>, source: string, point: ReturnPoint) {
    && SameGroup(groups, source, point.terminalId)
    && (point.origin == InitialPrefix ==>
          var group := FindGroup(groups, point.terminalId).value;
          && point.groupId == group.id
          && LastIndexOf(group.members, point.terminalId) == point.groupPosition
          && LastIndexOf(group.members, source) == point.groupPosition + 1)
  }

  // The scan keeps the last match.
  function LastIndexOf(members: seq<string>, id: string): (index: int)
    ensures -1 <= index < |members|
    ensures index >= 0 ==> members[index] == id
    ensures index == -1 <==> id !in members
  {
    if members == [] then -1
    else if members[|members| - 1] == id then |members| - 1
    else LastIndexOf(members[..|members| - 1], id)
  }

  predicate Together(groups: seq<Group>, left: string, right: string) {
    exists g :: g in groups && left in g.members && right in g.members
  }

  /** `next` is the member right after number `position` of the group called `groupId`. */
  predicate Adjacent(groups: seq<Group>, groupId: string, position: int, here: string, next: string) {
    exists g :: g in groups && g.id == groupId && 0 <= position < |g.members| - 1
                && g.members[position] == here && g.members[position + 1] == next
  }

  lemma TogetherIff(groups: seq<Group>, left: string, right: string)
    requires ValidGroups(groups)
    ensures SameGroup(groups, left, right) <==> Together(groups, left, right)
  {
    FoundGroup(groups, left);
    FoundGroup(groups, right);
    SameGroupMeansEqual(groups, left, right);
    if Together(groups, left, right) {
      var g :| g in groups && left in g.members && right in g.members;
      OnlyGroup(groups, g, left);
      OnlyGroup(groups, g, right);
    }
  }

  /** A return stays in one group, and back over a seeded stop it takes one place in the
      order of the group. */
  lemma ReturnableIff(groups: seq<Group>, source: string, point: ReturnPoint)
    requires ValidGroups(groups)
    ensures ValidReturn(groups, source, point) <==>
            && Together(groups, source, point.terminalId)
            && (point.origin == InitialPrefix ==>
                  Adjacent(groups, point.groupId, point.groupPosition, point.terminalId, source))
  {
    TogetherIff(groups, source, point.terminalId);
    SameGroupMeansEqual(groups, source, point.terminalId);
    FoundGroup(groups, point.terminalId);
    if Adjacent(groups, point.groupId, point.groupPosition, point.terminalId, source) {
      var g :| g in groups && g.id == point.groupId && 0 <= point.groupPosition < |g.members| - 1
               && g.members[point.groupPosition] == point.terminalId && g.members[point.groupPosition + 1] == source;
      OnlyGroup(groups, g, point.terminalId);
    }
  }

  /** On a sound route the return at the top is always valid, so a live route can
      never become impossible to walk back. */
  lemma SoundRouteCanReturn(groups: seq<Group>, j: Journey)
    requires ValidGroups(groups) && Sound(groups, j) && j.route != []
    ensures j.active.Some? && ValidReturn(groups, j.active.value, j.route[|j.route| - 1])
  {
    var top := j.route[|j.route| - 1];
    SameGroupIsEquivalence(groups, top.terminalId, j.active.value, top.terminalId);
    if top.origin == InitialPrefix {
      assert SeedSound(groups, j, |j.route| - 1);
      FoundGroup(groups, top.terminalId);
      FoundGroup(groups, j.active.value);
    }
  }

  /** A valid return is sound as a pending decision. */
  lemma ReturnIsPendingSound(groups: seq<Group>, j: Journey, pending: PendingNavigation)
    requires ValidGroups(groups) && Sound(groups, j) && j.route != []
    requires pending.direction == Return && pending.source == j.active.value
    requires pending.returnPoint == j.route[|j.route| - 1] && pending.target == pending.returnPoint.terminalId
    ensures PendingSound(groups, Some(j), Some(pending))
  {
    SoundRouteCanReturn(groups, j);
    if pending.returnPoint.origin == InitialPrefix {
      assert SeedSound(groups, j, |j.route| - 1);
    }
  }
}
