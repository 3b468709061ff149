/** Saving the document under a live route: memberships the coordinator knows are kept in
    their order, deleted terminals leave their groups, and new ones join groups of their
    own. Nothing asks the coordinator before a terminal on the way back is deleted. */
module Saves {
  import opened Domain
  import opened State
  import opened Catalogue
  import opened Route

  // ---------------------------------------------------------------- merging a saved document

  function KeptMembers(members: seq<string>, kept: set<string>): seq<string> {
    if members == [] then []
    else (if members[0] in kept then [members[0]] else []) + KeptMembers(members[1..], kept)
  }

  function Trimmed(group: Group, kept: set<string>): Group {
    group.(members := KeptMembers(group.members, kept))
  }

  /** The known groups without the deleted terminals; a group left empty is dropped. */
  function Kept(groups: seq<Group>, kept: set<string>): seq<Group> {
    if groups == [] then []
    else (if KeptMembers(groups[0].members, kept) == [] then []
          else [Trimmed(groups[0], kept)]) + Kept(groups[1..], kept)
  }

  method TrimMembers(members: seq<string>, kept: set<string>) returns (trimmed: seq<string>)
    ensures trimmed == KeptMembers(members, kept)
  {
    trimmed := [];
    for k := 0 to |members|
      invariant trimmed + KeptMembers(members[k..], kept) == KeptMembers(members, kept)
    {
      assert members[k..][1..] == members[k + 1..];
      if members[k] in kept {
        trimmed := trimmed + [members[k]];
      }
    }
  }

  method MergeTerminalGroups(groups: seq<Group>, kept: set<string>) returns (merged: seq<Group>)
    ensures merged == Kept(groups, kept)
  {
    merged := [];
    for i := 0 to |groups|
      invariant merged + Kept(groups[i..], kept) == Kept(groups, kept)
    {
      var members := TrimMembers(groups[i].members, kept);
      assert groups[i..][1..] == groups[i + 1..];
      if members != [] {
        merged := merged + [groups[i].(members := members)];
      }
    }
  }

  /** `next` is what a document with exactly the terminals `kept` is saved as: the merged
      groups first, then groups of terminals that were in none. */
  ghost predicate SavedAs(groups: seq<Group>, kept: set<string>, next: seq<Group>) {
    && Kept(groups, kept) <= next
    && forall g, id :: g in next[|Kept(groups, kept)|..] && id in g.members ==>
       id in kept && FindGroup(groups, id).None?
  }

  // ---------------------------------------------------------------- where a terminal is found afterwards

  lemma {:induction false} KeptMember(members: seq<string>, kept: set<string>, id: string)
    ensures id in KeptMembers(members, kept) <==> id in members && id in kept
  {
    if members != [] {
      KeptMember(members[1..], kept, id);
      assert members == [members[0]] + members[1..];
    }
  }

  lemma {:induction false} KeptGroup(groups: seq<Group>, kept: set<string>, id: string)
    ensures FindGroup(Kept(groups, kept), id) ==
            if id in kept && FindGroup(groups, id).Some? then Some(Trimmed(FindGroup(groups, id).value, kept)) else None
  {
    if groups != [] {
      KeptMember(groups[0].members, kept, id);
      KeptGroup(groups[1..], kept, id);
      if KeptMembers(groups[0].members, kept) != [] {
        assert Kept(groups, kept)[1..] == Kept(groups[1..], kept);
      } else {
        assert Kept(groups, kept) == Kept(groups[1..], kept);
      }
    }
  }

  lemma {:induction false} FoundInEither(first: seq<Group>, rest: seq<Group>, id: string)
    ensures FindGroup(first + rest, id) == if FindGroup(first, id).Some? then FindGroup(first, id)
            else FindGroup(rest, id)
  {
    if first == [] {
      assert first + rest == rest;
    } else {
      assert (first + rest)[1..] == first[1..] + rest;
      FoundInEither(first[1..], rest, id);
    }
  }

  /** A known terminal stays in its group, or is in none once it is deleted. */
  lemma SavedGroup(groups: seq<Group>, kept: set<string>, next: seq<Group>, id: string)
    requires SavedAs(groups, kept, next) && FindGroup(groups, id).Some?
    ensures FindGroup(next, id) == if id in kept then Some(Trimmed(FindGroup(groups, id).value, kept)) else None
  {
    var first := Kept(groups, kept);
    assert next == first + next[|first|..];
    FoundInEither(first, next[|first|..], id);
    KeptGroup(groups, kept, id);
    FoundGroup(next[|first|..], id);
  }

  predicate NoRepeats(members: seq<string>) {
    forall i, k :: 0 <= i < k < |members| ==> members[i] != members[k]
  }

  /** Deleting members moves the ones behind them forward. */
  lemma {:induction false} PlaceKept(members: seq<string>, kept: set<string>, position: nat) returns (place: nat)
    requires NoRepeats(members) && position < |members| && members[position] in kept
    ensures NoRepeats(KeptMembers(members, kept))
    ensures place <= position && place < |KeptMembers(members, kept)| &&
            KeptMembers(members, kept)[place] == members[position]
    ensures place == position <==> forall k :: 0 <= k < position ==> members[k] in kept
  {
    var rest := members[1..];
    KeptHasNoRepeats(members, kept);
    if position == 0 {
      place := 0;
    } else {
      var behind := PlaceKept(rest, kept, position - 1);
      place := if members[0] in kept then behind + 1 else behind;
      assert forall k :: 0 <= k < position - 1 ==> rest[k] == members[k + 1];
      assert (forall k :: 0 <= k < position - 1 ==> rest[k] in kept) <==>
             (forall k :: 1 <= k < position ==> members[k] in kept) by {
        forall k | 1 <= k < position ensures members[k] == rest[k - 1] { }
      }
    }
  }

  lemma {:induction false} KeptHasNoRepeats(members: seq<string>, kept: set<string>)
    requires NoRepeats(members)
    ensures NoRepeats(KeptMembers(members, kept))
  {
    if members != [] {
      KeptHasNoRepeats(members[1..], kept);
      KeptMember(members[1..], kept, members[0]);
      assert members[0] !in members[1..];
    }
  }

  // ---------------------------------------------------------------- what the way back leans on

  /** The group of `id` keeps every member up to this position. */
  predicate KeepsUpTo(groups: seq<Group>, id: string, position: int, kept: set<string>) {
    FindGroup(groups, id).Some? ==>
      var members := FindGroup(groups, id).value.members;
      forall k :: 0 <= k <= position && k < |members| ==> members[k] in kept
  }

  /** The save deletes no terminal on the way back, and none whose group order the anchor
      or a seeded stop counts on. */
  predicate Spares(groups: seq<Group>, j: Journey, kept: set<string>) {
    && (j.established && j.initialGroup != "" ==> KeepsUpTo(groups, j.initialId, j.initialPosition, kept))
    && (j.active.Some? ==> forall i :: 0 <= i < |j.route| ==> SparesStop(groups, j, i, kept))
  }

  predicate SparesStop(groups: seq<Group>, j: Journey, i: nat, kept: set<string>)
    requires i < |j.route| && j.active.Some?
  {
    && j.active.value in kept && j.route[i].terminalId in kept
    && (j.route[i].origin == InitialPrefix ==> KeepsUpTo(groups, j.route[i].terminalId, i + 1, kept))
  }

  predicate SparesPending(pending: Option<PendingNavigation>, kept: set<string>) {
    pending.Some? ==> pending.value.source in kept && pending.value.target in kept
  }

  lemma AtSavedIff(groups: seq<Group>, kept: set<string>, next: seq<Group>, groupId: string, position: int, id: string)
    requires ValidGroups(groups) && SavedAs(groups, kept, next) && At(groups, groupId, position, id)
    ensures At(next, groupId, position, id) <==> KeepsUpTo(groups, id, position, kept)
  {
    FoundGroup(groups, id);
    SavedGroup(groups, kept, next, id);
    var members := FindGroup(groups, id).value.members;
    if id in kept {
      var place := PlaceKept(members, kept, position);
    }
  }

  lemma SameGroupSavedIff(groups: seq<Group>, kept: set<string>, next: seq<Group>, source: string, target: string)
    requires SavedAs(groups, kept, next) && SameGroup(groups, source, target)
    ensures SameGroup(next, source, target) <==> source in kept && target in kept
  {
    SavedGroup(groups, kept, next, source);
    SavedGroup(groups, kept, next, target);
  }

  lemma StopSavedIff(groups: seq<Group>, kept: set<string>, next: seq<Group>, j: Journey, i: nat)
    requires ValidGroups(groups) && SavedAs(groups, kept, next) && Sound(groups, j) && j.active.Some? && i < |j.route|
    ensures (&& SameGroup(next, j.route[i].terminalId, j.active.value)
             && (j.route[i].origin == InitialPrefix ==> SeedSound(next, j, i)))
            <==> SparesStop(groups, j, i, kept)
  {
    var point := j.route[i];
    SameGroupSavedIff(groups, kept, next, point.terminalId, j.active.value);
    if point.origin == InitialPrefix {
      assert SeedSound(groups, j, i);
      AtSavedIff(groups, kept, next, point.groupId, i, point.terminalId);
      AtSavedIff(groups, kept, next, point.groupId, i + 1, Successor(j, i));
      FoundGroup(groups, point.terminalId);
      FoundGroup(groups, Successor(j, i));
      SameIdSameGroup(groups, FindGroup(groups, point.terminalId).value, FindGroup(groups, Successor(j, i)).value);
    }
  }

  /** Exactly when a live route survives a save. */
  lemma RouteSavedIff(groups: seq<Group>, kept: set<string>, next: seq<Group>, j: Journey)
    requires ValidGroups(groups) && SavedAs(groups, kept, next) && Sound(groups, j)
    ensures Sound(next, j) <==> Spares(groups, j, kept)
  {
    if j.established && j.initialGroup != "" {
      AtSavedIff(groups, kept, next, j.initialGroup, j.initialPosition, j.initialId);
    }
    if j.active.Some? && Sound(next, j) {
      forall i | 0 <= i < |j.route| ensures SparesStop(groups, j, i, kept) {
        StopSavedIff(groups, kept, next, j, i);
      }
    }
    if j.active.Some? && Spares(groups, j, kept) {
      forall i | 0 <= i < |j.route|
        ensures SameGroup(next, j.route[i].terminalId, j.active.value)
        ensures j.route[i].origin == InitialPrefix ==> SeedSound(next, j, i)
      {
        StopSavedIff(groups, kept, next, j, i);
      }
    }
  }

  /** And a pending step on a route that does: when neither end is deleted. */
  lemma PendingSavedIff(groups: seq<Group>, kept: set<string>, next: seq<Group>, j: Option<Journey>,
                        pending: Option<PendingNavigation>)
    requires ValidGroups(groups) && SavedAs(groups, kept, next) && JourneySound(groups, j) &&
             PendingSound(groups, j, pending)
    requires JourneySound(next, j)
    ensures PendingSound(next, j, pending) <==> SparesPending(pending, kept)
  {
    if pending.Some? {
      var p := pending.value;
      SameGroupSavedIff(groups, kept, next, p.source, p.target);
      if p.direction == Return && p.returnPoint.origin == InitialPrefix && SparesPending(pending, kept) {
        TopSaved(groups, kept, next, j.value, p);
      }
    }
  }

  // A pending return is the top of the route, which is sound already.
  lemma TopSaved(groups: seq<Group>, kept: set<string>, next: seq<Group>, j: Journey, p: PendingNavigation)
    requires ValidGroups(groups) && SavedAs(groups, kept, next) && Sound(groups, j) && Sound(next, j)
    requires j.route != [] && p.returnPoint == j.route[|j.route| - 1] && p.returnPoint.origin == InitialPrefix
    requires At(groups, p.returnPoint.groupId, p.returnPoint.groupPosition, p.target)
    requires At(groups, p.returnPoint.groupId, p.returnPoint.groupPosition + 1, p.source)
    ensures At(next, p.returnPoint.groupId, p.returnPoint.groupPosition, p.target)
    ensures At(next, p.returnPoint.groupId, p.returnPoint.groupPosition + 1, p.source)
  {
    var top := |j.route| - 1;
    assert SeedSound(groups, j, top) && SeedSound(next, j, top);
    SameTerminal(groups, p.returnPoint.groupId, top, p.target, p.returnPoint.terminalId);
    SameTerminal(groups, p.returnPoint.groupId, top + 1, p.source, j.active.value);
  }

  lemma SameTerminal(groups: seq<Group>, groupId: string, position: int, left: string, right: string)
    requires ValidGroups(groups) && At(groups, groupId, position, left) && At(groups, groupId, position, right)
    ensures left == right
  {
    FoundGroup(groups, left);
    FoundGroup(groups, right);
    SameIdSameGroup(groups, FindGroup(groups, left).value, FindGroup(groups, right).value);
  }

  // ---------------------------------------------------------------- saves that delete nothing

  ghost function Listed(groups: seq<Group>): set<string> {
    set g, id | g in groups && id in g.members :: id
  }

  lemma {:induction false} NothingTrimmed(members: seq<string>, kept: set<string>)
    requires forall id :: id in members ==> id in kept
    ensures KeptMembers(members, kept) == members
  {
    if members != [] {
      NothingTrimmed(members[1..], kept);
    }
  }

  lemma {:induction false} NothingDropped(groups: seq<Group>, kept: set<string>)
    requires forall g :: g in groups ==> g.members != [] && forall id :: id in g.members ==> id in kept
    ensures Kept(groups, kept) == groups
  {
    if groups != [] {
      NothingTrimmed(groups[0].members, kept);
      NothingDropped(groups[1..], kept);
    }
  }

  /** New terminals in groups of their own are a save that spares everything. */
  lemma AppendingIsSaving(groups: seq<Group>, next: seq<Group>)
    requires ValidGroups(next) && groups <= next && forall g :: g in groups ==> g.members != []
    ensures SavedAs(groups, Listed(next), next)
  {
    assert forall g :: g in groups ==> g in next;
    NothingDropped(groups, Listed(next));
    forall g, id | g in next[|groups|..] && id in g.members ensures id in Listed(next) && FindGroup(groups, id).None? {
      var i :| |groups| <= i < |next| && next[i] == g;
      FoundGroup(groups, id);
    }
  }
}
