/** Shared navigation: where a player stands in a content tree, how one request
    moves them, and how a position survives edits of the tree. */
module Nav {
  import opened Domain

  function Default(): NavState {
    NavState([ROOT], ListMode, None, None)
  }

  // ---------------------------------------------------------------- lookups

  function FirstChild(children: seq<ContentNode>, id: string, kind: NodeKind): Option<ContentNode> {
    if children == [] then None
    else if children[0].id == id && children[0].kind == kind then Some(children[0])
    else FirstChild(children[1..], id, kind)
  }

  function Child(parent: ContentNode, id: string, kind: NodeKind): Option<ContentNode> {
    FirstChild(parent.children, id, kind)
  }

  /** The folder reached from `folder` by entering the folders `ids` one by one. */
  function Walk(folder: ContentNode, ids: seq<string>): Option<ContentNode>
    decreases |ids|
  {
    if ids == [] then Some(folder)
    else
      match Child(folder, ids[0], Folder)
      case None => None
      case Some(next) => Walk(next, ids[1..])
  }

  function FolderAt(tree: ContentNode, path: seq<string>): Option<ContentNode> {
    if path == [] || path[0] != ROOT || !RootTree(tree) then None else Walk(tree, path[1..])
  }

  method DirectChild(parent: ContentNode, id: string, kind: NodeKind) returns (child: Option<ContentNode>)
    ensures child == Child(parent, id, kind)
  {
    for index := 0 to |parent.children|
      invariant Child(parent, id, kind) == FirstChild(parent.children[index..], id, kind)
    {
      if parent.children[index].id == id && parent.children[index].kind == kind {
        return Some(parent.children[index]);
      }
    }
    return None;
  }

  method CurrentFolder(tree: ContentNode, path: seq<string>) returns (folder: Option<ContentNode>)
    ensures folder == FolderAt(tree, path)
  {
    if |path| == 0 || path[0] != ROOT || !RootTree(tree) {
      return None;
    }
    var current := tree;
    for index := 1 to |path|
      invariant FolderAt(tree, path) == Walk(current, path[index..])
    {
      var next := DirectChild(current, path[index], Folder);
      if next == None {
        return None;
      }
      current := next.value;
      assert path[index..][1..] == path[index + 1..];
    }
    return Some(current);
  }

  function Last(path: seq<string>): string
    requires path != []
  {
    path[|path| - 1]
  }

  // ---------------------------------------------------------------- one request

  /** A position is well formed when its path resolves through folders and every
      open view is a direct child of the folder reached. */
  predicate WellFormed(state: NavState, tree: ContentNode) {
    var folder := FolderAt(tree, state.path);
    && folder.Some?
    && !state.mode.OtherMode?
    && (state.mode == EntryMode <==> state.viewEntry.Some?)
    && (state.viewEntry.Some? ==> Child(folder.value, state.viewEntry.value, Entry).Some?)
    && (state.command.Some? ==> Child(folder.value, state.command.value, Command).Some?)
  }

  function Applied(state: NavState, tree: ContentNode, action: Action, nodeId: string): NavState {
    match action
    case Enter =>
      if HasChild(state, tree, nodeId, Folder) then NavState(state.path + [nodeId], ListMode, None, None) else state
    case Back =>
      if state.mode == EntryMode then state.(mode := ListMode, viewEntry := None)
      else if |state.path| > 1 then state.(path := state.path[..|state.path| - 1], command := None)
      else state.(command := None)
    case OpenEntry =>
      if HasChild(state, tree, nodeId, Entry)
      then state.(mode := EntryMode, viewEntry := Some(nodeId), command := None) else state
    case OpenCommand =>
      if HasChild(state, tree, nodeId, Command) then state.(command := Some(nodeId)) else state
    case UnknownAction => state
  }

  predicate HasChild(state: NavState, tree: ContentNode, nodeId: string, kind: NodeKind) {
    var folder := FolderAt(tree, state.path);
    folder.Some? && Child(folder.value, nodeId, kind).Some?
  }

  method ApplyAction(state: NavState, tree: ContentNode, action: Action, nodeId: string) returns (next: NavState)
    ensures next == Applied(state, tree, action, nodeId)
  {
    next := state;
    var folder := CurrentFolder(tree, next.path);
    match action {
      case Enter =>
        if folder == None { return; }
        var node := DirectChild(folder.value, nodeId, Folder);
        if node == None { return; }
        ChildMatches(folder.value.children, nodeId, Folder);
        next := next.(path := next.path + [node.value.id]);
        next := next.(mode := ListMode, viewEntry := None, command := None);
      case Back =>
        if next.mode == EntryMode {
          next := next.(mode := ListMode, viewEntry := None);
        } else if |next.path| > 1 {
          next := next.(path := next.path[..|next.path| - 1]);
          next := next.(command := None);
        } else if next.command.Some? {
          next := next.(command := None);
        }
      case OpenEntry =>
        if folder == None { return; }
        var node := DirectChild(folder.value, nodeId, Entry);
        if node == None { return; }
        ChildMatches(folder.value.children, nodeId, Entry);
        next := next.(mode := EntryMode, viewEntry := Some(node.value.id));
        next := next.(command := None);
      case OpenCommand =>
        if folder == None { return; }
        var node := DirectChild(folder.value, nodeId, Command);
        if node == None { return; }
        ChildMatches(folder.value.children, nodeId, Command);
        next := next.(command := Some(node.value.id));
      case UnknownAction =>
    }
  }

  lemma {:induction false} ChildMatches(children: seq<ContentNode>, id: string, kind: NodeKind)
    requires FirstChild(children, id, kind).Some?
    ensures FirstChild(children, id, kind).value in children
    ensures FirstChild(children, id, kind).value.id == id && FirstChild(children, id, kind).value.kind == kind
  {
    if children[0].id != id || children[0].kind != kind {
      ChildMatches(children[1..], id, kind);
    }
  }

  lemma {:induction false} WalkSplit(folder: ContentNode, first: seq<string>, second: seq<string>)
    ensures Walk(folder, first + second) ==
            if Walk(folder, first).None? then None else Walk(Walk(folder, first).value, second)
    decreases |first|
  {
    if first == [] {
      assert first + second == second;
    } else {
      assert (first + second)[1..] == first[1..] + second;
      var next := Child(folder, first[0], Folder);
      if next.Some? {
        WalkSplit(next.value, first[1..], second);
      }
    }
  }

  lemma {:induction false} WalkEndsAtFolder(folder: ContentNode, ids: seq<string>)
    requires Walk(folder, ids).Some?
    ensures ids == [] ==> Walk(folder, ids).value == folder
    ensures ids != [] ==> Walk(folder, ids).value.id == ids[|ids| - 1] && Walk(folder, ids).value.kind == Folder
    decreases |ids|
  {
    if ids != [] {
      ChildMatches(folder.children, ids[0], Folder);
      WalkEndsAtFolder(Child(folder, ids[0], Folder).value, ids[1..]);
    }
  }

  /** A longer path resolves through every shorter one. */
  lemma PathSplit(tree: ContentNode, path: seq<string>, rest: seq<string>)
    requires path != []
    ensures FolderAt(tree, path + rest) ==
            if FolderAt(tree, path).None? then None else Walk(FolderAt(tree, path).value, rest)
  {
    assert (path + rest)[1..] == path[1..] + rest;
    WalkSplit(tree, path[1..], rest);
  }

  /** No request, valid or not, ever leaves a well-formed position. */
  lemma ApplyKeepsWellFormed(state: NavState, tree: ContentNode, action: Action, nodeId: string)
    requires WellFormed(state, tree)
    ensures WellFormed(Applied(state, tree, action, nodeId), tree)
  {
    match action {
      case Enter =>
        PathSplit(tree, state.path, [nodeId]);
        if HasChild(state, tree, nodeId, Folder) {
          var next := Child(FolderAt(tree, state.path).value, nodeId, Folder).value;
          assert Walk(next, []) == Some(next);
          assert [nodeId][1..] == [];
        }
      case Back =>
        if |state.path| > 1 {
          var parent := state.path[..|state.path| - 1];
          assert parent + [state.path[|state.path| - 1]] == state.path;
          PathSplit(tree, parent, [state.path[|state.path| - 1]]);
        }
      case _ =>
    }
  }

  /** Opening needs a child of the right kind; afterwards exactly that child is
      open and the folder has not moved. A command opens beside an open entry, an entry
      takes the place of everything open. */
  lemma OpensExactly(state: NavState, tree: ContentNode, nodeId: string)
    requires WellFormed(state, tree)
    ensures var next := Applied(state, tree, OpenCommand, nodeId);
            && (next.command == Some(nodeId) <==>
                  state.command == Some(nodeId) || HasChild(state, tree, nodeId, Command))
            && (next != state ==> next.command == Some(nodeId))
            && next.(command := None) == state.(command := None)
    ensures var next := Applied(state, tree, OpenEntry, nodeId);
            && (next.viewEntry == Some(nodeId) <==> HasChild(state, tree, nodeId, Entry))
            && (HasChild(state, tree, nodeId, Entry) ==> next.command == None)
            && (!HasChild(state, tree, nodeId, Entry) ==> next == state)
            && next.path == state.path
  {
  }

  /** Entering shows exactly the child folder asked for, with nothing open in it, or, if
      there is none, changes nothing. */
  lemma EntersExactly(state: NavState, tree: ContentNode, nodeId: string)
    requires WellFormed(state, tree)
    ensures var next := Applied(state, tree, Enter, nodeId);
            if HasChild(state, tree, nodeId, Folder) then
              && FolderAt(tree, next.path) == Child(FolderAt(tree, state.path).value, nodeId, Folder)
              && next.path != state.path && state.path <= next.path
              && next.viewEntry == None && next.command == None && next.mode == ListMode
            else next == state
  {
    if HasChild(state, tree, nodeId, Folder) {
      var next := Child(FolderAt(tree, state.path).value, nodeId, Folder).value;
      PathSplit(tree, state.path, [nodeId]);
      assert Walk(next, []) == Some(next) && [nodeId][1..] == [];
    }
  }

  /** Opening an entry and pressing "back" returns to the same folder with nothing open. */
  lemma OpenThenBack(state: NavState, tree: ContentNode, nodeId: string, ignored: string)
    requires WellFormed(state, tree) && HasChild(state, tree, nodeId, Entry)
    ensures Applied(Applied(state, tree, OpenEntry, nodeId), tree, Back, ignored)
            == NavState(state.path, ListMode, None, None)
  {
  }

  /** "back" undoes one thing only: it closes the open entry, and only that; without one it
      leaves the folder for its parent; at the root it closes the open command. */
  lemma BackUndoesOne(state: NavState, tree: ContentNode, nodeId: string)
    requires WellFormed(state, tree)
    ensures var next := Applied(state, tree, Back, nodeId);
            && (state.viewEntry.Some? ==>
                  next.viewEntry == None && next.path == state.path && next.command == state.command)
            && (state.viewEntry.None? && |state.path| > 1 ==>
                  next.path + [Last(state.path)] == state.path && next.command == None && next.viewEntry == None)
            && (state.viewEntry.None? && |state.path| == 1 ==> next == Default())
  {
    if |state.path| == 1 {
      assert state.path == [ROOT];
    }
  }

  /** How many presses of "back" separate a position from the bare root. */
  function Depth(state: NavState): nat
    requires state.path != []
  {
    |state.path| - 1 + (if state.viewEntry.Some? then 1 else 0) + (if state.command.Some? then 1 else 0)
  }

  /** "back" climbs at least one level until only the bare root is left. */
  lemma BackClimbs(state: NavState, tree: ContentNode, nodeId: string)
    requires WellFormed(state, tree)
    ensures var next := Applied(state, tree, Back, nodeId);
            if state == Default() then next == state else Depth(next) < Depth(state)
    ensures Depth(state) == 0 <==> state == Default()
  {
    if |state.path| == 1 {
      assert state.path == [ROOT];
    }
  }

  /** Entering a child folder and pressing "back" returns to the same folder with
      every view closed. */
  lemma EnterThenBack(state: NavState, tree: ContentNode, nodeId: string, ignored: string)
    requires WellFormed(state, tree) && HasChild(state, tree, nodeId, Folder)
    ensures Applied(Applied(state, tree, Enter, nodeId), tree, Back, ignored)
            == NavState(state.path, ListMode, None, None)
  {
    assert (state.path + [nodeId])[..|state.path|] == state.path;
  }

  // ---------------------------------------------------------------- repair

  /** How many of `ids` still resolve, one after the other, from `folder`. */
  function Surviving(folder: ContentNode, ids: seq<string>): nat
    decreases |ids|
  {
    if ids == [] then 0
    else
      match Child(folder, ids[0], Folder)
      case None => 0
      case Some(next) => 1 + Surviving(next, ids[1..])
  }

  lemma {:induction false} SurvivingIsLongest(folder: ContentNode, ids: seq<string>)
    ensures Surviving(folder, ids) <= |ids|
    ensures Walk(folder, ids[..Surviving(folder, ids)]).Some?
    ensures forall n :: Surviving(folder, ids) < n <= |ids| ==> Walk(folder, ids[..n]).None?
    decreases |ids|
  {
    if ids != [] {
      var next := Child(folder, ids[0], Folder);
      if next.Some? {
        SurvivingIsLongest(next.value, ids[1..]);
        var kept := Surviving(folder, ids);
        assert ids[..kept][1..] == ids[1..][..kept - 1];
        forall n | kept < n <= |ids| ensures Walk(folder, ids[..n]).None? {
          assert ids[..n][1..] == ids[1..][..n - 1];
        }
      }
    }
  }

  function Tail(path: seq<string>): seq<string> {
    if path == [] then [] else path[1..]
  }

  function Revalidated(state: NavState, tree: ContentNode): NavState {
    SurvivingIsLongest(tree, Tail(state.path));
    var kept := Tail(state.path)[..Surviving(tree, Tail(state.path))];
    var folder := Walk(tree, kept).value;
    var entryStays := state.mode == EntryMode && state.viewEntry.Some? &&
        Child(folder, state.viewEntry.value, Entry).Some?;
    var commandStays := state.command.Some? && Child(folder, state.command.value, Command).Some?;
    NavState(
      [ROOT] + kept,
      if entryStays then EntryMode else ListMode,
      if entryStays then state.viewEntry else None,
      if commandStays then state.command else None)
  }

  /** The first `i` of `ids` resolve and lead to `current`. */
  predicate Descended(tree: ContentNode, ids: seq<string>, i: int, valid: seq<string>, current: ContentNode) {
    && 0 <= i <= |ids| && valid == [ROOT] + ids[..i] && Walk(tree, ids[..i]) == Some(current)
    && Surviving(tree, ids) == i + Surviving(current, ids[i..])
  }

  lemma DescentBegins(tree: ContentNode, ids: seq<string>)
    ensures Descended(tree, ids, 0, [ROOT], tree)
  {
    assert ids[..0] == [] && ids[0..] == ids;
  }

  lemma DescentGoesOn(tree: ContentNode, ids: seq<string>, i: nat, valid: seq<string>, current: ContentNode)
    requires i < |ids| && Descended(tree, ids, i, valid, current) && Child(current, ids[i], Folder).Some?
    ensures var next := Child(current, ids[i], Folder).value;
            Descended(tree, ids, i + 1, valid + [next.id], next)
  {
    ChildMatches(current.children, ids[i], Folder);
    WalkSplit(tree, ids[..i], [ids[i]]);
    assert ids[i..][1..] == ids[i + 1..] && ids[..i] + [ids[i]] == ids[..i + 1];
    assert Walk(current, [ids[i]]) == Walk(Child(current, ids[i], Folder).value, [ids[i]][1..]);
  }

  lemma DescentEnds(tree: ContentNode, ids: seq<string>, i: nat, valid: seq<string>, current: ContentNode)
    requires Descended(tree, ids, i, valid, current) && (i < |ids| ==> Child(current, ids[i], Folder).None?)
    ensures Surviving(tree, ids) == i
  {
  }

  method RevalidatedPath(tree: ContentNode, path: seq<string>) returns (valid: seq<string>, current: ContentNode)
    ensures Surviving(tree, Tail(path)) <= |Tail(path)|
    ensures valid == [ROOT] + Tail(path)[..Surviving(tree, Tail(path))]
    ensures Walk(tree, Tail(path)[..Surviving(tree, Tail(path))]) == Some(current)
  {
    hide Walk, Surviving, Child;
    valid := [ROOT];
    current := tree;
    var index := 1;
    DescentBegins(tree, Tail(path));
    while index < |path|
      invariant index >= 1 && Descended(tree, Tail(path), index - 1, valid, current)
    {
      var next := DirectChild(current, path[index], Folder);
      if next == None {
        break;
      }
      DescentGoesOn(tree, Tail(path), index - 1, valid, current);
      valid := valid + [next.value.id];
      current := next.value;
      index := index + 1;
    }
    DescentEnds(tree, Tail(path), index - 1, valid, current);
  }

  method Revalidate(state: NavState, tree: ContentNode) returns (next: NavState)
    ensures next == Revalidated(state, tree)
  {
    var path, folder := RevalidatedPath(tree, state.path);
    next := NavState(path, state.mode, None, None);
    if next.mode != EntryMode {
      next := next.(mode := ListMode);
    } else {
      var entry := None;
      if state.viewEntry.Some? {
        entry := DirectChild(folder, state.viewEntry.value, Entry);
      }
      if entry.Some? {
        next := next.(viewEntry := state.viewEntry);
      } else {
        next := next.(mode := ListMode);
      }
    }
    if state.command.Some? {
      var command := DirectChild(folder, state.command.value, Command);
      if command.Some? {
        next := next.(command := state.command);
      }
    }
  }

  /** Repair always lands on a well-formed position, keeps the longest part of the
      path that still resolves, and changes nothing that was already well formed. */
  lemma RevalidateRepairs(state: NavState, tree: ContentNode)
    requires RootTree(tree)
    ensures WellFormed(Revalidated(state, tree), tree)
    ensures WellFormed(state, tree) ==> Revalidated(state, tree) == state
    ensures Revalidated(Revalidated(state, tree), tree) == Revalidated(state, tree)
    ensures var kept := Revalidated(state, tree).path;
            forall n :: |kept| < n <= |state.path| ==> FolderAt(tree, [ROOT] + state.path[1..n]).None?
  {
    SurvivingIsLongest(tree, Tail(state.path));
    var next := Revalidated(state, tree);
    assert next.path[1..] == Tail(state.path)[..Surviving(tree, Tail(state.path))];
    WellFormedIsFixed(next, tree);
    if WellFormed(state, tree) {
      WellFormedIsFixed(state, tree);
    }
    forall n | |next.path| < n <= |state.path| ensures FolderAt(tree, [ROOT] + state.path[1..n]).None? {
      assert ([ROOT] + state.path[1..n])[1..] == Tail(state.path)[..n - 1];
    }
  }

  /** An open view survives the repair exactly if the folder the players end up in still has
      it; the repair opens nothing. */
  lemma RevalidateKeepsViews(state: NavState, tree: ContentNode)
    requires RootTree(tree)
    ensures FolderAt(tree, Revalidated(state, tree).path).Some?
    ensures var next, folder := Revalidated(state, tree), FolderAt(tree, Revalidated(state, tree).path).value;
            && (forall id :: next.viewEntry == Some(id) <==>
                  state.mode == EntryMode && state.viewEntry == Some(id) && Child(folder, id, Entry).Some?)
            && (forall id :: next.command == Some(id) <==>
                state.command == Some(id) && Child(folder, id, Command).Some?)
            && (next.mode == if next.viewEntry.Some? then EntryMode else ListMode)
  {
    SurvivingIsLongest(tree, Tail(state.path));
    assert Revalidated(state, tree).path[1..] == Tail(state.path)[..Surviving(tree, Tail(state.path))];
  }

  lemma WellFormedIsFixed(state: NavState, tree: ContentNode)
    requires WellFormed(state, tree)
    ensures Revalidated(state, tree) == state
  {
    var ids := Tail(state.path);
    SurvivingIsLongest(tree, ids);
    assert ids[..|ids|] == ids;
    assert Surviving(tree, ids) == |ids|;
    assert [ROOT] + ids == state.path;
  }

  // ---------------------------------------------------------------- stable folder identities

  function Visit(folder: ContentNode, folderId: string, path: seq<string>): Option<seq<string>>
    decreases folder, 1
  {
    if folder.id == folderId then Some(path) else VisitChildren(folder.children, folderId, path)
  }

  function VisitChildren(children: seq<ContentNode>, folderId: string, path: seq<string>): Option<seq<string>>
    decreases children, 0
  {
    if children == [] then None
    else
      var found := if children[0].kind == Folder then Visit(children[0], folderId, path + [children[0].id]) else None;
      if found.Some? then found else VisitChildren(children[1..], folderId, path)
  }

  function FindFolderPath(tree: ContentNode, folderId: string): Option<seq<string>> {
    if !RootTree(tree) || folderId == "" then None else Visit(tree, folderId, [ROOT])
  }

  // Every identifier below and including a node; validation allows each once.
  function Ids(node: ContentNode): set<string>
    decreases node, 1
  {
    {node.id} + IdsOf(node.children)
  }

  function IdsOf(children: seq<ContentNode>): set<string>
    decreases children, 0
  {
    if children == [] then {} else Ids(children[0]) + IdsOf(children[1..])
  }

  predicate UniqueIds(node: ContentNode)
    decreases node, 1
  {
    node.id !in IdsOf(node.children) && UniqueAmong(node.children)
  }

  predicate UniqueAmong(children: seq<ContentNode>)
    decreases children, 0
  {
    children == [] ||
    (UniqueIds(children[0]) && Ids(children[0]) !! IdsOf(children[1..]) && UniqueAmong(children[1..]))
  }

  lemma {:induction false} ChildIsUnique(children: seq<ContentNode>, id: string, kind: NodeKind)
    requires UniqueAmong(children) && FirstChild(children, id, kind).Some?
    ensures var child := FirstChild(children, id, kind).value;
            UniqueIds(child) && Ids(child) <= IdsOf(children)
  {
    if children[0].id != id || children[0].kind != kind {
      ChildIsUnique(children[1..], id, kind);
    }
  }

  lemma {:induction false} WalkStaysInside(folder: ContentNode, ids: seq<string>)
    requires UniqueIds(folder) && Walk(folder, ids).Some?
    ensures Walk(folder, ids).value.id in Ids(folder)
    ensures ids != [] ==> Walk(folder, ids).value.id in IdsOf(folder.children)
    decreases |ids|
  {
    if ids != [] {
      ChildIsUnique(folder.children, ids[0], Folder);
      WalkStaysInside(Child(folder, ids[0], Folder).value, ids[1..]);
    }
  }

  lemma {:induction false} VisitFindsOnlyInside(folder: ContentNode, folderId: string, path: seq<string>)
    requires folderId !in Ids(folder)
    ensures Visit(folder, folderId, path) == None
    decreases folder, 1
  {
    VisitChildrenFindsOnlyInside(folder.children, folderId, path);
  }

  lemma {:induction false} VisitChildrenFindsOnlyInside(children: seq<ContentNode>, folderId: string, path: seq<string>)
    requires folderId !in IdsOf(children)
    ensures VisitChildren(children, folderId, path) == None
    decreases children, 0
  {
    if children != [] {
      VisitFindsOnlyInside(children[0], folderId, path + [children[0].id]);
      VisitChildrenFindsOnlyInside(children[1..], folderId, path);
    }
  }

  lemma {:induction false} VisitSound(folder: ContentNode, folderId: string, path: seq<string>)
    requires UniqueIds(folder) && Visit(folder, folderId, path).Some?
    ensures var found := Visit(folder, folderId, path).value;
            && path <= found
            && Walk(folder, found[|path|..]).Some?
            && Walk(folder, found[|path|..]).value.id == folderId
    decreases folder, 1
  {
    if folder.id != folderId {
      var found := VisitChildrenSound(folder.children, folderId, path);
      assert found[|path|..][1..] == found[|path| + 1..];
    }
  }

  lemma {:induction false} VisitChildrenSound(children: seq<ContentNode>, folderId: string, path: seq<string>)
    returns (found: seq<string>)
    requires UniqueAmong(children) && VisitChildren(children, folderId, path).Some?
    ensures VisitChildren(children, folderId, path) == Some(found)
    ensures path <= found && |path| < |found|
    ensures var child := FirstChild(children, found[|path|], Folder);
            && child.Some?
            && Walk(child.value, found[|path| + 1..]).Some?
            && Walk(child.value, found[|path| + 1..]).value.id == folderId
    decreases children, 0
  {
    found := VisitChildren(children, folderId, path).value;
    var first := children[0];
    if first.kind == Folder && Visit(first, folderId, path + [first.id]).Some? {
      VisitSound(first, folderId, path + [first.id]);
    } else {
      var _ := VisitChildrenSound(children[1..], folderId, path);
      ChildMatches(children[1..], found[|path|], Folder);
      ChildIsUnique(children[1..], found[|path|], Folder);
    }
  }

  lemma {:induction false} VisitComplete(folder: ContentNode, ids: seq<string>, path: seq<string>)
    requires UniqueIds(folder) && Walk(folder, ids).Some?
    ensures Visit(folder, Walk(folder, ids).value.id, path) == Some(path + ids)
    decreases |ids|, 1, 0
  {
    if ids == [] {
      assert path + ids == path;
    } else {
      WalkStaysInside(folder, ids);
      VisitChildrenComplete(folder.children, ids, path);
    }
  }

  lemma {:induction false} VisitChildrenComplete(children: seq<ContentNode>, ids: seq<string>, path: seq<string>)
    requires UniqueAmong(children) && ids != []
    requires FirstChild(children, ids[0], Folder).Some?
    requires Walk(FirstChild(children, ids[0], Folder).value, ids[1..]).Some?
    ensures var reached := Walk(FirstChild(children, ids[0], Folder).value, ids[1..]).value;
            VisitChildren(children, reached.id, path) == Some(path + ids)
    decreases |ids|, 0, |children|
  {
    var child := FirstChild(children, ids[0], Folder).value;
    var reached := Walk(child, ids[1..]).value;
    var first := children[0];
    ChildIsUnique(children, ids[0], Folder);
    WalkStaysInside(child, ids[1..]);
    if first.id == ids[0] && first.kind == Folder {
      VisitComplete(child, ids[1..], path + [first.id]);
      assert path + [first.id] + ids[1..] == path + ids;
    } else {
      ChildIsUnique(children[1..], ids[0], Folder);
      VisitFindsOnlyInside(first, reached.id, path + [first.id]);
      VisitChildrenComplete(children[1..], ids, path);
    }
  }

  /** Folder identities and folder paths invert each other: the path found for an
      identity resolves to that folder, and looking up the last identity of any
      resolvable path gives the path back. */
  lemma FolderIdInvertsPath(tree: ContentNode, folderId: string)
    requires RootTree(tree) && UniqueIds(tree) && folderId != ""
    ensures var found := FindFolderPath(tree, folderId);
            found.Some? ==> FolderAt(tree, found.value).Some? && FolderAt(tree, found.value).value.id == folderId
    ensures forall path :: FolderAt(tree, path).Some? && Last(path) == folderId
                           ==> FindFolderPath(tree, folderId) == Some(path)
  {
    if FindFolderPath(tree, folderId).Some? {
      VisitSound(tree, folderId, [ROOT]);
    }
    forall path | FolderAt(tree, path).Some? && Last(path) == folderId
      ensures FindFolderPath(tree, folderId) == Some(path)
    {
      WalkEndsAtFolder(tree, path[1..]);
      VisitComplete(tree, path[1..], [ROOT]);
      assert [ROOT] + path[1..] == path;
    }
  }

  function DeepestSurvivor(tree: ContentNode, ancestors: seq<string>): NavState
    decreases |ancestors|
  {
    if ancestors == [] then Default()
    else
      match FindFolderPath(tree, ancestors[|ancestors| - 1])
      case Some(path) => NavState(path, ListMode, None, None)
      case None => DeepestSurvivor(tree, ancestors[..|ancestors| - 1])
  }

  function Restored(tree: ContentNode, folderId: string, ancestors: seq<string>): NavState {
    match FindFolderPath(tree, folderId)
    case Some(path) => NavState(path, ListMode, None, None)
    case None => DeepestSurvivor(tree, ancestors)
  }

  method RestoreFolder(tree: ContentNode, folderId: string, ancestors: seq<string>) returns (state: NavState)
    ensures state == Restored(tree, folderId, ancestors)
  {
    var exact := FindFolderPath(tree, folderId);
    if exact.Some? {
      return NavState(exact.value, ListMode, None, None);
    }
    var index := |ancestors|;
    assert ancestors[..index] == ancestors;
    while index > 0
      invariant 0 <= index <= |ancestors|
      invariant DeepestSurvivor(tree, ancestors) == DeepestSurvivor(tree, ancestors[..index])
    {
      index := index - 1;
      assert ancestors[..index + 1][..index] == ancestors[..index];
      var path := FindFolderPath(tree, ancestors[index]);
      if path.Some? {
        return NavState(path.value, ListMode, None, None);
      }
    }
    return Default();
  }

  /** A folder is reachable when some path of folders leads to it. */
  ghost predicate Reachable(tree: ContentNode, folderId: string) {
    folderId != "" && exists path :: FolderAt(tree, path).Some? && Last(path) == folderId
  }

  ghost predicate IsDeepestReachable(tree: ContentNode, ancestors: seq<string>, k: int) {
    && 0 <= k < |ancestors|
    && Reachable(tree, ancestors[k])
    && (forall j :: k < j < |ancestors| ==> !Reachable(tree, ancestors[j]))
  }

  lemma FoundIffReachable(tree: ContentNode, folderId: string)
    requires RootTree(tree) && UniqueIds(tree)
    ensures FindFolderPath(tree, folderId).Some? <==> Reachable(tree, folderId)
    ensures FindFolderPath(tree, folderId).Some? ==>
              var path := FindFolderPath(tree, folderId).value;
              FolderAt(tree, path).Some? && Last(path) == folderId
  {
    if folderId != "" {
      FolderIdInvertsPath(tree, folderId);
      if FindFolderPath(tree, folderId).Some? {
        var path := FindFolderPath(tree, folderId).value;
        WalkEndsAtFolder(tree, path[1..]);
      }
    }
  }

  /** Restoring lands on the saved folder if it survives, else on its deepest saved
      ancestor that survives, else on the root; never on an open view. */
  lemma RestoreFollowsTheFolder(tree: ContentNode, folderId: string, ancestors: seq<string>)
    requires RootTree(tree) && UniqueIds(tree)
    ensures AtRestIn(Restored(tree, folderId, ancestors), tree)
    ensures var state := Restored(tree, folderId, ancestors);
            var here := Last(state.path);
               || (Reachable(tree, folderId) && here == folderId)
               || (!Reachable(tree, folderId) &&
                   (exists k :: IsDeepestReachable(tree, ancestors, k) && here == ancestors[k]))
               || (!Reachable(tree, folderId) && state == Default()
                     && forall j :: 0 <= j < |ancestors| ==> !Reachable(tree, ancestors[j]))
  {
    FoundIffReachable(tree, folderId);
    if FindFolderPath(tree, folderId).None? {
      var k := SurvivorIsDeepest(tree, ancestors);
      assert k != -1 ==> IsDeepestReachable(tree, ancestors, k);
    }
  }

  predicate AtRestIn(state: NavState, tree: ContentNode) {
    WellFormed(state, tree) && state.mode == ListMode && state.viewEntry == None && state.command == None
  }

  lemma {:induction false} SurvivorIsDeepest(tree: ContentNode, ancestors: seq<string>) returns (k: int)
    requires RootTree(tree) && UniqueIds(tree)
    ensures -1 <= k < |ancestors|
    ensures forall j :: k < j < |ancestors| ==> !Reachable(tree, ancestors[j])
    ensures AtRestIn(DeepestSurvivor(tree, ancestors), tree)
    ensures if k == -1 then DeepestSurvivor(tree, ancestors) == Default()
            else Last(DeepestSurvivor(tree, ancestors).path) == ancestors[k] && Reachable(tree, ancestors[k])
    decreases |ancestors|
  {
    if ancestors == [] {
      k := -1;
    } else {
      k := |ancestors| - 1;
      FoundIffReachable(tree, ancestors[k]);
      if FindFolderPath(tree, ancestors[k]).None? {
        k := SurvivorIsDeepest(tree, ancestors[..k]);
      }
    }
  }

  /** Leaving a folder by remembering its identity and ancestry, then coming back
      to an unchanged tree, restores the exact path. */
  lemma RestoreUndoesLeaving(tree: ContentNode, state: NavState)
    requires UniqueIds(tree) && WellFormed(state, tree) && "" !in Ids(tree)
    ensures Restored(tree, Last(state.path), state.path[..|state.path| - 1]) ==
            NavState(state.path, ListMode, None, None)
  {
    WalkEndsAtFolder(tree, state.path[1..]);
    WalkStaysInside(tree, state.path[1..]);
    FolderIdInvertsPath(tree, Last(state.path));
  }
}
