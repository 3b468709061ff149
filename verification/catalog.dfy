/** The authored catalogue the coordinator looks terminals and groups up in. */
module Catalogue {
  import opened Domain
  import opened Nav

  datatype Catalog = Catalog(groups: seq<Group>, terminals: seq<Target>)

  datatype TransitionTarget = TransitionTarget(commandId: string, commandName: string, target: Target)

  // ---------------------------------------------------------------- lookups

  function FindTerminal(terminals: seq<Target>, id: string): Option<Target> {
    if terminals == [] then None
    else if terminals[0].terminalId == id then Some(terminals[0])
    else FindTerminal(terminals[1..], id)
  }

  function FindGroup(groups: seq<Group>, terminalId: string): Option<Group> {
    if groups == [] then None
    else if terminalId in groups[0].members then Some(groups[0])
    else FindGroup(groups[1..], terminalId)
  }

  function FindNode(node: ContentNode, id: string): Option<ContentNode>
    decreases node, 1
  {
    if node.id == id then Some(node) else FindNodeIn(node.children, id)
  }

  function FindNodeIn(children: seq<ContentNode>, id: string): Option<ContentNode>
    decreases children, 0
  {
    if children == [] then None
    else
      var found := FindNode(children[0], id);
      if found.Some? then found else FindNodeIn(children[1..], id)
  }

  function LookupTerminal(catalog: Catalog, id: string): Option<Target> {
    FindTerminal(catalog.terminals, id)
  }

  predicate SameGroup(groups: seq<Group>, source: string, target: string) {
    var s, t := FindGroup(groups, source), FindGroup(groups, target);
    s.Some? && t.Some? && s.value.id != "" && s.value.id == t.value.id
  }

  /** The link authored on a command, resolved inside one group. */
  function LookupTransition(catalog: Catalog, source: string, commandId: string): Option<TransitionTarget> {
    var from := LookupTerminal(catalog, source);
    if from.None? then None
    else
      var command := FindNode(from.value.tree, commandId);
      if command.None? || command.value.kind != Command || command.value.transition.None? then None
      else
        var target := LookupTerminal(catalog, command.value.transition.value);
        if target.None? || target.value.terminalId == source then None
        else
          var s, t := FindGroup(catalog.groups, source), FindGroup(catalog.groups, target.value.terminalId);
          if s.None? || t.None? || s.value.id != t.value.id then None
          else Some(TransitionTarget(command.value.id, command.value.name, target.value))
  }

  lemma {:induction false} FoundTerminal(terminals: seq<Target>, id: string)
    requires FindTerminal(terminals, id).Some?
    ensures FindTerminal(terminals, id).value in terminals && FindTerminal(terminals, id).value.terminalId == id
  {
    if terminals[0].terminalId != id {
      FoundTerminal(terminals[1..], id);
    }
  }

  lemma {:induction false} FoundGroup(groups: seq<Group>, id: string)
    ensures FindGroup(groups, id).Some? ==>
              FindGroup(groups, id).value in groups && id in FindGroup(groups, id).value.members
    ensures FindGroup(groups, id).None? ==> forall g :: g in groups ==> id !in g.members
  {
    if groups != [] {
      assert groups == [groups[0]] + groups[1..];
      if id !in groups[0].members {
        FoundGroup(groups[1..], id);
      }
    }
  }

  /** A node is found exactly if its identifier is in the tree. */
  lemma {:induction false} FoundIffThere(node: ContentNode, id: string)
    ensures FindNode(node, id).Some? <==> id in Ids(node)
    ensures FindNode(node, id).Some? ==> FindNode(node, id).value.id == id
    decreases node, 1
  {
    if node.id != id {
      FoundIffAmong(node.children, id);
    }
  }

  lemma {:induction false} FoundIffAmong(children: seq<ContentNode>, id: string)
    ensures FindNodeIn(children, id).Some? <==> id in IdsOf(children)
    ensures FindNodeIn(children, id).Some? ==> FindNodeIn(children, id).value.id == id
    decreases children, 0
  {
    if children != [] {
      FoundIffThere(children[0], id);
      FoundIffAmong(children[1..], id);
    }
  }

  // ---------------------------------------------------------------- validity

  /** What the document validator demands of an explicit group set: identities are
      not blank and not repeated, and no terminal is a member twice. */
  predicate ValidGroups(groups: seq<Group>) {
    && (forall g :: g in groups ==> g.id != "")
    && (forall i, j :: 0 <= i < j < |groups| ==> groups[i].id != groups[j].id)
    && (forall g, i, j :: g in groups && 0 <= i < j < |g.members| ==> g.members[i] != g.members[j])
    && (forall i, j, t :: 0 <= i < j < |groups| && t in groups[i].members ==> t !in groups[j].members)
  }

  /** What it demands of the whole document, as far as the coordinator relies on it. */
  predicate ValidCatalog(catalog: Catalog) {
    && ValidGroups(catalog.groups)
    && (forall t :: t in catalog.terminals ==> ValidTarget(t))
    && (forall g, id :: g in catalog.groups && id in g.members ==> LookupTerminal(catalog, id).Some?)
  }

  predicate ValidTarget(target: Target) {
    RootTree(target.tree) && UniqueIds(target.tree) && "" !in Ids(target.tree)
  }

  /** In a valid group set the group of a terminal is the only one listing it. */
  lemma OnlyGroup(groups: seq<Group>, group: Group, id: string)
    requires ValidGroups(groups) && group in groups && id in group.members
    ensures FindGroup(groups, id) == Some(group)
  {
    FoundGroup(groups, id);
    var found := FindGroup(groups, id).value;
    var i :| 0 <= i < |groups| && groups[i] == group;
    var j :| 0 <= j < |groups| && groups[j] == found;
  }

  lemma SameIdSameGroup(groups: seq<Group>, left: Group, right: Group)
    requires ValidGroups(groups) && left in groups && right in groups && left.id == right.id
    ensures left == right
  {
    var i :| 0 <= i < |groups| && groups[i] == left;
    var j :| 0 <= j < |groups| && groups[j] == right;
  }

  lemma SameGroupMeansEqual(groups: seq<Group>, source: string, target: string)
    requires ValidGroups(groups)
    ensures SameGroup(groups, source, target) <==>
            FindGroup(groups, source).Some? && FindGroup(groups, source) == FindGroup(groups, target)
  {
    FoundGroup(groups, source);
    FoundGroup(groups, target);
    if SameGroup(groups, source, target) {
      SameIdSameGroup(groups, FindGroup(groups, source).value, FindGroup(groups, target).value);
    }
  }
}
