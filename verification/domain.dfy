/** Values shared by every model of the coordinator: authored content, player
    navigation, terminal checkpoints and the pending decisions around them. */
module Domain {
  datatype Option<+T> = None | Some(value: T)

  // Identifier of the folder every authored tree starts from.
  const ROOT := "root"

  datatype NodeKind = Folder | Command | Entry

  datatype StateChange = StateChange(completedName: string, confirmationText: string, blockId: Option<string>)

  datatype Behavior = Ordinary | Changing | Transition | Invalid

  datatype ContentNode = ContentNode(
    id: string,
    kind: NodeKind,
    name: string,
    children: seq<ContentNode>,
    stateChange: Option<StateChange>,
    transition: Option<string>)
  {
    /** The one behaviour a command has; two configurations at once are invalid. */
    function Behavior(): Behavior {
      if stateChange.Some? && transition.Some? then Invalid
      else if stateChange.Some? then Changing
      else if transition.Some? then Transition
      else Ordinary
    }
  }

  predicate RootTree(tree: ContentNode) {
    tree.id == ROOT && tree.kind == Folder
  }

  // Only the two known modes are ever written; any other text is kept so that
  // repairing a foreign state is modelled too.
  datatype Mode = ListMode | EntryMode | OtherMode(text: string)

  datatype NavState = NavState(path: seq<string>, mode: Mode, viewEntry: Option<string>, command: Option<string>)

  datatype Action = Enter | Back | OpenEntry | OpenCommand | UnknownAction

  function ParseAction(text: string): Action {
    if text == "enter" then Enter
    else if text == "back" then Back
    else if text == "entry" then OpenEntry
    else if text == "command" then OpenCommand
    else UnknownAction
  }

  datatype CommandState = CommandState(completedName: string, resultText: string, blockId: Option<string>)

  datatype Phase = Awaiting | Rejected

  datatype Execution = Execution(phase: Phase, commandId: string)

  datatype HackWord = HackWord(id: string, start: int, length: int)

  datatype HackColumn = HackColumn(addresses: seq<string>, text: string, words: seq<HackWord>)

  /** Rendered-row coordinates of a bracket span, within one generated puzzle. */
  datatype PatternIdentity = PatternIdentity(generationId: string, row: nat, start: nat, end: nat)

  /** One puzzle: the secret and the candidates by identifier are private. */
  datatype HackState = HackState(
    generationId: string,
    level: int,
    wordLength: nat,
    attemptsMax: int,
    attemptsLeft: int,
    secret: string,
    words: map<string, string>,
    used: set<PatternIdentity>,
    solved: bool,
    failed: bool,
    log: seq<string>,
    columns: seq<HackColumn>)

  datatype Presentation = Presentation(
    kind: string, contextKey: string, targetId: string, patternId: string, pageIndex: nat)

  datatype Lifecycle = Active | Suspended

  /** One terminal checkpoint. */
  datatype Terminal = Terminal(
    terminalId: string,
    terminalName: string,
    tree: ContentNode,
    commandStates: map<string, CommandState>,
    execution: Option<Execution>,
    hackLevel: int,
    introText: string,
    nav: NavState,
    hack: Option<HackState>,
    presentation: Presentation,
    lifecycle: Lifecycle)

  /** What the Overseer or the catalogue supplies to open a terminal. */
  datatype Target = Target(
    terminalId: string,
    terminalName: string,
    tree: ContentNode,
    commandStates: map<string, CommandState>,
    hackLevel: int,
    introText: string)

  datatype Origin = Authored | InitialPrefix

  /** One entry of the broadcast's return stack. */
  datatype ReturnPoint = ReturnPoint(
    terminalId: string,
    terminalName: string,
    folderId: string,
    ancestors: seq<string>,
    commandId: string,
    commandName: string,
    origin: Origin,
    groupId: string,
    groupPosition: int)

  datatype Group = Group(id: string, name: string, members: seq<string>)

  datatype Direction = Forward | Return
}
