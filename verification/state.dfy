/** The process-local aggregate owned by the coordinator, as plain values. */
module State {
  import opened Domain

  datatype Reason =
    | AcceptedAction | InvalidSession | StaleBroadcast | Unassigned | NotController
    | ControllerDisconnected | StaleTerminal | InvalidAction | Conflict | Duplicate

  datatype ActionResult = ActionResult(requestId: string, accepted: bool, reason: Reason, revision: nat)

  datatype ResultRecord = ResultRecord(fingerprint: string, result: ActionResult)

  datatype Session = Session(
    id: string,
    fallbackName: string,
    connections: set<string>,
    results: map<string, ResultRecord>,
    notice: bool)

  datatype Character = Character(id: string, name: string, intelligence: int, hackerPerk: bool)

  datatype ConfigHandle = ConfigHandle(path: string, version: int, name: string, digest: string)

  datatype Broadcast = Broadcast(
    id: string,
    assignments: map<string, string>,  // session -> character
    claimants: map<string, string>,    // character -> session
    controller: Option<string>,
    active: Option<string>,
    terminals: map<string, Terminal>,
    route: seq<ReturnPoint>,
    established: bool,
    initialId: string,
    initialGroup: string,
    initialPosition: int)

  datatype PendingSwitch = PendingSwitch(id: string, broadcastId: string, source: string, target: Option<Target>)

  datatype ApprovalMode = OrdinaryMode | ChangeMode | CompletedChangeMode

  datatype PendingCommand = PendingCommand(
    requestId: string,
    broadcastId: string,
    terminalId: string,
    commandId: string,
    commandName: string,
    mode: ApprovalMode,
    confirmationText: string,
    controller: string)

  datatype PendingNavigation = PendingNavigation(
    requestId: string,
    broadcastId: string,
    controller: string,
    direction: Direction,
    source: string,
    sourceName: string,
    commandId: string,
    commandName: string,
    target: string,
    targetName: string,
    returnPoint: ReturnPoint)

  datatype NoticeReason = TargetMissing | TargetChanged

  datatype NavigationNotice = NavigationNotice(reason: NoticeReason, source: string, commandId: string, target: string)

  datatype Runtime = Runtime(
    revision: nat,
    sessions: map<string, Session>,
    tokens: map<string, string>,
    roster: map<string, Character>,
    rosterOrder: seq<string>,
    config: Option<ConfigHandle>,
    broadcast: Option<Broadcast>,
    pendingSwitch: Option<PendingSwitch>,
    pendingCommand: Option<PendingCommand>,
    pendingNavigation: Option<PendingNavigation>,
    notice: Option<NavigationNotice>)

  function Fresh(): Runtime {
    Runtime(0, map[], map[], map[], [], None, None, None, None, None, None)
  }

  function ActiveTerminal(broadcast: Option<Broadcast>): Option<Terminal> {
    if broadcast.None? || broadcast.value.active.None? then None
    else if broadcast.value.active.value in broadcast.value.terminals
    then Some(broadcast.value.terminals[broadcast.value.active.value])
    else None
  }

  /** The part of a broadcast that says where the players came from. */
  datatype Journey = Journey(
    active: Option<string>,
    route: seq<ReturnPoint>,
    established: bool,
    initialId: string,
    initialGroup: string,
    initialPosition: int)

  function JourneyOf(b: Broadcast): Journey {
    Journey(b.active, b.route, b.established, b.initialId, b.initialGroup, b.initialPosition)
  }

  // ---------------------------------------------------------------- player commands

  datatype CommandKind = Select | Navigate | Guess | ActivatePattern | Present | UnknownKind

  function ParseKind(text: string): CommandKind {
    if text == "select-character" then Select
    else if text == "navigate" then Navigate
    else if text == "guess" then Guess
    else if text == "activate-pattern" then ActivatePattern
    else if text == "presentation" then Present
    else UnknownKind
  }

  datatype PlayerCommand = PlayerCommand(
    requestId: string,
    broadcastId: string,
    terminalId: string,
    kind: string,
    action: string,
    nodeId: string,
    targetId: string,
    patternId: string,
    presentation: Presentation,
    payloadFingerprint: string)
}
