# The coordination core of Fallout-Terminal

A tabletop Overseer broadcasts fictional computer terminals to players in browsers.
One process holds the truth: who is connected, who plays which character, which
terminal is on the air and in which folder the players stand, the way back through a
group of terminals, the decisions waiting for the Overseer, and what has been published
to whom. Every command, player action and connection event passes through one
transaction boundary that works on a deep copy and installs it, stores only its replay
records, or drops it.

The project models that state machine twice and proves the two equal:

- **on values** (`domain`, `state`, `nav`, `route`, `saves`, `sessions`, `claims`, `terminals`,
  `dispatch`, `puzzles`, `views`, `coordinator`): the aggregate as a datatype and each
  operation as a function. Invariants over every run, the unwinding of the route, round
  trips, replay and publication are proved about this form (`invariants`, `runs`,
  `journeys`, `homeward`, `roundtrip`, `replay`, `publication`, `positions`,
  `ownership`, `checkpoints`, `visits`, `actions`, `approvals`, `screens`, `lobby`,
  `footprints`, `upkeep`, `answerable`, `disclosure`, `puzzleplay`, `boards`);
- **on objects** (`heap`, the `*steps` files, `publishing`, `service`): the aggregate as
  classes whose containers are cells updated in place, the deep copy, and methods that
  follow the order of the source, each proved to compute the operation of the first
  form. `CoordinatorService.Service.Execute` joins them.

Three smaller parts stand beside it: the version parser and comparator of the updater
and the release tool's own parser (`semver`, `updates`, `releasetag`; Semantic
Versioning 2.0.0), the bounded run log (`segments`, `runlog`), and the protocol of the
interactive approval notifications with its interleaved goroutines (`notifications`,
`deliveries`).

Clocks, random draws, fresh identifiers, generated boards, store and delivery outcomes
and the directory listing are parameters. A commit of the coordinator, made under its
mutex, is one step.

## Findings

Four properties the design promises are false of the code. Each is stated with the
condition under which it holds, exact for the first three, and with runs that violate it:
of the coordinator from a fresh process over a valid document, of the notifications from
their start.

- **A switch resolved in the middle of a route strands the players.** Resolving a switch
  (internal/control/service.go:1147-1223) changes the active terminal and leaves the
  route as it is. The request for the switch did clear the route, but players may follow
  links while the Overseer decides. specs/010-terminal-navigation/data-model.md:112
  promises that a manual activation clears the route; the model follows the code.
  `Journeys.SwitchKeepsJourneyIff` says when the way back survives,
  `Scenarios.SwitchCanStrandPlayers` is a run in which it does not.
- **A waiting decision can be forgotten.** Three decisions may wait: a command, a link or
  return, and a switch. A decision is answerable if some answer to it would be accepted
  (`Answerable.CommandAnswerableIff`, `Answerable.NavigationAnswerableIff`,
  `Answerable.SwitchAnswerableIff`). Four kinds of accepted operation, and no other, leave
  one behind that is not: resolving a switch away while a command or link waits; resetting
  a failed puzzle while a command waits; new content, or a reset of command states, that
  changes the waiting command itself; and an approved link or return while a switch waits,
  after which the switch cannot even be cancelled. A forgotten command or link turns every
  player action away. specs/009-state-changing-menu-commands/contracts/private-desktop.md:87
  promises that a terminal switch clears pending state, and
  specs/009-state-changing-menu-commands/data-model.md:187 that changing a waiting command
  is refused or cancels the request first. `Answerable.AnswerableIff` is the exact
  condition, `Answerable.ForgottenBlocks` the consequence, and `Scenarios` has a run for
  each kind. `Answerable.ForgottenEndsIff` names exactly the operations that drop a
  forgotten decision. Of these, ending the broadcast and activating a terminal that can
  be delivered are always accepted; clearing the screen is refused when there is nothing
  on it and nothing to clear
  (`Answerable.RecoveryAcceptedIff`, `Scenarios.ClearingCannotRecover`).
- **Saving the document can cut the way back.** A save
  (internal/session/service.go:1147-1172) removes deleted terminals from their groups
  without asking the coordinator, and what the coordinator offers to ask
  (internal/control/service.go:1676-1687) looks at checkpoints only, which a seeded stop
  not visited yet has not got. Requirement FR-020 of terminal grouping promises that a
  group edit that would invalidate an active return route is rejected.
  `Journeys.SaveKeepsJourneyIff` says exactly which deletions spare the way back,
  `Scenarios.SaveCutsTheWayBack` is a run in which a deletable terminal is not spared.
- **A state observed late is notified about twice.** States are handed to the
  notifications after the lock that orders them is released (app.go:2616-2630), so a
  request may come back after it was replaced. Requirement FR-008 of the interactive
  notifications promises at most one for each request. While no state is observed late that
  holds (`Notifications.SentAndDecidedOnce`); a request that was sent and is observed late
  can be sent again (`Notifications.ObservedLateIsSentAgain`, `Notifications.SentTwice`)
  and decided again (`Notifications.ObservedLateIsDecidedTwice`). Late or not, no
  notification is left over (`Notifications.DisplayIsAccountedFor`).

## Model

| member | source | states |
|---|---|---|
| `Homeward.WayHomeUnwinds` | internal/control/service.go:1491-1650 | However "back" presses and approvals of returns are made, the stops of the route are visited from the top down with none left out; the distance (stops left, then folder depth and open views) drops with every press, so after that many presses the players stand at the root of the bottom stop with an empty route |
| `Homeward.StepDescends` | internal/control/service.go:2337-2348 | One press from a sound state makes the distance home strictly smaller, or changes nothing when the players are already home; only a press at the root with a route left crosses to the previous stop |
| `Homeward.TopIsReturnable` | internal/control/service.go:2892-2919 | In every sound state the stop at the top of the route passes the return checks, so no player is locked out of the way back |
| `Homeward.ApprovedReturnArrives` | internal/control/service.go:1536-1591 | Approving a return that is still possible shows the previous terminal at its remembered folder and shortens the route by exactly that stop |
| `Homeward.SeededStopsAreMembers` | internal/control/service.go:2845-2890 | The seeded stops are the first members of the ordered group, so unwinding visits positions p-1, ..., 0 |
| `Homeward.BackIsAdmitted` | internal/control/service.go:2169-2236 | The connected controller is never refused a "back" with an unused request identifier, so the presses of the unwinding theorem can always be made |
| `RoundTrip.StayThenReturn` | internal/control/service.go:2255-2282 | An approved link, any operations beyond it that never give that stop up, and the approved return of the stop restore the terminal, the whole route and the exact folder, in list mode with every view closed, provided the terminal left behind is authored as it was when the players come back; and its puzzle, unless somebody plays, forces, resets or discards it or the broadcast ends meanwhile |
| `RoundTrip.ForwardThenReturn` | internal/control/service.go:1581-1591 | The same for a "back" straight after the link, the puzzle included |
| `RoundTrip.StayKeepsStops` | internal/control/service.go:2507-2546 | Over any operations during which there are always at least k stops, the lowest k stops stay the same |
| `Route.AcceptedIffSound` | internal/control/service.go:486-596 | For every valid group set the replacement check accepts exactly when the anchor, the whole live route and the pending step are sound under it and it still lists the active terminal; soundness is stated over positions in groups, not over the check's own indexes |
| `Route.ValidateTerminalGroups` | internal/control/service.go:486-596 | The loop over route points and the two indexes decides exactly the acceptance predicate of the theorem above |
| `Route.SoundRouteCanReturn` | internal/control/service.go:2892-2919 | On a sound route the return at the top is always valid |
| `Route.EstablishIsSound` | internal/control/service.go:2845-2890 | The first activation seeds exactly the members before the activated terminal, in order and leading to their roots under their own names, and the result is sound; an ungrouped terminal seeds nothing |
| `Route.PushIsSound` | internal/control/service.go:1593-1650 | Following a link inside the group pushes an authored stop and keeps the route sound |
| `Route.PopIsSound` | internal/control/service.go:1561-1591 | Returning pops the top stop and keeps the route sound |
| `Journeys.RunKeepsJourney` | internal/control/service.go:2507-2546 | Over every run in which no switch is resolved in the middle of a route, with groups changing by accepted replacements and by saves of the document that spare the way back, route and pending step are sound before and after each operation under the groups it sees and leaves |
| `Journeys.OperationKeepsJourney` | internal/control/service.go:2507-2546 | The same for one operation of any of the modelled kinds |
| `Journeys.ReplacementKeepsJourney` | internal/control/service.go:420-484 | A group replacement that is carried out leaves the live route and the pending step sound under the new groups |
| `Journeys.UnchangedGroupsAccepted` | internal/control/service.go:486-596 | Offering the groups already in force is never refused by the route check while the active terminal is listed in them |
| `Journeys.SaveKeepsJourneyIff` | internal/session/service.go:1147-1172 | Saving the document keeps a sound journey sound if and only if it deletes no terminal on the route or in the pending step, and none up to the position that the anchor or a seeded stop has in its group |
| `Saves.RouteSavedIff` | internal/session/service.go:1147-1172 | The same for the route alone |
| `Saves.SavedGroup` | internal/session/service.go:1147-1172 | After a save a known terminal is in its old group, in the old order without the deleted ones, or in none if it is deleted |
| `Saves.MergeTerminalGroups` | internal/session/service.go:1147-1172 | The nested loops keep exactly the known memberships and drop groups left empty |
| `Saves.AppendingIsSaving` | internal/domain/validate.go:259-284 | New terminals in groups of their own are such a save, and delete nothing |
| `Journeys.SwitchKeepsJourneyIff` | internal/control/service.go:1147-1223 | A resolved switch keeps the journey sound if and only if the route is empty or the new terminal happens to continue it |
| `Scenarios.SwitchCanStrandPlayers` | internal/control/service.go:1147-1223 | A run from a fresh process over a valid document whose accepted last step, resolving a switch, turns a sound journey into an unsound one |
| `Scenarios.SaveCutsTheWayBack` | internal/control/service.go:1676-1687 | A run from a fresh process after which saving a valid document without a terminal that may be deleted makes the journey unsound and the next return impossible |
| `Answerable.AnswerableIff` | internal/control/service.go:2507-2546 | From a state in which all three kinds of pending decision are answerable, an accepted operation leaves them so if and only if it is not one of: a switch resolved away while a command or link waits, a puzzle reset while a command waits, content or command states that change the waiting command, an approved step to another terminal while a switch waits |
| `Answerable.CommandAnswerableIff` | internal/control/service.go:1229-1344 | A waiting command is answerable, that is current and unchanged, if and only if some answer to it is accepted |
| `Answerable.NavigationAnswerableIff` | internal/control/service.go:1491-1535 | A waiting link or return is answerable if and only if some answer to it is accepted |
| `Answerable.SwitchAnswerableIff` | internal/control/service.go:1147-1166 | A waiting switch is answerable, that is its source is on the air, if and only if some choice is accepted, cancelling included |
| `Answerable.ForgottenEndsIff` | internal/control/service.go:1464-1487 | Exactly which accepted operations end the wait for a forgotten decision: ending the broadcast, activating, clearing (for a switch only with something on the air), and for a command a reset of its own state |
| `Answerable.RecoveryAcceptedIff` | internal/control/service.go:1102-1142 | During a broadcast ending it is always accepted, showing a named terminal that can be delivered too, and clearing if and only if something is on the air or there is a route, a waiting link or a notice to clear |
| `Scenarios.SwitchForgetsCommand` | internal/control/service.go:1147-1223 | A run from a fresh process ending in an accepted switch after which the waiting command can no longer be answered |
| `Scenarios.SwitchForgetsNavigation` | internal/control/service.go:1147-1223 | The same with a waiting link |
| `Scenarios.ResetForgetsCommand` | internal/control/service.go:1786-1837 | A run from a fresh process ending in an accepted puzzle reset after which the waiting command can no longer be answered |
| `Scenarios.EditForgetsCommand` | internal/control/service.go:1691-1728 | A run from a fresh process ending in an accepted content update after which the waiting command can no longer be answered |
| `Scenarios.LinkForgetsSwitch` | internal/control/service.go:1593-1650 | A run from a fresh process ending in an approved link after which the waiting switch stays and no choice for it is accepted |
| `Scenarios.ReturnForgetsSwitch` | internal/control/service.go:1561-1591 | The same with an approved return |
| `Scenarios.ClearingCannotRecover` | internal/control/service.go:1122-1128 | A run from a fresh process after which a forgotten command waits and clearing the screen is refused |
| `Answerable.ForgottenBlocks` | internal/control/service.go:2169-2236 | While a forgotten command or link stays, every answer to either is refused and no player action is accepted; while a forgotten switch stays, every choice for it is refused |
| `Answerable.RunStaysAnswerable` | internal/control/service.go:2714-2721 | In every run without the forgetful operations each pending decision, of all three kinds, can be answered |
| `Answerable.CurrentCanBeDeclined` | internal/control/service.go:1229-1344 | An answerable command can always be declined, and declining ends it |
| `Publication.RunIsHealthy` | internal/control/service.go:2507-2546 | In every reachable state: the structural invariant holds (claim maps mutually inverse and only for known sessions and characters, the terminal on the air stored and the only active checkpoint, tokens and sessions paired, caches bounded, pending decisions of the current broadcast only); the last update enqueued for each session is the projection of the current aggregate at the current revision; enqueued revisions never fall; command requests minus closing events is 1 while a command waits and 0 otherwise |
| `Publication.StepIsHealthy` | internal/control/service.go:2507-2546 | One committed operation of any kind keeps all four of these |
| `Publication.CommitKeepsViews` | internal/control/service.go:2507-2546 | Published views stay current through refusals, stored refusals and accepted changes |
| `Publication.CommitOrdersLog` | internal/control/service.go:2507-2546 | The revision rises by exactly one when a change is accepted and not otherwise; the log only grows and stays ordered |
| `Publication.OperationIsBalanced` | internal/control/service.go:3609-3640 | The audit events of one operation, superseding included, open and close exactly as many command requests as begin and cease to be pending |
| `Runs.OperationKeeps` | internal/control/service.go:2507-2546 | None of the 27 kinds of operation, accepted or not, breaks the structural invariant |
| `Runs.PersistTouchesCachesOnly` | internal/control/service.go:2507-2546 | Whatever is stored without being accepted changes replay caches and nothing else |
| `Positions.RunKeepsPositions` | internal/control/service.go:2507-2546 | In every reachable state over valid documents the players stand in a folder that exists in the stored tree, and every open view belongs to that folder |
| `Positions.SelectedIsOpenable` | internal/control/service.go:2652-2681 | The command selected for a request is exactly one the navigation rules would open from where the players stand |
| `Positions.ApprovedIsOpen` | internal/control/service.go:1271-1344 | Approving a command leaves exactly that command open in the folder it was chosen in |
| `Heap.ProcessRuntime.Clone` | internal/control/service.go:3792-3835 | The deep copy has the same value and every object of it is new: sessions, connection sets, result caches, broadcast, claim maps, route, checkpoints, trees, command tables and puzzles |
| `Heap.LiveBroadcast.Clone` | internal/control/service.go:3855-3876 | The copy of a broadcast is over new claim maps, a new route and new checkpoints, no two of which share a cell |
| `Heap.TerminalRuntime.Clone` | internal/control/service.go:3899-3913 | The copy of a checkpoint has its own tree, command table and puzzle cells |
| `Heap.LogicalSession.Clone` | internal/control/service.go:3837-3853 | The copy of a session has its own connection set and result cache |
| `Heap.Puzzle.Clone` | internal/control/service.go:3950-3970 | The copy of a puzzle is new and equal in value |
| `CoordinatorService.Service.Execute` | internal/control/service.go:2507-2546 | One operation, carried out in place on a deep copy, takes exactly the step of the state machine; the aggregate it started from keeps its value through every half-done mutation; a refusal leaves even its identity alone, and anything else installs only new objects |
| `CoordinatorService.Service.Commit` | internal/control/service.go:2507-2546 | Accept installs the copy under the next revision and enqueues its updates and audits, persist installs it under the same revision, and a refusal drops it |
| `CoordinatorService.Service.DispatchAction` | internal/control/service.go:2325-2432 | The step of a player action, and the answer its sender gets |
| `CoordinatorService.Service.Select` | internal/control/service.go:2088-2160 | The step of a character choice, and the answer its sender gets |
| `Replay.RepeatedRequestIsHarmless` | internal/control/service.go:2188-2207 | Over a whole run a request that was answered is, when repeated from any connection of its session, given the same answer and not acted on again, until its record is evicted or cleared at a broadcast boundary |
| `Replay.AnsweredRequestIsReplayed` | internal/control/service.go:2188-2207 | A stored request gets its stored answer; its identifier used for another request is turned away as a duplicate; in both cases nothing changes |
| `Replay.AnswerIsRemembered` | internal/control/service.go:2325-2432 | Whatever a new request is told is stored under its identifier |
| `Replay.RefusalChangesOneRecord` | internal/control/service.go:3181-3199 | A refused action changes one replay record and nothing else, except the notice that a link leads nowhere |
| `Replay.OperationKeepsRecord` | internal/control/service.go:2560-2579 | No operation rewrites a stored answer: it is kept, evicted as the least other identifier of a full cache, or cleared at a broadcast boundary |
| `Replay.AnswerStays` | internal/control/service.go:2560-2579 | The same over a whole run |
| `Sessions.StoringIsBounded` | internal/control/service.go:2560-2579 | Storing never exceeds the bound, keeps the new record, and gives up exactly the smallest other identifier, only when the cache is full |
| `Dispatch.FingerprintIdentifies` | internal/control/service.go:3145-3163 | Commands with default fingerprints match only when every fingerprinted field matches |
| `Text.FieldsAreInjective` | internal/control/service.go:3165-3171 | The length-prefixed fingerprint of a field list of any number and content determines the list |
| `Text.FingerprintFields` | internal/control/service.go:3165-3171 | The loop produces exactly the fingerprint proved injective |
| `Connections.ActiveStreamCount` | internal/control/service.go:370-383 | The sum over sessions, in any order, is the number of distinct attached connections |
| `Connections.AttachMovesConnection` | internal/control/service.go:1949-2009 | Attaching puts the connection into exactly one session, the recognised or the new one, and moves nobody else |
| `Connections.DetachRemovesConnection` | internal/control/service.go:2067-2084 | Detaching takes the connection from the only session that had it |
| `Text.NextFallbackName` | internal/control/service.go:2589-2602 | The search ends at the least unused number, at most the number of names in use plus one |
| `Ownership.ClaimStands` | internal/control/service.go:2507-2546 | Over a whole run a session keeps its character until it is released, moved away, or the broadcast ends |
| `Ownership.ClaimsChangeOnlyAsAsked` | internal/control/service.go:2507-2546 | The effect of every accepted operation on claims and control, as sets of pairs: only the claim commands, the players' own choice and broadcast boundaries have one |
| `Ownership.AssignGivesOne` | internal/control/service.go:878-914 | A claim is given if and only if session and character are known and neither takes part in another claim; exactly that pair is added, and an idle broadcast gets its controller |
| `Ownership.ChoiceGivesOne` | internal/control/service.go:2088-2160 | A player's own choice adds exactly the chosen pair and makes the chooser controller of a broadcast that has none |
| `Ownership.ReleaseRemovesOne` | internal/control/service.go:918-947 | Exactly the claim of the session goes, and control with it |
| `Ownership.ReleasableIff` | internal/control/service.go:918-947 | Release is accepted if and only if the session holds a claim |
| `Ownership.MoveReplacesOne` | internal/control/service.go:952-984 | A moved character changes hands, its old player loses it and control, and nobody else is touched; accepted if and only if the new session is known and plays nobody |
| `Checkpoints.SwitchDecidesTheSource` | internal/control/service.go:1147-1223 | A resolved switch suspends, drops or keeps the source as chosen, and leaves every checkpoint but the source and the target as it was |
| `Checkpoints.PreservedComesBack` | internal/control/service.go:1147-1223 | Switching away with "preserve" and coming back restores puzzle, folder and open view, as long as the content is unchanged |
| `Checkpoints.DiscardedStartsAnew` | internal/control/service.go:1147-1223 | After "discard" the same terminal starts at the root with a puzzle of its own |
| `Checkpoints.ReopeningRestores` | internal/live/service.go:204-222 | Reopening a suspended checkpoint with the content it was left with brings it back exactly |
| `Checkpoints.ActivationShows` | internal/control/service.go:1025-1097 | An activation that asks no question shows exactly the opened checkpoint of its target |
| `Checkpoints.PuzzlesAreNotLeftSilently` | internal/control/service.go:1025-1142 | Over an unfinished puzzle both activating another terminal and clearing the screen ask first and keep every checkpoint |
| `Checkpoints.CompletionIsDurable` | internal/control/service.go:1229-1344 | A command is shown as completed only when the store already had it so or has kept it; a failed store leaves the states of every checkpoint as they were |
| `Nav.ApplyKeepsWellFormed` | internal/nav/nav.go:23-77 | No request, valid or not, leads from a well-formed position to one that is not |
| `Nav.OpensExactly` | internal/nav/nav.go:51-74 | A command or entry becomes open exactly when it is a child of the current folder of that kind (a command also stays open once open), and nothing else moves |
| `Nav.BackClimbs` | internal/nav/nav.go:41-50 | "back" makes the depth (folders plus open views) strictly smaller until only the bare root is left |
| `Nav.EnterThenBack` | internal/nav/nav.go:30-50 | Entering a child folder and pressing "back" returns to the same folder with every view closed |
| `Nav.ApplyAction` | internal/nav/nav.go:23-77 | The step-by-step update computes exactly the transition these lemmas are about |
| `Nav.RevalidateRepairs` | internal/nav/nav.go:82-102 | Repair lands on a well-formed position, keeps the longest part of the path that still resolves, is idempotent, and is the identity on well-formed positions |
| `Nav.Revalidate` | internal/nav/nav.go:82-102 | The loop over the path computes exactly that repair |
| `Nav.CurrentFolder` | internal/nav/nav.go:157-172 | The cursor loop resolves exactly the recursive meaning of a path |
| `Nav.FolderIdInvertsPath` | internal/nav/nav.go:105-125 | With unique identifiers a folder's path and its identifier determine each other, both ways |
| `Nav.RestoreFollowsTheFolder` | internal/nav/nav.go:129-139 | Restoring in any later tree lands on the saved folder if it is reachable, else on its deepest saved ancestor that is, else on the root, never on an open view |
| `Nav.RestoreFolder` | internal/nav/nav.go:129-139 | The search over saved ancestors computes exactly that restoration |
| `Nav.RestoreUndoesLeaving` | internal/nav/nav.go:129-139 | Leaving a folder by identity and ancestry and coming back to an unchanged tree restores the exact path |
| `PuzzlePlay.CourseKeepsRules` | internal/hack/hack.go:149-233 | Over any course of guesses, patterns and forced successes the board stays fair and winnable, and the secret is written to the log exactly when the puzzle is solved |
| `PuzzlePlay.EndedIsFinal` | internal/hack/hack.go:149-205 | No move changes a puzzle that is solved or failed |
| `PuzzlePlay.GuessIsExact` | internal/hack/hack.go:149-182 | On a fair board a guess solves the puzzle if and only if it names the secret; any other guess that counts costs one attempt, and the last one fails the puzzle |
| `PuzzlePlay.SomeGuessWins` | internal/hack/hack.go:149-182 | While the puzzle is open some candidate still on the board wins it |
| `PuzzlePlay.RemovalTakesOne` | internal/hack/hack.go:506-519 | Taking a decoy away removes exactly one listing of its identifier, as a multiset over all columns |
| `PuzzlePlay.PatternIdNamesPuzzle` | internal/hack/hack.go:736-739 | A published pattern identifier determines the puzzle generation and the span, and conversely |
| `PuzzlePlay.PatternWorksOnce` | internal/hack/hack.go:196-233 | A span that worked never works again in that puzzle, however the course goes on |
| `PuzzlePlay.BoardTellsExactlyTheAnswers` | internal/hack/hack.go:235-256 | Two puzzles that look alike and differ in the secret alone look alike after a move if and only if they answer it alike |
| `PuzzlePlay.CourseTellsOnlyTheAnswers` | internal/hack/hack.go:235-256 | So whoever sees only the published board learns nothing about the secret beyond the answers to the moves made |
| `PuzzleSteps.ApplyGuess` | internal/hack/hack.go:149-182 | The in-place update of the puzzle is exactly the guess of the lemmas above |
| `PuzzleSteps.ApplyPattern` | internal/hack/hack.go:196-233 | The in-place update is exactly the pattern move: the span is marked used before its outcome is drawn |
| `PuzzleSteps.ForceSuccess` | internal/hack/hack.go:184-191 | The in-place update is exactly the forced success |
| `PuzzleSteps.DiscoverPatternSpans` | internal/hack/hack.go:550-606 | The nested scans find exactly the bracket spans of the board, in reading order |
| `PuzzleSteps.IncorrectCandidateIds` | internal/hack/hack.go:521-532 | The loop lists exactly the decoys, none of which is the secret |
| `PuzzleSteps.CountMatches` | internal/hack/hack.go:770-779 | The loop counts exactly the places where the guess agrees with the secret |
| `PuzzleSteps.DotCandidate` | internal/hack/hack.go:506-519 | The scan dots out exactly the first listing of the identifier |
| `PuzzleSteps.PublicState` | internal/hack/hack.go:235-256 | The published board: level, word length, attempts, log, columns, every bracket span with its identifier and whether it was used, and the outcome; never the secret as such, nor the words |
| `Disclosure.BoardsSpeakForPuzzles` | internal/control/service.go:385-408 | The private parts of a puzzle reach a session only through its published board: aggregates that agree on the boards send the same updates |
| `Disclosure.PlayTellsExactlyTheAnswer` | internal/control/service.go:385-408 | Two terminals that differ in the secret alone project alike after a guess or a pattern if and only if both puzzles answer it alike |
| `Disclosure.SpectatorsSeeNoTerminal` | internal/control/service.go:385-408 | What a session without a character is sent does not depend on any checkpoint |
| `Disclosure.OneSessionControls` | internal/control/service.go:3489-3500 | At most one session is told that it controls, and it plays somebody and sees the terminal |
| `Disclosure.RosterIsShownWhole` | internal/control/service.go:3430-3451 | Every session is shown every character once under its own name, claimed exactly when some session plays it, whatever order is stored |
| `TerminalSteps.RequestTerminalActivation` | internal/control/service.go:1025-1097 | Carried out in place on the working copy, whatever is cleared before the outcome is known, it is exactly the activation of Visits.ActivationVisits, Upkeep.ShowingAsksIff and the theorems about routes |
| `TerminalSteps.RequestTerminalClear` | internal/control/service.go:1102-1142 | In place, exactly the clearing of Visits.ClearingLeavesAll and Upkeep.ClearingAsksIff |
| `TerminalSteps.EstablishInitialTerminalRoute` | internal/control/service.go:2845-2890 | In place, exactly the seeding proved sound by Route.EstablishIsSound |
| `SwitchSteps.ResolveTerminalSwitch` | internal/control/service.go:1147-1223 | In place, exactly the switch of Checkpoints.SwitchDecidesTheSource and Journeys.SwitchKeepsJourneyIff |
| `SwitchSteps.UpdateLiveTerminal` | internal/control/service.go:1691-1728 | In place, exactly the content update that keeps positions |
| `SwitchSteps.RefreshActiveTerminal` | internal/control/service.go:1734-1780 | In place, exactly the refresh that keeps positions and journeys |
| `SwitchSteps.ResetFailedHack` | internal/control/service.go:1786-1837 | In place, exactly the reset of Answerable.AnswerableIff |
| `SwitchSteps.ForceHackSuccess` | internal/control/service.go:2468-2495 | In place, the forced success of the active puzzle and nothing else |
| `DecisionSteps.ResolveCommandExecution` | internal/control/service.go:1229-1344 | In place, exactly the decision of Approvals.ApprovalTakes, Approvals.DeclineShows and Checkpoints.CompletionIsDurable |
| `DecisionSteps.ValidTerminalReturnPoint` | internal/control/service.go:2892-2919 | The lookups decide exactly the return check of Route.SoundRouteCanReturn |
| `DecisionSteps.SelectedAuthoredCommand` | internal/control/service.go:2652-2681 | The lookups select exactly the command of Positions.SelectedIsOpenable |
| `DecisionSteps.ResetCommandStates` | internal/control/service.go:1370-1487 | In place, exactly the reset of Upkeep.ResultsAreTakenBack |
| `DecisionSteps.ResolveTerminalNavigation` | internal/control/service.go:1491-1650 | In place, including the checks made after the source was already suspended, exactly the decision of Approvals.LinkApproved, Approvals.ReturnApproved, Visits.TravelVisits and the unwinding and round-trip theorems |
| `DecisionSteps.ReplaceTerminalGroups` | internal/control/service.go:420-484 | Nothing of the aggregate is changed by a replacement, whose acceptance is that of Route.AcceptedIffSound |
| `DispatchSteps.DispatchPlayerAction` | internal/control/service.go:2325-2432 | In place, exactly the dispatch of Actions.MovesExactly, Approvals.CommandsAreAskedFor, Approvals.LinksAreAskedFor and the replay, balance and journey theorems, with its answer |
| `DispatchSteps.PreparePlayerAction` | internal/control/service.go:2169-2236 | In place, exactly the guards of Actions.AdmittedIff and the reasons of Actions.RefusalTellsWhy |
| `DispatchSteps.Apply` | internal/live/service.go:322-370 | One player action on the active checkpoint: navigation, guess or pattern, in place |
| `TerminalSteps.CreateRuntime` | internal/live/service.go:133-148 | A new checkpoint over new cells, standing at the root, with a puzzle exactly when the level asks for one |
| `TerminalSteps.UpdateRuntime` | internal/live/service.go:161-177 | In place, new content under the position repaired as Nav.RevalidateRepairs says |
| `TerminalSteps.ReactivateRuntime` | internal/live/service.go:204-222 | In place, exactly the reopening of Checkpoints.ReopeningRestores |
| `Publishing.ProjectRuntime` | internal/live/service.go:383-394 | What a checkpoint shows, read from its cells: exactly the view of Screens.ScreensTellTheTruth |
| `SessionSteps.AttachConnection` | internal/control/service.go:1949-2009 | In place, exactly the attachment of Connections.AttachMovesConnection |
| `SessionSteps.DetachConnection` | internal/control/service.go:2067-2084 | In place, exactly the detachment of Connections.DetachRemovesConnection |
| `SessionSteps.RenameLogicalSession` | internal/control/service.go:842-874 | In place, a rename that keeps session names distinct |
| `ClaimSteps.InstallPlayerConfig` | internal/control/service.go:275-313 | The roster in place, exactly the installation, refused during a broadcast so that claims stay on known characters |
| `ClaimSteps.ClearPlayerConfig` | internal/control/service.go:315-333 | The roster in place, exactly the removal, refused during a broadcast |
| `ClaimSteps.AddCharacter` | internal/control/service.go:636-698 | The roster in place, exactly the addition: made against the current revision, with a configuration, outside a broadcast, and saved first |
| `ClaimSteps.UpdateCharacter` | internal/control/service.go:703-773 | In place, exactly the update under the same guards, refused for an unknown or unchanged character |
| `ClaimSteps.DeleteCharacter` | internal/control/service.go:778-838 | In place, exactly the deletion under the same guards, so no claimed character is ever deleted |
| `ClaimSteps.SetActiveController` | internal/control/service.go:989-1020 | In place, exactly the change of control, only to another connected session that holds a claim |
| `ClaimSteps.StartBroadcast` | internal/control/service.go:1841-1870 | In place, a new broadcast with no claim, no checkpoint and empty caches |
| `ClaimSteps.EndBroadcast` | internal/control/service.go:1875-1897 | In place, the end of the broadcast, its claims, pending decisions and caches |
| `ClaimSteps.AssignCharacter` | internal/control/service.go:878-914 | Both claim maps in place, exactly the assignment of Ownership.AssignGivesOne |
| `ClaimSteps.ReleaseCharacter` | internal/control/service.go:918-947 | Both claim maps in place, exactly the release of Ownership.ReleaseRemovesOne |
| `ClaimSteps.MoveCharacter` | internal/control/service.go:952-984 | Both claim maps in place, exactly the move of Ownership.MoveReplacesOne |
| `ClaimSteps.SelectCharacter` | internal/control/service.go:2088-2160 | In place, exactly the choice of Ownership.ChoiceGivesOne, with its answer |
| `ClaimSteps.StoreRequestResult` | internal/control/service.go:2560-2579 | The cache in place, exactly the storing of Sessions.StoringIsBounded |
| `Publishing.OrderedRosterIds` | internal/control/service.go:3430-3451 | The loops list the ids of Disclosure.RosterIsShownWhole: the authored order first, each known character once, then the rest by identifier |
| `Publishing.PlayerSnapshot` | internal/control/service.go:3375-3428 | Read from the objects, exactly the view of the publication theorems |
| `Publishing.CompoundUpdate` | internal/control/service.go:385-408 | Read from the objects, exactly the update of the publication theorems and of Screens.ScreensTellTheTruth |
| `Visits.TravelVisits` | internal/control/service.go:1561-1643 | An approved step that travels shows the target as authored now over the puzzle it has kept, solved, failed or open; a first visit has a puzzle exactly when the level asks for one; the terminal left is its old checkpoint suspended and every other checkpoint is unchanged |
| `Visits.ActivationVisits` | internal/control/service.go:1025-1097 | An activation that does not ask keeps every checkpoint but the target's, with outcomes on display gone; the one left is suspended with its puzzle, folder and open view; the target is resumed over what it has kept, or begins |
| `Visits.AskingLeavesAll` | internal/control/service.go:1025-1097 | An activation that asks first leaves every checkpoint and what is on the air as they are, but for outcomes on display |
| `Visits.ClearingLeavesAll` | internal/control/service.go:1102-1142 | Clearing the screen suspends what was on it and keeps every checkpoint; over an open puzzle it asks first and leaves it on the air |
| `Visits.ActivatedAwayAndBack` | internal/control/service.go:1025-1097 | Showing another terminal and then this one again is a round trip for its checkpoint, as long as its content is unchanged |
| `Visits.ClearedAndBack` | internal/control/service.go:1102-1142 | Clearing the screen and showing the same terminal again is a round trip for its checkpoint, as long as its content is unchanged |
| `Visits.SwitchVisits` | internal/control/service.go:1147-1223 | A resolved switch shows its target over the puzzle and position it has kept, unless that is just what was discarded |
| `Visits.EditChangesContentOnly` | internal/control/service.go:1691-1728 | An edit on the air changes the tree, the intro text if given, and the position as far as the new tree requires; nothing else of any checkpoint |
| `Visits.RefreshInstallsContent` | internal/control/service.go:1734-1780 | A refresh installs name, tree, results and intro text; puzzle, its level, outcome on display and presentation stay; an open command whose result is gone is closed |
| `Visits.ResetBeginsAnew` | internal/control/service.go:1786-1837 | Only a failed, unsolved puzzle is replaced; the terminal then stands at the root with the new puzzle, and no other checkpoint changes |
| `Visits.PuzzleStands` | internal/control/service.go:2507-2546 | Over a whole run a terminal keeps its puzzle, however often it leaves the screen and comes back, until somebody plays, forces or resets it, discards it, or the broadcast ends |
| `Visits.PuzzleStays` | internal/control/service.go:2507-2546 | No other operation reaches the puzzle of any terminal, on the air or not |
| `Actions.AdmittedIff` | internal/control/service.go:2169-2236 | A player action is let through if and only if it comes over a connection of the controlling session, is proper and new, is about the broadcast and the terminal on the air, and nothing waits for the Overseer |
| `Actions.RefusalTellsWhy` | internal/control/service.go:2169-2236 | A refusal names the first obstacle: what is asked, which broadcast, whether the session plays somebody, controls, which terminal, and what waits; nothing but the answer is stored |
| `Actions.MovesExactly` | internal/control/service.go:2407-2432 | Entering, opening an entry and "back" are accepted exactly while no command outcome is in the way (a refused one lets only "back" through), replace the position by the one the navigation rules give, clear the outcome and the notice, and change nothing else |
| `Actions.GuessesExactly` | internal/control/service.go:2407-2432 | A guess is accepted exactly while the puzzle is open and it names a candidate or a place with filler; the puzzle and the answer are all it changes |
| `Actions.ActivatesExactly` | internal/control/service.go:2407-2432 | A bracket span is accepted exactly while the puzzle is open and the span is on the board and unused |
| `Actions.PointsExactly` | internal/control/service.go:2407-2432 | A presentation is accepted exactly when it is permitted and new, and leaves a notice where it is |
| `Approvals.CommandsAreAskedFor` | internal/control/service.go:2384-2406 | A command without a link in the folder shown is never run by a player: the Overseer is asked for it under its completed or authored name with its own text, it is shown as awaited, and nothing else changes |
| `Approvals.NothingElseOpens` | internal/control/service.go:2349-2357 | A request for a command that is not in the folder, or has both a link and a result, is refused |
| `Approvals.LinksAreAskedFor` | internal/control/service.go:2255-2282 | A link the catalogue still has within one group asks for the terminal it names and remembers the exact folder; a broken one leaves a notice and a refused answer under a new revision |
| `Approvals.ReturnsAreAskedFor` | internal/control/service.go:2238-2253 | "back" in the bare root asks for the top stop of the route and no other, exactly if both terminals are in one group and a seeded stop is the member right before; otherwise it is refused |
| `Approvals.ApprovalTakes` | internal/control/service.go:1285-1344 | Approving a change not made yet ends recorded as the store returned it with the command open, or with nothing changed and a notice to whoever asked; approving a completed or an ordinary command opens it whatever the store answers and changes no results |
| `Approvals.DeclineShows` | internal/control/service.go:1270-1283 | Declining shows the command as refused and changes nothing else |
| `Approvals.ApprovedRequestTakes` | internal/control/service.go:1229-1344 | The same from the request to its approval: what the players see before and after, with the notice to the session that asked |
| `Approvals.AnsweredEitherWay` | internal/control/service.go:1229-1270 | Every command the players may ask for can be approved and declined |
| `Approvals.LinkApproved` | internal/control/service.go:1593-1643 | An approved link is followed exactly if the catalogue still has it and the terminal can be shown, one stop further on; a changed link is told to the Overseer and nobody moves; otherwise the decision goes on waiting |
| `Approvals.ReturnApproved` | internal/control/service.go:1536-1591 | An approved return goes to the top stop in the folder it remembers; a terminal that is gone is told to the Overseer; a stop that may not be returned to leaves the decision waiting |
| `Approvals.NavigationDeclined` | internal/control/service.go:1518-1535 | A declined link is shown as refused, a declined return only ends the question |
| `Route.ReturnableIff` | internal/control/service.go:2892-2919 | The return check holds exactly if both terminals are members of one group and, for a seeded stop, the terminal left is the member right after it |
| `Screens.ScreensTellTheTruth` | internal/control/service.go:385-408 | In every reachable state the last update of each session is true: the terminal part is there exactly for sessions that play somebody, walking the published tree along the published path gives the folder the players stand in, an entry, command or outcome is shown as open exactly if it is, and depth, next stop, role, phase and character are those of the aggregate |
| `Screens.OnlyShownCommandsOpen` | internal/control/service.go:2348-2406 | In every reachable state a request of the controller to open a command moves things on if and only if the published folder has a command of that identifier that does one thing |
| `Screens.EnteringShows` | internal/control/service.go:2407-2432 | Entering a folder on the screen publishes exactly that folder with nothing open; entering anything else leaves the screen where it is |
| `Screens.SameScreenSameTruth` | internal/live/service.go:383-394 | Two aggregates that publish the same terminal part agree on the terminal but for private parts of its puzzle (position, tree, results, texts), and on the number of stops, the next stop and the step that waits |
| `Boards.LikenessCountsPlaces` | internal/hack/hack.go:770-779 | The likeness is the number of places where two words agree |
| `Boards.GuessWrites` | internal/hack/hack.go:149-182 | The whole effect of a guess: the secret solves and is welcomed; any other candidate costs one attempt and is answered with the number of agreeing places; a place with filler costs one and agrees nowhere; anything else changes nothing |
| `Boards.ForceWrites` | internal/hack/hack.go:184-191 | A forced success writes the secret, solves, and costs nothing |
| `Boards.PlacesHaveNames` | internal/hack/hack.go:745-759 | Every place of the board has a name a guess can use, and it reads back as that place |
| `Boards.SpansAreThePairs` | internal/hack/hack.go:550-588 | The spans of a board are exactly the pairs of an opening bracket and the first bracket that fits it in the same row of twelve with no letter between, under their rendered rows |
| `Boards.FillerIff` | internal/hack/hack.go:166-179 | Filler, the only other thing a guess can name, is any place of the board in no word and where no pair of brackets begins |
| `Boards.SpanIsUsedUp` | internal/hack/hack.go:193-222 | A span works only if it is on the board and unused, and is used up |
| `Boards.SpanDoes` | internal/hack/hack.go:222-233 | It restores the attempts if there is no wrong word to take and otherwise on twenty of a hundred draws; else exactly one wrong word is dotted out and taken off the board and the attempts stay |
| `Boards.AnyWrongWordCanGo` | internal/hack/hack.go:222-233 | Every wrong word is taken by some draw |
| `Boards.PublishedSpansWork` | internal/hack/hack.go:534-548 | While the puzzle is open a span is published as unused exactly if activating it has an effect |
| `Lobby.RenamesExactly` | internal/control/service.go:842-874 | A session takes a name exactly if it is not blank, not too long and nobody has it |
| `Lobby.KnownTokenComesBack` | internal/control/service.go:1949-2009 | A known token brings a connection back to its session, which keeps name, answers and notice; no new session |
| `Lobby.NewcomersGetSession` | internal/control/service.go:1949-2009 | Any other connection gets a session of its own under the least unused number and a token to come back with |
| `Lobby.InstallsExactly` | internal/control/service.go:275-333 | Outside a broadcast a valid configuration replaces the roster as it is written, and can be removed |
| `Lobby.AddsExactly` | internal/control/service.go:636-698 | A new character is listed last, under exactly the guards of revision, configuration, broadcast and saved file |
| `Lobby.UpdatesExactly` | internal/control/service.go:703-773 | A changed character keeps its place, under the same guards |
| `Lobby.DeletesExactly` | internal/control/service.go:778-838 | A deleted character is gone and the others stay in order |
| `Lobby.BroadcastsStartBlankAndEnd` | internal/control/service.go:1841-1897 | A broadcast starts with nobody playing, nothing shown and no way back, and ends leaving nothing; both ends forget every stored answer |
| `Lobby.ControlGivenIff` | internal/control/service.go:989-1020 | Control is given exactly to a connected session that plays somebody and has no control |
| `Lobby.ClaimsTakenIff` | internal/control/service.go:878-984 | Assigning, releasing and moving a character are accepted exactly as the claims allow: nobody else in the pair taken, a claim to give up, a new player who plays nobody |
| `Lobby.ChoiceTakenIff` | internal/control/service.go:2088-2160 | A player's choice is accepted exactly if it is new, connected, for the broadcast on the air, and of a character and by a session in no other claim |
| `Lobby.EverybodyIsToldOnce` | internal/control/service.go:2507-2546 | An accepted change is sent to every recognised session exactly once, a refusal to nobody |
| `Lobby.AuthoredComeFirst` | internal/control/service.go:3430-3451 | Whatever order is stored, characters in it come first, each at its first mention, and any others after them in ascending order of identifiers |
| `Lobby.RosterIsShownInOrder` | internal/control/service.go:3430-3451 | The roster is shown in the order it was authored in |
| `Footprints.HalvesStayApart` | internal/control/service.go:2507-2546 | Whatever happens on the air leaves sessions, roster and claims alone, and whoever comes, goes or changes character leaves the air alone; only the ends of a broadcast reach both |
| `Footprints.RunKeepsRosterListed` | internal/control/service.go:2507-2546 | In every reachable state the roster is a list of different characters in the authored order |
| `Upkeep.ContentTakenIff` | internal/control/service.go:1691-1780 | Content is taken exactly for the terminal on the air |
| `Upkeep.PuzzleTakenIff` | internal/control/service.go:1786-1837 | A puzzle is replaced exactly if it failed and an open one comes for it, and forced exactly if it is open |
| `Upkeep.ShowingAsksIff` | internal/control/service.go:1025-1097 | Showing a terminal asks first exactly if that leaves an open puzzle, and is otherwise accepted exactly if the terminal can be delivered or only resumed |
| `Upkeep.ClearingAsksIff` | internal/control/service.go:1102-1142 | Clearing asks first exactly if that leaves an open puzzle, and is refused exactly when there is nothing on the air and nothing to forget |
| `Upkeep.SwitchTakenIff` | internal/control/service.go:1147-1223 | A switch is resolved exactly under its own identifier while its terminal is on the air; leaving needs the next terminal to be there |
| `Upkeep.ResultsAreTakenBack` | internal/control/service.go:1370-1487 | Results are taken back exactly if the valid stored document has them no more; the checkpoint takes over what is left, and the open view, the outcome on display and the question about a result that is gone are closed |
| `Upkeep.GroupsTakenIff` | internal/control/service.go:420-484 | New groups are taken exactly at the revision they were made for, if journey and waiting step are sound under them, they list the terminal on the air and the store replaces them; the aggregate does not change |
| `Upkeep.GoneIsReported` | internal/control/service.go:3609-3640 | A command or link that no longer waits is always reported, by its decision or as superseded, and nothing that still waits is reported as superseded |
| `Upkeep.CommitReports` | internal/control/service.go:2507-2546 | A commit installs nothing, replay records, or the next revision, and enqueues every audit of the change in order before any update |
| `Nav.EntersExactly` | internal/nav/nav.go:28-39 | Entering shows exactly the child folder asked for with nothing open, or changes nothing |
| `Nav.OpenThenBack` | internal/nav/nav.go:41-60 | Opening an entry and pressing "back" returns to the same folder with nothing open |
| `Nav.BackUndoesOne` | internal/nav/nav.go:41-50 | "back" closes the open entry and only that; without one it drops exactly the last folder; at the root it closes the open command |
| `Nav.RevalidateKeepsViews` | internal/nav/nav.go:82-102 | An open view survives the repair exactly if the folder reached still has it |
| `SemVer.ParsesExactlyRendered` | wails_updater.go:444-481 | A text parses, and as that version, exactly when it is the spelling of a well-formed version (Semantic Versioning 2.0.0, sections 2 and 9, without build metadata): reading and writing are inverse |
| `SemVer.ComparesNumerically` | wails_updater.go:558-580 | Length first and digits second is the order of the numbers, of any size |
| `SemVer.ComparesByPrecedence` | wails_updater.go:513-556 | The comparator is the precedence of section 11 of Semantic Versioning 2.0.0, and zero exactly for equal versions |
| `SemVer.CompareIsTotalOrder` | wails_updater.go:513-556 | The comparison is antisymmetric and transitive on all triples |
| `SemVer.ParseSemanticVersion` | wails_updater.go:444-481 | The scanning parser returns exactly the parse of the theorem above |
| `SemVer.CompareVersions` | wails_updater.go:513-541 | The comparator loops return exactly the comparison of the theorems above |
| `Updates.Check` | wails_updater.go:136-205 | An untrustworthy installed version or published release ends in an error; otherwise the offered release is the maximum eligible one, strictly newer than the installed one, with all eligible releases newest first; nothing is offered exactly when none is eligible |
| `Updates.SortEligible` | wails_updater.go:171-173 | The same candidates as a multiset, newest first |
| `ReleaseTag.ParsersAgree` | internal/buildtool/releasecheck.go:44-50 | The release tool accepts a tag if and only if the updater reads it as a version with major 2, and prints the tag without its v |
| `ReleaseTag.VersionsAgree` | internal/buildtool/releasecheck.go:55-68 | The same for a bare build version |
| `ReleaseTag.ParseReleaseTag` | internal/buildtool/releasecheck.go:44-50 | Accepted exactly when the updater accepts the tag with major 2; canonical form and prerelease mark are those of that version |
| `ReleaseTag.ResolveBuildVersion` | internal/buildtool/releasecheck.go:55-68 | An empty value is the development build; any other is accepted exactly when the updater accepts it with major 2 |
| `ReleaseTag.ReleaseVersionFromMatches` | internal/buildtool/releasecheck.go:96-119 | What is refused (another major, a numeric identifier with a leading zero) and how the three spellings of an accepted version are built |
| `ReleaseTag.MatchesAreUnique` | internal/buildtool/releasecheck.go:26-29 | A text matches the pattern with one grouping only, so the library's result is determined |
| `Retention.WriteAll` | internal/diagnostics/retained_log.go:121-281 | Over any number of writes from any directory, whatever fails on the way, the newest segment of a previous run keeps its content and there are never more owned segments than allowed or than there were at the start |
| `Retention.RunLog.Write` | internal/diagnostics/retained_log.go:121-166 | A record is retained whole inside one segment within the byte limit, after a rotation exactly if it would not fit; as long as nothing fails it is retained; one file at most is written, and what a rotation removes is older than what stays and never the evidence; a closed log refuses; a retention failure alone never fails the write |
| `Retention.RunLog.OpenSegment` | internal/diagnostics/retained_log.go:193-225 | A successful open leaves an empty current segment under the next name and exactly one owned segment more than before, or the allowed number if that is less; it succeeds if nothing stands in the way; a failed one leaves none open |
| `Retention.RunLog.Prune` | internal/diagnostics/retained_log.go:234-281 | Oldest segments go first until the limit is met and no further, never the current one nor the newest of a previous run; a failed removal ends it early |
| `Retention.RunLog.Rotate` | internal/diagnostics/retained_log.go:183-191 | Rotation starts an empty segment, keeps the evidence and the bound |
| `Retention.RunLog.Close` | internal/diagnostics/retained_log.go:168-181 | Closing again is harmless; only the first close reports the file's failure |
| `Retention.RunLog.constructor` | internal/diagnostics/retained_log.go:62-93 | A new log is valid whatever the directory held and whatever fails |
| `Segments.ParseOwnedName` | internal/diagnostics/retained_log.go:283-309 | The parser recognises exactly the names of Segments.NameTellsRun, from the right |
| `Segments.NameTellsRun` | internal/diagnostics/retained_log.go:283-309 | The run identifier is recovered from every generated name, whatever characters it holds |
| `Notifications.DisplayIsAccountedFor` | approval_notifications.go:190-423 | However the goroutines interleave over the two locks, and however late states are observed: every displayed notification is the current request's or has a cleanup under way |
| `Notifications.SentAndDecidedOnce` | approval_notifications.go:251-366 | While no state is observed late, no request is sent twice and the current request has at most one decision in flight |
| `Notifications.ObservedLateIsSentAgain` | approval_notifications.go:190-220 | From any state in which notifications are available, observing late a request that was sent can lead to its being sent again |
| `Notifications.SentTwice` | approval_notifications.go:190-220 | A run from the start of the service in which one request is sent twice |
| `Notifications.ObservedLateIsDecidedTwice` | approval_notifications.go:311-366 | Observing late a request whose decision is in flight lets it be decided a second time at once |
| `Notifications.AtRest` | approval_notifications.go:397-423 | With no goroutine left nothing but the current request is displayed |
| `Notifications.AtRestTruthfully` | approval_notifications.go:279-309 | If no state was observed late, the current request's delivery has then come to an end and its state tells the truth |
| `Notifications.NeverStuck` | approval_notifications.go:251-309 | The two locks never block everybody: while a goroutine is left, one can move |
| `Notifications.RunsDown` | approval_notifications.go:251-423 | With no news from outside the goroutines come to rest in a number of steps known beforehand |
| `Notifications.IdIdentifiesRequest` | approval_notifications.go:507-509 | Within one launch a notification identifier determines kind and request |
| `Notifications.ReducesUnambiguously` | approval_notifications.go:461-489 | In every reachable aggregate with non-blank identifiers the request to notify about is never ambiguous, present exactly when a command or navigation waits, and then under the identifier of what waits |
| `Deliveries.ObservedBecomesCurrent` | approval_notifications.go:251-309 | An observed request becomes the current one; the same one changes nothing, another takes the place of the old one, which is to be cleaned up, and is undecided and to be sent as soon as sending is possible |
| `Deliveries.GrantSendsWaiting` | approval_notifications.go:222-249 | Permission sends what was waiting for it; without it nothing is sent |
| `Deliveries.ReportTells` | approval_notifications.go:279-309 | The entry says what the notifier answered, if it is still waiting for that |
| `Deliveries.NewRequestIsShown` | approval_notifications.go:251-309 | Left alone, a new request ends up displayed and delivered, and the one before it no longer is |
| `Deliveries.AnswerTakenIff` | approval_notifications.go:311-366 | An answer is taken exactly for the current request while nobody decides it |
| `Deliveries.DecisionEndsOrReopens` | approval_notifications.go:311-375 | A decision that goes through ends the request, which is cleaned up; one that fails leaves it to be decided again |
| `Deliveries.AnsweredIsTakenAway` | approval_notifications.go:311-423 | Left alone, an answered request that goes through is neither current nor displayed |
| `Notifications.ApprovalNotificationService.ObserveCoordinationState` | approval_notifications.go:251-309 | The fields under the lock take exactly the observing step of the protocol; an entry that is replaced is marked invalidated |
| `Notifications.ApprovalNotificationService.AnswerAuthorization` | approval_notifications.go:222-249 | Exactly the authorising step: a stale generation changes nothing |
| `Notifications.ApprovalNotificationService.AcceptResponse` | approval_notifications.go:311-366 | Accepted exactly when the identifier is that of a current, deliverable and undecided request; otherwise nothing changes |
| `Notifications.ApprovalNotificationService.ReleaseDecision` | approval_notifications.go:368-375 | Exactly the releasing step of the protocol |
| `Notifications.ApprovalNotificationService.ClaimDelivery` | approval_notifications.go:377-385 | Exactly the claiming step: at most one sender per entry |
| `Notifications.ApprovalNotificationService.InvalidateCurrent` | approval_notifications.go:387-395 | The current entry goes, marked invalidated, and is returned only if it was sent |

## Left out

- Checkpoints.ReopeningRestores: the controller's presentation (pointer, preview and its context digest) is kept as it was; the code revalidates it on create, update, reactivate, apply and project (internal/live/service.go:404-498) and may replace it.
- Checkpoints.PreservedComesBack: says of the presentation what the line above says.
- Visits.TravelVisits: likewise keeps the presentation as it was.
- Visits.ActivationVisits: likewise keeps the presentation as it was.
- Visits.SwitchVisits: likewise keeps the presentation as it was.
- Visits.ActivatedAwayAndBack: likewise keeps the presentation as it was.
- Visits.ClearedAndBack: likewise keeps the presentation as it was.
- Visits.EditChangesContentOnly: likewise keeps the presentation as it was.
- Visits.RefreshInstallsContent: likewise keeps the presentation as it was.
- Visits.ResetBeginsAnew: a new checkpoint starts without a presentation, which the code then derives from what is shown.
- Actions.MovesExactly: a move, a guess or a pattern keeps the presentation, which the code revalidates.
- Screens.SameScreenSameTruth: results are published as they are stored, beside the tree and not merged into it.
- Disclosure.BoardsSpeakForPuzzles: the digest of the presentation context (internal/live/service.go:486-498) is not part of a published view here.
- Journeys.RunKeepsJourney: groups change by accepted replacements and by saves; opening another document during a broadcast is not part of the run.
- Replay.RepeatedRequestIsHarmless: speaks of requests, not of the delivery of their answers.
- Saves.SavedGroup: identifiers and names of the groups given to new terminals are not computed.
- Homeward.WayHomeUnwinds: presses and approvals alternate under one catalogue with nothing else in between; other operations start a new walk.
- Heap.ProcessRuntime.Clone: roster entries, replay records, pending decisions, folder paths and the inner nodes of a content tree are immutable values inside cells, as are the session and checkpoint maps; the references to cells are constant, so replacing a container is overwriting its cell. Nil and empty collections are one.
- Notifications.DisplayIsAccountedFor: one generation, and removals succeed; startup, shutdown, categories and body texts are left out.
- Retention.WriteAll: the file system is a map from names to contents with an outcome parameter for each call.
- Segments.NameTellsRun: Go's time parser also takes a comma before the fraction; the timestamp here takes the point only.
- ReleaseTag.ParseReleaseTag: the result of the regular expression library is a parameter constrained to a match of the pattern.
- ReleaseTag.ResolveBuildVersion: likewise.
- Updates.SortEligible: the library sort is modelled by insertion, so the order of equal versions is that of this sort.
- Updates.Check: fetching, assets, digests and the changelog text.
- PuzzlePlay.PatternIdNamesPuzzle: identifiers are compared before their base64 spelling.
- PuzzlePlay.CourseKeepsRules: generation of boards (internal/hack/hack.go:51-147), which is a parameter; column text is chars, and words placed outside their column do not occur.
- Text.NextFallbackName: names are trimmed of ASCII blanks only, and the length limits on names count chars where the source counts runes.
- The effective tree that merges stored command states into authored content (internal/live/service.go:583-620): trees are taken as already merged.
- The older Master, Player, Live and Result effects and the audits of puzzles and presence: only compound updates and command audits are in the log.
- Branches for absent collaborators: the wiring of production, where every collaborator is present and a player configuration is required.
- Shutdown, and the wrap-around of 64-bit revisions and generations.
- Composition, HTTP, streaming, the desktop shell, session files, validation of whole documents, packaging and the browser client.
