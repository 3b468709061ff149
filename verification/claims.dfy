/** Broadcast lifetimes, the authored roster, and who plays which character. */
module Claims {
  import opened Domain
  import opened State
  import opened Changes
  import opened Sessions
  import Text

  function WithBroadcast(rt: Runtime, b: Broadcast): Runtime {
    rt.(broadcast := Some(b))
  }

  predicate Assigned(b: Broadcast, session: string) {
    session in b.assignments || exists character :: character in b.claimants && b.claimants[character] == session
  }

  /** The owner of a character, looked up in either direction of the claim. */
  ghost function OwnerOf(b: Broadcast, character: string): Option<string> {
    if character in b.claimants then Some(b.claimants[character])
    else
      var holders := set s | s in b.assignments && b.assignments[s] == character;
      if holders == {} then None else var s :| s in holders; Some(s)
  }

  function ReleaseControl(controller: Option<string>, session: string): Option<string> {
    if controller == Some(session) then None else controller
  }

  // ---------------------------------------------------------------- broadcasts

  function Start(rt: Runtime, id: string): Change {
    if rt.config.None? || rt.broadcast.Some? then Reject([])
    else
      var cleared := ClearResults(rt);
      Accept(
        cleared.(broadcast := Some(Broadcast(id, map[], map[], None, None, map[], [], false, "", "", 0)),
                pendingSwitch := None, pendingNavigation := None, notice := None), [])
  }

  function End(rt: Runtime): Change {
    if rt.broadcast.None? then Reject([])
    else
      Accept(
        ClearResults(rt).(broadcast := None, pendingSwitch := None, pendingCommand := None,
                          pendingNavigation := None, notice := None), [])
  }

  // ---------------------------------------------------------------- roster

  function RosterMap(roster: seq<Character>): map<string, Character> {
    if roster == [] then map[]
    else RosterMap(roster[..|roster| - 1])[roster[|roster| - 1].id := roster[|roster| - 1]]
  }

  function RosterIds(roster: seq<Character>): seq<string> {
    seq(|roster|, i requires 0 <= i < |roster| => roster[i].id)
  }

  function Install(rt: Runtime, handle: ConfigHandle, roster: seq<Character>, valid: bool): Change {
    if Text.Blank(handle.path) || !valid || rt.broadcast.Some? then Reject([])
    else Accept(rt.(roster := RosterMap(roster), rosterOrder := RosterIds(roster), config := Some(handle)), [])
  }

  function Uninstall(rt: Runtime): Change {
    if rt.broadcast.Some? then Reject([])
    else Accept(rt.(roster := map[], rosterOrder := [], config := None), [])
  }

  // A roster edit is guarded by the revision it was made against, and saved first.
  predicate RosterEditable(rt: Runtime, expected: nat) {
    expected == rt.revision && rt.config.Some? && rt.broadcast.None?
  }

  function AddCharacter(rt: Runtime, expected: nat, entry: Character, valid: bool,
                        saved: Option<ConfigHandle>): Change {
    if !valid || !RosterEditable(rt, expected) || saved.None? then Reject([])
    else
      Accept(rt.(roster := rt.roster[entry.id := entry], rosterOrder := rt.rosterOrder + [entry.id], config := saved),
             [])
  }

  function UpdateCharacter(rt: Runtime, expected: nat, entry: Character, valid: bool,
                           saved: Option<ConfigHandle>): Change {
    if !RosterEditable(rt, expected) || entry.id !in rt.roster || !valid || rt.roster[entry.id] == entry || saved.None?
    then Reject([])
    else Accept(rt.(roster := rt.roster[entry.id := entry], config := saved), [])
  }

  function Without(order: seq<string>, id: string): seq<string> {
    if order == [] then []
    else (if order[0] == id then [] else [order[0]]) + Without(order[1..], id)
  }

  function DeleteCharacter(rt: Runtime, expected: nat, id: string, saved: Option<ConfigHandle>): Change {
    if !RosterEditable(rt, expected) || id !in rt.roster || saved.None? then Reject([])
    else Accept(rt.(roster := rt.roster - {id}, rosterOrder := Without(rt.rosterOrder, id), config := saved), [])
  }

  // ---------------------------------------------------------------- claims

  ghost function Assign(rt: Runtime, session: string, character: string): Change {
    if rt.broadcast.None? || session !in rt.sessions || character !in rt.roster then Reject([])
    else
      var b := rt.broadcast.value;
      if Assigned(b, session) || OwnerOf(b, character).Some? then Reject([])
      else
        var control := if b.controller.None? && Connected(rt.sessions[session]) then Some(session) else b.controller;
        Accept(WithBroadcast(rt, Claimed(b, session, character).(controller := control)), [])
  }

  function Claimed(b: Broadcast, session: string, character: string): Broadcast {
    b.(assignments := b.assignments[session := character], claimants := b.claimants[character := session])
  }

  function Release(rt: Runtime, session: string): Change {
    if rt.broadcast.None? || session !in rt.sessions || session !in rt.broadcast.value.assignments then Reject([])
    else
      var b := rt.broadcast.value;
      Accept(WithBroadcast(rt, b.(
        assignments := b.assignments - {session},
        claimants := b.claimants - {b.assignments[session]},
        controller := ReleaseControl(b.controller, session))), [])
  }

  ghost function Move(rt: Runtime, character: string, session: string): Change {
    if rt.broadcast.None? || character !in rt.roster || session !in rt.sessions || Assigned(rt.broadcast.value, session)
    then Reject([])
    else
      var b := rt.broadcast.value;
      var from := OwnerOf(b, character);
      var freed := if from.None? then b
                   else b.(assignments := b.assignments - {from.value},
                           controller := ReleaseControl(b.controller, from.value));
      Accept(WithBroadcast(rt, Claimed(freed, session, character)), [])
  }

  function SetController(rt: Runtime, session: string): Change {
    if rt.broadcast.None? || session !in rt.sessions || !Assigned(rt.broadcast.value, session)
       || !Connected(rt.sessions[session]) || rt.broadcast.value.controller == Some(session)
    then Reject([])
    else Accept(WithBroadcast(rt, rt.broadcast.value.(controller := Some(session))), [])
  }

  // ---------------------------------------------------------------- selection by a player

  datatype Selection = Selection(session: string, requestId: string, broadcastId: string, character: string,
                                 fingerprint: string)

  function SelectionFingerprint(s: Selection): string {
    if s.fingerprint != "" then s.fingerprint else Text.Fields(["SelectCharacter", s.broadcastId, s.character])
  }

  function Refusal(rt: Runtime, requestId: string, reason: Reason): ActionResult {
    ActionResult(requestId, false, reason, rt.revision)
  }

  ghost function Choose(rt: Runtime, s: Selection, limit: nat): Reply {
    if s.session !in rt.sessions then Reply(Refusal(rt, s.requestId, InvalidSession), Reject([]))
    else if s.requestId == "" then Reply(Refusal(rt, s.requestId, InvalidAction), Reject([]))
    else if !Connected(rt.sessions[s.session]) then Reply(Refusal(rt, s.requestId, InvalidSession), Reject([]))
    else if s.requestId in rt.sessions[s.session].results then
      var cached := rt.sessions[s.session].results[s.requestId];
      if cached.fingerprint == SelectionFingerprint(s) then Reply(cached.result, Reject([]))
      else Reply(Refusal(rt, s.requestId, Duplicate), Reject([]))
    else if s.character == "" then RefuseSelection(rt, s, InvalidAction, limit)
    else if rt.broadcast.None? || rt.broadcast.value.id != s.broadcastId then
      Reply(Refusal(rt, s.requestId, StaleBroadcast), Reject([]))
    else if s.session in rt.broadcast.value.assignments || s.character !in rt.roster
            || s.character in rt.broadcast.value.claimants then RefuseSelection(rt, s, Conflict, limit)
    else
      var b := Claimed(rt.broadcast.value, s.session, s.character);
      var control := if b.controller.None? then Some(s.session) else b.controller;
      var result := ActionResult(s.requestId, true, AcceptedAction, rt.revision + 1);
      Reply(result, Accept(
        StoreResult(WithBroadcast(rt, b.(controller := control)), s.session, s.requestId,
                    ResultRecord(SelectionFingerprint(s), result), limit), []))
  }

  ghost function RefuseSelection(rt: Runtime, s: Selection, reason: Reason, limit: nat): Reply {
    var result := Refusal(rt, s.requestId, reason);
    Reply(result, Persist(
      StoreResult(rt, s.session, s.requestId, ResultRecord(SelectionFingerprint(s), result), limit), []))
  }
}
