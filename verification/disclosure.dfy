/** What the published updates tell a session, and what they never can. */
module Disclosure {
  import opened Domain
  import opened State
  import opened Invariants
  import opened Views
  import opened Dispatch
  import opened Ownership
  import opened PuzzlePlay
  import Puzzles
  import Text

  // ---------------------------------------------------------------- puzzles

  /** A puzzle without its private parts: the secret and what each candidate spells. */
  function MaskedTerminal(t: Terminal): Terminal {
    if t.hack.None? then t else t.(hack := Some(t.hack.value.(secret := "", words := map[])))
  }

  function MaskedBroadcast(b: Broadcast): Broadcast {
    b.(terminals := map id | id in b.terminals :: MaskedTerminal(b.terminals[id]))
  }

  function Masked(rt: Runtime): Runtime {
    if rt.broadcast.None? then rt else rt.(broadcast := Some(MaskedBroadcast(rt.broadcast.value)))
  }

  // Of a broadcast the roster view reads the claims alone.
  lemma {:induction false} RosterReadsClaims(roster: map<string, Character>, left: Option<Broadcast>,
                                             right: Option<Broadcast>, ids: seq<string>)
    requires left.Some? && right.Some? && left.value.claimants == right.value.claimants
    ensures RosterView(roster, left, ids) == RosterView(roster, right, ids)
  {
    if ids != [] {
      RosterReadsClaims(roster, left, right, ids[1..]);
    }
  }

  lemma MaskedTerminalShows(rt: Runtime)
    ensures ShownTerminal(Masked(rt)) == ShownTerminal(rt)
  {
  }

  lemma MaskedPlayerSees(rt: Runtime, session: string)
    requires session in rt.sessions
    ensures PlayerView(Masked(rt), session) == PlayerView(rt, session)
  {
    hide Project;
    if rt.broadcast.Some? {
      RosterReadsClaims(rt.roster, Masked(rt).broadcast, rt.broadcast, Views.RosterIds(rt.roster, rt.rosterOrder));
    }
  }

  lemma MaskedShowsTheSame(rt: Runtime, session: string)
    requires session in rt.sessions
    ensures CompoundUpdate(Masked(rt), session) == CompoundUpdate(rt, session)
  {
    hide ShownTerminal, PlayerView;
    MaskedTerminalShows(rt);
    MaskedPlayerSees(rt, session);
  }

  /** The private parts of a puzzle reach a session only through what its board, its
      log and its counters already show: aggregates that agree on those publish the
      same updates. */
  lemma BoardsSpeakForPuzzles(rt: Runtime, other: Runtime, session: string)
    requires Masked(rt) == Masked(other) && session in rt.sessions
    ensures session in other.sessions && CompoundUpdate(rt, session) == CompoundUpdate(other, session)
  {
    assert rt.sessions == Masked(rt).sessions == other.sessions;
    MaskedShowsTheSame(rt, session);
    MaskedShowsTheSame(other, session);
  }

  function MoveOf(c: PlayerCommand, rules: Rules): Move
    requires ParseKind(c.kind) == CommandKind.Guess || ParseKind(c.kind) == ActivatePattern
  {
    if ParseKind(c.kind) == CommandKind.Guess then Move.Guess(c.targetId) else Activate(c.patternId, rules.roll)
  }

  /** And what they show after one more move is exactly the answer to it: two terminals
      that differ in the secret alone look alike to the players after a guess or a
      pattern if and only if both puzzles answer it alike. */
  lemma PlayTellsExactlyTheAnswer(t: Terminal, u: Terminal, c: PlayerCommand, rules: Rules,
                                  navigation: Option<NavigationView>)
    requires ParseKind(c.kind) == CommandKind.Guess || ParseKind(c.kind) == ActivatePattern
    requires t.hack.Some? && u.hack.Some? && t.(hack := u.hack) == u && Twins(t.hack.value, u.hack.value)
    requires Play(t, c, rules).Some? && Play(u, c, rules).Some?
    ensures Project(Play(t, c, rules).value, navigation) == Project(Play(u, c, rules).value, navigation)
            <==> AnswerTo(t.hack.value, MoveOf(c, rules)) == AnswerTo(u.hack.value, MoveOf(c, rules))
  {
    BoardTellsExactlyTheAnswers(t.hack.value, u.hack.value, MoveOf(c, rules));
  }

  /** A session that plays nobody learns nothing about any terminal's content. */
  lemma SpectatorsSeeNoTerminal(rt: Runtime, session: string, terminals: map<string, Terminal>, limit: nat)
    requires Inv(rt, limit) && rt.broadcast.Some? && session in rt.sessions
    requires forall claim :: claim in ClaimsOf(rt) ==> claim.session != session
    ensures CompoundUpdate(rt, session).terminal == None
    ensures CompoundUpdate(rt.(broadcast := Some(rt.broadcast.value.(terminals := terminals))), session) ==
            CompoundUpdate(rt, session)
  {
    var b := rt.broadcast.value;
    forall s | s in b.assignments ensures Claim(s, b.assignments[s]) in ClaimsOf(rt) {
    }
    assert forall c :: c in b.claimants ==> b.claimants[c] != session;
    var changed := rt.(broadcast := Some(b.(terminals := terminals)));
    RosterReadsClaims(rt.roster, changed.broadcast, rt.broadcast, Views.RosterIds(rt.roster, rt.rosterOrder));
    assert PlayerView(changed, session) == PlayerView(rt, session);
  }

  /** At most one session is told that it controls the broadcast, and it plays somebody. */
  lemma OneSessionControls(rt: Runtime, left: string, right: string, limit: nat)
    requires Inv(rt, limit) && left in rt.sessions && right in rt.sessions
    requires CompoundUpdate(rt, left).player.role == ActiveRole && CompoundUpdate(rt, right).player.role == ActiveRole
    ensures left == right && CompoundUpdate(rt, left).terminal.Some? && CompoundUpdate(rt, left).player.character.Some?
  {
  }

  // ---------------------------------------------------------------- the roster

  predicate Distinct(ids: seq<string>) {
    forall i, k :: 0 <= i < k < |ids| ==> ids[i] != ids[k]
  }

  lemma {:induction false} OrderedIsDistinct(order: seq<string>, known: set<string>)
    ensures Distinct(Ordered(order, known))
    ensures forall id :: id in Ordered(order, known) <==> id in order && id in known
  {
    if order != [] {
      assert forall id :: id in order <==> id == order[0] || id in order[1..];
      if order[0] in known {
        OrderedIsDistinct(order[1..], known - {order[0]});
      } else {
        OrderedIsDistinct(order[1..], known);
      }
    }
  }

  lemma {:induction false} SortedIsDistinct(ids: set<string>)
    ensures Distinct(Sorted(ids)) && forall id :: id in Sorted(ids) <==> id in ids
  {
    if ids != {} {
      var rest := Sorted(ids - {Text.Least(ids)});
      SortedIsDistinct(ids - {Text.Least(ids)});
      assert Sorted(ids) == [Text.Least(ids)] + rest;
      assert forall i :: 0 <= i < |rest| ==> rest[i] in rest;
    }
  }

  lemma JoinIsDistinct(left: seq<string>, right: seq<string>)
    requires Distinct(left) && Distinct(right) && forall id :: id in left ==> id !in right
    ensures Distinct(left + right)
  {
    forall i, k | 0 <= i < k < |left + right| ensures (left + right)[i] != (left + right)[k] {
      if i < |left| <= k {
        assert left[i] in left && right[k - |left|] in right;
      }
    }
  }

  lemma RosterIdsAreTheRoster(roster: map<string, Character>, order: seq<string>)
    ensures var ids := Views.RosterIds(roster, order);
            Distinct(ids) && forall id :: id in ids <==> id in roster
  {
    OrderedIsDistinct(order, roster.Keys);
    SortedIsDistinct(roster.Keys - Elements(order));
    JoinIsDistinct(Ordered(order, roster.Keys), Sorted(roster.Keys - Elements(order)));
    assert forall id :: id in Elements(order) <==> id in order;
  }

  lemma {:induction false} ViewFollowsIds(roster: map<string, Character>, broadcast: Option<Broadcast>,
                                          ids: seq<string>)
    requires RosterOk(roster) && forall id :: id in ids ==> id in roster
    ensures var view := RosterView(roster, broadcast, ids);
            |view| == |ids| && forall i :: 0 <= i < |ids| ==>
              view[i] == RosterEntry(ids[i], roster[ids[i]].name, broadcast.Some? &&
                                     ids[i] in broadcast.value.claimants)
  {
    if ids != [] {
      ViewFollowsIds(roster, broadcast, ids[1..]);
    }
  }

  lemma ClaimedIff(rt: Runtime, character: string, limit: nat)
    requires Inv(rt, limit)
    ensures (rt.broadcast.Some? && character in rt.broadcast.value.claimants)
            <==> exists claim :: claim in ClaimsOf(rt) && claim.character == character
  {
    if rt.broadcast.Some? && character in rt.broadcast.value.claimants {
      assert Claim(rt.broadcast.value.claimants[character], character) in ClaimsOf(rt);
    }
  }

  // A view that names each of the roster's characters once, and says who is claimed.
  ghost predicate ShowsRoster(rt: Runtime, view: seq<RosterEntry>) {
    && (forall i, k :: 0 <= i < k < |view| ==> view[i].id != view[k].id)
    && (forall id :: id in rt.roster <==> exists entry :: entry in view && entry.id == id)
    && (forall entry :: entry in view ==> EntryTrue(rt, entry))
  }

  predicate EntryTrue(rt: Runtime, entry: RosterEntry) {
    && entry.id in rt.roster && entry.name == rt.roster[entry.id].name
    && (entry.claimed <==> exists claim :: claim in ClaimsOf(rt) && claim.character == entry.id)
  }

  lemma EntriesAreTrue(rt: Runtime, view: seq<RosterEntry>, ids: seq<string>, limit: nat)
    requires Inv(rt, limit) && |view| == |ids| && forall id :: id in ids ==> id in rt.roster
    requires forall i :: 0 <= i < |ids| ==>
      view[i] == RosterEntry(ids[i], rt.roster[ids[i]].name, rt.broadcast.Some? &&
                             ids[i] in rt.broadcast.value.claimants)
    ensures forall entry :: entry in view ==> EntryTrue(rt, entry)
  {
    forall entry | entry in view ensures EntryTrue(rt, entry) {
      ClaimedIff(rt, entry.id, limit);
    }
  }

  lemma EveryoneIsNamed(rt: Runtime, view: seq<RosterEntry>, ids: seq<string>)
    requires |view| == |ids| && (forall id :: id in ids <==> id in rt.roster)
    requires forall i :: 0 <= i < |ids| ==> view[i].id == ids[i]
    ensures forall id :: id in rt.roster <==> exists entry :: entry in view && entry.id == id
  {
    forall id | id in rt.roster ensures exists entry :: entry in view && entry.id == id {
      var i :| 0 <= i < |ids| && ids[i] == id;
      assert view[i] in view;
    }
  }

  /** Every session is shown the whole roster, each character once under its own name,
      and as claimed exactly when some session plays it; whatever order is stored. */
  lemma RosterIsShownWhole(rt: Runtime, session: string, limit: nat)
    requires Inv(rt, limit) && session in rt.sessions
    ensures ShowsRoster(rt, CompoundUpdate(rt, session).player.roster)
  {
    var ids := Views.RosterIds(rt.roster, rt.rosterOrder);
    var view := CompoundUpdate(rt, session).player.roster;
    RosterIdsAreTheRoster(rt.roster, rt.rosterOrder);
    ViewFollowsIds(rt.roster, rt.broadcast, ids);
    EveryoneIsNamed(rt, view, ids);
    EntriesAreTrue(rt, view, ids, limit);
  }
}
