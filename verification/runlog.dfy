/** The retained run log: bounded segments, rotation, and pruning that keeps the
    evidence of the previous run. */
module Retention {
  import opened Domain
  import opened Segments
  import Text

  /** One directory entry; `readable` says whether its details can be obtained. */
  datatype File = File(content: string, regular: bool, readable: bool, modified: int)

  /** How the surroundings answer during one operation: the directory and its listing,
      which removals succeed, the clock, file creation and closing, the mirror, and
      how many bytes of a record the file takes. */
  datatype World = World(
    directory: bool, listable: bool, removable: set<string>, timestamp: string, now: int,
    creatable: bool, closes: bool, mirrors: bool, accepts: nat)

  const DEFAULT_BYTES := 5_242_880
  const DEFAULT_SEGMENTS := 8

  function Owned(disk: map<string, File>): set<string> {
    set n | n in disk && disk[n].regular && disk[n].readable && RunIdOf(n).Some?
  }

  function SegmentOf(disk: map<string, File>, name: string): Segment
    requires name in Owned(disk)
  {
    Segment(name, RunIdOf(name).value, disk[name].modified)
  }

  /** The newest segment any other run left behind. */
  predicate Evidence(disk: map<string, File>, runId: string, name: string) {
    && name in Owned(disk) && RunIdOf(name) != Some(runId)
    && forall other :: other in Owned(disk) && RunIdOf(other) != Some(runId) && other != name ==>
         Older(SegmentOf(disk, other), SegmentOf(disk, name))
  }

  // ---------------------------------------------------------------- listing

  predicate Lists(segments: seq<Segment>, disk: map<string, File>) {
    && (forall s :: s in segments ==> s.name in Owned(disk) && s == SegmentOf(disk, s.name))
    && (forall n :: n in Owned(disk) ==> SegmentOf(disk, n) in segments)
  }

  method ListSegments(disk: map<string, File>) returns (segments: seq<Segment>)
    ensures Lists(segments, disk)
    ensures AllDifferent(segments)
  {
    segments := [];
    var rest := disk.Keys;
    while rest != {}
      invariant rest <= disk.Keys
      invariant forall s :: s in segments ==> s.name in Owned(disk) && s.name !in rest && s == SegmentOf(disk, s.name)
      invariant forall n :: n in Owned(disk) && n !in rest ==> SegmentOf(disk, n) in segments
      invariant AllDifferent(segments)
      decreases rest
    {
      var name :| name in rest;
      rest := rest - {name};
      var runId := ParseOwnedName(name);
      if runId.Some? && disk[name].regular && disk[name].readable {
        assert forall i :: 0 <= i < |segments| ==> segments[i] in segments;
        segments := segments + [Segment(name, runId.value, disk[name].modified)];
      }
    }
  }

  lemma {:induction false} DistinctNames(segments: seq<Segment>)
    requires AllDifferent(segments)
    ensures |Names(segments)| == |segments|
  {
    if segments != [] {
      var last := |segments| - 1;
      DistinctNames(segments[..last]);
      assert segments == segments[..last] + [segments[last]];
      assert Names(segments) == Names(segments[..last]) + {segments[last].name};
      assert segments[last].name !in Names(segments[..last]);
    }
  }

  lemma ListedNames(segments: seq<Segment>, disk: map<string, File>)
    requires Lists(segments, disk) && AllDifferent(segments)
    ensures Names(segments) == Owned(disk) && |Owned(disk)| == |segments|
  {
    forall n | n in Owned(disk) ensures n in Names(segments) {
      assert SegmentOf(disk, n).name == n;
    }
    DistinctNames(segments);
  }

  /** Going back from the newest, the first segment of another run. */
  method NewestPrevious(segments: seq<Segment>, runId: string, ghost disk: map<string, File>)
    returns (name: Option<string>)
    requires OldestFirst(segments) && Lists(segments, disk)
    ensures forall n :: Evidence(disk, runId, n) <==> name == Some(n)
  {
    var index := |segments|;
    while index > 0
      invariant 0 <= index <= |segments|
      invariant forall i :: index <= i < |segments| ==> segments[i].runId == runId
    {
      index := index - 1;
      if segments[index].runId != runId {
        NewestIsEvidence(segments, disk, runId, index);
        return Some(segments[index].name);
      }
    }
    forall n ensures !Evidence(disk, runId, n) {
      if n in Owned(disk) {
        assert SegmentOf(disk, n) in segments;
      }
    }
    return None;
  }

  lemma NewestIsEvidence(segments: seq<Segment>, disk: map<string, File>, runId: string, index: nat)
    requires OldestFirst(segments) && Lists(segments, disk) && index < |segments|
    requires segments[index].runId != runId && forall i :: index < i < |segments| ==> segments[i].runId == runId
    ensures forall n :: Evidence(disk, runId, n) <==> n == segments[index].name
  {
    var newest := segments[index];
    assert newest in segments;
    forall other | other in Owned(disk) && RunIdOf(other) != Some(runId) && other != newest.name
      ensures Older(SegmentOf(disk, other), newest)
    {
      assert SegmentOf(disk, other) in segments;
      var i :| 0 <= i < |segments| && segments[i] == SegmentOf(disk, other);
    }
    forall n | Evidence(disk, runId, n) ensures n == newest.name {
      if n != newest.name {
        OlderIsTotal(SegmentOf(disk, n), newest);
      }
    }
  }

  // ---------------------------------------------------------------- what pruning may do

  predicate IsPrevious(disk: map<string, File>, runId: string, previous: Option<string>) {
    if previous.Some? then Evidence(disk, runId, previous.value) else forall n :: n in disk ==>
        !Evidence(disk, runId, n)
  }

  predicate Protected(name: string, current: Option<string>, previous: Option<string>) {
    current == Some(name) || previous == Some(name)
  }

  /** Only unprotected segments are gone, and none that is newer than one still there. */
  predicate Pruned(before: map<string, File>, after: map<string, File>, current: Option<string>,
                   previous: Option<string>) {
    && (forall n :: n in after ==> n in before && after[n] == before[n])
    && (forall n :: n in before && n !in after ==> n in Owned(before) && !Protected(n, current, previous))
    && (forall n, kept ::
          n in Owned(before) && n !in after && kept in Owned(after) && !Protected(kept, current, previous)
          ==> kept in Owned(before) && Older(SegmentOf(before, n), SegmentOf(before, kept)))
  }

  /** Nothing stands in the way of a new segment of that name. */
  predicate Cooperates(disk: map<string, File>, world: World, name: string) {
    world.directory && world.listable && world.creatable && Owned(disk) <= world.removable && name !in disk
  }

  /** At most one file is written; whatever is gone was a segment, not the evidence, and
      older than every segment still there. */
  predicate WentFirst(before: map<string, File>, after: map<string, File>, written: Option<string>,
                      previous: Option<string>) {
    && (forall n :: n in after && written != Some(n) ==> n in before && after[n] == before[n])
    && (forall n :: n in before && n !in after ==> n in Owned(before) && previous != Some(n))
    && (forall n, kept ::
          n in Owned(before) && n !in after && kept in Owned(before) && kept in after &&
              !Protected(kept, written, previous)
          ==> Older(SegmentOf(before, n), SegmentOf(before, kept)))
  }

  lemma NothingNewIsThere(before: map<string, File>, after: map<string, File>, previous: Option<string>, name: string)
    requires WentFirst(before, after, None, previous)
    ensures name in after ==> name in before
  {
  }

  lemma CreationWentFirst(before: map<string, File>, after: map<string, File>, previous: Option<string>, name: string,
                          file: File)
    requires WentFirst(before, after, None, previous) && name !in after
    ensures WentFirst(before, after[name := file], Some(name), previous)
  {
    hide Evidence, Older, RunIdOf;
    var created := after[name := file];
    assert forall n :: n in created && n != name ==> n in after && created[n] == after[n];
    assert forall n :: n !in created ==> n !in after;
  }

  lemma UntouchedWentFirst(disk: map<string, File>, runId: string, written: Option<string>)
    returns (previous: Option<string>)
    ensures IsPrevious(disk, runId, previous) && WentFirst(disk, disk, written, previous)
  {
    previous := PreviousExists(disk, runId);
  }

  lemma PrunedWentFirst(before: map<string, File>, after: map<string, File>, previous: Option<string>)
    requires Pruned(before, after, None, previous)
    ensures WentFirst(before, after, None, previous)
  {
  }

  lemma WritingWentFirst(before: map<string, File>, after: map<string, File>, name: string, previous: Option<string>,
                         file: File)
    requires WentFirst(before, after, Some(name), previous) && name in after
    ensures WentFirst(before, after[name := file], Some(name), previous)
  {
  }

  lemma PreviousExists(disk: map<string, File>, runId: string) returns (previous: Option<string>)
    ensures IsPrevious(disk, runId, previous) && Pruned(disk, disk, None, previous)
  {
    previous := None;
    if n :| n in disk && Evidence(disk, runId, n) {
      previous := Some(n);
    }
  }

  // ---------------------------------------------------------------- the log

  class RunLog {
    const runId: string
    const maxBytes: nat
    const maxSegments: nat
    const mirrored: bool
    var disk: map<string, File>
    var current: Option<string>
    var open: bool
    var segment: nat
    var size: nat
    var warned: bool
    var closed: bool
    // The segments this run created.
    ghost var mine: set<string>

    /** Every segment of this run stays within the limit, and while one is open its
        length is the one accounted for. */
    ghost predicate Valid()
      reads this
    {
      && runId != "" && maxBytes >= 1 && maxSegments >= 2
      && (forall n :: n in mine ==> RunIdOf(n) == Some(runId) && (n in disk ==> |disk[n].content| <= maxBytes))
      && (open ==>
            current.Some? && current.value in mine && current.value in disk && |disk[current.value].content| == size)
    }

    /** Nothing is lost that a previous run left as its newest segment. */
    twostate predicate KeepsEvidence()
      reads this
    {
      forall n :: old(Evidence(disk, runId, n)) ==> Evidence(disk, runId, n) && disk[n] == old(disk)[n]
    }

    /** At most the allowed number of segments, or no more than there were. */
    twostate predicate Bounded()
      reads this
    {
      |Owned(disk)| <= maxSegments || Owned(disk) <= old(Owned(disk))
    }

    // ---------------------------------------------------------------- pruning

    /** Removes the oldest segments first until `limit` are left and no more than that,
        sparing the current one and the evidence; a failed removal ends it early. */
    method Prune(limit: nat, world: World) returns (ok: bool)
      modifies this`disk
      ensures exists previous :: IsPrevious(old(disk), runId, previous) && Pruned(old(disk), disk, current, previous)
      ensures ok && current.None? && limit >= 1 ==> |Owned(disk)| <= limit
      ensures disk == old(disk) || |Owned(disk)| >= limit
      ensures world.listable && Owned(old(disk)) <= world.removable ==> ok
    {
      if !world.listable {
        ghost var none := PreviousExists(disk, runId);
        return false;
      }
      var listed := ListSegments(disk);
      var segments := SortSegments(listed);
      var previous := NewestPrevious(segments, runId, disk);
      ok := RemoveOldest(limit, segments, previous, world.removable);
    }

    method RemoveOldest(limit: nat, listed: seq<Segment>, previous: Option<string>, removable: set<string>)
      returns (ok: bool)
      requires Lists(listed, disk) && OldestFirst(listed) && AllDifferent(listed)
      modifies this`disk
      ensures Pruned(old(disk), disk, current, previous)
      ensures ok && current.None? && limit >= 1 ==> |Owned(disk)| <= limit
      ensures disk == old(disk) || |Owned(disk)| >= limit
      ensures Owned(old(disk)) <= removable ==> ok
    {
      ghost var before := disk;
      var segments := listed;
      while |segments| > limit
        invariant Lists(segments, disk) && OldestFirst(segments) && AllDifferent(segments)
        invariant Pruned(before, disk, current, previous)
        invariant disk == before || |Owned(disk)| >= limit
        decreases |segments|
      {
        var index := FirstUnprotected(segments, current, previous);
        if index < 0 {
          OnlyOneProtected(segments, current, previous);
          break;
        }
        var oldest := segments[index];
        assert oldest in segments && oldest.name in Owned(before);
        if oldest.name !in removable {
          return false;
        }
        RemovalPrunes(before, segments, disk, current, previous, index);
        RemovalIsListed(segments, disk, index);
        RemovalKeepsOrder(segments, index);
        disk := disk - {oldest.name};
        segments := segments[..index] + segments[index + 1..];
        ListedNames(segments, disk);
      }
      ListedNames(segments, disk);
      return true;
    }

    // ---------------------------------------------------------------- segments

    method MakeRoom(world: World) returns (ok: bool)
      requires Valid() && !open && current.None?
      modifies this`disk
      ensures Valid() && KeepsEvidence() && Owned(disk) <= old(Owned(disk))
      ensures ok ==> |Owned(disk)| == Smaller(old(|Owned(disk)|), maxSegments - 1)
      ensures world.listable && Owned(old(disk)) <= world.removable ==> ok
      ensures exists previous :: IsPrevious(old(disk), runId, previous) && WentFirst(old(disk), disk, None, previous)
    {
      ok := Prune(maxSegments - 1, world);
      ghost var previous :| IsPrevious(old(disk), runId, previous) && Pruned(old(disk), disk, current, previous);
      PruningKeepsEvidence(old(disk), disk, runId, current, previous);
      PrunedWentFirst(old(disk), disk, previous);
      FewerOrAsMany(Owned(disk), old(Owned(disk)));
    }

    method CreateSegment(name: string, now: int)
      requires Valid() && !open && RunIdOf(name) == Some(runId) && name !in disk
      modifies this`disk, this`open, this`current, this`size, this`mine
      ensures Valid() && KeepsEvidence() && open && current == Some(name) && size == 0
      ensures |Owned(disk)| == |old(Owned(disk))| + 1 && disk == old(disk)[name := File("", true, true, now)]
    {
      CreatingKeepsEvidence(disk, runId, name, now);
      disk := disk[name := File("", true, true, now)];
      current, open, size := Some(name), true, 0;
      mine := mine + {name};
    }

    /** Room is made before a segment is created, so a successful open leaves one more
        than there were, and never more than the allowed number. */
    method OpenSegment(world: World) returns (ok: bool)
      requires Valid() && !open && current.None? && Timestamp(world.timestamp)
      modifies this`disk, this`open, this`current, this`size, this`mine
      ensures Valid() && KeepsEvidence() && Bounded() && open == ok
      ensures ok ==> current.Some? && size == 0 && |Owned(disk)| == Smaller(old(|Owned(disk)|) + 1, maxSegments)
      ensures !ok ==> current.None?
      ensures ok ==> current.value == SegmentName(world.timestamp, runId, segment) && disk[current.value].content == ""
      ensures Cooperates(old(disk), world, SegmentName(world.timestamp, runId, segment)) ==> ok
      ensures exists previous :: IsPrevious(old(disk), runId, previous) && WentFirst(old(disk), disk, current, previous)
    {
      hide Evidence, WentFirst, IsPrevious, Owned;
      if !world.directory {
        ghost var _ := UntouchedWentFirst(disk, runId, None);
        return false;
      }
      ok := MakeRoom(world);
      ghost var previous :| IsPrevious(old(disk), runId, previous) && WentFirst(old(disk), disk, None, previous);
      var name := SegmentName(world.timestamp, runId, segment);
      NothingNewIsThere(old(disk), disk, previous, name);
      if !ok || name in disk || !world.creatable {
        return false;
      }
      NameTellsRun(world.timestamp, runId, segment);
      CreationWentFirst(old(disk), disk, previous, name, File("", true, true, world.now));
      CreateSegment(name, world.now);
    }

    // ---------------------------------------------------------------- writing

    constructor (freshId: string, runId: string, maxBytes: int, maxSegments: int, mirrored: bool,
                 disk: map<string, File>, world: World)
      requires freshId != "" && Timestamp(world.timestamp)
      ensures Valid() && !closed
      ensures this.runId == (if runId == "" then freshId else runId) && this.mirrored == mirrored
      ensures this.maxBytes == (if maxBytes <= 0 then DEFAULT_BYTES else maxBytes)
      ensures this.maxSegments == (if maxSegments <= 0 then DEFAULT_SEGMENTS else if maxSegments < 2 then 2
                                   else maxSegments)
      ensures open ==> |Owned(this.disk)| <= this.maxSegments
      ensures Cooperates(disk, world, SegmentName(world.timestamp, this.runId, 0)) ==> open
      ensures forall n :: Evidence(disk, this.runId, n) ==>
              Evidence(this.disk, this.runId, n) && this.disk[n] == disk[n]
      ensures warned == (!open && mirrored)
    {
      hide Evidence, Owned, WentFirst, IsPrevious, Cooperates;
      this.runId := if runId == "" then freshId else runId;
      this.maxBytes := if maxBytes <= 0 then DEFAULT_BYTES else maxBytes;
      this.maxSegments := if maxSegments <= 0 then DEFAULT_SEGMENTS else if maxSegments < 2 then 2 else maxSegments;
      this.mirrored, this.disk := mirrored, disk;
      current, open, segment, size, warned, closed, mine := None, false, 0, 0, false, false, {};
      new;
      var ok := OpenSegment(world);
      if !ok {
        warned := mirrored;
      }
    }

    /** Gives up retention; the warning is mirrored once. */
    method Degrade()
      requires Valid()
      modifies this`open, this`current, this`warned
      ensures Valid() && !open && current.None?
      ensures warned == (old(warned) || mirrored)
    {
      open, current := false, None;
      if !warned && mirrored {
        warned := true;
      }
    }

    method Rotate(world: World) returns (ok: bool)
      requires Valid() && open && Timestamp(world.timestamp)
      modifies this`disk, this`open, this`current, this`size, this`mine, this`segment
      ensures Valid() && KeepsEvidence() && Bounded()
      ensures ok ==> open && size == 0 && |Owned(disk)| == Smaller(old(|Owned(disk)|) + 1, maxSegments)
      ensures ok ==> current == Some(SegmentName(world.timestamp, runId, old(segment) + 1))
      ensures ok ==> disk[current.value].content == ""
      ensures ok ==> segment == old(segment) + 1
      ensures world.closes && Cooperates(old(disk), world, SegmentName(world.timestamp, runId, old(segment) + 1)) ==> ok
      ensures exists previous, written ::
                IsPrevious(old(disk), runId, previous) && WentFirst(old(disk), disk, written, previous)
                && (ok ==> current == written)
    {
      hide Evidence, WentFirst, IsPrevious, Owned;
      if !world.closes {
        ghost var _ := UntouchedWentFirst(disk, runId, None);
        return false;
      }
      open, current := false, None;
      segment := segment + 1;
      ok := OpenSegment(world);
    }

    method Append(bytes: string, now: int)
      requires Valid() && open && size + |bytes| <= maxBytes
      modifies this`disk, this`size
      ensures Valid() && KeepsEvidence() && Owned(disk) == old(Owned(disk)) && size == old(size) + |bytes|
      ensures disk[current.value].content == old(disk)[current.value].content + bytes
      ensures disk == old(disk)[current.value := disk[current.value]]
    {
      var file := disk[current.value];
      WritingKeepsEvidence(disk, runId, current.value, file.(content := file.content + bytes, modified := now));
      disk := disk[current.value := file.(content := file.content + bytes, modified := now)];
      size := size + |bytes|;
    }

    // A record that would take the open segment past the limit needs a new one.
    predicate NeedsRoom(record: string)
      reads this
    {
      size > 0 && size + |record| > maxBytes
    }

    /** Every record goes to the mirror; it is retained only whole, inside one segment
        that stays within the limit. Whatever fails, evidence is kept and the number of
        segments stays bounded; and as long as nothing fails, the record is retained. */
    method Write(record: string, world: World) returns (written: nat, ok: bool)
      requires Valid() && Timestamp(world.timestamp)
      modifies this
      ensures Valid() && KeepsEvidence() && Bounded() && closed == old(closed)
      ensures old(closed) ==> !ok && written == 0 && disk == old(disk)
      ensures ok ==> written == |record|
      ensures !closed ==> (ok <==> (!mirrored || world.mirrors) || (old(open) && open && |record| <= maxBytes))
      ensures old(closed) || !old(open) || |record| > maxBytes ==>
                disk == old(disk) && open == old(open) && current == old(current) && warned == old(warned)
      ensures !closed && open && |record| <= maxBytes ==>
                && old(open)
                && if old(NeedsRoom(record)) then
                     && current == Some(SegmentName(world.timestamp, runId, old(segment) + 1))
                     && disk[current.value].content == record
                     && |Owned(disk)| == Smaller(old(|Owned(disk)|) + 1, maxSegments)
                   else
                     && current == old(current) && Owned(disk) == old(Owned(disk))
                     && disk[current.value].content == old(disk[current.value].content) + record
      ensures !closed && old(open) && |record| <= maxBytes && world.accepts >= |record|
              && (old(NeedsRoom(record)) ==>
                    world.closes && Cooperates(old(disk), world, SegmentName(world.timestamp, runId, old(segment) + 1)))
              ==> open
      ensures warned == (old(warned) || (mirrored && old(open) && !open))
      ensures exists previous, file ::
                IsPrevious(old(disk), runId, previous) && WentFirst(old(disk), disk, file, previous)
                && (open ==> file == current)
    {
      hide Evidence, WentFirst, IsPrevious, Owned, Cooperates;
      ghost var _ := UntouchedWentFirst(disk, runId, current);
      if closed {
        return 0, false;
      }
      var mirroredOk := !mirrored || world.mirrors;
      if !open || |record| > maxBytes {
        return if mirroredOk then |record| else 0, mirroredOk;
      }
      written, ok := Keep(record, world);
      if mirroredOk {
        written, ok := |record|, true;
      }
    }

    /** The record goes to the open segment, after a rotation if it would not fit. */
    method Keep(record: string, world: World) returns (written: nat, ok: bool)
      requires Valid() && open && |record| <= maxBytes && Timestamp(world.timestamp)
      modifies this`disk, this`open, this`current, this`size, this`mine, this`segment, this`warned
      ensures Valid() && KeepsEvidence() && Bounded()
      ensures (ok <==> open) && (ok ==> written == |record|)
      ensures open ==>
                if old(NeedsRoom(record)) then
                  && current == Some(SegmentName(world.timestamp, runId, old(segment) + 1))
                  && disk[current.value].content == record
                  && |Owned(disk)| == Smaller(old(|Owned(disk)|) + 1, maxSegments)
                else
                  && current == old(current) && Owned(disk) == old(Owned(disk))
                  && disk[current.value].content == old(disk[current.value].content) + record
      ensures world.accepts >= |record|
              && (old(NeedsRoom(record)) ==>
                    world.closes && Cooperates(old(disk), world, SegmentName(world.timestamp, runId, old(segment) + 1)))
              ==> open
      ensures warned == (old(warned) || (mirrored && !open))
      ensures exists previous, file ::
                IsPrevious(old(disk), runId, previous) && WentFirst(old(disk), disk, file, previous)
                && (open ==> file == current)
    {
      hide Evidence, WentFirst, IsPrevious, Owned, Cooperates;
      ghost var previous := UntouchedWentFirst(disk, runId, current);
      if NeedsRoom(record) {
        var rotated := Rotate(world);
        if !rotated {
          Degrade();
          return 0, false;
        }
        previous :| IsPrevious(old(disk), runId, previous) && WentFirst(old(disk), disk, current, previous);
      }
      ghost var before, name := disk, current.value;
      written, ok := Retain(record, world);
      WritingWentFirst(old(disk), before, name, previous, disk[name]);
    }

    method Retain(record: string, world: World) returns (written: nat, ok: bool)
      requires Valid() && open && size + |record| <= maxBytes
      modifies this`disk, this`size, this`open, this`current, this`warned
      ensures Valid() && KeepsEvidence() && Owned(disk) == old(Owned(disk))
      ensures old(current).value in disk && disk == old(disk)[old(current).value := disk[old(current).value]]
      ensures ok <==> open && written == |record|
      ensures world.accepts >= |record| ==> ok
      ensures open ==> current == old(current)
      ensures warned == (old(warned) || (mirrored && !open))
      ensures ok ==> current == old(current) && disk[current.value].content == old(disk[current.value].content) + record
      ensures open ==> ok
    {
      written := if world.accepts < |record| then world.accepts else |record|;
      Append(record[..written], world.now);
      ok := written == |record|;
      if !ok {
        Degrade();
      } else {
        assert record[..written] == record;
      }
    }

    /** Closing again is harmless; only the first close can report the file's failure. */
    method Close(closes: bool) returns (ok: bool)
      requires Valid()
      modifies this`closed, this`open
      ensures Valid() && closed && disk == old(disk) && open == (old(open) && old(closed))
      ensures ok <==> old(closed) || !old(open) || closes
    {
      if closed {
        return true;
      }
      ok := !open || closes;
      closed, open := true, false;
    }
  }

  /** Over any number of writes from any directory, whatever fails on the way: the
      evidence of the previous run stays as it was, and there are never more segments
      than the allowed number or, if there were more to begin with, than at the start. */
  method WriteAll(log: RunLog, records: seq<string>, worlds: seq<World>)
    requires log.Valid() && |records| == |worlds| && forall i :: 0 <= i < |worlds| ==> Timestamp(worlds[i].timestamp)
    modifies log
    ensures log.Valid() && |Owned(log.disk)| <= Larger(old(|Owned(log.disk)|), log.maxSegments)
    ensures forall n :: old(Evidence(log.disk, log.runId, n)) ==>
              Evidence(log.disk, log.runId, n) && log.disk[n] == old(log.disk)[n]
  {
    ghost var disk := log.disk;
    for i := 0 to |records|
      invariant log.Valid() && |Owned(log.disk)| <= Larger(|Owned(disk)|, log.maxSegments)
      invariant forall n :: Evidence(disk, log.runId, n) ==> Evidence(log.disk, log.runId, n) && log.disk[n] == disk[n]
    {
      ghost var owned := Owned(log.disk);
      var _, _ := log.Write(records[i], worlds[i]);
      if Owned(log.disk) <= owned {
        FewerOrAsMany(Owned(log.disk), owned);
      }
    }
  }

  function Larger(a: nat, b: nat): nat {
    if a < b then b else a
  }

  function Smaller(a: nat, b: nat): nat {
    if a < b then a else b
  }

  lemma FewerOrAsMany(part: set<string>, whole: set<string>)
    requires part <= whole
    ensures |part| <= |whole|
  {
    assert whole == part + (whole - part);
  }

  // ---------------------------------------------------------------- facts about pruning

  /** The oldest segment that may go. */
  method FirstUnprotected(segments: seq<Segment>, current: Option<string>, previous: Option<string>)
    returns (index: int)
    ensures -1 <= index < |segments|
    ensures index >= 0 ==> !Protected(segments[index].name, current, previous)
    ensures forall i :: 0 <= i < (if index < 0 then |segments| else index) ==>
            Protected(segments[i].name, current, previous)
  {
    for i := 0 to |segments|
      invariant forall k :: 0 <= k < i ==> Protected(segments[k].name, current, previous)
    {
      if current != Some(segments[i].name) && previous != Some(segments[i].name) {
        return i;
      }
    }
    return -1;
  }

  lemma OnlyOneProtected(segments: seq<Segment>, current: Option<string>, previous: Option<string>)
    requires AllDifferent(segments) && forall i :: 0 <= i < |segments| ==>
             Protected(segments[i].name, current, previous)
    ensures |segments| > 1 ==> current.Some?
  {
    if |segments| > 1 {
      assert Protected(segments[0].name, current, previous) && Protected(segments[1].name, current, previous);
    }
  }

  lemma ListedAt(segments: seq<Segment>, disk: map<string, File>, name: string) returns (index: nat)
    requires Lists(segments, disk) && name in Owned(disk)
    ensures index < |segments| && segments[index] == SegmentOf(disk, name)
  {
    assert SegmentOf(disk, name) in segments;
    index :| 0 <= index < |segments| && segments[index] == SegmentOf(disk, name);
  }

  lemma OldestUnprotected(segments: seq<Segment>, disk: map<string, File>, current: Option<string>,
                          previous: Option<string>,
                          index: nat, kept: string)
    requires Lists(segments, disk) && OldestFirst(segments) && index < |segments|
    requires forall i :: 0 <= i < index ==> Protected(segments[i].name, current, previous)
    requires kept in Owned(disk) && kept != segments[index].name && !Protected(kept, current, previous)
    ensures Older(segments[index], SegmentOf(disk, kept))
  {
    var i := ListedAt(segments, disk, kept);
    assert i > index;
  }

  lemma RemovalPrunes(before: map<string, File>, segments: seq<Segment>, disk: map<string, File>,
                      current: Option<string>, previous: Option<string>, index: nat)
    requires Pruned(before, disk, current, previous) && Lists(segments, disk) && OldestFirst(segments)
    requires index < |segments| && !Protected(segments[index].name, current, previous)
    requires forall i :: 0 <= i < index ==> Protected(segments[i].name, current, previous)
    ensures Pruned(before, disk - {segments[index].name}, current, previous)
  {
    var oldest := segments[index];
    var after := disk - {oldest.name};
    assert oldest in segments;
    forall kept | kept in Owned(after) && !Protected(kept, current, previous)
      ensures kept in Owned(before) && Older(SegmentOf(before, oldest.name), SegmentOf(before, kept))
    {
      OldestUnprotected(segments, disk, current, previous, index, kept);
    }
  }

  lemma RemovalKeepsOrder(segments: seq<Segment>, index: nat)
    requires AllDifferent(segments) && OldestFirst(segments) && index < |segments|
    ensures var shorter := segments[..index] + segments[index + 1..];
            AllDifferent(shorter) && OldestFirst(shorter)
  {
  }

  lemma RemovalMembers(segments: seq<Segment>, index: nat, s: Segment)
    requires AllDifferent(segments) && index < |segments|
    ensures s in segments[..index] + segments[index + 1..] <==> s in segments && s.name != segments[index].name
  {
    var shorter := segments[..index] + segments[index + 1..];
    if s in shorter {
      var i :| 0 <= i < |shorter| && shorter[i] == s;
      var k := if i < index then i else i + 1;
      assert s == segments[k];
      if k < index {
        assert segments[k].name != segments[index].name;
      } else {
        assert segments[index].name != segments[k].name;
      }
    }
    if s in segments && s.name != segments[index].name {
      var i :| 0 <= i < |segments| && segments[i] == s;
      assert s == if i < index then shorter[i] else shorter[i - 1];
    }
  }

  lemma RemovalIsListed(segments: seq<Segment>, disk: map<string, File>, index: nat)
    requires Lists(segments, disk) && AllDifferent(segments) && index < |segments|
    ensures Lists(segments[..index] + segments[index + 1..], disk - {segments[index].name})
  {
    var shorter := segments[..index] + segments[index + 1..];
    var after := disk - {segments[index].name};
    forall s | s in shorter ensures s.name in Owned(after) && s == SegmentOf(after, s.name) {
      RemovalMembers(segments, index, s);
    }
    forall n | n in Owned(after) ensures SegmentOf(after, n) in shorter {
      assert SegmentOf(after, n) == SegmentOf(disk, n);
      RemovalMembers(segments, index, SegmentOf(disk, n));
    }
  }

  lemma PruningKeepsEvidence(before: map<string, File>, after: map<string, File>, runId: string,
                             current: Option<string>, previous: Option<string>)
    requires IsPrevious(before, runId, previous) && Pruned(before, after, current, previous)
    ensures forall n :: Evidence(before, runId, n) ==> Evidence(after, runId, n) && after[n] == before[n]
    ensures Owned(after) <= Owned(before)
  {
    forall n | Evidence(before, runId, n) ensures Evidence(after, runId, n) && after[n] == before[n] {
      OnlyEvidence(before, runId, n, previous);
      forall other | other in Owned(after) && RunIdOf(other) != Some(runId) && other != n
        ensures Older(SegmentOf(after, other), SegmentOf(after, n))
      {
        assert SegmentOf(after, other) == SegmentOf(before, other);
      }
    }
  }

  lemma OnlyEvidence(disk: map<string, File>, runId: string, name: string, previous: Option<string>)
    requires Evidence(disk, runId, name) && IsPrevious(disk, runId, previous)
    ensures previous == Some(name)
  {
    if previous.Some? && previous.value != name {
      OlderIsTotal(SegmentOf(disk, name), SegmentOf(disk, previous.value));
    }
  }

  lemma CreatingKeepsEvidence(disk: map<string, File>, runId: string, name: string, now: int)
    requires name !in disk && RunIdOf(name) == Some(runId)
    ensures var after := disk[name := File("", true, true, now)];
            && (forall n :: Evidence(disk, runId, n) ==> Evidence(after, runId, n) && after[n] == disk[n])
            && |Owned(after)| == |Owned(disk)| + 1
  {
    var after := disk[name := File("", true, true, now)];
    assert Owned(after) == Owned(disk) + {name};
    forall n | Evidence(disk, runId, n) ensures Evidence(after, runId, n) && after[n] == disk[n] {
      forall other | other in Owned(after) && RunIdOf(other) != Some(runId) && other != n
        ensures Older(SegmentOf(after, other), SegmentOf(after, n))
      {
        assert SegmentOf(after, other) == SegmentOf(disk, other);
      }
    }
  }

  lemma WritingKeepsEvidence(disk: map<string, File>, runId: string, name: string, file: File)
    requires name in disk && RunIdOf(name) == Some(runId)
    requires file.regular == disk[name].regular && file.readable == disk[name].readable
    ensures var after := disk[name := file];
            && (forall n :: Evidence(disk, runId, n) ==> Evidence(after, runId, n) && after[n] == disk[n])
            && Owned(after) == Owned(disk)
  {
    var after := disk[name := file];
    forall n | Evidence(disk, runId, n) ensures Evidence(after, runId, n) && after[n] == disk[n] {
      forall other | other in Owned(after) && RunIdOf(other) != Some(runId) && other != n
        ensures Older(SegmentOf(after, other), SegmentOf(after, n))
      {
        assert SegmentOf(after, other) == SegmentOf(disk, other);
      }
    }
  }
}
