/** Approval notifications: several goroutines share one entry and one native notifier,
    each under its own lock. Every interleaving is a run of the machine below. */
module Notifications {
  import opened Domain
  import State
  import Invariants
  import Text

  // ---------------------------------------------------------------- requests

  datatype Kind = CommandExecution | TerminalNavigation

  datatype Request = Request(kind: Kind, requestId: string)

  function KindText(kind: Kind): string {
    if kind == CommandExecution then "command-execution" else "terminal-navigation"
  }

  const ID_PREFIX := "fallout-terminal.command-approval:"

  function NotificationId(launch: string, request: Request): string {
    ID_PREFIX + launch + ":" + KindText(request.kind) + ":" + request.requestId
  }

  /** Within one launch a notification identifies its request. */
  lemma IdIdentifiesRequest(launch: string, left: Request, right: Request)
    requires NotificationId(launch, left) == NotificationId(launch, right)
    ensures left == right
  {
    var start := ID_PREFIX + launch + ":";
    var l, r := KindText(left.kind) + ":" + left.requestId, KindText(right.kind) + ":" + right.requestId;
    assert NotificationId(launch, left) == start + l && NotificationId(launch, right) == start + r;
    assert (start + l)[|start|..] == l && (start + r)[|start|..] == r;
    assert l[0] == (if left.kind == CommandExecution then 'c' else 't');
    assert r[0] == (if right.kind == CommandExecution then 'c' else 't');
    assert l[|KindText(left.kind)| + 1..] == left.requestId && r[|KindText(right.kind)| + 1..] == right.requestId;
  }

  datatype Reduced = Ambiguous | Reduced(request: Option<Request>)

  /** The one request the coordinator's state asks the Overseer about. */
  function RequestFrom(rt: State.Runtime): Reduced {
    if rt.pendingCommand.None? && rt.pendingNavigation.None? then Reduced(None)
    else if rt.pendingCommand.Some? && rt.pendingNavigation.Some? then Ambiguous
    else
      var id := Text.Trim(if rt.pendingCommand.Some? then rt.pendingCommand.value.requestId
                          else rt.pendingNavigation.value.requestId);
      if id == "" then Ambiguous
      else Reduced(Some(Request(if rt.pendingCommand.Some? then CommandExecution else TerminalNavigation, id)))
  }

  /** In a reachable state of the coordinator the request is never ambiguous, as long as
      identifiers are not blank. */
  lemma ReducesUnambiguously(rt: State.Runtime)
    requires Invariants.PendingOk(rt)
    requires rt.pendingCommand.Some? ==> !Text.Blank(rt.pendingCommand.value.requestId)
    requires rt.pendingNavigation.Some? ==> !Text.Blank(rt.pendingNavigation.value.requestId)
    ensures RequestFrom(rt).Reduced?
    ensures RequestFrom(rt).request.Some? <==> rt.pendingCommand.Some? || rt.pendingNavigation.Some?
    ensures rt.pendingCommand.Some? ==>
              RequestFrom(rt).request.value == Request(CommandExecution, Text.Trim(rt.pendingCommand.value.requestId))
    ensures rt.pendingNavigation.Some? ==>
              RequestFrom(rt).request.value ==
                  Request(TerminalNavigation, Text.Trim(rt.pendingNavigation.value.requestId))
  {
  }

  // ---------------------------------------------------------------- the shared entry

  datatype Delivery = Waiting | Attempting | Delivered | Failed

  datatype Availability = Starting | Authorizing | Ready | Unavailable | Stopped

  datatype Slot = Slot(request: Request, delivery: Delivery, deciding: bool)

  /** What the lock protects. A dropped entry is never shared again, so its own
      "invalidated" mark needs no place here. */
  datatype Shared = Shared(current: Option<Slot>, availability: Availability, generation: nat)

  predicate IsCurrent(s: Shared, request: Request) {
    s.current.Some? && s.current.value.request == request
  }

  function Dropped(s: Shared): Option<Request> {
    if s.current.None? then None else Some(s.current.value.request)
  }

  predicate Claimable(s: Shared) {
    s.availability == Ready && s.current.Some? && s.current.value.delivery == Waiting
  }

  function Claim(s: Shared): (Shared, Option<Request>) {
    if !Claimable(s) then (s, None)
    else (s.(current := Some(s.current.value.(delivery := Attempting))), Some(s.current.value.request))
  }

  /** A new state of the coordinator: the same request changes nothing, any other
      replaces the entry. Returns what to clean up and what to send. */
  function Observe(s: Shared, request: Option<Request>): (Shared, Option<Request>, Option<Request>) {
    if s.availability == Stopped || (request.Some? && IsCurrent(s, request.value)) then (s, None, None)
    else
      var replaced := s.(current := if request.None? then None else Some(Slot(request.value, Waiting, false)));
      var (claimed, send) := Claim(replaced);
      (claimed, Dropped(s), send)
  }

  function Authorized(s: Shared, generation: nat, granted: bool): (Shared, Option<Request>) {
    if generation != s.generation || s.availability == Stopped then (s, None)
    else if !granted then (s.(availability := Unavailable), None)
    else Claim(s.(availability := Ready))
  }

  predicate CanRemove(s: Shared, generation: nat) {
    generation == s.generation && s.availability != Stopped
  }

  predicate CanSend(s: Shared, generation: nat, request: Request) {
    && generation == s.generation && s.availability == Ready
    && IsCurrent(s, request) && s.current.value.delivery == Attempting
  }

  function Finished(s: Shared, generation: nat, request: Request, ok: bool, unavailable: bool): Shared {
    if generation != s.generation then s
    else
      var current := if IsCurrent(s, request) && s.current.value.delivery == Attempting
                     then Some(s.current.value.(delivery := if ok then Delivered else Failed)) else s.current;
      s.(current := current,
         availability := if unavailable && s.availability != Stopped then Unavailable else s.availability)
  }

  predicate CanDecide(s: Shared, request: Request) {
    s.availability != Stopped && IsCurrent(s, request) && !s.current.value.deciding
  }

  function BeginDecision(s: Shared): Shared
    requires s.current.Some?
  {
    s.(current := Some(s.current.value.(deciding := true)))
  }

  function Released(s: Shared, generation: nat, request: Request): Shared {
    if generation == s.generation && IsCurrent(s, request) then s.(current := Some(s.current.value.(deciding := false)))
        else s
  }

  /** A decision that went through drops the entry, if it is still the current one. */
  function Succeeded(s: Shared, generation: nat, request: Request): (Shared, Option<Request>) {
    if generation == s.generation && IsCurrent(s, request) then (s.(current := None), Some(request)) else (s, None)
  }

  // ---------------------------------------------------------------- goroutines

  /** Where a goroutine stands between two critical sections. */
  datatype Stage =
    | Asking                                                  // authorization was asked for
    | Handover(stale: Option<Request>, next: Option<Request>) // cleanup, then sending, still to come
    | Removing(id: Request, next: Option<Request>)            // holds the native lock, may remove
    | ToSend(request: Request)
    | Sending(request: Request)                               // holds the native lock, may send
    | Sent(request: Request, ok: bool, unavailable: bool)
    | Deciding(request: Request)                              // the decision is with the coordinator

  datatype Task = Task(stage: Stage, generation: nat)

  /** The whole system: the shared entry, the goroutines, who holds the native lock, what
      is displayed, everything ever sent and every request that was ever current. */
  datatype Machine = Machine(
    shared: Shared, tasks: map<nat, Task>, holder: Option<nat>,
    displayed: set<Request>, sent: seq<Request>, seen: set<Request>)

  // Until authorization was asked for, observed requests only wait.
  function Start(generation: nat, authorizer: nat, waiting: Option<Request>): Machine {
    var current := if waiting.None? then None else Some(Slot(waiting.value, Waiting, false));
    Machine(Shared(current, Authorizing, generation), map[authorizer := Task(Asking, generation)], None, {}, [],
            if waiting.None? then {} else {waiting.value})
  }

  datatype Action =
    | Observing(request: Option<Request>, newTask: nat)
    | Authorization(n: nat, granted: bool)
    | BeginCleanup(n: nat)
    | Remove(n: nat)
    | BeginSend(n: nat)
    | Send(n: nat, ok: bool, unavailable: bool)
    | Finish(n: nat)
    | Respond(answered: Request, newTask: nat)
    | Decide(n: nat, succeeded: bool)

  function Next(stage: Option<Request>): Option<Stage> {
    if stage.None? then None else Some(ToSend(stage.value))
  }

  function Put(tasks: map<nat, Task>, n: nat, stage: Option<Stage>, generation: nat): map<nat, Task> {
    if stage.None? then tasks - {n} else tasks[n := Task(stage.value, generation)]
  }

  /** Which steps may happen: a goroutine moves from where it stands, one that needs the
      native lock waits until nobody holds it, and new goroutines get numbers of their
      own. States of the coordinator may be observed late, so any request may come back. */
  predicate Enabled(m: Machine, action: Action) {
    match action
    case Observing(request, newTask) => newTask !in m.tasks
    case Authorization(n, granted) => n in m.tasks && m.tasks[n].stage.Asking?
    case BeginCleanup(n) =>
      n in m.tasks && m.tasks[n].stage.Handover? && (m.tasks[n].stage.stale.Some? ==> m.holder.None?)
    case Remove(n) => n in m.tasks && m.tasks[n].stage.Removing?
    case BeginSend(n) => n in m.tasks && m.tasks[n].stage.ToSend? && m.holder.None?
    case Send(n, ok, unavailable) => n in m.tasks && m.tasks[n].stage.Sending? && (ok ==> !unavailable)
    case Finish(n) => n in m.tasks && m.tasks[n].stage.Sent?
    case Respond(request, newTask) => newTask !in m.tasks
    case Decide(n, succeeded) => n in m.tasks && m.tasks[n].stage.Deciding?
  }

  /** No state is observed late: what replaces a request was never current before. */
  predicate InTime(m: Machine, action: Action) {
    action.Observing? && action.request.Some? && !IsCurrent(m.shared, action.request.value) ==>
        action.request.value !in m.seen
  }

  function Spawn(m: Machine, n: nat, stale: Option<Request>, next: Option<Request>): map<nat, Task> {
    if stale.None? && next.None? then m.tasks - {n} else m.tasks[n := Task(Handover(stale, next), m.shared.generation)]
  }

  function Step(m: Machine, action: Action): Machine
    requires Enabled(m, action)
  {
    match action
    case Observing(request, newTask) =>
      var (shared, stale, send) := Observe(m.shared, request);
      m.(shared := shared, tasks := Spawn(m, newTask, stale, send),
         seen := if shared.current.Some? then m.seen + {shared.current.value.request} else m.seen)
    case Authorization(n, granted) =>
      var (shared, send) := Authorized(m.shared, m.tasks[n].generation, granted);
      m.(shared := shared, tasks := Spawn(m, n, None, send))
    case BeginCleanup(n) =>
      var Task(Handover(stale, next), generation) := m.tasks[n];
      if stale.Some? && CanRemove(m.shared, generation)
      then m.(tasks := m.tasks[n := Task(Removing(stale.value, next), generation)], holder := Some(n))
      else m.(tasks := Put(m.tasks, n, Next(next), generation))
    case Remove(n) =>
      var Task(Removing(id, next), generation) := m.tasks[n];
      m.(tasks := Put(m.tasks, n, Next(next), generation), holder := None, displayed := m.displayed - {id})
    case BeginSend(n) =>
      var Task(ToSend(request), generation) := m.tasks[n];
      if CanSend(m.shared, generation, request)
      then m.(tasks := m.tasks[n := Task(Sending(request), generation)], holder := Some(n))
      else m.(tasks := m.tasks - {n})
    case Send(n, ok, unavailable) =>
      var Task(Sending(request), generation) := m.tasks[n];
      m.(tasks := m.tasks[n := Task(Sent(request, ok, unavailable), generation)], holder := None,
         displayed := if ok then m.displayed + {request} else m.displayed, sent := m.sent + [request])
    case Finish(n) =>
      var Task(Sent(request, ok, unavailable), generation) := m.tasks[n];
      m.(shared := Finished(m.shared, generation, request, ok, unavailable), tasks := m.tasks - {n})
    case Respond(request, newTask) =>
      if !CanDecide(m.shared, request) then m
      else m.(shared := BeginDecision(m.shared),
              tasks := m.tasks[newTask := Task(Deciding(request), m.shared.generation)])
    case Decide(n, succeeded) =>
      var Task(Deciding(request), generation) := m.tasks[n];
      if !succeeded then m.(shared := Released(m.shared, generation, request), tasks := m.tasks - {n})
      else
        var (shared, stale) := Succeeded(m.shared, generation, request);
        m.(shared := shared, tasks := Spawn(m, n, stale, None))
  }

  // ---------------------------------------------------------------- the invariant

  /** What a goroutine is still going to clean up, to send, to report or to decide. */
  function ToClean(stage: Stage): Option<Request> {
    match stage
    case Handover(stale, next) => stale
    case Removing(id, next) => Some(id)
    case _ => None
  }

  function Unsent(stage: Stage): Option<Request> {
    match stage
    case Handover(stale, next) => next
    case Removing(id, next) => next
    case ToSend(request) => Some(request)
    case Sending(request) => Some(request)
    case _ => None
  }

  // Being sent, or sent and still to be reported.
  function Concerned(stage: Stage): Option<Request> {
    if stage.Sent? then Some(stage.request) else Unsent(stage)
  }

  function Undecided(stage: Stage): Option<Request> {
    if stage.Deciding? then Some(stage.request) else None
  }

  ghost predicate Cleaned(tasks: map<nat, Task>, request: Request) {
    exists n :: n in tasks && ToClean(tasks[n].stage) == Some(request)
  }

  ghost predicate Delivering(tasks: map<nat, Task>, request: Request) {
    exists n :: n in tasks && Concerned(tasks[n].stage) == Some(request)
  }

  ghost predicate Decided(tasks: map<nat, Task>, request: Request) {
    exists n :: n in tasks && Undecided(tasks[n].stage) == Some(request)
  }

  /** The native lock is held by exactly the goroutine inside its section, every goroutine
      belongs to the current generation, and authorization is asked for once. */
  predicate Exclusive(m: Machine) {
    && m.shared.availability != Stopped
    && (forall n :: n in m.tasks ==> InPlace(m, n, m.tasks[n]))
    && (m.holder.Some? ==>
          m.holder.value in m.tasks && (m.tasks[m.holder.value].stage.Removing? ||
                                        m.tasks[m.holder.value].stage.Sending?))
    && (m.shared.availability == Authorizing && m.shared.current.Some? ==> m.shared.current.value.delivery == Waiting)
    && (forall n, k :: n in m.tasks && k in m.tasks && m.tasks[n].stage.Asking? && m.tasks[k].stage.Asking? ==> n == k)
  }

  predicate InPlace(m: Machine, n: nat, task: Task) {
    && task.generation == m.shared.generation
    && (task.stage.Removing? || task.stage.Sending? ==> m.holder == Some(n))
    && (task.stage.Asking? ==> m.shared.availability == Authorizing)
    && (Concerned(task.stage).Some? ==> m.shared.availability != Authorizing)
  }

  /** Whatever is displayed, or just about to be, is current or will be cleaned up. */
  ghost predicate NothingLost(m: Machine) {
    && (forall r :: r in m.displayed ==> IsCurrent(m.shared, r) || Cleaned(m.tasks, r))
    && (forall n :: n in m.tasks && m.tasks[n].stage.Sending? ==>
          IsCurrent(m.shared, m.tasks[n].stage.request) || Cleaned(m.tasks, m.tasks[n].stage.request))
  }

  /** What is being cleaned up is no longer current. */
  predicate OnlyStale(m: Machine) {
    forall n :: n in m.tasks && ToClean(m.tasks[n].stage).Some? ==>
      ToClean(m.tasks[n].stage).value in m.seen && !IsCurrent(m.shared, ToClean(m.tasks[n].stage).value)
  }

  predicate SendsAt(tasks: map<nat, Task>, n: nat, request: Request) {
    n in tasks && Unsent(tasks[n].stage) == Some(request)
  }

  predicate DecidesAt(tasks: map<nat, Task>, n: nat, request: Request) {
    n in tasks && Undecided(tasks[n].stage) == Some(request)
  }

  ghost predicate OneSender(tasks: map<nat, Task>) {
    forall r, n, k :: SendsAt(tasks, n, r) && SendsAt(tasks, k, r) ==> n == k
  }

  ghost predicate OneDecider(tasks: map<nat, Task>, request: Request) {
    forall n, k :: DecidesAt(tasks, n, request) && DecidesAt(tasks, k, request) ==> n == k
  }

  /** One goroutine at most is to send a request, and only one never sent before. */
  ghost predicate SentOnce(m: Machine) {
    && (forall i, k :: 0 <= i < k < |m.sent| ==> m.sent[i] != m.sent[k])
    && (forall r :: r in m.sent ==> r in m.seen)
    && (forall n :: n in m.tasks && Unsent(m.tasks[n].stage).Some? ==>
          Unsent(m.tasks[n].stage).value in m.seen && Unsent(m.tasks[n].stage).value !in m.sent)
    && OneSender(m.tasks)
  }

  /** The entry's delivery state tells the truth. */
  ghost predicate DeliveryTrue(m: Machine) {
    && (forall n :: n in m.tasks && m.tasks[n].stage.Sent? ==> m.tasks[n].stage.request in m.seen)
    && (forall n ::
          n in m.tasks && m.tasks[n].stage.Sent? && m.tasks[n].stage.ok && IsCurrent(m.shared, m.tasks[n].stage.request)
          ==> m.tasks[n].stage.request in m.displayed)
    && (m.shared.current.Some? ==> SlotTrue(m, m.shared.current.value))
  }

  ghost predicate SlotTrue(m: Machine, slot: Slot) {
    && slot.request in m.seen
    && (slot.delivery == Waiting ==>
          m.shared.availability != Ready && slot.request !in m.sent && !Delivering(m.tasks, slot.request))
    && (slot.delivery == Attempting && m.shared.availability == Ready ==> Delivering(m.tasks, slot.request))
    && (slot.delivery == Delivered ==> slot.request in m.displayed)
  }

  /** A request has at most one decision with the coordinator, and is marked meanwhile. */
  ghost predicate OneDecision(m: Machine) {
    && (forall n :: n in m.tasks && m.tasks[n].stage.Deciding? ==> m.tasks[n].stage.request in m.seen)
    && (m.shared.current.Some? ==>
          && OneDecider(m.tasks, m.shared.current.value.request)
          && (m.shared.current.value.deciding <==> Decided(m.tasks, m.shared.current.value.request)))
  }

  /** Holds however late states are observed. */
  ghost predicate Accounted(m: Machine) {
    Exclusive(m) && NothingLost(m)
  }

  /** Holds as long as no state is observed late. */
  ghost predicate Safe(m: Machine) {
    Accounted(m) && OnlyStale(m) && SentOnce(m) && DeliveryTrue(m) && OneDecision(m)
  }

  lemma StartIsSafe(generation: nat, authorizer: nat, waiting: Option<Request>)
    ensures Safe(Start(generation, authorizer, waiting))
  {
  }

  // ---------------------------------------------------------------- one goroutine moves

  predicate Others(before: map<nat, Task>, after: map<nat, Task>, n: nat) {
    forall k :: k in before && k != n ==> k in after && after[k] == before[k]
  }

  function StageAt(tasks: map<nat, Task>, n: nat): Stage {
    if n in tasks then tasks[n].stage else Asking
  }

  /** What the others are going to do stays to be done when one goroutine moves on, and
      what this one is now going to do is to be done as well. */
  lemma CleaningMoves(before: map<nat, Task>, after: map<nat, Task>, n: nat)
    requires Others(before, after, n)
    ensures forall r :: Cleaned(before, r) ==> Cleaned(after, r) || ToClean(StageAt(before, n)) == Some(r)
    ensures ToClean(StageAt(after, n)).Some? ==> Cleaned(after, ToClean(StageAt(after, n)).value)
  {
    forall r | Cleaned(before, r) ensures Cleaned(after, r) || ToClean(StageAt(before, n)) == Some(r) {
      var k :| k in before && ToClean(before[k].stage) == Some(r);
      assert k != n ==> ToClean(after[k].stage) == Some(r);
    }
  }

  lemma DeliveringMoves(before: map<nat, Task>, after: map<nat, Task>, n: nat)
    requires Others(before, after, n)
    ensures forall r :: Delivering(before, r) ==> Delivering(after, r) || Concerned(StageAt(before, n)) == Some(r)
    ensures Concerned(StageAt(after, n)).Some? ==> Delivering(after, Concerned(StageAt(after, n)).value)
  {
    forall r | Delivering(before, r) ensures Delivering(after, r) || Concerned(StageAt(before, n)) == Some(r) {
      var k :| k in before && Concerned(before[k].stage) == Some(r);
      assert k != n ==> Concerned(after[k].stage) == Some(r);
    }
  }

  lemma DecidingMoves(before: map<nat, Task>, after: map<nat, Task>, n: nat)
    requires Others(before, after, n)
    ensures forall r :: Decided(before, r) ==> Decided(after, r) || Undecided(StageAt(before, n)) == Some(r)
    ensures Undecided(StageAt(after, n)).Some? ==> Decided(after, Undecided(StageAt(after, n)).value)
  {
    forall r | Decided(before, r) ensures Decided(after, r) || Undecided(StageAt(before, n)) == Some(r) {
      var k :| k in before && Undecided(before[k].stage) == Some(r);
      assert k != n ==> Undecided(after[k].stage) == Some(r);
    }
  }

  lemma StillOneSender(before: map<nat, Task>, after: map<nat, Task>, n: nat)
    requires Others(before, after, n) && Others(after, before, n) && OneSender(before)
    requires var send := Unsent(StageAt(after, n));
             send.Some? ==> send == Unsent(StageAt(before, n)) || !Delivering(before, send.value)
    ensures OneSender(after)
  {
    forall r, i, k | SendsAt(after, i, r) && SendsAt(after, k, r) ensures i == k {
      assert i != n ==> SendsAt(before, i, r);
      assert k != n ==> SendsAt(before, k, r);
      assert Unsent(StageAt(before, n)) == Some(r) ==> SendsAt(before, n, r);
    }
  }

  lemma StillOneDecider(before: map<nat, Task>, after: map<nat, Task>, n: nat, request: Request)
    requires Others(before, after, n) && Others(after, before, n)
    requires OneDecider(before, request)
    requires Undecided(StageAt(after, n)) == Some(request) ==> !Decided(before, request)
    ensures OneDecider(after, request)
  {
    forall i, k | DecidesAt(after, i, request) && DecidesAt(after, k, request) ensures i == k {
      assert i != n ==> DecidesAt(before, i, request);
      assert k != n ==> DecidesAt(before, k, request);
    }
  }

  // ---------------------------------------------------------------- every step is safe

  function Mover(action: Action): nat {
    match action
    case Observing(request, newTask) => newTask
    case Respond(request, newTask) => newTask
    case _ => action.n
  }

  // Steps on the way to the native notifier, as against those that change the entry.
  predicate Delivers(action: Action) {
    action.BeginCleanup? || action.Remove? || action.BeginSend? || action.Send? || action.Finish?
  }

  lemma StepMoves(m: Machine, action: Action)
    requires Enabled(m, action)
    ensures Others(m.tasks, Step(m, action).tasks, Mover(action)) &&
            Others(Step(m, action).tasks, m.tasks, Mover(action))
    ensures m.seen <= Step(m, action).seen && Step(m, action).shared.generation == m.shared.generation
  {
  }

  lemma DeliveringStaysExclusive(m: Machine, action: Action)
    requires Exclusive(m) && Enabled(m, action) && Delivers(action)
    ensures Exclusive(Step(m, action))
  {
    StepMoves(m, action);
  }

  lemma ChangingStaysExclusive(m: Machine, action: Action)
    requires Exclusive(m) && Enabled(m, action) && !Delivers(action)
    ensures Exclusive(Step(m, action))
  {
    StepMoves(m, action);
  }

  lemma DeliveringLosesNothing(m: Machine, action: Action)
    requires Exclusive(m) && NothingLost(m) && Enabled(m, action) && Delivers(action)
    ensures NothingLost(Step(m, action))
  {
    StepMoves(m, action);
    CleaningMoves(m.tasks, Step(m, action).tasks, Mover(action));
  }

  lemma ChangingLosesNothing(m: Machine, action: Action)
    requires Exclusive(m) && NothingLost(m) && Enabled(m, action) && !Delivers(action)
    ensures NothingLost(Step(m, action))
  {
    StepMoves(m, action);
    CleaningMoves(m.tasks, Step(m, action).tasks, Mover(action));
  }

  /** Late or not, no step loses track of a notification. */
  lemma StepStaysAccounted(m: Machine, action: Action)
    requires Accounted(m) && Enabled(m, action)
    ensures Accounted(Step(m, action))
  {
    if Delivers(action) {
      DeliveringStaysExclusive(m, action);
      DeliveringLosesNothing(m, action);
    } else {
      ChangingStaysExclusive(m, action);
      ChangingLosesNothing(m, action);
    }
  }

  lemma CleansOnlyStale(m: Machine, action: Action)
    requires OnlyStale(m) && Enabled(m, action) && InTime(m, action)
    requires m.shared.current.Some? ==> m.shared.current.value.request in m.seen
    ensures OnlyStale(Step(m, action))
  {
    StepMoves(m, action);
  }

  lemma SendsOnce(m: Machine, action: Action)
    requires SentOnce(m) && DeliveryTrue(m) && Enabled(m, action) && InTime(m, action)
    ensures SentOnce(Step(m, action))
  {
    var after := Step(m, action);
    StepMoves(m, action);
    StillOneSender(m.tasks, after.tasks, Mover(action));
    if action.Send? {
      forall k, r | SendsAt(after.tasks, k, r) ensures r !in after.sent {
        assert SendsAt(m.tasks, k, r) && SendsAt(m.tasks, action.n, m.tasks[action.n].stage.request);
      }
      forall k | k in after.tasks && Unsent(after.tasks[k].stage).Some?
        ensures Unsent(after.tasks[k].stage).value !in after.sent {
        assert SendsAt(after.tasks, k, Unsent(after.tasks[k].stage).value);
      }
    }
  }

  lemma CleaningStaysTrue(m: Machine, action: Action)
    requires OnlyStale(m) && DeliveryTrue(m) && Enabled(m, action) && (action.BeginCleanup? || action.Remove?)
    ensures DeliveryTrue(Step(m, action))
  {
    StepMoves(m, action);
    DeliveringMoves(m.tasks, Step(m, action).tasks, Mover(action));
    DeliveringMoves(Step(m, action).tasks, m.tasks, Mover(action));
  }

  lemma SendingStaysTrue(m: Machine, action: Action)
    requires Exclusive(m) && SentOnce(m) && DeliveryTrue(m) && Enabled(m, action)
    requires action.BeginSend? || action.Send? || action.Finish?
    ensures DeliveryTrue(Step(m, action))
  {
    StepMoves(m, action);
    DeliveringMoves(m.tasks, Step(m, action).tasks, Mover(action));
    DeliveringMoves(Step(m, action).tasks, m.tasks, Mover(action));
  }

  lemma ObservingStaysTrue(m: Machine, action: Action)
    requires Exclusive(m) && SentOnce(m) && DeliveryTrue(m) && Enabled(m, action) && InTime(m, action)
    requires action.Observing? || action.Authorization?
    ensures DeliveryTrue(Step(m, action))
  {
    StepMoves(m, action);
    DeliveringMoves(m.tasks, Step(m, action).tasks, Mover(action));
    DeliveringMoves(Step(m, action).tasks, m.tasks, Mover(action));
  }

  lemma DecidingStaysTrue(m: Machine, action: Action)
    requires Exclusive(m) && SentOnce(m) && DeliveryTrue(m) && Enabled(m, action) && action.Decide?
    ensures DeliveryTrue(Step(m, action))
  {
    StepMoves(m, action);
    DeliveringMoves(m.tasks, Step(m, action).tasks, Mover(action));
    DeliveringMoves(Step(m, action).tasks, m.tasks, Mover(action));
  }

  lemma RespondingStaysTrue(m: Machine, action: Action)
    requires Exclusive(m) && DeliveryTrue(m) && Enabled(m, action) && action.Respond?
    ensures DeliveryTrue(Step(m, action))
  {
    StepMoves(m, action);
    DeliveringMoves(m.tasks, Step(m, action).tasks, Mover(action));
    DeliveringMoves(Step(m, action).tasks, m.tasks, Mover(action));
  }

  lemma OthersDecideOnce(m: Machine, action: Action)
    requires OneDecision(m) && Enabled(m, action) && InTime(m, action) && !action.Respond? && !action.Decide?
    requires m.shared.current.Some? ==> m.shared.current.value.request in m.seen
    ensures OneDecision(Step(m, action))
  {
    StepMoves(m, action);
    DecidingMoves(m.tasks, Step(m, action).tasks, Mover(action));
    DecidingMoves(Step(m, action).tasks, m.tasks, Mover(action));
    if Step(m, action).shared.current.Some? {
      StillOneDecider(m.tasks, Step(m, action).tasks, Mover(action), Step(m, action).shared.current.value.request);
    }
  }

  lemma DecidesOnce(m: Machine, action: Action)
    requires OneDecision(m) && Enabled(m, action) && (action.Respond? || action.Decide?)
    requires forall n :: n in m.tasks ==> m.tasks[n].generation == m.shared.generation
    requires m.shared.current.Some? ==> m.shared.current.value.request in m.seen
    ensures OneDecision(Step(m, action))
  {
    var after := Step(m, action);
    StepMoves(m, action);
    DecidingMoves(m.tasks, after.tasks, Mover(action));
    DecidingMoves(after.tasks, m.tasks, Mover(action));
    if after.shared.current.Some? {
      var request := after.shared.current.value.request;
      StillOneDecider(m.tasks, after.tasks, Mover(action), request);
      if action.Decide? && Decided(after.tasks, request) {
        var k :| k in after.tasks && Undecided(after.tasks[k].stage) == Some(request);
        assert DecidesAt(m.tasks, k, request) && k != action.n;
        assert !DecidesAt(m.tasks, action.n, request);
      }
    }
  }

  lemma DeliveringIsSafe(m: Machine, action: Action)
    requires Safe(m) && Enabled(m, action) && Delivers(action)
    ensures SentOnce(Step(m, action)) && DeliveryTrue(Step(m, action)) && OneDecision(Step(m, action))
  {
    SendsOnce(m, action);
    OthersDecideOnce(m, action);
    if action.BeginCleanup? || action.Remove? {
      CleaningStaysTrue(m, action);
    } else {
      SendingStaysTrue(m, action);
    }
  }

  lemma ChangingIsSafe(m: Machine, action: Action)
    requires Safe(m) && Enabled(m, action) && InTime(m, action) && !Delivers(action)
    ensures SentOnce(Step(m, action)) && DeliveryTrue(Step(m, action)) && OneDecision(Step(m, action))
  {
    SendsOnce(m, action);
    if action.Respond? {
      RespondingStaysTrue(m, action);
      DecidesOnce(m, action);
    } else if action.Decide? {
      DecidingStaysTrue(m, action);
      DecidesOnce(m, action);
    } else {
      ObservingStaysTrue(m, action);
      OthersDecideOnce(m, action);
    }
  }

  lemma StepIsSafe(m: Machine, action: Action)
    requires Safe(m) && Enabled(m, action) && InTime(m, action)
    ensures Safe(Step(m, action))
  {
    StepStaysAccounted(m, action);
    CleansOnlyStale(m, action);
    if Delivers(action) { DeliveringIsSafe(m, action); } else { ChangingIsSafe(m, action); }
  }

  // ---------------------------------------------------------------- whole runs

  predicate Possible(m: Machine, actions: seq<Action>)
    decreases |actions|
  {
    actions != [] ==> Enabled(m, actions[0]) && Possible(Step(m, actions[0]), actions[1..])
  }

  function After(m: Machine, actions: seq<Action>): Machine
    requires Possible(m, actions)
    decreases |actions|
  {
    if actions == [] then m else After(Step(m, actions[0]), actions[1..])
  }

  predicate Punctual(m: Machine, actions: seq<Action>)
    requires Possible(m, actions)
    decreases |actions|
  {
    actions != [] ==> InTime(m, actions[0]) && Punctual(Step(m, actions[0]), actions[1..])
  }

  lemma {:induction false} RunStaysAccounted(m: Machine, actions: seq<Action>)
    requires Accounted(m) && Possible(m, actions)
    ensures Accounted(After(m, actions))
    decreases |actions|
  {
    if actions != [] {
      StepStaysAccounted(m, actions[0]);
      RunStaysAccounted(Step(m, actions[0]), actions[1..]);
    }
  }

  lemma {:induction false} RunIsSafe(m: Machine, actions: seq<Action>)
    requires Safe(m) && Possible(m, actions) && Punctual(m, actions)
    ensures Safe(After(m, actions))
    decreases |actions|
  {
    if actions != [] {
      StepIsSafe(m, actions[0]);
      RunIsSafe(Step(m, actions[0]), actions[1..]);
    }
  }

  /** However the goroutines interleave, and however late states are observed: every
      displayed notification is the current request's or somebody is about to remove it. */
  lemma DisplayIsAccountedFor(generation: nat, authorizer: nat, waiting: Option<Request>, actions: seq<Action>)
    requires Possible(Start(generation, authorizer, waiting), actions)
    ensures var m := After(Start(generation, authorizer, waiting), actions);
            forall r :: r in m.displayed ==> IsCurrent(m.shared, r) || Cleaned(m.tasks, r)
  {
    StartIsSafe(generation, authorizer, waiting);
    RunStaysAccounted(Start(generation, authorizer, waiting), actions);
  }

  /** While no state is observed late, no request is sent twice, and the current request
      has at most one decision with the coordinator. */
  lemma SentAndDecidedOnce(generation: nat, authorizer: nat, waiting: Option<Request>, actions: seq<Action>)
    requires Possible(Start(generation, authorizer, waiting), actions)
    requires Punctual(Start(generation, authorizer, waiting), actions)
    ensures var m := After(Start(generation, authorizer, waiting), actions);
            && (forall i, k :: 0 <= i < k < |m.sent| ==> m.sent[i] != m.sent[k])
            && (m.shared.current.Some? ==> OneDecider(m.tasks, m.shared.current.value.request))
  {
    StartIsSafe(generation, authorizer, waiting);
    RunIsSafe(Start(generation, authorizer, waiting), actions);
  }

  // ---------------------------------------------------------------- states observed late

  lemma {:induction false} Unused(ids: set<nat>) returns (n: nat)
    ensures forall id :: id in ids ==> id < n
    decreases |ids|
  {
    if ids == {} {
      n := 0;
    } else {
      var id :| id in ids;
      var rest := Unused(ids - {id});
      n := if rest <= id then id + 1 else rest;
      assert forall k :: k in ids ==> k == id || k in ids - {id};
    }
  }

  lemma Prefixed(m: Machine, first: Action, rest: seq<Action>)
    requires Enabled(m, first) && Possible(Step(m, first), rest)
    ensures Possible(m, [first] + rest) && After(m, [first] + rest) == After(Step(m, first), rest)
  {
    assert ([first] + rest)[1..] == rest;
  }

  lemma LastTwo(m: Machine, first: Action, second: Action)
    requires Enabled(m, first) && Enabled(Step(m, first), second)
    ensures Possible(m, [first, second]) && After(m, [first, second]) == Step(Step(m, first), second)
  {
    assert [second] == [second] + [] && [first, second] == [first] + [second];
    Prefixed(Step(m, first), second, []);
    Prefixed(m, first, [second]);
  }

  // What whoever holds the native lock does next gives it up.
  function Unlocking(m: Machine): (action: Action)
    requires Exclusive(m) && m.holder.Some?
    ensures Enabled(m, action) && Step(m, action).holder.None?
  {
    if m.tasks[m.holder.value].stage.Removing? then Remove(m.holder.value) else Send(m.holder.value, true, false)
  }

  lemma CleanedThenSent(m: Machine, n: nat, request: Request) returns (actions: seq<Action>)
    requires m.holder.None? && n in m.tasks && m.tasks[n].stage.Handover? && m.tasks[n].stage.next == Some(request)
    requires CanSend(m.shared, m.tasks[n].generation, request)
    ensures Possible(m, actions) && After(m, actions).sent == m.sent + [request] && After(m, actions).shared == m.shared
  {
    var cleaning := Step(m, BeginCleanup(n));
    var last := [BeginSend(n), Send(n, true, false)];
    if cleaning.tasks[n].stage.Removing? {
      LastTwo(Step(cleaning, Remove(n)), BeginSend(n), Send(n, true, false));
      Prefixed(cleaning, Remove(n), last);
      actions := [BeginCleanup(n)] + ([Remove(n)] + last);
    } else {
      LastTwo(cleaning, BeginSend(n), Send(n, true, false));
      actions := [BeginCleanup(n)] + last;
    }
    Prefixed(m, BeginCleanup(n), actions[1..]);
  }

  lemma ObservedIsSent(m: Machine, request: Request) returns (actions: seq<Action>)
    requires m.holder.None? && m.shared.availability == Ready && !IsCurrent(m.shared, request)
    ensures Possible(m, actions) && After(m, actions).sent == m.sent + [request]
  {
    var n := Unused(m.tasks.Keys);
    var observing := Observing(Some(request), n);
    var rest := CleanedThenSent(Step(m, observing), n, request);
    Prefixed(m, observing, rest);
    actions := [observing] + rest;
  }

  /** A request that was sent and is observed late is sent again, unless something else
      happens first. */
  lemma ObservedLateIsSentAgain(m: Machine, request: Request) returns (actions: seq<Action>)
    requires Exclusive(m) && m.shared.availability == Ready && request in m.sent && !IsCurrent(m.shared, request)
    ensures Possible(m, actions)
    ensures var sent := After(m, actions).sent; exists i, k :: 0 <= i < k < |sent| && sent[i] == sent[k] == request
  {
    var free := if m.holder.None? then m else Step(m, Unlocking(m));
    actions := ObservedIsSent(free, request);
    if m.holder.Some? {
      Prefixed(m, Unlocking(m), actions);
      actions := [Unlocking(m)] + actions;
    }
    var sent := After(m, actions).sent;
    assert m.sent <= free.sent;
    var i :| 0 <= i < |m.sent| && m.sent[i] == request;
    assert sent[i] == sent[|sent| - 1] == request;
  }

  const ASKED := Request(CommandExecution, "q")

  /** It does happen: "q" is sent, then no longer asked for, then observed late. */
  lemma SentTwice() returns (actions: seq<Action>)
    ensures Possible(Start(0, 0, Some(ASKED)), actions)
    ensures var sent := After(Start(0, 0, Some(ASKED)), actions).sent;
            exists i, k :: 0 <= i < k < |sent| && sent[i] == sent[k] == ASKED
  {
    var start := Start(0, 0, Some(ASKED));
    var ready := Step(start, Authorization(0, true));
    var sending := CleanedThenSent(ready, 0, ASKED);
    Prefixed(start, Authorization(0, true), sending);
    var sent := After(start, [Authorization(0, true)] + sending);
    var n := Unused(sent.tasks.Keys);
    var dropping := Observing(None, n);
    StartIsSafe(0, 0, Some(ASKED));
    RunStaysAccounted(start, [Authorization(0, true)] + sending);
    StepStaysAccounted(sent, dropping);
    var again := ObservedLateIsSentAgain(Step(sent, dropping), ASKED);
    Prefixed(sent, dropping, again);
    actions := [Authorization(0, true)] + sending + ([dropping] + again);
    Joined(start, [Authorization(0, true)] + sending, [dropping] + again);
  }

  lemma {:induction false} Joined(m: Machine, first: seq<Action>, rest: seq<Action>)
    requires Possible(m, first) && Possible(After(m, first), rest)
    ensures Possible(m, first + rest) && After(m, first + rest) == After(After(m, first), rest)
    decreases |first|
  {
    if first == [] {
      assert first + rest == rest;
    } else {
      Joined(Step(m, first[0]), first[1..], rest);
      Prefixed(m, first[0], first[1..] + rest);
      assert first + rest == [first[0]] + (first[1..] + rest);
    }
  }

  /** And one whose decision is still with the coordinator can be decided a second time. */
  lemma ObservedLateIsDecidedTwice(m: Machine, request: Request) returns (actions: seq<Action>)
    requires Exclusive(m) && Decided(m.tasks, request) && !IsCurrent(m.shared, request)
    ensures Possible(m, actions) && IsCurrent(After(m, actions).shared, request) &&
            !OneDecider(After(m, actions).tasks, request)
  {
    var n := Unused(m.tasks.Keys);
    var observing, responding := Observing(Some(request), n), Respond(request, n + 1);
    actions := [observing, responding];
    LastTwo(m, observing, responding);
    var after := After(m, actions);
    var earlier :| earlier in m.tasks && Undecided(m.tasks[earlier].stage) == Some(request);
    assert DecidesAt(after.tasks, earlier, request) && DecidesAt(after.tasks, n + 1, request);
  }

  // ---------------------------------------------------------------- coming to rest

  predicate FromOutside(action: Action) {
    action.Observing? || action.Respond?
  }

  /** With no goroutine left, nothing but the current request is displayed. */
  lemma AtRest(m: Machine)
    requires Accounted(m) && m.tasks == map[]
    ensures m.holder.None? && forall r :: r in m.displayed ==> IsCurrent(m.shared, r)
  {
  }

  /** If besides no state was observed late, the delivery of the current request has come
      to an end, and its state tells the truth, when notifications are available. */
  lemma AtRestTruthfully(m: Machine)
    requires Safe(m) && m.tasks == map[]
    ensures m.shared.current.Some? && m.shared.availability == Ready ==>
              m.shared.current.value.delivery == Delivered || m.shared.current.value.delivery == Failed
    ensures m.shared.current.Some? && m.shared.current.value.delivery == Delivered ==>
              m.displayed == {m.shared.current.value.request}
    ensures m.shared.current.Some? ==> !m.shared.current.value.deciding
  {
    if m.shared.current.Some? && m.shared.current.value.delivery == Delivered {
      assert forall r :: r in m.displayed ==> r == m.shared.current.value.request;
    }
  }

  function MoveOf(n: nat, stage: Stage): Action {
    match stage
    case Asking => Authorization(n, true)
    case Handover(stale, next) => BeginCleanup(n)
    case Removing(id, next) => Remove(n)
    case ToSend(request) => BeginSend(n)
    case Sending(request) => Send(n, true, false)
    case Sent(request, ok, unavailable) => Finish(n)
    case Deciding(request) => Decide(n, true)
  }

  /** The two locks never block everybody: while a goroutine is left, one can move. */
  lemma NeverStuck(m: Machine) returns (action: Action)
    requires Exclusive(m) && m.tasks != map[]
    ensures Enabled(m, action) && !FromOutside(action)
  {
    var n :| n in m.tasks;
    var mover := if m.holder.Some? then m.holder.value else n;
    action := MoveOf(mover, m.tasks[mover].stage);
  }

  function Rank(stage: Stage): nat {
    match stage
    case Asking => 6
    case Handover(stale, next) => 5
    case Removing(id, next) => 4
    case ToSend(request) => 3
    case Sending(request) => 2
    case Sent(request, ok, unavailable) => 1
    case Deciding(request) => 6
  }

  ghost function Work(tasks: map<nat, Task>): nat
    decreases |tasks|
  {
    if tasks == map[] then 0 else
    var n :| n in tasks;
    assert n in tasks.Keys && |tasks.Keys - {n}| < |tasks.Keys| && (tasks - {n}).Keys == tasks.Keys - {n};
    Rank(tasks[n].stage) + Work(tasks - {n})
  }

  lemma {:induction false} WorkOf(tasks: map<nat, Task>, n: nat)
    requires n in tasks
    ensures Work(tasks) == Rank(tasks[n].stage) + Work(tasks - {n})
    decreases |tasks|
  {
    var k :| k in tasks && Work(tasks) == Rank(tasks[k].stage) + Work(tasks - {k});
    if k != n {
      assert (tasks - {k}).Keys == tasks.Keys - {k} && (tasks - {n}).Keys == tasks.Keys - {n};
      WorkOf(tasks - {k}, n);
      WorkOf(tasks - {n}, k);
      assert tasks - {k} - {n} == tasks - {n} - {k};
    }
  }

  lemma MovesAreWork(m: Machine, action: Action)
    requires Enabled(m, action) && !FromOutside(action)
    ensures Work(Step(m, action).tasks) < Work(m.tasks)
  {
    var n, after := action.n, Step(m, action).tasks;
    WorkOf(m.tasks, n);
    if n in after {
      WorkOf(after, n);
      assert after - {n} == m.tasks - {n};
      assert Rank(after[n].stage) < Rank(m.tasks[n].stage);
    } else {
      assert after == m.tasks - {n};
    }
  }

  /** With no news from outside the goroutines come to rest, in a number of steps that is
      known beforehand, whichever way they interleave. */
  lemma {:induction false} RunsDown(m: Machine, actions: seq<Action>)
    requires Possible(m, actions) && forall action :: action in actions ==> !FromOutside(action)
    ensures |actions| + Work(After(m, actions).tasks) <= Work(m.tasks)
    decreases |actions|
  {
    if actions != [] {
      MovesAreWork(m, actions[0]);
      RunsDown(Step(m, actions[0]), actions[1..]);
    }
  }

  // ---------------------------------------------------------------- the service's critical sections

  /** The entry goroutines point to; once dropped it stays marked for good. */
  class CurrentNotification {
    const request: Request
    var delivery: Delivery
    var deciding: bool
    var invalidated: bool

    constructor (request: Request)
      ensures this.request == request && delivery == Waiting && !deciding && !invalidated
    {
      this.request := request;
      delivery, deciding, invalidated := Waiting, false, false;
    }
  }

  class ApprovalNotificationService {
    const launch: string
    var availability: Availability
    var generation: nat
    var current: CurrentNotification?

    constructor (launch: string)
      ensures Valid() && this.launch == launch && Value() == Shared(None, Starting, 0)
    {
      this.launch := launch;
      availability, generation, current := Starting, 0, null;
    }

    ghost function Repr(): set<object>
      reads this
    {
      if current == null then {this} else {this, current}
    }

    ghost predicate Valid()
      reads this, Repr()
    {
      current != null ==> !current.invalidated
    }

    ghost function Value(): Shared
      reads this, Repr()
    {
      Shared(if current == null then None else Some(Slot(current.request, current.delivery, current.deciding)),
             availability, generation)
    }

    /** Notifications are compared by identifier, which is as good as comparing requests. */
    predicate Names(id: string)
      reads this, Repr()
    {
      current != null && !current.invalidated && NotificationId(launch, current.request) == id
    }

    lemma NamesIsCurrent(request: Request)
      requires Valid()
      ensures Names(NotificationId(launch, request)) <==> IsCurrent(Value(), request)
    {
      if current != null && NotificationId(launch, current.request) == NotificationId(launch, request) {
        IdIdentifiesRequest(launch, current.request, request);
      }
    }

    method ClaimDelivery() returns (send: Option<Request>)
      requires Valid()
      modifies Repr()
      ensures Valid() && current == old(current)
      ensures (Value(), send) == Claim(old(Value()))
    {
      if availability != Ready || current == null || current.invalidated || current.delivery != Waiting {
        return None;
      }
      current.delivery := Attempting;
      send := Some(current.request);
    }

    method InvalidateCurrent() returns (stale: Option<Request>)
      requires Valid()
      modifies Repr()
      ensures Valid() && Value() == old(Value()).(current := None) && stale == Dropped(old(Value()))
      ensures old(current) != null ==> old(current).invalidated
    {
      if current == null {
        return None;
      }
      current.invalidated := true;
      stale := Some(current.request);
      current := null;
    }

    method ObserveCoordinationState(request: Option<Request>) returns (stale: Option<Request>, send: Option<Request>)
      requires Valid()
      modifies Repr()
      ensures Valid() && (Value(), stale, send) == Observe(old(Value()), request)
      ensures current == old(current) || current == null || fresh(current)
      ensures old(current) != null && current != old(current) ==> old(current).invalidated
    {
      if availability == Stopped {
        return None, None;
      }
      if request.Some? && current != null && !current.invalidated && current.request == request.value {
        return None, None;
      }
      stale := InvalidateCurrent();
      if request.Some? {
        current := new CurrentNotification(request.value);
      }
      send := ClaimDelivery();
    }

    method AnswerAuthorization(asked: nat, granted: bool) returns (send: Option<Request>)
      requires Valid()
      modifies Repr()
      ensures Valid() && current == old(current)
      ensures (Value(), send) == Authorized(old(Value()), asked, granted)
    {
      if asked != generation || availability == Stopped {
        return None;
      }
      if !granted {
        availability := Unavailable;
        return None;
      }
      availability := Ready;
      send := ClaimDelivery();
    }

    method MayRemove(asked: nat) returns (can: bool)
      requires Valid()
      ensures can == CanRemove(Value(), asked)
    {
      can := asked == generation && availability != Stopped;
    }

    method MaySend(asked: nat, request: Request) returns (can: bool)
      requires Valid()
      ensures can == CanSend(Value(), asked, request)
    {
      NamesIsCurrent(request);
      can := asked == generation && availability == Ready && current != null && !current.invalidated
        && NotificationId(launch, current.request) == NotificationId(launch, request) && current.delivery == Attempting;
    }

    method FinishDelivery(asked: nat, request: Request, ok: bool, unavailable: bool)
      requires Valid()
      modifies Repr()
      ensures Valid() && current == old(current)
      ensures Value() == Finished(old(Value()), asked, request, ok, unavailable)
    {
      NamesIsCurrent(request);
      if asked == generation {
        if current != null && NotificationId(launch, current.request) == NotificationId(launch, request)
          && current.delivery == Attempting
        {
          current.delivery := if ok then Delivered else Failed;
        }
        if unavailable && availability != Stopped {
          availability := Unavailable;
        }
      }
    }

    /** The identifier comes back from the native notifier and may be any text. */
    method AcceptResponse(id: string) returns (decide: Option<Request>)
      requires Valid()
      modifies Repr()
      ensures Valid() && current == old(current)
      ensures decide.Some? ==>
        NotificationId(launch, decide.value) == id && CanDecide(old(Value()), decide.value) &&
            Value() == BeginDecision(old(Value()))
      ensures decide.None? ==>
        Value() == old(Value()) && forall r :: NotificationId(launch, r) == id ==> !CanDecide(Value(), r)
    {
      if availability == Stopped || current == null || current.invalidated || current.deciding
        || id != NotificationId(launch, current.request)
      {
        return None;
      }
      current.deciding := true;
      decide := Some(current.request);
    }

    method ReleaseDecision(asked: nat, request: Request)
      requires Valid()
      modifies Repr()
      ensures Valid() && current == old(current)
      ensures Value() == Released(old(Value()), asked, request)
    {
      NamesIsCurrent(request);
      if asked == generation && current != null && !current.invalidated
        && NotificationId(launch, current.request) == NotificationId(launch, request)
      {
        current.deciding := false;
      }
    }

    method CompleteDecision(asked: nat, request: Request) returns (stale: Option<Request>)
      requires Valid()
      modifies Repr()
      ensures Valid() && (Value(), stale) == Succeeded(old(Value()), asked, request)
      ensures old(current) != null && current != old(current) ==> old(current).invalidated
    {
      NamesIsCurrent(request);
      if asked == generation && current != null &&
          NotificationId(launch, current.request) == NotificationId(launch, request) {
        stale := InvalidateCurrent();
      } else {
        stale := None;
      }
    }
  }
}
