/** What each step of the approval notifications brings about: a new request is shown, a
    decision takes it away, and a decision that failed can be made again. */
module Deliveries {
  import opened Domain
  import opened Notifications

  // ---------------------------------------------------------------- what is observed

  /** Observing a state makes its request the current one. The same request changes
      nothing; another takes the place of the old one, which somebody is to clean up, and
      is undecided and to be sent as soon as notifications may be sent. */
  lemma ObservedBecomesCurrent(m: Machine, request: Option<Request>, n: nat)
    requires Enabled(m, Observing(request, n)) && m.shared.availability != Stopped
    ensures var after := Step(m, Observing(request, n));
            && (request.None? ==> after.shared.current == None)
            && (request.Some? ==> IsCurrent(after.shared, request.value) && request.value in after.seen)
            && after.shared.availability == m.shared.availability && after.shared.generation == m.shared.generation
            && after.displayed == m.displayed && after.sent == m.sent && Others(m.tasks, after.tasks, n)
            && (request.Some? && IsCurrent(m.shared, request.value) ==> after.shared == m.shared && n !in after.tasks)
            && (request.None? || !IsCurrent(m.shared, request.value) ==>
                  && (m.shared.current.Some? ==> Cleaned(after.tasks, m.shared.current.value.request))
                  && (request.Some? ==>
                        && !after.shared.current.value.deciding
                        && (m.shared.availability == Ready ==>
                              SendsAt(after.tasks, n, request.value)
                              && after.shared.current.value.delivery == Attempting)
                        && (m.shared.availability != Ready ==>
                              after.shared.current.value.delivery == Waiting)))
  {
    var after := Step(m, Observing(request, n));
    if (request.None? || !IsCurrent(m.shared, request.value)) && m.shared.current.Some? {
      assert n in after.tasks && ToClean(after.tasks[n].stage) == Some(m.shared.current.value.request);
    }
  }

  /** Permission, once granted, sends what was waiting for it, and nothing is sent without. */
  lemma GrantSendsWaiting(m: Machine, n: nat, granted: bool)
    requires Exclusive(m) && Enabled(m, Authorization(n, granted))
    ensures var after := Step(m, Authorization(n, granted));
            && after.shared.availability == (if granted then Ready else Unavailable)
            && (m.shared.current.Some? <==> after.shared.current.Some?)
            && (granted && m.shared.current.Some? ==>
                  SendsAt(after.tasks, n, m.shared.current.value.request)
                  && after.shared.current.value.delivery == Attempting)
            && (m.shared.current.Some? ==>
                  IsCurrent(after.shared, m.shared.current.value.request)
                  && after.shared.current.value.deciding == m.shared.current.value.deciding)
            && (!granted ==> n !in after.tasks && after.shared.current == m.shared.current)
            && after.displayed == m.displayed && Others(m.tasks, after.tasks, n)
  {
  }

  // ---------------------------------------------------------------- what is sent

  /** What the notifier answered is what the entry says, if it is still waiting for that;
      a notifier that is not there ends all sending. */
  lemma ReportTells(m: Machine, n: nat)
    requires Exclusive(m) && Enabled(m, Finish(n))
    ensures var after, stage := Step(m, Finish(n)), m.tasks[n].stage;
            var awaited := IsCurrent(m.shared, stage.request) && m.shared.current.value.delivery == Attempting;
            && n !in after.tasks && after.displayed == m.displayed
            && (awaited ==>
                  after.shared.current == Some(m.shared.current.value.(delivery := if stage.ok then Delivered
                      else Failed)))
            && (!awaited ==> after.shared.current == m.shared.current)
            && after.shared.availability == if stage.unavailable then Unavailable else m.shared.availability
  {
  }

  /** A notification is on the screen exactly from a sending that succeeded to its removal. */
  lemma DisplayedFromSendToRemoval(m: Machine, action: Notifications.Action, request: Request)
    requires Enabled(m, action)
    ensures var after := Step(m, action);
            request in after.displayed <==>
              || (request in m.displayed &&
                  !(action.Remove? && m.tasks[action.n].stage.id == request))
              || (action.Send? && action.ok && m.tasks[action.n].stage.request == request)
  {
  }

  /** A notification in the way is taken away before the new one is sent. */
  lemma CleanedBeforeSending(m: Machine, n: nat)
    requires Exclusive(m) && Enabled(m, BeginCleanup(n)) && m.tasks[n].stage.stale.Some?
    ensures var begun, Handover(stale, next) := Step(m, BeginCleanup(n)), m.tasks[n].stage;
            && begun.holder == Some(n) && Enabled(begun, Remove(n))
            && var removed := Step(begun, Remove(n));
               && removed.displayed == m.displayed - {stale.value} && removed.holder == None
               && (next.Some? ==> SendsAt(removed.tasks, n, next.value) && Enabled(removed, BeginSend(n)))
               && (next.None? ==> n !in removed.tasks)
  {
  }

  /** Left alone, a new request ends up displayed and delivered, and the one before it is
      no longer displayed. */
  lemma NewRequestIsShown(m: Machine, request: Request) returns (actions: seq<Notifications.Action>)
    requires Exclusive(m) && m.holder.None? && m.shared.availability == Ready && !IsCurrent(m.shared, request)
    ensures Possible(m, actions)
    ensures var after := After(m, actions);
            && after.shared.current == Some(Slot(request, Delivered, false)) && request in after.displayed
            && (m.shared.current.Some? ==> m.shared.current.value.request !in after.displayed)
  {
    var n := Unused(m.tasks.Keys);
    var observed := Step(m, Observing(Some(request), n));
    var begun := Step(observed, BeginCleanup(n));
    if m.shared.current.Some? {
      var rest := SentAndReported(Step(begun, Remove(n)), n, request);
      Prefixed(begun, Remove(n), rest);
      actions := [Remove(n)] + rest;
    } else {
      actions := SentAndReported(begun, n, request);
    }
    Prefixed(observed, BeginCleanup(n), actions);
    Prefixed(m, Observing(Some(request), n), [BeginCleanup(n)] + actions);
    actions := [Observing(Some(request), n)] + ([BeginCleanup(n)] + actions);
  }

  lemma SentAndReported(m: Machine, n: nat, request: Request) returns (actions: seq<Notifications.Action>)
    requires n in m.tasks && m.tasks[n] == Task(ToSend(request), m.shared.generation) && m.holder.None?
    requires m.shared.availability == Ready && m.shared.current == Some(Slot(request, Attempting, false))
    ensures Possible(m, actions)
    ensures var after := After(m, actions);
            && after.shared.current == Some(Slot(request, Delivered, false))
            && after.displayed == m.displayed + {request}
  {
    var sending := Step(m, BeginSend(n));
    LastTwo(sending, Send(n, true, false), Finish(n));
    Prefixed(m, BeginSend(n), [Send(n, true, false), Finish(n)]);
    actions := [BeginSend(n)] + [Send(n, true, false), Finish(n)];
  }

  // ---------------------------------------------------------------- what is decided

  /** An answer is taken exactly for the current request while nobody decides it, and then
      a goroutine takes it to the coordinator. */
  lemma AnswerTakenIff(m: Machine, request: Request, n: nat)
    requires Exclusive(m) && Enabled(m, Respond(request, n))
    ensures var after := Step(m, Respond(request, n));
            && (DecidesAt(after.tasks, n, request) <==>
                IsCurrent(m.shared, request) && !m.shared.current.value.deciding)
            && (DecidesAt(after.tasks, n, request) ==>
                  after.shared == m.shared.(current := Some(m.shared.current.value.(deciding := true))))
            && (!DecidesAt(after.tasks, n, request) ==> after == m)
            && after.displayed == m.displayed && Others(m.tasks, after.tasks, n)
  {
  }

  /** A decision that went through ends the request, which is then taken off the screen;
      one that failed leaves it to be decided again. */
  lemma DecisionEndsOrReopens(m: Machine, n: nat, succeeded: bool, again: nat)
    requires Exclusive(m) && Enabled(m, Decide(n, succeeded)) && IsCurrent(m.shared, m.tasks[n].stage.request)
    requires again !in m.tasks
    ensures var after, request := Step(m, Decide(n, succeeded)), m.tasks[n].stage.request;
            && (succeeded ==> after.shared.current == None && Cleaned(after.tasks, request))
            && (!succeeded ==>
                  && after.shared == m.shared.(current := Some(m.shared.current.value.(deciding := false)))
                  && n !in after.tasks && Enabled(after, Respond(request, again))
                  && DecidesAt(Step(after, Respond(request, again)).tasks, again, request))
            && after.displayed == m.displayed
  {
    var after := Step(m, Decide(n, succeeded));
    if succeeded {
      assert n in after.tasks && ToClean(after.tasks[n].stage) == Some(m.tasks[n].stage.request);
    }
  }

  /** Left alone, an answered request that goes through is neither current nor displayed. */
  lemma AnsweredIsTakenAway(m: Machine, request: Request) returns (actions: seq<Notifications.Action>)
    requires Exclusive(m) && m.holder.None? && IsCurrent(m.shared, request) && !m.shared.current.value.deciding
    ensures Possible(m, actions)
    ensures var after := After(m, actions); after.shared.current == None && request !in after.displayed
  {
    var n := Unused(m.tasks.Keys);
    var answered := Step(m, Respond(request, n));
    var decided := Step(answered, Decide(n, true));
    LastTwo(decided, BeginCleanup(n), Remove(n));
    Prefixed(answered, Decide(n, true), [BeginCleanup(n), Remove(n)]);
    Prefixed(m, Respond(request, n), [Decide(n, true)] + [BeginCleanup(n), Remove(n)]);
    actions := [Respond(request, n)] + ([Decide(n, true)] + [BeginCleanup(n), Remove(n)]);
  }
}
