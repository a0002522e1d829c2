/** The sub-request counter over every run, discoveries answered without a
    descriptor included.  Such a reply is answered to the application and not
    taken off the counter, which stays one too high until a request resets it. */
module SessionCounter {
  import opened SessionModel
  import opened SessionProofs
  import opened SessionRuns
  import opened SessionOrder
  import opened SessionResets

  // ---------- a discovery answered without a descriptor ----------

  /** The requests that its response starts reset the counter. */
  predicate NullResets(s: Session) {
    Resets(s.books.channels, s.hasId, s.disconnected, s.registered, !s.disconnected, s.queue)
  }

  /** The session once the whole discovery is forgotten. */
  function Forgotten(s: Session): Session {
    s.(books := s.books.(count := 0, discovers := 0), status := Failure)
  }

  lemma NoMediaInDiscovery(b: Books, stage: Stage)
    requires Staged(b, stage)
    ensures b.media != [] ==> stage != Discovering
  {
    if b.media != [] {
      assert MediaOf(stage, b.media[0]);
    }
  }

  lemma OwedInDiscovery(s: Session)
    requires Inv(s) && s.books.discovers > 0
    ensures s.stage == Discovering && s.active.Some? && s.books.count == Outstanding(s.books) == s.books.discovers
    ensures Idle(Forgotten(s)) && RemovedOnceDone(Forgotten(s)) && RaiseResets(Forgotten(s)) == NullResets(s)
  {
    hide Structure, Resets, Removals, FreshOffers;
    BalancedCount(s.books);
    NoMediaInDiscovery(s.books, s.stage);
    assert s.books.conn == map[];
  }

  /** Its response is that of the session without discovery, the counter left
      behind unless a request resets it. */
  lemma NullReply(s: Session)
    requires Inv(s) && s.books.discovers > 0
    ensures var r := RaiseResponse(Forgotten(s), true);
      && Inv(r)
      && Alike(OnDiscoverReply(s, false), r, Forgotten(s), s.books.count, s.books.discovers - 1, NullResets(s))
  {
    hide Inv, Idle, RemovedOnceDone, RaiseResponse, RaiseResets, NullResets, Alike;
    OwedInDiscovery(s);
    RaiseInv(Forgotten(s), true);
    ShiftRaise(Forgotten(s), s.books.count, s.books.discovers - 1);
    assert Shifted(Forgotten(s), s.books.count, s.books.discovers - 1)
        == s.(books := s.books.(discovers := s.books.discovers - 1), status := Failure);
  }

  /** After a discovery reply the counter agrees with the replies owed if and only
      if the reply carried a descriptor, or was the last one owed and starts a
      request that resets the counter. */
  lemma CounterAfterDiscovery(s: Session, found: bool)
    requires Inv(s) && s.books.discovers > 0
    ensures var t := OnDiscoverReply(s, found);
      t.books.count == Outstanding(t.books) <==> found || (s.books.discovers == 1 && NullResets(s))
  {
    hide Inv, RaiseResponse, NullResets, OnDiscoverReply, Idle;
    if found {
      StepInv(s, DiscoverReply(true));
      CountIsOwed(OnDiscoverReply(s, true));
    } else {
      OwedInDiscovery(s);
      NullReply(s);
      CountIsOwed(RaiseResponse(Forgotten(s), true));
    }
  }

  lemma CountIsOwed(s: Session)
    requires Inv(s)
    ensures s.books.count == Outstanding(s.books)
  {
    BalancedCount(s.books);
  }

  // ---------- a counter left behind ----------

  function Cleared(s: Session): Session {
    s.(books := s.books.(count := 0))
  }

  /** The counter was left one too high. */
  predicate Stale(s: Session) {
    s.stage == Discovering && s.books.count == 1 && Outstanding(s.books) == 0
  }

  ghost predicate Sound(s: Session) {
    Inv(s) || (Stale(s) && Inv(Cleared(s)))
  }

  /** The step resets the counter of a session to which no reply is owed. */
  predicate StepResets(s: Session, step: Step) {
    match step
    case AppRequest(r) => s.active.None? && DispatchResets(s, [r] + s.queue)
    case AnswerReply(None) => RaiseResets(s.(status := Failure))
    case AnswerReply(Some(a)) => 200 <= a.code < 300
    case ControlResponse => s.active.Some? && s.active.value.command == ControlMessage && DispatchResets(s, s.queue)
    case _ => false
  }

  lemma InvIsNotStale(s: Session)
    requires Inv(s)
    ensures !Stale(s)
  {
    hide Inv;
    CountIsOwed(s);
  }

  lemma FromAlike(t: Session, r: Session, from: Session, reset: bool)
    requires Alike(t, r, from, 1, 0, reset) && Inv(r)
    requires from.stage == Discovering && Outstanding(from.books) == 0 && from.books.count == 0
    ensures Sound(t) && (Stale(t) <==> !reset)
  {
    hide Inv;
    if reset {
      assert t == r;
      InvIsNotStale(t);
    } else {
      assert Cleared(t) == r;
    }
  }

  lemma StaleQueued(s: Session, r: Request)
    requires Stale(s) && Inv(Cleared(s)) && s.active.Some?
    ensures Sound(OnRequest(s, r)) && Stale(OnRequest(s, r))
  {
    hide Inv;
    RequestInv(Cleared(s), r);
    QueuedBehind(s, r);
    QueuedBehind(Cleared(s), r);
    assert Cleared(OnRequest(s, r)) == OnRequest(Cleared(s), r);
  }

  lemma StaleRequest(s: Session, r: Request)
    requires Stale(s) && Inv(Cleared(s))
    ensures Sound(OnRequest(s, r)) && (Stale(OnRequest(s, r)) <==> !StepResets(s, AppRequest(r)))
  {
    hide Inv, Dispatch, Resets, Sound;
    if s.active.Some? {
      StaleQueued(s, r);
    } else {
      var b := Cleared(s);
      RequestInv(b, r);
      var b1 := Log(b, Received(r.id)).(active := Some(r));
      ShiftDispatch(b1, r, 1, 0);
      assert Shifted(b1, 1, 0) == Log(s, Received(r.id)).(active := Some(r));
      FromAlike(Dispatch(Shifted(b1, 1, 0), r), Dispatch(b1, r), b1, DispatchResets(b1, [r] + b1.queue));
    }
  }

  lemma StaleControl(s: Session)
    requires Stale(s) && Inv(Cleared(s))
    ensures Sound(RaiseControlResponse(s)) && (Stale(RaiseControlResponse(s)) <==> !StepResets(s, ControlResponse))
  {
    hide Inv, RaiseControlResponse, Resets;
    var b := Cleared(s);
    ControlResponseInv(b);
    ShiftControl(b, 1, 0);
    assert Shifted(b, 1, 0) == s;
    FromAlike(RaiseControlResponse(s), RaiseControlResponse(b), b, StepResets(s, ControlResponse));
  }

  lemma StaleMissingAnswer(s: Session)
    requires Stale(s) && Inv(Cleared(s)) && s.books.offers > 0
    ensures Sound(OnAnswer(s, None)) && (Stale(OnAnswer(s, None)) <==> !StepResets(s, AnswerReply(None)))
  {
    hide Inv, RaiseResponse, Resets, Idle;
    var b := Cleared(s);
    AnswerInv(b, None);
    AnswerIdle(b);
    var b1 := b.(books := b.books.(offers := b.books.offers - 1), status := Failure);
    ShiftRaise(b1, 1, 0);
    assert Shifted(b1, 1, 0) == s.(books := s.books.(offers := s.books.offers - 1), status := Failure);
    FromAlike(OnAnswer(s, None), OnAnswer(b, None), b1, RaiseResets(b1));
  }

  /** An accepted answer resets the counter whatever it was. */
  lemma AcceptResets(s: Session, a: AnswerDescriptor)
    requires s.books.offers > 0 && AnswerFits(s.books, a) && 200 <= a.code < 300 && s.offer
    ensures OnAnswer(s, Some(a)) == OnAnswer(Cleared(s), Some(a))
  {
    hide RaiseResponse, AcceptAnswer;
    AcceptIgnores(s.(books := s.books.(offers := s.books.offers - 1)), a);
  }

  lemma AcceptIgnores(s: Session, a: AnswerDescriptor)
    requires AnswerFits(s.books, a)
    ensures AcceptAnswer(s, a) == AcceptAnswer(Cleared(s), a)
  {
    hide ProcessMediaAnswer;
  }

  lemma StaleAnswer(s: Session, a: AnswerDescriptor)
    requires Stale(s) && Inv(Cleared(s)) && s.books.offers > 0 && AnswerFits(s.books, a)
    ensures var t := OnAnswer(s, Some(a)); Sound(t) && (Stale(t) <==> !(200 <= a.code < 300))
  {
    hide Inv, OnAnswer, Idle;
    var b := Cleared(s);
    AnswerIdle(b);
    if 200 <= a.code < 300 {
      AnswerInv(b, Some(a));
      AcceptResets(s, a);
      InvIsNotStale(OnAnswer(b, Some(a)));
    } else {
      SilencedInv(b);
      RejectedIsSilent(s, a);
    }
  }

  lemma RejectedIsSilent(s: Session, a: AnswerDescriptor)
    requires s.books.offers > 0 && AnswerFits(s.books, a) && !(200 <= a.code < 300) && s.offer && s.books.count > 0
    ensures OnAnswer(s, Some(a)) == s.(books := s.books.(offers := s.books.offers - 1), status := Terminate)
  {
  }

  /** A session whose rejected answer was not answered to the application. */
  lemma SilencedInv(s: Session)
    requires Inv(s) && s.books.offers > 0
    ensures Inv(s.(books := s.books.(offers := s.books.offers - 1), status := Terminate))
  {
    hide Structure, Removals, FreshOffers;
    AnswerIdle(s);
  }

  lemma StaleControlEvent(s: Session)
    requires Stale(s) && Inv(Cleared(s))
    ensures Sound(Log(s, ControlEventRaised)) && Stale(Log(s, ControlEventRaised))
  {
    hide Inv;
    ControlEventInv(Cleared(s));
    assert Cleared(Log(s, ControlEventRaised)) == Log(Cleared(s), ControlEventRaised);
  }

  lemma EventIs(s: Session)
    ensures OnTerminateEvent(s) == s.(
              disconnected := s.disconnected || s.stage != Terminating,
              log := if s.stage != Terminating && s.active.None? then s.log + [TerminateEventRaised] else s.log)
  {
    if s.stage == Terminating {
      assert s == s.(disconnected := s.disconnected, log := s.log);
    }
  }

  /** The terminate event changes no book and no stage. */
  lemma EventOf(s: Session)
    ensures var t := OnTerminateEvent(s);
      t.books == s.books && t.stage == s.stage && Cleared(t) == OnTerminateEvent(Cleared(s))
  {
    hide OnTerminateEvent;
    EventIs(s);
    EventIs(Cleared(s));
  }

  lemma StaleTerminateEvent(s: Session)
    requires Stale(s) && Inv(Cleared(s))
    ensures Sound(OnTerminateEvent(s)) && Stale(OnTerminateEvent(s))
  {
    hide Inv, OnTerminateEvent;
    TerminateEventInv(Cleared(s));
    EventOf(s);
  }

  lemma NothingOwed(s: Session, step: Step)
    requires Outstanding(s.books) == 0 && Enabled(s, step)
    ensures !step.ChannelReply? && !step.MediaReply? && !step.TerminateReply? && !step.DiscoverReply?
  {
  }

  lemma StaleStep(s: Session, step: Step)
    requires Stale(s) && Inv(Cleared(s)) && Enabled(s, step)
    ensures Sound(Next(s, step)) && (Stale(Next(s, step)) <==> !StepResets(s, step))
  {
    hide Inv, Sound, OnRequest, OnAnswer, RaiseControlResponse, OnTerminateEvent, Resets, RaiseResets, DispatchResets;
    NothingOwed(s, step);
    match step
    case AppRequest(r) => StaleRequest(s, r);
    case AnswerReply(None) => StaleMissingAnswer(s);
    case AnswerReply(Some(a)) => StaleAnswer(s, a);
    case ControlResponse => StaleControl(s);
    case TerminateEvent => StaleTerminateEvent(s);
    case ControlEvent => StaleControlEvent(s);
    case _ => assert false;
  }

  // ---------- runs ----------

  /** A discovery reply without descriptor is the last one the discovery owes. */
  ghost predicate NullsComeLast(s: Session, steps: seq<Step>)
    requires IsRun(s, steps)
    decreases |steps|
  {
    steps == [] ||
    ((steps[0] == DiscoverReply(false) ==> s.books.discovers == 1) && NullsComeLast(Next(s, steps[0]), steps[1..]))
  }

  /** A discovery reply without descriptor came since the counter was last reset. */
  ghost predicate LeftBehind(s: Session, stale: bool, steps: seq<Step>)
    requires IsRun(s, steps)
    decreases |steps|
  {
    if steps == [] then stale
    else LeftBehind(Next(s, steps[0]),
                    if steps[0] == DiscoverReply(false) then !NullResets(s) else stale && !StepResets(s, steps[0]),
                    steps[1..])
  }

  lemma NullStep(s: Session)
    requires Inv(s) && s.books.discovers == 1
    ensures var t := OnDiscoverReply(s, false); Sound(t) && (Stale(t) <==> !NullResets(s))
  {
    hide Inv, RaiseResponse, NullResets, OnDiscoverReply, Idle;
    OwedInDiscovery(s);
    NullReply(s);
    FromAlike(OnDiscoverReply(s, false), RaiseResponse(Forgotten(s), true), Forgotten(s), NullResets(s));
  }

  lemma SoundStep(s: Session, step: Step)
    requires Sound(s) && Enabled(s, step) && (step == DiscoverReply(false) ==> s.books.discovers == 1)
    ensures var t := Next(s, step);
      && Sound(t)
      && (Stale(t) <==> if step == DiscoverReply(false) then !NullResets(s) else Stale(s) && !StepResets(s, step))
  {
    hide Inv, Next, NullResets, StepResets;
    if !Inv(s) {
      StaleStep(s, step);
    } else if step == DiscoverReply(false) {
      NullStep(s);
      NextIsDiscovery(s);
    } else {
      StepInv(s, step);
      InvIsNotStale(s);
      InvIsNotStale(Next(s, step));
    }
  }

  lemma NextIsDiscovery(s: Session)
    requires Enabled(s, DiscoverReply(false))
    ensures Next(s, DiscoverReply(false)) == OnDiscoverReply(s, false)
  {
  }

  lemma {:induction false} SoundRun(s: Session, steps: seq<Step>)
    requires Sound(s) && IsRun(s, steps) && NullsComeLast(s, steps)
    ensures Sound(After(s, steps)) && (Stale(After(s, steps)) <==> LeftBehind(s, Stale(s), steps))
    decreases |steps|
  {
    hide Sound, Next, Enabled, NullResets, StepResets, Stale;
    if steps != [] {
      SoundStep(s, steps[0]);
      SoundRun(Next(s, steps[0]), steps[1..]);
    }
  }

  /** In every run from a new session whose empty discovery replies come last, the
      counter is the number of replies owed, plus one if such a reply came since
      the last reset.  The session is removed exactly when its termination is
      complete, and an add request has sent its one offer exactly when its replies
      are in. */
  lemma EveryRun(version2: bool, steps: seq<Step>)
    requires IsRun(InitialSession(version2), steps) && NullsComeLast(InitialSession(version2), steps)
    ensures var s, left := After(InitialSession(version2), steps), LeftBehind(InitialSession(version2), false, steps);
      && s.books.count == Outstanding(s.books) + (if left then 1 else 0)
      && (left ==> Outstanding(s.books) == 0 && s.stage == Discovering)
      && Removals(s.log) == (if s.stage == Terminating && Outstanding(s.books) == 0 then 1 else 0)
      && (s.active.Some? && s.active.value.command.ChannelAdd? && s.stage != Terminating ==>
            FreshOffers(s.log) == if s.stage == GeneratingOffer && Outstanding(s.books) > 0 then 0 else 1)
  {
    hide Balanced, Structure, Staged, Phases, IsRun, NullsComeLast, LeftBehind, Removals, FreshOffers;
    InitialInv(version2);
    InvIsNotStale(InitialSession(version2));
    SoundRun(InitialSession(version2), steps);
    var s := After(InitialSession(version2), steps);
    if Inv(s) {
      CountIsOwed(s);
      InvIsNotStale(s);
    }
  }

  /** Without such replies the counter is always right. */
  lemma {:induction false} NothingLeftBehind(s: Session, steps: seq<Step>)
    requires IsRun(s, steps) && DiscoverReply(false) !in steps
    ensures NullsComeLast(s, steps) && !LeftBehind(s, false, steps)
    decreases |steps|
  {
    hide Next, Enabled, NullResets, StepResets;
    if steps != [] {
      NothingLeftBehind(Next(s, steps[0]), steps[1..]);
    }
  }

  // ---------- what a counter left behind does ----------

  /** In every such run a rejected answer leaves its request without response, for
      good, if and only if an empty discovery reply came since the last reset. */
  lemma RejectedAnswerSilencedIff(version2: bool, steps: seq<Step>, a: AnswerDescriptor)
    requires IsRun(InitialSession(version2), steps) && NullsComeLast(InitialSession(version2), steps)
    requires !(200 <= a.code < 300)
    requires Enabled(After(InitialSession(version2), steps), AnswerReply(Some(a)))
    ensures var s := After(InitialSession(version2), steps);
      var t, left := OnAnswer(s, Some(a)), LeftBehind(InitialSession(version2), false, steps);
      && s.active.Some?
      && (left ==> t.log == s.log && t.active == s.active && t.books.offers == 0 && Outstanding(t.books) == 0)
      && (!left ==> s.log + [Responded(s.active.value.id, Terminate)] <= t.log)
  {
    hide Inv, IsRun, NullsComeLast, LeftBehind, RaiseResponse, Idle;
    InitialInv(version2);
    InvIsNotStale(InitialSession(version2));
    SoundRun(InitialSession(version2), steps);
    var s := After(InitialSession(version2), steps);
    if Inv(s) {
      InvIsNotStale(s);
      OnlyTheOffer(s);
      RaiseFaithful(s.(books := s.books.(offers := s.books.offers - 1), status := Terminate), true);
    } else {
      OnlyTheOffer(Cleared(s));
      RejectedIsSilent(s, a);
    }
  }

  lemma OnlyTheOffer(s: Session)
    requires Inv(s) && s.books.offers > 0
    ensures s.books.offers == 1 && s.books.count == Outstanding(s.books) == 0 && s.active.Some? && s.offer
  {
    hide Structure, Staged, Removals, FreshOffers;
    BalancedCount(s.books);
  }

  /** With nothing queued, the counter never falls short of the replies owed in any
      continuation if and only if the empty discovery reply was the last one owed:
      the replies still to come are not counted after the next reset. */
  lemma NeverShortIffNullIsLast(s: Session)
    requires Inv(s) && s.books.discovers > 0 && s.queue == [] && s.registered
    ensures var t := OnDiscoverReply(s, false);
      (forall steps | IsRun(t, steps) && NullsComeLast(t, steps) ::
         After(t, steps).books.count >= Outstanding(After(t, steps).books))
      <==> s.books.discovers == 1
  {
    hide Inv, OnDiscoverReply, Outstanding, NullResets;
    var t := OnDiscoverReply(s, false);
    if s.books.discovers == 1 {
      forall steps | IsRun(t, steps) && NullsComeLast(t, steps)
        ensures After(t, steps).books.count >= Outstanding(After(t, steps).books)
      {
        NullStep(s);
        SoundRun(t, steps);
        SoundIsEnough(After(t, steps));
      }
    } else {
      var step := AppRequest(Plain(0, SessionTerminate));
      StrayIsNotCounted(s);
      RunEnds(Next(t, step));
      RunStarts(t, step, []);
      assert NullsComeLast(t, [step]);
      assert [step] + [] == [step];
      assert After(t, [step]).books.count < Outstanding(After(t, [step]).books);
    }
  }

  lemma SoundIsEnough(s: Session)
    requires Sound(s)
    ensures s.books.count >= Outstanding(s.books)
  {
    hide Inv;
    if Inv(s) {
      CountIsOwed(s);
    }
  }

  lemma StrayIsNotCounted(s: Session)
    requires Inv(s) && s.books.discovers > 1 && s.queue == [] && s.registered
    ensures var t := OnRequest(OnDiscoverReply(s, false), Plain(0, SessionTerminate));
      t.books.count < Outstanding(t.books)
  {
    hide Inv, Dispatch, OnDiscoverReply, Idle, Resets, RaiseResponse;
    var r := Plain(0, SessionTerminate);
    OwedInDiscovery(s);
    NullReply(s);
    var t, b := OnDiscoverReply(s, false), RaiseResponse(Forgotten(s), true);
    AloneRaise(Forgotten(s));
    assert t == Shifted(b, s.books.count, s.books.discovers - 1);
    RequestInv(b, r);
    CountIsOwed(OnRequest(b, r));
    var b1 := Log(b, Received(0)).(active := Some(r));
    ShiftDispatch(b1, r, s.books.count, s.books.discovers - 1);
    TerminateResets(b1, r);
    assert Shifted(b1, s.books.count, s.books.discovers - 1) == Log(t, Received(0)).(active := Some(r));
  }

  lemma AloneRaise(s: Session)
    requires s.queue == [] && s.active.Some?
    ensures var t := RaiseResponse(s, true);
      t.active.None? && t.queue == [] && t.books == s.books && t.stage == s.stage && t.registered == s.registered
    ensures !RaiseResets(s)
  {
    hide RaiseResponse;
    RaiseOf(s, 0, 0);
  }

  lemma TerminateResets(s: Session, r: Request)
    requires s.stage != Terminating && s.registered && r.command == SessionTerminate
    ensures DispatchResets(s, [r] + s.queue)
  {
  }
}
