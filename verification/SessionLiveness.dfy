/** What an active request of a client session waits for, over every run, and
    exactly which requests wait for nothing. */
module SessionLiveness {
  import opened SessionModel
  import opened SessionProofs
  import opened SessionRuns
  import opened SessionOrder
  import opened SessionOutcomes
  import opened SessionResets
  import opened SessionCounter

  /** A reply or an answer is owed, or a control message is with the server. */
  predicate Awaits(s: Session) {
    || Outstanding(s.books) > 0 || s.books.offers > 0
    || (s.active.Some? && s.active.value.command == ControlMessage && s.hasId)
  }

  /** The request asks for an offer that was never made. */
  predicate WithoutOffer(s: Session) {
    s.active.Some? && !s.offer && (s.active.value.command == SessionUpdate || s.active.value.command.ChannelRemove?)
  }

  /** No request is left active without anything to wait for, unless it came after a
      termination, or asks for an offer that was never made. */
  predicate Live(s: Session) {
    s.active.Some? ==> Awaits(s) || s.stage == Terminating || WithoutOffer(s)
  }

  // ---------- dispatching ----------

  lemma {:induction false} DispatchLive(s: Session, r: Request)
    requires Idle(s) && s.active == Some(r)
    ensures Live(Dispatch(s, r))
    decreases |s.queue|, 4
  {
    hide Idle, Perform, Live, Dispatch, Refused;
    if s.stage == Terminating {
      EndedLive(s, r);
    } else if Refused(s, r) {
      RefusedLive(s, r);
    } else {
      DispatchOf(s, r, 0, 0);
      SameIdle(s, Admitted(s, r));
      PerformLive(Admitted(s, r), r);
    }
  }

  lemma EndedLive(s: Session, r: Request)
    requires s.stage == Terminating
    ensures Live(Dispatch(s, r))
  {
    hide Perform;
  }

  lemma RefusedLive(s: Session, r: Request)
    requires s.stage != Terminating && s.active == Some(r) && Refused(s, r)
    ensures Live(Dispatch(s, r))
  {
    hide Dispatch;
    RefusedIsTurned(s, r);
  }

  lemma SameIdle(s: Session, t: Session)
    requires Idle(s) && t.books == s.books && t.context == s.context && t.offer == s.offer
    ensures Idle(t)
  {
    hide Balanced, Structure, Quiet;
  }

  lemma {:induction false} PerformLive(s: Session, r: Request)
    requires Idle(s) && s.active == Some(r) && s.stage != Terminating
    ensures Live(Perform(s, r))
    decreases |s.queue|, 3
  {
    hide Idle, TerminateSession, AddChannel, DiscoverResources, SendControl;
    match r.command
    case SessionUpdate =>
    case ChannelRemove(_) =>
    case SessionTerminate => TerminatingIs(s);
    case ChannelAdd(id, media) => AddLive(s, id, media);
    case ResourceDiscover(accepted) => DiscoverLive(s, accepted);
    case ControlMessage => SendLive(s, r);
  }

  lemma TerminatingIs(s: Session)
    ensures TerminateSession(s).stage == Terminating
  {
    hide TerminateBooks;
  }

  lemma AddLive(s: Session, id: nat, media: bool)
    requires Idle(s) && s.active.Some?
    ensures Live(AddChannel(s, id, media))
  {
    hide Balanced, Structure, Staged, Quiet, RegisterChannel, SameSignaling;
    if ChannelIndex(s.books.channels, id) < |s.books.channels| {
      OfferGiven(s);
    } else {
      RegisterChannelBuilds(s, id, media);
    }
  }

  lemma {:induction false} DiscoverLive(s: Session, accepted: nat)
    requires Idle(s) && s.active.Some?
    ensures Live(DiscoverResources(s, accepted))
    decreases |s.queue|, 2
  {
    hide Idle, RaiseResponse;
    if accepted == 0 {
      IdleCount(s);
      SameIdle(s, StageSet(s, Discovering).(status := Failure));
      RaiseLive(StageSet(s, Discovering).(status := Failure));
    }
  }

  lemma IdleCount(s: Session)
    requires Idle(s)
    ensures s.books == s.books.(count := 0) && Outstanding(s.books) == 0 && s.books.offers == 0
  {
  }

  lemma {:induction false} SendLive(s: Session, r: Request)
    requires Idle(s) && s.active == Some(r) && r.command == ControlMessage
    ensures Live(SendControl(s, r))
    decreases |s.queue|, 2
  {
    hide Idle, RaiseControlResponse;
    if !s.hasId {
      ControlLive(s);
    }
  }

  lemma {:induction false} RaiseLive(s: Session)
    requires Idle(s) && s.active.Some?
    ensures Live(RaiseResponse(s, true))
    decreases |s.queue|, 1
  {
    hide Idle, RaiseResponse, Live;
    RaiseOf(s, 0, 0);
    var status := if s.disconnected then Terminate else s.status;
    var s1 := Log(s.(active := None, status := status), Responded(s.active.value.id, status));
    SameIdle(s, s1);
    PopLive(s1);
  }

  lemma {:induction false} ControlLive(s: Session)
    requires Idle(s) && s.active.Some? && s.active.value.command == ControlMessage
    ensures Live(RaiseControlResponse(s))
    decreases |s.queue|, 1
  {
    hide Idle, RaiseControlResponse, Live;
    ControlOf(s, 0, 0);
    var s1 := Log(s.(active := None), ControlResponded(s.active.value.id));
    SameIdle(s, s1);
    PopLive(s1);
  }

  lemma {:induction false} PopLive(s: Session)
    requires Idle(s)
    ensures Live(PopDispatch(s))
    decreases |s.queue|, 0
  {
    hide Idle, Dispatch;
    if s.queue != [] {
      var s1 := s.(active := Some(s.queue[0]), queue := s.queue[1..]);
      SameIdle(s, s1);
      DispatchLive(s1, s.queue[0]);
    }
  }

  // ---------- steps ----------

  lemma ContinueLive(s: Session, status: Status)
    requires Idle(s) && s.active.Some? && s.stage != NoStage
    ensures Live(Continue(s, status))
  {
    hide Idle, RaiseResponse, PopDispatch, RaiseTerminated, OfferSend, Live;
    match s.stage
    case GeneratingOffer => OfferLive(s);
    case Terminating => EndedStays(s, status);
    case ProcessingAnswer => AnsweredLive(s, status);
    case Discovering => DiscoveredLive(s);
  }

  lemma AnsweredLive(s: Session, status: Status)
    requires Idle(s) && s.active.Some?
    ensures Live(RaiseResponse(if status == Success then s else s.(status := status), true))
  {
    hide Idle, RaiseResponse, Live;
    SameIdle(s, s.(status := status));
    RaiseLive(if status == Success then s else s.(status := status));
  }

  lemma DiscoveredLive(s: Session)
    requires Idle(s) && s.active.Some?
    ensures Live(PopDispatch(Log(s.(active := None), Responded(s.active.value.id, Success))))
  {
    hide Idle, PopDispatch, Live;
    var s1 := Log(s.(active := None), Responded(s.active.value.id, Success));
    SameIdle(s, s1);
    PopLive(s1);
  }

  lemma EndedStays(s: Session, status: Status)
    requires s.stage == Terminating && s.active.Some?
    ensures Live(RaiseTerminated(s, status))
  {
    hide RaiseTerminated, Faithful;
    RaiseTerminatedEffect(s, status);
  }

  lemma OfferLive(s: Session)
    ensures Live(OfferSend(s))
  {
  }

  lemma ReplyLive(s: Session, step: Step)
    requires Inv(s) && Enabled(s, step) && IsReply(step)
    ensures Live(Next(s, step))
  {
    hide Inv, Enabled, Next, OneLess, Continue, Idle;
    var b, last, status := ReplyOutcome(s, step);
    OneLessOwed(s, b, last);
    if last {
      LastIsIdle(s, b);
      ContinueLive(s.(books := b), status);
    }
  }

  lemma LastIsIdle(s: Session, b: Books)
    requires Inv(s) && Outstanding(s.books) > 0 && OneLess(s, b, true)
    ensures Idle(s.(books := b)) && s.active.Some? && s.stage != NoStage
  {
    hide Inv, Balanced, Staged, SameTerminations, Removals, FreshOffers, Idle;
    OwedStage(s);
    LastReplyIdle(s, b);
  }

  lemma AnswerLive(s: Session, answer: Option<AnswerDescriptor>)
    requires Inv(s) && Enabled(s, AnswerReply(answer))
    ensures Live(OnAnswer(s, answer))
  {
    hide Inv, Idle, RaiseResponse, AcceptAnswer;
    AnswerIdle(s);
    var s0 := s.(books := s.books.(offers := s.books.offers - 1));
    IdleCount(s0);
    match answer
    case None =>
      SameIdle(s0, s0.(status := Failure));
      RaiseLive(s0.(status := Failure));
    case Some(a) =>
      if 200 <= a.code < 300 {
        AcceptLive(s0, a);
      } else {
        SameIdle(s0, s0.(status := Terminate));
        RaiseLive(s0.(status := Terminate));
      }
  }

  lemma AcceptLive(s: Session, a: AnswerDescriptor)
    requires Idle(s) && s.active.Some? && AnswerFits(s.books, a)
    ensures var r := AcceptAnswer(s, a); Live(if r.books.count == 0 then RaiseResponse(r, true) else r)
  {
    hide Balanced, Structure, Staged, SameTerminations, SameSignaling, Quiet, ProcessMediaAnswer, RaiseResponse;
    var r := AcceptAnswer(s, a);
    AcceptAnswerAsks(s, a);
    BalancedCount(r.books);
    if r.books.count == 0 {
      AcceptedIdle(s, a);
      RaiseLive(r);
    }
  }

  lemma AcceptedIdle(s: Session, a: AnswerDescriptor)
    requires Idle(s) && AnswerFits(s.books, a) && AcceptAnswer(s, a).books.count == 0
    ensures Idle(AcceptAnswer(s, a))
  {
    hide Balanced, Structure, Staged, SameTerminations, ProcessMediaAnswer;
    var r := AcceptAnswer(s, a);
    AcceptAnswerAsks(s, a);
    BalancedCount(r.books);
    QuietWhenNothingOwed(r.books);
    SameStructure(s.books, r.books, s.context, s.offer);
  }

  lemma RequestLive(s: Session, r: Request)
    requires Inv(s) && Live(s)
    ensures Live(OnRequest(s, r))
  {
    hide Balanced, Staged, Structure, Dispatch, LogAgrees, Idle;
    if s.active.Some? {
      QueuedBehind(s, r);
    } else {
      assert Idle(s) by { NoneActiveIdle(s); }
      var s1 := Log(s, Received(r.id)).(active := Some(r));
      SameIdle(s, s1);
      DispatchLive(s1, r);
    }
  }

  lemma NoneActiveIdle(s: Session)
    requires Inv(s) && (s.active.None? || s.active.value.command == ControlMessage)
    ensures Idle(s)
  {
    hide Balanced, Staged, Structure, LogAgrees;
    QuietWhenNothingOwed(s.books);
  }

  lemma ControlResponseLive(s: Session)
    requires Inv(s) && Live(s)
    ensures Live(RaiseControlResponse(s))
  {
    hide Inv, Idle, RaiseControlResponse;
    ControlOf(s, 0, 0);
    if s.active.Some? && s.active.value.command == ControlMessage {
      NoneActiveIdle(s);
      ControlLive(s);
    }
  }

  lemma TerminateEventLive(s: Session)
    requires Live(s)
    ensures Live(OnTerminateEvent(s))
  {
    hide OnTerminateEvent;
    EventIs(s);
  }

  lemma StepLive(s: Session, step: Step)
    requires Inv(s) && Live(s) && Enabled(s, step) && step != DiscoverReply(false)
    ensures Live(Next(s, step))
  {
    hide Inv, OnRequest, OnAnswer, RaiseControlResponse, OnTerminateEvent, Live;
    hide OnChannelReply, OnMediaReply, OnTerminateReply, OnDiscoverReply;
    match step
    case AppRequest(r) => RequestLive(s, r);
    case AnswerReply(a) => AnswerLive(s, a);
    case TerminateEvent => TerminateEventLive(s);
    case ControlEvent => ControlEventLive(s);
    case ControlResponse => ControlResponseLive(s);
    case _ => ReplyLive(s, step);
  }

  lemma ControlEventLive(s: Session)
    requires Live(s)
    ensures Live(Log(s, ControlEventRaised))
  {
  }

  // ---------- a counter left behind ----------

  /** A rejected answer went unanswered. */
  predicate Silenced(s: Session) {
    Stale(s) && s.books.offers == 0 && s.active.Some? && s.active.value.command != ControlMessage
  }

  /** Live, but for a request silenced by a counter left behind. */
  ghost predicate LiveOrSilenced(s: Session) {
    Live(s) || Silenced(s)
  }

  lemma LiveAlike(t: Session, r: Session, from: Session, count: nat, reset: bool)
    requires Alike(t, r, from, count, 0, reset) && Live(r)
    ensures Live(t)
  {
  }

  lemma NullLive(s: Session)
    requires Inv(s) && s.books.discovers == 1
    ensures Live(OnDiscoverReply(s, false))
  {
    hide Inv, Idle, OnDiscoverReply, RaiseResponse, Live, Alike, NullResets;
    OwedInDiscovery(s);
    NullReply(s);
    RaiseLive(Forgotten(s));
    LiveAlike(OnDiscoverReply(s, false), RaiseResponse(Forgotten(s), true), Forgotten(s), s.books.count, NullResets(s));
  }

  lemma ClearedLive(s: Session)
    ensures Live(Cleared(s)) == Live(s)
  {
  }

  lemma StaleRequestLive(s: Session, r: Request)
    requires Stale(s) && Inv(Cleared(s)) && LiveOrSilenced(s)
    ensures LiveOrSilenced(OnRequest(s, r))
  {
    hide Inv, Dispatch, Resets, Live, OnRequest;
    if s.active.Some? {
      QueuedBehind(s, r);
      SameLive(s, OnRequest(s, r));
    } else {
      var b := Cleared(s);
      ClearedLive(s);
      RequestLive(b, r);
      var b1 := Log(b, Received(r.id)).(active := Some(r));
      ShiftDispatch(b1, r, 1, 0);
      RequestOf(s, r);
      RequestOf(b, r);
      assert Shifted(b1, 1, 0) == Log(s, Received(r.id)).(active := Some(r));
      LiveAlike(OnRequest(s, r), OnRequest(b, r), b1, 1, DispatchResets(b1, [r] + b1.queue));
    }
  }

  lemma RequestOf(s: Session, r: Request)
    requires s.active.None?
    ensures OnRequest(s, r) == Dispatch(Log(s, Received(r.id)).(active := Some(r)), r)
  {
    hide Dispatch;
  }

  /** Being live depends on few fields. */
  lemma SameLive(s: Session, t: Session)
    requires t.books == s.books && t.active == s.active && t.stage == s.stage && t.offer == s.offer && t.hasId == s.hasId
    ensures LiveOrSilenced(t) == LiveOrSilenced(s)
  {
  }

  lemma StaleControlLive(s: Session)
    requires Stale(s) && Inv(Cleared(s)) && LiveOrSilenced(s)
    ensures LiveOrSilenced(RaiseControlResponse(s))
  {
    hide Inv, RaiseControlResponse, Resets, Live;
    var b := Cleared(s);
    if s.active.Some? && s.active.value.command == ControlMessage {
      ClearedLive(s);
      ControlResponseLive(b);
      ShiftControl(b, 1, 0);
      assert Shifted(b, 1, 0) == s;
      LiveAlike(RaiseControlResponse(s), RaiseControlResponse(b), b, 1, DispatchResets(b, b.queue));
    } else {
      ControlOf(s, 0, 0);
    }
  }

  lemma StaleAnswerLive(s: Session, answer: Option<AnswerDescriptor>)
    requires Stale(s) && Inv(Cleared(s)) && Enabled(s, AnswerReply(answer))
    ensures LiveOrSilenced(OnAnswer(s, answer))
  {
    hide Inv, Live, OnAnswer, Idle;
    match answer
    case None => StaleMissingLive(s);
    case Some(a) =>
      AnswerIdle(Cleared(s));
      AnswerLive(Cleared(s), answer);
      if 200 <= a.code < 300 {
        AcceptResets(s, a);
      } else {
        OnlyTheOffer(Cleared(s));
        RejectedIsSilent(s, a);
      }
  }

  lemma StaleMissingLive(s: Session)
    requires Stale(s) && Inv(Cleared(s)) && Enabled(s, AnswerReply(None))
    ensures Live(OnAnswer(s, None))
  {
    hide Inv, Live, Idle, RaiseResponse, OnAnswer, Resets;
    var b := Cleared(s);
    AnswerIdle(b);
    AnswerLive(b, None);
    var b1 := b.(books := b.books.(offers := b.books.offers - 1), status := Failure);
    ShiftRaise(b1, 1, 0);
    assert Shifted(b1, 1, 0) == s.(books := s.books.(offers := s.books.offers - 1), status := Failure);
    MissingIs(s);
    MissingIs(b);
    LiveAlike(OnAnswer(s, None), OnAnswer(b, None), b1, 1, RaiseResets(b1));
  }

  lemma MissingIs(s: Session)
    requires s.books.offers > 0 && s.offer
    ensures OnAnswer(s, None) == RaiseResponse(s.(books := s.books.(offers := s.books.offers - 1), status := Failure), true)
  {
    hide RaiseResponse;
  }

  lemma StaleEventsLive(s: Session)
    requires LiveOrSilenced(s)
    ensures LiveOrSilenced(OnTerminateEvent(s)) && LiveOrSilenced(Log(s, ControlEventRaised))
  {
    hide OnTerminateEvent, LiveOrSilenced;
    EventIs(s);
    SameLive(s, OnTerminateEvent(s));
    SameLive(s, Log(s, ControlEventRaised));
  }

  lemma SoundLive(s: Session, step: Step)
    requires Sound(s) && LiveOrSilenced(s) && Enabled(s, step) && (step == DiscoverReply(false) ==> s.books.discovers == 1)
    ensures LiveOrSilenced(Next(s, step))
  {
    hide Inv, Live, OnRequest, OnAnswer, RaiseControlResponse, OnTerminateEvent;
    hide OnChannelReply, OnMediaReply, OnTerminateReply, OnDiscoverReply;
    if Inv(s) {
      InvIsNotStale(s);
      if step == DiscoverReply(false) {
        NullLive(s);
      } else {
        StepLive(s, step);
      }
    } else {
      NothingOwed(s, step);
      match step
      case AppRequest(r) => StaleRequestLive(s, r);
      case AnswerReply(a) => StaleAnswerLive(s, a);
      case ControlResponse => StaleControlLive(s);
      case TerminateEvent => StaleEventsLive(s);
      case ControlEvent => StaleEventsLive(s);
      case _ => assert false;
    }
  }

  // ---------- runs ----------

  lemma {:induction false} LiveRun(s: Session, steps: seq<Step>)
    requires Sound(s) && LiveOrSilenced(s) && IsRun(s, steps) && NullsComeLast(s, steps)
    ensures LiveOrSilenced(After(s, steps))
    decreases |steps|
  {
    hide Sound, Next, Enabled, LiveOrSilenced;
    if steps != [] {
      SoundStep(s, steps[0]);
      SoundLive(s, steps[0]);
      LiveRun(Next(s, steps[0]), steps[1..]);
    }
  }

  /** In every run whose empty discovery replies come last, an active request waits for a
      reply, an answer or a control response, unless it came after a termination, asks for
      an offer that was never made, or was silenced by a counter left behind. */
  lemma EveryActiveRequestAwaits(version2: bool, steps: seq<Step>)
    requires IsRun(InitialSession(version2), steps) && NullsComeLast(InitialSession(version2), steps)
    ensures var s := After(InitialSession(version2), steps);
      s.active.Some? ==> Awaits(s) || s.stage == Terminating || WithoutOffer(s) || Silenced(s)
  {
    hide IsRun, NullsComeLast;
    InitialInv(version2);
    LiveRun(InitialSession(version2), steps);
  }

  /** A request that waits for nothing is never answered, and holds up all that come after. */
  lemma {:induction false} StuckForEver(s: Session, steps: seq<Step>)
    requires s.active.Some? && s.active.value.command != ControlMessage && !Awaits(s) && IsRun(s, steps)
    ensures Stuck(s, After(s, steps))
    decreases |steps|
  {
    hide Responses, Next, Awaits;
    if steps != [] {
      StuckStep(s, steps[0]);
      StuckForEver(Next(s, steps[0]), steps[1..]);
    }
  }

  ghost predicate Stuck(s: Session, t: Session) {
    t.active == s.active && Responses(t.log) == Responses(s.log) && !Awaits(t)
  }

  lemma StuckStep(s: Session, step: Step)
    requires s.active.Some? && s.active.value.command != ControlMessage && !Awaits(s) && Enabled(s, step)
    ensures Stuck(s, Next(s, step))
  {
    hide Responses, OnTerminateEvent, OnRequest, OnAnswer, OnChannelReply, OnMediaReply, OnTerminateReply, OnDiscoverReply;
    hide RaiseControlResponse, Stuck;
    NothingOwed(s, step);
    NoAnswerOwed(s, step);
    match step
    case AppRequest(r) => StuckRequest(s, r);
    case TerminateEvent => StuckEvent(s);
    case ControlEvent => StuckControlEvent(s);
    case ControlResponse => StuckControl(s);
    case _ => assert false;
  }

  lemma NoAnswerOwed(s: Session, step: Step)
    requires !Awaits(s) && Enabled(s, step)
    ensures !step.AnswerReply?
  {
  }

  lemma StuckRequest(s: Session, r: Request)
    requires s.active.Some? && !Awaits(s)
    ensures Stuck(s, OnRequest(s, r))
  {
    hide Responses, OnRequest;
    QueuedBehind(s, r);
    LogEntry(s.log, Received(r.id));
  }

  lemma StuckEvent(s: Session)
    requires s.active.Some? && !Awaits(s)
    ensures Stuck(s, OnTerminateEvent(s))
  {
    hide Responses, OnTerminateEvent;
    EventIs(s);
  }

  lemma StuckControlEvent(s: Session)
    requires s.active.Some? && !Awaits(s)
    ensures Stuck(s, Log(s, ControlEventRaised))
  {
    hide Responses;
    LogEntry(s.log, ControlEventRaised);
  }

  lemma StuckControl(s: Session)
    requires s.active.Some? && s.active.value.command != ControlMessage && !Awaits(s)
    ensures Stuck(s, RaiseControlResponse(s))
  {
    hide Responses, RaiseControlResponse;
    ControlOf(s, 0, 0);
  }

  /** The very first request is such a one when it asks for an update. */
  lemma UpdateWithoutOffer(id: nat)
    ensures var s := OnRequest(InitialSession(true), Plain(id, SessionUpdate));
      s.active == Some(Plain(id, SessionUpdate)) && WithoutOffer(s) && !Awaits(s)
  {
    hide Perform;
    var r := Plain(id, SessionUpdate);
    var s1 := Log(InitialSession(true), Received(id)).(active := Some(r));
    DispatchOf(s1, r, 0, 0);
    NoOfferNoStep(Admitted(s1, r), r);
  }

  lemma NoOfferNoStep(s: Session, r: Request)
    requires r.command == SessionUpdate && !s.offer
    ensures Perform(s, r) == s
  {
  }
}
