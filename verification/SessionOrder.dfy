/** The order of application requests: what a client session received, answered,
    serves and queues, over every run. */
module SessionOrder {
  import opened SessionModel

  // ---------- the ledger of application requests ----------

  /** Requests received, in order. */
  function Receipts(log: seq<Event>): seq<nat> {
    if log == [] then []
    else
      var e := log[|log| - 1];
      Receipts(log[..|log| - 1]) + (if e.Received? then [e.id] else [])
  }

  /** Requests answered, in order. */
  function Responses(log: seq<Event>): seq<nat> {
    if log == [] then []
    else
      var e := log[|log| - 1];
      Responses(log[..|log| - 1]) + (if e.Responded? || e.ControlResponded? then [e.id] else [])
  }

  function Ids(queue: seq<Request>): seq<nat> {
    seq(|queue|, i requires 0 <= i < |queue| => queue[i].id)
  }

  function ActiveId(active: Option<Request>): seq<nat> {
    match active
    case None => []
    case Some(r) => [r.id]
  }

  /** Answered requests, the active one and the queued ones, laid end to end. */
  function Ledger(s: Session): seq<nat> {
    Responses(s.log) + ActiveId(s.active) + Ids(s.queue)
  }

  lemma LogEntry(log: seq<Event>, e: Event)
    ensures Receipts(log + [e]) == Receipts(log) + (if e.Received? then [e.id] else [])
    ensures Responses(log + [e]) == Responses(log) + (if e.Responded? || e.ControlResponded? then [e.id] else [])
  {
    assert (log + [e])[..|log|] == log;
  }

  /** t follows s without receiving a request, and loses, repeats or reorders none. */
  ghost predicate Faithful(s: Session, t: Session) {
    s.log <= t.log && Receipts(t.log) == Receipts(s.log) && Ledger(t) == Ledger(s)
  }

  lemma Neutral(s: Session, t: Session, e: Event)
    requires t.log == s.log + [e] && t.active == s.active && t.queue == s.queue
    requires !e.Received? && !e.Responded? && !e.ControlResponded?
    ensures Faithful(s, t)
  {
    LogEntry(s.log, e);
  }

  lemma Answered(s: Session, t: Session, e: Event)
    requires s.active.Some? && t.active.None? && t.queue == s.queue && t.log == s.log + [e]
    requires (e.Responded? || e.ControlResponded?) && e.id == s.active.value.id
    ensures Faithful(s, t)
  {
    LogEntry(s.log, e);
    assert Responses(s.log) + [e.id] + [] + Ids(s.queue) == Responses(s.log) + [e.id] + Ids(s.queue);
  }

  lemma {:induction false} DispatchFaithful(s: Session, r: Request)
    requires s.active == Some(r)
    ensures Faithful(s, Dispatch(s, r))
    decreases |s.queue|, 3, 0
  {
    hide Perform, RaiseResponse, Ledger, Receipts;
    var s0 := Log(s, Dispatched(r.id));
    Neutral(s, s0, Dispatched(r.id));
    if s.stage == Terminating {
    } else if s.disconnected && r.command != SessionTerminate {
      FailureFaithful(s, s0.(status := Cancel));
    } else if s.registered {
      Neutral(s, s0.(status := Success), Dispatched(r.id));
      PerformFaithful(s0.(status := Success), r);
    } else if r.command == SessionTerminate {
      Neutral(s, s0.(status := Success), Dispatched(r.id));
      RaiseFaithful(s0.(status := Success), false);
    } else if !r.agentsFound || s.status == Failure || !r.sessionCreated {
      FailureFaithful(s, s0.(status := Failure));
    } else {
      var s1 := Log(s0.(registered := true, status := Success), SessionAdded);
      Neutral(s0, s1, SessionAdded);
      PerformFaithful(s1, r);
    }
  }

  lemma FailureFaithful(s: Session, t: Session)
    requires t.active == s.active && t.active.Some? && t.queue == s.queue
    requires t.log == s.log + [Dispatched(s.active.value.id)]
    ensures Faithful(s, RaiseFailure(t))
  {
    hide Ledger, Receipts;
    Neutral(s, t, Dispatched(s.active.value.id));
    Answered(t, RaiseFailure(t), Responded(t.active.value.id, t.status));
  }

  lemma {:induction false} PerformFaithful(s: Session, r: Request)
    requires s.active == Some(r)
    ensures Faithful(s, Perform(s, r))
    decreases |s.queue|, 2, 1
  {
    hide Faithful, DiscoverResources, SendControl, TerminateSession, AddChannel;
    match r.command
    case SessionUpdate => OfferFaithful(s, s);
    case SessionTerminate => TerminateFaithful(s);
    case ChannelAdd(id, media) => AddFaithful(s, id, media);
    case ChannelRemove(_) => OfferFaithful(s, s.(offerResource := false));
    case ResourceDiscover(accepted) => DiscoverFaithful(s, accepted);
    case ControlMessage => SendControlFaithful(s, r);
  }

  lemma OfferFaithful(s: Session, t: Session)
    requires t.log == s.log && t.active == s.active && t.queue == s.queue
    ensures Faithful(s, s) && Faithful(s, OfferSend(t))
  {
    hide Faithful;
    SameLedger(s, s);
    Neutral(s, OfferSend(t), OfferSent);
  }

  lemma TerminateFaithful(s: Session)
    ensures Faithful(s, TerminateSession(s))
  {
    hide Faithful, TerminateBooks;
    Neutral(s, TerminateSession(s), TerminateSent);
  }

  lemma {:induction false} DiscoverFaithful(s: Session, accepted: nat)
    ensures Faithful(s, DiscoverResources(s, accepted))
    decreases |s.queue|, 2, 0
  {
    hide Ledger, Receipts, Responses, RaiseResponse;
    if accepted == 0 {
      RaiseFaithful(StageSet(s, Discovering).(status := Failure), true);
      SameLedger(s, StageSet(s, Discovering).(status := Failure));
    } else {
      Neutral(s, DiscoverResources(s, accepted), DiscoverSent(accepted));
    }
  }

  lemma {:induction false} SendControlFaithful(s: Session, r: Request)
    ensures Faithful(s, SendControl(s, r))
    decreases |s.queue|, 2, 0
  {
    hide Faithful, RaiseControlResponse;
    if s.hasId {
      Neutral(s, SendControl(s, r), ControlSent(r.id));
    } else {
      ControlFaithful(s);
    }
  }

  lemma SameLedger(s: Session, t: Session)
    requires t.log == s.log && t.active == s.active && t.queue == s.queue
    ensures Ledger(t) == Ledger(s) && Faithful(s, t)
  {
  }

  lemma AddFaithful(s: Session, id: nat, media: bool)
    ensures Faithful(s, AddChannel(s, id, media))
  {
    hide Faithful, AddChannelBooks, ChannelIndex, OfferSend;
    if ChannelIndex(s.books.channels, id) < |s.books.channels| {
      OfferFaithful(s, s.(offerResource := true));
    } else {
      var s1 := StageSet(s, GeneratingOffer).(
                  offer := true,
                  offerResource := if s.version2 then s.offerResource else true,
                  context := s.context || media,
                  books := AddChannelBooks(s.books, Channel(id, s.version2, media, false, false)));
      if s1.books.count == 0 {
        OfferFaithful(s, s1);
      } else {
        SameLedger(s, s1);
      }
    }
  }

  lemma {:induction false} RaiseFaithful(s: Session, processPending: bool)
    ensures Faithful(s, RaiseResponse(s, processPending))
    ensures s.active.Some? ==>
      s.log + [Responded(s.active.value.id, if s.disconnected then Terminate else s.status)] <= RaiseResponse(s, processPending).log
    decreases |s.queue|, 1, 0
  {
    hide Ledger, Receipts, PopDispatch;
    if s.active.None? {
      SameLedger(s, s);
    } else {
      var r := s.active.value;
      var status := if s.disconnected then Terminate else s.status;
      var s1 := Log(s.(active := None, status := status), Responded(r.id, status));
      Answered(s, s1, Responded(r.id, status));
      if processPending {
        PopFaithful(s1);
      }
    }
  }

  lemma {:induction false} ControlFaithful(s: Session)
    ensures Faithful(s, RaiseControlResponse(s))
    decreases |s.queue|, 1, 0
  {
    hide Ledger, Receipts, PopDispatch;
    if s.active.Some? && s.active.value.command == ControlMessage {
      var s1 := Log(s.(active := None), ControlResponded(s.active.value.id));
      Answered(s, s1, ControlResponded(s.active.value.id));
      PopFaithful(s1);
    } else {
      SameLedger(s, s);
    }
  }

  lemma {:induction false} PopFaithful(s: Session)
    requires s.active.None?
    ensures Faithful(s, PopDispatch(s))
    decreases |s.queue|, 0, 0
  {
    hide Receipts, Responses, Dispatch;
    if s.queue != [] {
      var s1 := s.(active := Some(s.queue[0]), queue := s.queue[1..]);
      assert Ids(s.queue) == [s.queue[0].id] + Ids(s.queue[1..]);
      assert Ledger(s1) == Ledger(s);
      DispatchFaithful(s1, s.queue[0]);
    }
  }

  // ---------- replies ----------

  lemma TerminatedFaithful(s: Session, status: Status)
    ensures Faithful(s, RaiseTerminated(s, status))
  {
    hide Ledger, Receipts, Responses, ReleaseControl, RaiseResponse;
    var s1 := Log(s.(books := s.books.(channels := ReleaseControl(s.books.channels))), SessionRemoved);
    var s2 := if status != Success then s1.(status := status) else s1;
    Neutral(s, s2, SessionRemoved);
    RaiseFaithful(s2, false);
  }

  lemma ChannelReplyFaithful(s: Session, i: nat, ok: bool)
    requires i in s.books.conn && i < |s.books.channels|
    ensures Faithful(s, OnChannelReply(s, i, ok))
  {
    hide Ledger, Receipts, Responses, RaiseResponse, RaiseTerminated, OfferSend;
    var b0 := s.books.(conn := s.books.conn - {i});
    SameLedger(s, s.(books := b0));
    if b0.channels[i].waitingForChannel {
      var r := SubrequestRemove(b0.(channels := WaitForChannel(b0.channels, i, false)));
      var s1 := s.(books := r.0);
      SameLedger(s, s1);
      OfferFaithful(s, s1);
      SameLedger(s, s1.(status := Failure));
      RaiseFaithful(if ok then s1 else s1.(status := Failure), true);
      TerminatedFaithful(s1, if ok then Success else Failure);
    }
  }

  lemma LastByStageFaithful(s: Session)
    ensures Faithful(s, OnLastByStage(s))
  {
    hide Faithful, RaiseResponse, OfferSend;
    OfferFaithful(s, s);
    RaiseFaithful(s, true);
  }

  lemma TerminationReplyFaithful(s: Session, m: MediaCommand)
    ensures Faithful(s, OnTerminationReply(s, m))
  {
    hide Ledger, Receipts, Responses, RaiseResponse, RaiseTerminated, OfferSend, OnLastByStage;
    SameLedger(s, s);
    match m.target
    case RtpEnd(i) =>
      if i < |s.books.slots| && s.books.slots[i].waiting {
        AfterRemoval(s, s.books.(slots := WaitForSlot(s.books.slots, i, false)));
      }
    case ChannelEnd(i) =>
      if i < |s.books.channels| && s.books.channels[i].waitingForTermination {
        AfterRemoval(s, s.books.(channels := WaitForTermination(s.books.channels, i, false)));
      }
    case NoEnd =>
  }

  /** Whatever follows a removed sub-request is faithful. */
  lemma AfterRemoval(s: Session, b: Books)
    ensures var s1 := s.(books := SubrequestRemove(b).0);
      && Faithful(s, s1) && Faithful(s, OfferSend(s1)) && Faithful(s, OnLastByStage(s1))
      && Faithful(s, RaiseTerminated(s1, Success)) && Faithful(s, RaiseResponse(s1, true))
  {
    hide Ledger, Receipts, Responses, RaiseResponse, RaiseTerminated, OfferSend, OnLastByStage;
    var s1 := s.(books := SubrequestRemove(b).0);
    SameLedger(s, s1);
    OfferFaithful(s, s1);
    LastByStageFaithful(s1);
    TerminatedFaithful(s1, Success);
    RaiseFaithful(s1, true);
  }

  lemma MediaReplyFaithful(s: Session)
    requires s.books.media != []
    ensures Faithful(s, OnMediaReply(s))
  {
    hide Ledger, Receipts, Responses, OnTerminationReply, OnLastByStage;
    var s0 := s.(books := s.books.(media := s.books.media[1..]));
    SameLedger(s, s0);
    TerminationReplyFaithful(s0, s.books.media[0]);
    AfterRemoval(s, s0.books);
  }

  lemma SignalReplyFaithful(s: Session, found: bool)
    ensures s.books.terminates > 0 ==> Faithful(s, OnTerminateReply(s))
    ensures s.books.discovers > 0 ==> Faithful(s, OnDiscoverReply(s, found))
  {
    hide Ledger, Receipts, Responses, RaiseResponse, RaiseTerminated, PopDispatch;
    if s.books.terminates > 0 {
      AfterRemoval(s, s.books.(terminates := s.books.terminates - 1));
    }
    if s.books.discovers > 0 {
      DiscoverReplyFaithful(s, found);
    }
  }

  lemma DiscoverReplyFaithful(s: Session, found: bool)
    requires s.books.discovers > 0
    ensures Faithful(s, OnDiscoverReply(s, found))
  {
    hide Ledger, Receipts, Responses, RaiseResponse, PopDispatch;
    var b0 := s.books.(discovers := s.books.discovers - 1);
    SameLedger(s, s.(books := b0));
    if s.active.Some? {
      SameLedger(s, s.(books := b0, status := Failure));
      RaiseFaithful(s.(books := b0, status := Failure), true);
      var s1 := s.(books := SubrequestRemove(b0).0);
      SameLedger(s, s1);
      var s2 := Log(s1.(active := None), Responded(s.active.value.id, Success));
      Answered(s1, s2, Responded(s.active.value.id, Success));
      PopFaithful(s2);
    }
  }

  // ---------- answers and events ----------

  lemma AnswerFaithful(s: Session, answer: Option<AnswerDescriptor>)
    requires s.books.offers > 0 && (answer.Some? ==> AnswerFits(s.books, answer.value))
    ensures Faithful(s, OnAnswer(s, answer))
  {
    hide Ledger, Receipts, Responses, RaiseResponse, AcceptAnswer;
    var s0 := s.(books := s.books.(offers := s.books.offers - 1));
    SameLedger(s, s0);
    if s.offer {
      match answer
      case None =>
        SameLedger(s, s0.(status := Failure));
        RaiseFaithful(s0.(status := Failure), true);
      case Some(a) =>
        var s1 := if 200 <= a.code < 300 then AcceptAnswer(s0, a) else s0.(status := Terminate);
        AcceptLedger(s0, a);
        SameLedger(s, s1);
        RaiseFaithful(s1, true);
    }
  }

  lemma AcceptLedger(s: Session, a: AnswerDescriptor)
    requires AnswerFits(s.books, a)
    ensures var t := AcceptAnswer(s, a); t.log == s.log && t.active == s.active && t.queue == s.queue
  {
  }

  lemma EventFaithful(s: Session)
    ensures Faithful(s, OnTerminateEvent(s)) && Faithful(s, Log(s, ControlEventRaised))
  {
    hide Faithful;
    SameLedger(s, s);
    Neutral(s, Log(s, ControlEventRaised), ControlEventRaised);
    if s.stage != Terminating {
      SameLedger(s, s.(disconnected := true));
      Neutral(s, Log(s.(disconnected := true), TerminateEventRaised), TerminateEventRaised);
    }
  }

  /** Every step but the arrival of a request, in whatever state the session
      is, loses, repeats and reorders no request. */
  lemma StepFaithful(s: Session, step: Step)
    requires Enabled(s, step) && !step.AppRequest?
    ensures Faithful(s, Next(s, step))
  {
    hide Faithful, OnAnswer, OnTerminateEvent, RaiseControlResponse;
    hide OnChannelReply, OnMediaReply, OnTerminateReply, OnDiscoverReply;
    match step
    case AnswerReply(a) => AnswerFaithful(s, a);
    case TerminateEvent => EventFaithful(s);
    case ControlEvent => EventFaithful(s);
    case ControlResponse => ControlFaithful(s);
    case ChannelReply(i, ok) => ChannelReplyFaithful(s, i, ok);
    case MediaReply => MediaReplyFaithful(s);
    case TerminateReply => SignalReplyFaithful(s, true);
    case DiscoverReply(found) => SignalReplyFaithful(s, found);
  }

  // ---------- whole runs ----------

  /** A request overtakes when it arrives while others are queued and none is
      active.  That happens only after a cancelled or failed request, whose
      response does not start the next one. */
  predicate Overtakes(s: Session, step: Step) {
    step.AppRequest? && s.active.None? && s.queue != []
  }

  /** The arrival of a request appends it to the ledger, except that one which
      overtakes is put before the queued ones. */
  lemma RequestLedger(s: Session, r: Request)
    ensures var t := OnRequest(s, r);
      && Receipts(t.log) == Receipts(s.log) + [r.id]
      && Ledger(t) == if Overtakes(s, AppRequest(r)) then Responses(s.log) + [r.id] + Ids(s.queue) else Ledger(s) + [r.id]
  {
    hide Receipts, Responses, Dispatch;
    LogEntry(s.log, Received(r.id));
    var s0 := Log(s, Received(r.id));
    if s.active.Some? {
      assert Ids(s.queue + [r]) == Ids(s.queue) + [r.id];
      assert Responses(s.log) + ActiveId(s.active) + (Ids(s.queue) + [r.id])
          == Responses(s.log) + ActiveId(s.active) + Ids(s.queue) + [r.id];
    } else {
      DispatchFaithful(s0.(active := Some(r)), r);
      assert Ledger(s0.(active := Some(r))) == Responses(s.log) + [r.id] + Ids(s.queue);
      if s.queue == [] {
        assert Ids(s.queue) == [];
      }
    }
  }

  /** No request of the run overtakes another. */
  ghost predicate NoOvertaking(s: Session, steps: seq<Step>)
    requires IsRun(s, steps)
    decreases |steps|
  {
    steps == [] || (!Overtakes(s, steps[0]) && NoOvertaking(Next(s, steps[0]), steps[1..]))
  }

  lemma {:induction false} RunKeepsLedger(s: Session, steps: seq<Step>)
    requires IsRun(s, steps) && NoOvertaking(s, steps) && Receipts(s.log) == Ledger(s)
    ensures Receipts(After(s, steps).log) == Ledger(After(s, steps))
    decreases |steps|
  {
    hide Enabled, Ledger, Receipts, Responses;
    if steps != [] {
      var t := Next(s, steps[0]);
      if steps[0].AppRequest? {
        RequestLedger(s, steps[0].r);
      } else {
        StepFaithful(s, steps[0]);
      }
      RunKeepsLedger(t, steps[1..]);
    }
  }

  /** In every run without overtaking, requests are answered in the order they
      came, each once: the requests received are the ones answered, then the
      active one, then the queued ones. */
  lemma AnsweredInOrder(version2: bool, steps: seq<Step>)
    requires IsRun(InitialSession(version2), steps)
    requires NoOvertaking(InitialSession(version2), steps)
    ensures var s := After(InitialSession(version2), steps);
      && Receipts(s.log) == Responses(s.log) + ActiveId(s.active) + Ids(s.queue)
      && Responses(s.log) <= Receipts(s.log)
  {
    NothingReceived(version2);
    RunKeepsLedger(InitialSession(version2), steps);
  }

  lemma NothingReceived(version2: bool)
    ensures var s := InitialSession(version2); Receipts(s.log) == Ledger(s) == []
  {
    assert Receipts([]) == [] && Responses([]) == [] && Ids([]) == [];
  }

  /** The condition is exact: once a request overtakes one with another id, the
      order is lost. */
  lemma OvertakingBreaksOrder(s: Session, r: Request)
    requires Receipts(s.log) == Ledger(s) && Overtakes(s, AppRequest(r)) && s.queue[0].id != r.id
    ensures Receipts(OnRequest(s, r).log) != Ledger(OnRequest(s, r))
  {
    hide Receipts, Responses, OnRequest;
    RequestLedger(s, r);
    var n := |Responses(s.log)|;
    assert Ids(s.queue)[0] == s.queue[0].id;
    assert (Responses(s.log) + [r.id] + Ids(s.queue))[n] == r.id;
    assert (Responses(s.log) + Ids(s.queue) + [r.id])[n] == s.queue[0].id;
  }

  /** Every request the run receives is new to the session. */
  ghost predicate NewIds(s: Session, steps: seq<Step>)
    requires IsRun(s, steps)
    decreases |steps|
  {
    steps == [] ||
    ((steps[0].AppRequest? ==> steps[0].r.id !in Receipts(s.log)) && NewIds(Next(s, steps[0]), steps[1..]))
  }

  /** At every moment of the run, requests stand in the order they came. */
  ghost predicate InOrderThroughout(s: Session, steps: seq<Step>)
    requires IsRun(s, steps)
    decreases |steps|
  {
    Receipts(s.log) == Ledger(s) && (steps == [] || InOrderThroughout(Next(s, steps[0]), steps[1..]))
  }

  /** The order is kept at every moment of a run if and only if no request of it overtakes. */
  lemma {:induction false} OrderKeptIffNoOvertaking(s: Session, steps: seq<Step>)
    requires IsRun(s, steps) && NewIds(s, steps) && Receipts(s.log) == Ledger(s)
    ensures InOrderThroughout(s, steps) <==> NoOvertaking(s, steps)
    decreases |steps|
  {
    hide Enabled, Ledger, Receipts, Responses, OnRequest;
    if steps != [] {
      var t := Next(s, steps[0]);
      if Overtakes(s, steps[0]) {
        QueuedWereReceived(s);
        OvertakingBreaksOrder(s, steps[0].r);
      } else {
        if steps[0].AppRequest? {
          RequestLedger(s, steps[0].r);
        } else {
          StepFaithful(s, steps[0]);
        }
        OrderKeptIffNoOvertaking(t, steps[1..]);
      }
    }
  }

  lemma QueuedWereReceived(s: Session)
    requires Receipts(s.log) == Ledger(s) && s.queue != []
    ensures s.queue[0].id in Receipts(s.log)
  {
    hide Receipts, Responses;
    assert Ids(s.queue)[0] == s.queue[0].id;
    assert Ledger(s)[|Responses(s.log)| + |ActiveId(s.active)|] == s.queue[0].id;
  }

  // ---------- a run that loses the order ----------

  lemma RunStarts(s: Session, first: Step, rest: seq<Step>)
    requires Enabled(s, first) && IsRun(Next(s, first), rest)
    ensures IsRun(s, [first] + rest) && After(s, [first] + rest) == After(Next(s, first), rest)
  {
    hide Next, Enabled;
    assert ([first] + rest)[1..] == rest;
  }

  lemma RunEnds(s: Session)
    ensures IsRun(s, []) && After(s, []) == s
  {
  }

  function Plain(id: nat, command: Command): Request {
    Request(id, command, true, true)
  }

  /** The first channel of a session whose server decides at once: an offer goes out. */
  lemma FirstChannel(id: nat)
    ensures var s := OnRequest(InitialSession(false), Plain(id, ChannelAdd(0, false)));
      && s.active == Some(Plain(id, ChannelAdd(0, false))) && s.queue == [] && s.registered && !s.hasId
      && s.offer && s.stage == GeneratingOffer && !s.disconnected && !s.context && !s.version2
      && s.books.offers == 1 && s.books.count == 0 && Outstanding(s.books) == 0
      && |s.books.channels| == |s.books.slots| == 1 && s.books.channels[0].id == 0
  {
    var s0, r := InitialSession(false), Plain(id, ChannelAdd(0, false));
    var s1 := Log(s0, Received(id)).(active := Some(r));
    var s2 := Log(Log(s1, Dispatched(id)).(registered := true, status := Success), SessionAdded);
    assert Dispatch(s1, r) == Perform(s2, r) == AddChannel(s2, 0, false);
    assert ChannelIndex([], 0) == 0;
    assert AddChannel(s2, 0, false) == OfferSend(RegisterChannel(s2, 0, false));
  }

  lemma QueuedBehind(s: Session, r: Request)
    requires s.active.Some?
    ensures OnRequest(s, r) == s.(queue := s.queue + [r], log := s.log + [Received(r.id)])
  {
  }

  /** Once the server ended the session a missing answer fails the active request
      and cancels the next one, which leaves the others queued. */
  lemma MissingAnswerCancels(s: Session)
    requires s.books.offers > 0 && s.offer && s.disconnected && s.stage != Terminating
    requires s.active.Some? && s.queue != [] && s.queue[0].command != SessionTerminate
    ensures var t := OnAnswer(s, None); t.active.None? && t.queue == s.queue[1..]
  {
    var s0 := s.(books := s.books.(offers := s.books.offers - 1), status := Failure);
    var s1 := Log(s0.(active := None, status := Terminate), Responded(s.active.value.id, Terminate));
    assert OnAnswer(s, None) == RaiseResponse(s0, true) == PopDispatch(s1);
    var s2 := s1.(active := Some(s.queue[0]), queue := s.queue[1..]);
    assert PopDispatch(s1) == Dispatch(s2, s.queue[0]);
    assert Dispatch(s2, s.queue[0]) == RaiseFailure(Log(s2, Dispatched(s.queue[0].id)).(status := Cancel));
  }

  /** A channel is being added, two updates are queued and the server ends the
      session.  The missing answer fails the first request and cancels the second;
      the third stays queued with none active, and any request that comes now
      overtakes it. */
  lemma OvertakingIsReachable(r: Request) returns (steps: seq<Step>)
    requires r.id != 3
    ensures IsRun(InitialSession(false), steps)
    ensures var s := After(InitialSession(false), steps);
      && Receipts(s.log) == Ledger(s) == [1, 2, 3] && Overtakes(s, AppRequest(r))
      && Receipts(OnRequest(s, r).log) != Ledger(OnRequest(s, r))
  {
    hide Receipts, Ledger, Responses, OnRequest, OnAnswer, IsRun, After;
    var add, update := Plain(1, ChannelAdd(0, false)), Plain(2, SessionUpdate);
    var again := Plain(3, SessionUpdate);
    var s0 := InitialSession(false);
    var s1 := OnRequest(s0, add);
    var s2 := OnRequest(s1, update);
    var s3 := OnRequest(s2, again);
    FirstChannel(1);
    QueuedBehind(s1, update);
    QueuedBehind(s2, again);
    var s4 := OnTerminateEvent(s3);
    var s5 := OnAnswer(s4, None);
    MissingAnswerCancels(s4);
    OrderSoFar(s0, add, update, again);
    StepFaithful(s3, TerminateEvent);
    StepFaithful(s4, AnswerReply(None));
    OvertakingBreaksOrder(s5, r);
    RunEnds(s5);
    steps := [AnswerReply(None)] + [];
    RunStarts(s4, AnswerReply(None), []);
    RunStarts(s3, TerminateEvent, steps);
    steps := [TerminateEvent] + steps;
    RunStarts(s2, AppRequest(again), steps);
    steps := [AppRequest(again)] + steps;
    RunStarts(s1, AppRequest(update), steps);
    steps := [AppRequest(update)] + steps;
    RunStarts(s0, AppRequest(add), steps);
    steps := [AppRequest(add)] + steps;
  }

  lemma OrderSoFar(s: Session, a: Request, b: Request, c: Request)
    requires s == InitialSession(false)
    requires OnRequest(s, a).active.Some? && OnRequest(OnRequest(s, a), b).active.Some?
    ensures var t := OnRequest(OnRequest(OnRequest(s, a), b), c); Receipts(t.log) == Ledger(t) == [a.id, b.id, c.id]
  {
    hide Receipts, Ledger, Responses, OnRequest;
    NothingReceived(false);
    RequestLedger(s, a);
    RequestLedger(OnRequest(s, a), b);
    RequestLedger(OnRequest(OnRequest(s, a), b), c);
  }
}
