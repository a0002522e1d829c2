/** Runs of a client session that go wrong, from the very first request on. */
module SessionFailures {
  import opened SessionModel
  import opened SessionOrder
  import opened SessionResets
  import opened SessionCounter

  // ---------- a rejected answer that nobody hears of ----------

  const ACCEPTED := AnswerDescriptor(200, 0, 0, true, true)

  /** An accepted answer without media ends the request at once. */
  lemma AcceptedAlone(s: Session)
    requires s.books.offers > 0 && s.offer && !s.version2 && !s.context && s.active.Some? && s.queue == []
    requires |s.books.slots| == |s.books.channels|
    ensures var t := OnAnswer(s, Some(ACCEPTED));
      && t.active.None? && t.queue == [] && t.offer && t.registered == s.registered && t.disconnected == s.disconnected
      && t.stage == ProcessingAnswer && t.books == s.books.(count := 0, offers := s.books.offers - 1)
  {
    hide RaiseResponse;
    var s0 := s.(books := s.books.(offers := s.books.offers - 1));
    var s1 := AcceptAnswer(s0, ACCEPTED);
    assert ModifySlots(s0.books.(count := 0), 0, 0) == s0.books.(count := 0);
    assert s1.books == s0.books.(count := 0) && s1.stage == ProcessingAnswer;
    AloneRaise(s1);
    RaiseKeeps(s1);
  }

  lemma DiscoveryAlone(s: Session, id: nat, accepted: nat)
    requires s.active.None? && s.queue == [] && s.registered && !s.disconnected && s.stage != Terminating && accepted > 0
    ensures var t := OnRequest(s, Plain(id, ResourceDiscover(accepted)));
      && t.active == Some(Plain(id, ResourceDiscover(accepted))) && t.queue == [] && t.registered && !t.disconnected
      && t.offer == s.offer && t.stage == Discovering
      && t.books == s.books.(count := accepted, discovers := s.books.discovers + accepted)
  {
    hide Perform;
    var r := Plain(id, ResourceDiscover(accepted));
    var s1 := Log(s, Received(id)).(active := Some(r));
    DispatchOf(s1, r, 0, 0);
    PerformsDiscovery(Admitted(s1, r), r);
  }

  lemma PerformsDiscovery(s: Session, r: Request)
    requires r.command.ResourceDiscover? && r.command.accepted > 0
    ensures Perform(s, r) == Log(
      s.(stage := Discovering, books := s.books.(count := r.command.accepted, discovers := s.books.discovers + r.command.accepted)),
      DiscoverSent(r.command.accepted))
  {
  }

  lemma EmptyReplyAlone(s: Session)
    requires s.books.discovers == 1 && s.active.Some? && s.queue == []
    ensures var t := OnDiscoverReply(s, false);
      && t.active.None? && t.queue == [] && t.offer == s.offer && t.registered == s.registered
      && t.disconnected == s.disconnected && t.stage == s.stage && t.books == s.books.(discovers := 0)
  {
    hide RaiseResponse;
    AloneRaise(s.(books := s.books.(discovers := 0), status := Failure));
    RaiseKeeps(s.(books := s.books.(discovers := 0), status := Failure));
  }

  lemma RaiseKeeps(s: Session)
    requires s.queue == [] && s.active.Some?
    ensures var t := RaiseResponse(s, true); t.offer == s.offer && t.disconnected == s.disconnected
  {
    hide RaiseResponse;
    RaiseOf(s, 0, 0);
  }

  lemma UpdateAlone(s: Session, id: nat)
    requires s.active.None? && s.queue == [] && s.registered && !s.disconnected && s.stage != Terminating && s.offer
    ensures var t := OnRequest(s, Plain(id, SessionUpdate));
      && t.active == Some(Plain(id, SessionUpdate)) && t.offer && t.books == s.books.(offers := s.books.offers + 1)
  {
    hide Perform;
    var r := Plain(id, SessionUpdate);
    var s1 := Log(s, Received(id)).(active := Some(r));
    DispatchOf(s1, r, 0, 0);
    assert Perform(Admitted(s1, r), r) == OfferSend(Admitted(s1, r)) by {
      PerformsUpdate(Admitted(s1, r), r);
    }
  }

  lemma PerformsUpdate(s: Session, r: Request)
    requires r.command == SessionUpdate && s.offer
    ensures Perform(s, r) == OfferSend(s)
  {
  }

  /** A channel is added, resources are discovered in vain and the session is
      updated: whatever answer rejects the update, its request is never answered. */
  lemma SilencedIsReachable(a: AnswerDescriptor) returns (steps: seq<Step>)
    requires !(200 <= a.code < 300) && a.controls <= 1 && a.audios <= 1
    ensures IsRun(InitialSession(false), steps)
    ensures var s := After(InitialSession(false), steps);
      && Enabled(s, AnswerReply(Some(a))) && s.active == Some(Plain(3, SessionUpdate))
      && var t := OnAnswer(s, Some(a)); t.log == s.log && t.active == s.active && t.books.offers == 0 && Outstanding(t.books) == 0
  {
    hide OnRequest, OnAnswer, OnDiscoverReply, IsRun, After;
    var add, find, update := Plain(1, ChannelAdd(0, false)), Plain(2, ResourceDiscover(1)), Plain(3, SessionUpdate);
    var s0 := InitialSession(false);
    var s1 := OnRequest(s0, add);
    FirstChannel(1);
    var s2 := OnAnswer(s1, Some(ACCEPTED));
    AcceptedAlone(s1);
    var s3 := OnRequest(s2, find);
    DiscoveryAlone(s2, 2, 1);
    var s4 := OnDiscoverReply(s3, false);
    EmptyReplyAlone(s3);
    var s5 := OnRequest(s4, update);
    UpdateAlone(s4, 3);
    RejectedIsSilent(s5, a);
    RunEnds(s5);
    RunStarts(s4, AppRequest(update), []);
    steps := [AppRequest(update)] + [];
    RunStarts(s3, DiscoverReply(false), steps);
    steps := [DiscoverReply(false)] + steps;
    RunStarts(s2, AppRequest(find), steps);
    steps := [AppRequest(find)] + steps;
    RunStarts(s1, AnswerReply(Some(ACCEPTED)), steps);
    steps := [AnswerReply(Some(ACCEPTED))] + steps;
    RunStarts(s0, AppRequest(add), steps);
    steps := [AppRequest(add)] + steps;
  }

  // ---------- an offer that goes out too early ----------

  lemma FirstDiscovery(id: nat, accepted: nat)
    requires accepted > 0
    ensures var s := OnRequest(InitialSession(false), Plain(id, ResourceDiscover(accepted)));
      && s.active == Some(Plain(id, ResourceDiscover(accepted))) && s.queue == [] && s.registered && !s.disconnected
      && !s.version2 && s.stage == Discovering && s.books == Books(accepted, [], [], map[], [], 0, 0, accepted)
  {
    hide Perform;
    var r := Plain(id, ResourceDiscover(accepted));
    var s1 := Log(InitialSession(false), Received(id)).(active := Some(r));
    DispatchOf(s1, r, 0, 0);
    PerformsDiscovery(Admitted(s1, r), r);
  }

  /** The books once a channel with media was added to a session without channels. */
  function OneChannel(discovers: nat): Books {
    Books(2, [Channel(0, false, true, false, true)], [Slot(true, true)], map[],
          [MediaCommand(AddTermination, ChannelEnd(0)), MediaCommand(AddTermination, RtpEnd(0))], 0, 0, discovers)
  }

  lemma EmptyReplyStartsAdd(s: Session, r: Request)
    requires s.active.Some? && s.queue == [r] && r == Plain(r.id, ChannelAdd(0, true))
    requires s.registered && !s.disconnected && !s.version2 && s.stage == Discovering
    requires s.books == Books(2, [], [], map[], [], 0, 0, 2)
    ensures var t := OnDiscoverReply(s, false); t.active == Some(r) && t.stage == GeneratingOffer && t.books == OneChannel(1)
  {
    hide Perform, RaiseResponse, PopDispatch;
    var s0 := s.(books := s.books.(discovers := 1), status := Failure);
    RaiseOf(s0, 0, 0);
    var s1 := Log(s0.(active := None, status := Failure), Responded(s.active.value.id, Failure));
    var s2 := s1.(active := Some(r), queue := []);
    PopOf(s1, r);
    DispatchOf(s2, r, 0, 0);
    PerformsAdd(Admitted(s2, r), r);
  }

  lemma PopOf(s: Session, r: Request)
    requires s.queue == [r]
    ensures PopDispatch(s) == Dispatch(s.(active := Some(r), queue := []), r)
  {
    hide Dispatch;
    assert s.queue[1..] == [];
  }

  lemma PerformsAdd(s: Session, r: Request)
    requires r.command == ChannelAdd(0, true) && !s.version2 && s.books == Books(2, [], [], map[], [], 0, 0, 1)
    ensures var t := Perform(s, r); t.active == s.active && t.stage == GeneratingOffer && t.books == OneChannel(1)
  {
    assert ChannelIndex([], 0) == 0;
    var b := AddChannelBooks(s.books, Channel(0, false, true, false, false));
    assert b.channels == [Channel(0, false, true, false, true)];
    assert b.slots == [Slot(true, true)];
    assert b.media == [MediaCommand(AddTermination, ChannelEnd(0)), MediaCommand(AddTermination, RtpEnd(0))];
  }

  /** A discovery of two resources is answered, the first time without descriptor,
      while an added channel waits.  The second reply is taken for one of the
      channel, whose offer goes out before its RTP termination is there. */
  lemma StrayReplySendsOfferEarly() returns (steps: seq<Step>)
    ensures IsRun(InitialSession(false), steps) && !NullsComeLast(InitialSession(false), steps)
    ensures var s := After(InitialSession(false), steps);
      s.books.offers == 1 && s.books.media == [MediaCommand(AddTermination, RtpEnd(0))] && s.books.count == 0
  {
    hide OnRequest, OnDiscoverReply, IsRun, After, NullsComeLast;
    var find, add := Plain(1, ResourceDiscover(2)), Plain(2, ChannelAdd(0, true));
    var s0 := InitialSession(false);
    var s1 := OnRequest(s0, find);
    FirstDiscovery(1, 2);
    var s2 := OnRequest(s1, add);
    QueuedBehind(s1, add);
    var s3 := OnDiscoverReply(s2, false);
    EmptyReplyStartsAdd(s2, add);
    var s4 := OnDiscoverReply(s3, true);
    StrayReply(s3);
    var s5 := OnMediaReply(s4);
    EarlyOffer(s4);
    RunEnds(s5);
    RunStarts(s4, MediaReply, []);
    steps := [MediaReply] + [];
    RunStarts(s3, DiscoverReply(true), steps);
    steps := [DiscoverReply(true)] + steps;
    RunStarts(s2, DiscoverReply(false), steps);
    steps := [DiscoverReply(false)] + steps;
    NotLast(s2, steps);
    RunStarts(s1, AppRequest(add), steps);
    NotLastLater(s1, AppRequest(add), steps);
    steps := [AppRequest(add)] + steps;
    RunStarts(s0, AppRequest(find), steps);
    NotLastLater(s0, AppRequest(find), steps);
    steps := [AppRequest(find)] + steps;
  }

  lemma StrayReply(s: Session)
    requires s.active.Some? && s.stage == GeneratingOffer && s.books == OneChannel(1)
    ensures OnDiscoverReply(s, true) == s.(books := OneChannel(0).(count := 1))
  {
  }

  lemma EarlyOffer(s: Session)
    requires s.books == OneChannel(0).(count := 1)
    ensures OnMediaReply(s).books == OneChannel(0).(
      count := 0, offers := 1, channels := [Channel(0, false, true, false, false)], media := [MediaCommand(AddTermination, RtpEnd(0))])
  {
    assert s.books.media[1..] == [MediaCommand(AddTermination, RtpEnd(0))];
    assert WaitForTermination(s.books.channels, 0, false) == [Channel(0, false, true, false, false)];
  }

  lemma NotLast(s: Session, steps: seq<Step>)
    requires IsRun(s, steps) && steps != [] && steps[0] == DiscoverReply(false) && s.books.discovers != 1
    ensures !NullsComeLast(s, steps)
  {
  }

  lemma NotLastLater(s: Session, first: Step, rest: seq<Step>)
    requires Enabled(s, first) && IsRun(Next(s, first), rest) && IsRun(s, [first] + rest) && !NullsComeLast(Next(s, first), rest)
    ensures !NullsComeLast(s, [first] + rest)
  {
    hide Next, Enabled;
    assert ([first] + rest)[1..] == rest;
  }
}
