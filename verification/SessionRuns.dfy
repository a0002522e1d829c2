/** Theorems about whole runs of the client session protocol. */
module SessionRuns {
  import opened SessionModel
  import opened SessionProofs

  // ---------- what the log shows ----------

  /** How often the session was removed from the client's session table. */
  function Removals(log: seq<Event>): nat {
    if log == [] then 0
    else Removals(log[..|log| - 1]) + (if log[|log| - 1] == SessionRemoved then 1 else 0)
  }

  /** Offers sent since the last dispatch of an application request. */
  function FreshOffers(log: seq<Event>): nat {
    if log == [] || log[|log| - 1].Dispatched? then 0
    else FreshOffers(log[..|log| - 1]) + (if log[|log| - 1] == OfferSent then 1 else 0)
  }

  lemma LogGrowth(log: seq<Event>, e: Event)
    ensures Removals(log + [e]) == Removals(log) + (if e == SessionRemoved then 1 else 0)
    ensures FreshOffers(log + [e]) == if e.Dispatched? then 0 else FreshOffers(log) + (if e == OfferSent then 1 else 0)
  {
    assert (log + [e])[..|log|] == log;
  }

  // ---------- invariants ----------

  ghost predicate HasMedia(slots: seq<Slot>) {
    exists i :: 0 <= i < |slots| && slots[i].termination
  }

  /** Channels and RTP slots grow in step, and the media context exists exactly
      when some channel brought media. */
  ghost predicate Structure(channels: seq<Channel>, slots: seq<Slot>, context: bool, offer: bool) {
    && |channels| == |slots|
    && (forall i :: 0 <= i < |slots| ==> slots[i].termination == channels[i].termination)
    && (context <==> HasMedia(slots))
    && (channels != [] ==> offer)
  }

  ghost predicate Built(s: Session) {
    Structure(s.books.channels, s.books.slots, s.context, s.offer)
  }

  /** Who waits for what is outstanding. */
  ghost predicate Phases(s: Session) {
    && (s.stage == Terminating && s.books.media != [] ==> EndsWithRtpSubtract(s.books.media))
    && s.books.terminates <= 1 && (s.books.terminates > 0 ==> s.stage == Terminating)
    && (s.books.discovers > 0 ==> s.stage == Discovering)
    && s.books.offers <= 1
    && (s.books.offers > 0 ==> Outstanding(s.books) == 0 && s.stage != Terminating && s.offer)
    && (s.books.offers + Outstanding(s.books) > 0 ==> s.active.Some? && s.active.value.command != ControlMessage)
    && (s.stage == Terminating && Outstanding(s.books) > 0 ==> s.active.value.command == SessionTerminate)
    && (s.stage == GeneratingOffer && Outstanding(s.books) > 0 ==> s.active.value.command.ChannelAdd?)
  }

  /** The session leaves the client's table exactly when its termination is
      complete, and an add request has sent its offer exactly when its replies are in. */
  ghost predicate LogAgrees(s: Session) {
    && Removals(s.log) == (if s.stage == Terminating && Outstanding(s.books) == 0 then 1 else 0)
    && (s.active.Some? && s.active.value.command.ChannelAdd? && s.stage != Terminating ==>
          FreshOffers(s.log) == if s.stage == GeneratingOffer && Outstanding(s.books) > 0 then 0 else 1)
  }

  ghost predicate Inv(s: Session) {
    && Balanced(s.books) && Built(s) && Staged(s.books, s.stage)
    && Phases(s) && LogAgrees(s)
  }

  /** No reply is owed by any agent. */
  ghost predicate Quiet(b: Books) {
    b.count == 0 && b.conn == map[] && b.media == [] && b.terminates == 0 && b.discovers == 0 && b.offers == 0
  }

  ghost predicate Idle(s: Session) {
    Balanced(s.books) && Built(s) && Quiet(s.books)
  }

  ghost predicate RemovedOnceDone(s: Session) {
    Removals(s.log) == if s.stage == Terminating then 1 else 0
  }

  lemma QuietStaged(b: Books, stage: Stage)
    requires Quiet(b)
    ensures Staged(b, stage)
  {
  }

  lemma QuietWhenNothingOwed(b: Books)
    requires Balanced(b) && b.offers == 0 && Outstanding(b) == 0
    ensures Quiet(b)
  {
  }

  lemma BalancedCount(b: Books)
    requires Balanced(b)
    ensures b.count == Outstanding(b)
  {
  }

  lemma IdleInv(s: Session)
    requires Idle(s) && RemovedOnceDone(s)
    requires s.active.Some? && s.active.value.command.ChannelAdd? ==> s.stage == Terminating
    ensures Inv(s)
  {
    hide Balanced, Structure;
    QuietStaged(s.books, s.stage);
  }

  // ---------- dispatching application requests ----------

  lemma OfferSendInv(s: Session)
    requires Idle(s) && s.offer && s.stage != Terminating
    requires s.active.Some? && s.active.value.command != ControlMessage
    requires Removals(s.log) == 0 && FreshOffers(s.log) == 0
    ensures Inv(OfferSend(s))
  {
    hide Structure;
    LogGrowth(s.log, OfferSent);
  }

  lemma AddChannelBooksBalanced(b: Books, ch: Channel)
    requires Balanced(b) && Quiet(b) && !ch.waitingForChannel && !ch.waitingForTermination
    ensures var r := AddChannelBooks(b, ch);
      && Balanced(r) && Staged(r, GeneratingOffer) && SameSignaling(b, r)
      && |r.channels| == |r.slots| == |b.slots| + 1
      && (forall k :: 0 <= k < |b.slots| ==> r.slots[k].termination == b.slots[k].termination)
      && (forall k :: 0 <= k < |b.slots| ==> r.channels[k].termination == b.channels[k].termination)
      && r.slots[|b.slots|].termination == r.channels[|b.slots|].termination == ch.termination
  {
    var i := |b.channels|;
    var b1 := b.(count := 0, channels := b.channels + [ch], slots := b.slots + [Slot(ch.termination, false)]);
    assert Balanced(b1) && Staged(b1, GeneratingOffer);
    var b2 := if ch.control then AskChannel(b1, i, ChannelAdded) else b1;
    if ch.control {
      AskChannelBalanced(b1, i, ChannelAdded);
      AskChannelStaged(b1, i, GeneratingOffer);
    }
    if ch.termination {
      AskMediaBalanced(b2, AddTermination, ChannelEnd(i));
      AskMediaStaged(b2, AddTermination, ChannelEnd(i), GeneratingOffer);
      var b3 := AskMedia(b2, AddTermination, ChannelEnd(i));
      AskMediaBalanced(b3, AddTermination, RtpEnd(i));
      AskMediaStaged(b3, AddTermination, RtpEnd(i), GeneratingOffer);
    }
  }

  lemma AddedStructure(b: Books, context: bool, offer: bool, ch: Channel)
    requires Balanced(b) && Quiet(b) && Structure(b.channels, b.slots, context, offer)
    requires !ch.waitingForChannel && !ch.waitingForTermination
    ensures Structure(AddChannelBooks(b, ch).channels, AddChannelBooks(b, ch).slots, context || ch.termination, true)
  {
    hide Balanced, Staged, AddChannelBooks, Quiet;
    AddChannelBooksBalanced(b, ch);
    var r := AddChannelBooks(b, ch);
    if HasMedia(b.slots) {
      var k :| 0 <= k < |b.slots| && b.slots[k].termination;
      assert r.slots[k].termination;
    }
    if ch.termination {
      assert r.slots[|b.slots|].termination;
    }
  }

  lemma OfferGiven(s: Session)
    requires Built(s) && s.books.channels != []
    ensures s.offer
  {
  }

  /** Waiting for the add replies of a new channel. */
  lemma AddPendingInv(s: Session)
    requires Balanced(s.books) && Built(s) && Staged(s.books, GeneratingOffer) && s.stage == GeneratingOffer
    requires s.books.offers == 0 && s.books.terminates == 0 && s.books.discovers == 0 && Outstanding(s.books) > 0
    requires s.active.Some? && s.active.value.command.ChannelAdd?
    requires Removals(s.log) == 0 && FreshOffers(s.log) == 0
    ensures Inv(s)
  {
    hide Balanced, Structure, Staged;
  }

  lemma RegisterChannelBuilds(s: Session, id: nat, media: bool)
    requires Idle(s)
    ensures var r := RegisterChannel(s, id, media);
      && Balanced(r.books) && Built(r) && Staged(r.books, GeneratingOffer) && SameSignaling(s.books, r.books)
      && r.books.count == Outstanding(r.books)
  {
    hide Balanced, Structure, Staged, AddChannelBooks, Outstanding;
    var ch := Channel(id, s.version2, media, false, false);
    AddChannelBooksBalanced(s.books, ch);
    AddedStructure(s.books, s.context, s.offer, ch);
    BalancedCount(AddChannelBooks(s.books, ch));
  }

  lemma AddChannelInv(s: Session, id: nat, media: bool)
    requires Idle(s) && s.stage != Terminating && Removals(s.log) == 0 && FreshOffers(s.log) == 0
    requires s.active.Some? && s.active.value.command.ChannelAdd?
    ensures Inv(AddChannel(s, id, media))
  {
    hide Balanced, Structure, Staged, AddChannelBooks, Inv, OfferSend, Outstanding, Removals, FreshOffers;
    if ChannelIndex(s.books.channels, id) < |s.books.channels| {
      OfferGiven(s);
      OfferSendInv(s.(offerResource := true));
    } else {
      var s1 := RegisterChannel(s, id, media);
      RegisterChannelBuilds(s, id, media);
      if s1.books.count == 0 {
        QuietWhenNothingOwed(s1.books);
        OfferSendInv(s1);
      } else {
        AddPendingInv(s1);
      }
    }
  }

  lemma TerminateStart(b: Books, context: bool)
    requires Balanced(b) && Quiet(b)
    ensures var r := AskMediaIf(context, b.(count := 0), DestroyTopology, NoEnd);
      ChannelsAsked(r, 0) && SameTerminations(b, r) && SameSignaling(b, r) && (!context ==> r.media == [])
  {
    QuietStaged(b, Terminating);
    if context {
      AskMediaBalanced(b, DestroyTopology, NoEnd);
      AskMediaStaged(b, DestroyTopology, NoEnd, Terminating);
    }
  }

  lemma TerminateBooksBalanced(b: Books, context: bool, offer: bool)
    requires Balanced(b) && Structure(b.channels, b.slots, context, offer) && Quiet(b)
    ensures var r := TerminateBooks(b, context);
      && Balanced(r) && Staged(r, Terminating) && SameTerminations(b, r)
      && r.offers == 0 && r.terminates == 1 && r.discovers == 0
      && (r.media != [] ==> EndsWithRtpSubtract(r.media))
  {
    hide Balanced, Staged, AskMediaIf, TerminateChannels, TerminateSlots, EndsWithRtpSubtract, NoMentions;
    TerminateStart(b, context);
    var b1 := AskMediaIf(context, b.(count := 0), DestroyTopology, NoEnd);
    TerminateChannelsAsks(b1, 0);
    var b2 := TerminateChannels(b1, 0);
    if context {
      TerminateSlotsAsks(b2, 0);
      var k :| 0 <= k < |b.slots| && b.slots[k].termination;
      RtpSubtractComesLast(b2, 0, k);
      TerminateRequestBalanced(TerminateSlots(b2, 0));
    } else {
      TerminateRequestBalanced(b2);
    }
  }

  lemma TerminateRequestBalanced(b: Books)
    requires Balanced(b) && Staged(b, Terminating)
    ensures var r := b.(count := b.count + 1, terminates := b.terminates + 1);
      Balanced(r) && Staged(r, Terminating)
  {
  }

  lemma SameStructure(a: Books, b: Books, context: bool, offer: bool)
    requires Structure(a.channels, a.slots, context, offer) && SameTerminations(a, b)
    ensures Structure(b.channels, b.slots, context, offer)
  {
    if HasMedia(a.slots) {
      var k :| 0 <= k < |a.slots| && a.slots[k].termination;
      assert b.slots[k].termination;
    }
  }

  lemma TerminateSessionInv(s: Session)
    requires Idle(s) && s.stage != Terminating && Removals(s.log) == 0
    requires s.active.Some? && s.active.value.command == SessionTerminate
    ensures Inv(TerminateSession(s))
  {
    hide Balanced, Structure, Staged, TerminateBooks, SameTerminations, EndsWithRtpSubtract, Removals, FreshOffers;
    TerminateBooksBalanced(s.books, s.context, s.offer);
    SameStructure(s.books, TerminateBooks(s.books, s.context), s.context, s.offer);
    LogGrowth(s.log, TerminateSent);
  }

  lemma RaiseFailureInv(s: Session)
    requires Idle(s) && RemovedOnceDone(s)
    ensures Inv(RaiseFailure(s))
  {
    hide Balanced, Structure, Inv, Quiet, Removals;
    if s.active.Some? {
      LogGrowth(s.log, Responded(s.active.value.id, s.status));
    }
    IdleInv(RaiseFailure(s));
  }

  lemma {:induction false} DispatchInv(s: Session, r: Request)
    requires Idle(s) && RemovedOnceDone(s) && s.active == Some(r)
    ensures Inv(Dispatch(s, r))
    decreases |s.queue|, 2
  {
    hide Balanced, Structure, Inv, Quiet, Perform, RaiseResponse, RaiseFailure, Removals, FreshOffers;
    LogGrowth(s.log, Dispatched(r.id));
    var s0 := Log(s, Dispatched(r.id));
    if s.stage == Terminating {
      IdleInv(s0);
    } else if s.disconnected && r.command != SessionTerminate {
      RaiseFailureInv(s0.(status := Cancel));
    } else if s.registered {
      PerformInv(s0.(status := Success), r);
    } else if r.command == SessionTerminate {
      RaiseInv(s0.(status := Success), false);
    } else if !r.agentsFound || s.status == Failure || !r.sessionCreated {
      RaiseFailureInv(s0.(status := Failure));
    } else {
      LogGrowth(s0.log, SessionAdded);
      PerformInv(Log(s0.(registered := true, status := Success), SessionAdded), r);
    }
  }

  lemma DiscoverSentInv(s: Session, accepted: nat)
    requires Idle(s) && s.stage != Terminating && Removals(s.log) == 0 && accepted > 0
    requires s.active.Some? && s.active.value.command.ResourceDiscover?
    ensures Inv(DiscoverResources(s, accepted))
  {
    hide Structure;
    LogGrowth(s.log, DiscoverSent(accepted));
  }

  lemma {:induction false} DiscoverInv(s: Session, accepted: nat)
    requires Idle(s) && s.stage != Terminating && Removals(s.log) == 0
    requires s.active.Some? && s.active.value.command.ResourceDiscover?
    ensures Inv(DiscoverResources(s, accepted))
    decreases |s.queue|, 1, 0
  {
    hide Balanced, Structure, Inv, RaiseResponse, Removals, FreshOffers;
    if accepted == 0 {
      assert s.books.(count := 0) == s.books;
      RaiseInv(StageSet(s, Discovering).(status := Failure), true);
    } else {
      DiscoverSentInv(s, accepted);
    }
  }

  lemma {:induction false} SendControlInv(s: Session, r: Request)
    requires Idle(s) && RemovedOnceDone(s) && s.active == Some(r) && r.command == ControlMessage
    ensures Inv(SendControl(s, r))
    decreases |s.queue|, 1, 0
  {
    hide Balanced, Structure, Inv, PopDispatch, Quiet, Removals, FreshOffers;
    if s.hasId {
      LogGrowth(s.log, ControlSent(r.id));
      IdleInv(Log(s, ControlSent(r.id)));
    } else {
      LogGrowth(s.log, ControlResponded(r.id));
      PopInv(Log(s.(active := None), ControlResponded(r.id)));
    }
  }

  lemma {:induction false} PerformInv(s: Session, r: Request)
    requires Idle(s) && s.stage != Terminating && Removals(s.log) == 0 && FreshOffers(s.log) == 0
    requires s.active == Some(r)
    ensures Inv(Perform(s, r))
    decreases |s.queue|, 1, 1
  {
    hide Balanced, Structure, Inv, AddChannel, TerminateSession, OfferSend, FreshOffers, Removals;
    hide DiscoverResources, SendControl, Quiet;
    match r.command
    case SessionUpdate => if s.offer { OfferSendInv(s); } else { IdleInv(s); }
    case SessionTerminate => TerminateSessionInv(s);
    case ChannelAdd(id, media) => AddChannelInv(s, id, media);
    case ChannelRemove(_) => if s.offer { OfferSendInv(s.(offerResource := false)); } else { IdleInv(s); }
    case ResourceDiscover(accepted) => DiscoverInv(s, accepted);
    case ControlMessage => SendControlInv(s, r);
  }

  lemma {:induction false} RaiseInv(s: Session, processPending: bool)
    requires Idle(s) && RemovedOnceDone(s) && s.active.Some?
    ensures Inv(RaiseResponse(s, processPending))
    decreases |s.queue|, 0, 1
  {
    hide Balanced, Structure, Inv, PopDispatch, Quiet;
    var r := s.active.value;
    var status := if s.disconnected then Terminate else s.status;
    LogGrowth(s.log, Responded(r.id, status));
    var s1 := Log(s.(active := None, status := status), Responded(r.id, status));
    if processPending {
      PopInv(s1);
    } else {
      IdleInv(s1);
    }
  }

  lemma {:induction false} PopInv(s: Session)
    requires Idle(s) && RemovedOnceDone(s)
    ensures Inv(PopDispatch(s))
    decreases |s.queue|, 0, 0
  {
    hide Balanced, Structure, Inv, Dispatch, Quiet;
    if s.queue == [] {
      IdleInv(s.(active := None));
    } else {
      DispatchInv(s.(active := Some(s.queue[0]), queue := s.queue[1..]), s.queue[0]);
    }
  }

  // ---------- replies ----------

  lemma CallAnswered(conn: map<nat, ChannelCall>, channels: seq<Channel>, i: nat)
    requires CallFlags(conn, channels) && i in conn
    ensures i < |channels| && channels[i].waitingForChannel
    ensures CallFlags(conn - {i}, WaitForChannel(channels, i, false))
    ensures |conn - {i}| == |conn| - 1
  {
    assert (conn - {i}).Keys == conn.Keys - {i};
  }

  lemma ChannelReplyBalanced(b: Books, i: nat, stage: Stage)
    requires Balanced(b) && Staged(b, stage) && i in b.conn
    ensures i < |b.channels| && b.channels[i].waitingForChannel
    ensures var (r, last) := SubrequestRemove(b.(conn := b.conn - {i}, channels := WaitForChannel(b.channels, i, false)));
      && Balanced(r) && Staged(r, stage) && SameTerminations(b, r) && SameSignaling(b, r) && r.media == b.media
      && Outstanding(r) == Outstanding(b) - 1 && last == (Outstanding(r) == 0)
  {
    hide CallFlags, SlotFlags, TargetsExist;
    CallAnswered(b.conn, b.channels, i);
  }

  /** The books after the media engine answered its oldest command. */
  function AnswerMedia(b: Books): Books
    requires b.media != []
  {
    var t := b.media[0].target;
    b.(media := b.media[1..],
       channels := if t.ChannelEnd? then WaitForTermination(b.channels, t.i, false) else b.channels,
       slots := if t.RtpEnd? then WaitForSlot(b.slots, t.i, false) else b.slots)
  }

  lemma MediaAnsweredChannels(b: Books)
    requires b.media != [] && ChannelFlags(b.media, b.channels) && CallFlags(b.conn, b.channels)
    requires TargetOk(b.media[0].target, |b.channels|)
    ensures var t := b.media[0].target; t.ChannelEnd? ==> b.channels[t.i].waitingForTermination
    ensures ChannelFlags(AnswerMedia(b).media, AnswerMedia(b).channels)
    ensures CallFlags(b.conn, AnswerMedia(b).channels)
  {
    TargetsTail(b.media);
  }

  lemma MediaAnsweredSlots(b: Books)
    requires b.media != [] && SlotFlags(b.media, b.slots)
    requires TargetOk(b.media[0].target, |b.slots|)
    ensures var t := b.media[0].target; t.RtpEnd? ==> b.slots[t.i].waiting
    ensures SlotFlags(AnswerMedia(b).media, AnswerMedia(b).slots)
  {
    TargetsTail(b.media);
  }

  lemma MediaReplyBalanced(b: Books)
    requires Balanced(b) && b.media != []
    ensures TargetOk(b.media[0].target, |b.channels|) && |b.slots| == |b.channels|
    ensures var t := b.media[0].target;
      && (t.ChannelEnd? ==> b.channels[t.i].waitingForTermination)
      && (t.RtpEnd? ==> b.slots[t.i].waiting)
    ensures var (r, last) := SubrequestRemove(AnswerMedia(b));
      && Balanced(r) && SameTerminations(b, r) && SameSignaling(b, r)
      && Outstanding(r) == Outstanding(b) - 1 && last == (Outstanding(r) == 0)
  {
    hide CallFlags, SlotFlags, ChannelFlags;
    MediaAnsweredChannels(b);
    MediaAnsweredSlots(b);
  }

  lemma MediaReplyStaged(b: Books, stage: Stage)
    requires Staged(b, stage) && b.media != []
    ensures Staged(SubrequestRemove(AnswerMedia(b)).0, stage)
    ensures EndsWithRtpSubtract(b.media) && |b.media| > 1 ==> EndsWithRtpSubtract(b.media[1..])
  {
  }

  /** After a reply that leaves others owed the session just goes on waiting. */
  lemma StillPendingInv(s: Session, b: Books)
    requires Inv(s) && Outstanding(s.books) > 0
    requires Balanced(b) && Staged(b, s.stage) && SameTerminations(s.books, b) && Outstanding(b) > 0
    requires b.offers == s.books.offers && b.terminates <= s.books.terminates && b.discovers <= s.books.discovers
    requires s.stage == Terminating && b.media != [] ==> EndsWithRtpSubtract(b.media)
    ensures Inv(s.(books := b))
  {
    hide Balanced, Staged, Structure, SameTerminations, EndsWithRtpSubtract, Removals, FreshOffers;
    SameStructure(s.books, b, s.context, s.offer);
  }

  /** After the last reply nothing is owed by any agent. */
  lemma LastReplyIdle(s: Session, b: Books)
    requires Inv(s) && Outstanding(s.books) > 0
    requires Balanced(b) && SameTerminations(s.books, b) && Outstanding(b) == 0 && b.offers == s.books.offers
    ensures Idle(s.(books := b)) && Removals(s.log) == 0 && s.active.Some?
    ensures s.stage == GeneratingOffer ==> s.active.value.command.ChannelAdd? && FreshOffers(s.log) == 0
  {
    hide Balanced, Staged, Structure, SameTerminations, Removals, FreshOffers;
    SameStructure(s.books, b, s.context, s.offer);
    QuietWhenNothingOwed(b);
  }

  lemma ReleaseBalanced(s: Session)
    requires Idle(s)
    ensures Idle(s.(books := s.books.(channels := ReleaseControl(s.books.channels))))
  {
  }

  lemma RaiseTerminatedInv(s: Session, status: Status)
    requires Idle(s) && s.stage == Terminating && Removals(s.log) == 0 && s.active.Some?
    ensures Inv(RaiseTerminated(s, status))
  {
    hide Balanced, Structure, Quiet, Inv, Removals, FreshOffers, RaiseResponse, ReleaseControl;
    ReleaseBalanced(s);
    LogGrowth(s.log, SessionRemoved);
    var s1 := Log(s.(books := s.books.(channels := ReleaseControl(s.books.channels))), SessionRemoved);
    RaiseInv(if status != Success then s1.(status := status) else s1, false);
  }

  /** The books after the connection agent answered for channel i. */
  function AnswerCall(b: Books, i: nat): Books {
    b.(conn := b.conn - {i}, channels := WaitForChannel(b.channels, i, false))
  }

  /** What follows the last reply of a stage, whichever agent gave it. */
  function Continue(s: Session, status: Status): Session {
    match s.stage
    case GeneratingOffer => OfferSend(s)
    case Terminating => RaiseTerminated(s, status)
    case ProcessingAnswer => RaiseResponse(if status == Success then s else s.(status := status), true)
    case Discovering =>
      if s.active.Some? then PopDispatch(Log(s.(active := None), Responded(s.active.value.id, Success))) else s
    case NoStage => s
  }

  lemma ContinueInv(s: Session, status: Status)
    requires Idle(s) && Removals(s.log) == 0 && s.active.Some? && s.stage != NoStage
    requires s.stage == GeneratingOffer ==> s.active.value.command.ChannelAdd? && FreshOffers(s.log) == 0 && s.offer
    ensures Inv(Continue(s, status))
  {
    hide Balanced, Structure, Quiet, Inv, Removals, FreshOffers, RaiseResponse, RaiseTerminated, PopDispatch, OfferSend;
    match s.stage
    case GeneratingOffer => OfferSendInv(s);
    case Terminating => RaiseTerminatedInv(s, status);
    case ProcessingAnswer => RaiseInv(if status == Success then s else s.(status := status), true);
    case Discovering => DiscoveredInv(s);
    case NoStage =>
  }

  lemma DiscoveredInv(s: Session)
    requires Idle(s) && Removals(s.log) == 0 && s.active.Some? && s.stage == Discovering
    ensures Inv(PopDispatch(Log(s.(active := None), Responded(s.active.value.id, Success))))
  {
    hide Balanced, Structure, Quiet, Inv, Removals, FreshOffers, PopDispatch;
    LogGrowth(s.log, Responded(s.active.value.id, Success));
    PopInv(Log(s.(active := None), Responded(s.active.value.id, Success)));
  }

  /** Each handler of a reply takes the reply off the books and then either
      goes on waiting or, on the last reply, continues as its stage demands.
      A topology or channel-subtract reply, whose handlers would not complete a
      termination, is never the last one. */
  lemma ChannelReplyOutcome(s: Session, i: nat, ok: bool)
    requires Inv(s) && i in s.books.conn
    ensures i < |s.books.channels|
    ensures var (b, last) := SubrequestRemove(AnswerCall(s.books, i));
      OnChannelReply(s, i, ok)
      == if last then Continue(s.(books := b), if ok then Success else Failure) else s.(books := b)
  {
    hide Balanced, Structure, RaiseResponse, RaiseTerminated, PopDispatch, OfferSend, Phases, LogAgrees;
    ChannelReplyBalanced(s.books, i, s.stage);
  }

  lemma MediaReplyOutcome(s: Session)
    requires Inv(s) && s.books.media != []
    ensures var (b, last) := SubrequestRemove(AnswerMedia(s.books));
      OnMediaReply(s) == if last then Continue(s.(books := b), Success) else s.(books := b)
  {
    hide Balanced, Structure, LogAgrees, Continue, OnMediaReply, AnswerMedia;
    MediaReplyBalanced(s.books);
    var m := s.books.media[0];
    assert MediaOf(s.stage, m);
    if s.stage == Terminating && Outstanding(s.books) == 1 {
      assert |s.books.media| == 1;
      assert m.kind == SubtractTermination && m.target.RtpEnd?;
    }
    match m.target
    case RtpEnd(i) => RtpReplyOutcome(s, m);
    case ChannelEnd(i) => ChannelEndReplyOutcome(s, m);
    case NoEnd => TopologyReplyOutcome(s, m);
  }

  lemma RtpReplyOutcome(s: Session, m: MediaCommand)
    requires s.books.media != [] && m == s.books.media[0] && MediaOf(s.stage, m)
    requires m.target.RtpEnd? && m.target.i < |s.books.slots| && s.books.slots[m.target.i].waiting
    ensures var (b, last) := SubrequestRemove(AnswerMedia(s.books));
      OnMediaReply(s) == if last then Continue(s.(books := b), Success) else s.(books := b)
  {
    hide RaiseResponse, RaiseTerminated, PopDispatch, OfferSend;
    var s0 := s.(books := s.books.(media := s.books.media[1..]));
    assert s0.books.(slots := WaitForSlot(s0.books.slots, m.target.i, false)) == AnswerMedia(s.books);
  }

  lemma ChannelEndReplyOutcome(s: Session, m: MediaCommand)
    requires s.books.media != [] && m == s.books.media[0] && MediaOf(s.stage, m)
    requires m.target.ChannelEnd? && m.target.i < |s.books.channels| && s.books.channels[m.target.i].waitingForTermination
    requires s.stage == Terminating ==> !SubrequestRemove(AnswerMedia(s.books)).1
    ensures var (b, last) := SubrequestRemove(AnswerMedia(s.books));
      OnMediaReply(s) == if last then Continue(s.(books := b), Success) else s.(books := b)
  {
    hide RaiseResponse, RaiseTerminated, PopDispatch, OfferSend;
    var s0 := s.(books := s.books.(media := s.books.media[1..]));
    assert s0.books.(channels := WaitForTermination(s0.books.channels, m.target.i, false)) == AnswerMedia(s.books);
  }

  lemma TopologyReplyOutcome(s: Session, m: MediaCommand)
    requires s.books.media != [] && m == s.books.media[0] && MediaOf(s.stage, m) && m.target.NoEnd?
    requires s.stage == Terminating ==> !SubrequestRemove(AnswerMedia(s.books)).1
    ensures var (b, last) := SubrequestRemove(AnswerMedia(s.books));
      OnMediaReply(s) == if last then Continue(s.(books := b), Success) else s.(books := b)
  {
    hide RaiseResponse, RaiseTerminated, PopDispatch, OfferSend;
  }

  lemma TerminateReplyOutcome(s: Session)
    requires Inv(s) && s.books.terminates > 0
    ensures var (b, last) := SubrequestRemove(s.books.(terminates := s.books.terminates - 1));
      OnTerminateReply(s) == if last then Continue(s.(books := b), Success) else s.(books := b)
  {
  }

  lemma DiscoverReplyOutcome(s: Session)
    requires Inv(s) && s.books.discovers > 0
    ensures var (b, last) := SubrequestRemove(s.books.(discovers := s.books.discovers - 1));
      OnDiscoverReply(s, true) == if last then Continue(s.(books := b), Success) else s.(books := b)
  {
    hide Balanced, Structure, LogAgrees, PopDispatch;
    assert s.active.Some?;
  }

  /** Taking one reply off the books keeps them balanced and owes one reply less. */
  ghost predicate OneLess(s: Session, b: Books, last: bool) {
    && Balanced(b) && Staged(b, s.stage) && SameTerminations(s.books, b)
    && Outstanding(b) == Outstanding(s.books) - 1 && last == (Outstanding(b) == 0)
    && b.offers == s.books.offers && b.terminates <= s.books.terminates && b.discovers <= s.books.discovers
    && (s.stage == Terminating && b.media != [] ==> EndsWithRtpSubtract(b.media))
  }

  lemma AfterReplyInv(s: Session, b: Books, last: bool, status: Status)
    requires Inv(s) && Outstanding(s.books) > 0 && OneLess(s, b, last)
    ensures Inv(if last then Continue(s.(books := b), status) else s.(books := b))
  {
    hide Balanced, Staged, Structure, SameTerminations, EndsWithRtpSubtract, Removals, FreshOffers, Continue;
    if last {
      LastReplyIdle(s, b);
      OwedStage(s);
      hide Inv;
      ContinueInv(s.(books := b), status);
    } else {
      StillPendingInv(s, b);
    }
  }

  lemma OwedStage(s: Session)
    requires Inv(s) && Outstanding(s.books) > 0
    ensures s.stage != NoStage && (s.stage == GeneratingOffer ==> s.offer)
  {
    hide LogAgrees, ChannelFlags, SlotFlags, HasMedia;
    if s.books.media != [] {
      assert MediaOf(s.stage, s.books.media[0]) && TargetOk(s.books.media[0].target, |s.books.channels|);
    } else if s.books.conn != map[] {
      var i :| i in s.books.conn;
    }
  }

  lemma {:induction false} ReplyInv(s: Session, step: Step)
    requires Inv(s) && Enabled(s, step)
    requires step.ChannelReply? || step.MediaReply? || step.TerminateReply? || step == DiscoverReply(true)
    ensures Inv(Next(s, step))
  {
    hide Inv, Balanced, Staged, SameTerminations, SameSignaling, Continue, OnChannelReply, OnMediaReply, OnTerminateReply, OnDiscoverReply, EndsWithRtpSubtract;
    match step
    case ChannelReply(i, ok) =>
      ChannelReplyOutcome(s, i, ok);
      ChannelReplyOneLess(s, i);
      var (b, last) := SubrequestRemove(AnswerCall(s.books, i));
      AfterReplyInv(s, b, last, if ok then Success else Failure);
    case MediaReply =>
      MediaReplyOutcome(s);
      MediaReplyOneLess(s);
      var (b, last) := SubrequestRemove(AnswerMedia(s.books));
      AfterReplyInv(s, b, last, Success);
    case TerminateReply =>
      TerminateReplyOutcome(s);
      SignalOneLess(s);
      var (b, last) := SubrequestRemove(s.books.(terminates := s.books.terminates - 1));
      AfterReplyInv(s, b, last, Success);
    case DiscoverReply(_) =>
      DiscoverReplyOutcome(s);
      SignalOneLess(s);
      var (b, last) := SubrequestRemove(s.books.(discovers := s.books.discovers - 1));
      AfterReplyInv(s, b, last, Success);
  }

  lemma ChannelReplyOneLess(s: Session, i: nat)
    requires Inv(s) && i in s.books.conn
    ensures Outstanding(s.books) > 0
    ensures var (b, last) := SubrequestRemove(AnswerCall(s.books, i)); OneLess(s, b, last)
  {
    hide Balanced, Structure, Staged, LogAgrees, SameTerminations, EndsWithRtpSubtract;
    ChannelReplyBalanced(s.books, i, s.stage);
  }

  lemma MediaReplyOneLess(s: Session)
    requires Inv(s) && s.books.media != []
    ensures Outstanding(s.books) > 0
    ensures var (b, last) := SubrequestRemove(AnswerMedia(s.books)); OneLess(s, b, last)
  {
    hide Balanced, Structure, Staged, LogAgrees, SameTerminations, EndsWithRtpSubtract;
    MediaReplyBalanced(s.books);
    MediaReplyStaged(s.books, s.stage);
  }

  lemma SignalOneLess(s: Session)
    requires Inv(s)
    ensures s.books.terminates + s.books.discovers > 0 ==> Outstanding(s.books) > 0
    ensures s.books.terminates > 0 ==>
      var (b, last) := SubrequestRemove(s.books.(terminates := s.books.terminates - 1)); OneLess(s, b, last)
    ensures s.books.discovers > 0 ==>
      var (b, last) := SubrequestRemove(s.books.(discovers := s.books.discovers - 1)); OneLess(s, b, last)
  {
    hide CallFlags, ChannelFlags, SlotFlags, TargetsExist, Structure, LogAgrees;
  }

  // ---------- the answer ----------

  lemma AnswerStart(b: Books, context: bool)
    requires Balanced(b) && Quiet(b)
    ensures var r := AskMediaIf(context, b.(count := 0), ResetAssociations, NoEnd);
      && Balanced(r) && Staged(r, ProcessingAnswer) && SameTerminations(b, r) && SameSignaling(b, r)
      && r.conn == map[] && NoRtpMentions(r, 0)
  {
    QuietStaged(b, ProcessingAnswer);
    if context {
      AskMediaBalanced(b, ResetAssociations, NoEnd);
      AskMediaStaged(b, ResetAssociations, NoEnd, ProcessingAnswer);
    }
  }

  lemma MediaAnswerAsks(s: Session, b: Books, a: AnswerDescriptor)
    requires Balanced(b) && Staged(b, ProcessingAnswer) && b.conn == map[] && NoRtpMentions(b, 0)
    requires AnswerFits(b, a)
    ensures var r := ProcessMediaAnswer(s.version2, s.offerResource, b, a);
      Balanced(r) && Staged(r, ProcessingAnswer) && SameTerminations(b, r) && SameSignaling(b, r)
  {
    hide Balanced, Staged, ModifyControls, ModifySlots;
    if s.version2 {
      ControlsKeepLength(b, 0, a.controls);
      ModifyControlsAsks(b, 0, a.controls);
      ModifySlotsAsks(ModifyControls(b, 0, a.controls), 0, a.audios);
    } else if s.offerResource && a.resourceState {
      ModifySlotsAsks(b, 0, a.audios);
    }
  }

  lemma AcceptAnswerAsks(s: Session, a: AnswerDescriptor)
    requires Idle(s) && AnswerFits(s.books, a)
    ensures var r := AcceptAnswer(s, a).books;
      && Balanced(r) && Staged(r, ProcessingAnswer) && SameTerminations(s.books, r) && SameSignaling(s.books, r)
  {
    hide Balanced, Staged, AskMediaIf, ProcessMediaAnswer, Structure;
    AnswerStart(s.books, s.context);
    var b1 := AskMediaIf(s.context, s.books.(count := 0), ResetAssociations, NoEnd);
    MediaAnswerAsks(s, b1, a);
    ApplyAsks(ProcessMediaAnswer(s.version2, s.offerResource, b1, a), s.context);
  }

  lemma ApplyAsks(b: Books, context: bool)
    requires Balanced(b) && Staged(b, ProcessingAnswer)
    ensures var r := AskMediaIf(context, b, ApplyTopology, NoEnd);
      Balanced(r) && Staged(r, ProcessingAnswer) && SameTerminations(b, r) && SameSignaling(b, r)
  {
    if context {
      AskMediaBalanced(b, ApplyTopology, NoEnd);
      AskMediaStaged(b, ApplyTopology, NoEnd, ProcessingAnswer);
    }
  }

  lemma AnswerIdle(s: Session)
    requires Inv(s) && s.books.offers > 0
    ensures Idle(s.(books := s.books.(offers := s.books.offers - 1)))
    ensures s.offer && s.active.Some? && s.active.value.command != ControlMessage && s.stage != Terminating
    ensures Removals(s.log) == 0
    ensures s.active.value.command.ChannelAdd? ==> FreshOffers(s.log) == 1
  {
    hide Structure;
  }

  lemma AnswerPendingInv(s: Session)
    requires Balanced(s.books) && Built(s) && Staged(s.books, ProcessingAnswer) && s.stage == ProcessingAnswer
    requires s.books.offers == 0 && s.books.terminates == 0 && s.books.discovers == 0
    requires s.active.Some? && s.active.value.command != ControlMessage
    requires Removals(s.log) == 0 && (s.active.value.command.ChannelAdd? ==> FreshOffers(s.log) == 1)
    ensures Inv(s)
  {
    hide Balanced, Structure, Staged;
  }

  lemma AcceptedInv(s: Session, a: AnswerDescriptor)
    requires Idle(s) && AnswerFits(s.books, a)
    requires s.active.Some? && s.active.value.command != ControlMessage
    requires Removals(s.log) == 0 && (s.active.value.command.ChannelAdd? ==> FreshOffers(s.log) == 1)
    ensures var r := AcceptAnswer(s, a); Inv(if r.books.count == 0 then RaiseResponse(r, true) else r)
  {
    hide Balanced, Staged, Structure, Inv, RaiseResponse, Removals, FreshOffers, SameTerminations;
    AcceptAnswerAsks(s, a);
    var r := AcceptAnswer(s, a);
    SameStructure(s.books, r.books, s.context, s.offer);
    if r.books.count == 0 {
      BalancedCount(r.books);
      QuietWhenNothingOwed(r.books);
      RaiseInv(r, true);
    } else {
      AnswerPendingInv(r);
    }
  }

  lemma AnswerInv(s: Session, answer: Option<AnswerDescriptor>)
    requires Inv(s) && Enabled(s, AnswerReply(answer))
    ensures Inv(OnAnswer(s, answer))
  {
    hide Inv, Balanced, Staged, Structure, RaiseResponse, Removals, FreshOffers, AcceptAnswer;
    AnswerIdle(s);
    var s0 := s.(books := s.books.(offers := s.books.offers - 1));
    match answer
    case None => RaiseInv(s0.(status := Failure), true);
    case Some(a) =>
      if 200 <= a.code < 300 {
        AcceptedInv(s0, a);
      } else {
        RaiseInv(s0.(status := Terminate), true);
      }
  }

  // ---------- every step, every run ----------

  lemma RequestInv(s: Session, r: Request)
    requires Inv(s)
    ensures Inv(OnRequest(s, r))
  {
    hide Balanced, Staged, Structure, Dispatch, Removals, FreshOffers;
    LogGrowth(s.log, Received(r.id));
    if s.active.None? {
      QuietWhenNothingOwed(s.books);
      DispatchInv(Log(s, Received(r.id)).(active := Some(r)), r);
    }
  }

  lemma ControlResponseInv(s: Session)
    requires Inv(s)
    ensures Inv(RaiseControlResponse(s))
  {
    hide Balanced, Staged, Structure, PopDispatch, Removals, FreshOffers;
    if s.active.Some? && s.active.value.command == ControlMessage {
      QuietWhenNothingOwed(s.books);
      LogGrowth(s.log, ControlResponded(s.active.value.id));
      PopInv(Log(s.(active := None), ControlResponded(s.active.value.id)));
    }
  }

  lemma FrameInv(s: Session, t: Session)
    requires Inv(s)
    requires t.books == s.books && t.stage == s.stage && t.context == s.context && t.offer == s.offer && t.active == s.active
    requires Removals(t.log) == Removals(s.log) && FreshOffers(t.log) == FreshOffers(s.log)
    ensures Inv(t)
  {
    hide Balanced, Staged, Structure, Removals, FreshOffers, Outstanding;
  }

  lemma TerminateEventInv(s: Session)
    requires Inv(s)
    ensures Inv(OnTerminateEvent(s))
  {
    hide Inv, Removals, FreshOffers;
    if s.stage == Terminating {
    } else if s.active.Some? {
      FrameInv(s, s.(disconnected := true));
    } else {
      LogGrowth(s.log, TerminateEventRaised);
      FrameInv(s, Log(s.(disconnected := true), TerminateEventRaised));
    }
  }

  lemma ControlEventInv(s: Session)
    requires Inv(s)
    ensures Inv(Log(s, ControlEventRaised))
  {
    hide Inv, Removals, FreshOffers;
    LogGrowth(s.log, ControlEventRaised);
    FrameInv(s, Log(s, ControlEventRaised));
  }

  /** Every step keeps the invariant, a discovery answered without a descriptor apart. */
  lemma StepInv(s: Session, step: Step)
    requires Inv(s) && Enabled(s, step) && step != DiscoverReply(false)
    ensures Inv(Next(s, step))
  {
    hide Inv, OnRequest, OnChannelReply, OnMediaReply, OnAnswer, OnTerminateReply, OnDiscoverReply;
    hide OnTerminateEvent, RaiseControlResponse;
    match step
    case AppRequest(r) => RequestInv(s, r);
    case AnswerReply(a) => AnswerInv(s, a);
    case TerminateEvent => TerminateEventInv(s);
    case ControlEvent => ControlEventInv(s);
    case ControlResponse => ControlResponseInv(s);
    case _ => ReplyInv(s, step);
  }

  lemma {:induction false} RunInv(s: Session, steps: seq<Step>)
    requires Inv(s) && IsRun(s, steps) && DiscoverReply(false) !in steps
    ensures Inv(After(s, steps))
    decreases |steps|
  {
    hide Inv, Next, Enabled;
    if steps != [] {
      StepInv(s, steps[0]);
      RunInv(Next(s, steps[0]), steps[1..]);
    }
  }

  lemma InitialInv(version2: bool)
    ensures Inv(InitialSession(version2))
  {
    assert Targets([]) == multiset{};
  }
}
