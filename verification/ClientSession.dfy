/** The client session as the code writes it: an object whose handlers update
    its fields in place.  Each handler is proved to take exactly the step that
    the state machine of SessionModel takes, so what is proved of every run of
    the machine holds of every sequence of calls. */
module ClientSession {
  import opened SessionModel

  class MrcpSession {
    const version2: bool
    var stage: Stage
    var status: Status
    var books: Books
    var context: bool
    var offer: bool
    var offerResource: bool
    var hasId: bool
    var active: Option<Request>
    var queue: seq<Request>
    var registered: bool
    var disconnected: bool
    var log: seq<Event>

    ghost function View(): Session
      reads this
    {
      Session(version2, stage, status, books, context, offer, offerResource, hasId,
              active, queue, registered, disconnected, log)
    }

    constructor (version2: bool)
      ensures View() == InitialSession(version2)
    {
      this.version2 := version2;
      stage, status, log := NoStage, Success, [];
      books := Books(0, [], [], map[], [], 0, 0, 0);
      context, offer, offerResource, hasId := false, false, false, false;
      active, queue, registered, disconnected := None, [], false, false;
    }

    // ---------- sub-requests ----------

    method SetStage(s: Stage)
      modifies this`stage, this`books
      ensures books == old(books).(count := 0) && stage == s
    {
      if books.count != 0 {
        books := books.(count := 0);
      }
      stage := s;
    }

    method RemoveSubrequest() returns (last: bool)
      modifies this`books
      ensures (books, last) == SubrequestRemove(old(books))
    {
      if books.count == 0 {
        return false;
      }
      books := books.(count := books.count - 1);
      last := books.count == 0;
    }

    method CallChannel(i: nat, call: ChannelCall)
      requires i < |books.channels|
      modifies this`books
      ensures books == AskChannel(old(books), i, call)
    {
      books := books.(conn := books.conn[i := call]);
      books := books.(channels := books.channels[i := books.channels[i].(waitingForChannel := true)]);
      books := books.(count := books.count + 1);
    }

    method SendMedia(kind: MediaKind, target: Target)
      modifies this`books
      ensures books == AskMedia(old(books), kind, target)
    {
      books := books.(media := books.media + [MediaCommand(kind, target)]);
      match target {
        case ChannelEnd(i) => books := books.(channels := WaitForTermination(books.channels, i, true));
        case RtpEnd(i) => books := books.(slots := WaitForSlot(books.slots, i, true));
        case NoEnd =>
      }
      books := books.(count := books.count + 1);
    }

    method SendContextMedia(kind: MediaKind)
      modifies this`books
      ensures books == AskMediaIf(context, old(books), kind, NoEnd)
    {
      hide AskMedia;
      if context {
        SendMedia(kind, NoEnd);
      }
    }

    method SendOffer()
      modifies this`books, this`log
      ensures View() == OfferSend(old(View()))
    {
      books := books.(offers := books.offers + 1);
      log := log + [OfferSent];
    }

    // ---------- responses to the application ----------

    method Respond(processPending: bool)
      modifies this
      ensures View() == RaiseResponse(old(View()), processPending)
      decreases |queue|, 1
    {
      if active.None? {
        return;
      }
      var request := active.value;
      active := None;
      if disconnected {
        status := Terminate;
      }
      log := log + [Responded(request.id, status)];
      if processPending {
        DispatchPending();
      }
    }

    method DispatchPending()
      modifies this
      ensures View() == PopDispatch(old(View()))
      decreases |queue|, 0
    {
      if queue == [] {
        active := None;
      } else {
        active := Some(queue[0]);
        queue := queue[1..];
        DispatchRequest(active.value);
      }
    }

    method ReleaseControlChannels()
      modifies this`books
      ensures books == old(books).(channels := ReleaseControl(old(books.channels)))
    {
      ghost var was := books.channels;
      for i := 0 to |books.channels|
        invariant books == old(books).(channels := books.channels)
        invariant |books.channels| == |was|
        invariant forall k :: 0 <= k < i ==> books.channels[k] == was[k].(control := false)
        invariant forall k :: i <= k < |was| ==> books.channels[k] == was[k]
      {
        if books.channels[i].control {
          books := books.(channels := books.channels[i := books.channels[i].(control := false)]);
        }
      }
      assert books.channels == ReleaseControl(was);
    }

    method RespondTerminated(s: Status)
      modifies this
      ensures View() == RaiseTerminated(old(View()), s)
    {
      hide RaiseResponse, ReleaseControl;
      ReleaseControlChannels();
      log := log + [SessionRemoved];
      if s != Success {
        status := s;
      }
      Respond(false);
    }

    method RespondFailure()
      modifies this`active, this`log
      ensures View() == RaiseFailure(old(View()))
    {
      if active.None? {
        return;
      }
      var request := active.value;
      active := None;
      log := log + [Responded(request.id, status)];
    }

    method AnswerControl()
      modifies this
      ensures View() == RaiseControlResponse(old(View()))
      decreases |queue|, 1
    {
      if active.None? || active.value.command != ControlMessage {
        return;
      }
      log := log + [ControlResponded(active.value.id)];
      active := None;
      DispatchPending();
    }

    // ---------- application requests ----------

    method FindChannel(id: nat) returns (i: nat)
      ensures i == ChannelIndex(books.channels, id)
    {
      i := 0;
      while i < |books.channels|
        invariant i <= |books.channels|
        invariant ChannelIndex(books.channels, id) == i + ChannelIndex(books.channels[i..], id)
      {
        if books.channels[i].id == id {
          return;
        }
        assert books.channels[i..][1..] == books.channels[i + 1..];
        i := i + 1;
      }
    }

    method Modify(enable: bool)
      modifies this`offerResource, this`books, this`log
      ensures View() == ModifyChannel(old(View()), enable)
    {
      if offer {
        offerResource := enable;
        SendOffer();
      }
    }

    method AddToBooks(id: nat, withMedia: bool, ghost before: Books)
      requires books == before.(count := 0)
      modifies this`books
      ensures books == AddChannelBooks(before, Channel(id, version2, withMedia, false, false))
    {
      hide AskChannel, AskMedia;
      var i := |books.channels|;
      books := books.(channels := books.channels + [Channel(id, version2, withMedia, false, false)]);
      books := books.(slots := books.slots + [Slot(withMedia, false)]);
      if version2 {
        CallChannel(i, ChannelAdded);
      }
      if withMedia {
        SendMedia(AddTermination, ChannelEnd(i));
        SendMedia(AddTermination, RtpEnd(i));
      }
    }

    method Register(id: nat, withMedia: bool)
      modifies this`stage, this`books, this`offer, this`offerResource, this`context
      ensures View() == RegisterChannel(old(View()), id, withMedia)
    {
      hide AddChannelBooks;
      offer := true;
      SetStage(GeneratingOffer);
      AddToBooks(id, withMedia, old(books));
      if !version2 {
        offerResource := true;
      }
      if withMedia {
        context := true;
      }
    }

    method Add(id: nat, withMedia: bool)
      modifies this`stage, this`books, this`offer, this`offerResource, this`context, this`log
      ensures View() == AddChannel(old(View()), id, withMedia)
    {
      hide RegisterChannel, ModifyChannel, ChannelIndex, OfferSend;
      var found := FindChannel(id);
      if found < |books.channels| {
        Modify(true);
        return;
      }
      Register(id, withMedia);
      if books.count == 0 {
        SendOffer();
      }
    }

    method TerminateAllChannels()
      modifies this`books
      ensures books == TerminateChannels(old(books), 0)
    {
      var i := 0;
      while i < |books.channels|
        invariant i <= |books.channels|
        invariant TerminateChannels(books, i) == TerminateChannels(old(books), 0)
        decreases |books.channels| - i
      {
        hide AskChannel, AskMedia;
        ghost var b := books;
        var channel := books.channels[i];
        if channel.control {
          CallChannel(i, ChannelRemoved);
        }
        if channel.termination {
          SendMedia(SubtractTermination, ChannelEnd(i));
        }
        assert books == TerminateOneChannel(b, i);
        i := i + 1;
      }
    }

    method TerminateAllSlots()
      modifies this`books
      ensures books == TerminateSlots(old(books), 0)
    {
      var i := 0;
      while i < |books.slots|
        invariant i <= |books.slots|
        invariant TerminateSlots(books, i) == TerminateSlots(old(books), 0)
        decreases |books.slots| - i
      {
        hide AskMedia;
        ghost var b := books;
        if books.slots[i].termination {
          SendMedia(SubtractTermination, RtpEnd(i));
        }
        assert books == TerminateOneSlot(b, i);
        i := i + 1;
      }
    }

    method TerminateAll()
      modifies this`stage, this`books, this`log
      ensures View() == TerminateSession(old(View()))
    {
      hide AskMediaIf, TerminateChannels, TerminateSlots;
      SetStage(Terminating);
      SendContextMedia(DestroyTopology);
      TerminateAllChannels();
      if context {
        TerminateAllSlots();
      }
      books := books.(count := books.count + 1, terminates := books.terminates + 1);
      log := log + [TerminateSent];
    }

    method Discover(accepted: nat)
      modifies this
      ensures View() == DiscoverResources(old(View()), accepted)
      decreases |queue|, 2
    {
      hide RaiseResponse;
      SetStage(Discovering);
      if accepted == 0 {
        status := Failure;
        Respond(true);
      } else {
        books := books.(count := books.count + accepted, discovers := books.discovers + accepted);
        log := log + [DiscoverSent(accepted)];
      }
    }

    method SendControlMessage(r: Request)
      modifies this
      ensures View() == SendControl(old(View()), r)
      decreases |queue|, 2
    {
      hide RaiseControlResponse;
      if hasId {
        log := log + [ControlSent(r.id)];
      } else {
        AnswerControl();
      }
    }

    method PerformRequest(r: Request)
      modifies this
      ensures View() == Perform(old(View()), r)
      decreases |queue|, 3
    {
      hide TerminateSession, AddChannel, ModifyChannel, DiscoverResources, SendControl, OfferSend;
      match r.command
      case SessionUpdate => if offer { SendOffer(); }
      case SessionTerminate => TerminateAll();
      case ChannelAdd(id, withMedia) => Add(id, withMedia);
      case ChannelRemove(_) => Modify(false);
      case ResourceDiscover(accepted) => Discover(accepted);
      case ControlMessage => SendControlMessage(r);
    }

    method DispatchRequest(r: Request)
      modifies this
      ensures View() == Dispatch(old(View()), r)
      decreases |queue|, 4
    {
      hide Perform, RaiseResponse, RaiseFailure;
      log := log + [Dispatched(r.id)];
      assert View() == Log(old(View()), Dispatched(r.id));
      if stage == Terminating {
        return;
      }
      if disconnected && r.command != SessionTerminate {
        status := Cancel;
        RespondFailure();
        return;
      }
      if !registered {
        if r.command == SessionTerminate {
          status := Success;
          Respond(false);
          return;
        }
        if !r.agentsFound {
          status := Failure;
        }
        if status == Failure || !r.sessionCreated {
          status := Failure;
          RespondFailure();
          return;
        }
        registered := true;
        log := log + [SessionAdded];
      }
      status := Success;
      PerformRequest(r);
    }

    method Receive(r: Request)
      modifies this
      ensures View() == OnRequest(old(View()), r)
    {
      hide Dispatch;
      log := log + [Received(r.id)];
      if active.Some? {
        queue := queue + [r];
      } else {
        active := Some(r);
        DispatchRequest(r);
      }
    }

    // ---------- replies of the agents ----------

    method ChannelReplied(i: nat, ok: bool)
      requires i in books.conn && i < |books.channels|
      modifies this
      ensures View() == OnChannelReply(old(View()), i, ok)
    {
      hide RaiseResponse, RaiseTerminated, OfferSend;
      var call := books.conn[i];
      books := books.(conn := books.conn - {i});
      if !books.channels[i].waitingForChannel {
        return;
      }
      books := books.(channels := books.channels[i := books.channels[i].(waitingForChannel := false)]);
      var last := RemoveSubrequest();
      if last {
        match call
        case ChannelAdded => SendOffer();
        case ChannelModified =>
          if !ok {
            status := Failure;
          }
          Respond(true);
        case ChannelRemoved => RespondTerminated(if ok then Success else Failure);
      }
    }

    method ContinueByStage()
      modifies this
      ensures View() == OnLastByStage(old(View()))
    {
      hide RaiseResponse, OfferSend;
      if stage == GeneratingOffer {
        SendOffer();
      } else if stage == ProcessingAnswer {
        Respond(true);
      }
    }

    method RtpTerminationReplied(m: MediaCommand)
      requires m.target.RtpEnd?
      modifies this
      ensures View() == OnTerminationReply(old(View()), m)
    {
      hide RaiseResponse, RaiseTerminated, OnLastByStage, OfferSend;
      var i := m.target.i;
      if i >= |books.slots| || !books.slots[i].waiting {
        return;
      }
      books := books.(slots := books.slots[i := books.slots[i].(waiting := false)]);
      var last := RemoveSubrequest();
      if last {
        if m.kind == AddTermination {
          SendOffer();
        } else if m.kind == ModifyTermination {
          ContinueByStage();
        } else {
          RespondTerminated(Success);
        }
      }
    }

    method ChannelTerminationReplied(m: MediaCommand)
      requires m.target.ChannelEnd?
      modifies this
      ensures View() == OnTerminationReply(old(View()), m)
    {
      hide RaiseResponse, RaiseTerminated, OnLastByStage, OfferSend;
      var i := m.target.i;
      if m.kind == ModifyTermination || i >= |books.channels| || !books.channels[i].waitingForTermination {
        return;
      }
      books := books.(channels := books.channels[i := books.channels[i].(waitingForTermination := false)]);
      var last := RemoveSubrequest();
      if last {
        if m.kind == AddTermination {
          SendOffer();
        } else {
          Respond(true);
        }
      }
    }

    method MediaReplied()
      requires books.media != []
      modifies this
      ensures View() == OnMediaReply(old(View()))
    {
      hide OnLastByStage;
      var m := books.media[0];
      books := books.(media := books.media[1..]);
      if m.kind in {AddTermination, ModifyTermination, SubtractTermination} {
        match m.target {
          case RtpEnd(_) => RtpTerminationReplied(m);
          case ChannelEnd(_) => ChannelTerminationReplied(m);
          case NoEnd =>
        }
      } else {
        var last := RemoveSubrequest();
        if last {
          ContinueByStage();
        }
      }
    }

    method ModifyAllControls(n: nat)
      requires n <= |books.channels|
      modifies this`books
      ensures books == ModifyControls(old(books), 0, n)
    {
      var i := 0;
      while i < n
        invariant i <= n <= |books.channels|
        invariant ModifyControls(books, i, n) == ModifyControls(old(books), 0, n)
      {
        CallChannel(i, ChannelModified);
        i := i + 1;
      }
    }

    method ModifyAllSlots(n: nat)
      requires n <= |books.slots| && n <= |books.channels|
      modifies this`books
      ensures books == ModifySlots(old(books), 0, n)
    {
      var i := 0;
      while i < n
        invariant i <= n && n <= |books.slots| && n <= |books.channels|
        invariant ModifySlots(books, i, n) == ModifySlots(old(books), 0, n)
      {
        hide AskMedia;
        ghost var b := books;
        if books.slots[i].termination {
          SendMedia(ModifyTermination, RtpEnd(i));
          if books.channels[i].termination {
            SendMedia(AddAssociation, NoEnd);
          }
        }
        assert books == ModifyOneSlot(b, i);
        i := i + 1;
      }
    }

    method MediaAnswered(a: AnswerDescriptor)
      requires AnswerFits(books, a)
      modifies this`books, this`hasId, this`status
      ensures books == ProcessMediaAnswer(version2, offerResource, old(books), a)
      ensures hasId == (old(hasId) || (a.sessionId && (version2 ==> a.controls > 0)))
      ensures status == if !version2 && offerResource && !a.resourceState then Failure else old(status)
    {
      hide ModifyControls, ModifySlots;
      if version2 {
        if !hasId && a.controls > 0 {
          hasId := a.sessionId;
        }
        ControlsKeepLength(books, 0, a.controls);
        ModifyAllControls(a.controls);
        ModifyAllSlots(a.audios);
      } else {
        hasId := hasId || a.sessionId;
        if offerResource {
          if a.resourceState {
            ModifyAllSlots(a.audios);
          } else {
            status := Failure;
          }
        }
      }
    }

    method Accept(a: AnswerDescriptor)
      requires AnswerFits(books, a)
      modifies this`stage, this`books, this`hasId, this`status
      ensures View() == AcceptAnswer(old(View()), a)
    {
      hide AskMediaIf, ProcessMediaAnswer;
      SetStage(ProcessingAnswer);
      SendContextMedia(ResetAssociations);
      MediaAnswered(a);
      SendContextMedia(ApplyTopology);
    }

    method Answered(answer: Option<AnswerDescriptor>)
      requires books.offers > 0 && (answer.Some? ==> AnswerFits(books, answer.value))
      modifies this
      ensures View() == OnAnswer(old(View()), answer)
    {
      hide RaiseResponse, AcceptAnswer;
      books := books.(offers := books.offers - 1);
      if !offer {
        return;
      }
      match answer
      case None =>
        status := Failure;
        Respond(true);
      case Some(a) =>
        if 200 <= a.code < 300 {
          Accept(a);
        } else {
          status := Terminate;
        }
        if books.count == 0 {
          Respond(true);
        }
    }

    method TerminateReplied()
      requires books.terminates > 0
      modifies this
      ensures View() == OnTerminateReply(old(View()))
    {
      hide RaiseTerminated;
      books := books.(terminates := books.terminates - 1);
      var last := RemoveSubrequest();
      if last {
        RespondTerminated(Success);
      }
    }

    method Discovered(found: bool)
      requires books.discovers > 0
      modifies this
      ensures View() == OnDiscoverReply(old(View()), found)
    {
      hide RaiseResponse, PopDispatch;
      books := books.(discovers := books.discovers - 1);
      if active.None? {
        return;
      }
      if !found {
        status := Failure;
        Respond(true);
        return;
      }
      var last := RemoveSubrequest();
      if last {
        log := log + [Responded(active.value.id, Success)];
        active := None;
        DispatchPending();
      }
    }

    method Disconnected()
      modifies this`disconnected, this`log
      ensures View() == OnTerminateEvent(old(View()))
    {
      if stage == Terminating {
        return;
      }
      disconnected := true;
      if active.None? {
        log := log + [TerminateEventRaised];
      }
    }
  }
}
