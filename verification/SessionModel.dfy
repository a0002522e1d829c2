/** The client session protocol (mrcp_client_session.c) as a state machine.

    A session fans sub-requests out to three agents: the connection agent (one
    control channel per channel, answers in any order), the media engine
    (answers in order) and the signaling agent (offer, terminate, discover).
    Every handler is one atomic step.  Requests sent and not answered yet are
    part of the state, and so is the log of what the session did. */
module SessionModel {

  datatype Option<T> = None | Some(value: T)

  datatype Stage = NoStage | GeneratingOffer | ProcessingAnswer | Terminating | Discovering

  datatype Status = Success | Failure | Terminate | Cancel

  datatype Command =
    | SessionUpdate
    | SessionTerminate
    | ChannelAdd(channel: nat, media: bool)   // media: the channel brings a termination of its own
    | ChannelRemove(channel: nat)
    | ResourceDiscover(accepted: nat)         // discover requests the signaling agent accepts
    | ControlMessage

  /** An application request; the last two fields say what the factories and
      the signaling agent answer should this request have to register the session. */
  datatype Request = Request(id: nat, command: Command, agentsFound: bool, sessionCreated: bool)

  datatype Channel = Channel(
    id: nat, control: bool, termination: bool,
    waitingForChannel: bool, waitingForTermination: bool)

  datatype Slot = Slot(termination: bool, waiting: bool)

  datatype ChannelCall = ChannelAdded | ChannelModified | ChannelRemoved

  datatype MediaKind =
    | AddTermination | ModifyTermination | SubtractTermination | AddAssociation
    | ResetAssociations | ApplyTopology | DestroyTopology

  /** Termination a media command is about: that of a channel, or the RTP one of a slot. */
  datatype Target = ChannelEnd(i: nat) | RtpEnd(i: nat) | NoEnd

  datatype MediaCommand = MediaCommand(kind: MediaKind, target: Target)

  datatype Event =
    | Received(id: nat)
    | Dispatched(id: nat)
    | SessionAdded
    | SessionRemoved
    | OfferSent
    | TerminateSent
    | DiscoverSent(count: nat)
    | ControlSent(id: nat)
    | Responded(id: nat, status: Status)
    | ControlResponded(id: nat)
    | ControlEventRaised
    | TerminateEventRaised

  /** Session answer; the counts are those of the control and audio media in it. */
  datatype AnswerDescriptor = AnswerDescriptor(
    code: int, controls: nat, audios: nat, sessionId: bool, resourceState: bool)

  /** What the session keeps about its sub-requests, and what the agents still owe it. */
  datatype Books = Books(
    count: nat,                       // subrequest_count
    channels: seq<Channel>,
    slots: seq<Slot>,                 // RTP terminations
    conn: map<nat, ChannelCall>,      // connection agent: calls not answered, by channel
    media: seq<MediaCommand>,         // media engine: commands not answered, oldest first
    offers: nat,                      // signaling agent: offers not answered
    terminates: nat,                  // signaling agent: terminations not answered
    discovers: nat)                   // signaling agent: discoveries not answered

  datatype Session = Session(
    version2: bool,
    stage: Stage,
    status: Status,
    books: Books,
    context: bool,
    offer: bool,
    offerResource: bool,              // resource_state of the offer
    hasId: bool,
    active: Option<Request>,
    queue: seq<Request>,
    registered: bool,
    disconnected: bool,
    log: seq<Event>)

  function InitialSession(version2: bool): Session {
    Session(version2, NoStage, Success, Books(0, [], [], map[], [], 0, 0, 0),
            false, false, false, false, None, [], false, false, [])
  }

  /** Replies still owed by the agents, offers apart. */
  function Outstanding(b: Books): nat {
    |b.conn| + |b.media| + b.terminates + b.discovers
  }

  // ---------- sub-requests ----------

  function WaitForChannel(cs: seq<Channel>, i: nat, w: bool): (r: seq<Channel>)
    ensures |r| == |cs|
  {
    if i < |cs| then cs[i := cs[i].(waitingForChannel := w)] else cs
  }

  function WaitForTermination(cs: seq<Channel>, i: nat, w: bool): (r: seq<Channel>)
    ensures |r| == |cs|
  {
    if i < |cs| then cs[i := cs[i].(waitingForTermination := w)] else cs
  }

  function WaitForSlot(ts: seq<Slot>, i: nat, w: bool): (r: seq<Slot>)
    ensures |r| == |ts|
  {
    if i < |ts| then ts[i := ts[i].(waiting := w)] else ts
  }

  function AskChannel(b: Books, i: nat, call: ChannelCall): (r: Books)
    ensures |r.channels| == |b.channels| && |r.slots| == |b.slots|
  {
    b.(conn := b.conn[i := call], channels := WaitForChannel(b.channels, i, true), count := b.count + 1)
  }

  function AskMedia(b: Books, kind: MediaKind, target: Target): (r: Books)
    ensures |r.channels| == |b.channels| && |r.slots| == |b.slots|
  {
    b.(media := b.media + [MediaCommand(kind, target)],
       count := b.count + 1,
       channels := if target.ChannelEnd? then WaitForTermination(b.channels, target.i, true) else b.channels,
       slots := if target.RtpEnd? then WaitForSlot(b.slots, target.i, true) else b.slots)
  }

  function AskMediaIf(c: bool, b: Books, kind: MediaKind, target: Target): (r: Books)
    ensures |r.channels| == |b.channels| && |r.slots| == |b.slots|
  {
    if c then AskMedia(b, kind, target) else b
  }

  function SubrequestRemove(b: Books): (r: (Books, bool)) {
    if b.count == 0 then (b, false) else (b.(count := b.count - 1), b.count == 1)
  }

  // ---------- small pieces ----------

  function Log(s: Session, e: Event): Session {
    s.(log := s.log + [e])
  }

  function StageSet(s: Session, stage: Stage): Session {
    s.(books := s.books.(count := 0), stage := stage)
  }

  function OfferSend(s: Session): Session {
    Log(s.(books := s.books.(offers := s.books.offers + 1)), OfferSent)
  }

  function ChannelIndex(cs: seq<Channel>, id: nat): (i: nat)
    ensures i <= |cs|
    ensures i < |cs| ==> cs[i].id == id
    ensures forall k :: 0 <= k < i ==> cs[k].id != id
  {
    if cs == [] then 0 else if cs[0].id == id then 0 else 1 + ChannelIndex(cs[1..], id)
  }

  // ---------- responses to the application ----------

  function ReleaseControl(cs: seq<Channel>): (r: seq<Channel>)
    ensures |r| == |cs|
    ensures forall i :: 0 <= i < |cs| ==> r[i] == cs[i].(control := false)
  {
    seq(|cs|, i requires 0 <= i < |cs| => cs[i].(control := false))
  }

  function RaiseResponse(s: Session, processPending: bool): Session
    decreases |s.queue|, 1
  {
    match s.active
    case None => s
    case Some(r) =>
      var status := if s.disconnected then Terminate else s.status;
      var s1 := Log(s.(active := None, status := status), Responded(r.id, status));
      if processPending then PopDispatch(s1) else s1
  }

  function RaiseTerminated(s: Session, status: Status): Session {
    var s1 := Log(s.(books := s.books.(channels := ReleaseControl(s.books.channels))), SessionRemoved);
    RaiseResponse(if status != Success then s1.(status := status) else s1, false)
  }

  function RaiseFailure(s: Session): Session {
    match s.active
    case None => s
    case Some(r) => Log(s.(active := None), Responded(r.id, s.status))
  }

  function RaiseControlResponse(s: Session): Session
    decreases |s.queue|, 1
  {
    match s.active
    case None => s
    case Some(r) =>
      if r.command != ControlMessage then s
      else PopDispatch(Log(s.(active := None), ControlResponded(r.id)))
  }

  function PopDispatch(s: Session): Session
    decreases |s.queue|, 0
  {
    if s.queue == [] then s.(active := None)
    else Dispatch(s.(active := Some(s.queue[0]), queue := s.queue[1..]), s.queue[0])
  }

  // ---------- application requests ----------

  function UpdateSession(s: Session): Session {
    if s.offer then OfferSend(s) else s
  }

  function ModifyChannel(s: Session, enable: bool): Session {
    if s.offer then OfferSend(s.(offerResource := enable)) else s
  }

  function AddMedia(b: Books, i: nat): Books {
    AskMedia(AskMedia(b, AddTermination, ChannelEnd(i)), AddTermination, RtpEnd(i))
  }

  function AddChannelBooks(b: Books, ch: Channel): Books {
    var i := |b.channels|;
    var b1 := b.(count := 0, channels := b.channels + [ch], slots := b.slots + [Slot(ch.termination, false)]);
    var b2 := if ch.control then AskChannel(b1, i, ChannelAdded) else b1;
    if ch.termination then AddMedia(b2, i) else b2
  }

  function RegisterChannel(s: Session, id: nat, media: bool): Session {
    StageSet(s, GeneratingOffer).(
      offer := true,
      offerResource := s.offerResource || !s.version2,
      context := s.context || media,
      books := AddChannelBooks(s.books, Channel(id, s.version2, media, false, false)))
  }

  function AddChannel(s: Session, id: nat, media: bool): Session {
    if ChannelIndex(s.books.channels, id) < |s.books.channels| then ModifyChannel(s, true)
    else
      var s1 := RegisterChannel(s, id, media);
      if s1.books.count == 0 then OfferSend(s1) else s1
  }

  function TerminateOneChannel(b: Books, i: nat): (r: Books)
    requires i < |b.channels|
    ensures |r.channels| == |b.channels| && |r.slots| == |b.slots|
  {
    var b1 := if b.channels[i].control then AskChannel(b, i, ChannelRemoved) else b;
    AskMediaIf(b.channels[i].termination, b1, SubtractTermination, ChannelEnd(i))
  }

  function TerminateChannels(b: Books, i: nat): Books
    decreases |b.channels| - i
  {
    if i >= |b.channels| then b else TerminateChannels(TerminateOneChannel(b, i), i + 1)
  }

  function TerminateOneSlot(b: Books, i: nat): (r: Books)
    requires i < |b.slots|
    ensures |r.channels| == |b.channels| && |r.slots| == |b.slots|
  {
    AskMediaIf(b.slots[i].termination, b, SubtractTermination, RtpEnd(i))
  }

  function TerminateSlots(b: Books, i: nat): Books
    decreases |b.slots| - i
  {
    if i >= |b.slots| then b else TerminateSlots(TerminateOneSlot(b, i), i + 1)
  }

  function TerminateBooks(b: Books, context: bool): Books {
    var b0 := b.(count := 0);
    var b1 := AskMediaIf(context, b0, DestroyTopology, NoEnd);
    var b2 := TerminateChannels(b1, 0);
    var b3 := if context then TerminateSlots(b2, 0) else b2;
    b3.(count := b3.count + 1, terminates := b3.terminates + 1)
  }

  function TerminateSession(s: Session): Session {
    Log(StageSet(s, Terminating).(books := TerminateBooks(s.books, s.context)), TerminateSent)
  }

  function DiscoverResources(s: Session, accepted: nat): Session
    decreases |s.queue|, 2
  {
    var s0 := StageSet(s, Discovering);
    if accepted == 0 then RaiseResponse(s0.(status := Failure), true)
    else Log(s0.(books := s0.books.(count := accepted, discovers := s0.books.discovers + accepted)), DiscoverSent(accepted))
  }

  function SendControl(s: Session, r: Request): Session
    decreases |s.queue|, 2
  {
    if s.hasId then Log(s, ControlSent(r.id)) else RaiseControlResponse(s)
  }

  function Perform(s: Session, r: Request): Session
    decreases |s.queue|, 3
  {
    match r.command
    case SessionUpdate => UpdateSession(s)
    case SessionTerminate => TerminateSession(s)
    case ChannelAdd(id, media) => AddChannel(s, id, media)
    case ChannelRemove(_) => ModifyChannel(s, false)
    case ResourceDiscover(accepted) => DiscoverResources(s, accepted)
    case ControlMessage => SendControl(s, r)
  }

  function Dispatch(s: Session, r: Request): Session
    decreases |s.queue|, 4
  {
    var s0 := Log(s, Dispatched(r.id));
    if s.stage == Terminating then s0
    else if s.disconnected && r.command != SessionTerminate then RaiseFailure(s0.(status := Cancel))
    else if s.registered then Perform(s0.(status := Success), r)
    else if r.command == SessionTerminate then RaiseResponse(s0.(status := Success), false)
    else if !r.agentsFound || s.status == Failure || !r.sessionCreated then RaiseFailure(s0.(status := Failure))
    else Perform(Log(s0.(registered := true, status := Success), SessionAdded), r)
  }

  function OnRequest(s: Session, r: Request): Session {
    var s0 := Log(s, Received(r.id));
    if s.active.Some? then s0.(queue := s0.queue + [r]) else Dispatch(s0.(active := Some(r)), r)
  }

  // ---------- replies of the agents ----------

  function OnChannelReply(s: Session, i: nat, ok: bool): Session
    requires i in s.books.conn && i < |s.books.channels|
  {
    var call := s.books.conn[i];
    var b0 := s.books.(conn := s.books.conn - {i});
    if !b0.channels[i].waitingForChannel then s.(books := b0)
    else
      var (b1, last) := SubrequestRemove(b0.(channels := WaitForChannel(b0.channels, i, false)));
      var s1 := s.(books := b1);
      if !last then s1
      else match call
        case ChannelAdded => OfferSend(s1)
        case ChannelModified => RaiseResponse(if ok then s1 else s1.(status := Failure), true)
        case ChannelRemoved => RaiseTerminated(s1, if ok then Success else Failure)
  }

  /** Continuation shared by the modify, association and topology replies. */
  function OnLastByStage(s: Session): Session {
    if s.stage == GeneratingOffer then OfferSend(s)
    else if s.stage == ProcessingAnswer then RaiseResponse(s, true)
    else s
  }

  function OnTerminationReply(s: Session, m: MediaCommand): Session {
    match m.target
    case RtpEnd(i) =>
      if i >= |s.books.slots| || !s.books.slots[i].waiting then s
      else
        var (b1, last) := SubrequestRemove(s.books.(slots := WaitForSlot(s.books.slots, i, false)));
        var s1 := s.(books := b1);
        if !last then s1
        else if m.kind == AddTermination then OfferSend(s1)
        else if m.kind == ModifyTermination then OnLastByStage(s1)
        else RaiseTerminated(s1, Success)
    case ChannelEnd(i) =>
      if m.kind == ModifyTermination || i >= |s.books.channels| || !s.books.channels[i].waitingForTermination then s
      else
        var (b1, last) := SubrequestRemove(s.books.(channels := WaitForTermination(s.books.channels, i, false)));
        var s1 := s.(books := b1);
        if !last then s1
        else if m.kind == AddTermination then OfferSend(s1)
        else RaiseResponse(s1, true)
    case NoEnd => s
  }

  function OnMediaReply(s: Session): Session
    requires s.books.media != []
  {
    var m := s.books.media[0];
    var s0 := s.(books := s.books.(media := s.books.media[1..]));
    if m.kind in {AddTermination, ModifyTermination, SubtractTermination} then OnTerminationReply(s0, m)
    else
      var (b1, last) := SubrequestRemove(s0.books);
      var s1 := s0.(books := b1);
      if last then OnLastByStage(s1) else s1
  }

  function ModifyControls(b: Books, i: nat, n: nat): Books
    decreases n - i
  {
    if i >= n then b else ModifyControls(AskChannel(b, i, ChannelModified), i + 1, n)
  }

  function ModifyOneSlot(b: Books, i: nat): Books
    requires i < |b.slots| && i < |b.channels|
  {
    if b.slots[i].termination then
      AskMediaIf(b.channels[i].termination, AskMedia(b, ModifyTermination, RtpEnd(i)), AddAssociation, NoEnd)
    else b
  }

  function ModifySlots(b: Books, i: nat, n: nat): Books
    requires n <= |b.slots| && n <= |b.channels|
    decreases n - i
  {
    if i >= n then b else ModifySlots(ModifyOneSlot(b, i), i + 1, n)
  }

  /** An answer describes no more media than the session offered. */
  predicate AnswerFits(b: Books, a: AnswerDescriptor) {
    |b.slots| == |b.channels| && a.controls <= |b.channels| && a.audios <= |b.slots|
  }

  function ProcessMediaAnswer(version2: bool, offerResource: bool, b: Books, a: AnswerDescriptor): Books
    requires AnswerFits(b, a)
  {
    if version2 then
      var b1 := ModifyControls(b, 0, a.controls);
      ControlsKeepLength(b, 0, a.controls);
      ModifySlots(b1, 0, a.audios)
    else if offerResource && a.resourceState then ModifySlots(b, 0, a.audios)
    else b
  }

  lemma ControlsKeepLength(b: Books, i: nat, n: nat)
    ensures |ModifyControls(b, i, n).slots| == |b.slots| && |ModifyControls(b, i, n).channels| == |b.channels|
    decreases n - i
  {
  }

  function AcceptAnswer(s: Session, a: AnswerDescriptor): Session
    requires AnswerFits(s.books, a)
  {
    var b1 := AskMediaIf(s.context, s.books.(count := 0), ResetAssociations, NoEnd);
    var b2 := ProcessMediaAnswer(s.version2, s.offerResource, b1, a);
    StageSet(s, ProcessingAnswer).(
      hasId := s.hasId || (a.sessionId && (s.version2 ==> a.controls > 0)),
      status := if !s.version2 && s.offerResource && !a.resourceState then Failure else s.status,
      books := AskMediaIf(s.context, b2, ApplyTopology, NoEnd))
  }

  function OnAnswer(s: Session, answer: Option<AnswerDescriptor>): Session
    requires s.books.offers > 0 && (answer.Some? ==> AnswerFits(s.books, answer.value))
  {
    var s0 := s.(books := s.books.(offers := s.books.offers - 1));
    if !s.offer then s0
    else match answer
      case None => RaiseResponse(s0.(status := Failure), true)
      case Some(a) =>
        var s1 := if 200 <= a.code < 300 then AcceptAnswer(s0, a) else s0.(status := Terminate);
        if s1.books.count == 0 then RaiseResponse(s1, true) else s1
  }

  function OnTerminateReply(s: Session): Session
    requires s.books.terminates > 0
  {
    var (b1, last) := SubrequestRemove(s.books.(terminates := s.books.terminates - 1));
    var s1 := s.(books := b1);
    if last then RaiseTerminated(s1, Success) else s1
  }

  function OnDiscoverReply(s: Session, found: bool): Session
    requires s.books.discovers > 0
  {
    var b0 := s.books.(discovers := s.books.discovers - 1);
    match s.active
    case None => s.(books := b0)
    case Some(r) =>
      if !found then RaiseResponse(s.(books := b0, status := Failure), true)
      else
        var (b1, last) := SubrequestRemove(b0);
        var s1 := s.(books := b1);
        if !last then s1
        else PopDispatch(Log(s1.(active := None), Responded(r.id, Success)))
  }

  function OnTerminateEvent(s: Session): Session {
    if s.stage == Terminating then s
    else
      var s0 := s.(disconnected := true);
      if s.active.None? then Log(s0, TerminateEventRaised) else s0
  }

  // ---------- steps and runs ----------

  datatype Step =
    | AppRequest(r: Request)
    | ChannelReply(i: nat, ok: bool)
    | MediaReply
    | AnswerReply(answer: Option<AnswerDescriptor>)
    | TerminateReply
    | DiscoverReply(found: bool)
    | TerminateEvent
    | ControlResponse
    | ControlEvent

  /** An agent replies only to what it was asked. */
  predicate Enabled(s: Session, step: Step) {
    match step
    case ChannelReply(i, _) => i in s.books.conn && i < |s.books.channels|
    case MediaReply => s.books.media != []
    case AnswerReply(a) => s.books.offers > 0 && (a.Some? ==> AnswerFits(s.books, a.value))
    case TerminateReply => s.books.terminates > 0
    case DiscoverReply(_) => s.books.discovers > 0
    case _ => true
  }

  function Next(s: Session, step: Step): Session
    requires Enabled(s, step)
  {
    match step
    case AppRequest(r) => OnRequest(s, r)
    case ChannelReply(i, ok) => OnChannelReply(s, i, ok)
    case MediaReply => OnMediaReply(s)
    case AnswerReply(a) => OnAnswer(s, a)
    case TerminateReply => OnTerminateReply(s)
    case DiscoverReply(found) => OnDiscoverReply(s, found)
    case TerminateEvent => OnTerminateEvent(s)
    case ControlResponse => RaiseControlResponse(s)
    case ControlEvent => Log(s, ControlEventRaised)
  }

  /** A run is a sequence of steps, each enabled when it is taken. */
  predicate IsRun(s: Session, steps: seq<Step>)
    decreases |steps|
  {
    steps == [] || (Enabled(s, steps[0]) && IsRun(Next(s, steps[0]), steps[1..]))
  }

  function After(s: Session, steps: seq<Step>): Session
    requires IsRun(s, steps)
    decreases |steps|
  {
    if steps == [] then s else After(Next(s, steps[0]), steps[1..])
  }
}
