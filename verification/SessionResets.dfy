/** Which application requests reset the sub-request counter, and what a session
    with a wrong counter does: the same as one with the right counter, until a
    reset puts it right. */
module SessionResets {
  import opened SessionModel

  // ---------- which requests reset the counter ----------

  /** Dispatching the first of these requests, and those behind it as far as
      they follow at once, resets the counter: the first one that is not a
      control message without session identifier terminates, discovers or adds a
      new channel, and is neither cancelled nor refused. */
  predicate Resets(channels: seq<Channel>, hasId: bool, over: bool, registered: bool, failed: bool, requests: seq<Request>)
    decreases |requests|
  {
    requests != [] && var r := requests[0];
    && (over ==> r.command == SessionTerminate)
    && (registered || (r.command != SessionTerminate && r.agentsFound && !failed && r.sessionCreated))
    && match r.command
       case SessionTerminate => true
       case ResourceDiscover(_) => true
       case ChannelAdd(id, _) => ChannelIndex(channels, id) >= |channels|
       case ControlMessage => !hasId && Resets(channels, hasId, over, true, false, requests[1..])
       case _ => false
  }

  predicate DispatchResets(s: Session, requests: seq<Request>) {
    s.stage != Terminating
    && Resets(s.books.channels, s.hasId, s.disconnected, s.registered, s.status == Failure, requests)
  }

  /** The response to the active request starts the queued ones. */
  predicate RaiseResets(s: Session) {
    s.active.Some? && s.stage != Terminating
    && Resets(s.books.channels, s.hasId, s.disconnected, s.registered, !s.disconnected && s.status == Failure, s.queue)
  }

  // ---------- a session with another counter ----------

  function Shifted(s: Session, count: nat, more: nat): Session {
    s.(books := s.books.(count := count, discovers := s.books.discovers + more))
  }

  /** a goes on as b does, with its own counter unless that was reset. */
  ghost predicate Alike(a: Session, b: Session, from: Session, count: nat, more: nat, reset: bool) {
    && a == Shifted(b, if reset then b.books.count else count, more)
    && (!reset ==> b.books == from.books.(offers := b.books.offers) && b.stage == from.stage)
  }

  lemma AlikeFrom(a: Session, b: Session, from: Session, to: Session, count: nat, more: nat, reset: bool)
    requires Alike(a, b, to, count, more, reset) && to.books == from.books && to.stage == from.stage
    ensures Alike(a, b, from, count, more, reset)
  {
  }

  lemma ShiftNothing(s: Session, count: nat, more: nat)
    ensures Alike(Shifted(s, count, more), s, s, count, more, false)
  {
  }

  lemma ShiftOffer(s: Session, enable: bool, count: nat, more: nat)
    ensures Alike(UpdateSession(Shifted(s, count, more)), UpdateSession(s), s, count, more, false)
    ensures Alike(ModifyChannel(Shifted(s, count, more), enable), ModifyChannel(s, enable), s, count, more, false)
  {
  }

  lemma {:induction false} ShiftChannels(b: Books, i: nat, d: nat)
    ensures TerminateChannels(b.(discovers := d), i) == TerminateChannels(b, i).(discovers := d)
    ensures TerminateChannels(b, i).discovers == b.discovers
    decreases |b.channels| - i
  {
    if i < |b.channels| {
      ShiftChannels(TerminateOneChannel(b, i), i + 1, d);
    }
  }

  lemma {:induction false} ShiftSlots(b: Books, i: nat, d: nat)
    ensures TerminateSlots(b.(discovers := d), i) == TerminateSlots(b, i).(discovers := d)
    ensures TerminateSlots(b, i).discovers == b.discovers
    decreases |b.slots| - i
  {
    if i < |b.slots| {
      ShiftSlots(TerminateOneSlot(b, i), i + 1, d);
    }
  }

  lemma ShiftTerminate(s: Session, count: nat, more: nat)
    ensures TerminateSession(Shifted(s, count, more)) == Shifted(TerminateSession(s), TerminateSession(s).books.count, more)
  {
    hide TerminateChannels, TerminateSlots;
    var d := s.books.discovers + more;
    var b1 := AskMediaIf(s.context, s.books.(count := 0), DestroyTopology, NoEnd);
    ShiftChannels(b1, 0, d);
    ShiftSlots(TerminateChannels(b1, 0), 0, d);
    assert AskMediaIf(s.context, s.books.(count := 0, discovers := d), DestroyTopology, NoEnd) == b1.(discovers := d);
  }

  lemma ShiftRegister(s: Session, id: nat, media: bool, count: nat, more: nat)
    ensures RegisterChannel(Shifted(s, count, more), id, media)
         == Shifted(RegisterChannel(s, id, media), RegisterChannel(s, id, media).books.count, more)
  {
  }

  lemma ShiftAdd(s: Session, id: nat, media: bool, count: nat, more: nat)
    requires s.books.count == 0
    ensures Alike(AddChannel(Shifted(s, count, more), id, media), AddChannel(s, id, media), s, count, more,
                  ChannelIndex(s.books.channels, id) >= |s.books.channels|)
  {
    hide ChannelIndex, RegisterChannel, ModifyChannel;
    if ChannelIndex(s.books.channels, id) >= |s.books.channels| {
      ShiftRegister(s, id, media, count, more);
    } else {
      ShiftOffer(s, true, count, more);
    }
  }

  lemma {:induction false} ShiftPop(s: Session, count: nat, more: nat)
    requires s.books.count == 0 && s.active.None? && s.stage != Terminating
    ensures Alike(PopDispatch(Shifted(s, count, more)), PopDispatch(s), s, count, more, DispatchResets(s, s.queue))
    decreases |s.queue|, 0
  {
    hide Dispatch, Resets;
    if s.queue == [] {
      NoneResets(s);
    } else {
      var s1 := s.(active := Some(s.queue[0]), queue := s.queue[1..]);
      assert [s.queue[0]] + s.queue[1..] == s.queue;
      ShiftDispatch(s1, s.queue[0], count, more);
      assert Shifted(s1, count, more)
          == Shifted(s, count, more).(active := Some(s.queue[0]), queue := s.queue[1..]);
    }
  }

  lemma NoneResets(s: Session)
    ensures !DispatchResets(s, [])
  {
  }

  lemma RaiseOf(s: Session, count: nat, more: nat)
    requires s.active.Some?
    ensures var status := if s.disconnected then Terminate else s.status;
      var s1 := Log(s.(active := None, status := status), Responded(s.active.value.id, status));
      && RaiseResponse(s, true) == PopDispatch(s1)
      && RaiseResponse(Shifted(s, count, more), true) == PopDispatch(Shifted(s1, count, more))
  {
    hide PopDispatch;
  }

  lemma {:induction false} ShiftRaise(s: Session, count: nat, more: nat)
    requires s.books.count == 0 && s.stage != Terminating
    ensures Alike(RaiseResponse(Shifted(s, count, more), true), RaiseResponse(s, true), s, count, more, RaiseResets(s))
    decreases |s.queue|, 1
  {
    hide PopDispatch, Resets, RaiseResponse, Alike;
    if s.active.Some? {
      var status := if s.disconnected then Terminate else s.status;
      var s1 := Log(s.(active := None, status := status), Responded(s.active.value.id, status));
      RaiseOf(s, count, more);
      ShiftPop(s1, count, more);
      AlikeFrom(PopDispatch(Shifted(s1, count, more)), PopDispatch(s1), s, s1, count, more, RaiseResets(s));
    } else {
      NoneActive(s, count, more);
    }
  }

  lemma NoneActive(s: Session, count: nat, more: nat)
    requires s.active.None?
    ensures Alike(RaiseResponse(Shifted(s, count, more), true), RaiseResponse(s, true), s, count, more, false)
  {
  }

  lemma ControlOf(s: Session, count: nat, more: nat)
    ensures if s.active.Some? && s.active.value.command == ControlMessage
      then var s1 := Log(s.(active := None), ControlResponded(s.active.value.id));
        && RaiseControlResponse(s) == PopDispatch(s1)
        && RaiseControlResponse(Shifted(s, count, more)) == PopDispatch(Shifted(s1, count, more))
      else RaiseControlResponse(s) == s && RaiseControlResponse(Shifted(s, count, more)) == Shifted(s, count, more)
  {
    hide PopDispatch;
  }

  lemma {:induction false} ShiftControl(s: Session, count: nat, more: nat)
    requires s.books.count == 0 && s.stage != Terminating
    ensures Alike(RaiseControlResponse(Shifted(s, count, more)), RaiseControlResponse(s), s, count, more,
                  s.active.Some? && s.active.value.command == ControlMessage && DispatchResets(s, s.queue))
    decreases |s.queue|, 1
  {
    hide PopDispatch, Resets, RaiseControlResponse, Alike;
    ControlOf(s, count, more);
    if s.active.Some? && s.active.value.command == ControlMessage {
      var s1 := Log(s.(active := None), ControlResponded(s.active.value.id));
      ShiftPop(s1, count, more);
      AlikeFrom(PopDispatch(Shifted(s1, count, more)), PopDispatch(s1), s, s1, count, more, DispatchResets(s, s.queue));
    } else {
      ShiftNothing(s, count, more);
    }
  }

  lemma {:induction false} ShiftDiscover(s: Session, accepted: nat, count: nat, more: nat)
    requires s.books.count == 0 && s.stage != Terminating
    ensures Alike(DiscoverResources(Shifted(s, count, more), accepted), DiscoverResources(s, accepted), s, count, more, true)
    decreases |s.queue|, 2
  {
    hide RaiseResponse, RaiseResets;
    if accepted == 0 {
      var s0 := StageSet(s, Discovering).(status := Failure);
      ShiftRaise(s0, 0, more);
      assert Shifted(s0, 0, more) == StageSet(Shifted(s, count, more), Discovering).(status := Failure);
    }
  }

  /** What the command of a request resets, the request being accepted. */
  predicate PerformResets(s: Session, r: Request) {
    match r.command
    case SessionTerminate => true
    case ResourceDiscover(_) => true
    case ChannelAdd(id, _) => ChannelIndex(s.books.channels, id) >= |s.books.channels|
    case ControlMessage => !s.hasId && Resets(s.books.channels, s.hasId, s.disconnected, true, false, s.queue)
    case _ => false
  }

  lemma {:induction false} ShiftPerform(s: Session, r: Request, count: nat, more: nat)
    requires s.books.count == 0 && s.stage != Terminating && s.active == Some(r) && s.registered && s.status == Success
    ensures Alike(Perform(Shifted(s, count, more), r), Perform(s, r), s, count, more, PerformResets(s, r))
    decreases |s.queue|, 3
  {
    hide Resets, TerminateSession, AddChannel, DiscoverResources, SendControl, Alike, UpdateSession, ModifyChannel;
    match r.command
    case SessionUpdate => ShiftOffer(s, false, count, more);
    case ChannelRemove(_) => ShiftOffer(s, false, count, more);
    case SessionTerminate => ShiftEnd(s, count, more);
    case ResourceDiscover(accepted) => ShiftDiscover(s, accepted, count, more);
    case ChannelAdd(id, media) => ShiftAdd(s, id, media, count, more);
    case ControlMessage => ShiftSend(s, r, count, more);
  }

  lemma ShiftEnd(s: Session, count: nat, more: nat)
    ensures Alike(TerminateSession(Shifted(s, count, more)), TerminateSession(s), s, count, more, true)
  {
    hide TerminateSession;
    ShiftTerminate(s, count, more);
  }

  lemma {:induction false} ShiftSend(s: Session, r: Request, count: nat, more: nat)
    requires s.books.count == 0 && s.stage != Terminating && s.active == Some(r) && s.registered && s.status == Success
    requires r.command == ControlMessage
    ensures Alike(SendControl(Shifted(s, count, more), r), SendControl(s, r), s, count, more, PerformResets(s, r))
    decreases |s.queue|, 2
  {
    hide Resets, RaiseControlResponse;
    if !s.hasId {
      ShiftControl(s, count, more);
    }
  }

  lemma ResetsIs(s: Session, r: Request)
    requires s.stage != Terminating
    ensures DispatchResets(s, [r] + s.queue) ==
      ((s.disconnected ==> r.command == SessionTerminate)
       && (s.registered || (r.command != SessionTerminate && r.agentsFound && s.status != Failure && r.sessionCreated))
       && PerformResets(s, r))
  {
    assert ([r] + s.queue)[1..] == s.queue;
  }

  /** A dispatch that does not get as far as its command. */
  predicate Refused(s: Session, r: Request) {
    || (s.disconnected && r.command != SessionTerminate)
    || (!s.registered && (r.command == SessionTerminate || !r.agentsFound || s.status == Failure || !r.sessionCreated))
  }

  /** A refused request is answered at once and changes nothing else. */
  function Turned(s: Session, r: Request): Session {
    var status :=
      if r.command == SessionTerminate then (if s.disconnected then Terminate else Success)
      else if s.disconnected then Cancel else Failure;
    s.(active := None, status := status, log := s.log + [Dispatched(r.id)] + [Responded(r.id, status)])
  }

  lemma RefusedIsTurned(s: Session, r: Request)
    requires s.stage != Terminating && s.active == Some(r) && Refused(s, r)
    ensures Dispatch(s, r) == Turned(s, r)
  {
    hide Perform, RaiseResponse, RaiseFailure;
    var s0 := Log(s, Dispatched(r.id));
    var t := s0.(status := if s.disconnected && r.command != SessionTerminate then Cancel
                           else if r.command == SessionTerminate then Success else Failure);
    AnsweredAtOnce(t);
  }

  lemma AnsweredAtOnce(s: Session)
    requires s.active.Some?
    ensures var r := s.active.value; var status := if s.disconnected then Terminate else s.status;
      && RaiseFailure(s) == s.(active := None, log := s.log + [Responded(r.id, s.status)])
      && RaiseResponse(s, false) == s.(active := None, status := status, log := s.log + [Responded(r.id, status)])
  {
    hide PopDispatch;
  }

  lemma ShiftRefused(s: Session, r: Request, count: nat, more: nat)
    requires s.stage != Terminating && s.active == Some(r) && Refused(s, r)
    ensures Alike(Dispatch(Shifted(s, count, more), r), Dispatch(s, r), s, count, more, false)
  {
    hide Dispatch;
    RefusedIsTurned(s, r);
    RefusedIsTurned(Shifted(s, count, more), r);
  }

  /** The session a command is performed on. */
  function Admitted(s: Session, r: Request): Session {
    var s0 := Log(s, Dispatched(r.id));
    if s.registered then s0.(status := Success) else Log(s0.(registered := true, status := Success), SessionAdded)
  }

  lemma DispatchOf(s: Session, r: Request, count: nat, more: nat)
    requires s.stage != Terminating && !Refused(s, r)
    ensures Dispatch(s, r) == Perform(Admitted(s, r), r)
    ensures Dispatch(Shifted(s, count, more), r) == Perform(Shifted(Admitted(s, r), count, more), r)
  {
    hide Perform;
  }

  lemma {:induction false} ShiftDispatch(s: Session, r: Request, count: nat, more: nat)
    requires s.books.count == 0 && s.stage != Terminating && s.active == Some(r)
    ensures Alike(Dispatch(Shifted(s, count, more), r), Dispatch(s, r), s, count, more, DispatchResets(s, [r] + s.queue))
    decreases |s.queue|, 4
  {
    hide Perform, Dispatch, DispatchResets, PerformResets, Alike;
    ResetsIs(s, r);
    if Refused(s, r) {
      ShiftRefused(s, r, count, more);
    } else {
      var s1 := Admitted(s, r);
      DispatchOf(s, r, count, more);
      SamePerform(s, s1, r);
      ShiftPerform(s1, r, count, more);
      AlikeFrom(Dispatch(Shifted(s, count, more), r), Dispatch(s, r), s, s1, count, more, PerformResets(s, r));
    }
  }

  lemma SamePerform(s: Session, t: Session, r: Request)
    requires t.books == s.books && t.hasId == s.hasId && t.disconnected == s.disconnected && t.queue == s.queue
    ensures PerformResets(t, r) == PerformResets(s, r)
  {
  }
}
