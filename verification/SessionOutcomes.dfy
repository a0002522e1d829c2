/** What the application sees of a client session: each stage ends with exactly
    one visible effect, and a termination completes. */
module SessionOutcomes {
  import opened SessionModel
  import opened SessionProofs
  import opened SessionRuns
  import opened SessionOrder

  // ---------- what each stage ends with ----------

  /** The log entry of a response to the active request. */
  function Reply(s: Session, status: Status): Event
    requires s.active.Some?
  {
    Responded(s.active.value.id, if s.disconnected then Terminate else status)
  }

  lemma RaiseTerminatedEffect(s: Session, status: Status)
    requires s.active.Some?
    ensures Faithful(s, RaiseTerminated(s, status))
    ensures var t := RaiseTerminated(s, status);
      && t.log == s.log + [SessionRemoved, Reply(s, if status == Success then s.status else status)]
      && t.active.None? && t.queue == s.queue && t.stage == s.stage
      && Outstanding(t.books) == Outstanding(s.books)
      && forall i :: 0 <= i < |t.books.channels| ==> !t.books.channels[i].control
  {
    hide Ledger, Receipts, Responses, ReleaseControl, RaiseResponse, PopDispatch, Faithful;
    var s1 := Log(s.(books := s.books.(channels := ReleaseControl(s.books.channels))), SessionRemoved);
    var s2 := if status != Success then s1.(status := status) else s1;
    Neutral(s, s2, SessionRemoved);
    RaiseFaithful(s2, false);
    FaithfulThrough(s, s2, RaiseResponse(s2, false));
    RaiseEffect(s2);
  }

  lemma FaithfulThrough(s: Session, t: Session, u: Session)
    requires Faithful(s, t) && Faithful(t, u)
    ensures Faithful(s, u)
  {
  }

  /** A response that starts no other request. */
  lemma RaiseEffect(s: Session)
    requires s.active.Some?
    ensures var t := RaiseResponse(s, false);
      && t.log == s.log + [Reply(s, s.status)]
      && t.active.None? && t.queue == s.queue && t.stage == s.stage && t.books == s.books
  {
  }

  lemma AnsweredEffect(s: Session, status: Status)
    requires s.active.Some? && s.stage == ProcessingAnswer
    ensures Faithful(s, Continue(s, status))
    ensures s.log + [Reply(s, if status == Success then s.status else status)] <= Continue(s, status).log
  {
    hide Ledger, Receipts, Responses, RaiseResponse;
    var s1 := if status == Success then s else s.(status := status);
    SameLedger(s, s1);
    RaiseFaithful(s1, true);
  }

  lemma DiscoveredEffect(s: Session, status: Status)
    requires s.active.Some? && s.stage == Discovering
    ensures Faithful(s, Continue(s, status))
    ensures s.log + [Responded(s.active.value.id, Success)] <= Continue(s, status).log
  {
    hide Ledger, Receipts, Responses, PopDispatch;
    var s1 := Log(s.(active := None), Responded(s.active.value.id, Success));
    Answered(s, s1, Responded(s.active.value.id, Success));
    PopFaithful(s1);
  }

  /** Exactly one effect ends each stage: an offer, a response, or the removal
      of the session followed by a response. */
  lemma ContinueEffect(s: Session, status: Status)
    requires s.active.Some?
    ensures Faithful(s, Continue(s, status))
    ensures s.stage == GeneratingOffer ==> Continue(s, status).log == s.log + [OfferSent]
    ensures s.stage == Terminating ==>
      && Continue(s, status).log == s.log + [SessionRemoved, Reply(s, if status == Success then s.status else status)]
      && forall i :: 0 <= i < |Continue(s, status).books.channels| ==> !Continue(s, status).books.channels[i].control
    ensures s.stage == ProcessingAnswer ==>
      s.log + [Reply(s, if status == Success then s.status else status)] <= Continue(s, status).log
    ensures s.stage == Discovering ==>
      s.log + [Responded(s.active.value.id, Success)] <= Continue(s, status).log
  {
    hide Faithful, RaiseTerminated, RaiseResponse, PopDispatch;
    match s.stage
    case GeneratingOffer => OfferFaithful(s, s);
    case Terminating => RaiseTerminatedEffect(s, status);
    case ProcessingAnswer => AnsweredEffect(s, status);
    case Discovering => DiscoveredEffect(s, status);
    case NoStage => SameLedger(s, s);
  }

  predicate IsReply(step: Step) {
    step.ChannelReply? || step.MediaReply? || step.TerminateReply? || step == DiscoverReply(true)
  }

  /** The status of the response that the last reply brings: that of the session so far,
      unless the connection agent reports a failure. */
  function ReplyStatus(s: Session, step: Step): Status {
    if step.ChannelReply? && !step.ok then Failure else s.status
  }

  /** Books and continuation status after a reply. */
  ghost predicate Outcome(s: Session, t: Session, b: Books, last: bool, status: Status) {
    && OneLess(s, b, last)
    && t == if last then Continue(s.(books := b), status) else s.(books := b)
  }

  lemma ReplyOutcome(s: Session, step: Step) returns (b: Books, last: bool, status: Status)
    requires Inv(s) && Enabled(s, step) && IsReply(step)
    ensures Outcome(s, Next(s, step), b, last, status)
    ensures Outstanding(s.books) > 0 && s.active.Some?
    ensures ReplyStatus(s, step) == if status == Success then s.status else status
  {
    hide Balanced, Staged, Structure, OneLess, Continue, LogAgrees;
    hide OnChannelReply, OnMediaReply, OnTerminateReply, OnDiscoverReply;
    status := Success;
    match step
    case ChannelReply(i, ok) =>
      ChannelReplyOutcome(s, i, ok);
      ChannelReplyOneLess(s, i);
      b, last := SubrequestRemove(AnswerCall(s.books, i)).0, SubrequestRemove(AnswerCall(s.books, i)).1;
      status := if ok then Success else Failure;
    case MediaReply =>
      MediaReplyOutcome(s);
      MediaReplyOneLess(s);
      b, last := SubrequestRemove(AnswerMedia(s.books)).0, SubrequestRemove(AnswerMedia(s.books)).1;
    case TerminateReply =>
      TerminateReplyOutcome(s);
      SignalOneLess(s);
      var r := SubrequestRemove(s.books.(terminates := s.books.terminates - 1));
      b, last := r.0, r.1;
    case DiscoverReply(_) =>
      DiscoverReplyOutcome(s);
      SignalOneLess(s);
      var r := SubrequestRemove(s.books.(discovers := s.books.discovers - 1));
      b, last := r.0, r.1;
  }

  /** A reply that is not the last one changes nothing the application or the
      server could see.  The last one has exactly the effect its stage calls
      for: the one offer of a new channel, the one response to an answered
      request, or the one removal and response of a termination. */
  lemma EveryReply(s: Session, step: Step)
    requires Inv(s) && Enabled(s, step) && IsReply(step)
    ensures var t := Next(s, step);
      && Faithful(s, t)
      && Outstanding(s.books) > 0 && s.active.Some?
      && (Outstanding(s.books) > 1 ==> t == s.(books := t.books) && Outstanding(t.books) == Outstanding(s.books) - 1)
      && (Outstanding(s.books) == 1 && s.stage == GeneratingOffer ==> t.log == s.log + [OfferSent])
      && (Outstanding(s.books) == 1 && s.stage == ProcessingAnswer ==>
            s.log + [Reply(s, ReplyStatus(s, step))] <= t.log)
      && (Outstanding(s.books) == 1 && s.stage == Discovering ==>
            s.log + [Responded(s.active.value.id, Success)] <= t.log)
      && (Outstanding(s.books) == 1 && s.stage == Terminating ==>
            && t.log == s.log + [SessionRemoved, Reply(s, ReplyStatus(s, step))]
            && forall i :: 0 <= i < |t.books.channels| ==> !t.books.channels[i].control)
  {
    hide Balanced, Staged, Structure, Inv, Next, Continue, Ledger, Receipts, Responses, SameTerminations;
    var b, last, status := ReplyOutcome(s, step);
    var s1 := s.(books := b);
    SameLedger(s, s1);
    if last {
      ContinueEffect(s1, status);
      assert Reply(s1, if status == Success then s.status else status) == Reply(s, if status == Success then s.status else status);
    }
  }

  // ---------- termination completes ----------

  /** How many of the steps are replies. */
  function Replies(steps: seq<Step>): nat {
    if steps == [] then 0 else (if IsReply(steps[0]) then 1 else 0) + Replies(steps[1..])
  }

  /** While a termination waits for replies, requests are queued and events change
      nothing that it depends on. */
  lemma OthersWait(s: Session, step: Step)
    requires Inv(s) && s.stage == Terminating && Outstanding(s.books) > 0 && Enabled(s, step) && !IsReply(step)
    ensures s.active.Some? && s.active.value.command == SessionTerminate
    ensures var t := Next(s, step);
      && t.books == s.books && t.stage == s.stage && t.active == s.active && t.disconnected == s.disconnected
      && Responses(t.log) == Responses(s.log) && Inv(t)
  {
    hide Inv, Next, Responses, Enabled;
    OnlyTermination(s);
    OthersLeaveBooks(s, step);
    StepInv(s, step);
  }

  lemma OthersLeaveBooks(s: Session, step: Step)
    requires s.active.Some? && s.active.value.command == SessionTerminate && s.stage == Terminating
    requires s.books.offers == 0 && s.books.discovers == 0 && Enabled(s, step) && !IsReply(step)
    ensures step != DiscoverReply(false)
    ensures var t := Next(s, step);
      && t.books == s.books && t.stage == s.stage && t.active == s.active && t.disconnected == s.disconnected
      && Responses(t.log) == Responses(s.log)
  {
    hide Responses, OnRequest, OnChannelReply, OnMediaReply, OnTerminateReply, OnDiscoverReply, OnAnswer;
    hide RaiseControlResponse;
    match step {
      case AppRequest(r) => OnlyQueued(s, r);
      case ControlEvent => LogEntry(s.log, ControlEventRaised);
      case ControlResponse => ControlIgnored(s);
      case _ =>
    }
  }

  lemma OnlyQueued(s: Session, r: Request)
    requires s.active.Some?
    ensures var t := OnRequest(s, r);
      && t.books == s.books && t.stage == s.stage && t.active == s.active && t.disconnected == s.disconnected
      && Responses(t.log) == Responses(s.log)
  {
    hide Responses, OnRequest;
    QueuedBehind(s, r);
    LogEntry(s.log, Received(r.id));
  }

  lemma ControlIgnored(s: Session)
    requires s.active.Some? && s.active.value.command != ControlMessage
    ensures RaiseControlResponse(s) == s
  {
  }

  /** What is active and owed while a termination waits. */
  lemma OnlyTermination(s: Session)
    requires Inv(s) && s.stage == Terminating && Outstanding(s.books) > 0
    ensures s.active.Some? && s.active.value.command == SessionTerminate
    ensures s.books.offers == 0 && s.books.discovers == 0
  {
    hide Balanced, Staged, Built, LogAgrees;
  }

  /** From s to t, n replies later: as long as replies are owed nothing is answered
      and the session stays; the last reply removes it, once, and answers the
      terminate request, once. */
  ghost predicate Progress(s: Session, t: Session, n: nat)
    requires s.active.Some?
  {
    && Outstanding(t.books) == Outstanding(s.books) - n
    && if Outstanding(t.books) > 0 then
         t.active == s.active && Responses(t.log) == Responses(s.log) && Removals(t.log) == 0
       else
         && t.active.None? && Responses(t.log) == Responses(s.log) + [s.active.value.id] && Removals(t.log) == 1
         && exists before, status :: t.log == before + [SessionRemoved, Reply(s, status)]
  }

  lemma ProgressFrom(s: Session, u: Session, t: Session, n: nat, first: nat)
    requires s.active.Some? && u.active == s.active && u.disconnected == s.disconnected
    requires Responses(u.log) == Responses(s.log) && Outstanding(u.books) == Outstanding(s.books) - first
    requires Progress(u, t, n)
    ensures Progress(s, t, first + n)
  {
    hide Responses, Removals, Reply;
    SameReply(s, u);
  }

  /** A termination in progress, under any steps. */
  lemma {:induction false} TerminationCompletes(s: Session, steps: seq<Step>)
    requires Inv(s) && s.stage == Terminating && Outstanding(s.books) > 0 && IsRun(s, steps)
    requires Replies(steps) <= Outstanding(s.books)
    requires Replies(steps) == Outstanding(s.books) ==> IsReply(steps[|steps| - 1])
    ensures s.active.Some? && s.active.value.command == SessionTerminate
    ensures Progress(s, After(s, steps), Replies(steps))
    decreases |steps|
  {
    hide Inv, Next, Enabled, Responses, Removals, Reply, Progress;
    Terminates(s);
    if steps == [] {
      NoProgress(s);
    } else {
      var t := Next(s, steps[0]);
      if !IsReply(steps[0]) {
        OthersWait(s, steps[0]);
        TerminationCompletes(t, steps[1..]);
        ProgressFrom(s, t, After(t, steps[1..]), Replies(steps[1..]), 0);
      } else if Outstanding(s.books) > 1 {
        WaitsOn(s, steps[0]);
        TerminationCompletes(t, steps[1..]);
        ProgressFrom(s, t, After(t, steps[1..]), Replies(steps[1..]), 1);
      } else {
        NoMoreReplies(steps);
        LastReplyEnds(s, steps[0]);
        assert After(s, steps) == After(t, []) == t;
      }
    }
  }

  lemma NoProgress(s: Session)
    requires s.active.Some? && Outstanding(s.books) > 0 && Removals(s.log) == 0
    ensures Progress(s, s, 0)
  {
  }

  lemma Terminates(s: Session)
    requires Inv(s) && s.stage == Terminating && Outstanding(s.books) > 0
    ensures s.active.Some? && s.active.value.command == SessionTerminate && Removals(s.log) == 0
  {
    hide Balanced, Staged, Structure;
  }

  lemma SameReply(s: Session, t: Session)
    requires s.active.Some? && t.active == s.active && t.disconnected == s.disconnected
    ensures forall status :: Reply(t, status) == Reply(s, status)
  {
  }

  lemma WaitsOn(s: Session, step: Step)
    requires Inv(s) && Enabled(s, step) && IsReply(step) && Outstanding(s.books) > 1
    ensures var t := Next(s, step); Inv(t) && t == s.(books := t.books) && Outstanding(t.books) == Outstanding(s.books) - 1
  {
    hide Inv, Next, Enabled, Faithful;
    EveryReply(s, step);
    StepInv(s, step);
  }

  /** With one reply owed, a run that ends with its last reply ends there. */
  lemma NoMoreReplies(steps: seq<Step>)
    requires steps != [] && IsReply(steps[0]) && Replies(steps) == 1 && IsReply(steps[|steps| - 1])
    ensures steps[1..] == []
  {
    if |steps| > 1 {
      OneAtLeast(steps[1..]);
    }
  }

  lemma {:induction false} OneAtLeast(steps: seq<Step>)
    requires steps != [] && IsReply(steps[|steps| - 1])
    ensures Replies(steps) > 0
  {
    if |steps| > 1 {
      OneAtLeast(steps[1..]);
    }
  }

  lemma LastReplyEnds(s: Session, step: Step)
    requires Inv(s) && s.stage == Terminating && Enabled(s, step) && IsReply(step) && Outstanding(s.books) == 1
    ensures s.active.Some? && Progress(s, Next(s, step), 1)
  {
    hide Inv, Next, Enabled, Responses, Removals, Outstanding, OneLess, RaiseTerminated, Faithful, Reply;
    var b, last, status := ReplyOutcome(s, step);
    var s1 := s.(books := b);
    OneLessOwed(s, b, last);
    ContinueTerminates(s1, status);
    RaiseTerminatedEffect(s1, status);
    Terminates(s);
    SameReply(s, s1);
    EndOfLog(s, if status == Success then s.status else status);
  }

  lemma ContinueTerminates(s: Session, status: Status)
    requires s.stage == Terminating
    ensures Continue(s, status) == RaiseTerminated(s, status)
  {
    hide RaiseTerminated;
  }

  lemma EndOfLog(s: Session, status: Status)
    requires s.active.Some? && Removals(s.log) == 0
    ensures var log := s.log + [SessionRemoved, Reply(s, status)];
      Responses(log) == Responses(s.log) + [s.active.value.id] && Removals(log) == 1
  {
    hide Responses, Removals;
    var reply := Reply(s, status);
    LogEntry(s.log, SessionRemoved);
    LogGrowth(s.log, SessionRemoved);
    LogEntry(s.log + [SessionRemoved], reply);
    LogGrowth(s.log + [SessionRemoved], reply);
    assert s.log + [SessionRemoved] + [reply] == s.log + [SessionRemoved, reply];
  }

  lemma OneLessOwed(s: Session, b: Books, last: bool)
    requires OneLess(s, b, last)
    ensures Outstanding(b) == Outstanding(s.books) - 1 && (last <==> Outstanding(b) == 0)
  {
  }

  /** As long as replies are owed, some agent can give one. */
  lemma SomeReplyIsPossible(s: Session)
    requires Inv(s) && Outstanding(s.books) > 0
    ensures exists step :: IsReply(step) && Enabled(s, step)
  {
    hide Structure, Staged, ChannelFlags, SlotFlags, LogAgrees;
    if s.books.media != [] {
      assert Enabled(s, MediaReply) && IsReply(MediaReply);
    } else if s.books.conn != map[] {
      var i :| i in s.books.conn;
      assert Enabled(s, ChannelReply(i, true)) && IsReply(ChannelReply(i, true));
    } else if s.books.terminates > 0 {
      assert Enabled(s, TerminateReply) && IsReply(TerminateReply);
    } else {
      assert Enabled(s, DiscoverReply(true)) && IsReply(DiscoverReply(true));
    }
  }
}
