/** What each request and each answer asks of the agents: which channels, which
    terminations, how often and in what order. */
module SessionRequests {
  import opened SessionModel
  import opened SessionProofs
  import opened SessionRuns
  import opened SessionOrder
  import opened SessionResets

  // ---------- what was asked ----------

  /** How often a command stands among those the media engine has not answered. */
  function Times(media: seq<MediaCommand>, m: MediaCommand): nat {
    multiset(media)[m]
  }

  /** The same channels and slots, waiting flags apart. */
  ghost predicate SameParts(a: Books, b: Books) {
    && |b.channels| == |a.channels| && |b.slots| == |a.slots|
    && (forall i :: 0 <= i < |a.channels| ==>
          && b.channels[i].id == a.channels[i].id && b.channels[i].control == a.channels[i].control
          && b.channels[i].termination == a.channels[i].termination)
    && (forall i :: 0 <= i < |a.slots| ==> b.slots[i].termination == a.slots[i].termination)
  }

  lemma AskChannelParts(b: Books, i: nat, call: ChannelCall)
    ensures var r := AskChannel(b, i, call); SameParts(b, r) && r.media == b.media && r.conn == b.conn[i := call]
    ensures SameSignaling(b, AskChannel(b, i, call))
  {
  }

  lemma AskMediaParts(b: Books, kind: MediaKind, t: Target, m: MediaCommand)
    ensures var r := AskMedia(b, kind, t);
      && SameParts(b, r) && r.conn == b.conn && r.media == b.media + [MediaCommand(kind, t)]
      && Times(r.media, m) == Times(b.media, m) + (if m == MediaCommand(kind, t) then 1 else 0)
    ensures SameSignaling(b, AskMedia(b, kind, t))
  {
  }

  // ---------- termination ----------

  ghost predicate EndsChannel(b: Books, i: nat, m: MediaCommand) {
    && m.kind == SubtractTermination && m.target.ChannelEnd?
    && i <= m.target.i < |b.channels| && b.channels[m.target.i].termination
  }

  lemma OneChannelTold(b: Books, i: nat, k: nat, m: MediaCommand)
    requires i < |b.channels|
    ensures var r := TerminateOneChannel(b, i);
      && SameParts(b, r) && SameSignaling(b, r) && b.media <= r.media
      && (k in r.conn <==> k in b.conn || (k == i && b.channels[i].control))
      && (k in r.conn ==> r.conn[k] == if k == i && b.channels[i].control then ChannelRemoved else b.conn[k])
      && Times(r.media, m) == Times(b.media, m)
           + (if b.channels[i].termination && m == MediaCommand(SubtractTermination, ChannelEnd(i)) then 1 else 0)
  {
    hide AskChannel, AskMedia;
    AskChannelParts(b, i, ChannelRemoved);
    var b1 := if b.channels[i].control then AskChannel(b, i, ChannelRemoved) else b;
    AskMediaParts(b1, SubtractTermination, ChannelEnd(i), m);
  }

  lemma {:induction false} ChannelsTold(b: Books, i: nat, k: nat, m: MediaCommand)
    requires i <= |b.channels|
    ensures var r := TerminateChannels(b, i);
      && SameParts(b, r) && SameSignaling(b, r) && b.media <= r.media
      && (k in r.conn <==> k in b.conn || (i <= k < |b.channels| && b.channels[k].control))
      && (i <= k < |b.channels| && b.channels[k].control ==> r.conn[k] == ChannelRemoved)
      && Times(r.media, m) == Times(b.media, m) + (if EndsChannel(b, i, m) then 1 else 0)
    decreases |b.channels| - i
  {
    hide TerminateOneChannel, Times;
    if i < |b.channels| {
      OneChannelTold(b, i, k, m);
      var b1 := TerminateOneChannel(b, i);
      ChannelsTold(b1, i + 1, k, m);
      if k == i && b.channels[i].control {
        CallStays(b1, i + 1, k);
      }
    }
  }

  /** The loop leaves the calls to earlier channels alone. */
  lemma {:induction false} CallStays(b: Books, i: nat, k: nat)
    requires k < i <= |b.channels| && k in b.conn
    ensures var r := TerminateChannels(b, i); k in r.conn && r.conn[k] == b.conn[k]
    decreases |b.channels| - i
  {
    hide TerminateOneChannel;
    if i < |b.channels| {
      OneChannelTold(b, i, k, MediaCommand(DestroyTopology, NoEnd));
      CallStays(TerminateOneChannel(b, i), i + 1, k);
    }
  }

  ghost predicate EndsSlot(b: Books, i: nat, m: MediaCommand) {
    && m.kind == SubtractTermination && m.target.RtpEnd?
    && i <= m.target.i < |b.slots| && b.slots[m.target.i].termination
  }

  lemma {:induction false} SlotsTold(b: Books, i: nat, m: MediaCommand)
    requires i <= |b.slots|
    ensures var r := TerminateSlots(b, i);
      && SameParts(b, r) && SameSignaling(b, r) && b.media <= r.media && r.conn == b.conn
      && Times(r.media, m) == Times(b.media, m) + (if EndsSlot(b, i, m) then 1 else 0)
    decreases |b.slots| - i
  {
    hide AskMedia, Times;
    if i < |b.slots| {
      AskMediaParts(b, SubtractTermination, RtpEnd(i), m);
      SlotsTold(TerminateOneSlot(b, i), i + 1, m);
    }
  }

  /** What a termination tells the media engine. */
  ghost predicate ToldAtTheEnd(s: Session, m: MediaCommand) {
    || (s.context && m == MediaCommand(DestroyTopology, NoEnd))
    || EndsChannel(s.books, 0, m)
    || EndsSlot(s.books, 0, m)
  }

  /** The termination of an idle session asks the connection agent to remove exactly the
      channels with a control channel.  It asks the media engine, once each, to destroy
      the topology first, and to subtract the termination of every channel and of every
      slot that has one, and nothing else.  It asks the signaling agent once. */
  lemma TerminationAsks(s: Session)
    requires Idle(s)
    ensures var t := TerminateSession(s);
      t.stage == Terminating && t.log == s.log + [TerminateSent] && t.active == s.active && t.queue == s.queue
    ensures var r := TerminateSession(s).books;
      && SameParts(s.books, r) && r.offers == 0 && r.terminates == 1 && r.discovers == 0 && r.count == Outstanding(r)
      && (forall i: nat :: i in r.conn <==> i < |s.books.channels| && s.books.channels[i].control)
      && (forall i :: i in r.conn ==> r.conn[i] == ChannelRemoved)
      && (forall m :: Times(r.media, m) == if ToldAtTheEnd(s, m) then 1 else 0)
      && (s.context ==> r.media != [] && r.media[0] == MediaCommand(DestroyTopology, NoEnd))
      && (r.media != [] ==> EndsWithRtpSubtract(r.media))
  {
    hide TerminateBooks, Times, EndsWithRtpSubtract, SameParts, ToldAtTheEnd, Idle;
    TerminationParts(s);
    var r := TerminateBooks(s.books, s.context);
    forall i: nat
      ensures i in r.conn <==> i < |s.books.channels| && s.books.channels[i].control
      ensures i in r.conn ==> r.conn[i] == ChannelRemoved
    {
      TerminationCalls(s, i);
    }
    forall m ensures Times(r.media, m) == if ToldAtTheEnd(s, m) then 1 else 0 {
      TerminationTells(s, m);
    }
  }

  lemma TerminationParts(s: Session)
    requires Idle(s)
    ensures var r := TerminateBooks(s.books, s.context);
      && SameParts(s.books, r) && r.offers == 0 && r.terminates == 1 && r.discovers == 0 && r.count == Outstanding(r)
      && (s.context ==> r.media != [] && r.media[0] == MediaCommand(DestroyTopology, NoEnd))
      && (r.media != [] ==> EndsWithRtpSubtract(r.media))
  {
    hide TerminateChannels, TerminateSlots, AskMedia, Times, EndsWithRtpSubtract, SameParts, Balanced, Staged;
    var b, n := s.books, MediaCommand(DestroyTopology, NoEnd);
    TerminateBooksBalanced(b, s.context, s.offer);
    CountedAsOwed(TerminateBooks(b, s.context));
    TerminateStartParts(b, s.context, n);
    var b1 := AskMediaIf(s.context, b.(count := 0), DestroyTopology, NoEnd);
    ChannelsTold(b1, 0, 0, n);
    var b2 := TerminateChannels(b1, 0);
    SlotsTold(b2, 0, n);
    var b3 := if s.context then TerminateSlots(b2, 0) else b2;
    SameThrough(b, b1, b2);
    SameThrough(b, b2, b3);
    SameThrough(b2, b2, b2);
    SameCounted(b, b3, TerminateBooks(b, s.context));
  }

  lemma NothingAsked(b: Books, m: MediaCommand)
    requires Quiet(b)
    ensures Times(b.media, m) == 0 && b.conn == map[]
  {
  }

  lemma CountedAsOwed(b: Books)
    requires Balanced(b)
    ensures b.count == Outstanding(b)
  {
  }

  lemma SameThrough(a: Books, b: Books, c: Books)
    ensures SameParts(a, a) && (SameParts(a, b) && SameParts(b, c) ==> SameParts(a, c))
  {
  }

  lemma SameCounted(a: Books, b: Books, c: Books)
    requires SameParts(a, b) && c.channels == b.channels && c.slots == b.slots
    ensures SameParts(a, c)
  {
  }

  lemma TerminateStartParts(b: Books, context: bool, m: MediaCommand)
    ensures var r := AskMediaIf(context, b.(count := 0), DestroyTopology, NoEnd);
      && SameParts(b, r) && SameSignaling(b, r) && r.conn == b.conn
      && r.media == b.media + (if context then [MediaCommand(DestroyTopology, NoEnd)] else [])
      && Times(r.media, m) == Times(b.media, m) + (if context && m == MediaCommand(DestroyTopology, NoEnd) then 1 else 0)
  {
    hide AskMedia;
    AskMediaParts(b.(count := 0), DestroyTopology, NoEnd, m);
  }

  lemma TerminationCalls(s: Session, i: nat)
    requires Idle(s)
    ensures var r := TerminateBooks(s.books, s.context);
      && (i in r.conn <==> i < |s.books.channels| && s.books.channels[i].control)
      && (i in r.conn ==> r.conn[i] == ChannelRemoved)
  {
    hide TerminateChannels, TerminateSlots, AskMedia, Times, Balanced;
    var b, n := s.books, MediaCommand(DestroyTopology, NoEnd);
    NothingAsked(b, n);
    TerminateStartParts(b, s.context, n);
    var b1 := AskMediaIf(s.context, b.(count := 0), DestroyTopology, NoEnd);
    ChannelsTold(b1, 0, i, n);
    SlotsTold(TerminateChannels(b1, 0), 0, n);
  }

  lemma TerminationTells(s: Session, m: MediaCommand)
    requires Idle(s)
    ensures Times(TerminateBooks(s.books, s.context).media, m) == if ToldAtTheEnd(s, m) then 1 else 0
  {
    hide TerminateChannels, TerminateSlots, AskMedia, Times, Balanced;
    NothingAsked(s.books, m);
    TerminateStartParts(s.books, s.context, m);
    var b1 := AskMediaIf(s.context, s.books.(count := 0), DestroyTopology, NoEnd);
    ChannelsTold(b1, 0, 0, m);
    SlotsTold(TerminateChannels(b1, 0), 0, m);
    NoSlotWithoutContext(s, m);
  }

  lemma NoSlotWithoutContext(s: Session, m: MediaCommand)
    requires Built(s)
    ensures EndsSlot(s.books, 0, m) ==> s.context
  {
  }

  // ---------- answers ----------

  lemma {:induction false} ControlsTold(b: Books, i: nat, n: nat, k: nat)
    ensures var r := ModifyControls(b, i, n);
      && SameParts(b, r) && SameSignaling(b, r) && r.media == b.media
      && (k in r.conn <==> k in b.conn || i <= k < n)
      && (k in r.conn ==> r.conn[k] == if i <= k < n then ChannelModified else b.conn[k])
    decreases n - i
  {
    hide AskChannel;
    if i < n {
      AskChannelParts(b, i, ChannelModified);
      ControlsTold(AskChannel(b, i, ChannelModified), i + 1, n, k);
    }
  }

  /** Slots of the answered media whose termination is told the remote side. */
  ghost predicate TellsSlot(b: Books, i: nat, n: nat, m: MediaCommand) {
    && m.kind == ModifyTermination && m.target.RtpEnd?
    && i <= m.target.i < n && m.target.i < |b.slots| && b.slots[m.target.i].termination
  }

  /** Those of them that are joined to the termination of their channel. */
  ghost function Joined(b: Books, i: nat, n: nat): set<nat> {
    set k | i <= k < n && k < |b.slots| && k < |b.channels| && b.slots[k].termination && b.channels[k].termination
  }

  lemma OneSlotTold(b: Books, i: nat, m: MediaCommand)
    requires i < |b.slots| && i < |b.channels|
    ensures var r := ModifyOneSlot(b, i); var join := MediaCommand(AddAssociation, NoEnd);
      && SameParts(b, r) && SameSignaling(b, r) && r.conn == b.conn && b.media <= r.media
      && (m != join ==>
            Times(r.media, m) == Times(b.media, m)
              + (if b.slots[i].termination && m == MediaCommand(ModifyTermination, RtpEnd(i)) then 1 else 0))
      && Times(r.media, join) == Times(b.media, join) + |Joined(b, i, i + 1)|
  {
    hide AskMedia;
    var join := MediaCommand(AddAssociation, NoEnd);
    var b1 := AskMedia(b, ModifyTermination, RtpEnd(i));
    AskMediaParts(b, ModifyTermination, RtpEnd(i), m);
    AskMediaParts(b, ModifyTermination, RtpEnd(i), join);
    AskMediaParts(b1, AddAssociation, NoEnd, m);
    AskMediaParts(b1, AddAssociation, NoEnd, join);
    assert Joined(b, i, i + 1) == if b.slots[i].termination && b.channels[i].termination then {i} else {};
  }

  lemma JoinedNext(b: Books, r: Books, i: nat, n: nat)
    requires i < n && SameParts(b, r)
    ensures |Joined(b, i, n)| == |Joined(b, i, i + 1)| + |Joined(r, i + 1, n)|
  {
    assert Joined(b, i, n) == Joined(b, i, i + 1) + Joined(r, i + 1, n);
    assert Joined(b, i, i + 1) !! Joined(r, i + 1, n);
  }

  lemma {:induction false} AudiosTold(b: Books, i: nat, n: nat, m: MediaCommand)
    requires i <= n <= |b.slots| && n <= |b.channels|
    ensures var r := ModifySlots(b, i, n); var join := MediaCommand(AddAssociation, NoEnd);
      && SameParts(b, r) && SameSignaling(b, r) && r.conn == b.conn && b.media <= r.media
      && (m != join ==> Times(r.media, m) == Times(b.media, m) + (if TellsSlot(b, i, n, m) then 1 else 0))
      && Times(r.media, join) == Times(b.media, join) + |Joined(b, i, n)|
    decreases n - i
  {
    hide ModifyOneSlot, Times, Joined;
    if i < n {
      OneSlotTold(b, i, m);
      var b1 := ModifyOneSlot(b, i);
      AudiosTold(b1, i + 1, n, m);
      JoinedNext(b, b1, i, n);
    } else {
      NoneJoined(b, i, n);
    }
  }

  lemma NoneJoined(b: Books, i: nat, n: nat)
    requires i >= n
    ensures |Joined(b, i, n)| == 0
  {
    assert Joined(b, i, n) == {};
  }

  /** The audio media of an answer are processed: always in version 2, and in version 1
      when both sides have the resource enabled. */
  predicate WithAudio(s: Session, a: AnswerDescriptor) {
    s.version2 || (s.offerResource && a.resourceState)
  }

  /** What an accepted answer tells the media engine, associations apart. */
  ghost predicate ToldByAnswer(s: Session, a: AnswerDescriptor, m: MediaCommand) {
    || (s.context && (m == MediaCommand(ResetAssociations, NoEnd) || m == MediaCommand(ApplyTopology, NoEnd)))
    || (WithAudio(s, a) && TellsSlot(s.books, 0, a.audios, m))
  }

  /** An accepted answer asks the connection agent, in version 2, for exactly the answered
      channels.  It asks the media engine, once each, to reset the associations first, to
      tell every answered slot with a termination the remote side, and to apply the
      topology last; and for as many associations as such slots have a channel with a
      termination; and nothing else. */
  lemma AnswerAsks(s: Session, a: AnswerDescriptor)
    requires Idle(s) && AnswerFits(s.books, a)
    ensures var t := AcceptAnswer(s, a);
      && t.stage == ProcessingAnswer && t.log == s.log && t.active == s.active && t.queue == s.queue
      && (t.hasId <==> s.hasId || (a.sessionId && (s.version2 ==> a.controls > 0)))
      && t.status == if !s.version2 && s.offerResource && !a.resourceState then Failure else s.status
    ensures var r := AcceptAnswer(s, a).books; var join := MediaCommand(AddAssociation, NoEnd);
      && SameParts(s.books, r) && r.offers == r.terminates == r.discovers == 0 && r.count == Outstanding(r)
      && (forall k: nat :: k in r.conn <==> s.version2 && k < a.controls)
      && (forall k :: k in r.conn ==> r.conn[k] == ChannelModified)
      && (forall m | m != join :: Times(r.media, m) == if ToldByAnswer(s, a, m) then 1 else 0)
      && Times(r.media, join) == (if WithAudio(s, a) then |Joined(s.books, 0, a.audios)| else 0)
      && (s.context ==>
            && |r.media| > 1 && r.media[0] == MediaCommand(ResetAssociations, NoEnd)
            && r.media[|r.media| - 1] == MediaCommand(ApplyTopology, NoEnd))
  {
    hide ProcessMediaAnswer, AskMedia, Times, Joined, SameParts, ToldByAnswer, Idle, WithAudio;
    AnswerParts(s, a);
    var r, join := AcceptAnswer(s, a).books, MediaCommand(AddAssociation, NoEnd);
    forall k: nat
      ensures k in r.conn <==> s.version2 && k < a.controls
      ensures k in r.conn ==> r.conn[k] == ChannelModified
    {
      AnswerTells(s, a, k, join);
    }
    forall m | m != join ensures Times(r.media, m) == if ToldByAnswer(s, a, m) then 1 else 0 {
      AnswerTells(s, a, 0, m);
    }
    AnswerTells(s, a, 0, join);
  }

  /** Processing an answer, in both protocol versions. */
  lemma MediaAnswerTells(s: Session, b: Books, a: AnswerDescriptor, k: nat, m: MediaCommand)
    requires AnswerFits(b, a) && b.conn == map[]
    ensures var r := ProcessMediaAnswer(s.version2, s.offerResource, b, a); var join := MediaCommand(AddAssociation, NoEnd);
      && SameParts(b, r) && SameSignaling(b, r) && b.media <= r.media
      && (k in r.conn <==> s.version2 && k < a.controls) && (k in r.conn ==> r.conn[k] == ChannelModified)
      && (m != join ==> Times(r.media, m) == Times(b.media, m) + (if WithAudio(s, a) && TellsSlot(b, 0, a.audios, m) then 1 else 0))
      && Times(r.media, join) == Times(b.media, join) + (if WithAudio(s, a) then |Joined(b, 0, a.audios)| else 0)
  {
    hide ModifyControls, ModifySlots, Times;
    ControlsTold(b, 0, a.controls, k);
    ControlsKeepLength(b, 0, a.controls);
    var b1 := ModifyControls(b, 0, a.controls);
    AudiosTold(b, 0, a.audios, m);
    AudiosTold(b1, 0, a.audios, m);
    assert Joined(b1, 0, a.audios) == Joined(b, 0, a.audios);
  }

  lemma AnswerTells(s: Session, a: AnswerDescriptor, k: nat, m: MediaCommand)
    requires Idle(s) && AnswerFits(s.books, a)
    ensures var r := AcceptAnswer(s, a).books; var join := MediaCommand(AddAssociation, NoEnd);
      && (k in r.conn <==> s.version2 && k < a.controls) && (k in r.conn ==> r.conn[k] == ChannelModified)
      && (m != join ==> Times(r.media, m) == if ToldByAnswer(s, a, m) then 1 else 0)
      && Times(r.media, join) == if WithAudio(s, a) then |Joined(s.books, 0, a.audios)| else 0
  {
    hide ProcessMediaAnswer, AskMedia, Times, Balanced, Structure, WithAudio;
    var b, join := s.books, MediaCommand(AddAssociation, NoEnd);
    var b1 := AskMediaIf(s.context, b.(count := 0), ResetAssociations, NoEnd);
    NothingAsked(b, m);
    NothingAsked(b, join);
    AskMediaParts(b.(count := 0), ResetAssociations, NoEnd, m);
    AskMediaParts(b.(count := 0), ResetAssociations, NoEnd, join);
    MediaAnswerTells(s, b1, a, k, m);
    var b2 := ProcessMediaAnswer(s.version2, s.offerResource, b1, a);
    AskMediaParts(b2, ApplyTopology, NoEnd, m);
    AskMediaParts(b2, ApplyTopology, NoEnd, join);
    assert Joined(b1, 0, a.audios) == Joined(b, 0, a.audios);
  }

  lemma AnswerParts(s: Session, a: AnswerDescriptor)
    requires Idle(s) && AnswerFits(s.books, a)
    ensures var r := AcceptAnswer(s, a).books;
      && SameParts(s.books, r) && r.offers == r.terminates == r.discovers == 0 && r.count == Outstanding(r)
      && (s.context ==>
            && |r.media| > 1 && r.media[0] == MediaCommand(ResetAssociations, NoEnd)
            && r.media[|r.media| - 1] == MediaCommand(ApplyTopology, NoEnd))
  {
    hide ProcessMediaAnswer, AskMedia, Times, Balanced, Staged, Structure, SameParts, SameTerminations;
    var b, n := s.books, MediaCommand(ApplyTopology, NoEnd);
    AcceptAnswerAsks(s, a);
    CountedAsOwed(AcceptAnswer(s, a).books);
    var b0 := b.(count := 0);
    var b1 := AskMediaIf(s.context, b0, ResetAssociations, NoEnd);
    AskMediaParts(b0, ResetAssociations, NoEnd, n);
    MediaAnswerTells(s, b1, a, 0, n);
    var b2 := ProcessMediaAnswer(s.version2, s.offerResource, b1, a);
    AskMediaParts(b2, ApplyTopology, NoEnd, n);
    SameThrough(b0, b1, b2);
    SameThrough(b0, b0, b2);
    SameThrough(b0, b2, AcceptAnswer(s, a).books);
    SameThrough(b2, b2, b2);
    SameCounted0(b, AcceptAnswer(s, a).books);
  }

  lemma SameCounted0(a: Books, r: Books)
    requires SameParts(a.(count := 0), r)
    ensures SameParts(a, r)
  {
  }

  // ---------- every request ----------

  lemma AddedBooks(b: Books, ch: Channel)
    requires Quiet(b) && |b.channels| == |b.slots|
    ensures var r, n := AddChannelBooks(b, ch), |b.channels|;
      && |r.channels| == |r.slots| == n + 1 && r.channels[..n] == b.channels && r.slots[..n] == b.slots
      && r.channels[n].id == ch.id && r.channels[n].control == ch.control
      && r.channels[n].termination == r.slots[n].termination == ch.termination
      && r.conn == (if ch.control then map[n := ChannelAdded] else map[])
      && r.media == (if ch.termination then [MediaCommand(AddTermination, ChannelEnd(n)), MediaCommand(AddTermination, RtpEnd(n))] else [])
      && r.offers == r.terminates == r.discovers == 0
      && (r.count == 0 <==> !ch.control && !ch.termination)
  {
  }

  /** A new channel is appended to the old ones; it asks the connection agent in version
      2, the media engine for its own and for the RTP termination if it brings media, and
      when it asks nobody its offer is sent at once. */
  lemma AddAsks(s: Session, id: nat, media: bool)
    requires Idle(s) && ChannelIndex(s.books.channels, id) == |s.books.channels|
    ensures var r, n := AddChannel(s, id, media).books, |s.books.channels|;
      && |r.channels| == |r.slots| == n + 1 && r.channels[..n] == s.books.channels && r.slots[..n] == s.books.slots
      && r.channels[n].id == id && r.channels[n].control == s.version2
      && r.channels[n].termination == r.slots[n].termination == media
      && r.conn == (if s.version2 then map[n := ChannelAdded] else map[])
      && r.media == (if media then [MediaCommand(AddTermination, ChannelEnd(n)), MediaCommand(AddTermination, RtpEnd(n))] else [])
      && r.terminates == r.discovers == 0 && r.offers == if s.version2 || media then 0 else 1
    ensures var t := AddChannel(s, id, media);
      && t.log == s.log + (if s.version2 || media then [] else [OfferSent])
      && t.stage == GeneratingOffer && t.offer && t.active == s.active && t.queue == s.queue
      && t.offerResource == (s.offerResource || !s.version2) && t.context == (s.context || media)
  {
    hide AddChannelBooks, Balanced, Structure;
    OneSlotForEach(s);
    AddedBooks(s.books, Channel(id, s.version2, media, false, false));
    assert s.log + [] == s.log;
  }

  lemma OneSlotForEach(s: Session)
    requires Built(s)
    ensures |s.books.channels| == |s.books.slots|
  {
  }

  /** Requests that only need an offer: it is sent with the resource as asked for. */
  ghost predicate OnlyOffers(s: Session, t: Session, resource: bool) {
    && t.log == s.log + (if s.offer then [OfferSent] else []) && t.stage == s.stage && t.active == s.active
    && t.books == s.books.(offers := s.books.offers + if s.offer then 1 else 0)
    && t.offerResource == (if s.offer then resource else s.offerResource) && t.registered == s.registered
  }

  ghost predicate Discovers(s: Session, t: Session, id: nat, n: nat) {
    if n > 0 then
      && t.active == s.active && t.log == s.log + [DiscoverSent(n)] && t.stage == Discovering
      && t.books == s.books.(count := n, discovers := n) && t.registered == s.registered
    else s.log + [Responded(id, if s.disconnected then Terminate else Failure)] <= t.log
  }

  ghost predicate Controls(s: Session, t: Session, id: nat) {
    if s.hasId then t == s.(log := s.log + [ControlSent(id)])
    else s.log + [ControlResponded(id)] <= t.log
  }

  /** What a request makes of a session that has just dispatched it. */
  ghost predicate Served(s: Session, r: Request, t: Session) {
    match r.command
    case SessionUpdate => OnlyOffers(s, t, s.offerResource)
    case ChannelRemove(_) => OnlyOffers(s, t, false)
    case ChannelAdd(id, media) =>
      if ChannelIndex(s.books.channels, id) < |s.books.channels| then OnlyOffers(s, t, true)
      else t == AddChannel(s, id, media)
    case SessionTerminate => t == TerminateSession(s)
    case ResourceDiscover(n) => Discovers(s, t, r.id, n)
    case ControlMessage => Controls(s, t, r.id)
  }

  /** A response that starts the next request comes first in what is logged then. */
  lemma RaisedFirst(s: Session)
    requires s.active.Some?
    ensures var r := s.active.value;
      && s.log + [Responded(r.id, if s.disconnected then Terminate else s.status)] <= RaiseResponse(s, true).log
      && (r.command == ControlMessage ==> s.log + [ControlResponded(r.id)] <= RaiseControlResponse(s).log)
  {
    hide PopDispatch, Receipts, Ledger;
    var r := s.active.value;
    var status := if s.disconnected then Terminate else s.status;
    PopFaithful(Log(s.(active := None, status := status), Responded(r.id, status)));
    PopFaithful(Log(s.(active := None), ControlResponded(r.id)));
  }

  lemma PerformIs(s: Session, r: Request)
    ensures r.command == SessionUpdate ==> Perform(s, r) == UpdateSession(s)
    ensures r.command.ChannelRemove? ==> Perform(s, r) == ModifyChannel(s, false)
    ensures r.command.ChannelAdd? ==> Perform(s, r) == AddChannel(s, r.command.channel, r.command.media)
    ensures r.command == SessionTerminate ==> Perform(s, r) == TerminateSession(s)
    ensures r.command.ResourceDiscover? ==> Perform(s, r) == DiscoverResources(s, r.command.accepted)
    ensures r.command == ControlMessage ==> Perform(s, r) == SendControl(s, r)
  {
    hide UpdateSession, ModifyChannel, AddChannel, TerminateSession, DiscoverResources, SendControl;
  }

  lemma PerformServes(s: Session, r: Request)
    requires Quiet(s.books) && s.active == Some(r)
    ensures Served(s, r, Perform(s, r))
  {
    hide Perform, UpdateSession, ModifyChannel, AddChannel, TerminateSession, DiscoverResources, SendControl;
    hide OnlyOffers, Discovers, Controls, ChannelIndex;
    PerformIs(s, r);
    UpdateOffers(s);
    match r.command
    case ChannelAdd(id, media) => AddIsModify(s, id, media);
    case ResourceDiscover(n) => DiscoverServes(s, r, n);
    case ControlMessage => ControlServes(s, r);
    case _ =>
  }

  lemma AddIsModify(s: Session, id: nat, media: bool)
    ensures ChannelIndex(s.books.channels, id) < |s.books.channels| ==> AddChannel(s, id, media) == ModifyChannel(s, true)
  {
  }

  lemma UpdateOffers(s: Session)
    ensures OnlyOffers(s, UpdateSession(s), s.offerResource)
    ensures forall resource :: OnlyOffers(s, ModifyChannel(s, resource), resource)
  {
    assert s.log + [] == s.log;
    assert s.books.(offers := s.books.offers + 0) == s.books;
  }

  lemma DiscoverServes(s: Session, r: Request, n: nat)
    requires Quiet(s.books) && s.active == Some(r)
    ensures Discovers(s, DiscoverResources(s, n), r.id, n)
  {
    hide RaiseResponse;
    RaisedFirst(StageSet(s, Discovering).(status := Failure));
  }

  lemma ControlServes(s: Session, r: Request)
    requires s.active == Some(r) && r.command == ControlMessage
    ensures Controls(s, SendControl(s, r), r.id)
  {
    hide RaiseControlResponse;
    RaisedFirst(s);
  }

  /** A request that reaches an idle session and is not refused: it is logged, registers
      the session if it is the first, and is served as its command says. */
  lemma RequestAsks(s: Session, r: Request)
    requires Idle(s) && s.active.None? && s.stage != Terminating && !Refused(s, r)
    ensures var s1 := Admitted(Log(s, Received(r.id)).(active := Some(r)), r);
      && Idle(s1) && s1.registered
      && s1.log == s.log + [Received(r.id)] + [Dispatched(r.id)] + (if s.registered then [] else [SessionAdded])
      && Served(s1, r, OnRequest(s, r))
  {
    hide Perform, Served, Balanced, Structure, Dispatch;
    var s0 := Log(s, Received(r.id)).(active := Some(r));
    DispatchOf(s0, r, 0, 0);
    PerformServes(Admitted(s0, r), r);
    assert s.log + [Received(r.id)] + [Dispatched(r.id)] + [] == s.log + [Received(r.id)] + [Dispatched(r.id)];
  }

  lemma UncountedCall(s: Session, i: nat, ok: bool)
    requires i in s.books.conn && i < |s.books.channels| && s.books.count == 0
    ensures var t := OnChannelReply(s, i, ok); t == s.(books := t.books) && t.books.count == 0
  {
    hide RaiseResponse, RaiseTerminated, OfferSend;
  }

  lemma UncountedTermination(s: Session, m: MediaCommand)
    requires s.books.count == 0
    ensures var t := OnTerminationReply(s, m); t == s.(books := t.books) && t.books.count == 0
  {
    hide RaiseResponse, RaiseTerminated, OfferSend, OnLastByStage, WaitForSlot, WaitForTermination;
    var b := s.books;
    if m.target.RtpEnd? {
      var b1 := b.(slots := WaitForSlot(b.slots, m.target.i, false));
      assert SubrequestRemove(b1) == (b1, false);
    } else if m.target.ChannelEnd? {
      var b1 := b.(channels := WaitForTermination(b.channels, m.target.i, false));
      assert SubrequestRemove(b1) == (b1, false);
    }
  }

  lemma UncountedMedia(s: Session)
    requires s.books.media != [] && s.books.count == 0
    ensures var t := OnMediaReply(s); t == s.(books := t.books) && t.books.count == 0
  {
    hide OnTerminationReply, OnLastByStage;
    UncountedTermination(s.(books := s.books.(media := s.books.media[1..])), s.books.media[0]);
  }

  lemma UncountedSignal(s: Session)
    requires s.books.count == 0
    ensures s.books.terminates > 0 ==> var t := OnTerminateReply(s); t == s.(books := t.books) && t.books.count == 0
    ensures s.books.discovers > 0 ==> var t := OnDiscoverReply(s, true); t == s.(books := t.books) && t.books.count == 0
  {
    hide RaiseResponse, RaiseTerminated, PopDispatch;
  }

  /** A reply that no longer counts changes nothing but the books, and leaves the counter
      at zero. */
  lemma UncountedReply(s: Session, step: Step)
    requires Enabled(s, step) && s.books.count == 0
    requires step.ChannelReply? || step.MediaReply? || step.TerminateReply? || step == DiscoverReply(true)
    ensures var t := Next(s, step); t == s.(books := t.books) && t.books.count == 0
  {
    hide OnChannelReply, OnMediaReply, OnTerminateReply, OnDiscoverReply;
    match step
    case ChannelReply(i, ok) => UncountedCall(s, i, ok);
    case MediaReply => UncountedMedia(s);
    case _ => UncountedSignal(s);
  }
}
