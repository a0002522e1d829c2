/** What every run of the client session protocol keeps. */
module SessionProofs {
  import opened SessionModel

  // ---------- the counter, the waiting flags and the agents ----------

  function TargetList(media: seq<MediaCommand>): seq<Target> {
    seq(|media|, p requires 0 <= p < |media| => media[p].target)
  }

  /** The terminations unanswered media commands are about, each as often as it is mentioned. */
  function Targets(media: seq<MediaCommand>): multiset<Target> {
    multiset(TargetList(media))
  }

  lemma TargetsAppend(media: seq<MediaCommand>, m: MediaCommand)
    ensures Targets(media + [m]) == Targets(media) + multiset{m.target}
  {
    assert TargetList(media + [m]) == TargetList(media) + [m.target];
  }

  lemma TargetsTail(media: seq<MediaCommand>)
    requires media != []
    ensures Targets(media) == multiset{media[0].target} + Targets(media[1..])
  {
    assert TargetList(media) == [media[0].target] + TargetList(media[1..]);
  }

  /** A termination named by a command exists; n channels and as many RTP slots do. */
  predicate TargetOk(t: Target, n: nat) {
    t.NoEnd? || t.i < n
  }

  ghost predicate TargetsExist(media: seq<MediaCommand>, n: nat) {
    forall p :: 0 <= p < |media| ==> TargetOk(media[p].target, n)
  }

  /** A channel waits for the connection agent exactly when that agent owes it a reply. */
  ghost predicate CallFlags(conn: map<nat, ChannelCall>, channels: seq<Channel>) {
    && (forall i :: i in conn ==> i < |channels|)
    && (forall i :: 0 <= i < |channels| ==> (channels[i].waitingForChannel <==> i in conn))
  }

  /** A channel waits for its termination exactly when one media command is about it, and never more. */
  ghost predicate ChannelFlags(media: seq<MediaCommand>, channels: seq<Channel>) {
    forall i :: 0 <= i < |channels| ==>
      Targets(media)[ChannelEnd(i)] == if channels[i].waitingForTermination then 1 else 0
  }

  ghost predicate SlotFlags(media: seq<MediaCommand>, slots: seq<Slot>) {
    forall i :: 0 <= i < |slots| ==> Targets(media)[RtpEnd(i)] == if slots[i].waiting then 1 else 0
  }

  /** The counter and the waiting flags agree with what the agents still owe. */
  ghost predicate Balanced(b: Books) {
    && |b.channels| == |b.slots|
    && b.count == Outstanding(b)
    && CallFlags(b.conn, b.channels)
    && ChannelFlags(b.media, b.channels)
    && SlotFlags(b.media, b.slots)
    && TargetsExist(b.media, |b.channels|)
  }

  ghost predicate SameTerminations(a: Books, b: Books) {
    && |b.channels| == |a.channels| && |b.slots| == |a.slots|
    && (forall i :: 0 <= i < |a.channels| ==> b.channels[i].termination == a.channels[i].termination)
    && (forall i :: 0 <= i < |a.slots| ==> b.slots[i].termination == a.slots[i].termination)
  }

  ghost predicate SameSignaling(a: Books, b: Books) {
    b.offers == a.offers && b.terminates == a.terminates && b.discovers == a.discovers
  }

  lemma AskChannelBalanced(b: Books, i: nat, call: ChannelCall)
    requires Balanced(b) && i < |b.channels| && i !in b.conn
    ensures Balanced(AskChannel(b, i, call))
    ensures SameTerminations(b, AskChannel(b, i, call)) && SameSignaling(b, AskChannel(b, i, call))
  {
  }

  lemma AskMediaBalanced(b: Books, kind: MediaKind, t: Target)
    requires Balanced(b) && TargetOk(t, |b.channels|) && (t.NoEnd? || Targets(b.media)[t] == 0)
    ensures Balanced(AskMedia(b, kind, t))
    ensures SameTerminations(b, AskMedia(b, kind, t)) && SameSignaling(b, AskMedia(b, kind, t))
    ensures Targets(AskMedia(b, kind, t).media) == Targets(b.media) + multiset{t}
  {
    TargetsAppend(b.media, MediaCommand(kind, t));
  }

  // ---------- what may be outstanding at each stage ----------

  function CallOf(stage: Stage): ChannelCall {
    match stage
    case Terminating => ChannelRemoved
    case ProcessingAnswer => ChannelModified
    case _ => ChannelAdded
  }

  predicate MediaOf(stage: Stage, m: MediaCommand) {
    match stage
    case GeneratingOffer => m.kind == AddTermination && !m.target.NoEnd?
    case ProcessingAnswer =>
      || (m.kind == ModifyTermination && m.target.RtpEnd?)
      || (m.kind in {AddAssociation, ResetAssociations, ApplyTopology} && m.target.NoEnd?)
    case Terminating =>
      || (m.kind == SubtractTermination && !m.target.NoEnd?)
      || (m.kind == DestroyTopology && m.target.NoEnd?)
    case _ => false
  }

  predicate EndsWithRtpSubtract(media: seq<MediaCommand>) {
    && media != []
    && media[|media| - 1].kind == SubtractTermination
    && media[|media| - 1].target.RtpEnd?
  }

  /** Every unanswered call and media command belongs to the current stage. */
  ghost predicate Staged(b: Books, stage: Stage) {
    && (forall i :: i in b.conn ==> b.conn[i] == CallOf(stage))
    && (b.conn != map[] ==> stage in {GeneratingOffer, ProcessingAnswer, Terminating})
    && (forall p :: 0 <= p < |b.media| ==> MediaOf(stage, b.media[p]))
  }

  ghost predicate NoMentions(b: Books, from: nat) {
    forall k :: from <= k ==> Targets(b.media)[ChannelEnd(k)] == 0
  }

  ghost predicate NoRtpMentions(b: Books, from: nat) {
    forall k :: from <= k ==> Targets(b.media)[RtpEnd(k)] == 0
  }

  // ---------- fan-out loops ----------

  lemma AskMediaStaged(b: Books, kind: MediaKind, t: Target, stage: Stage)
    requires Staged(b, stage) && MediaOf(stage, MediaCommand(kind, t))
    ensures Staged(AskMedia(b, kind, t), stage)
  {
  }

  lemma AskChannelStaged(b: Books, i: nat, stage: Stage)
    requires Staged(b, stage) && stage in {GeneratingOffer, ProcessingAnswer, Terminating}
    ensures Staged(AskChannel(b, i, CallOf(stage)), stage)
  {
  }

  ghost predicate ChannelsAsked(b: Books, i: nat) {
    && Balanced(b) && Staged(b, Terminating) && i <= |b.channels|
    && (forall k :: k in b.conn ==> k < i)
    && NoMentions(b, i) && NoRtpMentions(b, 0)
  }

  lemma RemoveControlAsks(b: Books, i: nat)
    requires ChannelsAsked(b, i) && i < |b.channels|
    ensures var r := if b.channels[i].control then AskChannel(b, i, ChannelRemoved) else b;
      && Balanced(r) && Staged(r, Terminating) && SameTerminations(b, r) && SameSignaling(b, r)
      && (forall k :: k in r.conn ==> k < i + 1)
  {
    if b.channels[i].control {
      AskChannelBalanced(b, i, ChannelRemoved);
      AskChannelStaged(b, i, Terminating);
    }
  }

  lemma TerminateOneChannelAsks(b: Books, i: nat)
    requires ChannelsAsked(b, i) && i < |b.channels|
    ensures ChannelsAsked(TerminateOneChannel(b, i), i + 1)
    ensures SameTerminations(b, TerminateOneChannel(b, i)) && SameSignaling(b, TerminateOneChannel(b, i))
    ensures !b.channels[i].termination ==> TerminateOneChannel(b, i).media == b.media
  {
    RemoveControlAsks(b, i);
    var b1 := if b.channels[i].control then AskChannel(b, i, ChannelRemoved) else b;
    if b.channels[i].termination {
      AskMediaBalanced(b1, SubtractTermination, ChannelEnd(i));
      AskMediaStaged(b1, SubtractTermination, ChannelEnd(i), Terminating);
    }
  }

  lemma {:induction false} TerminateChannelsAsks(b: Books, i: nat)
    requires ChannelsAsked(b, i) && i <= |b.channels|
    ensures ChannelsAsked(TerminateChannels(b, i), |b.channels|)
    ensures SameTerminations(b, TerminateChannels(b, i)) && SameSignaling(b, TerminateChannels(b, i))
    ensures (forall k :: i <= k < |b.channels| ==> !b.channels[k].termination) ==> TerminateChannels(b, i).media == b.media
    decreases |b.channels| - i
  {
    hide ChannelsAsked, TerminateOneChannel;
    if i < |b.channels| {
      TerminateOneChannelAsks(b, i);
      TerminateChannelsAsks(TerminateOneChannel(b, i), i + 1);
    }
  }

  ghost predicate SlotsAsked(b: Books, i: nat) {
    Balanced(b) && Staged(b, Terminating) && i <= |b.slots| && NoRtpMentions(b, i)
  }

  lemma TerminateOneSlotAsks(b: Books, i: nat)
    requires SlotsAsked(b, i) && i < |b.slots|
    ensures SlotsAsked(TerminateOneSlot(b, i), i + 1)
    ensures SameTerminations(b, TerminateOneSlot(b, i)) && SameSignaling(b, TerminateOneSlot(b, i))
  {
    if b.slots[i].termination {
      AskMediaBalanced(b, SubtractTermination, RtpEnd(i));
      AskMediaStaged(b, SubtractTermination, RtpEnd(i), Terminating);
    }
  }

  lemma {:induction false} TerminateSlotsAsks(b: Books, i: nat)
    requires SlotsAsked(b, i) && i <= |b.slots|
    ensures SlotsAsked(TerminateSlots(b, i), |b.slots|)
    ensures SameTerminations(b, TerminateSlots(b, i)) && SameSignaling(b, TerminateSlots(b, i))
    decreases |b.slots| - i
  {
    hide SlotsAsked, TerminateOneSlot;
    if i < |b.slots| {
      TerminateOneSlotAsks(b, i);
      TerminateSlotsAsks(TerminateOneSlot(b, i), i + 1);
    }
  }

  /** Whatever media commands went before, subtracting an RTP termination comes last. */
  lemma {:induction false} RtpSubtractComesLast(b: Books, i: nat, k: nat)
    requires i <= |b.slots|
    ensures TerminateSlots(b, i).media == b.media || EndsWithRtpSubtract(TerminateSlots(b, i).media)
    ensures i <= k < |b.slots| && b.slots[k].termination ==> EndsWithRtpSubtract(TerminateSlots(b, i).media)
    decreases |b.slots| - i
  {
    if i < |b.slots| {
      RtpSubtractComesLast(TerminateOneSlot(b, i), i + 1, k);
    }
  }

  lemma {:induction false} ModifyControlsAsks(b: Books, i: nat, n: nat)
    requires Balanced(b) && Staged(b, ProcessingAnswer) && i <= n <= |b.channels|
    requires forall k :: k in b.conn ==> k < i
    ensures var r := ModifyControls(b, i, n);
      && Balanced(r) && Staged(r, ProcessingAnswer) && SameTerminations(b, r) && SameSignaling(b, r)
      && r.media == b.media
    decreases n - i
  {
    hide Balanced, Staged, SameTerminations, SameSignaling, AskChannel;
    if i < n {
      var b1 := AskChannel(b, i, ChannelModified);
      AskChannelBalanced(b, i, ChannelModified);
      ControlAsked(b, i);
      ModifyControlsAsks(b1, i + 1, n);
      SameThroughout(b, b1, ModifyControls(b1, i + 1, n));
    } else {
      SameThroughout(b, b, b);
    }
  }

  lemma ControlAsked(b: Books, i: nat)
    requires Staged(b, ProcessingAnswer)
    ensures var r := AskChannel(b, i, ChannelModified);
      Staged(r, ProcessingAnswer) && r.media == b.media && r.conn.Keys == b.conn.Keys + {i}
  {
  }

  ghost predicate SlotsModified(b: Books, i: nat) {
    Balanced(b) && Staged(b, ProcessingAnswer) && i <= |b.slots| && NoRtpMentions(b, i)
  }

  lemma ModifyOneSlotAsks(b: Books, i: nat)
    requires SlotsModified(b, i) && i < |b.slots|
    ensures SlotsModified(ModifyOneSlot(b, i), i + 1)
    ensures SameTerminations(b, ModifyOneSlot(b, i)) && SameSignaling(b, ModifyOneSlot(b, i))
  {
    if b.slots[i].termination {
      AskMediaBalanced(b, ModifyTermination, RtpEnd(i));
      AskMediaStaged(b, ModifyTermination, RtpEnd(i), ProcessingAnswer);
      var b1 := AskMedia(b, ModifyTermination, RtpEnd(i));
      if b.channels[i].termination {
        AskMediaBalanced(b1, AddAssociation, NoEnd);
        AskMediaStaged(b1, AddAssociation, NoEnd, ProcessingAnswer);
      }
    }
  }

  lemma {:induction false} ModifySlotsAsks(b: Books, i: nat, n: nat)
    requires SlotsModified(b, i) && i <= n <= |b.slots|
    ensures SlotsModified(ModifySlots(b, i, n), n)
    ensures SameTerminations(b, ModifySlots(b, i, n)) && SameSignaling(b, ModifySlots(b, i, n))
    ensures (forall k :: i <= k < n ==> !b.slots[k].termination) ==> ModifySlots(b, i, n).media == b.media
    decreases n - i
  {
    hide SlotsModified, ModifyOneSlot, SameTerminations, SameSignaling;
    OneSlotEach(b, i);
    if i < n {
      var b1 := ModifyOneSlot(b, i);
      ModifyOneSlotAsks(b, i);
      ModifyOneSlotKeeps(b, i);
      OneSlotEach(b1, i + 1);
      ModifySlotsAsks(b1, i + 1, n);
      SameThroughout(b, b1, ModifySlots(b1, i + 1, n));
    } else {
      SameThroughout(b, b, b);
    }
  }

  lemma OneSlotEach(b: Books, i: nat)
    requires SlotsModified(b, i)
    ensures |b.channels| == |b.slots|
  {
  }

  /** A slot without termination is passed over. */
  lemma ModifyOneSlotKeeps(b: Books, i: nat)
    requires i < |b.slots| == |b.channels|
    ensures var r := ModifyOneSlot(b, i);
      && |r.slots| == |b.slots| && (forall k :: 0 <= k < |b.slots| ==> r.slots[k].termination == b.slots[k].termination)
      && (!b.slots[i].termination ==> r.media == b.media)
  {
  }

  lemma SameThroughout(a: Books, b: Books, c: Books)
    ensures SameTerminations(a, a) && SameSignaling(a, a)
    ensures SameTerminations(a, b) && SameTerminations(b, c) ==> SameTerminations(a, c)
    ensures SameSignaling(a, b) && SameSignaling(b, c) ==> SameSignaling(a, c)
  {
  }
}
