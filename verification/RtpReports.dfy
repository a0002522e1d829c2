/** What an RTP receiver reports and counts, against the true sequence numbers of its
    source and the events of an epoch; and exactly when an epoch ends. */
module RtpReports {
  import opened RtpReceiver

  // ---------- the invariant over an epoch ----------

  lemma ForeignKeeps(f: Receiver, p: Packet)
    requires f.stat.received > 0 && (p.BadHeader? || p.ssrc != f.ssrc) && Receive(f, p).stat.restarts == f.stat.restarts
    ensures var g := Receive(f, p);
      && g == f.(stat := f.stat.(invalid := f.stat.invalid + 1), history := g.history)
      && g.history == f.history.(ssrcNew := g.history.ssrcNew, probation := g.history.probation)
  {
    if p.Packet? && SsrcCheck(f, p.ssrc).1 == SsrcRestart {
      RestartShows(f, p);
    }
  }

  lemma NextKeeps(f: Receiver, ssrc: nat, e: EpochEvent)
    requires Inv(f) && f.stat.received > 0 && f.ssrc == ssrc
    requires Happens(f, ssrc, e) && Next(f, ssrc, e).stat.restarts == f.stat.restarts
    ensures var g := Next(f, ssrc, e); Inv(g) && g.stat.received > 0 && g.ssrc == ssrc
  {
    match e
    case Own(truth, payload) =>
      ReceiveInv(f, OwnPacket(ssrc, truth, payload));
      OwnKeeps(f, ssrc, truth, payload);
    case Foreign(p) => ForeignKeeps(f, p);
    case ReportDue => ReportInv(f);
  }

  lemma OwnKeeps(f: Receiver, ssrc: nat, truth: int, payload: Payload)
    requires f.stat.received > 0 && f.ssrc == ssrc
    requires Receive(f, OwnPacket(ssrc, truth, payload)).stat.restarts == f.stat.restarts
    ensures var g := Receive(f, OwnPacket(ssrc, truth, payload));
      && g.stat.received == f.stat.received + 1 && g.ssrc == ssrc && g.periodic == f.periodic
      && g.fraction == f.fraction && g.lost == f.lost && g.stat.invalid == f.stat.invalid
      && g.stat.ignored == f.stat.ignored + (if payload.Other? then 1 else 0)
      && g.stat.discarded == f.stat.discarded + (if !payload.Other? && !payload.accepted then 1 else 0)
  {
    hide SeqUpdate;
  }

  lemma {:induction false} FedInv(f: Receiver, ssrc: nat, events: seq<EpochEvent>)
    requires Inv(f) && f.stat.received > 0 && f.ssrc == ssrc && Unbroken(f, ssrc, events)
    ensures Inv(Fed(f, ssrc, events))
    decreases |events|
  {
    hide Inv, Next, Happens;
    if events != [] {
      NextKeeps(f, ssrc, events[0]);
      FedInv(Next(f, ssrc, events[0]), ssrc, events[1..]);
    }
  }

  lemma EpochInv(r: Receiver, ssrc: nat, first: int, payload: Payload, events: seq<EpochEvent>)
    requires Inv(r) && r.stat.received == 0 && Unbroken(r, ssrc, [Own(first, payload)] + events)
    ensures Inv(Fed(r, ssrc, [Own(first, payload)] + events))
  {
    hide Inv, Receive;
    var all := [Own(first, payload)] + events;
    assert all[0] == Own(first, payload) && all[1..] == events;
    ReceiveInv(r, OwnPacket(ssrc, first, payload));
    TracksFirst(r, ssrc, first, payload);
    FedInv(Receive(r, OwnPacket(ssrc, first, payload)), ssrc, events);
  }

  // ---------- the cumulative loss ----------

  /** The packets of the source that did not arrive, by their true numbers. */
  function TrueLoss(first: int, events: seq<EpochEvent>): nat {
    Max(0, Highest(first, events) - first + 1 - (1 + Count(events)))
  }

  lemma FieldHolds(x: nat)
    ensures -0x800000 <= SignedField(x) < 0x800000 && (x - SignedField(x)) % 0x1000000 == 0
    ensures x < 0x800000 ==> SignedField(x) == x
  {
  }

  /** At any moment of an epoch a report tells the packets lost since its first one, as
      long as 24 bits can hold them signed, and otherwise their two's complement; the
      next interval starts where this one ends. */
  lemma ReportTellsTheLoss(r: Receiver, ssrc: nat, first: int, payload: Payload, events: seq<EpochEvent>)
    requires Inv(r) && r.stat.received == 0 && Smooth(first, events)
    requires Unbroken(r, ssrc, [Own(first, payload)] + events)
    ensures var f, lost := Fed(r, ssrc, [Own(first, payload)] + events), TrueLoss(first, events);
      && ReportReady(f)
      && (lost < 0x800000 ==> Report(f).lost == lost)
      && -0x800000 <= Report(f).lost < 0x800000 && (lost - Report(f).lost) % 0x1000000 == 0
      && ExpectedInterval(Report(f)) == ReceivedInterval(Report(f)) == 0
      && Report(f).periodic.discardedPrior == f.stat.discarded
      && Report(f) == f.(fraction := Report(f).fraction, lost := Report(f).lost, periodic := Report(f).periodic)
  {
    hide Inv, Fed, Unbroken, Smooth, Highest, SignedField, Fraction;
    EpochInv(r, ssrc, first, payload, events);
    EpochTracksTruth(r, ssrc, first, payload, events);
    ReportInv(Fed(r, ssrc, [Own(first, payload)] + events));
    FieldHolds(TrueLoss(first, events));
  }

  // ---------- intervals ----------

  ghost predicate NoReports(events: seq<EpochEvent>) {
    forall k :: 0 <= k < |events| ==> !events[k].ReportDue?
  }

  lemma {:induction false} PeriodicStays(f: Receiver, ssrc: nat, events: seq<EpochEvent>)
    requires Inv(f) && f.stat.received > 0 && f.ssrc == ssrc && Unbroken(f, ssrc, events) && NoReports(events)
    ensures Fed(f, ssrc, events).periodic == f.periodic
    decreases |events|
  {
    hide Inv, Receive, Report;
    if events != [] {
      NextKeeps(f, ssrc, events[0]);
      match events[0] {
        case Own(truth, payload) => OwnKeeps(f, ssrc, truth, payload);
        case Foreign(p) => ForeignKeeps(f, p);
      }
      PeriodicStays(Next(f, ssrc, events[0]), ssrc, events[1..]);
    }
  }

  lemma {:induction false} InTwoParts(f: Receiver, ssrc: nat, a: seq<EpochEvent>, b: seq<EpochEvent>)
    requires Unbroken(f, ssrc, a + b)
    ensures Unbroken(f, ssrc, a) && Unbroken(Fed(f, ssrc, a), ssrc, b)
    ensures Fed(f, ssrc, a + b) == Fed(Fed(f, ssrc, a), ssrc, b)
    decreases |a|
  {
    hide Next, Happens;
    if a == [] {
      assert a + b == b;
    } else {
      assert (a + b)[0] == a[0] && (a + b)[1..] == a[1..] + b;
      InTwoParts(Next(f, ssrc, a[0]), ssrc, a[1..], b);
    }
  }

  lemma {:induction false} NumbersInTwoParts(so: int, a: seq<EpochEvent>, b: seq<EpochEvent>)
    requires Smooth(so, a + b)
    ensures Smooth(so, a) && Smooth(Highest(so, a), b)
    ensures Highest(so, a + b) == Highest(Highest(so, a), b) && Count(a + b) == Count(a) + Count(b)
    decreases |a|
  {
    if a == [] {
      assert a + b == b;
    } else {
      assert (a + b)[0] == a[0] && (a + b)[1..] == a[1..] + b;
      NumbersInTwoParts(if a[0].Own? then Max(so, a[0].truth) else so, a[1..], b);
    }
  }

  /** Between two reports of an epoch, the packets expected are those by which the highest
      true number grew, and the packets received those that arrived: the fraction of the
      second report is the loss of that time. */
  lemma IntervalIsBetweenReports(
    r: Receiver, ssrc: nat, first: int, payload: Payload, before: seq<EpochEvent>, after: seq<EpochEvent>)
    requires Inv(r) && r.stat.received == 0 && NoReports(after)
    requires Smooth(first, before + ([ReportDue] + after))
    requires Unbroken(r, ssrc, [Own(first, payload)] + (before + ([ReportDue] + after)))
    ensures var f := Fed(r, ssrc, [Own(first, payload)] + (before + ([ReportDue] + after)));
      var seen := Highest(first, before);
      && ReportReady(f)
      && ExpectedInterval(f) == Highest(seen, after) - seen && ReceivedInterval(f) == Count(after)
      && Report(f).fraction == Fraction(Highest(seen, after) - seen, Count(after))
  {
    hide Inv, Fed, Unbroken, Smooth, Highest, Fraction, Report, Tracks;
    var start := [Own(first, payload)] + before;
    var all := [Own(first, payload)] + (before + ([ReportDue] + after));
    assert all == start + ([ReportDue] + after);
    InTwoParts(r, ssrc, start, [ReportDue] + after);
    NumbersInTwoParts(first, before, [ReportDue] + after);
    NumbersInTwoParts(Highest(first, before), [ReportDue], after);
    EpochInv(r, ssrc, first, payload, before);
    EpochInv(r, ssrc, first, payload, before + ([ReportDue] + after));
    EpochTracksTruth(r, ssrc, first, payload, before);
    EpochTracksTruth(r, ssrc, first, payload, before + ([ReportDue] + after));
    var f1 := Fed(r, ssrc, start);
    AfterReport(f1, ssrc, after);
    EpochSource(r, ssrc, first, payload, before);
    OnlyReport(Highest(first, before));
    ReportIs(f1);
    PeriodicStays(Report(f1), ssrc, after);
    ReportIs(Fed(r, ssrc, all));
  }

  lemma OnlyReport(so: int)
    ensures Highest(so, [ReportDue]) == so && Count([ReportDue]) == 0
  {
    assert [ReportDue][1..] == [];
  }

  lemma ReportIs(f: Receiver)
    requires Inv(f)
    ensures ReportReady(f) && Inv(Report(f))
    ensures Report(f).stat == f.stat && Report(f).ssrc == f.ssrc
    ensures Report(f).fraction == Fraction(ExpectedInterval(f), ReceivedInterval(f))
    ensures Report(f).periodic == Periodic(f.stat.received, Expected(f), f.stat.discarded)
  {
    ReportInv(f);
  }

  lemma AfterReport(f: Receiver, ssrc: nat, after: seq<EpochEvent>)
    requires Inv(f) && Unbroken(f, ssrc, [ReportDue] + after)
    ensures ReportReady(f) && Unbroken(Report(f), ssrc, after)
    ensures Fed(f, ssrc, [ReportDue] + after) == Fed(Report(f), ssrc, after)
  {
    hide Inv, Report;
    var all := [ReportDue] + after;
    assert all[0] == ReportDue && all[1..] == after;
  }

  lemma EpochSource(r: Receiver, ssrc: nat, first: int, payload: Payload, events: seq<EpochEvent>)
    requires Inv(r) && r.stat.received == 0 && Unbroken(r, ssrc, [Own(first, payload)] + events)
    ensures var f := Fed(r, ssrc, [Own(first, payload)] + events); f.ssrc == ssrc && f.stat.received > 0
  {
    hide Inv, Receive;
    var all := [Own(first, payload)] + events;
    assert all[0] == Own(first, payload) && all[1..] == events;
    ReceiveInv(r, OwnPacket(ssrc, first, payload));
    TracksFirst(r, ssrc, first, payload);
    EpochSourceStays(Receive(r, OwnPacket(ssrc, first, payload)), ssrc, events);
  }

  lemma {:induction false} EpochSourceStays(f: Receiver, ssrc: nat, events: seq<EpochEvent>)
    requires Inv(f) && f.stat.received > 0 && f.ssrc == ssrc && Unbroken(f, ssrc, events)
    ensures Fed(f, ssrc, events).ssrc == ssrc && Fed(f, ssrc, events).stat.received > 0
    decreases |events|
  {
    hide Inv, Next, Happens;
    if events != [] {
      NextKeeps(f, ssrc, events[0]);
      EpochSourceStays(Next(f, ssrc, events[0]), ssrc, events[1..]);
    }
  }

  // ---------- the other counters ----------

  function Foreigners(events: seq<EpochEvent>): nat {
    if events == [] then 0 else (if events[0].Foreign? then 1 else 0) + Foreigners(events[1..])
  }

  /** Packets of the source with a payload that is neither audio nor event. */
  function OtherPayloads(events: seq<EpochEvent>): nat {
    if events == [] then 0
    else (if events[0].Own? && events[0].payload.Other? then 1 else 0) + OtherPayloads(events[1..])
  }

  /** Packets of the source that the jitter buffer did not take. */
  function NotTaken(events: seq<EpochEvent>): nat {
    if events == [] then 0
    else (if events[0].Own? && !events[0].payload.Other? && !events[0].payload.accepted then 1 else 0) + NotTaken(events[1..])
  }

  /** Over an epoch every packet is counted where it belongs. */
  lemma {:induction false} EpochCounts(f: Receiver, ssrc: nat, events: seq<EpochEvent>)
    requires Inv(f) && f.stat.received > 0 && f.ssrc == ssrc && Unbroken(f, ssrc, events)
    ensures var g := Fed(f, ssrc, events);
      && g.stat.received == f.stat.received + Count(events)
      && g.stat.invalid == f.stat.invalid + Foreigners(events)
      && g.stat.ignored == f.stat.ignored + OtherPayloads(events)
      && g.stat.discarded == f.stat.discarded + NotTaken(events)
    decreases |events|
  {
    hide Inv, Receive, Report;
    if events != [] {
      NextKeeps(f, ssrc, events[0]);
      match events[0] {
        case Own(truth, payload) => OwnKeeps(f, ssrc, truth, payload);
        case Foreign(p) => ForeignKeeps(f, p);
        case ReportDue => ReportIs(f);
      }
      EpochCounts(Next(f, ssrc, events[0]), ssrc, events[1..]);
    }
  }

  // ---------- the end of an epoch ----------

  /** Of the packets received since the last report, this one counted, more than 30 in a
      hundred were discarded. */
  predicate TooManyDiscarded(f: Receiver) {
    (f.stat.discarded + 1 - f.periodic.discardedPrior) * 100 > (f.stat.received + 1 - f.periodic.receivedPrior) * 30
  }

  /** A packet of the source ends the epoch exactly when its timestamp drifts, or when it
      is audio that the jitter buffer does not take and too many were discarded. */
  lemma OwnEndsEpochIff(f: Receiver, truth: int, payload: Payload)
    requires f.stat.received > 0
    ensures var g := Receive(f, OwnPacket(f.ssrc, truth, payload));
      var ends := payload.Codec? && (payload.drift || (!payload.accepted && TooManyDiscarded(f)));
      && (g.stat.restarts != f.stat.restarts <==> ends)
      && (ends ==> StartedOver(f, g) && g.ssrc == f.ssrc)
  {
  }

  /** Everything but source and last report is as at the beginning, one restart later. */
  ghost predicate StartedOver(f: Receiver, g: Receiver) {
    && g.stat == Stat(0, 0, 0, 0, (f.stat.restarts + 1) % 256) && g.history == FRESH_HISTORY && g.periodic == FRESH_PERIODIC
    && g.fraction == f.fraction && g.lost == f.lost
  }

  ghost predicate OfSource(packets: seq<Packet>, ssrc: nat) {
    forall k :: 0 <= k < |packets| ==> packets[k].Packet? && packets[k].ssrc == ssrc
  }

  ghost function ReceiveAll(r: Receiver, packets: seq<Packet>): Receiver
    decreases |packets|
  {
    if packets == [] then r else ReceiveAll(Receive(r, packets[0]), packets[1..])
  }

  /** Packets of another source in a row: five of them are only counted as invalid. */
  lemma {:induction false} OnProbation(f: Receiver, ssrc: nat, packets: seq<Packet>)
    requires f.stat.received > 0 && f.ssrc != ssrc && OfSource(packets, ssrc)
    requires f.history.ssrcNew == ssrc && |packets| < f.history.probation <= PROBATION
    ensures ReceiveAll(f, packets) ==
      f.(stat := f.stat.(invalid := f.stat.invalid + |packets|),
         history := f.history.(probation := f.history.probation - |packets|))
    decreases |packets|
  {
    if packets != [] {
      OnProbation(Receive(f, packets[0]), ssrc, packets[1..]);
    }
  }

  /** The first packet of another source begins its probation. */
  lemma ProbationBegins(f: Receiver, p: Packet)
    requires f.stat.received > 0 && p.Packet? && f.ssrc != p.ssrc && f.history.ssrcNew != p.ssrc
    ensures Receive(f, p) ==
      f.(stat := f.stat.(invalid := f.stat.invalid + 1), history := f.history.(ssrcNew := p.ssrc, probation := PROBATION))
  {
  }

  lemma BeforeTheSixth(f: Receiver, ssrc: nat, packets: seq<Packet>)
    requires f.stat.received > 0 && f.ssrc != ssrc && f.history.ssrcNew != ssrc
    requires OfSource(packets, ssrc) && 0 < |packets| < 6
    ensures ReceiveAll(f, packets) ==
      f.(stat := f.stat.(invalid := f.stat.invalid + |packets|),
         history := f.history.(ssrcNew := ssrc, probation := PROBATION + 1 - |packets|))
  {
    hide Receive;
    ProbationBegins(f, packets[0]);
    OnProbation(Receive(f, packets[0]), ssrc, packets[1..]);
  }

  /** A new source takes over with its sixth packet in a row, and not before: until then
      its packets are invalid, and with the sixth the receiver starts over for it. */
  lemma SixthTakesOver(f: Receiver, ssrc: nat, packets: seq<Packet>, last: Packet)
    requires f.stat.received > 0 && f.ssrc != ssrc && f.history.ssrcNew != ssrc
    requires OfSource(packets, ssrc) && |packets| == 5 && last.Packet? && last.ssrc == ssrc
    ensures var g := ReceiveAll(f, packets); g.ssrc == f.ssrc && g.stat == f.stat.(invalid := f.stat.invalid + 5)
    ensures ReceiveAll(f, packets + [last]) ==
      UsePayload(CountPacket(StatInit(Restart(f), ssrc, last.number), last.number), last.payload)
    ensures StartedOver(f, Restart(f))
  {
    hide UsePayload, CountPacket, ReceiveAll;
    BeforeTheSixth(f, ssrc, packets);
    Last(f, packets, last);
  }

  lemma {:induction false} Last(f: Receiver, packets: seq<Packet>, p: Packet)
    ensures ReceiveAll(f, packets + [p]) == Receive(ReceiveAll(f, packets), p)
    decreases |packets|
  {
    hide Receive;
    var all := packets + [p];
    if packets == [] {
      assert all[0] == p && all[1..] == [];
    } else {
      assert all[0] == packets[0] && all[1..] == packets[1..] + [p];
      Last(Receive(f, packets[0]), packets[1..], p);
    }
  }

  /** A packet of the source in between starts the probation of the other one afresh;
      without a probation it changes nothing about it. */
  lemma OwnEndsProbation(f: Receiver, truth: int, payload: Payload)
    requires f.stat.received > 0 && Receive(f, OwnPacket(f.ssrc, truth, payload)).stat.restarts == f.stat.restarts
    ensures var g := Receive(f, OwnPacket(f.ssrc, truth, payload));
      g.history.probation == 0 && g.history.ssrcNew == if f.history.probation == 0 then f.history.ssrcNew else 0
  {
  }
}
