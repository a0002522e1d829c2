/** Receive statistics of an RTP stream (mpf_rtp_stream.c), after appendices A.1
    and A.3 of RFC 3550: extended sequence numbers, restarts, source probation
    and the periodic report.  What the timestamp check and the jitter buffer
    answer is part of the packet. */
module RtpReceiver {

  const RTP_SEQ_MOD := 65536
  const MAX_DROPOUT := 3000
  const DISCARDED_RATIO := 30
  const PROBATION := 5
  const UINT32 := 0x1_0000_0000
  const LOST_RANGE := 0x1000000      // the cumulative loss is a signed field of 24 bits

  datatype Stat = Stat(received: nat, invalid: nat, discarded: nat, ignored: nat, restarts: nat)

  datatype History = History(cycles: nat, base: nat, max: nat, ssrcNew: nat, probation: nat)

  datatype Periodic = Periodic(receivedPrior: nat, expectedPrior: nat, discardedPrior: nat)

  datatype Receiver = Receiver(ssrc: nat, fraction: nat, lost: int, stat: Stat, history: History, periodic: Periodic)

  const FRESH_HISTORY := History(0, 0, 0, 0, 0)
  const FRESH_PERIODIC := Periodic(0, 0, 0)
  const CREATED := Receiver(0, 0, 0, Stat(0, 0, 0, 0, 0), FRESH_HISTORY, FRESH_PERIODIC)

  datatype Payload =
    | Codec(drift: bool, accepted: bool)   // timestamp drift seen; jitter buffer took it
    | NamedEvent(accepted: bool)
    | Other

  datatype Packet = BadHeader | Packet(ssrc: nat, number: nat, payload: Payload)

  predicate ValidPacket(p: Packet) {
    p.Packet? ==> p.number < RTP_SEQ_MOD
  }

  // ---------- the steps of receiving ----------

  function Restart(r: Receiver): Receiver {
    r.(stat := Stat(0, 0, 0, 0, (r.stat.restarts + 1) % 256), history := FRESH_HISTORY, periodic := FRESH_PERIODIC)
  }

  function StatInit(r: Receiver, ssrc: nat, number: nat): Receiver {
    r.(ssrc := ssrc, history := r.history.(base := number, max := number))
  }

  datatype SsrcResult = SsrcUpdate | SsrcProbation | SsrcRestart

  function SsrcCheck(r: Receiver, ssrc: nat): (Receiver, SsrcResult) {
    if r.ssrc == ssrc then
      (if r.history.probation != 0 then r.(history := r.history.(probation := 0, ssrcNew := 0)) else r, SsrcUpdate)
    else if r.history.ssrcNew == ssrc then
      var probation := (r.history.probation + 255) % 256;
      var r1 := r.(history := r.history.(probation := probation));
      if probation == 0 then (r1.(ssrc := ssrc), SsrcRestart) else (r1, SsrcProbation)
    else (r.(history := r.history.(ssrcNew := ssrc, probation := PROBATION)), SsrcProbation)
  }

  /** 16-bit distance from the highest number seen. */
  function SeqDelta(h: History, number: nat): (d: nat)
    ensures d < RTP_SEQ_MOD
  {
    (number - h.max) % RTP_SEQ_MOD
  }

  function SeqUpdate(h: History, number: nat): History {
    if SeqDelta(h, number) < MAX_DROPOUT then
      h.(max := number, cycles := if number < h.max then h.cycles + RTP_SEQ_MOD else h.cycles)
    else h
  }

  function CountPacket(r: Receiver, number: nat): Receiver {
    r.(history := SeqUpdate(r.history, number), stat := r.stat.(received := r.stat.received + 1))
  }

  function Discard(r: Receiver): Receiver {
    r.(stat := r.stat.(discarded := r.stat.discarded + 1))
  }

  /** Too many packets discarded since the last report: start over. */
  function ThresholdCheck(r: Receiver): Receiver {
    var received := r.stat.received - r.periodic.receivedPrior;
    var discarded := r.stat.discarded - r.periodic.discardedPrior;
    if discarded * 100 > received * DISCARDED_RATIO then Restart(r) else r
  }

  function UsePayload(r: Receiver, payload: Payload): Receiver {
    match payload
    case Codec(drift, accepted) =>
      if drift then Restart(r) else if accepted then r else ThresholdCheck(Discard(r))
    case NamedEvent(accepted) => if accepted then r else Discard(r)
    case Other => r.(stat := r.stat.(ignored := r.stat.ignored + 1))
  }

  function Invalid(r: Receiver): Receiver {
    r.(stat := r.stat.(invalid := r.stat.invalid + 1))
  }

  /** rtp_rx_packet_receive */
  function Receive(r: Receiver, p: Packet): Receiver {
    match p
    case BadHeader => Invalid(r)
    case Packet(ssrc, number, payload) =>
      var r0 := if r.stat.received == 0 then StatInit(r, ssrc, number) else r;
      var (r1, result) := SsrcCheck(r0, ssrc);
      match result
      case SsrcProbation => Invalid(r1)
      case SsrcRestart => UsePayload(CountPacket(StatInit(Restart(r1), ssrc, number), number), payload)
      case SsrcUpdate => UsePayload(CountPacket(r1, number), payload)
  }

  // ---------- the periodic report ----------

  /** The highest sequence number, extended by the cycles. */
  function Extended(h: History): nat {
    h.cycles + h.max
  }

  function Expected(r: Receiver): int {
    if r.stat.received > 0 then Extended(r.history) - r.history.base + 1 else 0
  }

  function ExpectedInterval(r: Receiver): int {
    Expected(r) - r.periodic.expectedPrior
  }

  function ReceivedInterval(r: Receiver): int {
    r.stat.received - r.periodic.receivedPrior
  }

  /** Packets lost since the last report, in 1/256 of those expected; the shift is one
      of 32 bits. */
  function Fraction(expected: int, received: int): int {
    var lost := if expected > received then expected - received else 0;
    if expected == 0 || lost == 0 then 0 else ((lost * 256) % UINT32) / expected
  }

  function SignedField(x: int): int {
    (x + LOST_RANGE / 2) % LOST_RANGE - LOST_RANGE / 2
  }

  function CumulativeLost(r: Receiver): int {
    if Expected(r) > r.stat.received then Expected(r) - r.stat.received else 0
  }

  ghost predicate ReportReady(r: Receiver) {
    Expected(r) >= 0 && Fraction(ExpectedInterval(r), ReceivedInterval(r)) >= 0
  }

  /** rtp_periodic_history_update */
  ghost function Report(r: Receiver): Receiver
    requires ReportReady(r)
  {
    r.(fraction := Fraction(ExpectedInterval(r), ReceivedInterval(r)),
       lost := SignedField(CumulativeLost(r)),
       periodic := Periodic(r.stat.received, Expected(r), r.stat.discarded))
  }

  // ---------- what always holds ----------

  /** Counting never goes back within an interval, and nothing is expected without
      something received. */
  ghost predicate Inv(r: Receiver) {
    && r.history.max < RTP_SEQ_MOD && r.history.base < RTP_SEQ_MOD && r.history.cycles % RTP_SEQ_MOD == 0
    && (r.stat.received > 0 ==> r.history.base <= Extended(r.history))
    && (r.stat.received == 0 ==> r.history.cycles == 0 && r.periodic.receivedPrior == 0 && r.periodic.expectedPrior == 0)
    && r.periodic.receivedPrior <= r.stat.received
    && r.periodic.expectedPrior <= Expected(r)
    && (ExpectedInterval(r) > 0 ==> ReceivedInterval(r) > 0)
    && r.periodic.discardedPrior <= r.stat.discarded
    && r.fraction < 256
  }

  /** A number less than half a dropout ahead moves the extended number by exactly the
      16-bit distance, also when it wraps; any other leaves it. */
  lemma ExtendedGrows(h: History, number: nat)
    requires h.max < RTP_SEQ_MOD && number < RTP_SEQ_MOD
    ensures Extended(SeqUpdate(h, number)) ==
      if SeqDelta(h, number) < MAX_DROPOUT then Extended(h) + SeqDelta(h, number) else Extended(h)
    ensures SeqUpdate(h, number).base == h.base && SeqUpdate(h, number).max < RTP_SEQ_MOD
    ensures SeqUpdate(h, number).probation == h.probation
    ensures h.cycles % RTP_SEQ_MOD == 0 ==> SeqUpdate(h, number).cycles % RTP_SEQ_MOD == 0
  {
  }

  lemma RestartInv(r: Receiver)
    requires r.fraction < 256
    ensures Inv(Restart(r))
  {
  }

  lemma CountInv(r: Receiver, number: nat)
    requires Inv(r) && number < RTP_SEQ_MOD && (r.stat.received == 0 ==> r.history.base == r.history.max == number)
    ensures Inv(CountPacket(r, number)) && CountPacket(r, number).stat.received > 0
  {
    ExtendedGrows(r.history, number);
  }

  lemma UseInv(r: Receiver, payload: Payload)
    requires Inv(r)
    ensures Inv(UsePayload(r, payload))
  {
  }

  lemma SsrcInv(r: Receiver, ssrc: nat)
    requires Inv(r)
    ensures Inv(SsrcCheck(r, ssrc).0) && SsrcCheck(r, ssrc).0.stat == r.stat
    ensures SsrcCheck(r, ssrc).0.history.base == r.history.base && SsrcCheck(r, ssrc).0.history.max == r.history.max
    ensures r.ssrc == ssrc ==> SsrcCheck(r, ssrc).1 == SsrcUpdate
  {
  }

  lemma ReceiveInv(r: Receiver, p: Packet)
    requires Inv(r) && ValidPacket(p)
    ensures Inv(Receive(r, p))
  {
    hide UsePayload, CountPacket, SsrcCheck;
    if p.Packet? {
      var r0 := if r.stat.received == 0 then StatInit(r, p.ssrc, p.number) else r;
      SsrcInv(r0, p.ssrc);
      var (r1, result) := SsrcCheck(r0, p.ssrc);
      match result
      case SsrcProbation =>
      case SsrcRestart =>
        RestartInv(r1);
        var r2 := StatInit(Restart(r1), p.ssrc, p.number);
        CountInv(r2, p.number);
        UseInv(CountPacket(r2, p.number), p.payload);
      case SsrcUpdate =>
        CountInv(r1, p.number);
        UseInv(CountPacket(r1, p.number), p.payload);
    }
  }

  /** An interval in which packets are expected has received some, so the fraction
      lost is below one and fits its byte. */
  lemma FractionFits(expected: int, received: int)
    requires expected >= 0 && (expected > 0 ==> received > 0) && received >= 0
    ensures 0 <= Fraction(expected, received) < 256
    ensures expected > received && expected - received < UINT32 / 256 ==>
      Fraction(expected, received) == (expected - received) * 256 / expected
  {
    if expected > received {
      var lost := expected - received;
      var x := (lost * 256) % UINT32;
      assert x <= lost * 256 < expected * 256;
      QuotientBelow(x, expected);
    }
  }

  lemma Products(q: int, d: int)
    requires d > 0
    ensures q >= 256 ==> q * d >= 256 * d
    ensures q < 0 ==> q * d <= -d
  {
    if q >= 256 {
      assert (q - 256) * d >= 0;
    } else if q < 0 {
      assert (-1 - q) * d >= 0;
    }
  }

  lemma QuotientBelow(x: int, d: int)
    requires d > 0 && 0 <= x < d * 256
    ensures 0 <= x / d < 256
  {
    Products(x / d, d);
  }

  lemma ReportInv(r: Receiver)
    requires Inv(r)
    ensures ReportReady(r) && Inv(Report(r))
  {
    FractionFits(ExpectedInterval(r), ReceivedInterval(r));
  }

  // ---------- runs ----------

  datatype Event = Arrive(p: Packet) | SendReport

  ghost predicate IsRun(r: Receiver, events: seq<Event>)
    decreases |events|
  {
    events == [] ||
    match events[0]
    case Arrive(p) => ValidPacket(p) && IsRun(Receive(r, p), events[1..])
    case SendReport => ReportReady(r) && IsRun(Report(r), events[1..])
  }

  ghost function After(r: Receiver, events: seq<Event>): Receiver
    requires IsRun(r, events)
    decreases |events|
  {
    if events == [] then r
    else
      match events[0]
      case Arrive(p) => After(Receive(r, p), events[1..])
      case SendReport => After(Report(r), events[1..])
  }

  lemma {:induction false} RunInv(r: Receiver, events: seq<Event>)
    requires Inv(r) && IsRun(r, events)
    ensures Inv(After(r, events))
    decreases |events|
  {
    hide Inv, Receive, Report;
    if events != [] {
      match events[0]
      case Arrive(p) =>
        ReceiveInv(r, p);
        RunInv(Receive(r, p), events[1..]);
      case SendReport =>
        ReportInv(r);
        RunInv(Report(r), events[1..]);
    }
  }

  /** In every run, through restarts and changes of source: a report can always be
      made, an interval in which packets are expected has received some, and the
      reported fraction is the quotient of appendix A.3 of RFC 3550 and fits a byte. */
  lemma EveryReportFits(events: seq<Event>)
    requires IsRun(CREATED, events)
    ensures var r := After(CREATED, events);
      && ReportReady(r) && Report(r).fraction < 256
      && (ExpectedInterval(r) > 0 ==> ReceivedInterval(r) > 0)
      && ExpectedInterval(r) >= 0 && ReceivedInterval(r) >= 0
      && (0 < ExpectedInterval(r) - ReceivedInterval(r) < UINT32 / 256 ==>
            Report(r).fraction == (ExpectedInterval(r) - ReceivedInterval(r)) * 256 / ExpectedInterval(r))
  {
    hide Inv, Report, After, IsRun, ReportReady, ExpectedInterval, ReceivedInterval;
    CreatedInv();
    RunInv(CREATED, events);
    ReportFits(After(CREATED, events));
  }

  lemma CreatedInv()
    ensures Inv(CREATED)
  {
  }

  lemma ReportFits(r: Receiver)
    requires Inv(r)
    ensures ReportReady(r) && Report(r).fraction < 256
    ensures ExpectedInterval(r) > 0 ==> ReceivedInterval(r) > 0
    ensures ExpectedInterval(r) >= 0 && ReceivedInterval(r) >= 0
    ensures 0 < ExpectedInterval(r) - ReceivedInterval(r) < UINT32 / 256 ==>
      Report(r).fraction == (ExpectedInterval(r) - ReceivedInterval(r)) * 256 / ExpectedInterval(r)
  {
    hide Fraction;
    ReportInv(r);
    FractionFits(ExpectedInterval(r), ReceivedInterval(r));
  }

  // ---------- extended numbers are the true numbers ----------

  /** The receiver sees a number modulo 65536.  While the true number is less than
      3000 ahead of the highest true number seen, and not more than 62536 behind it,
      the extended number is the highest true number; further ahead it is not. */
  lemma TracksTrueNumber(h: History, highest: int, truth: int)
    requires h.max < RTP_SEQ_MOD && (highest - Extended(h)) % RTP_SEQ_MOD == 0 && h.cycles % RTP_SEQ_MOD == 0
    requires MAX_DROPOUT - RTP_SEQ_MOD <= truth - highest < RTP_SEQ_MOD
    ensures var h1 := SeqUpdate(h, truth % RTP_SEQ_MOD);
      Extended(h1) - Extended(h) == (if truth > highest then truth - highest else 0) <==> truth - highest < 3000
  {
    var m := (highest - Extended(h)) / RTP_SEQ_MOD;
    var k := h.cycles / RTP_SEQ_MOD;
    assert highest == h.max + (k + m) * RTP_SEQ_MOD;
    var d := truth - highest;
    SeqDeltaIs(h.max, k + m, d);
    ExtendedGrows(h, truth % RTP_SEQ_MOD);
  }

  lemma SeqDeltaIs(max: nat, k: int, d: int)
    requires max < RTP_SEQ_MOD && -RTP_SEQ_MOD < d < RTP_SEQ_MOD
    ensures ((max + k * RTP_SEQ_MOD + d) % RTP_SEQ_MOD - max) % RTP_SEQ_MOD == if d >= 0 then d else d + RTP_SEQ_MOD
  {
  }

  // ---------- epochs ----------

  /** What happens to a receiver during an epoch: packets of its own source, with their
      true numbers and any payload, packets of other sources or without a valid header,
      and reports. */
  datatype EpochEvent = Own(truth: int, payload: Payload) | Foreign(p: Packet) | ReportDue

  function OwnPacket(ssrc: nat, truth: int, payload: Payload): Packet {
    Packet(ssrc, truth % RTP_SEQ_MOD, payload)
  }

  ghost predicate Happens(r: Receiver, ssrc: nat, e: EpochEvent) {
    match e
    case Own(_, _) => true
    case Foreign(p) => p.BadHeader? || p.ssrc != ssrc
    case ReportDue => ReportReady(r)
  }

  ghost function Next(r: Receiver, ssrc: nat, e: EpochEvent): Receiver
    requires Happens(r, ssrc, e)
  {
    match e
    case Own(truth, payload) => Receive(r, OwnPacket(ssrc, truth, payload))
    case Foreign(p) => Receive(r, p)
    case ReportDue => Report(r)
  }

  /** None of the events restarts the receiver. */
  ghost predicate Unbroken(r: Receiver, ssrc: nat, events: seq<EpochEvent>)
    decreases |events|
  {
    events == [] ||
    (Happens(r, ssrc, events[0]) && Next(r, ssrc, events[0]).stat.restarts == r.stat.restarts
     && Unbroken(Next(r, ssrc, events[0]), ssrc, events[1..]))
  }

  ghost function Fed(r: Receiver, ssrc: nat, events: seq<EpochEvent>): Receiver
    requires Unbroken(r, ssrc, events)
    decreases |events|
  {
    if events == [] then r else Fed(Next(r, ssrc, events[0]), ssrc, events[1..])
  }

  function Max(a: int, b: int): int {
    if a > b then a else b
  }

  /** The highest true number, and how many packets of the source there were. */
  function Highest(so: int, events: seq<EpochEvent>): int
    decreases |events|
  {
    if events == [] then so
    else Highest(if events[0].Own? then Max(so, events[0].truth) else so, events[1..])
  }

  function Count(events: seq<EpochEvent>): nat {
    if events == [] then 0 else (if events[0].Own? then 1 else 0) + Count(events[1..])
  }

  /** No jump of 3000 or more ahead of the highest true number so far, and none further
      back than the 16 bits can tell. */
  ghost predicate Smooth(so: int, events: seq<EpochEvent>)
    decreases |events|
  {
    events == [] ||
    if events[0].Own? then
      MAX_DROPOUT - RTP_SEQ_MOD <= events[0].truth - so < MAX_DROPOUT && Smooth(Max(so, events[0].truth), events[1..])
    else Smooth(so, events[1..])
  }

  /** The statistics after `count` packets of a source, the first and the highest of
      them with these true numbers. */
  ghost predicate Tracks(f: Receiver, ssrc: nat, first: int, highest: int, count: nat) {
    && f.stat.received == count > 0 && f.ssrc == ssrc
    && f.history.max < RTP_SEQ_MOD && f.history.cycles % RTP_SEQ_MOD == 0
    && f.history.base == first % RTP_SEQ_MOD
    && Extended(f.history) == highest - (first - first % RTP_SEQ_MOD)
  }

  /** Unless it restarts the receiver, a payload leaves source, numbers and count alone. */
  lemma PayloadKeeps(r: Receiver, payload: Payload)
    ensures var u := UsePayload(r, payload);
      u.stat.restarts == r.stat.restarts ==>
        u.ssrc == r.ssrc && u.history == r.history && u.stat.received == r.stat.received
  {
  }

  lemma TracksFirst(r: Receiver, ssrc: nat, truth: int, payload: Payload)
    requires Inv(r) && r.stat.received == 0
    requires Receive(r, OwnPacket(ssrc, truth, payload)).stat.restarts == r.stat.restarts
    ensures Tracks(Receive(r, OwnPacket(ssrc, truth, payload)), ssrc, truth, truth, 1)
  {
    hide UsePayload;
    var r1 := SsrcCheck(StatInit(r, ssrc, truth % RTP_SEQ_MOD), ssrc).0;
    PayloadKeeps(CountPacket(r1, truth % RTP_SEQ_MOD), payload);
  }

  lemma TracksOwn(f: Receiver, ssrc: nat, first: int, highest: int, count: nat, truth: int, payload: Payload)
    requires Tracks(f, ssrc, first, highest, count)
    requires MAX_DROPOUT - RTP_SEQ_MOD <= truth - highest < MAX_DROPOUT
    requires Receive(f, OwnPacket(ssrc, truth, payload)).stat.restarts == f.stat.restarts
    ensures Tracks(Receive(f, OwnPacket(ssrc, truth, payload)), ssrc, first, Max(highest, truth), count + 1)
  {
    hide SeqUpdate, UsePayload;
    var f1 := SsrcCheck(f, ssrc).0;
    assert Receive(f, OwnPacket(ssrc, truth, payload)) == UsePayload(CountPacket(f1, truth % RTP_SEQ_MOD), payload);
    PayloadKeeps(CountPacket(f1, truth % RTP_SEQ_MOD), payload);
    WholeCycles(first);
    TracksTrueNumber(f1.history, highest, truth);
    ExtendedGrows(f1.history, truth % RTP_SEQ_MOD);
  }

  lemma TracksForeign(f: Receiver, ssrc: nat, first: int, highest: int, count: nat, p: Packet)
    requires Tracks(f, ssrc, first, highest, count) && (p.BadHeader? || p.ssrc != ssrc)
    requires Receive(f, p).stat.restarts == f.stat.restarts
    ensures Tracks(Receive(f, p), ssrc, first, highest, count)
  {
    if p.Packet? && SsrcCheck(f, p.ssrc).1 == SsrcRestart {
      RestartShows(f, p);
    }
  }

  /** A second restart in the same packet would need 255 more to go unnoticed. */
  lemma RestartShows(f: Receiver, p: Packet)
    requires p.Packet? && f.stat.received > 0 && SsrcCheck(f, p.ssrc).1 == SsrcRestart
    ensures Receive(f, p).stat.restarts != f.stat.restarts
  {
  }

  lemma {:induction false} EpochGoesOn(f: Receiver, ssrc: nat, first: int, highest: int, count: nat, events: seq<EpochEvent>)
    requires Tracks(f, ssrc, first, highest, count) && Unbroken(f, ssrc, events) && Smooth(highest, events)
    ensures Tracks(Fed(f, ssrc, events), ssrc, first, Highest(highest, events), count + Count(events))
    decreases |events|
  {
    hide Tracks, Receive, ReportReady;
    if events != [] {
      var f1 := Next(f, ssrc, events[0]);
      match events[0] {
        case Own(truth, payload) =>
          TracksOwn(f, ssrc, first, highest, count, truth, payload);
          EpochGoesOn(f1, ssrc, first, Max(highest, truth), count + 1, events[1..]);
        case Foreign(p) =>
          TracksForeign(f, ssrc, first, highest, count, p);
          EpochGoesOn(f1, ssrc, first, highest, count, events[1..]);
        case ReportDue =>
          TracksReport(f, ssrc, first, highest, count);
          EpochGoesOn(f1, ssrc, first, highest, count, events[1..]);
      }
    }
  }

  lemma TracksReport(f: Receiver, ssrc: nat, first: int, highest: int, count: nat)
    requires Tracks(f, ssrc, first, highest, count) && ReportReady(f)
    ensures Tracks(Report(f), ssrc, first, highest, count)
  {
  }

  /** In an epoch without restart, whatever the wraparounds, the payloads, the packets of
      others and the reports in between: every packet of the source is counted, the
      extended number follows the highest true number, and what is expected is the span
      of true numbers since the first packet. */
  lemma EpochTracksTruth(r: Receiver, ssrc: nat, first: int, payload: Payload, events: seq<EpochEvent>)
    requires Inv(r) && r.stat.received == 0 && Smooth(first, events)
    requires Unbroken(r, ssrc, [Own(first, payload)] + events)
    ensures var f := Fed(r, ssrc, [Own(first, payload)] + events);
      var highest, count := Highest(first, events), 1 + Count(events);
      && f.stat.received == count
      && (highest - Extended(f.history)) % RTP_SEQ_MOD == 0
      && Expected(f) == highest - first + 1
      && CumulativeLost(f) == (var lost := highest - first + 1 - count; if lost > 0 then lost else 0)
  {
    hide Highest, Receive, Smooth, Inv;
    var all := [Own(first, payload)] + events;
    assert all[0] == Own(first, payload) && all[1..] == events;
    var f1 := Receive(r, OwnPacket(ssrc, first, payload));
    assert Next(r, ssrc, all[0]) == f1;
    TracksFirst(r, ssrc, first, payload);
    EpochGoesOn(f1, ssrc, first, first, 1, events);
    WholeCycles(first);
  }

  lemma WholeCycles(first: int)
    ensures (first - first % RTP_SEQ_MOD) % RTP_SEQ_MOD == 0
  {
  }

  // ---------- the code ----------

  class ReceiverStats {
    var ssrc: nat
    var fraction: nat
    var lost: int
    var stat: Stat
    var history: History
    var periodic: Periodic

    ghost function View(): Receiver
      reads this
    {
      Receiver(ssrc, fraction, lost, stat, history, periodic)
    }

    constructor ()
      ensures View() == CREATED && Inv(View())
    {
      ssrc, fraction, lost := 0, 0, 0;
      stat, history, periodic := Stat(0, 0, 0, 0, 0), FRESH_HISTORY, FRESH_PERIODIC;
    }

    method StartOver()
      modifies this`stat, this`history, this`periodic
      ensures View() == Restart(old(View()))
    {
      var restarts := (stat.restarts + 1) % 256;
      stat, history, periodic := Stat(0, 0, 0, 0, 0), FRESH_HISTORY, FRESH_PERIODIC;
      stat := stat.(restarts := restarts);
    }

    method Initialize(source: nat, number: nat)
      modifies this`ssrc, this`history
      ensures View() == StatInit(old(View()), source, number)
    {
      ssrc := source;
      history := history.(base := number, max := number);
    }

    method UpdateSource(source: nat) returns (result: SsrcResult)
      modifies this`ssrc, this`history
      ensures (View(), result) == SsrcCheck(old(View()), source)
    {
      if ssrc == source {
        if history.probation != 0 {
          history := history.(probation := 0, ssrcNew := 0);
        }
        return SsrcUpdate;
      }
      if history.ssrcNew == source {
        history := history.(probation := (history.probation + 255) % 256);
        if history.probation == 0 {
          ssrc := source;
          return SsrcRestart;
        }
        return SsrcProbation;
      }
      history := history.(ssrcNew := source, probation := PROBATION);
      result := SsrcProbation;
    }

    method UpdateSequence(number: nat)
      modifies this`history, this`stat
      ensures View() == CountPacket(old(View()), number)
    {
      var delta := (number - history.max) % RTP_SEQ_MOD;
      if delta < MAX_DROPOUT {
        if number < history.max {
          history := history.(cycles := history.cycles + RTP_SEQ_MOD);
        }
        history := history.(max := number);
      }
      stat := stat.(received := stat.received + 1);
    }

    method Handle(payload: Payload)
      modifies this`stat, this`history, this`periodic
      ensures View() == UsePayload(old(View()), payload)
    {
      hide Restart;
      match payload
      case Codec(drift, accepted) =>
        if drift {
          StartOver();
          return;
        }
        if !accepted {
          stat := stat.(discarded := stat.discarded + 1);
          var received := stat.received - periodic.receivedPrior;
          var discarded := stat.discarded - periodic.discardedPrior;
          if discarded * 100 > received * DISCARDED_RATIO {
            StartOver();
          }
        }
      case NamedEvent(accepted) =>
        if !accepted {
          stat := stat.(discarded := stat.discarded + 1);
        }
      case Other => stat := stat.(ignored := stat.ignored + 1);
    }

    method PacketReceive(p: Packet)
      modifies this
      ensures View() == Receive(old(View()), p)
    {
      hide UsePayload, CountPacket, SsrcCheck, StatInit, Restart;
      match p
      case BadHeader => stat := stat.(invalid := stat.invalid + 1);
      case Packet(source, number, payload) =>
        if stat.received == 0 {
          Initialize(source, number);
        }
        var result := UpdateSource(source);
        if result == SsrcProbation {
          stat := stat.(invalid := stat.invalid + 1);
          return;
        }
        if result == SsrcRestart {
          StartOver();
          Initialize(source, number);
        }
        UpdateSequence(number);
        Handle(payload);
    }

    method PeriodicUpdate()
      requires Inv(View())
      modifies this`fraction, this`lost, this`periodic
      ensures ReportReady(old(View())) && View() == Report(old(View()))
    {
      ReportInv(View());
      var expected := if stat.received > 0 then history.cycles + history.max - history.base + 1 else 0;
      var expectedInterval := expected - periodic.expectedPrior;
      var receivedInterval := stat.received - periodic.receivedPrior;
      var lostInterval := if expectedInterval > receivedInterval then expectedInterval - receivedInterval else 0;
      if expectedInterval == 0 || lostInterval == 0 {
        fraction := 0;
      } else {
        fraction := ((lostInterval * 256) % UINT32) / expectedInterval;
      }
      lost := SignedField(if expected > stat.received then expected - stat.received else 0);
      periodic := Periodic(stat.received, expected, stat.discarded);
    }
  }
}
