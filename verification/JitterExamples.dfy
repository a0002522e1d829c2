/** Runs of the jitter buffer, from creation, that do not keep what one would expect. */
module JitterExamples {
  import opened JitterBuffer
  import opened JitterRefinement
  import opened JitterRuns
  import opened JitterRestart

  /** A ring of two that has received its first packet, and nothing was read. */
  ghost predicate Started(b: Buffer, ts: int) {
    && Valid(b) && b.config == PlainConfig(0, b.config.maxDelay) && |b.frames| == 2
    && !b.clock.sync && b.clock.offset == ts && b.clock.delay == 0 && b.clock.readTs == 0 && b.clock.writeTs > 0
  }

  lemma ShownOfTwo(b: Buffer, frames: seq<Frame>, e: Entry, ts: int)
    requires Started(b, ts) && |frames| == 2 && b.frames == Put(frames, e) && e.AudioAt? && e.n % 2 == 0
    ensures Shown(b).audio == Some(e.data) && ReadFrame(b) == 0
  {
  }

  lemma FirstByte(b: Buffer, v: byte, ts: int)
    requires Plain(b) && |b.frames| == 2 && Refines(b, [])
    ensures var r := Write(b, [v], ts, false).buffer;
      Started(r, ts) && Refines(r, [AudioAt(0, [v])]) && Shown(r).audio == Some([v]) && ReadFrame(r) == 0
  {
    hide Write, Refines, Shown, Put, ReadFrame;
    var e := AudioAt(0, [v]);
    ByteIsStored(b, v, ts);
    WriteValid(b, [v], ts, false);
    WriteRefines(b, [], [v], ts, false);
    assert [] + [e] == [e];
    ShownOfTwo(Write(b, [v], ts, false).buffer, b.frames, e, ts);
  }

  lemma FarByte(b: Buffer, u: byte, ts: int)
    requires Started(b, ts)
    ensures var r := Write(b, [u], ts + 4, false).buffer;
      Started(r, ts) && Shown(r).audio == Some([u]) && ReadFrame(r) == 0
  {
    hide Write, Shown, Put, ReadFrame;
    PlainWrite(b, u, ts + 4);
    WriteValid(b, [u], ts + 4, false);
    ShownOfTwo(Write(b, [u], ts + 4, false).buffer, b.frames, AudioAt(4, [u]), ts);
  }

  lemma CreatedShowsNothing()
    ensures var b := Create(0, 20, false, false, 1, 1); |b.frames| == 2 && Refines(b, [])
  {
    CreatedValid(0, 20, false, false, 1, 1);
  }

  /** A byte is received, then one four frames ahead in a ring of two: it replaces the
      byte that is to be read next. */
  lemma FarPacketReplacesUnread(v: byte, u: byte, ts: int) returns (b: Buffer, ops: seq<Op>)
    ensures b == Create(0, 20, false, false, 1, 1) && Valid(b) && |b.frames| == 2
    ensures |ops| == 2 && ops[0] == AudioPacket([v], ts, false) && ops[1] == AudioPacket([u], ts + 4, false)
    ensures var near, far := After(World(b, []), ops[..1]).buffer, After(World(b, []), ops).buffer;
      && Refines(near, [AudioAt(0, [v])]) && Valid(far) && ReadFrame(far) == ReadFrame(near)
      && Shown(near).audio == Some([v]) && Shown(far).audio == Some([u])
  {
    hide Write, Shows, Bounded, Create, Shown, Plain, ReadFrame, After;
    b := Create(0, 20, false, false, 1, 1);
    CreatedPlain();
    CreatedShowsNothing();
    PlainIsValid(b);
    FirstByte(b, v, ts);
    var near := Write(b, [v], ts, false).buffer;
    FarByte(near, u, ts);
    var op, op1 := AudioPacket([v], ts, false), AudioPacket([u], ts + 4, false);
    ops := [op, op1];
    TwoSteps(World(b, []), op, op1);
    assert ops[..1] == [op];
  }

  lemma TwoSteps(w: World, op: Op, op1: Op)
    requires Valid(w.buffer) && Valid(Step(w, op).buffer)
    ensures After(w, [op]) == Step(w, op) && After(w, [op, op1]) == Step(Step(w, op), op1)
  {
    hide Step;
    var w1 := Step(w, op);
    StepValid(w1, op1);
    assert [op][1..] == [] && [op1][1..] == [];
    assert After(w1, [op1]) == After(Step(w1, op1), []);
    assert [op, op1][1..] == [op1];
  }

  /** 15 ms of initial delay are rounded up to 20, beyond a maximum of 15. */
  lemma RoundedDelayExceedsMaximum(adaptive: bool, skew: bool, frameTs: nat, frameSize: nat)
    requires frameTs > 0
    ensures var b := Create(15, 15, adaptive, skew, frameTs, frameSize);
      Valid(b) && b.clock.delay > b.config.maxDelay
  {
    CreatedValid(15, 15, adaptive, skew, frameTs, frameSize);
  }
}
