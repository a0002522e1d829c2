/** Restarting the jitter buffer: it forgets its clock and keeps its frames.
    Exactly when nothing but what is accepted after the restart is played. */
module JitterRestart {
  import opened JitterBuffer
  import opened JitterRefinement
  import opened JitterRuns

  /** The next read shows what was accepted for it, or nothing at underflow. */
  ghost predicate Fresh(w: World)
    requires Valid(w.buffer)
  {
    Shown(w.buffer) == if w.buffer.clock.writeTs > w.buffer.clock.readTs
                       then FrameAt(w.history, ReadFrame(w.buffer)) else EMPTY
  }

  lemma FreshIfEmpty(b: Buffer, ops: seq<Op>)
    requires Valid(b) && (forall i :: 0 <= i < |b.frames| ==> b.frames[i] == EMPTY)
    requires Reachable(World(Restart(b), []), ops)
    ensures Fresh(After(World(Restart(b), []), ops))
  {
    EveryReadShowsWhatWasAccepted(World(Restart(b), []), ops);
  }

  // ---------- a frame left in the ring ----------

  const ANY_EVENT := NamedEvent(1, false, 0)

  /** Nothing is ahead of the read position, and slot i still holds something. */
  ghost predicate Leftover(b: Buffer, i: nat) {
    && Valid(b) && b.config.frameSize > 0 && b.clock.sync && b.clock.writeTs <= b.clock.readTs
    && i < |b.frames| && b.frames[i] != EMPTY
  }

  lemma OneEntry(e: Entry, n: int)
    ensures FrameAt([e], n) == if e.n == n then Apply(e, EMPTY) else EMPTY
  {
    FrameAtAppend([], e, n);
    assert [] + [e] == [e];
  }

  /** An event placed at frame n, not before the read position, is stored there. */
  lemma EventStored(b: Buffer, ts: int)
    requires Valid(b)
    requires var w := Position(b.config, Synced(b.config, b.clock, ts), ts);
      w >= b.clock.readTs && Ahead(b.config, b.clock.readTs, w) < |b.frames|
    ensures var w := Position(b.config, Synced(b.config, b.clock, ts), ts);
      var e := EventAt(w / b.config.frameTs, ANY_EVENT, true); var o := WriteEvent(b, ANY_EVENT, ts, true);
      && o.entries == [e] && o.buffer.frames == Put(b.frames, e) && o.buffer.config == b.config
      && o.buffer.clock.readTs == b.clock.readTs && o.buffer.clock.writeTs >= w + b.config.frameTs
  {
    hide Position, Put;
  }

  /** The other media kind goes into the slot: what it held before is shown with it. */
  lemma EventJoinsAudio(b: Buffer, ts: int)
    requires Valid(b) && Position(b.config, Synced(b.config, b.clock, ts), ts) == b.clock.readTs
    requires b.frames[ReadSlot(b)].audio.Some?
    ensures var r := Step(World(b, []), EventPacket(ANY_EVENT, ts, true)); Valid(r.buffer) && !Fresh(r)
  {
    hide Position, WriteEvent;
    StepValid(World(b, []), EventPacket(ANY_EVENT, ts, true));
    var n := ReadFrame(b);
    EventStored(b, ts);
    OneEntry(EventAt(n, ANY_EVENT, true), n);
  }

  function OneFrame(b: Buffer): seq<byte> {
    seq(b.config.frameSize, i => 0)
  }

  lemma AudioStored(b: Buffer, ts: int)
    requires Valid(b) && b.config.frameSize > 0
    requires Position(b.config, Synced(b.config, b.clock, ts), ts) == b.clock.readTs
    ensures WithinReach(b, ts, false)
    ensures var e := AudioAt(ReadFrame(b), OneFrame(b)); var o := Write(b, OneFrame(b), ts, false);
      && o.entries == [e] && o.buffer.frames == Put(b.frames, e) && o.buffer.config == b.config
      && o.buffer.clock.readTs == b.clock.readTs && o.buffer.clock.writeTs > b.clock.readTs
  {
    hide Position, Put;
    var c := Synced(b.config, b.clock, ts);
    assert Place(b.config, b.clock, ts, false) == At(c, c.readTs);
    FramesAhead(c.readTs, c.readTs, b.config.frameTs);
    var data, e := OneFrame(b), AudioAt(ReadFrame(b), OneFrame(b));
    assert data[..b.config.frameSize] == data && data[b.config.frameSize..] == [];
    var rest := StoreAudio(b.config, Put(b.frames, e), c.readTs + b.config.frameTs, [], |b.frames| - 1);
    assert rest == Stored(Put(b.frames, e), c.readTs + b.config.frameTs, []);
    assert [e] + [] == [e];
  }

  lemma AudioJoinsEvent(b: Buffer, ts: int)
    requires Valid(b) && b.config.frameSize > 0
    requires Position(b.config, Synced(b.config, b.clock, ts), ts) == b.clock.readTs
    requires b.frames[ReadSlot(b)].audio.None? && b.frames[ReadSlot(b)] != EMPTY
    ensures WithinReach(b, ts, false)
    ensures var r := Step(World(b, []), AudioPacket(OneFrame(b), ts, false)); Valid(r.buffer) && !Fresh(r)
  {
    hide Position, Write, OneFrame, WithinReach;
    StepValid(World(b, []), AudioPacket(OneFrame(b), ts, false));
    var n := ReadFrame(b);
    AudioStored(b, ts);
    OneEntry(AudioAt(n, OneFrame(b)), n);
  }

  lemma OneStep(w: World, op: Op)
    requires Valid(w.buffer) && (op.AudioPacket? ==> WithinReach(w.buffer, op.ts, op.marker))
    ensures Reachable(w, [op]) && After(w, [op]) == Step(w, op) && Valid(Step(w, op).buffer)
  {
    hide Step, WithinReach;
    StepValid(w, op);
    assert [op][1..] == [];
    assert After(Step(w, op), []) == Step(w, op);
  }

  lemma MoreSteps(w: World, op: Op, ops: seq<Op>)
    requires Valid(w.buffer) && (op.AudioPacket? ==> WithinReach(w.buffer, op.ts, op.marker))
    requires Valid(Step(w, op).buffer) && Reachable(Step(w, op), ops)
    ensures Reachable(w, [op] + ops) && After(w, [op] + ops) == After(Step(w, op), ops)
  {
    hide Step, WithinReach;
    assert ([op] + ops)[1..] == ops;
  }

  /** Whatever the slot at the read position holds, a packet placed there shows it. */
  lemma JoinHere(b: Buffer, ts: int) returns (op: Op)
    requires Valid(b) && b.config.frameSize > 0 && b.frames[ReadSlot(b)] != EMPTY
    requires Position(b.config, Synced(b.config, b.clock, ts), ts) == b.clock.readTs
    ensures Reachable(World(b, []), [op]) && !Fresh(After(World(b, []), [op]))
  {
    hide Position, Step, Fresh, WithinReach;
    if b.frames[ReadSlot(b)].audio.Some? {
      op := EventPacket(ANY_EVENT, ts, true);
      EventJoinsAudio(b, ts);
    } else {
      op := AudioPacket(OneFrame(b), ts, false);
      AudioJoinsEvent(b, ts);
    }
    OneStep(World(b, []), op);
  }

  // ---------- where the first packet goes ----------

  lemma FirstPosition(b: Buffer, ts: int)
    requires Valid(b) && b.clock.sync
    ensures var d := b.clock.delay / b.config.frameTs;
      && d >= 0 && Position(b.config, Synced(b.config, b.clock, ts), ts) == b.clock.readTs + d * b.config.frameTs
      && Ahead(b.config, b.clock.readTs, b.clock.readTs + d * b.config.frameTs) == d
      && (b.clock.readTs + d * b.config.frameTs) / b.config.frameTs == ReadFrame(b) + d
  {
    var u, d, r := b.config.frameTs, b.clock.delay / b.config.frameTs, b.clock.readTs;
    var q := r / u;
    assert r == q * u && b.clock.delay == d * u + b.clock.delay % u;
    assert (q + d) * u == q * u + d * u;
    QuotientOf(r + b.clock.delay, q + d, b.clock.delay % u, u);
    QuotientOf(r + d * u, q + d, 0, u);
    QuotientOf(d * u, d, 0, u);
  }

  lemma SecondPosition(c: Clock, cfg: Config)
    requires cfg.frameTs > 0 && c.readTs % cfg.frameTs == 0 && !c.sync
    ensures var ts := c.readTs + c.offset - c.delay; Position(cfg, Synced(cfg, c, ts), ts) == c.readTs
  {
  }

  /** The first packet lands a little ahead: the slot is shown as it was left. */
  lemma ShownFromBehind(b: Buffer) returns (op: Op)
    requires Leftover(b, if Valid(b) then ReadSlot(b) else 0) && Valid(b)
    requires 0 < b.clock.delay / b.config.frameTs < |b.frames|
    ensures Reachable(World(b, []), [op]) && !Fresh(After(World(b, []), [op]))
  {
    hide Position, WriteEvent, Ahead;
    var d, n := b.clock.delay / b.config.frameTs, ReadFrame(b);
    op := EventPacket(ANY_EVENT, 0, true);
    FirstPosition(b, 0);
    assert d * b.config.frameTs >= 0;
    EventStored(b, 0);
    OneStep(World(b, []), op);
    OneEntry(EventAt(n + d, ANY_EVENT, true), n);
    RingSlotsDiffer(n, n + d, |b.frames|);
  }

  /** The first packet is too early and only sets the clock. */
  lemma TooEarlySyncs(b: Buffer)
    requires Valid(b) && b.clock.sync && b.clock.delay / b.config.frameTs >= |b.frames|
    ensures var r := Step(World(b, []), EventPacket(ANY_EVENT, 0, true));
      && Valid(r.buffer) && r.history == [] && r.buffer.frames == b.frames && r.buffer.config == b.config
      && !r.buffer.clock.sync && r.buffer.clock.readTs == b.clock.readTs
  {
    hide Position, Ahead;
    StepValid(World(b, []), EventPacket(ANY_EVENT, 0, true));
    FirstPosition(b, 0);
    assert b.clock.delay / b.config.frameTs * b.config.frameTs >= 0;
  }

  lemma ShownAtOnce(b: Buffer) returns (ops: seq<Op>)
    requires Valid(b) && Leftover(b, ReadSlot(b))
    ensures Reachable(World(b, []), ops) && !Fresh(After(World(b, []), ops))
  {
    hide Position, Step, Fresh;
    var d := b.clock.delay / b.config.frameTs;
    FirstPosition(b, 0);
    if d == 0 {
      var op := JoinHere(b, 0);
      ops := [op];
    } else if d < |b.frames| {
      var op := ShownFromBehind(b);
      ops := [op];
    } else {
      var first := EventPacket(ANY_EVENT, 0, true);
      TooEarlySyncs(b);
      var r := Step(World(b, []), first).buffer;
      SecondPosition(r.clock, r.config);
      var op := JoinHere(r, r.clock.readTs + r.clock.offset - r.clock.delay);
      MoreSteps(World(b, []), first, [op]);
      ops := [first] + [op];
    }
  }

  lemma ReadKeepsLeftover(b: Buffer, i: nat)
    requires Leftover(b, i) && i != ReadSlot(b)
    ensures Valid(Read(b)) && Leftover(Read(b), i) && ReadFrame(Read(b)) == ReadFrame(b) + 1 && |Read(b).frames| == |b.frames|
  {
    StepValid(World(b, []), Fetch);
    NextFrame(b.clock.readTs, b.config.frameTs);
  }

  /** Read up to the slot, and let a packet show it. */
  lemma {:induction false} LeftoverIsPlayed(b: Buffer, i: nat, k: nat) returns (ops: seq<Op>)
    requires Valid(b) && Leftover(b, i) && k < |b.frames| && (ReadFrame(b) + k) % |b.frames| == i
    ensures Reachable(World(b, []), ops) && !Fresh(After(World(b, []), ops))
    decreases k
  {
    hide Step, Fresh, Leftover;
    if k == 0 {
      assert i == ReadSlot(b);
      ops := ShownAtOnce(b);
    } else {
      RingSlotsDiffer(ReadFrame(b), ReadFrame(b) + k, |b.frames|);
      ReadKeepsLeftover(b, i);
      FetchIsRead(b);
      ops := LeftoverIsPlayed(Read(b), i, k - 1);
      MoreSteps(World(b, []), Fetch, ops);
      ops := [Fetch] + ops;
    }
  }

  lemma FetchIsRead(b: Buffer)
    requires Valid(b)
    ensures Step(World(b, []), Fetch) == World(Read(b), [])
  {
  }

  /** After a restart every read of every run shows only what was accepted since, if and
      only if every slot is empty at the restart. */
  lemma FreshAfterRestartIff(b: Buffer)
    requires Valid(b) && b.config.frameSize > 0
    ensures Valid(Restart(b))
    ensures (forall ops: seq<Op> | Reachable(World(Restart(b), []), ops) :: Fresh(After(World(Restart(b), []), ops)))
       <==> (forall i :: 0 <= i < |b.frames| ==> b.frames[i] == EMPTY)
  {
    hide Fresh, Reachable, Restart;
    RestartIsValid(b);
    if forall i :: 0 <= i < |b.frames| ==> b.frames[i] == EMPTY {
      forall ops: seq<Op> | Reachable(World(Restart(b), []), ops)
        ensures Fresh(After(World(Restart(b), []), ops))
      {
        FreshIfEmpty(b, ops);
      }
    } else {
      var i :| 0 <= i < |b.frames| && b.frames[i] != EMPTY;
      var ops := PlayedAfterRestart(b, i);
    }
  }

  lemma RestartIsValid(b: Buffer)
    requires Valid(b)
    ensures Valid(Restart(b)) && |Restart(b).frames| == |b.frames|
  {
  }

  lemma PlayedAfterRestart(b: Buffer, i: nat) returns (ops: seq<Op>)
    requires Valid(b) && b.config.frameSize > 0 && i < |b.frames| && b.frames[i] != EMPTY && Valid(Restart(b))
    ensures Reachable(World(Restart(b), []), ops) && !Fresh(After(World(Restart(b), []), ops))
  {
    hide Fresh, Reachable, Restart, Leftover;
    RestartIsValid(b);
    RestartLeaves(b, i);
    var r := ReadFrame(Restart(b));
    WindowSlot(i, r, |b.frames|);
    SmallRemainder(i, |b.frames|);
    ops := LeftoverIsPlayed(Restart(b), i, (i - r) % |b.frames|);
  }

  lemma SmallRemainder(i: nat, n: nat)
    requires i < n
    ensures i % n == i
  {
  }

  lemma RestartLeaves(b: Buffer, i: nat)
    requires Valid(b) && b.config.frameSize > 0 && i < |b.frames| && b.frames[i] != EMPTY
    ensures Leftover(Restart(b), i)
  {
  }

  // ---------- an example ----------

  /** One byte per frame, no delay, no adaptation, nothing read yet. */
  ghost predicate Plain(b: Buffer) {
    && Valid(b) && b.config == PlainConfig(0, b.config.maxDelay) && b.clock.sync
    && b.clock.delay == 0 && b.clock.readTs == b.clock.writeTs == 0
  }

  lemma CreatedPlain()
    ensures var b := Create(0, 20, false, false, 1, 1); Plain(b) && b.frames[0] == EMPTY
  {
    CreatedValid(0, 20, false, false, 1, 1);
  }

  lemma FirstSlot(n: nat)
    requires n > 0
    ensures 0 % n == 0
  {
  }

  lemma ByteIsStored(b: Buffer, v: byte, ts: int)
    requires Plain(b)
    ensures WithinReach(b, ts, false)
    ensures Write(b, [v], ts, false) ==
      Outcome(b.(frames := Put(b.frames, AudioAt(0, [v])), clock := b.clock.(sync := false, offset := ts, writeTs := 1)),
              Ok, [AudioAt(0, [v])])
  {
    hide Write, Put;
    SyncFirst(b, [v], ts);
    var s := b.(clock := Synced(b.config, b.clock, ts));
    PlainWrite(s, v, ts);
    PlainReach(b, ts);
  }

  lemma PlainReach(b: Buffer, ts: int)
    requires Plain(b)
    ensures WithinReach(b, ts, false)
  {
    hide Rescue;
  }

  lemma RestartOfByte(b: Buffer, v: byte, ts: int)
    requires Plain(b) && b.frames[0] == EMPTY
    ensures var r := Restart(Write(b, [v], ts, false).buffer); Plain(r) && r.frames[0] == Frame(Some([v]), None, NoMarker)
  {
    hide Write;
    ByteIsStored(b, v, ts);
    FirstSlot(|b.frames|);
  }

  lemma EventJoinsByte(b: Buffer, ts: int)
    requires Plain(b)
    ensures var o := WriteEvent(b, ANY_EVENT, ts, true);
      && Valid(o.buffer) && o.entries == [EventAt(0, ANY_EVENT, true)]
      && Shown(o.buffer) == b.frames[0].(event := Some(ANY_EVENT), marker := StartOfEvent)
  {
    hide WriteEvent;
    WriteEventValid(b, ANY_EVENT, ts, true);
    FirstSlot(|b.frames|);
    EventStored(b, ts);
  }

  /** From creation on: a byte is received, the buffer restarts, and a named event is
      received.  The byte is played with the event. */
  lemma OldAudioIsPlayed(v: byte, ts: int, later: int) returns (b: Buffer, ops: seq<Op>)
    ensures b == Create(0, 20, false, false, 1, 1) && Valid(b)
    ensures |ops| == 3 && ops[0] == AudioPacket([v], ts, false) && ops[1] == Reset && ops[2] == EventPacket(ANY_EVENT, later, true)
    ensures Reachable(World(b, []), ops)
    ensures var r := After(World(b, []), ops);
      && r.history == [AudioAt(0, [v])] + [EventAt(0, ANY_EVENT, true)]
      && Shown(r.buffer) == Frame(Some([v]), Some(ANY_EVENT), StartOfEvent)
  {
    hide Write, WriteEvent, Create, Restart, Reachable, After, Shown, WithinReach, Plain;
    b := Create(0, 20, false, false, 1, 1);
    CreatedPlain();
    PlainIsValid(b);
    ByteIsStored(b, v, ts);
    RestartOfByte(b, v, ts);
    var w, audio, event := World(b, []), AudioPacket([v], ts, false), EventPacket(ANY_EVENT, later, true);
    OneStep(w, audio);
    var w1 := Step(w, audio);
    OneStep(w1, Reset);
    var w2 := Step(w1, Reset);
    EventJoinsByte(w2.buffer, later);
    OneStep(w2, event);
    MoreSteps(w1, Reset, [event]);
    MoreSteps(w, audio, [Reset] + [event]);
    ops := [audio] + ([Reset] + [event]);
  }

  lemma PlainIsValid(b: Buffer)
    requires Plain(b)
    ensures Valid(b)
  {
  }
}
