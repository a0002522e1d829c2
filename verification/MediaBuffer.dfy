/** The media buffer (mpf_buffer.c): a queue of audio and event chunks read in
    frames of any size.  It behaves as a stream of bytes. */
module MediaBuffer {

  datatype Option<T> = None | Some(value: T)

  type byte = x: int | 0 <= x < 256

  datatype FrameType = Audio | Event(kind: nat)

  datatype Chunk = Chunk(kind: FrameType, data: seq<byte>)

  datatype Buffer = Buffer(chunks: seq<Chunk>, current: Option<Chunk>, remaining: nat, size: nat)

  const EMPTY := Buffer([], None, 0, 0)

  ghost predicate Valid(b: Buffer) {
    b.current.Some? ==> b.remaining <= |b.current.value.data|
  }

  // ---------- the stream of bytes it stands for ----------

  function Bytes(chunks: seq<Chunk>): seq<byte> {
    if chunks == [] then [] else chunks[0].data + Bytes(chunks[1..])
  }

  /** What the current chunk still has to give. */
  function Rest(b: Buffer): seq<byte> {
    if b.current.None? || b.remaining > |b.current.value.data| then []
    else b.current.value.data[|b.current.value.data| - b.remaining..]
  }

  function Unread(b: Buffer): seq<byte> {
    Rest(b) + Bytes(b.chunks)
  }

  lemma {:induction false} BytesConcat(a: seq<Chunk>, b: seq<Chunk>)
    ensures Bytes(a + b) == Bytes(a) + Bytes(b)
  {
    if a == [] {
      assert a + b == b;
    } else {
      assert (a + b)[1..] == a[1..] + b;
      BytesConcat(a[1..], b);
      assert a[0].data + (Bytes(a[1..]) + Bytes(b)) == a[0].data + Bytes(a[1..]) + Bytes(b);
    }
  }

  // ---------- operations ----------

  function WriteAudio(b: Buffer, data: seq<byte>): Buffer {
    b.(chunks := b.chunks + [Chunk(Audio, data)], size := b.size + |data|)
  }

  function WriteEvent(b: Buffer, kind: nat): Buffer {
    b.(chunks := b.chunks + [Chunk(Event(kind), [])])
  }

  /** Only the queue is emptied. */
  function Restart(b: Buffer): Buffer {
    b.(chunks := [])
  }

  /** Make a chunk current, if none is and there is one. */
  function Load(b: Buffer): Buffer {
    if b.current.None? && b.chunks != [] then
      b.(current := Some(b.chunks[0]), chunks := b.chunks[1..], remaining := |b.chunks[0].data|)
    else b
  }

  datatype Piece = Piece(buffer: Buffer, data: seq<byte>, kinds: set<FrameType>)

  function Minus(a: nat, b: nat): nat {
    if a >= b then a - b else 0
  }

  /** Part of the current chunk is copied. */
  function Partly(b: Buffer, need: nat): Buffer {
    b.(remaining := Minus(b.remaining, need), size := Minus(b.size, need))
  }

  /** All that is left of the current chunk is copied. */
  function Finished(b: Buffer): Buffer {
    b.(current := None, remaining := 0, size := Minus(b.size, b.remaining))
  }

  /** The copy loop of mpf_buffer_frame_read, for `need` more bytes. */
  ghost function Copy(b: Buffer, need: nat): Piece
    requires Valid(b)
    decreases |b.chunks| + if b.current.Some? then 1 else 0
  {
    var b1 := Load(b);
    if b1.current.None? then Piece(b1, [], {})
    else if need < b1.remaining then Piece(Partly(b1, need), Rest(b1)[..need], {b1.current.value.kind})
    else if need == b1.remaining then Piece(Finished(b1), Rest(b1), {b1.current.value.kind})
    else
      var p := Copy(Finished(b1), need - b1.remaining);
      Piece(p.buffer, Rest(b1) + p.data, {b1.current.value.kind} + p.kinds)
  }

  lemma CopyOnce(b: Buffer, need: nat)
    requires Valid(b)
    ensures var b1 := Load(b);
      Copy(b, need) ==
        if b1.current.None? then Piece(b1, [], {})
        else if need < b1.remaining then Piece(Partly(b1, need), Rest(b1)[..need], {b1.current.value.kind})
        else if need == b1.remaining then Piece(Finished(b1), Rest(b1), {b1.current.value.kind})
        else
          var p := Copy(Finished(b1), need - b1.remaining);
          Piece(p.buffer, Rest(b1) + p.data, {b1.current.value.kind} + p.kinds)
  {
  }

  function Zeros(n: nat): seq<byte> {
    seq(n, i => 0)
  }

  ghost predicate Counted(b: Buffer) {
    Valid(b) && b.size == |Unread(b)|
  }

  lemma LoadKeeps(b: Buffer)
    requires Valid(b)
    ensures Valid(Load(b)) && Unread(Load(b)) == Unread(b) && Load(b).size == b.size
    ensures Load(b).current.None? ==> Unread(b) == [] && Load(b) == b
    ensures Load(b).current.Some? ==> |Rest(Load(b))| == Load(b).remaining
    ensures Load(b).current.Some? ==> |Load(b).chunks| + 1 <= |b.chunks| + if b.current.Some? then 1 else 0
  {
    if b.current.None? && b.chunks != [] {
      assert b.chunks[0].data[0..] == b.chunks[0].data;
      assert [] + Bytes(b.chunks) == Bytes(b.chunks);
    }
  }

  lemma PartlyKeeps(b: Buffer, need: nat)
    requires Counted(b) && b.current.Some? && need < b.remaining
    ensures Counted(Partly(b, need)) && need <= |Rest(b)| <= |Unread(b)| && Unread(Partly(b, need)) == Unread(b)[need..]
    ensures Rest(b)[..need] == Unread(b)[..need]
  {
    var rest, later := Rest(b), Bytes(b.chunks);
    assert Rest(Partly(b, need)) == rest[need..];
    assert (rest + later)[need..] == rest[need..] + later;
    assert (rest + later)[..need] == rest[..need];
  }

  lemma FinishedKeeps(b: Buffer)
    requires Counted(b) && b.current.Some?
    ensures Counted(Finished(b)) && Unread(b) == Rest(b) + Unread(Finished(b))
  {
    assert Unread(Finished(b)) == Bytes(b.chunks);
  }

  function Shorter(n: nat, s: seq<byte>): (k: nat)
    ensures k <= n && k <= |s|
  {
    if n <= |s| then n else |s|
  }

  /** The loop copies the next bytes of the stream, as many as are needed or there are. */
  lemma {:induction false} CopyTakesNextBytes(b: Buffer, need: nat)
    requires Counted(b)
    ensures var p := Copy(b, need); var k := Shorter(need, Unread(b));
      Counted(p.buffer) && p.data == Unread(b)[..k] && Unread(p.buffer) == Unread(b)[k..]
    decreases |b.chunks| + if b.current.Some? then 1 else 0
  {
    hide Unread, Rest, Load, Partly, Finished, Copy;
    LoadKeeps(b);
    CopyOnce(b, need);
    var b1 := Load(b);
    if b1.current.Some? {
      if need < b1.remaining {
        PartlyKeeps(b1, need);
      } else {
        FinishedKeeps(b1);
        FinishedIsSmaller(b1);
        var rest, later := Rest(b1), Unread(Finished(b1));
        if need == b1.remaining {
          TakeMore(rest, later, 0);
          assert rest + later[..0] == rest && later[0..] == later;
        } else {
          CopyTakesNextBytes(Finished(b1), need - b1.remaining);
          TakeMore(rest, later, Shorter(need - b1.remaining, later));
        }
      }
    }
  }

  lemma FinishedIsSmaller(b: Buffer)
    ensures Finished(b).chunks == b.chunks && Finished(b).current.None?
  {
  }

  lemma TakeMore(a: seq<byte>, b: seq<byte>, m: nat)
    requires m <= |b|
    ensures (a + b)[..|a| + m] == a + b[..m] && (a + b)[|a| + m..] == b[m..]
  {
  }

  // ---------- runs ----------

  /** A buffer, the audio written to it and the audio bytes read from it. */
  datatype Stream = Stream(buffer: Buffer, written: seq<byte>, read: seq<byte>)

  datatype Op = AudioOp(data: seq<byte>) | EventOp(kind: nat) | ReadOp(frameSize: nat)

  ghost function Step(s: Stream, op: Op): Stream
    requires Valid(s.buffer)
  {
    match op
    case AudioOp(data) => s.(buffer := WriteAudio(s.buffer, data), written := s.written + data)
    case EventOp(kind) => s.(buffer := WriteEvent(s.buffer, kind))
    case ReadOp(n) =>
      var p := Copy(s.buffer, n);
      s.(buffer := p.buffer, read := s.read + p.data)
  }

  /** Everything written has been read or is still to be read, in order, and size says
      how much that is. */
  ghost predicate Faithful(s: Stream) {
    Counted(s.buffer) && s.written == s.read + Unread(s.buffer)
  }

  lemma WriteKeeps(b: Buffer, c: Chunk)
    ensures Unread(b.(chunks := b.chunks + [c])) == Unread(b) + c.data
  {
    hide Bytes;
    var more := b.(chunks := b.chunks + [c]);
    BytesConcat(b.chunks, [c]);
    BytesOfOne(c);
    assert Rest(more) == Rest(b);
    assert Rest(b) + (Bytes(b.chunks) + c.data) == Rest(b) + Bytes(b.chunks) + c.data;
  }

  lemma BytesOfOne(c: Chunk)
    ensures Bytes([c]) == c.data
  {
    assert [c][1..] == [];
    assert c.data + [] == c.data;
  }

  lemma StepFaithful(s: Stream, op: Op)
    requires Faithful(s)
    ensures Faithful(Step(s, op))
    ensures Step(s, op).written == s.written + if op.AudioOp? then op.data else []
    ensures |Step(s, op).read| == |s.read| + if op.ReadOp? then Shorter(op.frameSize, Unread(s.buffer)) else 0
  {
    hide Copy, Unread;
    var b := s.buffer;
    assert s.written + [] == s.written;
    match op
    case AudioOp(data) =>
      WriteKeeps(b, Chunk(Audio, data));
      UnreadIgnoresSize(b.(chunks := b.chunks + [Chunk(Audio, data)]), b.size + |data|);
      assert s.read + (Unread(b) + data) == s.read + Unread(b) + data;
    case EventOp(kind) =>
      WriteKeeps(b, Chunk(Event(kind), []));
      assert Unread(b) + [] == Unread(b);
    case ReadOp(n) =>
      CopyTakesNextBytes(b, n);
      var k := Shorter(n, Unread(b));
      assert s.read + Unread(b)[..k] + Unread(b)[k..] == s.read + Unread(b);
  }

  lemma UnreadIgnoresSize(b: Buffer, n: nat)
    ensures Unread(b.(size := n)) == Unread(b)
  {
  }

  ghost predicate AllFaithful(s: Stream, ops: seq<Op>)
    decreases |ops|
  {
    Faithful(s) && (ops == [] || AllFaithful(Step(s, ops[0]), ops[1..]))
  }

  /** For any interleaving of audio writes, event writes and reads of any frame sizes:
      at every point the bytes read are a prefix of the bytes written, and size is the
      number of bytes still unread. */
  lemma {:induction false} BytesComeOutInOrder(s: Stream, ops: seq<Op>)
    requires Faithful(s)
    ensures AllFaithful(s, ops)
    decreases |ops|
  {
    hide Step, Faithful;
    if ops != [] {
      assert Valid(s.buffer) by { FaithfulIsValid(s); }
      StepFaithful(s, ops[0]);
      BytesComeOutInOrder(Step(s, ops[0]), ops[1..]);
    }
  }

  lemma FaithfulIsValid(s: Stream)
    requires Faithful(s)
    ensures Valid(s.buffer) && s.read <= s.written && s.buffer.size == |s.written| - |s.read|
  {
  }

  lemma OpenedFaithful()
    ensures Faithful(Stream(EMPTY, [], []))
  {
  }

  /** A restart leaves size right exactly when nothing but the current chunk had bytes. */
  lemma RestartKeepsSizeIff(b: Buffer)
    requires Counted(b)
    ensures Counted(Restart(b)) <==> Bytes(b.chunks) == []
  {
    assert Unread(Restart(b)) == Rest(b);
  }

  /** Written, never read, and the buffer restarted: nothing is left to be read, but the
      size is still that of what was written. */
  lemma RestartForgetsBytes(data: seq<byte>)
    requires data != []
    ensures var b := WriteAudio(EMPTY, data);
      Counted(b) && Unread(b) == data && Unread(Restart(b)) == [] && Restart(b).size == |data| > 0
  {
    WriteKeeps(EMPTY, Chunk(Audio, data));
    UnreadIgnoresSize(EMPTY.(chunks := [] + [Chunk(Audio, data)]), |data|);
    assert Unread(EMPTY) == [] && [] + data == data;
  }

  /** ... and the rest of the current chunk is still read after it. */
  lemma RestartKeepsCurrentChunk(b: Buffer)
    requires Valid(b)
    ensures Unread(Restart(b)) == Rest(b)
  {
    assert Rest(Restart(b)) == Rest(b);
  }

  // ---------- the code ----------

  class AudioBuffer {
    var chunks: seq<Chunk>
    var current: Option<Chunk>
    var remaining: nat
    var size: nat

    ghost function View(): Buffer
      reads this
    {
      Buffer(chunks, current, remaining, size)
    }

    constructor ()
      ensures View() == EMPTY && Counted(View())
    {
      chunks, current, remaining, size := [], None, 0, 0;
    }

    method Append(data: seq<byte>)
      modifies this`chunks, this`size
      ensures View() == WriteAudio(old(View()), data)
    {
      chunks := chunks + [Chunk(Audio, data)];
      size := size + |data|;
    }

    method AppendEvent(kind: nat)
      modifies this`chunks
      ensures View() == WriteEvent(old(View()), kind)
    {
      chunks := chunks + [Chunk(Event(kind), [])];
    }

    method Clear()
      modifies this`chunks
      ensures View() == Restart(old(View()))
    {
      chunks := [];
    }

    /** One turn of the copy loop; done when the frame is full or the buffer empty. */
    method CopyPiece(need: nat) returns (data: seq<byte>, kinds: set<FrameType>, done: bool)
      requires Valid(View())
      modifies this
      ensures var b := Load(old(View()));
        if b.current.None? then View() == b && data == [] && kinds == {} && done
        else
          && kinds == {b.current.value.kind}
          && (if need < b.remaining then View() == Partly(b, need) && data == Rest(b)[..need] && done
              else View() == Finished(b) && data == Rest(b) && done == (need == b.remaining))
    {
      if current.None? {
        if chunks == [] {
          return [], {}, true;
        }
        current := Some(chunks[0]);
        chunks := chunks[1..];
        remaining := |current.value.data|;
      }
      assert View() == Load(old(View()));
      var source := current.value.data;
      kinds := {current.value.kind};
      if need < remaining {
        data := source[|source| - remaining..][..need];
        remaining := remaining - need;
        size := Minus(size, need);
        done := true;
      } else {
        data := source[|source| - remaining..];
        done := need == remaining;
        size := Minus(size, remaining);
        remaining := 0;
        current := None;
      }
    }

    /** The copy loop of mpf_buffer_frame_read. */
    method CopyLoop(frameSize: nat) returns (data: seq<byte>, kinds: set<FrameType>)
      requires Counted(View())
      modifies this
      ensures Piece(View(), data, kinds) == Copy(old(View()), frameSize)
    {
      hide Copy, Unread, Rest, Load, Partly;
      data, kinds := [], {};
      var need: nat, done := frameSize, false;
      ghost var all := Copy(View(), frameSize);
      assert [] + all.data == all.data && {} + all.kinds == all.kinds;
      while !done
        invariant done ==> Piece(View(), data, kinds) == all
        invariant !done ==> Counted(View())
        invariant !done ==> all == Onto(data, kinds, Copy(View(), need))
        decreases !done, |chunks| + if current.Some? then 1 else 0
      {
        ghost var b := View();
        LoadKeeps(b);
        CopyOnce(b, need);
        var more, types, last := CopyPiece(need);
        if !last {
          FinishedKeeps(Load(b));
          OntoMore(data, kinds, more, types, Copy(View(), need - |more|));
          need := need - |more|;
        }
        data := data + more;
        kinds := kinds + types;
        done := last;
      }
    }

    /** mpf_buffer_frame_read: the next bytes, then zeros when the buffer ran empty. */
    method ReadFrame(frameSize: nat) returns (frame: seq<byte>, kinds: set<FrameType>)
      requires Counted(View())
      modifies this
      ensures View() == Copy(old(View()), frameSize).buffer && kinds == Copy(old(View()), frameSize).kinds
      ensures var k := Shorter(frameSize, Unread(old(View())));
        frame == Unread(old(View()))[..k] + Zeros(frameSize - k) && Unread(View()) == Unread(old(View()))[k..]
      ensures Counted(View())
    {
      hide Copy, Unread;
      CopyTakesNextBytes(View(), frameSize);
      var data, types := CopyLoop(frameSize);
      frame := data;
      if |data| < frameSize {
        frame := frame + Zeros(frameSize - |data|);
      } else {
        assert data + Zeros(0) == data;
      }
      kinds := types;
    }
  }

  ghost function Onto(data: seq<byte>, kinds: set<FrameType>, p: Piece): Piece {
    Piece(p.buffer, data + p.data, kinds + p.kinds)
  }

  lemma OntoMore(data: seq<byte>, kinds: set<FrameType>, more: seq<byte>, types: set<FrameType>, p: Piece)
    ensures Onto(data, kinds, Piece(p.buffer, more + p.data, types + p.kinds)) == Onto(data + more, kinds + types, p)
  {
    assert data + (more + p.data) == data + more + p.data;
    assert kinds + (types + p.kinds) == kinds + types + p.kinds;
  }
}
