/** Events in the media buffer: which read reports a chunk, and what is left of the
    chunks then. */
module BufferEvents {
  import opened MediaBuffer

  /** The chunks not read to their end: the current one and those queued. */
  function Chunks(b: Buffer): seq<Chunk> {
    (if b.current.Some? then [b.current.value] else []) + b.chunks
  }

  /** The bytes each of them has left. */
  function Left(b: Buffer): seq<nat> {
    (if b.current.Some? then [b.remaining] else []) + seq(|b.chunks|, i requires 0 <= i < |b.chunks| => |b.chunks[i].data|)
  }

  /** Bytes in front of one of them. */
  function Before(left: seq<nat>, k: nat): nat
    requires k <= |left|
  {
    if k == 0 then 0 else left[0] + Before(left[1..], k - 1)
  }

  /** A read of so many bytes gets to a chunk: to the first one always, to any other when
      the bytes in front of it do not fill the frame. */
  predicate GetsTo(left: seq<nat>, need: nat, k: nat)
    requires k < |left|
  {
    k == 0 || Before(left, k) < need
  }

  /** ... and to its end. */
  predicate Finishes(left: seq<nat>, need: nat, k: nat)
    requires k < |left|
  {
    GetsTo(left, need, k) && Before(left, k) + left[k] <= need
  }

  /** How many of the chunks are finished. */
  function Gone(left: seq<nat>, need: nat): (n: nat)
    ensures n <= |left|
  {
    if left == [] then 0
    else if need < left[0] then 0
    else if need == left[0] then 1
    else 1 + Gone(left[1..], need - left[0])
  }

  lemma {:induction false} GoneIs(left: seq<nat>, need: nat, k: nat)
    requires k < |left|
    ensures Finishes(left, need, k) <==> k < Gone(left, need)
    decreases |left|
  {
    if k == 0 {
    } else if need > left[0] {
      GoneIs(left[1..], need - left[0], k - 1);
      assert left[1..][k - 1] == left[k];
      if k == 1 {
        assert Before(left[1..], 0) == 0;
      }
    } else {
      assert Before(left, k) >= left[0];
    }
  }

  lemma LoadKeepsChunks(b: Buffer)
    ensures Chunks(Load(b)) == Chunks(b) && Left(Load(b)) == Left(b)
    ensures Load(b).current.None? ==> Chunks(b) == []
  {
  }

  lemma OneTurn(b: Buffer)
    requires b.current.Some?
    ensures Chunks(b) != [] && Chunks(b)[0] == b.current.value && Left(b)[0] == b.remaining && |Left(b)| == |Chunks(b)|
    ensures Chunks(Finished(b)) == Chunks(b)[1..] && Left(Finished(b)) == Left(b)[1..]
  {
  }

  lemma SameSizes(b: Buffer)
    ensures |Left(b)| == |Chunks(b)|
  {
  }

  /** The kinds of the chunks a read gets to. */
  ghost function Reached(chunks: seq<Chunk>, left: seq<nat>, need: nat): set<FrameType>
    requires |left| == |chunks|
  {
    set k | 0 <= k < |chunks| && GetsTo(left, need, k) :: chunks[k].kind
  }

  lemma GetsToNext(left: seq<nat>, need: nat, k: nat)
    requires 0 < k < |left|
    ensures need > left[0] ==> (GetsTo(left, need, k) <==> GetsTo(left[1..], need - left[0], k - 1))
    ensures need <= left[0] ==> !GetsTo(left, need, k)
  {
    assert Before(left, k) == left[0] + Before(left[1..], k - 1);
    assert Before(left[1..], 0) == 0;
  }

  lemma ReachedNext(chunks: seq<Chunk>, left: seq<nat>, need: nat)
    requires |left| == |chunks| > 0
    ensures Reached(chunks, left, need) ==
      {chunks[0].kind} + if need > left[0] then Reached(chunks[1..], left[1..], need - left[0]) else {}
  {
    hide GetsTo, Before;
    assert GetsTo(left, need, 0) by { FirstIsReached(left, need); }
    forall k | 0 < k < |chunks|
      ensures need > left[0] ==> (GetsTo(left, need, k) <==> GetsTo(left[1..], need - left[0], k - 1))
      ensures need <= left[0] ==> !GetsTo(left, need, k)
    {
      GetsToNext(left, need, k);
    }
    if need > left[0] {
      var rest := Reached(chunks[1..], left[1..], need - left[0]);
      forall kind | kind in rest ensures kind in Reached(chunks, left, need) {
        var k :| 0 <= k < |chunks[1..]| && GetsTo(left[1..], need - left[0], k) && chunks[1..][k].kind == kind;
        assert GetsTo(left, need, k + 1) && chunks[k + 1].kind == kind;
      }
      forall kind | kind in Reached(chunks, left, need) ensures kind == chunks[0].kind || kind in rest {
        var k :| 0 <= k < |chunks| && GetsTo(left, need, k) && chunks[k].kind == kind;
        if k > 0 {
          assert chunks[1..][k - 1].kind == kind;
        }
      }
    }
  }

  lemma FirstIsReached(left: seq<nat>, need: nat)
    requires left != []
    ensures GetsTo(left, need, 0)
  {
  }

  /** A read reports exactly the kinds of the chunks it gets to: an event is reported by
      the read that gets to the bytes it was written behind, and not by one that ends just
      there.  The chunks read to their end are gone, the others stay in order. */
  lemma {:induction false} ReadReports(b: Buffer, need: nat)
    requires Valid(b)
    ensures |Left(b)| == |Chunks(b)|
    ensures Copy(b, need).kinds == Reached(Chunks(b), Left(b), need)
    ensures Chunks(Copy(b, need).buffer) == Chunks(b)[Gone(Left(b), need)..]
    decreases |b.chunks| + if b.current.Some? then 1 else 0
  {
    hide Rest, Chunks, Left, Reached, Copy, Gone, Finished, Partly;
    SameSizes(b);
    LoadKeepsChunks(b);
    CopyOnce(b, need);
    GoneOnce(Left(b), need);
    var b1 := Load(b);
    if b1.current.None? {
      NothingReached(need);
      assert Chunks(b)[0..] == [];
    } else {
      LoadValid(b);
      OneTurn(b1);
      ReachedNext(Chunks(b), Left(b), need);
      if need > b1.remaining {
        FinishedIs(b1);
        ReadReports(Finished(b1), need - b1.remaining);
        assert Chunks(b)[1..][Gone(Left(b)[1..], need - b1.remaining)..] == Chunks(b)[Gone(Left(b), need)..];
      } else if need < b1.remaining {
        PartlyIs(b1, need);
        assert Chunks(b)[0..] == Chunks(b);
      }
    }
  }

  lemma GoneOnce(left: seq<nat>, need: nat)
    ensures Gone(left, need) ==
      if left == [] || need < left[0] then 0
      else if need == left[0] then 1 else 1 + Gone(left[1..], need - left[0])
  {
  }

  lemma NothingReached(need: nat)
    ensures Reached([], [], need) == {}
  {
  }

  lemma LoadValid(b: Buffer)
    requires Valid(b)
    ensures Valid(Load(b))
    ensures |Load(b).chunks| + (if Load(b).current.Some? then 1 else 0) == |b.chunks| + if b.current.Some? then 1 else 0
  {
  }

  lemma FinishedIs(b: Buffer)
    ensures Finished(b).current.None? && Finished(b).chunks == b.chunks
  {
  }

  lemma PartlyIs(b: Buffer, need: nat)
    ensures Chunks(Partly(b, need)) == Chunks(b)
  {
  }

  /** An event written is the last of the chunks, behind all bytes, and takes none. */
  lemma EventIsLast(b: Buffer, kind: nat)
    ensures var r := WriteEvent(b, kind);
      && Chunks(r) == Chunks(b) + [Chunk(Event(kind), [])] && Left(r) == Left(b) + [0] && r.size == b.size
  {
  }

  /** So is audio, with its bytes. */
  lemma AudioIsLast(b: Buffer, data: seq<byte>)
    ensures var r := WriteAudio(b, data);
      Chunks(r) == Chunks(b) + [Chunk(Audio, data)] && Left(r) == Left(b) + [|data|] && r.size == b.size + |data|
  {
  }
}
