/** The growing ring used for task messages (apt_cyclic_queue.c).

    A ring of max_size cells is written at head and read at tail.  When a push
    finds the ring full it is first copied, from head on, into a ring half as
    large again.  The queue is proved to stand for a plain FIFO sequence. */
module CyclicQueue {

  /** Cell reached from cell `start` after `n` steps round a ring of `size` cells. */
  function Wrap(start: nat, n: nat, size: nat): (cell: nat)
    requires start < size && n <= size
    ensures cell < size
  {
    if start + n < size then start + n else start + n - size
  }

  /** Contents of a ring, oldest element first. */
  function RingContents<T>(cells: seq<T>, tail: nat, count: nat): (s: seq<T>)
    requires count <= |cells|
    requires count > 0 ==> tail < |cells|
    ensures |s| == count
    ensures forall i :: 0 <= i < count ==> s[i] == cells[Wrap(tail, i, |cells|)]
  {
    seq(count, i requires 0 <= i < count => cells[Wrap(tail, i, |cells|)])
  }

  /** Size after growing, as the code computes it. */
  function GrownSize(size: nat): (n: nat)
    ensures n > size <==> size >= 2
  {
    size + size / 2
  }

  lemma WrapIsModulo(start: nat, size: nat)
    requires start < size
    ensures (start + 1) % size == Wrap(start, 1, size)
  {
    if start + 1 == size {
      assert (start + 1) % size == 0;
    }
  }

  lemma RingExtends<T>(cells: seq<T>, tail: nat, count: nat, obj: T)
    requires tail < |cells| && count < |cells|
    ensures RingContents(cells[Wrap(tail, count, |cells|) := obj], tail, count + 1)
         == RingContents(cells, tail, count) + [obj]
  {
  }

  /** Copying a full ring from head on keeps the FIFO order, because in a full
      ring head and tail are the same cell. */
  lemma FullRingUnrolls<T>(cells: seq<T>, head: nat)
    requires head < |cells|
    ensures RingContents(cells, head, |cells|) == cells[head..] + cells[..head]
  {
  }

  class Queue<T(0)> {
    var data: array<T>
    var maxSize: nat
    var actualSize: nat
    var head: nat
    var tail: nat

    ghost predicate Valid()
      reads this, data
    {
      && data.Length == maxSize
      && actualSize <= maxSize
      && (maxSize > 0 ==> head < maxSize && tail < maxSize && head == Wrap(tail, actualSize, maxSize))
    }

    /** The FIFO sequence the ring stands for. */
    function Contents(): (s: seq<T>)
      requires Valid()
      reads this, data
    {
      RingContents(data[..], tail, actualSize)
    }

    constructor (size: nat)
      ensures Valid() && fresh(data) && maxSize == size
      ensures Contents() == []
    {
      maxSize := size;
      actualSize := 0;
      data := new T[size];
      head, tail := 0, 0;
    }

    /** A full ring of fewer than two cells cannot grow, and the store that
        follows would fall outside the array. */
    method Push(obj: T) returns (ok: bool)
      requires Valid()
      requires actualSize < maxSize || maxSize >= 2
      modifies this, data
      ensures Valid() && (data == old(data) || fresh(data))
      ensures ok && Contents() == old(Contents()) + [obj]
      ensures maxSize == if old(actualSize) < old(maxSize) then old(maxSize) else GrownSize(old(maxSize))
    {
      if actualSize >= maxSize {
        Resize();
      }
      RingExtends(data[..], tail, actualSize, obj);
      WrapIsModulo(head, maxSize);
      data[head] := obj;
      head := (head + 1) % maxSize;
      actualSize := actualSize + 1;
      ok := true;
    }

    method Resize()
      requires Valid()
      requires actualSize == maxSize >= 2
      modifies this
      ensures Valid() && fresh(data)
      ensures actualSize == old(actualSize) < maxSize == GrownSize(old(maxSize))
      ensures Contents() == old(Contents())
    {
      var newSize := GrownSize(maxSize);
      var newData := new T[newSize];
      var offset := maxSize - head;
      forall i | 0 <= i < offset {
        newData[i] := data[head + i];
      }
      forall i | 0 <= i < head {
        newData[offset + i] := data[i];
      }
      FullRingUnrolls(data[..], head);
      assert newData[..maxSize] == data[head..] + data[..head];
      tail := 0;
      head := maxSize;
      maxSize := newSize;
      data := newData;
    }

    method Pop() returns (obj: T, found: bool)
      requires Valid()
      modifies this`actualSize, this`tail
      ensures Valid()
      ensures found == (old(Contents()) != [])
      ensures found ==> obj == old(Contents())[0] && Contents() == old(Contents())[1..]
      ensures !found ==> Contents() == []
    {
      found := actualSize != 0;
      if found {
        obj := data[tail];
        WrapIsModulo(tail, maxSize);
        tail := (tail + 1) % maxSize;
        actualSize := actualSize - 1;
      } else {
        obj := *;
      }
    }

    method Clear()
      requires Valid()
      modifies this
      ensures Valid() && Contents() == [] && data == old(data)
    {
      actualSize := 0;
      head, tail := 0, 0;
    }

    /** Named as in the code, and answering as in the code: true when the queue
        is NOT empty, the opposite of what its header says. */
    method IsEmpty() returns (answer: bool)
      requires Valid()
      ensures answer <==> Contents() != []
    {
      answer := actualSize != 0;
    }
  }
}
