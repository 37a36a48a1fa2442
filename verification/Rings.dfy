/** The ring buffers of the batched queue: the shared ring behind the lock and
    the per-thread local ring that may be resized in place while it holds data.
    Both keep one sentinel cell, so a ring of `size` cells holds `size - 1` elements. */
module Rings {
  import opened Wrappers

  /** Cells allocated for every local ring, whatever its first step is. */
  const LOCAL_ALLOCATION := 1_000_000

  /** The queue a ring stands for: the occupied cells from tail to head, unwrapped. */
  function Unroll<T>(cells: seq<T>, head: nat, tail: nat, size: nat): (q: seq<T>)
    requires head < size <= |cells| && tail < size
  {
    if tail <= head then cells[tail..head] else cells[tail..size] + cells[..head]
  }

  /** The step a local ring has after a request for `wanted`: a request that would
      shrink the ring to a capacity not above its element count is refused. */
  function StepAfter(step: nat, elements: nat, wanted: nat): (s: nat)
    ensures elements <= step ==> elements <= s
    ensures elements < step ==> elements < s
    ensures s == step || s == wanted
    ensures s == wanted <==> wanted >= step || elements < wanted
  {
    if wanted < step && elements >= wanted then step else wanted
  }

  function Min(a: nat, b: nat): (m: nat)
    ensures m <= a && m <= b && (m == a || m == b)
  {
    if a < b then a else b
  }

  /** How many elements one critical section moves: as many as the caller's limit, the
      room at the destination and the source allow. */
  function BatchSize(limit: nat, room: nat, elements: nat): (n: nat)
    ensures n <= limit && n <= room && n <= elements
    ensures n == limit || n == room || n == elements
  {
    Min(limit, Min(room, elements))
  }

  /** What an overlapping copy of `n` cells leaves in the cells. */
  function Moved<T>(cells: seq<T>, dst: nat, src: nat, n: nat): (r: seq<T>)
    requires dst + n <= |cells| && src + n <= |cells|
    ensures |r| == |cells|
  {
    cells[..dst] + cells[src..src + n] + cells[dst + n..]
  }

  // A run that does not wrap does not depend on the size.
  lemma Contiguous<T>(cells: seq<T>, head: nat, tail: nat, size: nat, newSize: nat)
    requires tail <= head < size <= |cells| && head < newSize <= |cells|
    ensures Unroll(cells, head, tail, newSize) == Unroll(cells, head, tail, size)
  {
  }

  lemma EmptyRing<T>(cells: seq<T>, head: nat, size: nat, newSize: nat)
    requires head < size <= |cells| && 0 < newSize <= |cells|
    ensures Unroll(cells, 0, 0, newSize) == Unroll(cells, head, head, size)
  {
  }

  lemma RunLength<T>(cells: seq<T>, head: nat, tail: nat, size: nat)
    requires tail <= head < size <= |cells|
    ensures |Unroll(cells, head, tail, size)| == head - tail
  {
  }

  lemma WrappedLength<T>(cells: seq<T>, head: nat, tail: nat, size: nat)
    requires head < tail < size <= |cells|
    ensures |Unroll(cells, head, tail, size)| == size - tail + head
  {
  }

  lemma ShiftedToFront<T>(cells: seq<T>, head: nat, tail: nat, size: nat, newSize: nat)
    requires tail < head < size <= |cells| && head - tail < newSize <= |cells|
    ensures Unroll(Moved(cells, 0, tail, head - tail), head - tail, 0, newSize) == Unroll(cells, head, tail, size)
  {
    assert Moved(cells, 0, tail, head - tail)[0..head - tail] == cells[tail..head];
  }

  lemma UpperPartMoved<T>(cells: seq<T>, head: nat, tail: nat, size: nat, newTail: nat)
    requires head < tail < size <= |cells| && head < newTail && newTail + size - tail <= |cells|
    ensures Unroll(Moved(cells, newTail, tail, size - tail), head, newTail, newTail + size - tail)
            == Unroll(cells, head, tail, size)
  {
    var m := Moved(cells, newTail, tail, size - tail);
    assert m[..head] == cells[..head];
    assert m[newTail..newTail + size - tail] == cells[tail..size];
  }

  /** Overlapping copy of `n` cells inside one array. */
  method MoveCells<T>(cells: array<T>, dst: nat, src: nat, n: nat)
    requires dst + n <= cells.Length && src + n <= cells.Length
    modifies cells
    ensures cells[..] == Moved(old(cells[..]), dst, src, n)
  {
    forall k | 0 <= k < n {
      cells[dst + k] := cells[src + k];
    }
  }

  class Ring<T(0)> {
    var data: array<T>
    var head: nat
    var tail: nat
    var size: nat
    var elements: nat
    ghost var Contents: seq<T>

    ghost predicate Valid()
      reads this, data
    {
      && 1 <= size <= data.Length
      && head < size
      && tail < size
      && elements == |Contents|
      && Contents == Unroll(data[..], head, tail, size)
    }

    function Step(): (s: int)
      reads this
    {
      size - 1
    }

    /** The shared ring: exactly one cell more than the capacity. */
    constructor Shared(capacity: nat)
      ensures Valid() && fresh(data)
      ensures Contents == [] && Step() == capacity
    {
      data := new T[capacity + 1];
      size := capacity + 1;
      head, tail, elements := 0, 0, 0;
      Contents := [];
    }

    /** A local ring: a fixed allocation of which the first `step + 1` cells are in use. */
    constructor Local(step: nat)
      requires step + 1 <= LOCAL_ALLOCATION
      ensures Valid() && fresh(data) && data.Length == LOCAL_ALLOCATION
      ensures Contents == [] && Step() == step
    {
      data := new T[LOCAL_ALLOCATION];
      size := step + 1;
      head, tail, elements := 0, 0, 0;
      Contents := [];
    }

    method Empty() returns (b: bool)
      requires Valid()
      ensures b <==> Contents == []
    {
      b := tail == head;
    }

    method Full() returns (b: bool)
      requires Valid()
      ensures b <==> |Contents| == Step()
    {
      b := head == (tail - 1 + size) % size;
      FullTest(head, tail, size);
    }

    method Push(x: T) returns (ok: bool)
      requires Valid()
      modifies this, data
      ensures Valid() && data == old(data) && size == old(size)
      ensures ok <==> |old(Contents)| < Step()
      ensures Contents == if ok then old(Contents) + [x] else old(Contents)
    {
      var full := Full();
      if full {
        return false;
      }
      data[head] := x;
      head := head + 1;
      if head == size {
        head := 0;
      }
      elements := elements + 1;
      Contents := Contents + [x];
      ok := true;
    }

    method Pop() returns (x: Option<T>)
      requires Valid()
      modifies this
      ensures Valid() && data == old(data) && size == old(size)
      ensures old(Contents) == [] ==> x == None && Contents == []
      ensures old(Contents) != [] ==> x == Some(old(Contents)[0]) && Contents == old(Contents)[1..]
    {
      var empty := Empty();
      if empty {
        return None;
      }
      x := Some(data[tail]);
      tail := tail + 1;
      if tail >= size {
        tail := 0;
      }
      elements := elements - 1;
      Contents := Contents[1..];
    }

    /** Lay the queue out for a ring of `wanted + 1` cells: an empty ring is rebased, a contiguous
        run is shifted to the front only when the new end would cut it, and the upper part of a
        wrapped run is moved to the new end. */
    method LayOut(wanted: nat)
      requires Valid() && wanted + 1 <= data.Length && wanted + 1 != size
      requires wanted < size - 1 ==> elements < wanted
      modifies this`head, this`tail, data
      ensures head < wanted + 1 && tail < wanted + 1
      ensures Unroll(data[..], head, tail, wanted + 1) == old(Contents)
    {
      hide Unroll, Moved;
      var reduce := wanted < size - 1;
      if head == tail {
        EmptyRing(data[..], head, size, wanted + 1);
        head, tail := 0, 0;
      } else if head > tail {
        if reduce && head > wanted {
          RunLength(data[..], head, tail, size);
          ShiftedToFront(data[..], head, tail, size, wanted + 1);
          MoveCells(data, 0, tail, elements);
          head := elements;
          tail := 0;
        } else {
          Contiguous(data[..], head, tail, size, wanted + 1);
        }
      } else if !reduce {
        MoveUpperPart(tail + wanted + 1 - size);
      } else {
        WrappedLength(data[..], head, tail, size);
        MoveUpperPart(tail - (size - (wanted + 1)));
      }
    }

    method MoveUpperPart(newTail: nat)
      requires Valid() && head < tail && head < newTail && newTail + size - tail <= data.Length
      modifies this`tail, data
      ensures tail == newTail
      ensures Unroll(data[..], head, tail, newTail + size - old(tail)) == Contents
    {
      UpperPartMoved(data[..], head, tail, size, newTail);
      MoveCells(data, newTail, tail, size - tail);
      tail := newTail;
    }

    /** Change the step in place. Nothing is lost in any layout; the only refusal is a request to
        shrink to a capacity not above the element count, and it leaves the ring as it was. */
    method Resize(wanted: nat) returns (ok: bool)
      requires Valid()
      requires wanted + 1 <= data.Length
      modifies this, data
      ensures Valid() && data == old(data)
      ensures Contents == old(Contents)
      ensures ok <==> !(wanted < old(Step()) && |old(Contents)| >= wanted)
      ensures ok ==> Step() == wanted
      ensures Step() == StepAfter(old(Step()), |old(Contents)|, wanted)
      ensures !ok ==> size == old(size) && head == old(head) && tail == old(tail) && data[..] == old(data[..])
    {
      if wanted == size - 1 {
        return true;
      }
      if wanted < size - 1 && elements >= wanted {
        return false;
      }
      LayOut(wanted);
      size := wanted + 1;
      ok := true;
    }
  }

  /** The modular test the code uses is the test "all but the sentinel cell are taken". */
  lemma FullTest(head: nat, tail: nat, size: nat)
    requires head < size && tail < size
    ensures head == (tail - 1 + size) % size <==>
            (if tail <= head then head - tail else size - tail + head) == size - 1
  {
    if tail == 0 {
      assert (tail - 1 + size) % size == size - 1;
    } else {
      assert (tail - 1 + size) % size == tail - 1 by {
        assert tail - 1 + size == (tail - 1) + 1 * size;
        ModAdd(tail - 1, size);
      }
    }
  }

  lemma ModAdd(r: nat, m: nat)
    requires r < m
    ensures (r + m) % m == r
  {
    assert (r + m) / m == 1;
  }
}
