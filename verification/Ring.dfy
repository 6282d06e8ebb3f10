/**
 * The bounded PTY ring (crates/daemon/src/ring.rs): a byte deque over a circular
 * buffer, addressed by absolute stream offsets, with a poison state for the day
 * the 64-bit offset counter is exhausted.
 */
module Ring {
  import opened Common

  /** The logical state of the ring: the bytes `[start, next)` of the stream. */
  datatype Window = Window(start: nat, next: nat, data: seq<Byte>)

  predicate Consistent(w: Window) {
    w.start + |w.data| == w.next <= U64_MAX
  }

  /** What one push does to the logical window. */
  function Pushed(w: Window, capacity: nat, bytes: seq<Byte>): (r: Window)
    requires Consistent(w)
    ensures Consistent(r)
  {
    if bytes == [] then w
    else if w.next + |bytes| > U64_MAX then Window(U64_MAX, U64_MAX, [])
    else
      var kept := LastN(w.data + bytes, capacity);
      Window(w.next + |bytes| - |kept|, w.next + |bytes|, kept)
  }

  /** All bytes from offset `seq` on, or a miss when `from` is outside the window. */
  function Replay(w: Window, from: nat): Option<seq<Byte>>
    requires Consistent(w)
  {
    if from < w.start || from > w.next then None else Some(w.data[from - w.start..])
  }

  /** The window that a ring of this capacity must show after the given stream. */
  function WindowOf(stream: seq<Byte>, capacity: nat): (w: Window)
    ensures Consistent(w)
  {
    if |stream| > U64_MAX then Window(U64_MAX, U64_MAX, [])
    else Window(|stream| - Min(capacity, |stream|), |stream|, LastN(stream, capacity))
  }

  /** What a window no longer holds does not come back. */
  lemma LastNOfLastN(stream: seq<Byte>, capacity: nat, bytes: seq<Byte>)
    ensures LastN(LastN(stream, capacity) + bytes, capacity) == LastN(stream + bytes, capacity)
  {
    if |stream| > capacity {
      var kept := |stream| - capacity;
      assert stream[kept..] + bytes == (stream + bytes)[kept..];
    }
  }

  /** One push keeps the window equal to the window of the whole stream, poison included. */
  lemma PushedExtendsStream(stream: seq<Byte>, capacity: nat, bytes: seq<Byte>)
    ensures Pushed(WindowOf(stream, capacity), capacity, bytes) == WindowOf(stream + bytes, capacity)
  {
    if bytes == [] {
      assert stream + bytes == stream;
    } else if |stream| + |bytes| <= U64_MAX {
      LastNOfLastN(stream, capacity, bytes);
    }
  }

  function PushAll(capacity: nat, chunks: seq<seq<Byte>>): (w: Window)
    ensures Consistent(w)
  {
    if chunks == [] then Window(0, 0, [])
    else Pushed(PushAll(capacity, chunks[..|chunks| - 1]), capacity, chunks[|chunks| - 1])
  }

  /**
   * However the stream was cut into pushes, the ring shows the last
   * `min(capacity, total)` bytes of it; and once more than `u64::MAX` bytes were
   * pushed it is empty at `u64::MAX` for ever.
   */
  lemma {:induction false} RingRefinesStream(capacity: nat, chunks: seq<seq<Byte>>)
    ensures PushAll(capacity, chunks) == WindowOf(Flatten(chunks), capacity)
  {
    if chunks == [] {
    } else {
      var init := chunks[..|chunks| - 1];
      RingRefinesStream(capacity, init);
      PushedExtendsStream(Flatten(init), capacity, chunks[|chunks| - 1]);
    }
  }

  /**
   * A replay succeeds exactly for the offsets of the retained window and then yields
   * every later byte of the stream; after an overflow only offset `u64::MAX` is a hit,
   * and it yields nothing.
   */
  lemma ReplayMeaning(capacity: nat, chunks: seq<seq<Byte>>, from: nat)
    ensures
      var stream := Flatten(chunks);
      var w := PushAll(capacity, chunks);
      && (|stream| <= U64_MAX ==>
            && (Replay(w, from).Some? <==> |stream| - Min(capacity, |stream|) <= from <= |stream|)
            && (Replay(w, from).Some? ==> Replay(w, from).value == stream[from..]))
      && (|stream| > U64_MAX ==>
            && (Replay(w, from).Some? <==> from == U64_MAX)
            && (Replay(w, from).Some? ==> Replay(w, from).value == []))
  {
    RingRefinesStream(capacity, chunks);
  }

  /** Making room at the front and appending a clipped chunk keeps the newest bytes. */
  lemma DrainThenExtend(data: seq<Byte>, tail: seq<Byte>, bytes: seq<Byte>, overflow: nat, capacity: nat)
    requires |data| <= capacity && tail == LastN(bytes, capacity)
    requires overflow == if |data| + |tail| > capacity then |data| + |tail| - capacity else 0
    ensures overflow <= |data| && |data| - overflow + |tail| <= capacity
    ensures data[overflow..] + tail == LastN(data + bytes, capacity)
  {
    var whole := data + bytes;
    assert data[overflow..] + tail == whole[|whole| - |data[overflow..] + tail|..];
  }

  /** The ring buffer itself: `len` bytes of a circular array, starting at slot `head`. */
  class PtyRingBuffer {
    const capacity: nat
    const slots: array<Byte>
    var startSeq: nat
    var nextSeq: nat
    var head: nat
    var len: nat

    ghost predicate Valid()
      reads this
    {
      && slots.Length == capacity
      && len <= capacity
      && (head < capacity || head == 0)
      && startSeq + len == nextSeq <= U64_MAX
    }

    /** The physical slot of logical index `i`, wrapping at the end of the array. */
    function Slot(i: nat): (slot: nat)
      requires Valid() && i < capacity
      reads this
    {
      if head + i < capacity then head + i else head + i - capacity
    }

    ghost function Contents(): (s: seq<Byte>)
      requires Valid()
      reads this, slots
      ensures |s| == len
    {
      seq(len, i requires 0 <= i < len && Valid() reads this, slots => slots[Slot(i)])
    }

    ghost function View(): Window
      requires Valid()
      reads this, slots
    {
      Window(startSeq, nextSeq, Contents())
    }

    constructor (capacity: nat)
      ensures Valid() && fresh(slots) && this.capacity == capacity
      ensures View() == Window(0, 0, [])
    {
      this.capacity := capacity;
      slots := new Byte[capacity];
      startSeq, nextSeq, head, len := 0, 0, 0, 0;
    }

    /** `VecDeque::drain(..count)`: forget the oldest bytes. */
    method DrainFront(count: nat)
      requires Valid() && count <= len
      modifies this`head, this`len, this`startSeq
      ensures Valid() && nextSeq == old(nextSeq)
      ensures Contents() == old(Contents())[count..]
    {
      ghost var before := Contents();
      if count < capacity {
        head := if head + count < capacity then head + count else head + count - capacity;
      }
      len := len - count;
      startSeq := startSeq + count;
      assert Contents() == before[count..];
    }

    method Append(byte: Byte)
      requires Valid() && len < capacity && nextSeq < U64_MAX
      modifies this`len, this`nextSeq, slots
      ensures Valid() && startSeq == old(startSeq) && len == old(len) + 1
      ensures Contents() == old(Contents()) + [byte]
    {
      ghost var before := Contents();
      slots[Slot(len)] := byte;
      len, nextSeq := len + 1, nextSeq + 1;
      assert forall k :: 0 <= k < len - 1 ==> Contents()[k] == before[k];
    }

    /** `VecDeque::extend`: append bytes behind the newest one, across the wrap if needed. */
    method Extend(bytes: seq<Byte>)
      requires Valid() && len + |bytes| <= capacity && nextSeq + |bytes| <= U64_MAX
      modifies this`len, this`nextSeq, slots
      ensures Valid() && startSeq == old(startSeq)
      ensures Contents() == old(Contents()) + bytes
    {
      for i := 0 to |bytes|
        invariant Valid() && startSeq == old(startSeq) && len == old(len) + i
        invariant Contents() == old(Contents()) + bytes[..i]
      {
        Append(bytes[i]);
        assert bytes[..i + 1] == bytes[..i] + [bytes[i]];
      }
      assert bytes[..|bytes|] == bytes;
    }

    method Push(bytes: seq<Byte>) returns (originalStart: nat)
      requires Valid()
      modifies this, slots
      ensures Valid()
      ensures originalStart == old(nextSeq)
      ensures View() == Pushed(old(View()), capacity, bytes)
    {
      originalStart := nextSeq;
      if bytes == [] {
        return;
      }
      if nextSeq + |bytes| > U64_MAX {
        startSeq, nextSeq, head, len := U64_MAX, U64_MAX, 0, 0;
        return;
      }
      var tail := LastN(bytes, capacity);
      var overflow := if len + |tail| > capacity then len + |tail| - capacity else 0;
      DrainThenExtend(Contents(), tail, bytes, overflow, capacity);
      DrainFront(overflow);
      Extend(tail);
      Advance(originalStart + |bytes|);
    }

    /** Records the new end of the stream; the bytes stay. */
    method Advance(end: nat)
      requires Valid() && len <= end <= U64_MAX
      modifies this`startSeq, this`nextSeq
      ensures Valid() && Contents() == old(Contents()) && nextSeq == end && startSeq == end - len
    {
      startSeq, nextSeq := end - len, end;
    }

    /** `as_slices`: the retained bytes as the piece before the wrap and the piece after it. */
    method AsSlices() returns (first: seq<Byte>, second: seq<Byte>)
      requires Valid()
      ensures first + second == Contents()
      ensures head + len > capacity ==> |first| == capacity - head
    {
      if head + len <= capacity {
        first, second := slots[head..head + len], [];
      } else {
        first, second := slots[head..], slots[..head + len - capacity];
      }
    }

    method ReplayFrom(from: nat) returns (reply: Option<(nat, seq<Byte>)>)
      requires Valid()
      ensures reply.Some? <==> startSeq <= from <= nextSeq
      ensures reply.Some? ==> reply.value == (from, Contents()[from - startSeq..])
      ensures reply.Some? ==> Replay(View(), from) == Some(reply.value.1)
    {
      if from < startSeq || from > nextSeq {
        return None;
      }
      var offset := from - startSeq;
      var first, second := AsSlices();
      var out := [];
      if offset < |first| {
        out := first[offset..] + second;
      } else {
        out := second[offset - |first|..];
      }
      assert out == Contents()[offset..];
      reply := Some((from, out));
    }

    method Snapshot() returns (start: nat, bytes: seq<Byte>)
      requires Valid()
      ensures Window(start, nextSeq, bytes) == View()
    {
      var first, second := AsSlices();
      start, bytes := startSeq, first + second;
    }
  }
}
