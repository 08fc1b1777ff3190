/** The per-session output ring: a circular buffer that refines an append-only log. */
module Ring {

  type Byte = bv8

  const RING_CHUNK: nat := 65536

  function Min(a: nat, b: nat): nat
  {
    if a <= b then a else b
  }

  function Max(a: nat, b: nat): nat
  {
    if a >= b then a else b
  }

  // ----- the log the ring stands for -----

  /** Offset of the oldest byte a ring of capacity `cap` still holds. */
  function Oldest(total: nat, cap: nat): nat
  {
    if total <= cap then 0 else total - cap
  }

  /** Where a read at `from` really starts: at `from`, or at the oldest byte held. */
  function ReadStart(total: nat, cap: nat, from: nat): nat
  {
    Max(from, Oldest(total, cap))
  }

  /** Where it ends: at most one chunk further, never past the total. */
  function ReadEnd(total: nat, cap: nat, from: nat): nat
  {
    Min(total, ReadStart(total, cap, from) + RING_CHUNK)
  }

  /** The bytes a read at `from` returns; the new offset is `ReadEnd`. */
  function Read(log: seq<Byte>, cap: nat, from: nat): seq<Byte>
  {
    if ReadStart(|log|, cap, from) >= |log| then []
    else log[ReadStart(|log|, cap, from)..ReadEnd(|log|, cap, from)]
  }

  // ----- positions in the buffer -----

  /** Position `i` places after `head`, going round at most once. */
  function Slot(head: nat, i: nat, cap: nat): (r: nat)
    requires head < cap && i <= cap
    ensures r < cap
  {
    if head + i < cap then head + i else head + i - cap
  }

  lemma SlotIsMod(head: nat, i: nat, cap: nat)
    requires head < cap && i <= cap
    ensures (head + i) % cap == Slot(head, i, cap)
  {
    var x := head + i;
    MulBounds(x / cap, cap);
    assert x == (x / cap) * cap + x % cap;
  }

  lemma MulBounds(k: int, c: nat)
    ensures k >= 2 ==> k * c >= 2 * c
    ensures k < 0 ==> k * c <= 0 - c
  {
  }

  method Wrap(head: nat, i: nat, cap: nat) returns (r: nat)
    requires head < cap && i <= cap
    ensures r == Slot(head, i, cap)
  {
    SlotIsMod(head, i, cap);
    r := (head + i) % cap;
  }

  // ----- the ring -----

  class Ring {
    var buf: array<Byte>
    const cap: nat
    var head: nat
    var used: nat
    var tot: nat
    var done: bool
    ghost var log: seq<Byte>

    /** The `used` bytes from `head` on are the last `used` bytes of `bytes`. */
    ghost predicate Holds(bytes: seq<Byte>)
      reads this, buf
    {
      && cap > 0 && buf.Length == cap && head < cap
      && used == Min(|bytes|, cap)
      && forall i | 0 <= i < used :: buf[Slot(head, i, cap)] == bytes[|bytes| - used + i]
    }

    ghost predicate Valid()
      reads this, buf
    {
      Holds(log) && tot == |log|
    }

    constructor (capacity: nat)
      requires capacity > 0
      ensures Valid() && fresh(buf) && cap == capacity && log == [] && !done
    {
      buf := new Byte[capacity];
      cap := capacity;
      head, used, tot, done := 0, 0, 0, false;
      log := [];
    }

    /** One turn of the write loop. */
    method WriteByte(b: Byte, ghost bytes: seq<Byte>)
      requires Holds(bytes)
      modifies this`head, this`used, buf
      ensures Holds(bytes + [b])
    {
      var tail := Wrap(head, used, cap);
      buf[tail] := b;
      if used < cap {
        used := used + 1;
      } else {
        assert forall i | 1 <= i < cap :: buf[Slot(head, i, cap)] == bytes[|bytes| - cap + i];
        head := Wrap(head, 1, cap);
        assert forall i: nat | i < cap - 1 :: Slot(head, i, cap) == Slot(old(head), i + 1, cap);
      }
    }

    method Write(p: seq<Byte>)
      requires Valid()
      modifies this`head, this`used, this`tot, this`log, buf
      ensures Valid() && log == old(log) + p
    {
      if |p| == 0 {
        assert log == old(log) + p;
        return;
      }
      assert log + p[..0] == log;
      for i := 0 to |p|
        invariant log == old(log) && tot == old(tot)
        invariant Holds(log + p[..i])
      {
        WriteByte(p[i], log + p[..i]);
        assert log + p[..i] + [p[i]] == log + p[..i + 1];
      }
      assert p[..|p|] == p;
      tot := tot + |p|;
      log := log + p;
    }

    method Close()
      requires Valid()
      modifies this`done
      ensures Valid() && done
    {
      done := true;
    }

    method OldestLocked() returns (oldest: nat)
      requires Valid()
      ensures oldest == Oldest(|log|, cap)
    {
      oldest := if used >= tot then 0 else tot - used;
    }

    /** The byte at log offset `o`, if still held, sits `o - oldest` places after the head. */
    lemma HeldAt(o: nat)
      requires Valid() && Oldest(tot, cap) <= o < tot
      ensures buf[Slot(head, o - Oldest(tot, cap), cap)] == log[o]
    {
    }

    /** The copy loop of snapshotLocked. */
    method CopyOut(from: nat, n: nat) returns (data: seq<Byte>)
      requires Valid() && Oldest(tot, cap) <= from && from + n <= tot
      ensures data == log[from..from + n]
    {
      var start := Wrap(head, from - Oldest(tot, cap), cap);
      data := [];
      for i := 0 to n
        invariant |data| == i && forall k | 0 <= k < i :: data[k] == log[from + k]
      {
        var at := Wrap(start, i, cap);
        HeldAt(from + i);
        data := data + [buf[at]];
      }
    }

    /** snapshotLocked: exactly the log slice, across the wrap-around. */
    method SnapshotLocked(from0: nat) returns (data: seq<Byte>, newOff: nat)
      requires Valid()
      ensures data == Read(log, cap, from0)
      ensures newOff == ReadEnd(|log|, cap, from0)
    {
      var oldest := OldestLocked();
      var from := from0;
      if from < oldest {
        from := oldest;
      }
      if from >= tot {
        return [], tot;
      }
      var n := tot - from;
      if n > RING_CHUNK {
        n := RING_CHUNK;
      }
      data := CopyOut(from, n);
      newOff := from + n;
    }

    /** WaitNext once its wait condition holds: data past `from`, or a closed ring. */
    method WaitNext(from: nat) returns (data: seq<Byte>, newOff: nat, isDone: bool)
      requires Valid() && (from != tot || done)
      ensures data == Read(log, cap, from) && newOff == ReadEnd(|log|, cap, from) && isDone == done
    {
      data, newOff := SnapshotLocked(from);
      isDone := done;
    }

    /**
      streamRingToWriter over a closed ring and a connection that stays up: everything from the
      requested offset (or from the oldest byte held) to the end, in order, and then it stops.
     */
    method StreamClosed(from: nat) returns (sent: seq<Byte>)
      requires Valid() && done
      ensures ReadStart(|log|, cap, from) >= |log| ==> sent == []
      ensures ReadStart(|log|, cap, from) < |log| ==> sent == log[ReadStart(|log|, cap, from)..]
    {
      var off: nat := from;
      sent := [];
      ghost var start := ReadStart(|log|, cap, from);
      var data, newOff, isDone := WaitNext(off);
      while !(isDone && |data| == 0)
        invariant data == Read(log, cap, off) && newOff == ReadEnd(|log|, cap, off) && isDone
        invariant (off == from && sent == []) || (start <= off <= |log| && sent == log[start..off])
        decreases |log| + 1 - Min(off, |log| + 1)
      {
        off := newOff;
        sent := sent + data;
        data, newOff, isDone := WaitNext(off);
      }
    }
  }
}
