/** The ring's copy routines on arrays: two-part copies in and out, and the refusing write. */
module RingCopy {
  import opened RingModel

  method MemCopy(dst: array<int>, dstAt: nat, src: array<int>, srcAt: nat, n: nat)
    requires dst != src && dstAt + n <= dst.Length && srcAt + n <= src.Length
    modifies dst
    ensures forall i :: 0 <= i < dst.Length ==>
              dst[i] == if dstAt <= i < dstAt + n then src[srcAt + (i - dstAt)] else old(dst[i])
  {
    for k := 0 to n
      invariant forall i :: 0 <= i < dst.Length ==>
                  dst[i] == if dstAt <= i < dstAt + k then src[srcAt + (i - dstAt)] else old(dst[i])
    {
      dst[dstAt + k] := src[srcAt + k];
    }
  }

  method Write(ring: array<int>, position: nat, samples: array<int>, count: nat)
    requires ring != samples && count <= ring.Length && count <= samples.Length
    modifies ring
    ensures count == 0 ==> ring[..] == old(ring[..])
    ensures count != 0 ==> ring[..] == Laid(old(ring[..]), position % ring.Length, samples[..count])
  {
    if count == 0 {
      return;
    }
    var offset := position % ring.Length;
    var first := if count < ring.Length - offset then count else ring.Length - offset;
    MemCopy(ring, offset, samples, 0, first);
    if count > first {
      MemCopy(ring, 0, samples, first, count - first);
    }
    ghost var goal := Laid(old(ring[..]), offset, samples[..count]);
    assert forall i :: 0 <= i < ring.Length ==> ring[i] == goal[i];
  }

  /** A peek: no counter moves. */
  method Read(ring: array<int>, position: nat, samples: array<int>, count: nat)
    requires ring != samples && count <= ring.Length && count <= samples.Length
    modifies samples
    ensures count != 0 ==> samples[..count] == Found(ring[..], position % ring.Length, count)
    ensures samples[count..] == old(samples[count..])
  {
    if count == 0 {
      return;
    }
    var offset := position % ring.Length;
    var first := if count < ring.Length - offset then count else ring.Length - offset;
    MemCopy(samples, 0, ring, offset, first);
    if count > first {
      MemCopy(samples, first, ring, 0, count - first);
    }
  }

  class PcmRing {
    const ring: array<int>
    var readPosition: nat
    var writePosition: nat

    function Model(): Ring
      reads this, ring
    {
      Ring(ring[..], readPosition, writePosition)
    }

    predicate Valid()
      reads this, ring
    {
      Sized(Model()) && Fill(Model()) <= ring.Length
    }

    constructor (capacity: nat)
      requires capacity < WRAP
      ensures Valid() && Holds(Model(), []) && ring.Length == capacity && readPosition == 0 && fresh(ring)
    {
      ring := new int[capacity](_ => 0);
      readPosition, writePosition := 0, 0;
    }

    /** Takes all the samples, or none of them when they do not fit. */
    method TryWrite(samples: array<int>, count: nat) returns (ok: bool)
      requires Valid() && samples != ring && count <= samples.Length
      modifies this`writePosition, ring
      ensures Valid() && (Model(), ok) == RingModel.TryWrite(old(Model()), samples[..count])
    {
      FillBounds(Model(), Op.Offer(samples[..count]));
      var fill := Sub64(writePosition, readPosition);
      if count > ring.Length - fill {
        return false;
      }
      Write(ring, writePosition, samples, count);
      writePosition := Add64(writePosition, count);
      return true;
    }

    /** Hands count samples to the device if that many wait, and commits them only if it took them. */
    method Submit(buffer: array<int>, count: nat, taken: bool) returns (played: bool)
      requires Valid() && buffer != ring && count <= buffer.Length
      modifies this`readPosition, buffer
      ensures Valid()
      ensures var (s, answer) := Step(old(Model()), Op.Submit(count, taken));
        Model() == s && answer == if played then Played(buffer[..count]) else Waiting
    {
      FillBounds(Model(), Op.Submit(count, taken));
      if Fill(Model()) < count {
        return false;
      }
      Read(ring, readPosition, buffer, count);
      if taken {
        readPosition := Add64(readPosition, count);
      }
      return true;
    }
  }
}
