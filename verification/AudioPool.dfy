/** The bump allocator behind every audio pool. */
module AudioPool {
  import opened AudioBase

  /** start..start+size in emulated RAM, allocated up to cur. Address 0 is the null pointer. */
  class Pool {
    var start: nat
    var cur: nat
    var size: nat

    predicate Valid(ram: array<byte>)
      reads this
    {
      0 < start <= cur <= start + size <= ram.Length
    }

    predicate Fits(n: nat)
      reads this
    {
      cur + Align16(n) <= start + size
    }

    /** Hands out the next 16-byte-rounded region, zeroed, or null when it does not fit. */
    method AllocZeroed(ram: array<byte>, n: nat) returns (p: nat)
      requires Valid(ram)
      modifies this`cur, ram
      ensures Valid(ram) && (p != 0 <==> old(Fits(n)))
      ensures p == 0 ==> cur == old(cur) && ram[..] == old(ram[..])
      ensures p != 0 ==> p == old(cur) && cur == p + Align16(n) <= start + size
      ensures p != 0 ==> forall k :: 0 <= k < ram.Length ==> ram[k] == if p <= k < cur then 0 else old(ram[k])
    {
      var rounded := Align16(n);
      if start + size < cur + rounded {
        return 0;
      }
      p := cur;
      cur := cur + rounded;
      var pos := p;
      while pos < cur
        invariant p <= pos <= cur == p + rounded
        invariant forall k :: 0 <= k < ram.Length ==> ram[k] == if p <= k < pos then 0 else old(ram[k])
      {
        ram[pos] := 0;
        pos := pos + 1;
      }
    }
  }
}
