/** The sample-DMA cache as the program keeps it: a record table, two 256-byte queues and
    their indices, all updated in place. Each operation is proved equal to its model. */
module SampleDma {
  import opened AudioBase
  import opened SampleDmaModel
  import opened SampleDmaProofs
  import opened SampleDmaRuns
  import opened AudioPool

  class SampleDmaCache {
    const rom: Rom
    const ram: array<byte>
    const bufs: array<Buffer>
    const queue1: array<byte>
    const queue2: array<byte>
    var tail1: byte
    var head1: byte
    var tail2: byte
    var head2: byte
    var n1: nat
    var n: nat

    predicate Shape() {
      && bufs.Length == TABLE_ROWS && queue1.Length == 0x100 && queue2.Length == 0x100
      && queue1 != queue2 && ram != queue1 && ram != queue2
    }

    function Model(): State
      reads this, bufs, queue1, queue2, ram
    {
      State(bufs[..], n1, n, Queue(queue1[..], tail1, head1), Queue(queue2[..], tail2, head2), ram[..])
    }

    predicate Valid()
      reads this, bufs, queue1, queue2, ram
    {
      Shape() && Sized(Model())
    }

    method DecreaseSampleDmaTtls()
      requires Valid()
      modifies bufs, queue1, queue2, `head1, `head2
      ensures Valid() && Model() == TickState(old(Model()))
    {
      assert n1 <= n <= TABLE_ROWS;
      hide AgeClass, Age, Sized;
      ghost var s := Model();
      AgeShort();
      AgeLong();
      TickSized(s);
    }

    method AgeShort()
      requires Shape() && n1 <= n <= TABLE_ROWS
      modifies bufs, queue1, `head1
      ensures Shape()
      ensures (bufs[..], Queue(queue1[..], tail1, head1)) == old(AgeClass(bufs[..], Queue(queue1[..], tail1, head1), 0, n1))
    {
      ghost var goal := AgeClass(bufs[..], Queue(queue1[..], tail1, head1), 0, n1);
      var i := 0;
      while i < n1
        invariant i <= n1 && AgeClass(bufs[..], Queue(queue1[..], tail1, head1), i, n1) == goal
      {
        ghost var next := Age(bufs[..], Queue(queue1[..], tail1, head1), i);
        if bufs[i].ttl != 0 {
          bufs[i] := bufs[i].(ttl := bufs[i].ttl - 1);
          if bufs[i].ttl == 0 {
            queue1[head1] := i;
            bufs[i] := bufs[i].(reuseIndex := head1);
            head1 := Inc(head1);
          }
        }
        assert bufs[..] == next.0 && queue1[..] == next.1.slots;
        i := i + 1;
      }
    }

    method AgeLong()
      requires Shape() && n1 <= n <= TABLE_ROWS
      modifies bufs, queue2, `head2
      ensures Shape()
      ensures (bufs[..], Queue(queue2[..], tail2, head2)) == old(AgeClass(bufs[..], Queue(queue2[..], tail2, head2), n1, n))
    {
      ghost var goal := AgeClass(bufs[..], Queue(queue2[..], tail2, head2), n1, n);
      var i := n1;
      while i < n
        invariant n1 <= i <= n && AgeClass(bufs[..], Queue(queue2[..], tail2, head2), i, n) == goal
      {
        ghost var next := Age(bufs[..], Queue(queue2[..], tail2, head2), i);
        if bufs[i].ttl != 0 {
          bufs[i] := bufs[i].(ttl := bufs[i].ttl - 1);
          if bufs[i].ttl == 0 {
            queue2[head2] := i;
            bufs[i] := bufs[i].(reuseIndex := head2);
            head2 := Inc(head2);
          }
        }
        assert bufs[..] == next.0 && queue2[..] == next.1.slots;
        i := i + 1;
      }
    }

    /** PI transfer of len bytes of ROM from base to RAM address p. */
    method StartDma(base: nat, p: nat, len: nat)
      modifies ram
      ensures ram[..] == Transfer(old(ram[..]), p, rom, base, len)
    {
      forall k | 0 <= k < ram.Length && p <= k < p + len {
        ram[k] := rom(base + (k - p));
      }
    }

    /** Takes short buffer i out of queue 1 by moving the tail entry into its slot. */
    method LeaveQueue1(i: byte)
      requires Valid() && i < n1
      modifies bufs, queue1, `tail1
      ensures (bufs[..], Queue(queue1[..], tail1, head1)) ==
              old(Unlink(bufs[..], Queue(queue1[..], tail1, head1), i))
    {
      ghost var next := Unlink(bufs[..], Queue(queue1[..], tail1, head1), i);
      if bufs[i].reuseIndex != tail1 {
        queue1[bufs[i].reuseIndex] := queue1[tail1];
        bufs[queue1[tail1]] := bufs[queue1[tail1]].(reuseIndex := bufs[i].reuseIndex);
      }
      tail1 := Inc(tail1);
      assert bufs[..] == next.0 && queue1[..] == next.1.slots;
    }

    method LeaveQueue2(i: byte)
      requires Valid() && i < n
      modifies bufs, queue2, `tail2
      ensures (bufs[..], Queue(queue2[..], tail2, head2)) ==
              old(Unlink(bufs[..], Queue(queue2[..], tail2, head2), i))
    {
      ghost var next := Unlink(bufs[..], Queue(queue2[..], tail2, head2), i);
      if bufs[i].reuseIndex != tail2 {
        queue2[bufs[i].reuseIndex] := queue2[tail2];
        bufs[queue2[tail2]] := bufs[queue2[tail2]].(reuseIndex := bufs[i].reuseIndex);
      }
      tail2 := Inc(tail2);
      assert bufs[..] == next.0 && queue2[..] == next.1.slots;
    }

    /** The first long buffer whose contents cover the request, or n. */
    method SearchLong(dev: nat, size: nat) returns (i: nat)
      requires Valid()
      ensures i == FindHit(bufs[..], n1, n, dev, size)
    {
      i := n1;
      while i < n && !Hits(bufs[i], dev, size)
        invariant n1 <= i <= n
        invariant FindHit(bufs[..], n1, n, dev, size) == FindHit(bufs[..], i, n, dev, size)
      {
        i := i + 1;
      }
    }

    /** Answers from a long buffer, taking it out of queue 2 if it was idle. */
    method UseLong(i: byte, dev: nat) returns (ptr: int, ref': byte)
      requires Valid() && n1 <= i < n
      modifies bufs, queue2, `tail2
      ensures Valid() && Reply(Model(), ptr, ref') == HitLong(old(Model()), i, Request(dev, 0, false, 0))
    {
      ghost var next := HitLong(Model(), i, Request(dev, 0, false, 0)).state;
      if bufs[i].ttl == 0 && tail2 != head2 {
        LeaveQueue2(i);
      }
      ptr, ref' := bufs[i].ptr + dev - bufs[i].source, i;
      bufs[i] := bufs[i].(ttl := LONG_TTL);
      assert bufs[..] == next.bufs;
    }

    /** Answers from the short buffer the caller named, taking it out of queue 1 if it was idle. */
    method UseShort(ref: byte, dev: nat) returns (ptr: int, ref': byte)
      requires Valid() && ref < n1
      modifies bufs, queue1, `tail1
      ensures Valid() && Reply(Model(), ptr, ref') == HitShort(old(Model()), Request(dev, 0, false, ref))
    {
      ghost var next := HitShort(Model(), Request(dev, 0, false, ref)).state;
      if bufs[ref].ttl == 0 {
        LeaveQueue1(ref);
      }
      ptr, ref' := bufs[ref].ptr + dev - bufs[ref].source, ref;
      bufs[ref] := bufs[ref].(ttl := SHORT_TTL);
      assert bufs[..] == next.bufs;
    }

    /** Returns the RAM address of the sample at ROM address dev, and the buffer that holds it. */
    method DmaSampleData(dev: nat, size: nat, long: bool, ref: byte) returns (ptr: int, ref': byte)
      requires Valid()
      modifies bufs, queue1, queue2, ram, `tail1, `tail2
      ensures Valid()
      ensures Reply(Model(), ptr, ref') == ServeRequest(old(Model()), rom, Request(dev, size, long, ref))
    {
      hide Hits, HitLong, HitShort, Refill;
      ghost var r := Request(dev, size, long, ref);
      var idx: byte := 0;
      var hasDma := false;
      if long || ref >= n1 {
        var i := SearchLong(dev, size);
        if i < n {
          SameAnswers(Model(), rom, i, r);
          ptr, ref' := UseLong(i, dev);
          return;
        }
        if head2 != tail2 && long {
          idx := queue2[tail2];
          tail2 := Inc(tail2);
          hasDma := true;
        }
      } else if Hits(bufs[ref], dev, size) {
        SameAnswers(Model(), rom, ref, r);
        ptr, ref' := UseShort(ref, dev);
        return;
      }
      if !hasDma {
        idx := queue1[tail1];
        tail1 := Inc(tail1);
      }
      SameAnswers(Model(), rom, idx, r);
      ptr, ref' := FillBuffer(idx, dev);
    }

    /** Leases buffer idx, starts the transfer of the aligned ROM block that contains dev, and answers. */
    method FillBuffer(idx: byte, dev: nat) returns (ptr: int, ref': byte)
      requires Valid() && idx < TABLE_ROWS
      modifies bufs, ram
      ensures Valid() && Reply(Model(), ptr, ref') == Refill(old(Model()), rom, idx, Request(dev, 0, false, 0))
    {
      ghost var next := Refill(Model(), rom, idx, Request(dev, 0, false, 0)).state;
      var transfer := bufs[idx].bufSize;
      bufs[idx] := bufs[idx].(ttl := SHORT_TTL, source := Aligned(dev), size := transfer);
      StartDma(Aligned(dev), bufs[idx].ptr, transfer);
      assert bufs[..] == next.bufs;
      ptr, ref' := dev - bufs[idx].source + bufs[idx].ptr, idx;
    }

    // ---------- initialisation ----------

    constructor (rom: Rom, ramSize: nat)
      ensures Valid() && fresh(bufs) && fresh(queue1) && fresh(queue2) && fresh(ram)
      ensures n == n1 == 0 && ram.Length == ramSize && this.rom == rom
    {
      this.rom := rom;
      ram := new byte[ramSize](_ => 0);
      bufs := new Buffer[TABLE_ROWS](_ => Buffer(0, 0, 0, 0, 0, 0));
      queue1 := new byte[0x100](_ => 0);
      queue2 := new byte[0x100](_ => 0);
      n1, n, tail1, head1, tail2, head2 := 0, 0, 0, 0, 0, 0;
      new;
      forall p: byte ensures queue1[p] == 0 && queue2[p] == 0 {}
    }

    /** One allocation loop: up to count buffers of the given size, until the pool runs out. */
    method AddBuffers(pool: Pool, count: nat, bufSize: nat)
      requires Valid() && pool.Valid(ram) && n1 <= n && n + count <= TABLE_ROWS
      requires bufSize == SHORT_SIZE || bufSize == LONG_SIZE
      modifies bufs, ram, `n, pool`cur
      ensures Valid() && pool.Valid(ram)
      ensures old(n) <= n <= old(n) + count
      ensures pool.cur == old(pool.cur) + (n - old(n)) * bufSize
      ensures n < old(n) + count ==> pool.start + pool.size < pool.cur + bufSize
      ensures forall i :: 0 <= i < old(n) ==> bufs[i] == old(bufs[i])
      ensures forall i :: old(n) <= i < n ==> SameData(bufs[i], Buffer(old(pool.cur) + (i - old(n)) * bufSize, 0, 0, bufSize, 0, 0))
      ensures forall i :: old(n) <= i < n ==> bufs[i].ttl == 0
      ensures forall k :: 0 <= k < ram.Length ==> ram[k] == if old(pool.cur) <= k < pool.cur then 0 else old(ram[k])
    {
      var i := 0;
      while i < count
        invariant i <= count && n == old(n) + i && Valid() && pool.Valid(ram)
        invariant pool.cur == old(pool.cur) + i * bufSize
        invariant forall j :: 0 <= j < old(n) ==> bufs[j] == old(bufs[j])
        invariant forall j :: old(n) <= j < n ==> SameData(bufs[j], Buffer(old(pool.cur) + (j - old(n)) * bufSize, 0, 0, bufSize, 0, 0))
        invariant forall j :: old(n) <= j < n ==> bufs[j].ttl == 0
        invariant forall k :: 0 <= k < ram.Length ==> ram[k] == if old(pool.cur) <= k < pool.cur then 0 else old(ram[k])
      {
        hide Sized, SameData;
        var ok := AddBuffer(pool, bufSize);
        if !ok {
          return;
        }
        i := i + 1;
      }
    }

    /** Allocates row n, or leaves it with a null pointer when memory has run out. */
    method AddBuffer(pool: Pool, bufSize: nat) returns (ok: bool)
      requires Valid() && pool.Valid(ram) && n1 <= n < TABLE_ROWS
      requires bufSize == SHORT_SIZE || bufSize == LONG_SIZE
      modifies bufs, ram, `n, pool`cur
      ensures Valid() && pool.Valid(ram)
      ensures ok == old(pool.Fits(bufSize)) && n == old(n) + (if ok then 1 else 0)
      ensures pool.cur == old(pool.cur) + (if ok then bufSize else 0)
      ensures forall i :: 0 <= i < old(n) ==> bufs[i] == old(bufs[i])
      ensures ok ==> SameData(bufs[old(n)], Buffer(old(pool.cur), 0, 0, bufSize, 0, 0)) && bufs[old(n)].ttl == 0
      ensures forall k :: 0 <= k < ram.Length ==> ram[k] == if old(pool.cur) <= k < pool.cur then 0 else old(ram[k])
    {
      assert Align16(bufSize) == bufSize;
      var p := pool.AllocZeroed(ram, bufSize);
      bufs[n] := bufs[n].(ptr := p);
      if p == 0 {
        return false;
      }
      bufs[n] := bufs[n].(source := 0, size := 0, ttl := 0, bufSize := bufSize);
      n := n + 1;
      return true;
    }

    /** Lists the short buffers in order from slot 0 and clears the slots from n on. */
    method FillQueue1()
      requires Valid()
      modifies bufs, queue1
      ensures Valid()
      ensures forall i :: 0 <= i < n ==> queue1[i] == i && bufs[i] == old(bufs[i]).(reuseIndex := i)
      ensures forall i :: n <= i < 0x100 ==> queue1[i] == 0
      ensures forall i :: n <= i < TABLE_ROWS ==> bufs[i] == old(bufs[i])
    {
      var i := 0;
      while i < n
        invariant i <= n && Valid()
        invariant forall j :: 0 <= j < i ==> queue1[j] == j && bufs[j] == old(bufs[j]).(reuseIndex := j)
        invariant forall j :: i <= j < TABLE_ROWS ==> bufs[j] == old(bufs[j])
      {
        queue1[i] := i;
        bufs[i] := bufs[i].(reuseIndex := i);
        i := i + 1;
      }
      ghost var done := bufs[..];
      while i < 0x100
        invariant n <= i <= 0x100 && Valid() && bufs[..] == done
        invariant forall j :: 0 <= j < 0x100 ==> (j < n ==> queue1[j] == j) && (n <= j < i ==> queue1[j] == 0)
      {
        queue1[i] := 0;
        i := i + 1;
      }
    }

    /** Lists the long buffers from slot 0 (queue 2 is offset by n1); the slots from n on get n1. */
    method FillQueue2()
      requires Valid() && n1 < TABLE_ROWS
      modifies bufs, queue2
      ensures Valid()
      ensures forall p :: 0 <= p < n - n1 ==> queue2[p] == p + n1
      ensures forall p :: n <= p < 0x100 ==> queue2[p] == n1
      ensures forall i :: n1 <= i < n ==> bufs[i] == old(bufs[i]).(reuseIndex := i - n1)
      ensures forall i :: 0 <= i < n1 ==> bufs[i] == old(bufs[i])
    {
      var i := n1;
      while i < n
        invariant n1 <= i <= n && Valid()
        invariant forall k :: 0 <= k < i - n1 ==> queue2[k] == k + n1
        invariant forall j :: n1 <= j < i ==> bufs[j] == old(bufs[j]).(reuseIndex := j - n1)
        invariant forall j :: 0 <= j < n1 || i <= j < TABLE_ROWS ==> bufs[j] == old(bufs[j])
      {
        queue2[i - n1] := i;
        bufs[i] := bufs[i].(reuseIndex := i - n1);
        i := i + 1;
      }
      ClearQueue2();
    }

    method ClearQueue2()
      requires Valid() && n1 < TABLE_ROWS
      modifies queue2
      ensures Valid() && forall p :: 0 <= p < 0x100 ==> queue2[p] == if n <= p then n1 else old(queue2[p])
    {
      var i := n;
      while i < 0x100
        invariant n <= i <= 0x100 && Valid()
        invariant forall p :: 0 <= p < 0x100 ==> queue2[p] == if n <= p < i then n1 else old(queue2[p])
      {
        queue2[i] := n1;
        i := i + 1;
      }
    }

    method InitShort(pool: Pool, count: nat)
      requires Valid() && pool.Valid(ram) && n == n1 == 0 && count <= TABLE_ROWS
      modifies bufs, queue1, ram, `n, `n1, `tail1, `head1, pool`cur
      ensures Valid() && pool.Valid(ram) && n1 == n <= count && tail1 == 0 && head1 == n1
      ensures pool.cur == old(pool.cur) + n * SHORT_SIZE
      ensures n < count ==> pool.start + pool.size < pool.cur + SHORT_SIZE
      ensures forall i :: 0 <= i < n ==>
                queue1[i] == i && bufs[i] == Buffer(old(pool.cur) + i * SHORT_SIZE, 0, 0, SHORT_SIZE, i, 0)
      ensures forall k :: old(pool.cur) <= k < pool.cur ==> ram[k] == 0
    {
      AddBuffers(pool, count, SHORT_SIZE);
      FillQueue1();
      tail1, head1 := 0, n;
      n1 := n;
    }

    method InitLong(pool: Pool, count: nat)
      requires Valid() && pool.Valid(ram) && n == n1 < TABLE_ROWS && n + count <= TABLE_ROWS
      modifies bufs, queue2, ram, `n, `tail2, `head2, pool`cur
      ensures Valid() && pool.Valid(ram) && n1 <= n <= n1 + count && tail2 == 0 && head2 == n - n1
      ensures pool.cur == old(pool.cur) + (n - n1) * LONG_SIZE
      ensures n - n1 < count ==> pool.start + pool.size < pool.cur + LONG_SIZE
      ensures forall p :: 0 <= p < n - n1 ==> queue2[p] == p + n1
      ensures forall i :: n1 <= i < n ==>
                bufs[i] == Buffer(old(pool.cur) + (i - n1) * LONG_SIZE, 0, 0, LONG_SIZE, i - n1, 0)
      ensures forall i :: 0 <= i < n1 ==> bufs[i] == old(bufs[i])
      ensures forall k :: 0 <= k < ram.Length ==> ram[k] == if old(pool.cur) <= k < pool.cur then 0 else old(ram[k])
    {
      AddBuffers(pool, count, LONG_SIZE);
      FillQueue2();
      tail2, head2 := 0, n - n1;
    }

    /** Builds both classes from the pool. However early memory runs out, the two queues are exact,
        every lease has run out, and short buffers precede long ones. */
    method InitSampleDmaBuffers(pool: Pool, maxNotes: nat, perNote: nat)
      requires Valid() && pool.Valid(ram) && n == n1 == 0
      requires maxNotes * 3 * perNote + maxNotes <= TABLE_ROWS
      modifies this, bufs, queue1, queue2, ram, pool`cur
      ensures Valid() && pool.Valid(ram) && Inv(Model(), rom)
      ensures Fresh(Model()) == Stale(Model()) == 0
      ensures forall i :: 0 <= i < n ==> bufs[i].ttl == 0 && bufs[i].size == 0
      ensures n1 <= maxNotes * 3 * perNote && n - n1 <= maxNotes
      ensures n1 < maxNotes * 3 * perNote ==> n == n1 && old(pool.start + pool.size) < pool.cur + SHORT_SIZE
      ensures n - n1 < maxNotes ==> old(pool.start + pool.size) < pool.cur + LONG_SIZE
      ensures pool.cur == old(pool.cur) + n1 * SHORT_SIZE + (n - n1) * LONG_SIZE
    {
      hide Inv, Fresh, Stale;
      ghost var base := pool.cur;
      InitShort(pool, maxNotes * 3 * perNote);
      InitLong(pool, maxNotes);
      FreshTableInv(Model(), rom, base);
      AllIdle(Model());
    }
  }
}
