/** Queue agreement, ROM coherence, leases and the capacity bound of the sample-DMA cache. */
module SampleDmaProofs {
  import opened AudioBase
  import opened SampleDmaModel

  // ---------- the invariant ----------

  ghost predicate Idle(bufs: seq<Buffer>, i: nat)
    requires i < |bufs|
  {
    bufs[i].ttl == 0
  }

  /** The window of q lists exactly the idle (zero-TTL) buffers of lo..hi-1, each at its reuseIndex. */
  ghost predicate QueueInv(q: Queue, bufs: seq<Buffer>, lo: nat, hi: nat) {
    && |q.slots| == 0x100 && lo <= hi <= |bufs| <= TABLE_ROWS
    && (forall p: byte {:trigger InWindow(q, p)} :: InWindow(q, p) ==>
          lo <= q.slots[p] < hi && bufs[q.slots[p]].ttl == 0 && bufs[q.slots[p]].reuseIndex == p)
    && (forall i: nat {:trigger Idle(bufs, i)} :: lo <= i < hi && Idle(bufs, i) ==>
          InWindow(q, bufs[i].reuseIndex) && q.slots[bufs[i].reuseIndex] == i)
  }

  ghost predicate Apart(b: Buffer, c: Buffer) {
    b.ptr + b.bufSize <= c.ptr || c.ptr + c.bufSize <= b.ptr
  }

  /** Live buffers lie in RAM, do not overlap, and have the size of their class. */
  ghost predicate Layout(s: State)
    requires s.n1 <= s.n <= |s.bufs|
  {
    && (forall i :: 0 <= i < s.n ==>
          s.bufs[i].bufSize == (if i < s.n1 then SHORT_SIZE else LONG_SIZE)
          && s.bufs[i].ptr + s.bufs[i].bufSize <= |s.ram|)
    && (forall i, j :: 0 <= i < j < s.n ==> Apart(s.bufs[i], s.bufs[j]))
  }

  /** A buffer is either never filled (size 0, source 0, all zero) or a copy of ROM at its source. */
  ghost predicate HoldsRom(b: Buffer, ram: seq<byte>, rom: Rom)
    requires b.ptr + b.bufSize <= |ram|
  {
    && b.source < 0x8000_0000
    && if b.size == 0 then b.source == 0 && forall k :: b.ptr <= k < b.ptr + b.bufSize ==> ram[k] == 0
       else b.size == b.bufSize && forall k :: b.ptr <= k < b.ptr + b.bufSize ==> ram[k] == rom(b.source + (k - b.ptr))
  }

  ghost predicate Coherent(s: State, rom: Rom)
    requires s.n1 <= s.n <= |s.bufs| && Layout(s)
  {
    forall i :: 0 <= i < s.n ==> HoldsRom(s.bufs[i], s.ram, rom)
  }

  ghost predicate Leased(s: State)
    requires s.n1 <= s.n <= |s.bufs|
  {
    && (forall i :: 0 <= i < s.n1 ==> s.bufs[i].ttl <= SHORT_TTL)
    && (forall i :: s.n1 <= i < s.n ==> s.bufs[i].ttl <= LONG_TTL)
  }

  ghost predicate Queues(s: State)
    requires Sized(s)
  {
    QueueInv(s.q1, s.bufs, 0, s.n1) && QueueInv(s.q2, s.bufs, s.n1, s.n)
  }

  ghost predicate Inv(s: State, rom: Rom) {
    Sized(s) && Queues(s) && Layout(s) && Coherent(s, rom) && Leased(s)
  }

  // ---------- counting ----------

  ghost function WithTtl(bufs: seq<Buffer>, lo: nat, hi: nat, t: byte): set<nat>
    requires lo <= hi <= |bufs|
  {
    set i: nat | lo <= i < hi && bufs[i].ttl == t
  }

  function SlotAt(q: Queue, k: nat): byte
    requires k < 0x100
  {
    if q.tail + k < 0x100 then q.tail + k else q.tail + k - 0x100
  }

  /** The buffers listed by the first m slots of the window. */
  ghost function Listed(q: Queue, m: nat): set<nat>
    requires |q.slots| == 0x100 && m <= Count(q)
  {
    if m == 0 then {} else Listed(q, m - 1) + {q.slots[SlotAt(q, m - 1)] as nat}
  }

  /** The window slot numbered k, and the buffer in it. */
  lemma WindowSlot(q: Queue, bufs: seq<Buffer>, lo: nat, hi: nat, k: nat)
    requires QueueInv(q, bufs, lo, hi) && k < Count(q)
    ensures var i := q.slots[SlotAt(q, k)];
            lo <= i < hi && bufs[i].ttl == 0 && bufs[i].reuseIndex == SlotAt(q, k)
    ensures Dist(q.tail, SlotAt(q, k)) == k
  {
    assert InWindow(q, SlotAt(q, k));
  }

  lemma SlotOfDist(q: Queue, p: byte, k: nat)
    requires k < 0x100
    ensures Dist(q.tail, p) == k <==> p == SlotAt(q, k)
  {
  }

  /** Buffer i is idle, and its slot is one of the first m of the window. */
  ghost predicate IdleWithin(q: Queue, bufs: seq<Buffer>, lo: nat, hi: nat, m: nat, i: nat)
    requires hi <= |bufs|
  {
    lo <= i < hi && bufs[i].ttl == 0 && Dist(q.tail, bufs[i].reuseIndex) < m
  }

  /** Window slot k adds exactly the buffer in it. */
  lemma OneSlotMore(q: Queue, bufs: seq<Buffer>, lo: nat, hi: nat, k: nat, i: nat)
    requires QueueInv(q, bufs, lo, hi) && k < Count(q)
    ensures IdleWithin(q, bufs, lo, hi, k + 1, i) <==> IdleWithin(q, bufs, lo, hi, k, i) || i == q.slots[SlotAt(q, k)]
    ensures !IdleWithin(q, bufs, lo, hi, k, q.slots[SlotAt(q, k)])
  {
    WindowSlot(q, bufs, lo, hi, k);
    if IdleWithin(q, bufs, lo, hi, k + 1, i) {
      assert Idle(bufs, i);
      SlotOfDist(q, bufs[i].reuseIndex, k);
    }
  }

  lemma {:induction false} ListedExact(q: Queue, bufs: seq<Buffer>, lo: nat, hi: nat, m: nat)
    requires QueueInv(q, bufs, lo, hi) && m <= Count(q)
    ensures |Listed(q, m)| == m
    ensures forall i: nat :: i in Listed(q, m) <==> IdleWithin(q, bufs, lo, hi, m, i)
  {
    hide QueueInv, Dist;
    if m == 0 {
      return;
    }
    hide Listed, IdleWithin;
    ListedExact(q, bufs, lo, hi, m - 1);
    ListedNext(q, bufs, lo, hi, m - 1, m);
  }

  lemma ListedNext(q: Queue, bufs: seq<Buffer>, lo: nat, hi: nat, k: nat, m: nat)
    requires QueueInv(q, bufs, lo, hi) && k < Count(q) && m == k + 1
    requires forall i: nat :: i in Listed(q, k) <==> IdleWithin(q, bufs, lo, hi, k, i)
    ensures |Listed(q, m)| == |Listed(q, k)| + 1
    ensures forall i: nat :: i in Listed(q, m) <==> IdleWithin(q, bufs, lo, hi, m, i)
  {
    assert |q.slots| == 0x100 && lo <= hi <= |bufs|;
    var x: nat, before := q.slots[SlotAt(q, k)], Listed(q, k);
    assert Listed(q, m) == before + {x};
    OneSlotMore(q, bufs, lo, hi, k, x);
    hide *;
    forall i: nat
      ensures i in before + {x} <==> IdleWithin(q, bufs, lo, hi, m, i)
    {
      OneSlotMore(q, bufs, lo, hi, k, i);
    }
  }

  /** The length of a queue is the number of idle buffers of its class. */
  lemma CountIsIdle(q: Queue, bufs: seq<Buffer>, lo: nat, hi: nat)
    requires QueueInv(q, bufs, lo, hi)
    ensures Count(q) == |WithTtl(bufs, lo, hi, 0)|
  {
    ListedExact(q, bufs, lo, hi, Count(q));
    forall i: nat | lo <= i < hi
      ensures i in Listed(q, Count(q)) <==> i in WithTtl(bufs, lo, hi, 0)
    {
      if bufs[i].ttl == 0 {
        assert Idle(bufs, i);
      }
    }
    assert Listed(q, Count(q)) == WithTtl(bufs, lo, hi, 0);
  }

  lemma WithTtlStep(bufs: seq<Buffer>, lo: nat, hi: nat, t: byte)
    requires lo < hi <= |bufs|
    ensures |WithTtl(bufs, lo, hi, t)| == |WithTtl(bufs, lo, hi - 1, t)| + if bufs[hi - 1].ttl == t then 1 else 0
  {
    assert WithTtl(bufs, lo, hi, t) == WithTtl(bufs, lo, hi - 1, t) + if bufs[hi - 1].ttl == t then {hi - 1} else {};
  }

  lemma {:induction false} WithTtlBound(bufs: seq<Buffer>, lo: nat, hi: nat, t: byte)
    requires lo <= hi <= |bufs|
    ensures |WithTtl(bufs, lo, hi, t)| <= hi - lo
    decreases hi
  {
    if lo < hi {
      WithTtlStep(bufs, lo, hi, t);
      WithTtlBound(bufs, lo, hi - 1, t);
    }
  }

  lemma {:induction false} WithTtlMisses(bufs: seq<Buffer>, lo: nat, hi: nat, t: byte, i: nat)
    requires lo <= i < hi <= |bufs| && bufs[i].ttl != t
    ensures |WithTtl(bufs, lo, hi, t)| < hi - lo
    decreases hi
  {
    WithTtlStep(bufs, lo, hi, t);
    if i == hi - 1 {
      WithTtlBound(bufs, lo, hi - 1, t);
    } else {
      WithTtlMisses(bufs, lo, hi - 1, t, i);
    }
  }

  // ---------- one queue, one change ----------

  lemma QueueFrame(q: Queue, bufs: seq<Buffer>, bufs': seq<Buffer>, lo: nat, hi: nat)
    requires QueueInv(q, bufs, lo, hi) && |bufs'| == |bufs|
    requires forall i :: lo <= i < hi ==>
               (bufs'[i].ttl == 0 <==> bufs[i].ttl == 0) && bufs'[i].reuseIndex == bufs[i].reuseIndex
    ensures QueueInv(q, bufs', lo, hi)
  {
    forall i: nat | lo <= i < hi && Idle(bufs', i)
      ensures InWindow(q, bufs'[i].reuseIndex) && q.slots[bufs'[i].reuseIndex] == i
    {
      assert Idle(bufs, i);
    }
  }

  /** A buffer whose TTL has just run out joins at the head. */
  lemma PushKeeps(bufs: seq<Buffer>, aged: seq<Buffer>, q: Queue, lo: nat, hi: nat, i: byte)
    requires QueueInv(q, bufs, lo, hi) && lo <= i < hi && bufs[i].ttl != 0
    requires aged == bufs[i := bufs[i].(ttl := 0)]
    ensures QueueInv(Push(aged, q, i).1, Push(aged, q, i).0, lo, hi)
  {
    CountIsIdle(q, bufs, lo, hi);
    WithTtlMisses(bufs, lo, hi, 0, i);
    var (bufs', q') := Push(aged, q, i);
    assert Count(q') == Count(q) + 1;
    forall p: byte | InWindow(q', p)
      ensures lo <= q'.slots[p] < hi && bufs'[q'.slots[p]].ttl == 0 && bufs'[q'.slots[p]].reuseIndex == p
    {
      if p != q.head {
        assert InWindow(q, p);
      }
    }
    forall j: nat | lo <= j < hi && Idle(bufs', j)
      ensures InWindow(q', bufs'[j].reuseIndex) && q'.slots[bufs'[j].reuseIndex] == j
    {
      if j != i {
        assert Idle(bufs, j);
      }
    }
  }

  /** A listed buffer taken out by swap-with-tail and leased again leaves the queue exact. */
  lemma UnlinkKeeps(bufs: seq<Buffer>, q: Queue, lo: nat, hi: nat, i: nat, t: byte)
    requires QueueInv(q, bufs, lo, hi) && lo <= i < hi && bufs[i].ttl == 0 && t != 0
    requires q.slots[q.tail] < |bufs|
    ensures Count(q) != 0
    ensures var (bufs', q') := Unlink(bufs, q, i);
            QueueInv(q', bufs'[i := bufs'[i].(ttl := t)], lo, hi)
  {
    assert Idle(bufs, i);
    assert InWindow(q, q.tail);
    var (bufs1, q') := Unlink(bufs, q, i);
    var bufs' := bufs1[i := bufs1[i].(ttl := t)];
    var slot := bufs[i].reuseIndex;
    assert Count(q') == Count(q) - 1;
    forall p: byte | InWindow(q', p)
      ensures lo <= q'.slots[p] < hi && bufs'[q'.slots[p]].ttl == 0 && bufs'[q'.slots[p]].reuseIndex == p
    {
      assert InWindow(q, p);
    }
    forall j: nat | lo <= j < hi && Idle(bufs', j)
      ensures InWindow(q', bufs'[j].reuseIndex) && q'.slots[bufs'[j].reuseIndex] == j
    {
      assert Idle(bufs, j);
    }
  }

  /** Popping a non-empty queue yields an idle buffer of the class; leasing it keeps the queue exact. */
  lemma PopKeeps(bufs: seq<Buffer>, q: Queue, lo: nat, hi: nat, b: Buffer)
    requires QueueInv(q, bufs, lo, hi) && Count(q) != 0 && b.ttl != 0
    ensures var i := q.slots[q.tail];
            lo <= i < hi && bufs[i].ttl == 0 && QueueInv(q.(tail := Inc(q.tail)), bufs[i := b], lo, hi)
  {
    assert InWindow(q, q.tail);
    var i := q.slots[q.tail];
    var q' := q.(tail := Inc(q.tail));
    var bufs' := bufs[i := b];
    assert Count(q') == Count(q) - 1;
    forall p: byte | InWindow(q', p)
      ensures lo <= q'.slots[p] < hi && bufs'[q'.slots[p]].ttl == 0 && bufs'[q'.slots[p]].reuseIndex == p
    {
      assert InWindow(q, p) && p != q.tail;
    }
    forall j: nat | lo <= j < hi && Idle(bufs', j)
      ensures InWindow(q', bufs'[j].reuseIndex) && q'.slots[bufs'[j].reuseIndex] == j
    {
      assert Idle(bufs, j);
    }
  }

  /** Popping an empty queue leaves it claiming 255 entries, more than any class has. */
  lemma PopEmptyBreaks(bufs: seq<Buffer>, q: Queue, lo: nat, hi: nat)
    requires Count(q) == 0 && lo <= hi <= |bufs| <= TABLE_ROWS
    ensures !QueueInv(q.(tail := Inc(q.tail)), bufs, lo, hi)
  {
    var q' := q.(tail := Inc(q.tail));
    if QueueInv(q', bufs, lo, hi) {
      CountIsIdle(q', bufs, lo, hi);
      WithTtlBound(bufs, lo, hi, 0);
    }
  }

  // ---------- tick ----------

  /** Ticking a class: every TTL falls by one towards zero, nothing else but queue slots moves. */
  lemma {:induction false} AgeClassExact(bufs: seq<Buffer>, q: Queue, lo: nat, i: nat, hi: nat)
    requires QueueInv(q, bufs, lo, hi) && lo <= i <= hi
    ensures var (bufs', q') := AgeClass(bufs, q, i, hi);
      && QueueInv(q', bufs', lo, hi)
      && (forall j :: i <= j < hi ==>
            SameButSlot(bufs'[j], Aged(bufs[j])))
      && (forall j :: 0 <= j < |bufs| && !(i <= j < hi) ==> bufs'[j] == bufs[j])
    decreases hi - i
  {
    if i < hi {
      if bufs[i].ttl != 0 {
        var aged := bufs[i := bufs[i].(ttl := bufs[i].ttl - 1)];
        if aged[i].ttl == 0 {
          PushKeeps(bufs, aged, q, lo, hi, i);
        } else {
          QueueFrame(q, bufs, aged, lo, hi);
        }
      }
      var next := Age(bufs, q, i);
      AgeClassExact(next.0, next.1, lo, i + 1, hi);
    }
  }

  predicate SameData(b: Buffer, c: Buffer) {
    b.ptr == c.ptr && b.source == c.source && b.size == c.size && b.bufSize == c.bufSize
  }

  /** Layout and coherence look only at addresses, sources, sizes and RAM. */
  lemma DataFrame(s: State, t: State, rom: Rom)
    requires s.n1 == t.n1 <= s.n == t.n <= |s.bufs| == |t.bufs| && Layout(s) && Coherent(s, rom) && t.ram == s.ram
    requires forall i :: 0 <= i < s.n ==> SameData(t.bufs[i], s.bufs[i])
    ensures Layout(t) && Coherent(t, rom)
  {
    forall i, j | 0 <= i < j < s.n
      ensures Apart(t.bufs[i], t.bufs[j])
    {
      assert SameData(t.bufs[i], s.bufs[i]) && SameData(t.bufs[j], s.bufs[j]);
      assert Apart(s.bufs[i], s.bufs[j]);
    }
    forall i | 0 <= i < s.n
      ensures HoldsRom(t.bufs[i], t.ram, rom)
    {
      assert SameData(t.bufs[i], s.bufs[i]) && HoldsRom(s.bufs[i], s.ram, rom);
    }
  }

  function Aged(b: Buffer): Buffer {
    b.(ttl := if b.ttl == 0 then 0 else b.ttl - 1)
  }

  predicate SameButSlot(b: Buffer, c: Buffer) {
    b == c.(reuseIndex := b.reuseIndex)
  }

  /** A tick lowers every TTL by one towards zero and keeps both queues exact. */
  lemma TickQueues(s: State)
    requires Sized(s) && Queues(s)
    ensures var t := TickState(s);
      && Sized(t) && Queues(t) && t.ram == s.ram
      && forall j :: 0 <= j < s.n ==> SameButSlot(t.bufs[j], Aged(s.bufs[j]))
  {
    AgeClassExact(s.bufs, s.q1, 0, 0, s.n1);
    var first := AgeClass(s.bufs, s.q1, 0, s.n1);
    QueueFrame(s.q2, s.bufs, first.0, s.n1, s.n);
    AgeClassExact(first.0, s.q2, s.n1, s.n1, s.n);
    var second := AgeClass(first.0, s.q2, s.n1, s.n);
    QueueFrame(first.1, first.0, second.0, 0, s.n1);
    AgeClassKeepsSlots(s.bufs, s.q1, 0, s.n1);
    AgeClassKeepsSlots(first.0, s.q2, s.n1, s.n);
  }

  lemma TickKeepsInv(s: State, rom: Rom)
    requires Inv(s, rom)
    ensures Inv(TickState(s), rom)
  {
    TickQueues(s);
    var t := TickState(s);
    forall j | 0 <= j < s.n
      ensures SameData(t.bufs[j], s.bufs[j]) && t.bufs[j].ttl <= s.bufs[j].ttl
    {
      assert SameButSlot(t.bufs[j], Aged(s.bufs[j]));
    }
    DataFrame(s, t, rom);
  }

  // ---------- initial state ----------

  function FreshPtr(s: State, base: nat, i: nat): nat {
    if i < s.n1 then base + i * SHORT_SIZE else base + s.n1 * SHORT_SIZE + (i - s.n1) * LONG_SIZE
  }

  /** Buffers laid out one after another from base in zeroed RAM, all idle and listed in order. */
  ghost predicate FreshTable(s: State, base: nat)
    requires Sized(s)
  {
    && FreshPtr(s, base, s.n) <= |s.ram|
    && (forall k :: base <= k < FreshPtr(s, base, s.n) ==> s.ram[k] == 0)
    && s.q1.tail == s.q2.tail == 0 && s.q1.head == s.n1 && s.q2.head == s.n - s.n1
    && (forall i :: 0 <= i < s.n1 ==>
          s.q1.slots[i] == i && s.bufs[i] == Buffer(FreshPtr(s, base, i), 0, 0, SHORT_SIZE, i, 0))
    && (forall p :: 0 <= p < s.n - s.n1 ==> s.q2.slots[p] == p + s.n1)
    && (forall i :: s.n1 <= i < s.n ==> s.bufs[i] == Buffer(FreshPtr(s, base, i), 0, 0, LONG_SIZE, i - s.n1, 0))
  }

  lemma FreshTableInv(s: State, rom: Rom, base: nat)
    requires Sized(s) && FreshTable(s, base)
    ensures Inv(s, rom)
  {
    hide FreshTable, QueueInv, Layout, Coherent, Leased, HoldsRom;
    FreshLayout(s, base);
    FreshCoherent(s, rom, base);
    FreshQueues(s, base);
    FreshLeases(s, base);
  }

  /** Buffers follow one another up to the end of the allocated region. */
  lemma FreshLayout(s: State, base: nat)
    requires Sized(s) && FreshTable(s, base)
    ensures Layout(s) && forall i :: 0 <= i < s.n ==> base <= s.bufs[i].ptr && s.bufs[i].ptr + s.bufs[i].bufSize <= FreshPtr(s, base, s.n)
  {
    forall i, j | 0 <= i < j < s.n
      ensures Apart(s.bufs[i], s.bufs[j])
    {
    }
  }

  lemma FreshCoherent(s: State, rom: Rom, base: nat)
    requires Sized(s) && FreshTable(s, base) && Layout(s)
    requires forall i :: 0 <= i < s.n ==> base <= s.bufs[i].ptr && s.bufs[i].ptr + s.bufs[i].bufSize <= FreshPtr(s, base, s.n)
    ensures Coherent(s, rom)
  {
    hide Apart, FreshPtr;
  }

  lemma FreshQueues(s: State, base: nat)
    requires Sized(s) && FreshTable(s, base)
    ensures Queues(s)
  {
    hide FreshPtr;
  }

  lemma FreshLeases(s: State, base: nat)
    requires Sized(s) && FreshTable(s, base)
    ensures Leased(s)
  {
    hide FreshPtr;
  }
}
