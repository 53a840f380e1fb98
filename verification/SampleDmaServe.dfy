/** What one sample request does, and what whole runs of ticks and requests keep. */
module SampleDmaServe {
  import opened AudioBase
  import opened SampleDmaModel
  import opened SampleDmaProofs

  /** The compiled test, wrap-around included: containment, or a request larger than the buffer. */
  lemma HitsExact(b: Buffer, dev: nat, size: nat)
    requires dev < 0x8000_0000 && size < 0x8000_0000 && b.source < 0x8000_0000 && b.bufSize < 0x1_0000
    ensures Hits(b, dev, size) <==>
              b.source <= dev && (b.bufSize < size || dev + size <= b.source + b.bufSize)
  {
    if b.source <= dev {
      assert Sub32(dev, b.source) == dev - b.source;
    } else {
      assert Sub32(dev, b.source) == dev - b.source + 0x1_0000_0000;
    }
    if size <= b.bufSize {
      assert Sub32(b.bufSize, size) == b.bufSize - size;
    } else {
      assert Sub32(b.bufSize, size) == b.bufSize - size + 0x1_0000_0000;
    }
  }

  /** Requests the code can serve: 31-bit device addresses, and a size that fits after 16-byte alignment. */
  predicate Fits(r: Request) {
    r.dev < 0x8000_0000 && r.dev % 0x10 + r.size <= SHORT_SIZE
  }

  function ServedTtl(s: State, r: Request): byte
    requires Sized(s)
  {
    if IsHit(s, r) && SearchesLong(s, r) then LONG_TTL else SHORT_TTL
  }

  // ---------- queues ----------

  lemma HitQueues(s: State, rom: Rom, r: Request)
    requires Sized(s) && Queues(s) && IsHit(s, r)
    ensures var a := ServeRequest(s, rom, r); var h := Holder(s, r);
      && a.ref == h < s.n && Sized(a.state) && Queues(a.state) && a.state.ram == s.ram
      && (forall j :: 0 <= j < s.n && j != h ==> SameButSlot(a.state.bufs[j], s.bufs[j]))
      && a.state.bufs[h].ttl == ServedTtl(s, r) && SameData(a.state.bufs[h], s.bufs[h])
  {
    var h := Holder(s, r);
    var t := ServeRequest(s, rom, r).state;
    var ttl := ServedTtl(s, r);
    var (q, lo, hi) := if SearchesLong(s, r) then (s.q2, s.n1, s.n) else (s.q1, 0, s.n1);
    if s.bufs[h].ttl == 0 {
      UnlinkKeeps(s.bufs, q, lo, hi, h, ttl);
    } else {
      QueueFrame(q, s.bufs, s.bufs[h := s.bufs[h].(ttl := ttl)], lo, hi);
    }
    if SearchesLong(s, r) {
      UnlinkStaysInClass(s.bufs, s.q2, s.n1, s.n, h);
      QueueFrame(s.q1, s.bufs, t.bufs, 0, s.n1);
    } else {
      UnlinkStaysInClass(s.bufs, s.q1, 0, s.n1, h);
      QueueFrame(s.q2, s.bufs, t.bufs, s.n1, s.n);
    }
  }

  /** Swap-with-tail rewrites at most the reuseIndex of one buffer of the same class. */
  lemma UnlinkStaysInClass(bufs: seq<Buffer>, q: Queue, lo: nat, hi: nat, i: nat)
    requires QueueInv(q, bufs, lo, hi) && lo <= i < hi && q.slots[q.tail] < |bufs|
    ensures bufs[i].ttl == 0 ==> lo <= q.slots[q.tail] < hi
  {
    if bufs[i].ttl == 0 {
      assert Idle(bufs, i);
      assert InWindow(q, q.tail);
    }
  }

  lemma MissQueues(s: State, rom: Rom, r: Request)
    requires Sized(s) && Queues(s) && !IsHit(s, r) && !Underflows(s, r)
    ensures var a := ServeRequest(s, rom, r);
      && a.ref < s.n && Sized(a.state) && Queues(a.state)
      && (a.ref < s.n1 <==> PopsShort(s, r))
      && s.bufs[a.ref].ttl == 0
      && a.state.bufs == s.bufs[a.ref := s.bufs[a.ref].(ttl := SHORT_TTL, source := Aligned(r.dev),
                                                         size := s.bufs[a.ref].bufSize)]
      && a.state.ram == Transfer(s.ram, s.bufs[a.ref].ptr, rom, Aligned(r.dev), s.bufs[a.ref].bufSize)
  {
    var a := ServeRequest(s, rom, r);
    var (q, lo, hi) := if PopsShort(s, r) then (s.q1, 0, s.n1) else (s.q2, s.n1, s.n);
    PopKeeps(s.bufs, q, lo, hi, a.state.bufs[a.ref]);
    if PopsShort(s, r) {
      QueueFrame(s.q2, s.bufs, a.state.bufs, s.n1, s.n);
    } else {
      QueueFrame(s.q1, s.bufs, a.state.bufs, 0, s.n1);
    }
  }

  // ---------- RAM ----------

  /** A transfer into one live buffer makes it a ROM copy and leaves the others alone. */
  lemma RefillCoherent(s: State, rom: Rom, h: nat, base: nat, t: State)
    requires s.n1 == t.n1 <= s.n == t.n <= |s.bufs| == |t.bufs| && Layout(s) && Coherent(s, rom)
    requires h < s.n && base < 0x8000_0000
    requires t.bufs == s.bufs[h := s.bufs[h].(ttl := SHORT_TTL, source := base, size := s.bufs[h].bufSize)]
    requires t.ram == Transfer(s.ram, s.bufs[h].ptr, rom, base, s.bufs[h].bufSize)
    ensures Layout(t) && Coherent(t, rom)
  {
    forall i | 0 <= i < s.n
      ensures HoldsRom(t.bufs[i], t.ram, rom)
    {
      assert HoldsRom(s.bufs[i], s.ram, rom);
      if i < h {
        assert Apart(s.bufs[i], s.bufs[h]);
      } else if h < i {
        assert Apart(s.bufs[h], s.bufs[i]);
      }
    }
    forall i, j | 0 <= i < j < s.n
      ensures Apart(t.bufs[i], t.bufs[j])
    {
      assert Apart(s.bufs[i], s.bufs[j]);
    }
  }

  /** A request keeps the whole invariant, and says exactly which buffer it leased. */
  lemma ServeKeepsInv(s: State, rom: Rom, r: Request)
    requires Inv(s, rom) && r.dev < 0x8000_0000 && !Underflows(s, r)
    ensures var a := ServeRequest(s, rom, r);
      && a.ref < s.n && Inv(a.state, rom)
      && (forall j :: 0 <= j < s.n && j != a.ref ==> SameButSlot(a.state.bufs[j], s.bufs[j]))
      && a.state.bufs[a.ref].ttl == ServedTtl(s, r)
      && (IsHit(s, r) || s.bufs[a.ref].ttl == 0)
  {
    var a := ServeRequest(s, rom, r);
    var t := a.state;
    if IsHit(s, r) {
      HitQueues(s, rom, r);
      forall j | 0 <= j < s.n
        ensures SameData(t.bufs[j], s.bufs[j])
      {
        if j != a.ref {
          assert SameButSlot(t.bufs[j], s.bufs[j]);
        }
      }
      DataFrame(s, t, rom);
    } else {
      MissQueues(s, rom, r);
      RefillCoherent(s, rom, a.ref, Aligned(r.dev), t);
    }
    forall j | 0 <= j < s.n && j != a.ref
      ensures t.bufs[j].ttl == s.bufs[j].ttl
    {
      assert SameButSlot(t.bufs[j], s.bufs[j]);
    }
  }

  /** The unchecked pop of queue 1 is the only way to lose the invariant, and it always does. */
  lemma InvKeptIffNoUnderflow(s: State, rom: Rom, r: Request)
    requires Inv(s, rom) && r.dev < 0x8000_0000
    ensures Inv(ServeRequest(s, rom, r).state, rom) <==> !Underflows(s, r)
  {
    if Underflows(s, r) {
      var t := ServeRequest(s, rom, r).state;
      PopEmptyBreaks(t.bufs, s.q1, 0, s.n1);
    } else {
      ServeKeepsInv(s, rom, r);
    }
  }

  // ---------- the bytes a caller sees ----------

  ghost predicate Serves(a: Reply, rom: Rom, r: Request)
    requires 0 <= a.ptr && a.ptr + r.size <= |a.state.ram|
  {
    forall k :: a.ptr <= k < a.ptr + r.size ==> a.state.ram[k] == rom(r.dev + (k - a.ptr))
  }

  ghost predicate ReadsZero(rom: Rom, dev: nat, size: nat) {
    forall d: nat :: dev <= d < dev + size ==> rom(d) == 0
  }

  /** The reply points inside the buffer its reference names, and the bytes there are the ROM's,
      unless the search hit a buffer that was never filled (its source still reads 0). */
  lemma ServedBytes(s: State, rom: Rom, r: Request)
    requires Inv(s, rom) && Fits(r) && !Underflows(s, r)
    ensures var a := ServeRequest(s, rom, r);
      && a.ref < s.n
      && a.state.bufs[a.ref].ptr <= a.ptr
      && a.ptr + r.size <= a.state.bufs[a.ref].ptr + a.state.bufs[a.ref].bufSize <= |a.state.ram|
      && a.ptr - a.state.bufs[a.ref].ptr == r.dev - a.state.bufs[a.ref].source
      && (Serves(a, rom, r) <==>
            !(IsHit(s, r) && s.bufs[Holder(s, r)].size == 0) || ReadsZero(rom, r.dev, r.size))
  {
    hide Queues, Hits, Leased, Unlink;
    ServeKeepsInv(s, rom, r);
    var a := ServeRequest(s, rom, r);
    var b := a.state.bufs[a.ref];
    assert HoldsRom(b, a.state.ram, rom);
    if IsHit(s, r) {
      HitQueues(s, rom, r);
      assert HoldsRom(s.bufs[a.ref], s.ram, rom);
      HitsExact(s.bufs[a.ref], r.dev, r.size);
      if b.size == 0 {
        if Serves(a, rom, r) {
          forall d: nat | r.dev <= d < r.dev + r.size
            ensures rom(d) == 0
          {
            var k := a.ptr + (d - r.dev);
            assert a.state.ram[k] == rom(r.dev + (k - a.ptr)) && r.dev + (k - a.ptr) == d;
          }
        }
      }
    } else {
      MissQueues(s, rom, r);
    }
  }
}
