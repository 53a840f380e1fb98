/** What a sample request answers, in terms of the buffers before it: which buffer, which address,
    which bytes, and that every source stays 16-byte aligned. */
module SampleDmaAnswers {
  import opened AudioBase
  import opened SampleDmaModel
  import opened SampleDmaProofs
  import opened SampleDmaServe
  import opened SampleDmaRuns

  /** The buffer contains the request, or is too small to contain any request of that size. */
  predicate Covers(b: Buffer, r: Request) {
    b.source <= r.dev && (b.bufSize < r.size || r.dev + r.size <= b.source + b.bufSize)
  }

  /** The buffer a request is looked up in, if any: the first long one that covers it when the caller wants
      a long buffer or names none of the short ones, else the short one it names. */
  ghost predicate FoundIn(s: State, r: Request, h: nat)
    requires s.n1 <= s.n <= |s.bufs|
  {
    if r.long || s.n1 <= r.ref then
      s.n1 <= h < s.n && Covers(s.bufs[h], r) && forall j :: s.n1 <= j < h ==> !Covers(s.bufs[j], r)
    else h == r.ref && Covers(s.bufs[h], r)
  }

  /** 31-bit addresses and sizes, as the signed test assumes. */
  predicate Small(r: Request) {
    r.dev < 0x8000_0000 && r.size < 0x8000_0000
  }

  ghost predicate IdleBuffer(s: State, lo: nat, hi: nat)
    requires lo <= hi <= |s.bufs|
  {
    exists j :: lo <= j < hi && s.bufs[j].ttl == 0
  }

  /** Between two states only buffer h has changed, queue slots aside. */
  ghost predicate OthersKept(s: State, t: State, h: nat)
    requires s.n <= |s.bufs|
  {
    && |t.bufs| == |s.bufs| && t.n == s.n && t.n1 == s.n1
    && forall j :: 0 <= j < s.n && j != h ==> SameButSlot(t.bufs[j], s.bufs[j])
  }

  lemma HitsIsCovers(s: State, rom: Rom, r: Request, i: nat)
    requires Inv(s, rom) && Small(r) && i < s.n
    ensures Hits(s.bufs[i], r.dev, r.size) <==> Covers(s.bufs[i], r)
  {
    assert HoldsRom(s.bufs[i], s.ram, rom);
    HitsExact(s.bufs[i], r.dev, r.size);
  }

  /** The request is a hit exactly when some buffer is found, and then that one is used. */
  lemma FoundIsHolder(s: State, rom: Rom, r: Request, h: nat)
    requires Inv(s, rom) && Small(r)
    ensures FoundIn(s, r, h) ==> IsHit(s, r) && Holder(s, r) == h < s.n
    ensures IsHit(s, r) ==> FoundIn(s, r, Holder(s, r))
  {
    forall i | 0 <= i < s.n
      ensures Hits(s.bufs[i], r.dev, r.size) <==> Covers(s.bufs[i], r)
    {
      HitsIsCovers(s, rom, r, i);
    }
    hide Hits, Covers, Inv;
  }

  /** A found request moves no byte: the answer points into the buffer, which is leased anew. */
  lemma HitExact(s: State, rom: Rom, r: Request, h: nat)
    requires Inv(s, rom) && Small(r) && FoundIn(s, r, h)
    ensures var a := ServeRequest(s, rom, r);
      && a.ref == h && a.ptr == s.bufs[h].ptr + (r.dev - s.bufs[h].source)
      && a.state.ram == s.ram && OthersKept(s, a.state, h)
      && SameData(a.state.bufs[h], s.bufs[h])
      && a.state.bufs[h].ttl == if r.long || s.n1 <= r.ref then 60 else 2
  {
    FoundIsHolder(s, rom, r, h);
    HitQueues(s, rom, r);
    hide Inv, Hits, Covers, Queues;
  }

  lemma IdleIsListed(s: State, lo: nat, hi: nat, q: Queue)
    requires QueueInv(q, s.bufs, lo, hi)
    ensures IdleBuffer(s, lo, hi) <==> Count(q) != 0
  {
    CountIsIdle(q, s.bufs, lo, hi);
    if j :| lo <= j < hi && s.bufs[j].ttl == 0 {
      assert j in WithTtl(s.bufs, lo, hi, 0);
    }
    if Count(q) != 0 {
      var j :| j in WithTtl(s.bufs, lo, hi, 0);
      assert s.bufs[j].ttl == 0;
    }
  }

  /** A request found nowhere takes the idle buffer at its queue's tail: a long one if one is wanted and
      idle, else a short one. That buffer gets the 16-byte aligned ROM block around the address, and the
      answer is the address's place in it. */
  lemma MissExact(s: State, rom: Rom, r: Request)
    requires Inv(s, rom) && Small(r) && forall h: nat :: !FoundIn(s, r, h)
    requires (r.long && IdleBuffer(s, s.n1, s.n)) || IdleBuffer(s, 0, s.n1)
    ensures var a := ServeRequest(s, rom, r);
      var takesLong := r.long && IdleBuffer(s, s.n1, s.n);
      && a.ref < s.n && (s.n1 <= a.ref <==> takesLong)
      && a.ref == (if takesLong then s.q2.slots[s.q2.tail] else s.q1.slots[s.q1.tail])
      && s.bufs[a.ref].ttl == 0 && OthersKept(s, a.state, a.ref)
      && FilledFor(s, a, rom, r)
  {
    IdleIsListed(s, s.n1, s.n, s.q2);
    IdleIsListed(s, 0, s.n1, s.q1);
    FoundIsHolder(s, rom, r, Holder(s, r));
    MissQueues(s, rom, r);
    hide Queues, Hits, FoundIn, IdleBuffer, Coherent, Leased;
    AlignedBlock(r.dev);
    var a := ServeRequest(s, rom, r);
    assert a.state.ram == Transfer(s.ram, s.bufs[a.ref].ptr, rom, Aligned(r.dev), s.bufs[a.ref].bufSize);
  }

  /** The named buffer holds the aligned block, whole; no other byte has changed. */
  ghost predicate FilledFor(s: State, a: Reply, rom: Rom, r: Request)
    requires a.ref < |s.bufs| == |a.state.bufs|
  {
    var was, b := s.bufs[a.ref], a.state.bufs[a.ref];
    && b.source % 0x10 == 0 && b.source <= r.dev < b.source + 0x10
    && b.ptr == was.ptr && b.bufSize == b.size == was.bufSize && b.ttl == 2
    && a.ptr == b.ptr + r.dev % 0x10
    && |a.state.ram| == |s.ram|
    && forall k :: 0 <= k < |s.ram| ==>
         a.state.ram[k] == if b.ptr <= k < b.ptr + b.bufSize then rom(b.source + (k - b.ptr)) else s.ram[k]
  }

  lemma AlignedBlock(dev: nat)
    ensures Aligned(dev) % 0x10 == 0 && Aligned(dev) <= dev < Aligned(dev) + 0x10
    ensures dev - Aligned(dev) == dev % 0x10
  {
  }

  // ---------- alignment over runs ----------

  predicate SourcesAligned(s: State) {
    forall i :: 0 <= i < |s.bufs| ==> s.bufs[i].source % 0x10 == 0
  }

  predicate SameSources(bufs: seq<Buffer>, bufs': seq<Buffer>) {
    |bufs'| == |bufs| && forall i :: 0 <= i < |bufs| ==> bufs'[i].source == bufs[i].source
  }

  lemma {:induction false} AgeKeepsSources(bufs: seq<Buffer>, q: Queue, i: nat, hi: nat)
    requires |q.slots| == 0x100 && i <= hi <= |bufs| <= TABLE_ROWS
    ensures SameSources(bufs, AgeClass(bufs, q, i, hi).0)
    decreases hi - i
  {
    if i < hi {
      var next := Age(bufs, q, i);
      AgeKeepsSources(next.0, next.1, i + 1, hi);
    }
  }

  lemma StepAligned(s: State, rom: Rom, op: Op)
    requires Sized(s) && SourcesAligned(s)
    ensures SourcesAligned(Step(s, rom, op))
  {
    match op
    case Tick =>
      var first := AgeClass(s.bufs, s.q1, 0, s.n1);
      AgeKeepsSources(s.bufs, s.q1, 0, s.n1);
      AgeKeepsSources(first.0, s.q2, s.n1, s.n);
    case Serve(r) =>
      AlignedBlock(r.dev);
      hide IsHit, Holder, Aligned;
  }

  /** Every buffer's source is a multiple of 16 throughout every run, underflows included. */
  lemma {:induction false} SourcesStayAligned(s: State, rom: Rom, ops: seq<Op>)
    requires Sized(s) && SourcesAligned(s)
    ensures SourcesAligned(Run(s, rom, ops))
    decreases |ops|
  {
    hide SourcesAligned, Step;
    if ops != [] {
      StepAligned(s, rom, ops[0]);
      SourcesStayAligned(Step(s, rom, ops[0]), rom, ops[1..]);
    }
  }
}
