/** Whole runs of ticks and requests: safety, leases, capacity and agreement with ROM. */
module SampleDmaRuns {
  import opened AudioBase
  import opened SampleDmaModel
  import opened SampleDmaProofs
  import opened SampleDmaServe

  predicate Addressable(ops: seq<Op>) {
    forall i :: 0 <= i < |ops| && ops[i].Serve? ==> ops[i].request.dev < 0x8000_0000
  }

  lemma StepKeepsInv(s: State, rom: Rom, op: Op)
    requires Inv(s, rom) && (op.Serve? ==> op.request.dev < 0x8000_0000 && !Underflows(s, op.request))
    ensures Inv(Step(s, rom, op), rom)
  {
    match op
    case Tick => TickKeepsInv(s, rom);
    case Serve(r) => ServeKeepsInv(s, rom, r);
  }

  /** Without underflow the invariant holds throughout a run. */
  lemma {:induction false} RunKeepsInv(s: State, rom: Rom, ops: seq<Op>)
    requires Inv(s, rom) && Addressable(ops) && NoUnderflow(s, rom, ops)
    ensures Inv(Run(s, rom, ops), rom)
    decreases |ops|
  {
    if ops != [] {
      StepKeepsInv(s, rom, ops[0]);
      RunKeepsInv(Step(s, rom, ops[0]), rom, ops[1..]);
    }
  }

  // ---------- leases ----------

  /** A buffer with t ticks of lease left keeps its place, source and bytes through any run of
      fewer than t ticks, whatever is requested meanwhile. */
  lemma {:induction false} LeaseHolds(s: State, rom: Rom, ops: seq<Op>, i: nat, t: byte)
    requires Inv(s, rom) && Addressable(ops) && NoUnderflow(s, rom, ops)
    requires i < s.n && Ticks(ops) < t <= s.bufs[i].ttl
    ensures var u := Run(s, rom, ops);
      && SameData(u.bufs[i], s.bufs[i])
      && t - Ticks(ops) <= u.bufs[i].ttl
      && forall k :: s.bufs[i].ptr <= k < s.bufs[i].ptr + s.bufs[i].bufSize ==> u.ram[k] == s.ram[k]
    decreases |ops|
  {
    if ops != [] {
      var op := ops[0];
      var next := Step(s, rom, op);
      StepKeepsInv(s, rom, op);
      match op {
        case Tick =>
          TickQueues(s);
          assert SameButSlot(next.bufs[i], Aged(s.bufs[i]));
          LeaseHolds(next, rom, ops[1..], i, t - 1);
        case Serve(r) =>
          ServeKeepsLeased(s, rom, r, i);
          LeaseHolds(next, rom, ops[1..], i, t);
      }
    }
  }

  /** One request never refills, nor shortens the lease of, a leased buffer. */
  lemma ServeKeepsLeased(s: State, rom: Rom, r: Request, i: nat)
    requires Inv(s, rom) && r.dev < 0x8000_0000 && !Underflows(s, r)
    requires i < s.n && s.bufs[i].ttl != 0
    ensures var u := ServeRequest(s, rom, r).state;
      && SameData(u.bufs[i], s.bufs[i]) && s.bufs[i].ttl <= u.bufs[i].ttl
      && forall k :: s.bufs[i].ptr <= k < s.bufs[i].ptr + s.bufs[i].bufSize ==> u.ram[k] == s.ram[k]
  {
    ServeKeepsInv(s, rom, r);
    var a := ServeRequest(s, rom, r);
    if IsHit(s, r) {
      HitQueues(s, rom, r);
      if i != a.ref {
        assert SameButSlot(a.state.bufs[i], s.bufs[i]);
      }
    } else {
      MissQueues(s, rom, r);
      assert i != a.ref;
      if i < a.ref {
        assert Apart(s.bufs[i], s.bufs[a.ref]);
      } else {
        assert Apart(s.bufs[a.ref], s.bufs[i]);
      }
    }
  }

  // ---------- capacity of queue 1 ----------

  /** Every short buffer has TTL 0, 1 or 2, so the three counts add up. */
  lemma {:induction false} TtlCounts(bufs: seq<Buffer>, hi: nat)
    requires hi <= |bufs| && forall i :: 0 <= i < hi ==> bufs[i].ttl <= SHORT_TTL
    ensures |WithTtl(bufs, 0, hi, 0)| + |WithTtl(bufs, 0, hi, 1)| + |WithTtl(bufs, 0, hi, 2)| == hi
  {
    if hi > 0 {
      TtlCounts(bufs, hi - 1);
      WithTtlStep(bufs, 0, hi, 0);
      WithTtlStep(bufs, 0, hi, 1);
      WithTtlStep(bufs, 0, hi, 2);
    }
  }

  lemma {:induction false} SubsetSize<T>(a: set<T>, b: set<T>)
    requires a <= b
    ensures |a| <= |b|
  {
    if a != {} {
      var x :| x in a;
      SubsetSize(a - {x}, b - {x});
    }
  }

  /** Short buffers leased in this epoch (TTL 2) and in the one before (TTL 1). */
  ghost function Fresh(s: State): nat
    requires s.n1 <= |s.bufs|
  {
    |WithTtl(s.bufs, 0, s.n1, 2)|
  }

  ghost function Stale(s: State): nat
    requires s.n1 <= |s.bufs|
  {
    |WithTtl(s.bufs, 0, s.n1, 1)|
  }

  lemma AllIdle(s: State)
    requires Sized(s) && forall i :: 0 <= i < s.n ==> s.bufs[i].ttl == 0
    ensures Fresh(s) == Stale(s) == 0
  {
    assert WithTtl(s.bufs, 0, s.n1, 1) == WithTtl(s.bufs, 0, s.n1, 2) == {};
  }

  lemma TickAges(s: State)
    requires Sized(s) && Queues(s) && Leased(s)
    ensures Stale(TickState(s)) == Fresh(s) && Fresh(TickState(s)) == 0
  {
    TickQueues(s);
    var t := TickState(s);
    forall i | 0 <= i < s.n1
      ensures t.bufs[i].ttl == Aged(s.bufs[i]).ttl
    {
      assert SameButSlot(t.bufs[i], Aged(s.bufs[i]));
    }
    assert WithTtl(t.bufs, 0, s.n1, 1) == WithTtl(s.bufs, 0, s.n1, 2);
    assert WithTtl(t.bufs, 0, s.n1, 2) == {};
  }

  lemma ServeLeasesOne(s: State, rom: Rom, r: Request)
    requires Inv(s, rom) && r.dev < 0x8000_0000 && !Underflows(s, r)
    ensures var t := ServeRequest(s, rom, r).state;
      Stale(t) <= Stale(s) && Fresh(t) <= Fresh(s) + 1
  {
    ServeKeepsInv(s, rom, r);
    var a := ServeRequest(s, rom, r);
    var t := a.state;
    forall j | 0 <= j < s.n1 && j != a.ref
      ensures t.bufs[j].ttl == s.bufs[j].ttl
    {
      assert SameButSlot(t.bufs[j], s.bufs[j]);
    }
    SubsetSize(WithTtl(t.bufs, 0, s.n1, 1), WithTtl(s.bufs, 0, s.n1, 1));
    SubsetSize(WithTtl(t.bufs, 0, s.n1, 2), WithTtl(s.bufs, 0, s.n1, 2) + {a.ref as nat});
  }

  /** Leased short buffers fit two epochs of k requests, used of them in the current one. */
  ghost predicate WithinPace(s: State, rom: Rom, k: nat, used: nat) {
    Inv(s, rom) && 2 * k <= s.n1 && Stale(s) <= k && Fresh(s) <= used <= k
  }

  lemma PacedTick(s: State, rom: Rom, k: nat, used: nat)
    requires WithinPace(s, rom, k, used)
    ensures WithinPace(TickState(s), rom, k, 0)
  {
    TickAges(s);
    TickKeepsInv(s, rom);
  }

  lemma PacedServe(s: State, rom: Rom, r: Request, k: nat, used: nat)
    requires WithinPace(s, rom, k, used) && used < k && r.dev < 0x8000_0000
    ensures !Underflows(s, r) && WithinPace(ServeRequest(s, rom, r).state, rom, k, used + 1)
  {
    TtlCounts(s.bufs, s.n1);
    CountIsIdle(s.q1, s.bufs, 0, s.n1);
    ServeLeasesOne(s, rom, r);
    ServeKeepsInv(s, rom, r);
  }

  /** With at most k requests between ticks and 2k short buffers, queue 1 is never popped empty. */
  lemma {:induction false} PacedNeverUnderflows(s: State, rom: Rom, ops: seq<Op>, k: nat, used: nat)
    requires WithinPace(s, rom, k, used) && Addressable(ops) && Paced(ops, k, used)
    ensures NoUnderflow(s, rom, ops)
    decreases |ops|
  {
    if ops != [] {
      var rest := ops[1..];
      assert Addressable(rest);
      match ops[0] {
        case Tick =>
          PacedTick(s, rom, k, used);
          PacedNeverUnderflows(Step(s, rom, Tick), rom, rest, k, 0);
        case Serve(r) =>
          PacedServe(s, rom, r, k, used);
          PacedNeverUnderflows(Step(s, rom, Serve(r)), rom, rest, k, used + 1);
      }
    }
  }

  // ---------- the bound 2k is sharp ----------

  function Burst(r: Request, m: nat): seq<Op> {
    if m == 0 then [] else [Serve(r)] + Burst(r, m - 1)
  }

  /** No long buffer covers the request, and it names no short one: it has to pop queue 1. */
  predicate MustPop(s: State, r: Request)
    requires Sized(s)
  {
    s.n1 <= r.ref && !r.long && forall i :: s.n1 <= i < s.n ==> !Hits(s.bufs[i], r.dev, r.size)
  }

  /** Refilling a short buffer or ageing covers no more addresses by long ones. */
  lemma StillMustPop(s: State, t: State, r: Request)
    requires Sized(s) && Sized(t) && MustPop(s, r) && t.n == s.n && t.n1 == s.n1
    requires forall i :: s.n1 <= i < s.n ==> t.bufs[i].source == s.bufs[i].source && t.bufs[i].bufSize == s.bufs[i].bufSize
    ensures MustPop(t, r)
  {
    forall i | t.n1 <= i < t.n
      ensures !Hits(t.bufs[i], r.dev, r.size)
    {
      assert !Hits(s.bufs[i], r.dev, r.size);
    }
  }

  lemma PopsOne(s: State, rom: Rom, r: Request)
    requires Inv(s, rom) && MustPop(s, r) && r.dev < 0x8000_0000
    ensures Underflows(s, r) <==> Count(s.q1) == 0
    ensures Count(s.q1) != 0 ==>
              var t := ServeRequest(s, rom, r).state;
              Inv(t, rom) && MustPop(t, r) && Count(t.q1) == Count(s.q1) - 1 && Stale(t) == Stale(s)
  {
    hide Hits;
    if Count(s.q1) != 0 {
      var a := ServeRequest(s, rom, r);
      ServeKeepsInv(s, rom, r);
      MissQueues(s, rom, r);
      assert WithTtl(a.state.bufs, 0, s.n1, 1) == WithTtl(s.bufs, 0, s.n1, 1);
      StillMustPop(s, a.state, r);
    }
  }

  /** Such requests drain queue 1 one by one. */
  lemma {:induction false} BurstDrains(s: State, rom: Rom, r: Request, m: nat)
    requires Inv(s, rom) && MustPop(s, r) && r.dev < 0x8000_0000
    ensures NoUnderflow(s, rom, Burst(r, m)) <==> m <= Count(s.q1)
    ensures m <= Count(s.q1) ==>
              var t := Run(s, rom, Burst(r, m));
              Inv(t, rom) && MustPop(t, r) && Count(t.q1) == Count(s.q1) - m && Stale(t) == Stale(s)
    decreases m
  {
    hide MustPop, ServeRequest, Underflows, Stale, Queues, Layout, Coherent, Leased, Count;
    if m > 0 {
      assert Burst(r, m)[0] == Serve(r) && Burst(r, m)[1..] == Burst(r, m - 1);
      PopsOne(s, rom, r);
      if Count(s.q1) != 0 {
        BurstDrains(ServeRequest(s, rom, r).state, rom, r, m - 1);
      }
    }
  }

  lemma {:induction false} RunAppend(s: State, rom: Rom, a: seq<Op>, b: seq<Op>)
    requires Sized(s)
    ensures Run(s, rom, a + b) == Run(Run(s, rom, a), rom, b)
    ensures NoUnderflow(s, rom, a + b) <==> NoUnderflow(s, rom, a) && NoUnderflow(Run(s, rom, a), rom, b)
    decreases |a|
  {
    if a == [] {
      assert a + b == b;
    } else {
      assert (a + b)[0] == a[0] && (a + b)[1..] == a[1..] + b;
      RunAppend(Step(s, rom, a[0]), rom, a[1..], b);
    }
  }

  lemma {:induction false} BurstPaced(r: Request, m: nat, rest: seq<Op>, k: nat, used: nat)
    requires used + m <= k && Paced(rest, k, used + m)
    ensures Paced(Burst(r, m) + rest, k, used)
  {
    if m == 0 {
      assert Burst(r, m) + rest == rest;
    } else {
      BurstPaced(r, m - 1, rest, k, used + 1);
      assert (Burst(r, m) + rest)[1..] == Burst(r, m - 1) + rest;
    }
  }

  /** With any number of short buffers below 2k, and however many long ones, k requests that no buffer
      covers, a tick and k more of them underflow. */
  lemma CapacityIsSharp(s: State, rom: Rom, r: Request, k: nat)
    requires Inv(s, rom) && s.n1 < 2 * k && Fresh(s) == Stale(s) == 0
    requires MustPop(s, r) && r.dev < 0x8000_0000
    ensures var ops := Burst(r, k) + ([Tick] + Burst(r, k));
      Paced(ops, k, 0) && !NoUnderflow(s, rom, ops)
  {
    var tail := [Tick] + Burst(r, k);
    BurstPaced(r, k, [], k, 0);
    assert Burst(r, k) + [] == Burst(r, k);
    assert tail[1..] == Burst(r, k);
    assert Paced(tail, k, k);
    BurstPaced(r, k, tail, k, 0);

    RunAppend(s, rom, Burst(r, k), tail);
    BurstDrains(s, rom, r, k);
    if k <= Count(s.q1) {
      SecondBurst(s, rom, r, k);
      assert tail[0] == Tick;
    }
  }

  /** After a first burst of k and a tick, fewer than k buffers are idle. */
  lemma SecondBurst(s: State, rom: Rom, r: Request, k: nat)
    requires Inv(s, rom) && s.n1 < 2 * k && Fresh(s) == Stale(s) == 0
    requires MustPop(s, r) && r.dev < 0x8000_0000 && k <= Count(s.q1)
    ensures !NoUnderflow(Step(Run(s, rom, Burst(r, k)), rom, Tick), rom, Burst(r, k))
  {
    BurstDrains(s, rom, r, k);
    TtlCounts(s.bufs, s.n1);
    CountIsIdle(s.q1, s.bufs, 0, s.n1);
    var t := Run(s, rom, Burst(r, k));
    TtlCounts(t.bufs, t.n1);
    CountIsIdle(t.q1, t.bufs, 0, t.n1);
    TickAges(t);
    TickKeepsInv(t, rom);
    TickQueues(t);
    var u := TickState(t);
    TtlCounts(u.bufs, u.n1);
    CountIsIdle(u.q1, u.bufs, 0, u.n1);
    StillMustPop(t, u, r);
    BurstDrains(u, rom, r, k);
  }

  /** From a freshly built cache, a pace of k requests between ticks is safe for every run if and only if
      there are at least 2k short buffers. */
  lemma PaceIsExact(s: State, rom: Rom, k: nat)
    requires Inv(s, rom) && forall i :: 0 <= i < s.n ==> s.bufs[i].ttl == 0 && s.bufs[i].size == 0
    ensures (forall ops: seq<Op> :: Addressable(ops) && Paced(ops, k, 0) ==> NoUnderflow(s, rom, ops)) <==> 2 * k <= s.n1
  {
    AllIdle(s);
    if 2 * k <= s.n1 {
      forall ops: seq<Op> | Addressable(ops) && Paced(ops, k, 0)
        ensures NoUnderflow(s, rom, ops)
      {
        PacedNeverUnderflows(s, rom, ops, k, 0);
      }
    } else {
      var r := Request(0x1000, 1, false, 0xFF);
      FarRequestMisses(s, rom, r);
      CapacityIsSharp(s, rom, r, k);
      BurstAddressable(r, k);
      hide NoUnderflow, Paced;
      assert Addressable(Burst(r, k) + ([Tick] + Burst(r, k)));
    }
  }

  lemma FarRequestMisses(s: State, rom: Rom, r: Request)
    requires Inv(s, rom) && forall i :: 0 <= i < s.n ==> s.bufs[i].size == 0
    requires r == Request(0x1000, 1, false, 0xFF)
    ensures MustPop(s, r)
  {
    forall i | s.n1 <= i < s.n
      ensures !Hits(s.bufs[i], r.dev, r.size)
    {
      assert HoldsRom(s.bufs[i], s.ram, rom);
      HitsExact(s.bufs[i], r.dev, r.size);
    }
  }

  lemma {:induction false} BurstAddressable(r: Request, m: nat)
    requires r.dev < 0x8000_0000
    ensures Addressable(Burst(r, m))
  {
    if m > 0 {
      BurstAddressable(r, m - 1);
    }
  }

  // ---------- agreement with ROM ----------

  /** A request far enough into ROM that no never-filled buffer (source 0) can seem to cover it. */
  predicate Genuine(r: Request) {
    Fits(r) && LONG_SIZE < r.dev + r.size
  }

  predicate AllGenuine(ops: seq<Op>) {
    forall i :: 0 <= i < |ops| && ops[i].Serve? ==> Genuine(ops[i].request)
  }

  lemma GenuineServed(s: State, rom: Rom, r: Request)
    requires Inv(s, rom) && Genuine(r) && !Underflows(s, r)
    ensures var a := ServeRequest(s, rom, r);
      && a.ref < s.n && a.state.bufs[a.ref].ptr <= a.ptr
      && a.ptr + r.size <= a.state.bufs[a.ref].ptr + a.state.bufs[a.ref].bufSize <= |a.state.ram|
      && Serves(a, rom, r)
  {
    ServedBytes(s, rom, r);
    if IsHit(s, r) {
      HitQueues(s, rom, r);
      var b := s.bufs[Holder(s, r)];
      assert HoldsRom(b, s.ram, rom);
      HitsExact(b, r.dev, r.size);
    }
  }

  ghost predicate HoldsAt(ram: seq<byte>, p: int, rom: Rom, dev: nat, size: nat) {
    0 <= p && p + size <= |ram| && forall k :: p <= k < p + size ==> ram[k] == rom(dev + (k - p))
  }

  /** The bytes of one reply survive any run that ticks fewer times than the lease it was given. */
  lemma ReplyOutlives(u: State, rom: Rom, r: Request, mid: seq<Op>)
    requires Inv(u, rom) && Genuine(r) && !Underflows(u, r)
    requires Addressable(mid) && NoUnderflow(ServeRequest(u, rom, r).state, rom, mid)
    requires Ticks(mid) < ServedTtl(u, r)
    ensures var a := ServeRequest(u, rom, r); HoldsAt(Run(a.state, rom, mid).ram, a.ptr, rom, r.dev, r.size)
  {
    GenuineServed(u, rom, r);
    ServeKeepsInv(u, rom, r);
    var a := ServeRequest(u, rom, r);
    LeaseHolds(a.state, rom, mid, a.ref, ServedTtl(u, r));
  }

  lemma RunOneThen(s: State, rom: Rom, op: Op, rest: seq<Op>)
    requires Sized(s)
    ensures Run(s, rom, [op] + rest) == Run(Step(s, rom, op), rom, rest)
    ensures NoUnderflow(s, rom, [op] + rest) <==>
              !(op.Serve? && Underflows(s, op.request)) && NoUnderflow(Step(s, rom, op), rom, rest)
  {
    assert ([op] + rest)[1..] == rest;
  }

  /** Splitting a run around its step i. */
  lemma RunAround(s: State, rom: Rom, ops: seq<Op>, i: nat, j: nat)
    requires Sized(s) && i < j <= |ops| && NoUnderflow(s, rom, ops)
    ensures var u := Run(s, rom, ops[..i]); var v := Step(u, rom, ops[i]);
      && NoUnderflow(s, rom, ops[..i]) && !(ops[i].Serve? && Underflows(u, ops[i].request))
      && NoUnderflow(v, rom, ops[i + 1..j]) && Run(s, rom, ops[..j]) == Run(v, rom, ops[i + 1..j])
  {
    hide *;
    var before, op, mid, after := ops[..i], ops[i], ops[i + 1..j], ops[j..];
    assert ops == before + ([op] + (mid + after)) && ops[..j] == before + ([op] + mid);
    RunAppend(s, rom, before, [op] + (mid + after));
    RunAppend(s, rom, before, [op] + mid);
    var u := Run(s, rom, before);
    RunOneThen(u, rom, op, mid + after);
    RunOneThen(u, rom, op, mid);
    RunAppend(Step(u, rom, op), rom, mid, after);
  }

  /** Over any paced run from an idle cache with 2k short buffers, the reply to request i points at
      the ROM bytes asked for, and they stay there through every later step j of the run
      until the lease it was given (2 or 60 ticks) has run out. */
  lemma RepliesAreRom(s: State, rom: Rom, ops: seq<Op>, k: nat, i: nat, j: nat)
    requires WithinPace(s, rom, k, 0) && AllGenuine(ops) && Paced(ops, k, 0)
    requires i < j <= |ops| && ops[i].Serve?
    ensures var r := ops[i].request;
      var u := Run(s, rom, ops[..i]);
      Ticks(ops[i + 1..j]) < ServedTtl(u, r) ==>
        HoldsAt(Run(s, rom, ops[..j]).ram, ServeRequest(u, rom, r).ptr, rom, r.dev, r.size)
  {
    PacedNeverUnderflows(s, rom, ops, k, 0);
    RunAround(s, rom, ops, i, j);
    RunKeepsInv(s, rom, ops[..i]);
    if Ticks(ops[i + 1..j]) < ServedTtl(Run(s, rom, ops[..i]), ops[i].request) {
      ReplyOutlives(Run(s, rom, ops[..i]), rom, ops[i].request, ops[i + 1..j]);
    }
  }

  /** A never-filled buffer answers for low addresses with its zeros: ROM that is not zero there
      is misread, so the bound on the device address cannot be dropped. */
  lemma LowAddressMisread(s: State, rom: Rom, r: Request)
    requires Inv(s, rom) && Fits(r) && !r.long && r.ref < s.n1 && s.bufs[r.ref].size == 0
    requires r.dev + r.size <= SHORT_SIZE && 0 < r.size && rom(r.dev) != 0
    ensures var a := ServeRequest(s, rom, r);
      0 <= a.ptr && a.ptr + r.size <= |a.state.ram| && !Serves(a, rom, r)
  {
    assert HoldsRom(s.bufs[r.ref], s.ram, rom);
    HitsExact(s.bufs[r.ref], r.dev, r.size);
    ServedBytes(s, rom, r);
  }
}
