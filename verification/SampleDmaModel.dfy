/** The sample-DMA cache as a value: one record per buffer, two reuse queues, the
    RAM the buffers live in, and the two operations that change it. */
module SampleDmaModel {
  import opened AudioBase

  const TABLE_ROWS := 80
  const SHORT_SIZE := 0x2D0
  const LONG_SIZE := 0x400
  const SHORT_TTL := 2
  const LONG_TTL := 60

  datatype Buffer = Buffer(ptr: nat, source: nat, size: nat, bufSize: nat, reuseIndex: byte, ttl: byte)

  /** A circular byte-indexed queue; it is empty when tail and head coincide. */
  datatype Queue = Queue(slots: seq<byte>, tail: byte, head: byte)

  /** Buffers 0..n1-1 are short-lived (class 1), n1..n-1 long-lived (class 2). */
  datatype State = State(bufs: seq<Buffer>, n1: nat, n: nat, q1: Queue, q2: Queue, ram: seq<byte>)

  datatype Request = Request(dev: nat, size: nat, long: bool, ref: byte)
  datatype Reply = Reply(state: State, ptr: int, ref: byte)
  datatype Op = Tick | Serve(request: Request)

  // ---------- 32-bit and byte arithmetic ----------

  function Sub32(a: nat, b: nat): nat {
    (a - b) % 0x1_0000_0000
  }

  predicate Negative32(w: nat) {
    w % 0x1_0000_0000 >= 0x8000_0000
  }

  function Inc(b: byte): byte {
    if b == 0xFF then 0 else b + 1
  }

  /** Steps from a forward to b around the 256-slot ring. */
  function Dist(a: byte, b: byte): byte {
    if a <= b then b - a else b - a + 0x100
  }

  // ---------- queue operations ----------

  function Count(q: Queue): byte {
    Dist(q.tail, q.head)
  }

  predicate InWindow(q: Queue, p: byte) {
    Dist(q.tail, p) < Count(q)
  }

  /** Appends buffer i at the head and records its slot in the buffer. */
  function Push(bufs: seq<Buffer>, q: Queue, i: byte): (r: (seq<Buffer>, Queue))
    requires |q.slots| == 0x100 && i < |bufs|
  {
    (bufs[i := bufs[i].(reuseIndex := q.head)], q.(slots := q.slots[q.head := i], head := Inc(q.head)))
  }

  /** Takes buffer i out of the queue by moving the tail entry into its slot. */
  function Unlink(bufs: seq<Buffer>, q: Queue, i: nat): (r: (seq<Buffer>, Queue))
    requires |q.slots| == 0x100 && i < |bufs| && q.slots[q.tail] < |bufs|
  {
    var slot := bufs[i].reuseIndex;
    var last := q.slots[q.tail];
    if slot == q.tail then (bufs, q.(tail := Inc(q.tail)))
    else (bufs[last := bufs[last].(reuseIndex := slot)], q.(slots := q.slots[slot := last], tail := Inc(q.tail)))
  }

  // ---------- TTL tick ----------

  function Age(bufs: seq<Buffer>, q: Queue, i: byte): (r: (seq<Buffer>, Queue))
    requires |q.slots| == 0x100 && i < |bufs|
    ensures |r.0| == |bufs| && |r.1.slots| == 0x100
  {
    if bufs[i].ttl == 0 then (bufs, q)
    else
      var aged := bufs[i := bufs[i].(ttl := bufs[i].ttl - 1)];
      if aged[i].ttl == 0 then Push(aged, q, i) else (aged, q)
  }

  /** Ages buffers i..hi-1 in order. */
  function AgeClass(bufs: seq<Buffer>, q: Queue, i: nat, hi: nat): (r: (seq<Buffer>, Queue))
    requires |q.slots| == 0x100 && i <= hi <= |bufs| <= 0x100
    ensures |r.0| == |bufs| && |r.1.slots| == 0x100
    decreases hi - i
  {
    if i == hi then (bufs, q)
    else
      var next := Age(bufs, q, i);
      AgeClass(next.0, next.1, i + 1, hi)
  }

  function TickState(s: State): State
    requires Sized(s)
  {
    var first := AgeClass(s.bufs, s.q1, 0, s.n1);
    var second := AgeClass(first.0, s.q2, s.n1, s.n);
    s.(bufs := second.0, q1 := first.1, q2 := second.1)
  }

  // ---------- sample request ----------

  /** The containment test as compiled: a signed test on the offset, an unsigned one on the room. */
  predicate Hits(b: Buffer, dev: nat, size: nat) {
    var offset := Sub32(dev, b.source);
    !Negative32(offset) && offset <= Sub32(b.bufSize, size)
  }

  /** The first index in i..n-1 whose buffer covers the request, or n. */
  function FindHit(bufs: seq<Buffer>, i: nat, n: nat, dev: nat, size: nat): (r: nat)
    requires i <= n <= |bufs|
    ensures i <= r <= n
    ensures r < n ==> Hits(bufs[r], dev, size)
    ensures forall j :: i <= j < r ==> !Hits(bufs[j], dev, size)
    decreases n - i
  {
    if i == n || Hits(bufs[i], dev, size) then i else FindHit(bufs, i + 1, n, dev, size)
  }

  function Aligned(dev: nat): nat {
    dev - dev % 0x10
  }

  function HitLong(s: State, i: nat, r: Request): Reply
    requires Sized(s) && s.n1 <= i < s.n
  {
    var (bufs, q) := if s.bufs[i].ttl == 0 && Count(s.q2) != 0 then Unlink(s.bufs, s.q2, i) else (s.bufs, s.q2);
    Reply(s.(bufs := bufs[i := bufs[i].(ttl := LONG_TTL)], q2 := q), s.bufs[i].ptr + r.dev - s.bufs[i].source, i)
  }

  function HitShort(s: State, r: Request): Reply
    requires Sized(s) && r.ref < s.n1
  {
    var i := r.ref;
    var (bufs, q) := if s.bufs[i].ttl == 0 then Unlink(s.bufs, s.q1, i) else (s.bufs, s.q1);
    Reply(s.(bufs := bufs[i := bufs[i].(ttl := SHORT_TTL)], q1 := q), s.bufs[i].ptr + r.dev - s.bufs[i].source, i)
  }

  function Refill(s: State, rom: Rom, i: byte, r: Request): Reply
    requires Sized(s) && i < |s.bufs|
  {
    var b := s.bufs[i];
    var base := Aligned(r.dev);
    var filled := b.(ttl := SHORT_TTL, source := base, size := b.bufSize);
    Reply(s.(bufs := s.bufs[i := filled], ram := Transfer(s.ram, b.ptr, rom, base, b.bufSize)),
          r.dev - base + b.ptr, i)
  }

  /** Looks the request up in the long buffers (only when asked to, or when ref names no short one). */
  predicate SearchesLong(s: State, r: Request) {
    r.long || r.ref >= s.n1
  }

  /** True when the request is answered from the buffer numbered Holder(s, r). */
  predicate IsHit(s: State, r: Request)
    requires Sized(s)
  {
    if SearchesLong(s, r) then FindHit(s.bufs, s.n1, s.n, r.dev, r.size) < s.n
    else Hits(s.bufs[r.ref], r.dev, r.size)
  }

  function Holder(s: State, r: Request): nat
    requires Sized(s)
  {
    if SearchesLong(s, r) then FindHit(s.bufs, s.n1, s.n, r.dev, r.size) else r.ref
  }

  /** A miss takes a long buffer when one is asked for and free; otherwise it pops queue 1 unchecked. */
  predicate PopsShort(s: State, r: Request)
    requires Sized(s)
  {
    !IsHit(s, r) && !(r.long && Count(s.q2) != 0)
  }

  predicate Underflows(s: State, r: Request)
    requires Sized(s)
  {
    PopsShort(s, r) && Count(s.q1) == 0
  }

  function ServeRequest(s: State, rom: Rom, r: Request): Reply
    requires Sized(s)
  {
    if IsHit(s, r) then
      if SearchesLong(s, r) then HitLong(s, Holder(s, r), r) else HitShort(s, r)
    else if r.long && Count(s.q2) != 0 then
      Refill(s.(q2 := s.q2.(tail := Inc(s.q2.tail))), rom, s.q2.slots[s.q2.tail], r)
    else
      Refill(s.(q1 := s.q1.(tail := Inc(s.q1.tail))), rom, s.q1.slots[s.q1.tail], r)
  }

  /** Once the buffer is known, an answer depends on the request's address alone. */
  lemma SameAnswers(s: State, rom: Rom, i: byte, r: Request)
    requires Sized(s) && i < TABLE_ROWS
    ensures s.n1 <= i < s.n ==> HitLong(s, i, r) == HitLong(s, i, Request(r.dev, 0, false, 0))
    ensures i == r.ref < s.n1 ==> HitShort(s, r) == HitShort(s, Request(r.dev, 0, false, r.ref))
    ensures Refill(s, rom, i, r) == Refill(s, rom, i, Request(r.dev, 0, false, 0))
  {
  }

  lemma TickSized(s: State)
    requires Sized(s)
    ensures Sized(TickState(s))
  {
    AgeClassKeepsSlots(s.bufs, s.q1, 0, s.n1);
    AgeClassKeepsSlots(AgeClass(s.bufs, s.q1, 0, s.n1).0, s.q2, s.n1, s.n);
  }

  // ---------- runs ----------

  /** What array bounds need: it survives every operation, underflow included. */
  predicate Sized(s: State) {
    && |s.bufs| == TABLE_ROWS && s.n1 <= s.n <= TABLE_ROWS
    && |s.q1.slots| == 0x100 && |s.q2.slots| == 0x100
    && (forall p: byte :: s.q1.slots[p] < TABLE_ROWS)
    && (forall p: byte :: s.q2.slots[p] < TABLE_ROWS)
  }

  lemma AgeClassKeepsSlots(bufs: seq<Buffer>, q: Queue, i: nat, hi: nat)
    requires |q.slots| == 0x100 && i <= hi <= |bufs| <= TABLE_ROWS
    requires forall p: byte :: q.slots[p] < TABLE_ROWS
    ensures forall p: byte :: AgeClass(bufs, q, i, hi).1.slots[p] < TABLE_ROWS
    decreases hi - i
  {
    if i < hi {
      var next := Age(bufs, q, i);
      AgeClassKeepsSlots(next.0, next.1, i + 1, hi);
    }
  }

  function Step(s: State, rom: Rom, op: Op): (t: State)
    requires Sized(s)
    ensures Sized(t) && t.n1 == s.n1 && t.n == s.n && |t.ram| == |s.ram|
  {
    match op
    case Tick =>
      AgeClassKeepsSlots(s.bufs, s.q1, 0, s.n1);
      AgeClassKeepsSlots(AgeClass(s.bufs, s.q1, 0, s.n1).0, s.q2, s.n1, s.n);
      TickState(s)
    case Serve(r) => ServeRequest(s, rom, r).state
  }

  function Run(s: State, rom: Rom, ops: seq<Op>): (t: State)
    requires Sized(s)
    ensures Sized(t) && t.n1 == s.n1 && t.n == s.n && |t.ram| == |s.ram|
    decreases |ops|
  {
    if ops == [] then s else Run(Step(s, rom, ops[0]), rom, ops[1..])
  }

  /** Queue 1 is never popped while empty. */
  predicate NoUnderflow(s: State, rom: Rom, ops: seq<Op>)
    requires Sized(s)
    decreases |ops|
  {
    ops == [] ||
    (!(ops[0].Serve? && Underflows(s, ops[0].request)) && NoUnderflow(Step(s, rom, ops[0]), rom, ops[1..]))
  }

  function Ticks(ops: seq<Op>): nat {
    if ops == [] then 0 else (if ops[0].Tick? then 1 else 0) + Ticks(ops[1..])
  }

  /** At most k requests between consecutive ticks, used of which have already happened. */
  predicate Paced(ops: seq<Op>, k: nat, used: nat) {
    used <= k &&
    (ops == [] ||
     match ops[0]
     case Tick => Paced(ops[1..], k, 0)
     case Serve(_) => Paced(ops[1..], k, used + 1))
  }
}
