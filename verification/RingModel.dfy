/** The PCM ring against an unbounded queue of samples. Positions are 64-bit counters that wrap. */
module RingModel {
  // One past the largest 64-bit position.
  const WRAP := 0x1_0000_0000_0000_0000

  type Samples = seq<int>

  datatype Ring = Ring(cells: Samples, read: nat, write: nat)

  predicate Sized(s: Ring) {
    |s.cells| < WRAP && s.read < WRAP && s.write < WRAP
  }

  /** The cell k places after cell o, going round. */
  function At(o: nat, k: nat, c: nat): (r: nat)
    requires o < c && k <= c
    ensures r < c
  {
    if o + k < c then o + k else o + k - c
  }

  /** How far cell i lies behind cell o. */
  function Distance(o: nat, i: nat, c: nat): (d: nat)
    requires o < c && i < c
    ensures d < c && At(o, d, c) == i
  {
    if o <= i then i - o else i + c - o
  }

  /** Cells after samples have been laid round the ring from cell o on. */
  function Laid(cells: Samples, o: nat, samples: Samples): (r: Samples)
    requires o < |cells| && |samples| <= |cells|
    ensures |r| == |cells|
  {
    seq(|cells|, i requires 0 <= i < |cells| =>
      var d := Distance(o, i, |cells|);
      if d < |samples| then samples[d] else cells[i])
  }

  /** The count samples found round the ring from cell o on. */
  function Found(cells: Samples, o: nat, count: nat): (r: Samples)
    requires o < |cells| && count <= |cells|
    ensures |r| == count
  {
    seq(count, k requires 0 <= k < count => cells[At(o, k, |cells|)])
  }

  // 64-bit addition and subtraction.
  function Add64(a: nat, b: nat): (r: nat)
    requires a < WRAP && b < WRAP
    ensures r < WRAP
  {
    if a + b < WRAP then a + b else a + b - WRAP
  }

  function Sub64(a: nat, b: nat): (r: nat)
    requires a < WRAP && b < WRAP
    ensures r < WRAP
  {
    if b <= a then a - b else a + WRAP - b
  }

  function Fill(s: Ring): nat
    requires Sized(s)
  {
    Sub64(s.write, s.read)
  }

  // ---------- one call ----------

  function TryWrite(s: Ring, samples: Samples): (r: (Ring, bool))
    requires Sized(s) && Fill(s) <= |s.cells|
  {
    if |samples| > |s.cells| - Fill(s) then (s, false)
    else if |samples| == 0 then (s, true)
    else (Ring(Laid(s.cells, s.write % |s.cells|, samples), s.read, Add64(s.write, |samples|)), true)
  }

  function Peek(s: Ring, count: nat): Samples
    requires count <= |s.cells|
  {
    if count == 0 then [] else Found(s.cells, s.read % |s.cells|, count)
  }

  function Commit(s: Ring, count: nat): Ring
    requires Sized(s) && count < WRAP
  {
    s.(read := Add64(s.read, count))
  }

  // ---------- runs ----------

  /** Offer brings new samples; Submit hands count samples to the device, when that many wait, and
      commits them if it takes them. */
  datatype Op = Offer(samples: Samples) | Submit(count: nat, taken: bool)
  datatype Answer = Accepted(ok: bool) | Played(samples: Samples) | Waiting

  function Step(s: Ring, op: Op): (Ring, Answer)
    requires Sized(s) && Fill(s) <= |s.cells|
  {
    match op
    case Offer(samples) => var (t, ok) := TryWrite(s, samples); (t, Accepted(ok))
    case Submit(count, taken) =>
      if Fill(s) < count then (s, Waiting)
      else (if taken then Commit(s, count) else s, Played(Peek(s, count)))
  }

  /** A queue of at most c samples. */
  function QueueStep(q: Samples, c: nat, op: Op): (Samples, Answer) {
    match op
    case Offer(samples) => if |q| + |samples| <= c then (q + samples, Accepted(true)) else (q, Accepted(false))
    case Submit(count, taken) =>
      if |q| < count then (q, Waiting)
      else (if taken then q[count..] else q, Played(q[..count]))
  }

  lemma FillBounds(s: Ring, op: Op)
    requires Sized(s) && Fill(s) <= |s.cells|
    ensures var t := Step(s, op).0; Sized(t) && Fill(t) <= |t.cells| && |t.cells| == |s.cells|
  {
    hide Laid, Found;
  }

  function Answers(s: Ring, ops: seq<Op>): seq<Answer>
    requires Sized(s) && Fill(s) <= |s.cells|
    decreases |ops|
  {
    if ops == [] then []
    else
      FillBounds(s, ops[0]);
      [Step(s, ops[0]).1] + Answers(Step(s, ops[0]).0, ops[1..])
  }

  function QueueAnswers(q: Samples, c: nat, ops: seq<Op>): seq<Answer>
    decreases |ops|
  {
    if ops == [] then [] else [QueueStep(q, c, ops[0]).1] + QueueAnswers(QueueStep(q, c, ops[0]).0, c, ops[1..])
  }

  // ---------- refinement ----------

  /** The ring holds exactly q: sample k waits in the k-th cell after the read cell. */
  predicate Holds(s: Ring, q: Samples) {
    && Sized(s) && |q| <= |s.cells| && s.write == Add64(s.read, |q|)
    && (s.cells != [] ==>
          && s.write % |s.cells| == At(s.read % |s.cells|, |q|, |s.cells|)
          && Found(s.cells, s.read % |s.cells|, |q|) == q)
  }

  /** Moving n on from position p also moves n cells on: no wrap on the way, or wrapping is harmless. */
  predicate Steady(c: nat, p: nat, n: nat) {
    p + n < WRAP || (c != 0 && WRAP % c == 0)
  }

  lemma ModStep(a: nat, n: nat, c: nat)
    requires 0 < c && n <= c
    ensures (a + n) % c == At(a % c, n, c)
  {
    var q, r := a / c, a % c;
    var e := At(r, n, c);
    if r + n < c {
      ModIs(a + n, q, e, c);
    } else {
      assert (q + 1) * c == q * c + c;
      ModIs(a + n, q + 1, e, c);
    }
  }

  lemma NextMultiple(m: nat, n: nat, c: nat)
    requires m < n
    ensures m * c + c <= n * c
  {
    var d := n - m - 1;
    assert n * c == m * c + c + d * c;
  }

  lemma ModIs(a: nat, q: nat, r: nat, c: nat)
    requires 0 < c && r < c && a == q * c + r
    ensures a % c == r
  {
    var q', r' := a / c, a % c;
    assert a == q' * c + r';
    if q' > q {
      NextMultiple(q, q', c);
    } else if q' < q {
      NextMultiple(q', q, c);
    }
  }

  lemma CellsFollow(p: nat, n: nat, c: nat)
    requires 0 < c && n <= c && p < WRAP && c < WRAP && Steady(c, p, n)
    ensures Add64(p, n) % c == At(p % c, n, c)
  {
    ModStep(p, n, c);
    if p + n >= WRAP {
      var k := WRAP / c;
      var m := p + n - WRAP;
      assert Add64(p, n) == m;
      assert (p + n) == (m / c + k) * c + m % c by {
        assert (m / c + k) * c == m / c * c + k * c;
      }
      ModIs(p + n, m / c + k, m % c, c);
    }
  }
}
