/** The ring refines the queue exactly while wrapping the 64-bit counters is harmless. */
module RingProofs {
  import opened RingModel

  // ---------- cells ----------

  lemma AtAgain(o: nat, m: nat, n: nat, c: nat)
    requires o < c && m + n <= c
    ensures At(At(o, m, c), n, c) == At(o, m + n, c)
  {
  }

  /** What is laid behind m waiting samples is found behind them, and they are still there. */
  lemma LaidIsFound(cells: Samples, o: nat, m: nat, samples: Samples)
    requires o < |cells| && m + |samples| <= |cells|
    ensures Found(Laid(cells, At(o, m, |cells|), samples), o, m + |samples|) == Found(cells, o, m) + samples
  {
    var c, w, n := |cells|, At(o, m, |cells|), |samples|;
    var laid := Laid(cells, w, samples);
    forall k | 0 <= k < m + n
      ensures laid[At(o, k, c)] == if k < m then cells[At(o, k, c)] else samples[k - m]
    {
      var i := At(o, k, c);
      if k < m {
        assert Distance(w, i, c) >= n;
      } else {
        assert Distance(w, i, c) == k - m;
      }
    }
  }

  lemma FoundPrefix(cells: Samples, o: nat, m: nat, n: nat)
    requires o < |cells| && n <= m <= |cells|
    ensures Found(cells, o, m)[..n] == Found(cells, o, n)
    ensures Found(cells, o, m)[n..] == Found(cells, At(o, n, |cells|), m - n)
  {
  }

  // ---------- steps ----------

  /** No position counter passes the wrap during this step, or the capacity divides the wrap. */
  predicate Safe(s: Ring, q: Samples, offered: nat) {
    s.read + |q| + offered < WRAP || (|s.cells| != 0 && WRAP % |s.cells| == 0)
  }

  function Offered(op: Op): nat {
    if op.Offer? then |op.samples| else 0
  }

  lemma HoldsFill(s: Ring, q: Samples)
    requires Holds(s, q)
    ensures Fill(s) == |q|
  {
    hide Found, At;
  }

  lemma WriteRefines(s: Ring, q: Samples, samples: Samples)
    requires Holds(s, q) && |q| + |samples| <= |s.cells| && Safe(s, q, |samples|)
    ensures Fill(s) == |q| && TryWrite(s, samples).1 && Holds(TryWrite(s, samples).0, q + samples)
  {
    HoldsFill(s, q);
    var c, n := |s.cells|, |samples|;
    if n == 0 {
      assert q + samples == q;
    } else {
      var o := s.read % c;
      CellsFollow(s.write, n, c);
      AtAgain(o, |q|, n, c);
      LaidIsFound(s.cells, o, |q|, samples);
      hide At, Found, Laid;
    }
  }

  lemma SubmitRefines(s: Ring, q: Samples, count: nat)
    requires Holds(s, q) && count <= |q| && Safe(s, q, 0)
    ensures Peek(s, count) == q[..count] && Holds(Commit(s, count), q[count..])
  {
    var c := |s.cells|;
    if c != 0 {
      var o := s.read % c;
      CellsFollow(s.read, count, c);
      AtAgain(o, count, |q| - count, c);
      FoundPrefix(s.cells, o, |q|, count);
      hide At, Found;
    }
  }

  /** A step answers as the queue does and leaves the ring holding what the queue holds. */
  lemma StepRefines(s: Ring, q: Samples, op: Op)
    requires Holds(s, q) && Safe(s, q, Offered(op))
    ensures Fill(s) == |q|
    ensures var (t, a) := Step(s, op); var (q', b) := QueueStep(q, |s.cells|, op);
      && a == b && Holds(t, q') && |t.cells| == |s.cells|
      && (t.read + |q'| <= s.read + |q| + Offered(op) || (|s.cells| != 0 && WRAP % |s.cells| == 0))
  {
    HoldsFill(s, q);
    hide Holds, Found, Laid, At;
    assert Sized(s) by { HoldsSized(s, q); }
    match op {
      case Offer(samples) =>
        if |q| + |samples| <= |s.cells| {
          WriteRefines(s, q, samples);
        }
      case Submit(count, taken) =>
        if count <= |q| {
          SubmitRefines(s, q, count);
          HoldsSized(s, q);
        }
    }
  }

  lemma HoldsSized(s: Ring, q: Samples)
    requires Holds(s, q)
    ensures Sized(s) && |q| <= |s.cells|
  {
  }

  // ---------- runs ----------

  function TotalOffered(ops: seq<Op>): nat {
    if ops == [] then 0 else Offered(ops[0]) + TotalOffered(ops[1..])
  }

  /** Over any run the ring and the queue give the same answers, if the positions stay below the wrap
      or the capacity divides it. */
  lemma {:induction false} RunRefines(s: Ring, q: Samples, ops: seq<Op>)
    requires Holds(s, q) && Safe(s, q, TotalOffered(ops))
    ensures Fill(s) == |q| && Answers(s, ops) == QueueAnswers(q, |s.cells|, ops)
    decreases |ops|
  {
    HoldsFill(s, q);
    if ops != [] {
      StepRefines(s, q, ops[0]);
      var (t, _) := Step(s, ops[0]);
      var (q', _) := QueueStep(q, |s.cells|, ops[0]);
      RunRefines(t, q', ops[1..]);
    }
  }

  /** State after a run. */
  function Final(s: Ring, ops: seq<Op>): Ring
    requires Sized(s) && Fill(s) <= |s.cells|
    decreases |ops|
  {
    if ops == [] then s
    else
      FillBounds(s, ops[0]);
      Final(Step(s, ops[0]).0, ops[1..])
  }

  /** Nothing is committed. */
  predicate NoneTaken(ops: seq<Op>) {
    forall i :: 0 <= i < |ops| ==> !(ops[i].Submit? && ops[i].taken)
  }

  /** Until samples are committed, every peek shows the same ones, whatever is written in between. */
  lemma {:induction false} PeekRepeats(s: Ring, q: Samples, ops: seq<Op>, count: nat)
    requires Holds(s, q) && Safe(s, q, TotalOffered(ops)) && NoneTaken(ops) && count <= |q|
    ensures Fill(s) <= |s.cells| && |Final(s, ops).cells| == |s.cells|
    ensures Peek(Final(s, ops), count) == Peek(s, count) == q[..count]
    decreases |ops|
  {
    HoldsFill(s, q);
    SubmitRefines(s, q, count);
    if ops != [] {
      StepRefines(s, q, ops[0]);
      var (t, _) := Step(s, ops[0]);
      var (q', _) := QueueStep(q, |s.cells|, ops[0]);
      assert q'[..count] == q[..count];
      PeekRepeats(t, q', ops[1..], count);
    }
  }

  // ---------- exactly when it is a FIFO ----------

  predicate Fifo(cells: Samples, pos: nat, ops: seq<Op>)
    requires |cells| < WRAP && pos < WRAP
  {
    Answers(Ring(cells, pos, pos), ops) == QueueAnswers([], |cells|, ops)
  }

  lemma EmptyHolds(cells: Samples, pos: nat)
    requires |cells| < WRAP && pos < WRAP
    ensures Holds(Ring(cells, pos, pos), [])
  {
  }

  /** Two samples straddling the wrap: the second is looked for in cell 0 but was laid elsewhere. */
  function Straddle(): seq<Op> {
    [Offer([1, 2]), Submit(1, true), Submit(1, true)]
  }

  lemma StraddleFails(cells: Samples)
    requires 0 < |cells| < WRAP && WRAP % |cells| != 0 && forall i :: 0 <= i < |cells| ==> cells[i] == 0
    ensures !Fifo(cells, WRAP - 1, Straddle())
  {
    var c, ops := |cells|, Straddle();
    assert c > 2;
    var o := (WRAP - 1) % c;
    ModStep(WRAP - 1, 1, c);
    assert At(o, 1, c) != 0;
    var s := Ring(cells, WRAP - 1, WRAP - 1);
    var t := Step(s, ops[0]).0;
    assert t == Ring(Laid(cells, o, [1, 2]), WRAP - 1, 1);
    var u := Step(t, ops[1]).0;
    assert u == t.(read := 0);
    StraddledCell(cells, o);
    assert Step(u, ops[2]).1 == Played(Peek(u, 1)) && Peek(u, 1)[0] == t.cells[0] != 2;
    ThirdAnswer(s, [], ops);
  }

  lemma StraddledCell(cells: Samples, o: nat)
    requires 2 < |cells| && o < |cells| && At(o, 1, |cells|) != 0 && forall i :: 0 <= i < |cells| ==> cells[i] == 0
    ensures Laid(cells, o, [1, 2])[0] != 2
  {
  }

  /** Answers number 2 of a three-step run, on both sides. */
  lemma ThirdAnswer(s: Ring, q: Samples, ops: seq<Op>)
    requires Sized(s) && Fill(s) <= |s.cells| && |ops| == 3
    ensures |Answers(s, ops)| == |QueueAnswers(q, |s.cells|, ops)| == 3
    ensures var t := Step(s, ops[0]).0;
      && Sized(t) && Fill(t) <= |t.cells|
      && var u := Step(t, ops[1]).0;
      && Sized(u) && Fill(u) <= |u.cells| && Answers(s, ops)[2] == Step(u, ops[2]).1
    ensures var q1 := QueueStep(q, |s.cells|, ops[0]).0; var q2 := QueueStep(q1, |s.cells|, ops[1]).0;
      QueueAnswers(q, |s.cells|, ops)[2] == QueueStep(q2, |s.cells|, ops[2]).1
  {
    hide Step, QueueStep, Fill;
    FillBounds(s, ops[0]);
    var t := Step(s, ops[0]).0;
    FillBounds(t, ops[1]);
    var u := Step(t, ops[1]).0;
    FillBounds(u, ops[2]);
    var v := Step(u, ops[2]).0;
    assert ops[1..][1..] == [ops[2]] && ops[1..][1..][1..] == [];
    assert Answers(u, [ops[2]]) == [Step(u, ops[2]).1] + Answers(v, []);
    var q1 := QueueStep(q, |s.cells|, ops[0]).0;
    var q2 := QueueStep(q1, |s.cells|, ops[1]).0;
    assert QueueAnswers(q2, |s.cells|, [ops[2]]) == [QueueStep(q2, |s.cells|, ops[2]).1] + [];
  }

  /** A ring of capacity c behaves as a queue from every start and over every run if and only if c
      divides the range of the position counters (or the ring has no cells at all). */
  lemma FifoIffDividesWrap(c: nat)
    requires c < WRAP
    ensures (forall cells: Samples, pos: nat, ops: seq<Op> :: |cells| == c && pos < WRAP ==> Fifo(cells, pos, ops))
            <==> c == 0 || WRAP % c == 0
  {
    if c == 0 || WRAP % c == 0 {
      forall cells: Samples, pos: nat, ops: seq<Op> | |cells| == c && pos < WRAP
        ensures Fifo(cells, pos, ops)
      {
        if c == 0 {
          EmptyRing(Ring(cells, pos, pos), ops);
        } else {
          EmptyHolds(cells, pos);
          RunRefines(Ring(cells, pos, pos), [], ops);
        }
      }
    } else {
      var cells := seq(c, _ => 0);
      StraddleFails(cells);
    }
  }

  lemma {:induction false} EmptyRing(s: Ring, ops: seq<Op>)
    requires s.cells == [] && Sized(s) && s.read == s.write
    ensures Answers(s, ops) == QueueAnswers([], 0, ops)
    decreases |ops|
  {
    if ops != [] {
      EmptyRing(Step(s, ops[0]).0, ops[1..]);
    }
  }

  // ---------- from position 0 ----------

  function QueueFinal(q: Samples, c: nat, ops: seq<Op>): Samples
    decreases |ops|
  {
    if ops == [] then q else QueueFinal(QueueStep(q, c, ops[0]).0, c, ops[1..])
  }

  lemma {:induction false} FinalBounds(s: Ring, ops: seq<Op>)
    requires Sized(s) && Fill(s) <= |s.cells|
    ensures var t := Final(s, ops); Sized(t) && Fill(t) <= |t.cells| && |t.cells| == |s.cells|
    decreases |ops|
  {
    hide Step, Fill, Sized;
    if ops != [] {
      FillBounds(s, ops[0]);
      FinalBounds(Step(s, ops[0]).0, ops[1..]);
    }
  }

  lemma {:induction false} AnswersAppend(s: Ring, q: Samples, a: seq<Op>, b: seq<Op>)
    requires Sized(s) && Fill(s) <= |s.cells|
    ensures Sized(Final(s, a)) && Fill(Final(s, a)) <= |Final(s, a).cells|
    ensures Answers(s, a + b) == Answers(s, a) + Answers(Final(s, a), b)
    ensures QueueAnswers(q, |s.cells|, a + b) == QueueAnswers(q, |s.cells|, a) + QueueAnswers(QueueFinal(q, |s.cells|, a), |s.cells|, b)
    ensures |Answers(s, a)| == |a| && |QueueAnswers(q, |s.cells|, a)| == |a|
    decreases |a|
  {
    hide Step, QueueStep, Fill, Sized;
    FinalBounds(s, a);
    if a == [] {
      assert a + b == b;
    } else {
      FillBounds(s, a[0]);
      assert (a + b)[0] == a[0] && (a + b)[1..] == a[1..] + b;
      AnswersAppend(Step(s, a[0]).0, QueueStep(q, |s.cells|, a[0]).0, a[1..], b);
    }
  }

  /** One silent sample written and played: both counters move on by one, the cells stay silent. */
  function Pulse(): seq<Op> {
    [Offer([0]), Submit(1, true)]
  }

  function Pulses(m: nat): seq<Op> {
    if m == 0 then [] else Pulse() + Pulses(m - 1)
  }

  predicate Silent(cells: Samples) {
    forall i :: 0 <= i < |cells| ==> cells[i] == 0
  }

  lemma PulseMoves(cells: Samples, p: nat)
    requires 0 < |cells| < WRAP && Silent(cells) && p + 1 < WRAP
    ensures Final(Ring(cells, p, p), Pulse()) == Ring(cells, p + 1, p + 1)
    ensures QueueFinal([], |cells|, Pulse()) == []
  {
    var s := Ring(cells, p, p);
    assert Laid(cells, p % |cells|, [0]) == cells;
    var t := Step(s, Offer([0])).0;
    assert t == Ring(cells, p, p + 1);
    var u := Step(t, Submit(1, true)).0;
    assert u == Ring(cells, p + 1, p + 1);
    assert Pulse()[1..] == [Submit(1, true)] && Pulse()[1..][1..] == [];
    assert Final(t, [Submit(1, true)]) == Final(u, []);
    assert QueueFinal([0], |cells|, [Submit(1, true)]) == QueueFinal([], |cells|, []);
  }

  lemma {:induction false} FinalAppend(s: Ring, q: Samples, a: seq<Op>, b: seq<Op>)
    requires Sized(s) && Fill(s) <= |s.cells|
    ensures Sized(Final(s, a)) && Fill(Final(s, a)) <= |Final(s, a).cells|
    ensures Final(s, a + b) == Final(Final(s, a), b)
    ensures QueueFinal(q, |s.cells|, a + b) == QueueFinal(QueueFinal(q, |s.cells|, a), |s.cells|, b)
    decreases |a|
  {
    hide Step, QueueStep, Fill, Sized;
    FinalBounds(s, a);
    if a == [] {
      assert a + b == b;
    } else {
      FillBounds(s, a[0]);
      assert (a + b)[0] == a[0] && (a + b)[1..] == a[1..] + b;
      FinalAppend(Step(s, a[0]).0, QueueStep(q, |s.cells|, a[0]).0, a[1..], b);
    }
  }

  lemma {:induction false} PulsesMove(cells: Samples, p: nat, m: nat)
    requires 0 < |cells| < WRAP && Silent(cells) && p + m < WRAP
    ensures Final(Ring(cells, p, p), Pulses(m)) == Ring(cells, p + m, p + m)
    ensures QueueFinal([], |cells|, Pulses(m)) == []
    decreases m
  {
    if m > 0 {
      hide Pulse, Silent;
      PulseMoves(cells, p);
      FinalAppend(Ring(cells, p, p), [], Pulse(), Pulses(m - 1));
      PulsesMove(cells, p + 1, m - 1);
    }
  }

  /** Started at position 0, as the constructor does, a silent ring reaches the wrap and fails there. */
  lemma StraddleFromZero(cells: Samples)
    requires 0 < |cells| < WRAP && WRAP % |cells| != 0 && Silent(cells)
    ensures !Fifo(cells, 0, Pulses(WRAP - 1) + Straddle())
  {
    var s, a, b := Ring(cells, 0, 0), Pulses(WRAP - 1), Straddle();
    hide Pulses, Straddle, Answers, QueueAnswers, Final, QueueFinal;
    PulsesMove(cells, 0, WRAP - 1);
    AnswersAppend(s, [], a, b);
    StraddleFails(cells);
    assert Answers(s, a + b)[|a|..] == Answers(Final(s, a), b);
    assert QueueAnswers([], |cells|, a + b)[|a|..] == QueueAnswers([], |cells|, b);
  }

  /** The same equivalence for rings as the program creates them: silent, both counters at 0. */
  lemma FreshFifoIffDividesWrap(cells: Samples)
    requires |cells| < WRAP && Silent(cells)
    ensures (forall ops: seq<Op> :: Fifo(cells, 0, ops)) <==> cells == [] || WRAP % |cells| == 0
  {
    if cells == [] || WRAP % |cells| == 0 {
      FifoIffDividesWrap(|cells|);
    } else {
      StraddleFromZero(cells);
    }
  }

  // Two seconds of 48 kHz stereo.
  const DEVICE_RING := 48000 * 2 * 2

  /** The ring the device backend allocates is not such a size. */
  lemma DeviceRingIsNotFifoForever()
    ensures exists cells: Samples, pos: nat, ops: seq<Op> :: |cells| == DEVICE_RING && pos < WRAP && !Fifo(cells, pos, ops)
  {
    var cells := seq(DEVICE_RING, _ => 0);
    StraddleFails(cells);
  }

  /** It is one until a position counter wraps. */
  lemma DeviceRingIsFifoBeforeWrap(cells: Samples, pos: nat, ops: seq<Op>)
    requires |cells| == DEVICE_RING && pos + TotalOffered(ops) < WRAP
    ensures Fifo(cells, pos, ops)
  {
    EmptyHolds(cells, pos);
    RunRefines(Ring(cells, pos, pos), [], ops);
  }
}
