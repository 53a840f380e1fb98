/** Exactly when the status table stays truthful over a run: when no load arrives after its only entry
    was laid over. */
module SoundCacheTruth {
  import opened SoundCacheModel
  import opened SoundCacheProofs
  import opened SoundCacheRuns
  import opened SoundCacheArrivals
  import opened SoundCacheFailures

  /** A persistent entry holds the file; such entries are never given up. */
  predicate HasRow(h: Heap, f: File) {
    exists i :: 0 <= i < |h.Get(f.kind).entries| && h.Get(f.kind).entries[i].id == f.id
  }

  ghost predicate HeldFile(h: Heap, f: File) {
    Held(h.Get(f.kind), f.id)
  }

  /** Outstanding files split into those still held and those lost. */
  ghost predicate Split(h: Heap, out: set<File>, lost: set<File>) {
    && lost <= out
    && (forall f :: f in lost ==> !HeldFile(h, f))
    && (forall f :: f in out && f !in lost ==> WaitingIn(h.Get(f.kind), f.id) || HasRow(h, f))
  }

  /** The files an operation adds to the lost ones, or whose arrival it is. */
  ghost function NextLost(h: Heap, out: set<File>, lost: set<File>, op: Op): set<File>
    requires Ready(h)
  {
    match op
    case DoLoad(_, _, _, _, _) => lost + (set f | f in out && Evicts(h, op, f) && !HasRow(h, f))
    case DoArrive(kind, id) => lost - {File(kind, id)}
    case _ => lost
  }

  // ---------- one operation ----------

  lemma TemporaryHolds(h: Heap, kind: Kind, size: nat, id: int, f: File)
    requires Ready(h) && 0 <= id < |h.Get(kind).status| && FitsTemp(h.Get(kind), size)
    requires 0 <= f.id && f != File(kind, id)
    ensures var h' := AllocTemporary(h, kind, size, id).0;
      && h'.Get(f.kind).entries == h.Get(f.kind).entries && (HeldFile(h', f) ==> HeldFile(h, f))
  {
    hide AllocOnSide, Occupy, SettleBoth, ChooseSide, TempOk, PoolOk, IdsInRange, Agrees;
    TemporaryOutcome(h, kind, size, id);
    ChoiceMeaning(h, kind);
    SettleSoftens(h, kind);
    var s := SettleBoth(h, kind);
    SoftenedReady(h, s);
    if ChooseSide(h, kind) != NoSide {
      var side := ChooseSide(h, kind).side;
      AllocOnSideKeeps(s, kind, side, size, id);
      OccupyLayout(s.Get(kind), side, size, id);
    }
  }

  /** A load makes only its own file held, and takes no persistent entry away. */
  lemma LoadHolds(h: Heap, op: Op, f: File)
    requires Ready(h) && Allowed(h, op) && op.DoLoad? && 0 <= f.id && f != File(op.kind, op.id)
    ensures HeldFile(Step(h, op), f) ==> HeldFile(h, f)
    ensures HasRow(h, f) ==> HasRow(Step(h, op), f)
  {
    var size := LoadSize(op.kind, op.length);
    var (h', ptr) := AllocCached(h, op.kind, op.persistence, size, op.id);
    assert HeldFile(Step(h, op), f) <==> HeldFile(h', f);
    assert HasRow(Step(h, op), f) <==> HasRow(h', f);
    hide AllocTemporary, TempOk, PoolOk, IdsInRange, LoadSize, LoadedStatus;
    if TakesSide(h, op) {
      TemporaryHolds(h, op.kind, size, op.id, f);
    } else {
      PersistentHolds(h, op.kind, op.persistence, size, op.id, f);
    }
  }

  lemma PersistentHolds(h: Heap, kind: Kind, persistence: nat, size: nat, id: int, f: File)
    requires Ready(h) && 0 <= id < |h.Get(kind).status| && !UsesTemporary(h.Get(kind), persistence, size)
    requires f != File(kind, id)
    ensures var h' := AllocCached(h, kind, persistence, size, id).0;
      (HeldFile(h', f) ==> HeldFile(h, f)) && (HasRow(h, f) ==> HasRow(h', f))
  {
    var c, c' := h.Get(f.kind), AllocCached(h, kind, persistence, size, id).0.Get(f.kind);
    if HasRow(h, f) {
      var i :| 0 <= i < |c.entries| && c.entries[i].id == f.id;
      assert c'.entries[i].id == f.id;
    }
    if i :| 0 <= i < |c'.entries| && c'.entries[i].id == f.id {
      assert i < |c.entries| ==> c.entries[i].id == f.id;
    }
  }

  /** The other operations leave what is held as it is. */
  lemma OtherHolds(h: Heap, op: Op, f: File)
    requires Ready(h) && Allowed(h, op) && !op.DoLoad?
    ensures HeldFile(Step(h, op), f) <==> HeldFile(h, f)
    ensures HasRow(Step(h, op), f) <==> HasRow(h, f)
  {
    if !(op.DoArrive? && op.kind == f.kind) {
      OtherSoftens(h, op);
    }
    hide StopPlayer, TempOk, PoolOk, Sized;
  }

  lemma StepHolds(h: Heap, op: Op, f: File)
    requires Ready(h) && Allowed(h, op) && 0 <= f.id && (op.DoLoad? ==> f != File(op.kind, op.id))
    ensures HeldFile(Step(h, op), f) ==> HeldFile(h, f)
    ensures HasRow(h, f) ==> HasRow(Step(h, op), f)
  {
    hide Step, HasRow, HeldFile;
    if op.DoLoad? {
      LoadHolds(h, op, f);
    } else {
      OtherHolds(h, op, f);
    }
  }

  /** A waiting file laid over, with no persistent entry to fall back on, is held no more. */
  lemma EvictedUnheld(h: Heap, op: Op, f: File)
    requires Ready(h) && Allowed(h, op) && op.DoLoad? && Evicts(h, op, f) && !HasRow(h, f)
    requires WaitingIn(h.Get(f.kind), f.id) && f != File(op.kind, op.id)
    ensures !HeldFile(Step(h, op), f)
  {
    EvictedGone(h, op.kind, LoadSize(op.kind, op.length), op.id, f.id);
    hide AllocTemporary, ChooseSide, TempOk, PoolOk, IdsInRange, LoadSize, LoadedStatus;
  }

  // ---------- runs ----------

  /** Nothing outstanding is asked for again, and only outstanding files arrive. */
  predicate Polite(out: set<File>, op: Op) {
    match op
    case DoLoad(kind, _, _, id, _) => File(kind, id) !in out
    case DoArrive(kind, id) => File(kind, id) in out
    case _ => true
  }

  predicate Tidy(h: Heap, out: set<File>, ops: seq<Op>)
    decreases |ops|
  {
    ops != [] && Ready(h) && Allowed(h, ops[0]) ==>
      Polite(out, ops[0]) && Tidy(Step(h, ops[0]), Outstanding(h, out, ops[0]), ops[1..])
  }

  /** No lost file arrives. */
  ghost predicate NoLostArrival(h: Heap, out: set<File>, lost: set<File>, ops: seq<Op>)
    decreases |ops|
  {
    ops != [] && Ready(h) && Allowed(h, ops[0]) ==>
      && (ops[0].DoArrive? ==> File(ops[0].kind, ops[0].id) !in lost)
      && NoLostArrival(Step(h, ops[0]), Outstanding(h, out, ops[0]), NextLost(h, out, lost, ops[0]), ops[1..])
  }

  lemma SplitHeld(h: Heap, out: set<File>, lost: set<File>, f: File)
    requires Good(h) && Split(h, out, lost) && f in out
    ensures HeldFile(h, f) <==> f !in lost
    ensures 0 <= f.id || HasRow(h, f) || f in lost
  {
  }

  lemma SplitStep(h: Heap, out: set<File>, lost: set<File>, op: Op)
    requires Good(h) && Split(h, out, lost) && Allowed(h, op) && Polite(out, op) && forall f :: f in out ==> 0 <= f.id
    ensures var out' := Outstanding(h, out, op);
      Split(Step(h, op), out', NextLost(h, out, lost, op)) && forall f :: f in out' ==> 0 <= f.id
  {
    var h', out', lost' := Step(h, op), Outstanding(h, out, op), NextLost(h, out, lost, op);
    hide Step, Evicts, Load, HasRow, HeldFile, WaitingIn, Agrees, Sized, TempOk, PoolOk;
    forall f | f in lost'
      ensures !HeldFile(h', f)
    {
      if f in lost {
        StepHolds(h, op, f);
      } else {
        EvictedUnheld(h, op, f);
      }
    }
    forall f | f in out' && f !in lost'
      ensures WaitingIn(h'.Get(f.kind), f.id) || HasRow(h', f)
    {
      if f !in out {
        FreshlyWaiting(h, op);
      } else {
        StepHolds(h, op, f);
        if !HasRow(h, f) {
          StepWaiting(h, op, f);
        }
      }
    }
  }

  lemma StepGoodIff(h: Heap, out: set<File>, lost: set<File>, op: Op)
    requires Good(h) && Split(h, out, lost) && Allowed(h, op) && Polite(out, op)
    ensures Good(Step(h, op)) <==> (op.DoArrive? ==> File(op.kind, op.id) !in lost)
  {
    hide Step, Agrees, WaitingIn;
    StepKeepsGood(h, op);
    if op.DoArrive? {
      SplitHeld(h, out, lost, File(op.kind, op.id));
    }
  }

  /** The status table is truthful at every point of the run. */
  ghost predicate GoodThroughout(h: Heap, ops: seq<Op>)
    decreases |ops|
  {
    Good(h) && (ops != [] && Allowed(h, ops[0]) ==> GoodThroughout(Step(h, ops[0]), ops[1..]))
  }

  lemma {:induction false} GoodThroughoutIsEveryPrefix(h: Heap, ops: seq<Op>)
    ensures GoodThroughout(h, ops) <==> forall k :: 0 <= k <= |ops| ==> Good(Run(h, ops[..k]))
    decreases |ops|
  {
    hide Good, Step, Allowed;
    assert Run(h, ops[..0]) == h;
    if Good(h) {
      GoodIsReady(h);
      if ops != [] && Allowed(h, ops[0]) {
        GoodThroughoutIsEveryPrefix(Step(h, ops[0]), ops[1..]);
        forall k | 0 < k <= |ops|
          ensures Run(h, ops[..k]) == Run(Step(h, ops[0]), ops[1..][..k - 1])
        {
          assert ops[..k][0] == ops[0] && ops[..k][1..] == ops[1..][..k - 1];
        }
        PrefixesShift(h, Step(h, ops[0]), ops);
      } else {
        forall k | 0 <= k <= |ops|
          ensures Run(h, ops[..k]) == h
        {
          assert k > 0 ==> ops[..k][0] == ops[0];
        }
      }
    }
  }

  lemma GoodIsReady(h: Heap)
    requires Good(h)
    ensures Ready(h)
  {
  }

  lemma PrefixesShift(h: Heap, t: Heap, ops: seq<Op>)
    requires ops != [] && Good(h)
    requires forall k :: 0 < k <= |ops| ==> Run(h, ops[..k]) == Run(t, ops[1..][..k - 1])
    ensures (forall k :: 0 <= k <= |ops| ==> Good(Run(h, ops[..k]))) <==>
            (forall k :: 0 <= k <= |ops[1..]| ==> Good(Run(t, ops[1..][..k])))
  {
    hide Good;
    assert Run(h, ops[..0]) == h;
    if forall k :: 0 <= k <= |ops| ==> Good(Run(h, ops[..k])) {
      forall k | 0 <= k <= |ops[1..]|
        ensures Good(Run(t, ops[1..][..k]))
      {
        assert Run(h, ops[..k + 1]) == Run(t, ops[1..][..k + 1 - 1]);
      }
    }
  }

  /** Over every tidy run, the table is truthful at every point if and only if no file arrives that was
      laid over while outstanding and has no persistent entry. */
  lemma {:induction false} TruthfulIff(h: Heap, out: set<File>, lost: set<File>, ops: seq<Op>)
    requires Good(h) && Split(h, out, lost) && Tidy(h, out, ops) && forall f :: f in out ==> 0 <= f.id
    ensures GoodThroughout(h, ops) <==> NoLostArrival(h, out, lost, ops)
    decreases |ops|
  {
    hide Good, Step, Polite, Outstanding, NextLost, Split, Allowed;
    GoodIsReady(h);
    if ops != [] && Allowed(h, ops[0]) {
      StepGoodIff(h, out, lost, ops[0]);
      if Good(Step(h, ops[0])) {
        SplitStep(h, out, lost, ops[0]);
        TruthfulIff(Step(h, ops[0]), Outstanding(h, out, ops[0]), NextLost(h, out, lost, ops[0]), ops[1..]);
      }
    }
  }

  /** From a start with nothing outstanding. */
  lemma TruthfulFromStartIff(h: Heap, ops: seq<Op>)
    requires Good(h) && Tidy(h, {}, ops)
    ensures (forall k :: 0 <= k <= |ops| ==> Good(Run(h, ops[..k]))) <==> NoLostArrival(h, {}, {}, ops)
  {
    hide GoodThroughout, NoLostArrival, Run, Good, Tidy;
    TruthfulIff(h, {}, {}, ops);
    GoodThroughoutIsEveryPrefix(h, ops);
  }
}
