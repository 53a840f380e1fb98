/** What goes wrong when a load is evicted or asked for again before it arrives. */
module SoundCacheFailures {
  import opened SoundCacheModel
  import opened SoundCacheProofs
  import opened SoundCacheRuns
  import opened SoundCacheArrivals

  /** An outstanding file that only the temporary region holds, once evicted, leaves a status nobody
      answers for when it arrives. */
  lemma EvictedThenArrives(h: Heap, op: Op, f: File)
    requires Good(h) && Allowed(h, op) && op.DoLoad? && Evicts(h, op, f)
    requires WaitingIn(h.Get(f.kind), f.id) && f != File(op.kind, op.id)
    requires forall i :: 0 <= i < |h.Get(f.kind).entries| ==> h.Get(f.kind).entries[i].id != f.id
    ensures Good(Step(h, op)) && Allowed(Step(h, op), DoArrive(f.kind, f.id))
    ensures !Good(Step(Step(h, op), DoArrive(f.kind, f.id)))
  {
    var size := LoadSize(op.kind, op.length);
    StepKeepsGood(h, op);
    EvictedGone(h, op.kind, size, op.id, f.id);
    assert !Held(Step(h, op).Get(f.kind), f.id) by { hide AllocTemporary, ChooseSide, Agrees; }
    hide Step;
    StepKeepsGood(Step(h, op), DoArrive(f.kind, f.id));
  }

  lemma EvictedGone(h: Heap, kind: Kind, size: nat, id: int, k: int)
    requires Ready(h) && 0 <= id < |h.Get(kind).status| && FitsTemp(h.Get(kind), size)
    requires WaitingIn(h.Get(kind), k) && k != id && ChooseSide(h, kind) != NoSide
    requires var side := ChooseSide(h, kind).side; var t := h.Get(kind).temp;
      Side(t, 1 - side).id == k && !RegionsApart(t, side, size)
    ensures var c := AllocTemporary(h, kind, size, id).0.Get(kind);
      c.temp.entry0.id != k && c.temp.entry1.id != k && c.entries == h.Get(kind).entries
    ensures AllocTemporary(h, kind, size, id).1 != 0
  {
    TemporaryOutcome(h, kind, size, id);
    ChosenIsSide(h, kind);
    SettleSoftens(h, kind);
    var s := SettleBoth(h, kind);
    SoftenedReady(h, s);
    var side := ChooseSide(h, kind).side;
    AllocOnSideKeeps(s, kind, side, size, id);
    OccupyLayout(s.Get(kind), side, size, id);
  }

  // ---------- runs from a cold cache ----------

  /** No font is waiting for its notes to end. */
  predicate NonePending(c: Cache) {
    forall i :: 0 <= i < |c.status| ==> c.status[i] != FONT_PENDING
  }

  /** A cache after one more load on a side whose region is free of the opposite one. */
  function Loaded(c: Cache, side: int, size: nat, id: int, st: nat): Cache
    requires IdsInRange(c) && 0 <= id < |c.status|
  {
    var c1 := Forget(c, Side(c.temp, side).id);
    c1.(temp := Place(c.temp, side, size, id).(nextSide := 1 - side), status := c1.status[id := st])
  }

  lemma LoadsOnSide(h: Heap, kind: Kind, length: nat, id: int, async: bool, side: int)
    requires Ready(h) && NonePending(h.Get(kind)) && 0 <= id < |h.Get(kind).status|
    requires FitsTemp(h.Get(kind), LoadSize(kind, length)) && side in {0, 1}
    requires var c := h.Get(kind);
      Pick(StatusOf(c, c.temp.entry0.id), StatusOf(c, c.temp.entry1.id),
           InUse(h, kind, c.temp.entry0.id), InUse(h, kind, c.temp.entry1.id), c.temp.nextSide) == Chosen(side)
    ensures SettleBoth(h, kind) == h && ChooseSide(h, kind) == Chosen(side)
    ensures !Overlaps(Place(h.Get(kind).temp, side, LoadSize(kind, length), id)) ==>
              && Step(h, DoLoad(kind, 0, length, id, async)) ==
                 h.Set(kind, Loaded(h.Get(kind), side, LoadSize(kind, length), id, LoadedStatus(kind, length, async)))
              && Load(h, kind, 0, length, id, async).1 != 0
  {
    assert SettleBoth(h, kind) == h;
    hide InUse, LoadSize, LoadedStatus;
    if !Overlaps(Place(h.Get(kind).temp, side, LoadSize(kind, length), id)) {
      TemporaryOutcome(h, kind, LoadSize(kind, length), id);
    }
  }

  /** Two files asked for one after the other, the first arriving: all is well if and only if both fit. */
  lemma TwoLoadsIff(h: Heap, kind: Kind, pool: PoolState, start: nat, size: nat, x: int, lx: nat, y: int, ly: nat)
    requires Good(h) && h.Get(kind) == ColdCache(pool, start, size, |h.Get(kind).status|)
    requires 0 <= x < |h.Get(kind).status| && 0 <= y < |h.Get(kind).status| && x != y
    requires LoadedStatus(kind, lx, true) == LoadedStatus(kind, ly, true) == LOADING
    requires LoadSize(kind, lx) + 0x10 <= size && LoadSize(kind, ly) + 0x10 <= size
    ensures Good(Run(h, [DoLoad(kind, 0, lx, x, true), DoLoad(kind, 0, ly, y, true), DoArrive(kind, x)]))
            <==> LoadSize(kind, lx) + LoadSize(kind, ly) + 0x10 <= size
  {
    var a, b, c := DoLoad(kind, 0, lx, x, true), DoLoad(kind, 0, ly, y, true), DoArrive(kind, x);
    hide Step, Run, Agrees, LoadSize, LoadedStatus, ColdCache, TempOk, PoolOk;
    FirstLoad(h, kind, pool, start, size, x, lx);
    SecondLoad(Step(h, a), kind, x, y, ly);
    ThreeSteps(h, a, b, c);
  }

  /** With one file loading on side 0, the next load and the first arrival go well exactly when both fit. */
  lemma SecondLoad(h: Heap, kind: Kind, x: int, y: int, ly: nat)
    requires Good(h) && NonePending(h.Get(kind)) && 0 <= y < |h.Get(kind).status| && x != y
    requires FitsTemp(h.Get(kind), LoadSize(kind, ly)) && h.Get(kind).entries == []
    requires h.Get(kind).temp.entry0.id == x && WaitingIn(h.Get(kind), x) && h.Get(kind).temp.entry1.id == NO_ID
    ensures var b, c := DoLoad(kind, 0, ly, y, true), DoArrive(kind, x);
      && Allowed(h, b) && Good(Step(h, b)) && Allowed(Step(h, b), c)
      && (Good(Step(Step(h, b), c)) <==> h.Get(kind).temp.entry0.size + LoadSize(kind, ly) + 0x10 <= h.Get(kind).temp.size)
  {
    var b, c, f := DoLoad(kind, 0, ly, y, true), DoArrive(kind, x), File(kind, x);
    hide Step, Evicts, Agrees, ChooseSide, LoadSize, TempOk, PoolOk;
    SecondSide(h, kind, x, y, ly);
    EvictsSecond(h, kind, x, y, ly);
    StepKeepsGood(h, b);
    StepWaiting(h, b, f);
    if Evicts(h, b, f) {
      EvictedThenArrives(h, b, f);
    } else {
      StepKeepsGood(Step(h, b), c);
    }
  }

  /** The state after the first load: side 0 taken and loading. */
  lemma FirstLoad(h: Heap, kind: Kind, pool: PoolState, start: nat, size: nat, x: int, lx: nat)
    requires Good(h) && h.Get(kind) == ColdCache(pool, start, size, |h.Get(kind).status|)
    requires 0 <= x < |h.Get(kind).status| && LoadSize(kind, lx) + 0x10 <= size
    requires LoadedStatus(kind, lx, true) == LOADING
    ensures var h1 := Step(h, DoLoad(kind, 0, lx, x, true)); var c1 := h1.Get(kind);
      && Good(h1) && NonePending(c1) && |c1.status| == |h.Get(kind).status| && c1.entries == []
      && c1.temp.start == start && c1.temp.size == size
      && c1.temp.entry0 == Entry(start, LoadSize(kind, lx), x) && c1.temp.entry1.id == NO_ID
      && WaitingIn(c1, x) && h1.players == h.players && h1.noteFonts == h.noteFonts
  {
    StepKeepsGood(h, DoLoad(kind, 0, lx, x, true));
    LoadsOnSide(h, kind, lx, x, true, 0);
    hide Step, Load, LoadSize, LoadedStatus, Pick;
  }

  lemma SecondSide(h: Heap, kind: Kind, x: int, y: int, ly: nat)
    requires Ready(h) && NonePending(h.Get(kind)) && 0 <= y < |h.Get(kind).status|
    requires FitsTemp(h.Get(kind), LoadSize(kind, ly))
    requires h.Get(kind).temp.entry0.id == x && WaitingIn(h.Get(kind), x) && h.Get(kind).temp.entry1.id == NO_ID
    ensures ChooseSide(h, kind) == Chosen(1)
  {
    LoadsOnSide(h, kind, ly, y, true, 1);
  }

  lemma EvictsSecond(h: Heap, kind: Kind, x: int, y: int, ly: nat)
    requires Ready(h) && NonePending(h.Get(kind)) && ChooseSide(h, kind) == Chosen(1)
    requires h.Get(kind).temp.entry0.id == x != NO_ID
    ensures Evicts(h, DoLoad(kind, 0, ly, y, true), File(kind, x)) <==>
            h.Get(kind).temp.entry0.size + LoadSize(kind, ly) + 0x10 > h.Get(kind).temp.size
  {
    hide ChooseSide, LoadSize;
  }

  lemma ThreeSteps(h: Heap, a: Op, b: Op, c: Op)
    requires Ready(h) && Allowed(h, a) && Ready(Step(h, a)) && Allowed(Step(h, a), b)
    requires var h2 := Step(Step(h, a), b); Ready(h2) && Allowed(h2, c)
    ensures Run(h, [a, b, c]) == Step(Step(Step(h, a), b), c)
  {
    hide Step, Allowed, Sized, TempOk, PoolOk;
    var h1, h2 := Step(h, a), Step(Step(h, a), b);
    assert [a, b, c][1..] == [b, c] && [b, c][1..] == [c] && [c][1..] == [];
    assert Run(h1, [b, c]) == Run(h2, [c]);
    assert Run(h2, [c]) == Run(Step(h2, c), []);
  }

  /** Only the two temporary entries hold files, both small, and no font is pending. */
  predicate Shows(c: Cache, id0: int, id1: int) {
    c.entries == [] && c.temp.entry0.id == id0 && c.temp.entry1.id == id1 && SmallEntries(c.temp) && NonePending(c)
  }

  /** A small file takes the chosen side; only its own status and the victim's change. */
  lemma SmallOnSide(h: Heap, kind: Kind, length: nat, id: int, async: bool, side: int, id0: int, id1: int)
    requires Good(h) && Shows(h.Get(kind), id0, id1) && 0 <= id < |h.Get(kind).status| && side in {0, 1}
    requires Half(h.Get(kind).temp, LoadSize(kind, length))
    requires var c := h.Get(kind);
      Pick(StatusOf(c, id0), StatusOf(c, id1), InUse(h, kind, id0), InUse(h, kind, id1), c.temp.nextSide) == Chosen(side)
    ensures FitsTemp(h.Get(kind), LoadSize(kind, length))
    ensures var h' := Step(h, DoLoad(kind, 0, length, id, async)); var c, c' := h.Get(kind), h'.Get(kind);
      && Good(h') && h' == h.Set(kind, c') && |c'.status| == |c.status| && c'.temp.size == c.temp.size
      && (if side == 0 then Shows(c', id, id1) else Shows(c', id0, id))
      && forall k :: 0 <= k < |c.status| ==>
           c'.status[k] == if k == id then LoadedStatus(kind, length, async)
                           else if k == Side(c.temp, side).id then NOT_LOADED else c.status[k]
  {
    hide Step, Load, LoadSize, Pick, InUse, SettleBoth, ChooseSide, Agrees, TempOk, Loaded, Shows;
    ShowsFits(h.Get(kind), side, LoadSize(kind, length), id, id0, id1);
    StepKeepsGood(h, DoLoad(kind, 0, length, id, async));
    LoadsOnSide(h, kind, length, id, async, side);
    LoadedShows(h.Get(kind), side, LoadSize(kind, length), id, LoadedStatus(kind, length, async), id0, id1);
  }

  lemma ShowsFits(c: Cache, side: int, size: nat, id: int, id0: int, id1: int)
    requires TempOk(c.temp) && Shows(c, id0, id1) && Half(c.temp, size) && side in {0, 1}
    ensures FitsTemp(c, size) && !Overlaps(Place(c.temp, side, size, id)) && NonePending(c)
    ensures c.temp.entry0.id == id0 && c.temp.entry1.id == id1
  {
    NothingMeets(c.temp, side, size, id);
  }

  lemma LoadedShows(c: Cache, side: int, size: nat, id: int, st: nat, id0: int, id1: int)
    requires IdsInRange(c) && 0 <= id < |c.status| && Shows(c, id0, id1) && Half(c.temp, size) && side in {0, 1}
    requires st != FONT_PENDING
    ensures var c' := Loaded(c, side, size, id, st);
      && |c'.status| == |c.status| && c'.temp.size == c.temp.size
      && (if side == 0 then Shows(c', id, id1) else Shows(c', id0, id))
      && forall k :: 0 <= k < |c.status| ==>
           c'.status[k] == if k == id then st else if k == Side(c.temp, side).id then NOT_LOADED else c.status[k]
  {
  }

  lemma NothingMeets(t: Temp, side: int, size: nat, id: int)
    requires TempOk(t) && SmallEntries(t) && Half(t, size) && side in {0, 1}
    ensures !Overlaps(Place(t, side, size, id))
  {
  }

  /** Asked for twice before it arrives, a file ends in both sides as one status; the first arrival makes
      it a victim, and the second arrives when no entry is left, though every file fits beside any other. */
  lemma DuplicateLoadOrphaned(h: Heap, kind: Kind, x: int, lx: nat, y: int, ly: nat, ay: bool, z: int, lz: nat, az: bool)
    requires Good(h) && Shows(h.Get(kind), NO_ID, NO_ID)
    requires var n := |h.Get(kind).status|; 0 <= x < n && 0 <= y < n && 0 <= z < n && x != y && y != z && z != x
    requires LoadedStatus(kind, lx, true) == LOADING && !InUse(h, kind, x)
    requires Half(h.Get(kind).temp, LoadSize(kind, lx)) && Half(h.Get(kind).temp, LoadSize(kind, ly))
    requires Half(h.Get(kind).temp, LoadSize(kind, lz))
    ensures var load := DoLoad(kind, 0, lx, x, true);
      !Good(Run(h, [load, load, DoArrive(kind, x), DoLoad(kind, 0, ly, y, ay), DoLoad(kind, 0, lz, z, az), DoArrive(kind, x)]))
  {
    var load, arrive := DoLoad(kind, 0, lx, x, true), DoArrive(kind, x);
    var b, c := DoLoad(kind, 0, ly, y, ay), DoLoad(kind, 0, lz, z, az);
    hide Step, Run, Shows, Agrees, InUse, LoadSize, LoadedStatus, Ready, Half, Allowed;
    LoadedTwice(h, kind, x, lx);
    var h3 := Step(Step(Step(h, load), load), arrive);
    assert !InUse(h3, kind, x) by { SameUsers(h, h3, kind, x); }
    Orphaned(h3, kind, x, y, ly, ay, z, lz, az);
    ThreeSteps(h3, b, c, arrive);
    RunJoins(h, load, load, arrive, [b, c, arrive]);
    SixOps(load, load, arrive, b, c, arrive);
  }

  lemma SixOps(a: Op, b: Op, c: Op, d: Op, e: Op, f: Op)
    ensures [a, b, c] + [d, e, f] == [a, b, c, d, e, f]
  {
  }

  lemma SameUsers(h: Heap, h': Heap, kind: Kind, x: int)
    requires h' == h.Set(kind, h'.Get(kind))
    ensures InUse(h', kind, x) <==> InUse(h, kind, x)
  {
  }

  /** Both sides are given to x; one arrival completes it. */
  lemma LoadedTwice(h: Heap, kind: Kind, x: int, lx: nat)
    requires Good(h) && Shows(h.Get(kind), NO_ID, NO_ID) && 0 <= x < |h.Get(kind).status|
    requires Half(h.Get(kind).temp, LoadSize(kind, lx)) && LoadedStatus(kind, lx, true) == LOADING
    ensures var load := DoLoad(kind, 0, lx, x, true);
      && Allowed(h, load) && Good(Step(h, load)) && Allowed(Step(h, load), load)
      && Good(Step(Step(h, load), load)) && Allowed(Step(Step(h, load), load), DoArrive(kind, x))
      && var h3 := Step(Step(Step(h, load), load), DoArrive(kind, x)); var c := h3.Get(kind);
      && Good(h3) && h3 == h.Set(kind, c) && Shows(c, x, x) && |c.status| == |h.Get(kind).status|
      && c.temp.size == h.Get(kind).temp.size && c.status[x] == COMPLETE
  {
    var load := DoLoad(kind, 0, lx, x, true);
    hide Step, Shows, Agrees, InUse, LoadSize, LoadedStatus, TempOk, PoolOk;
    SmallOnSide(h, kind, lx, x, true, 0, NO_ID, NO_ID);
    var h1 := Step(h, load);
    SmallOnSide(h1, kind, lx, x, true, 1, x, NO_ID);
    ArrivesTwice(Step(h1, load), kind, x);
  }

  /** Then the next two loads take both sides away from x. */
  lemma Orphaned(h: Heap, kind: Kind, x: int, y: int, ly: nat, ay: bool, z: int, lz: nat, az: bool)
    requires Good(h) && Shows(h.Get(kind), x, x) && !InUse(h, kind, x)
    requires var n := |h.Get(kind).status|; 0 <= x < n && 0 <= y < n && 0 <= z < n && x != y && y != z && z != x
    requires h.Get(kind).status[x] == COMPLETE
    requires Half(h.Get(kind).temp, LoadSize(kind, ly)) && Half(h.Get(kind).temp, LoadSize(kind, lz))
    ensures var b, c := DoLoad(kind, 0, ly, y, ay), DoLoad(kind, 0, lz, z, az);
      && Allowed(h, b) && Good(Step(h, b)) && Allowed(Step(h, b), c)
      && var h2 := Step(Step(h, b), c);
      && Good(h2) && Allowed(h2, DoArrive(kind, x)) && !Good(Step(h2, DoArrive(kind, x)))
  {
    var b, c := DoLoad(kind, 0, ly, y, ay), DoLoad(kind, 0, lz, z, az);
    hide Step, Shows, Agrees, InUse, LoadSize, TempOk, PoolOk, Half, NonePending;
    SmallOnSide(h, kind, ly, y, ay, 0, x, x);
    var h1 := Step(h, b);
    SameHalf(h, h1, kind, LoadSize(kind, lz));
    ShownIds(h1.Get(kind), y, x);
    SmallOnSide(h1, kind, lz, z, az, 1, y, x);
    NotHeld(Step(h1, c).Get(kind), y, z, x);
    StepKeepsGood(Step(h1, c), DoArrive(kind, x));
  }

  lemma SameHalf(h: Heap, h': Heap, kind: Kind, size: int)
    requires h'.Get(kind).temp.size == h.Get(kind).temp.size
    ensures Half(h.Get(kind).temp, size) <==> Half(h'.Get(kind).temp, size)
  {
  }

  lemma ShownIds(c: Cache, id0: int, id1: int)
    requires Shows(c, id0, id1)
    ensures c.temp.entry0.id == id0 && c.temp.entry1.id == id1
  {
  }

  lemma NotHeld(c: Cache, id0: int, id1: int, x: int)
    requires Shows(c, id0, id1) && x != id0 && x != id1
    ensures !Held(c, x)
  {
  }

  lemma ArrivesTwice(h: Heap, kind: Kind, x: int)
    requires Good(h) && Shows(h.Get(kind), x, x) && 0 <= x < |h.Get(kind).status|
    ensures var h' := Step(h, DoArrive(kind, x)); var c := h'.Get(kind);
      && Good(h') && Shows(c, x, x) && c.status == h.Get(kind).status[x := COMPLETE] && c.temp == h.Get(kind).temp
      && h' == h.Set(kind, c)
  {
    StepKeepsGood(h, DoArrive(kind, x));
  }

  lemma RunJoins(h: Heap, a: Op, b: Op, c: Op, rest: seq<Op>)
    requires Ready(h) && Allowed(h, a) && Ready(Step(h, a)) && Allowed(Step(h, a), b)
    requires var h2 := Step(Step(h, a), b); Ready(h2) && Allowed(h2, c)
    ensures Run(h, [a, b, c] + rest) == Run(Step(Step(Step(h, a), b), c), rest)
  {
    hide Step, Allowed, Sized, TempOk, PoolOk;
    var h1, h2 := Step(h, a), Step(Step(h, a), b);
    assert ([a, b, c] + rest)[1..] == [b, c] + rest && ([b, c] + rest)[1..] == [c] + rest && ([c] + rest)[1..] == rest;
    assert Run(h1, [b, c] + rest) == Run(h2, [c] + rest);
    assert Run(h2, [c] + rest) == Run(Step(h2, c), rest);
  }
}
