/** Victim policy, the layout over whole runs, and what each operation does to status agreement. */
module SoundCacheRuns {
  import opened SoundCacheModel
  import opened SoundCacheProofs

  // ---------- victim policy ----------

  /** How willingly a side is given up: unloaded, discardable, complete and idle, in use, loading. */
  function Rank(st: nat, used: bool): nat {
    if st == NOT_LOADED then 0
    else if st == DISCARDABLE then 1
    else if st == COMPLETE && !used then 2
    else if st != LOADING then 3
    else 4
  }

  /** The branch cascade is a minimum: the lower rank goes; discardable ties follow nextSide,
      other ties take side 0; nothing goes exactly when both sides are loading. */
  lemma PickIsLeastRank(st0: nat, st1: nat, used0: bool, used1: bool, nextSide: int)
    ensures var r0, r1 := Rank(st0, used0), Rank(st1, used1);
      Pick(st0, st1, used0, used1, nextSide) ==
        if r0 == 4 && r1 == 4 then NoSide
        else if r0 < r1 then Chosen(0)
        else if r1 < r0 then Chosen(1)
        else if r0 == 1 then Chosen(nextSide)
        else Chosen(0)
  {
  }

  predicate LoadingSide(c: Cache, side: int)
    requires IdsInRange(c)
  {
    StatusOf(c, Side(c.temp, side).id) == LOADING
  }

  /** A temporary allocation fails exactly when both sides are loading, and then changes nothing;
      otherwise the side it takes was not loading. */
  lemma TemporaryOutcome(h: Heap, kind: Kind, size: nat, id: int)
    requires Ready(h) && 0 <= id < |h.Get(kind).status| && FitsTemp(h.Get(kind), size)
    ensures var (h', ptr) := AllocTemporary(h, kind, size, id);
      var c := h.Get(kind);
      && Ready(h') && (Good(h) ==> Good(h'))
      && (ptr == 0 <==> LoadingSide(c, 0) && LoadingSide(c, 1))
      && (ptr == 0 ==> h' == h)
      && (ptr != 0 ==>
            var side := 1 - h'.Get(kind).temp.nextSide;
            && ChooseSide(h, kind) == Chosen(side) && !LoadingSide(c, side)
            && Side(h'.Get(kind).temp, side) == Entry(ptr, size, id))
      && h'.Get(kind).entries == c.entries
  {
    hide AllocOnSide, Occupy, SettleBoth, ChooseSide, TempOk, PoolOk, IdsInRange, Agrees, LoadingSide;
    ChoiceMeaning(h, kind);
    SettleSoftens(h, kind);
    var s := SettleBoth(h, kind);
    SoftenedReady(h, s);
    if ChooseSide(h, kind) != NoSide {
      var side := ChooseSide(h, kind).side;
      AllocOnSideKeeps(s, kind, side, size, id);
      OccupyLayout(s.Get(kind), side, size, id);
      assert s.Get(kind).entries == h.Get(kind).entries by { SettleEntries(h, kind); }
    }
  }

  /** The choice as seen before settling: no side exactly when both are loading, never a loading one. */
  lemma ChoiceMeaning(h: Heap, kind: Kind)
    requires Ready(h)
    ensures ChooseSide(h, kind) == NoSide <==> LoadingSide(h.Get(kind), 0) && LoadingSide(h.Get(kind), 1)
    ensures ChooseSide(h, kind) == NoSide ==> SettleBoth(h, kind) == h
    ensures ChooseSide(h, kind) != NoSide ==>
              ChooseSide(h, kind).side in {0, 1} && !LoadingSide(h.Get(kind), ChooseSide(h, kind).side)
  {
    hide InUse;
  }

  lemma SettleEntries(h: Heap, kind: Kind)
    requires Sized(h)
    ensures SettleBoth(h, kind).Get(kind).entries == h.Get(kind).entries
    ensures SettleBoth(h, kind).Get(kind).temp == h.Get(kind).temp
  {
    SettleSoftens(h, kind);
  }

  /** Settling keeps the heap ready and every temporary entry in place, so either side can be taken. */
  lemma EitherSideReady(h: Heap, kind: Kind, size: nat, id: int)
    requires Ready(h) && 0 <= id < |h.Get(kind).status| && FitsTemp(h.Get(kind), size)
    ensures var s := SettleBoth(h, kind);
      && Ready(s) && s.Get(kind).temp == h.Get(kind).temp
      && s.players == h.players && s.noteFonts == h.noteFonts
      && forall side :: side in {0, 1} ==>
           (Overlaps(Place(s.Get(kind).temp, side, size, id)) ==> Side(s.Get(kind).temp, 1 - side).id != NO_ID)
  {
    SettleSoftens(h, kind);
    SoftenedReady(h, SettleBoth(h, kind));
    OccupyLayout(SettleBoth(h, kind).Get(kind), 0, size, id);
    OccupyLayout(SettleBoth(h, kind).Get(kind), 1, size, id);
  }

  lemma ChosenIsSide(h: Heap, kind: Kind)
    requires Ready(h)
    ensures ChooseSide(h, kind) == NoSide || ChooseSide(h, kind).side in {0, 1}
  {
    SettleSoftens(h, kind);
  }

  /** The load goes to the temporary region. */
  predicate TakesSide(h: Heap, op: Op)
    requires op.DoLoad?
  {
    UsesTemporary(h.Get(op.kind), op.persistence, LoadSize(op.kind, op.length))
  }

  // ---------- the layout over runs ----------

  lemma AllocCachedReady(h: Heap, kind: Kind, persistence: nat, size: nat, id: int)
    requires Ready(h) && 0 <= id < |h.Get(kind).status| && Fits(h.Get(kind), persistence, size)
    ensures Ready(AllocCached(h, kind, persistence, size, id).0)
  {
    hide AllocTemporary;
    if UsesTemporary(h.Get(kind), persistence, size) {
      TemporaryOutcome(h, kind, size, id);
    } else {
      PersistentReady(h, kind, persistence, size, id);
    }
  }

  lemma PersistentReady(h: Heap, kind: Kind, persistence: nat, size: nat, id: int)
    requires Ready(h) && 0 <= id < |h.Get(kind).status| && !UsesTemporary(h.Get(kind), persistence, size)
    ensures Ready(AllocCached(h, kind, persistence, size, id).0)
  {
    var c := h.Get(kind);
    var c' := AllocCached(h, kind, persistence, size, id).0.Get(kind);
    assert IdsInRange(c') && TempOk(c'.temp) && PoolOk(c'.pool) by { hide TempOk; }
    hide TempOk, IdsInRange, PoolOk, Sized;
    if c' != c {
      SetReady(h, kind, c');
    }
  }

  lemma SearchKeeps(h: Heap, kind: Kind, persistence: nat, id: int)
    requires Ready(h)
    ensures Ready(Search(h, kind, persistence, id).0)
    ensures Good(h) ==> Good(Search(h, kind, persistence, id).0)
  {
    hide Agrees, TempOk, PoolOk, Search, Softened, IdsInRange;
    SearchSoftens(h, kind, persistence, id);
    SoftenedReady(h, Search(h, kind, persistence, id).0);
  }

  lemma SearchSoftens(h: Heap, kind: Kind, persistence: nat, id: int)
    requires Sized(h)
    ensures Sized(Search(h, kind, persistence, id).0) && SoftenedHeap(h, Search(h, kind, persistence, id).0)
  {
    hide FindPersistent;
  }

  lemma LoadReady(h: Heap, kind: Kind, persistence: nat, length: nat, id: int, async: bool)
    requires Ready(h) && 0 <= id < |h.Get(kind).status| && Fits(h.Get(kind), persistence, LoadSize(kind, length))
    ensures Ready(Load(h, kind, persistence, length, id, async).0)
  {
    hide AllocCached, TempOk, PoolOk;
    AllocCachedReady(h, kind, persistence, LoadSize(kind, length), id);
  }

  /** Every operation keeps the layout, whatever the statuses say. */
  lemma StepReady(h: Heap, op: Op)
    requires Ready(h) && Allowed(h, op)
    ensures Ready(Step(h, op))
  {
    hide Load, StopPlayer, Search, TempOk, PoolOk;
    match op
    case DoLoad(kind, persistence, length, id, async) => LoadReady(h, kind, persistence, length, id, async);
    case DoSearch(kind, persistence, id) => SearchKeeps(h, kind, persistence, id);
    case DoStop(p) =>
      StopSoftens(h, p);
      SoftenedReady(h, StopPlayer(h, p));
    case _ =>
  }

  lemma {:induction false} RunReady(h: Heap, ops: seq<Op>)
    requires Ready(h)
    ensures Ready(Run(h, ops))
    decreases |ops|
  {
    if ops != [] && Allowed(h, ops[0]) {
      StepReady(h, ops[0]);
      RunReady(Step(h, ops[0]), ops[1..]);
    }
  }

  /** What the layout is for: in every reachable state the two live regions are inside the pool and apart. */
  lemma LiveRegionsDisjoint(h: Heap, ops: seq<Op>, kind: Kind)
    requires Ready(h)
    ensures var t := Run(h, ops).Get(kind).temp;
      && (t.entry0.id != NO_ID ==> t.start <= t.entry0.ptr && t.entry0.ptr + t.entry0.size <= t.start + t.size)
      && (t.entry1.id != NO_ID ==> t.start <= t.entry1.ptr && t.entry1.ptr + t.entry1.size <= t.start + t.size)
      && (t.entry0.id != NO_ID && t.entry1.id != NO_ID ==> t.entry0.ptr + t.entry0.size <= t.entry1.ptr)
  {
    RunReady(h, ops);
  }

  // ---------- status agreement over runs ----------

  lemma AllocCachedKeeps(h: Heap, kind: Kind, persistence: nat, size: nat, id: int)
    requires Good(h) && 0 <= id < |h.Get(kind).status| && Fits(h.Get(kind), persistence, size)
    ensures var (h', ptr) := AllocCached(h, kind, persistence, size, id);
      Good(h') && (ptr != 0 ==> Held(h'.Get(kind), id))
  {
    var (h', ptr) := AllocCached(h, kind, persistence, size, id);
    var c, c' := h.Get(kind), h'.Get(kind);
    if UsesTemporary(c, persistence, size) {
      TemporaryOutcome(h, kind, size, id);
    }
    if persistence != 0 && (PoolFits(c.pool, size) || persistence > 2) {
      assert c'.entries == c.entries + [Entry(ptr, size, id)];
      assert c'.entries[|c.entries|].id == id;
      forall k | 0 <= k < |c'.status| && c'.status[k] != NOT_LOADED
        ensures Held(c', k)
      {
        assert Held(c, k);
        if i :| 0 <= i < |c.entries| && c.entries[i].id == k {
          assert c'.entries[i].id == k;
        }
      }
    }
  }

  lemma SetStatus(c: Cache, id: int, st: nat)
    requires Agrees(c) && 0 <= id < |c.status| && st != NOT_LOADED
    ensures Agrees(c.(status := c.status[id := st])) <==> Held(c, id)
  {
    var c' := c.(status := c.status[id := st]);
    assert Held(c', id) <==> Held(c, id);
    if Held(c, id) {
      forall k | 0 <= k < |c'.status| && c'.status[k] != NOT_LOADED
        ensures Held(c', k)
      {
        assert Held(c, k);
      }
    } else {
      assert c'.status[id] != NOT_LOADED;
    }
  }

  lemma LoadKeeps(h: Heap, kind: Kind, persistence: nat, length: nat, id: int, async: bool)
    requires Good(h) && 0 <= id < |h.Get(kind).status| && Fits(h.Get(kind), persistence, LoadSize(kind, length))
    ensures Good(Load(h, kind, persistence, length, id, async).0)
  {
    hide AllocCached;
    AllocCachedKeeps(h, kind, persistence, LoadSize(kind, length), id);
    var (h', ptr) := AllocCached(h, kind, persistence, LoadSize(kind, length), id);
    if ptr != 0 {
      SetStatus(h'.Get(kind), id, LoadedStatus(kind, length, async));
    }
  }

  /** An asynchronous load that completes after its entry was thrown out marks an id nobody holds;
      every other operation, duplicates and fallbacks included, keeps statuses and entries agreed. */
  lemma StepKeepsGood(h: Heap, op: Op)
    requires Good(h) && Allowed(h, op)
    ensures Good(Step(h, op)) <==> (op.DoArrive? ==> Held(h.Get(op.kind), op.id))
  {
    hide Load, StopPlayer, Search;
    match op
    case DoLoad(kind, persistence, length, id, async) => LoadKeeps(h, kind, persistence, length, id, async);
    case DoSearch(kind, persistence, id) => SearchKeeps(h, kind, persistence, id);
    case DoStop(p) =>
      StopSoftens(h, p);
      SoftenedReady(h, StopPlayer(h, p));
    case DoPlay(p, seqId, font) =>
    case DoNotes(fonts) =>
    case DoArrive(kind, id) => SetStatus(h.Get(kind), id, COMPLETE);
  }

  // ---------- the initial state ----------

  function ColdTemp(start: nat, size: nat): Temp {
    Temp(0, start, start, size, Entry(start, 0, NO_ID), Entry(start + size, 0, NO_ID))
  }

  function ColdCache(pool: PoolState, start: nat, size: nat, ids: nat): Cache {
    Cache([], pool, ColdTemp(start, size), seq(ids, _ => NOT_LOADED))
  }

  /** The state both initialisers leave: nothing loaded, both sides empty, side 0 next. */
  lemma ColdStartGood(h: Heap, kind: Kind, pool: PoolState, start: nat, size: nat, ids: nat)
    requires Good(h) && 0 < start && PoolOk(pool) && ids == |h.Get(kind).status|
    ensures Good(h.Set(kind, ColdCache(pool, start, size, ids)))
  {
    SetReady(h, kind, ColdCache(pool, start, size, ids));
  }
}
