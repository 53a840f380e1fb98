/** Layout, status agreement, victim policy and recency of the sound caches. */
module SoundCacheProofs {
  import opened SoundCacheModel

  // ---------- the invariant ----------

  ghost predicate Held(c: Cache, id: int) {
    || id == c.temp.entry0.id || id == c.temp.entry1.id
    || exists i :: 0 <= i < |c.entries| && c.entries[i].id == id
  }

  /** A nonzero load status always belongs to an id that some entry holds. */
  ghost predicate Agrees(c: Cache) {
    forall id :: 0 <= id < |c.status| && c.status[id] != NOT_LOADED ==> Held(c, id)
  }

  ghost predicate Good(h: Heap) {
    Ready(h) && Agrees(h.seqs) && Agrees(h.fonts)
  }

  /** What stopping players and settling fonts may do: move statuses other than unloaded and loading,
      and flip nextSide. */
  predicate Softened(c: Cache, c': Cache) {
    && c'.entries == c.entries && c'.pool == c.pool
    && c'.temp == c.temp.(nextSide := c'.temp.nextSide)
    && (c'.temp.nextSide == c.temp.nextSide || c'.temp.nextSide in {0, 1})
    && |c'.status| == |c.status|
    && (forall id :: 0 <= id < |c.status| ==>
          && (c'.status[id] == NOT_LOADED <==> c.status[id] == NOT_LOADED)
          && (c'.status[id] == LOADING <==> c.status[id] == LOADING))
  }

  predicate SoftenedHeap(h: Heap, h': Heap) {
    Softened(h.seqs, h'.seqs) && Softened(h.fonts, h'.fonts)
  }

  lemma SoftenedAgrees(c: Cache, c': Cache)
    requires Softened(c, c')
    ensures Agrees(c) ==> Agrees(c')
    ensures IdsInRange(c) ==> IdsInRange(c')
    ensures TempOk(c.temp) ==> TempOk(c'.temp)
  {
    if Agrees(c) {
      forall id | 0 <= id < |c'.status| && c'.status[id] != NOT_LOADED
        ensures Held(c', id)
      {
        assert Held(c, id);
      }
    }
  }

  lemma StopSoftens(h: Heap, p: nat)
    requires Sized(h) && p < |h.players|
    ensures Sized(StopPlayer(h, p)) && SoftenedHeap(h, StopPlayer(h, p))
    ensures StopPlayer(h, p).seqs.temp == h.seqs.temp
  {
  }

  lemma SoftenedTrans(h: Heap, h': Heap, h'': Heap)
    requires SoftenedHeap(h, h') && SoftenedHeap(h', h'')
    ensures SoftenedHeap(h, h'')
  {
  }

  lemma {:induction false} DiscardSoftens(h: Heap, id: int, from: nat)
    requires Sized(h) && from <= |h.players|
    ensures Sized(DiscardSequence(h, id, from)) && SoftenedHeap(h, DiscardSequence(h, id, from))
    ensures DiscardSequence(h, id, from).seqs.temp == h.seqs.temp
    decreases |h.players| - from
  {
    if from < |h.players| {
      if h.players[from].enabled && h.players[from].seqId == id {
        StopSoftens(h, from);
        DiscardSoftens(StopPlayer(h, from), id, from + 1);
        SoftenedTrans(h, StopPlayer(h, from), DiscardSequence(h, id, from));
      } else {
        DiscardSoftens(h, id, from + 1);
      }
    }
  }

  lemma SettleSoftens(h: Heap, kind: Kind)
    requires Sized(h)
    ensures Sized(SettleBoth(h, kind)) && SoftenedHeap(h, SettleBoth(h, kind))
    ensures SettleBoth(h, kind).seqs.temp == h.seqs.temp && SettleBoth(h, kind).fonts.temp == h.fonts.temp
    ensures kind == Sequences ==> SettleBoth(h, kind) == h
  {
  }

  // ---------- layout ----------

  /** The region running into an empty side is exactly the region too large for the pool: the one
      way the status table could be indexed with -1. */
  lemma OverlapOfEmptySide(t: Temp, side: int, size: nat, id: int)
    requires TempOk(t) && side in {0, 1} && Side(t, 1 - side).id == NO_ID
    ensures Overlaps(Place(t, side, size, id)) <==> t.size < size + (if side == 1 then 0x10 else 0)
  {
  }

  /** The new region does not reach the opposite entry's. */
  predicate RegionsApart(t: Temp, side: int, size: nat) {
    if side == 0 then t.start + size <= t.entry1.ptr
    else t.entry0.ptr + t.entry0.size <= t.start + t.size - size - 0x10
  }

  /** The opposite entry, loading or not, is thrown out exactly when the two regions meet. */
  lemma OverlapIsMeeting(t: Temp, side: int, size: nat, id: int)
    requires TempOk(t) && side in {0, 1} && Side(t, 1 - side).id != NO_ID
    ensures Overlaps(Place(t, side, size, id)) <==> !RegionsApart(t, side, size)
  {
  }

  lemma PlaceLayout(t: Temp, side: int, size: nat, id: int)
    requires TempOk(t) && side in {0, 1} && size + 0x10 <= t.size && id != NO_ID
    ensures var u := Place(t, side, size, id);
      && (Overlaps(u) ==> Side(t, 1 - side).id != NO_ID)
      && TempOk((if Overlaps(u) then DropOpposite(u, side) else u).(nextSide := 1 - side))
  {
  }

  // ---------- allocation keeps everything ----------

  lemma ForgetAgrees(c: Cache, c': Cache, gone: set<int>)
    requires Agrees(c) && c'.entries == c.entries && |c'.status| == |c.status|
    requires forall id :: 0 <= id < |c.status| && c'.status[id] != NOT_LOADED ==> c.status[id] != NOT_LOADED && id !in gone
    requires c.temp.entry0.id in gone || c.temp.entry0.id == c'.temp.entry0.id
    requires c.temp.entry1.id in gone || c.temp.entry1.id == c'.temp.entry1.id
    ensures Agrees(c')
  {
    forall id | 0 <= id < |c'.status| && c'.status[id] != NOT_LOADED
      ensures Held(c', id)
    {
      assert Held(c, id);
    }
  }

  /** Taking a side: the new entry is in place, the layout survives, and the other entry is untouched or
      gone, according to whether the regions meet. */
  lemma OccupyLayout(c: Cache, side: int, size: nat, id: int)
    requires IdsInRange(c) && TempOk(c.temp)
    requires side in {0, 1} && 0 <= id < |c.status| && FitsTemp(c, size)
    ensures Overlaps(Place(c.temp, side, size, id)) ==> Side(c.temp, 1 - side).id != NO_ID
    ensures var (c', lost) := Occupy(c, side, size, id);
      && IdsInRange(c') && TempOk(c'.temp)
      && c'.entries == c.entries && c'.pool == c.pool && c'.temp.start == c.temp.start && c'.temp.size == c.temp.size
      && Side(c'.temp, side).id == id && Side(c'.temp, side).size == size && Side(c'.temp, side).ptr != 0
      && c'.temp.nextSide == 1 - side
      && (if lost == NO_ID then Side(c'.temp, 1 - side) == Side(c.temp, 1 - side)
          else lost == Side(c.temp, 1 - side).id && Side(c'.temp, 1 - side).id == NO_ID)
      && (lost != NO_ID <==> Side(c.temp, 1 - side).id != NO_ID && !RegionsApart(c.temp, side, size))
  {
    PlaceLayout(c.temp, side, size, id);
    if Side(c.temp, 1 - side).id == NO_ID {
      OverlapOfEmptySide(c.temp, side, size, id);
    } else {
      OverlapIsMeeting(c.temp, side, size, id);
    }
  }

  /** Exactly the statuses of the evicted ids are cleared. */
  lemma OccupyStatus(c: Cache, side: int, size: nat, id: int, k: int)
    requires IdsInRange(c) && TempOk(c.temp)
    requires side in {0, 1} && 0 <= id < |c.status| && FitsTemp(c, size) && 0 <= k < |c.status|
    ensures Overlaps(Place(c.temp, side, size, id)) ==> Side(c.temp, 1 - side).id != NO_ID
    ensures var (c', lost) := Occupy(c, side, size, id);
      c'.status[k] == if k == Side(c.temp, side).id || k == lost then NOT_LOADED else c.status[k]
  {
    PlaceLayout(c.temp, side, size, id);
  }

  /** Taking a side also keeps statuses and entries agreed. */
  lemma OccupyAgrees(c: Cache, side: int, size: nat, id: int)
    requires IdsInRange(c) && TempOk(c.temp) && Agrees(c)
    requires side in {0, 1} && 0 <= id < |c.status| && FitsTemp(c, size)
    ensures Overlaps(Place(c.temp, side, size, id)) ==> Side(c.temp, 1 - side).id != NO_ID
    ensures Agrees(Occupy(c, side, size, id).0)
  {
    OccupyLayout(c, side, size, id);
    var (c', lost) := Occupy(c, side, size, id);
    forall k | 0 <= k < |c.status| && c'.status[k] != NOT_LOADED
      ensures c.status[k] != NOT_LOADED && k !in {Side(c.temp, side).id, lost}
    {
      OccupyStatus(c, side, size, id, k);
    }
    ForgetAgrees(c, c', {Side(c.temp, side).id, lost});
  }

  lemma SetReady(h: Heap, kind: Kind, c: Cache)
    requires Ready(h) && IdsInRange(c) && TempOk(c.temp) && PoolOk(c.pool) && |c.status| == |h.Get(kind).status|
    ensures Ready(h.Set(kind, c))
    ensures Good(h) && Agrees(c) ==> Good(h.Set(kind, c))
  {
  }

  lemma SoftenedReady(h: Heap, h': Heap)
    requires Ready(h) && Sized(h') && SoftenedHeap(h, h')
    ensures Ready(h')
    ensures Good(h) ==> Good(h')
  {
    SoftenedAgrees(h.seqs, h'.seqs);
    SoftenedAgrees(h.fonts, h'.fonts);
  }

  lemma AllocOnSideKeeps(h: Heap, kind: Kind, side: int, size: nat, id: int)
    requires Ready(h) && side in {0, 1} && 0 <= id < |h.Get(kind).status| && FitsTemp(h.Get(kind), size)
    ensures Overlaps(Place(h.Get(kind).temp, side, size, id)) ==> Side(h.Get(kind).temp, 1 - side).id != NO_ID
    ensures var (h', ptr) := AllocOnSide(h, kind, side, size, id);
      var (c, _) := Occupy(h.Get(kind), side, size, id);
      && Ready(h') && (Good(h) ==> Good(h')) && ptr != 0
      && Sized(h.Set(kind, c)) && SoftenedHeap(h.Set(kind, c), h')
      && h'.Get(kind).temp == c.temp && h'.Get(kind).entries == h.Get(kind).entries && ptr == Side(c.temp, side).ptr
  {
    hide TempOk, PoolOk, IdsInRange, Agrees, RegionsApart, FitsTemp;
    OccupyLayout(h.Get(kind), side, size, id);
    var (c, lost) := Occupy(h.Get(kind), side, size, id);
    SetReady(h, kind, c);
    if Good(h) {
      OccupyAgrees(h.Get(kind), side, size, id);
    }
    if kind == Sequences && lost != NO_ID {
      DiscardSoftens(h.Set(kind, c), lost, 0);
      SoftenedReady(h.Set(kind, c), DiscardSequence(h.Set(kind, c), lost, 0));
    }
  }

  /** Stopping players neither reads nor writes the temporary entries of the sequence cache. */
  lemma {:induction false} DiscardIgnoresTemp(h: Heap, t: Temp, id: int, from: nat)
    requires Sized(h) && Sized(h.(seqs := h.seqs.(temp := t))) && from <= |h.players|
    ensures var d := DiscardSequence(h, id, from);
      DiscardSequence(h.(seqs := h.seqs.(temp := t)), id, from) == d.(seqs := d.seqs.(temp := t))
    decreases |h.players| - from
  {
    if from < |h.players| {
      if h.players[from].enabled && h.players[from].seqId == id {
        StopSoftens(h, from);
        StopSoftens(h.(seqs := h.seqs.(temp := t)), from);
        DiscardIgnoresTemp(StopPlayer(h, from), t, id, from + 1);
      } else {
        DiscardIgnoresTemp(h, t, id, from + 1);
      }
    }
  }

  /** Evicting before or after the temporary entries are rewritten comes to the same heap. */
  lemma DiscardedThenDropped(h: Heap, kind: Kind, placed: Cache, goal: Cache, lost: int, side: int)
    requires Sized(h) && IdsInRange(placed) && IdsInRange(goal) && |placed.status| == |h.Get(kind).status|
    requires placed == goal.(temp := placed.temp)
    requires goal.temp == DropOpposite(placed.temp, side).(nextSide := 1 - side)
    ensures var h' := h.Set(kind, placed);
      var d := if kind == Sequences then DiscardSequence(h', lost, 0) else h';
      var e := h.Set(kind, goal);
      d.Set(kind, d.Get(kind).(temp := DropOpposite(d.Get(kind).temp, side).(nextSide := 1 - side))) ==
        if kind == Sequences then DiscardSequence(e, lost, 0) else e
  {
    if kind == Sequences {
      DiscardSoftens(h.(seqs := placed), lost, 0);
      DiscardIgnoresTemp(h.(seqs := placed), goal.temp, lost, 0);
    }
  }
}
