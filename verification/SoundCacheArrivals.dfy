/** Asynchronous loads until they arrive: when the entry is still there, and so when the status table
    stays truthful over whole runs. */
module SoundCacheArrivals {
  import opened SoundCacheModel
  import opened SoundCacheProofs
  import opened SoundCacheRuns

  /** A file whose asynchronous load has been requested and has not arrived. */
  datatype File = File(kind: Kind, id: int)

  ghost predicate WaitingIn(c: Cache, id: int) {
    0 <= id < |c.status| && c.status[id] == LOADING && Held(c, id)
  }

  /** Every outstanding file is marked loading and has an entry. */
  ghost predicate Waiting(h: Heap, out: set<File>) {
    forall f :: f in out ==> WaitingIn(h.Get(f.kind), f.id)
  }

  // ---------- one operation ----------

  /** The load would place its region over the opposite entry, which is f's. */
  predicate Evicts(h: Heap, op: Op, f: File)
    requires Ready(h) && op.DoLoad?
  {
    && op.kind == f.kind && TakesSide(h, op) && ChooseSide(h, op.kind) != NoSide
    && var side, t := ChooseSide(h, op.kind).side, h.Get(op.kind).temp;
      Side(t, 1 - side).id == f.id && !RegionsApart(t, side, LoadSize(op.kind, op.length))
  }

  lemma SoftenedWaiting(c: Cache, c': Cache, id: int)
    requires Softened(c, c')
    ensures WaitingIn(c, id) <==> WaitingIn(c', id)
  {
  }

  lemma OccupyWaiting(c: Cache, side: int, size: nat, id: int, k: int)
    requires IdsInRange(c) && TempOk(c.temp)
    requires side in {0, 1} && 0 <= id < |c.status| && FitsTemp(c, size)
    requires WaitingIn(c, k) && k != id && k != Side(c.temp, side).id
    ensures Overlaps(Place(c.temp, side, size, id)) ==> Side(c.temp, 1 - side).id != NO_ID
    ensures WaitingIn(Occupy(c, side, size, id).0, k) <==> Occupy(c, side, size, id).1 != k
  {
    OccupyLayout(c, side, size, id);
    OccupyStatus(c, side, size, id, k);
  }

  /** A temporary allocation of another file takes a waiting file's entry exactly when it is the
      opposite one and the regions meet. */
  lemma AllocTemporaryWaiting(h: Heap, kind: Kind, size: nat, id: int, f: File)
    requires Ready(h) && 0 <= id < |h.Get(kind).status| && FitsTemp(h.Get(kind), size)
    requires WaitingIn(h.Get(f.kind), f.id) && f != File(kind, id)
    ensures var (h', ptr) := AllocTemporary(h, kind, size, id);
      var t := h.Get(kind).temp;
      WaitingIn(h'.Get(f.kind), f.id) <==>
        !(f.kind == kind && ptr != 0 && var side := ChooseSide(h, kind).side;
            Side(t, 1 - side).id == f.id && !RegionsApart(t, side, size))
  {
    TemporaryOutcome(h, kind, size, id);
    SettleSoftens(h, kind);
    var s := SettleBoth(h, kind);
    SoftenedReady(h, s);
    if ChooseSide(h, kind) != NoSide {
      var side := ChooseSide(h, kind).side;
      ChosenIsSide(h, kind);
      AllocOnSideKeeps(s, kind, side, size, id);
      OccupyLayout(s.Get(kind), side, size, id);
      var h' := AllocTemporary(h, kind, size, id).0;
      var u := s.Set(kind, Occupy(s.Get(kind), side, size, id).0);
      hide AllocTemporary, AllocOnSide, Occupy, SettleBoth, ChooseSide, TempOk, IdsInRange, WaitingIn;
      SoftenedWaiting(h.Get(f.kind), s.Get(f.kind), f.id);
      SoftenedWaiting(u.Get(f.kind), h'.Get(f.kind), f.id);
      if f.kind == kind {
        NotVictim(h.Get(kind), side, f.id);
        OccupyWaiting(s.Get(kind), side, size, id, f.id);
      }
    }
  }

  lemma NotVictim(c: Cache, side: int, k: int)
    requires IdsInRange(c) && side in {0, 1} && WaitingIn(c, k) && !LoadingSide(c, side)
    ensures k != Side(c.temp, side).id && k != NO_ID
  {
  }

  /** A load of another file takes a waiting file's entry exactly in that case. */
  lemma LoadWaiting(h: Heap, op: Op, f: File)
    requires Ready(h) && Allowed(h, op) && op.DoLoad?
    requires WaitingIn(h.Get(f.kind), f.id) && f != File(op.kind, op.id)
    ensures WaitingIn(Step(h, op).Get(f.kind), f.id) <==> !Evicts(h, op, f)
  {
    var size := LoadSize(op.kind, op.length);
    var (h', ptr) := AllocCached(h, op.kind, op.persistence, size, op.id);
    hide AllocTemporary, ChooseSide, RegionsApart, TempOk, PoolOk;
    if TakesSide(h, op) {
      TemporaryOutcome(h, op.kind, size, op.id);
      AllocTemporaryWaiting(h, op.kind, size, op.id, f);
      assert ptr != 0 <==> ChooseSide(h, op.kind) != NoSide by { NoneChosen(h, op.kind, size, op.id); }
    } else {
      PersistentWaiting(h, op.kind, op.persistence, size, op.id, f);
    }
    if ptr != 0 && f.kind == op.kind {
      StatusWaiting(h'.Get(f.kind), op.id, LoadedStatus(op.kind, op.length, op.async), f.id);
    }
  }

  lemma NoneChosen(h: Heap, kind: Kind, size: nat, id: int)
    requires Ready(h) && 0 <= id < |h.Get(kind).status| && FitsTemp(h.Get(kind), size)
    ensures AllocTemporary(h, kind, size, id).1 != 0 <==> ChooseSide(h, kind) != NoSide
  {
    hide AllocOnSide;
    TemporaryOutcome(h, kind, size, id);
  }

  lemma PersistentWaiting(h: Heap, kind: Kind, persistence: nat, size: nat, id: int, f: File)
    requires Ready(h) && 0 <= id < |h.Get(kind).status| && !UsesTemporary(h.Get(kind), persistence, size)
    requires WaitingIn(h.Get(f.kind), f.id)
    ensures WaitingIn(AllocCached(h, kind, persistence, size, id).0.Get(f.kind), f.id)
  {
    var c, c' := h.Get(f.kind), AllocCached(h, kind, persistence, size, id).0.Get(f.kind);
    if i :| 0 <= i < |c.entries| && c.entries[i].id == f.id {
      assert c'.entries[i].id == f.id;
    }
  }

  lemma StatusWaiting(c: Cache, id: int, st: nat, k: int)
    requires 0 <= id < |c.status| && k != id
    ensures WaitingIn(c.(status := c.status[id := st]), k) <==> WaitingIn(c, k)
  {
    assert Held(c.(status := c.status[id := st]), k) <==> Held(c, k);
  }

  /** Of all operations, only such a load and its own arrival end a file's waiting. */
  lemma StepWaiting(h: Heap, op: Op, f: File)
    requires Ready(h) && Allowed(h, op) && WaitingIn(h.Get(f.kind), f.id)
    requires op.DoLoad? || op.DoArrive? ==> f != File(op.kind, op.id)
    ensures WaitingIn(Step(h, op).Get(f.kind), f.id) <==> !(op.DoLoad? && Evicts(h, op, f))
  {
    if op.DoLoad? {
      LoadWaiting(h, op, f);
    } else {
      hide StopPlayer, TempOk, PoolOk;
      if op.DoStop? {
        StopSoftens(h, op.player);
      }
      if !(op.DoArrive? && op.kind == f.kind) {
        OtherSoftens(h, op);
        SoftenedWaiting(h.Get(f.kind), Step(h, op).Get(f.kind), f.id);
      } else {
        StatusWaiting(h.Get(f.kind), op.id, COMPLETE, f.id);
      }
    }
  }

  lemma OtherSoftens(h: Heap, op: Op)
    requires Ready(h) && Allowed(h, op) && !op.DoLoad?
    ensures var h' := Step(h, op);
      && (!(op.DoArrive? && op.kind == Sequences) ==> Softened(h.seqs, h'.seqs))
      && (!(op.DoArrive? && op.kind == Fonts) ==> Softened(h.fonts, h'.fonts))
  {
    hide StopPlayer, TempOk, PoolOk;
    if op.DoStop? {
      StopSoftens(h, op.player);
    }
  }

  // ---------- runs ----------

  /** Outstanding files after an operation. */
  function Outstanding(h: Heap, out: set<File>, op: Op): set<File>
    requires Ready(h) && Allowed(h, op)
  {
    match op
    case DoLoad(kind, persistence, length, id, async) =>
      if Load(h, kind, persistence, length, id, async).1 != 0 && LoadedStatus(kind, length, async) == LOADING then
        out + {File(kind, id)}
      else out
    case DoArrive(kind, id) => out - {File(kind, id)}
    case _ => out
  }

  /** Before the call: the file to load is not outstanding and its region covers no outstanding entry;
      only an outstanding load arrives. */
  predicate Careful(h: Heap, out: set<File>, op: Op)
    requires Ready(h) && Allowed(h, op)
  {
    match op
    case DoLoad(kind, _, _, id, _) => File(kind, id) !in out && forall f :: f in out ==> !Evicts(h, op, f)
    case DoArrive(kind, id) => File(kind, id) in out
    case _ => true
  }

  /** Every operation up to the first that is not allowed, where the run stops, is careful. */
  predicate Orderly(h: Heap, out: set<File>, ops: seq<Op>)
    decreases |ops|
  {
    ops != [] && Ready(h) && Allowed(h, ops[0]) ==>
      Careful(h, out, ops[0]) && Orderly(Step(h, ops[0]), Outstanding(h, out, ops[0]), ops[1..])
  }

  lemma FreshlyWaiting(h: Heap, op: Op)
    requires Good(h) && Allowed(h, op) && op.DoLoad?
    requires Load(h, op.kind, op.persistence, op.length, op.id, op.async).1 != 0
    requires LoadedStatus(op.kind, op.length, op.async) == LOADING
    ensures WaitingIn(Step(h, op).Get(op.kind), op.id)
  {
    hide AllocCached;
    var size := LoadSize(op.kind, op.length);
    AllocCachedKeeps(h, op.kind, op.persistence, size, op.id);
    var (h', ptr) := AllocCached(h, op.kind, op.persistence, size, op.id);
    assert Held(Step(h, op).Get(op.kind), op.id) <==> Held(h'.Get(op.kind), op.id);
  }

  lemma CarefulStep(h: Heap, out: set<File>, op: Op)
    requires Good(h) && Waiting(h, out) && Allowed(h, op) && Careful(h, out, op)
    ensures Good(Step(h, op)) && Waiting(Step(h, op), Outstanding(h, out, op))
  {
    hide Step, Evicts, Load, WaitingIn;
    assert Good(Step(h, op)) by {
      StepKeepsGood(h, op);
      if op.DoArrive? {
        HeldWhileWaiting(h.Get(op.kind), op.id);
      }
    }
    forall f | f in Outstanding(h, out, op)
      ensures WaitingIn(Step(h, op).Get(f.kind), f.id)
    {
      if f in out {
        StepWaiting(h, op, f);
      } else {
        FreshlyWaiting(h, op);
      }
    }
  }

  lemma HeldWhileWaiting(c: Cache, id: int)
    requires WaitingIn(c, id)
    ensures Held(c, id)
  {
  }

  /** Over every orderly run each load that arrives still has its entry, so a nonzero status always
      belongs to an id some entry holds. */
  lemma {:induction false} RunKeepsGood(h: Heap, out: set<File>, ops: seq<Op>)
    requires Good(h) && Waiting(h, out) && Orderly(h, out, ops)
    ensures Good(Run(h, ops))
    decreases |ops|
  {
    hide Step, Careful, Outstanding, Waiting, Agrees, Sized, TempOk, PoolOk;
    if ops != [] && Allowed(h, ops[0]) {
      CarefulStep(h, out, ops[0]);
      RunKeepsGood(Step(h, ops[0]), Outstanding(h, out, ops[0]), ops[1..]);
    }
  }

  // ---------- a rule a caller can follow ----------

  /** Two files of this size always fit the region together. */
  predicate Half(t: Temp, size: int) {
    2 * size + 0x10 <= t.size
  }

  predicate SmallEntries(t: Temp) {
    && (t.entry0.id != NO_ID ==> Half(t, t.entry0.size)) && (t.entry1.id != NO_ID ==> Half(t, t.entry1.size))
  }

  predicate Small(h: Heap) {
    SmallEntries(h.seqs.temp) && SmallEntries(h.fonts.temp)
  }

  lemma SmallNeverEvicts(h: Heap, op: Op, f: File)
    requires Ready(h) && Allowed(h, op) && op.DoLoad? && Small(h) && 0 <= f.id
    requires Half(h.Get(op.kind).temp, LoadSize(op.kind, op.length))
    ensures !Evicts(h, op, f)
  {
    ChosenIsSide(h, op.kind);
    hide ChooseSide, LoadSize;
  }

  lemma SmallStep(h: Heap, op: Op)
    requires Ready(h) && Allowed(h, op) && Small(h)
    requires op.DoLoad? ==> Half(h.Get(op.kind).temp, LoadSize(op.kind, op.length))
    ensures Small(Step(h, op)) && Step(h, op).seqs.temp.size == h.seqs.temp.size && Step(h, op).fonts.temp.size == h.fonts.temp.size
  {
    hide Load, StopPlayer, TempOk, PoolOk, IdsInRange;
    match op
    case DoLoad(kind, persistence, length, id, async) => SmallLoad(h, op);
    case DoStop(p) => StopSoftens(h, p);
    case _ =>
  }

  lemma SmallLoad(h: Heap, op: Op)
    requires Ready(h) && Allowed(h, op) && op.DoLoad? && Small(h)
    requires Half(h.Get(op.kind).temp, LoadSize(op.kind, op.length))
    ensures Small(Step(h, op)) && Step(h, op).seqs.temp.size == h.seqs.temp.size && Step(h, op).fonts.temp.size == h.fonts.temp.size
  {
    var size := LoadSize(op.kind, op.length);
    hide AllocTemporary, LoadSize, LoadedStatus;
    if TakesSide(h, op) {
      SmallTemporary(h, op.kind, size, op.id);
    }
  }

  lemma SmallTemporary(h: Heap, kind: Kind, size: nat, id: int)
    requires Ready(h) && 0 <= id < |h.Get(kind).status| && FitsTemp(h.Get(kind), size) && Small(h) && Half(h.Get(kind).temp, size)
    ensures var h' := AllocTemporary(h, kind, size, id).0;
      Small(h') && h'.seqs.temp.size == h.seqs.temp.size && h'.fonts.temp.size == h.fonts.temp.size
  {
    hide AllocOnSide, Occupy, SettleBoth, ChooseSide, TempOk, PoolOk, IdsInRange, Agrees;
    TemporaryOutcome(h, kind, size, id);
    SettleSoftens(h, kind);
    var s := SettleBoth(h, kind);
    SoftenedReady(h, s);
    ChosenIsSide(h, kind);
    if ChooseSide(h, kind) != NoSide {
      var side := ChooseSide(h, kind).side;
      AllocOnSideKeeps(s, kind, side, size, id);
      OccupyLayout(s.Get(kind), side, size, id);
    }
  }

  /** No file is asked for again while it is outstanding, only outstanding files arrive, and any two
      files of a kind fit its temporary region together. */
  predicate Modest(h: Heap, out: set<File>, ops: seq<Op>)
    decreases |ops|
  {
    ops != [] && Ready(h) && Allowed(h, ops[0]) ==>
      && (ops[0].DoLoad? ==>
            && File(ops[0].kind, ops[0].id) !in out
            && Half(h.Get(ops[0].kind).temp, LoadSize(ops[0].kind, ops[0].length)))
      && (ops[0].DoArrive? ==> File(ops[0].kind, ops[0].id) in out)
      && Modest(Step(h, ops[0]), Outstanding(h, out, ops[0]), ops[1..])
  }

  lemma {:induction false} ModestRunsAreOrderly(h: Heap, out: set<File>, ops: seq<Op>)
    requires Good(h) && Waiting(h, out) && Small(h) && Modest(h, out, ops)
    ensures Orderly(h, out, ops)
    decreases |ops|
  {
    hide Step, Outstanding, Agrees, Sized, TempOk, PoolOk, Small, Evicts, Half;
    if ops != [] && Allowed(h, ops[0]) {
      if ops[0].DoLoad? {
        forall f | f in out
          ensures !Evicts(h, ops[0], f)
        {
          SmallNeverEvicts(h, ops[0], f);
        }
      }
      SmallStep(h, ops[0]);
      CarefulStep(h, out, ops[0]);
      ModestRunsAreOrderly(Step(h, ops[0]), Outstanding(h, out, ops[0]), ops[1..]);
    }
  }

  /** So from a cold start, asking for nothing twice at once and keeping files small is enough. */
  lemma ModestRunsStayGood(h: Heap, ops: seq<Op>)
    requires Good(h) && Small(h) && Modest(h, {}, ops)
    ensures Good(Run(h, ops))
  {
    ModestRunsAreOrderly(h, {}, ops);
    RunKeepsGood(h, {}, ops);
  }
}
