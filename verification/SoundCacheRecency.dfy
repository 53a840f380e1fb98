/** nextSide of the two-sided cache as two-way LRU, over whole runs. */
module SoundCacheRecency {
  import opened SoundCacheModel
  import opened SoundCacheProofs
  import opened SoundCacheRuns

  function LastUse(history: seq<int>, side: int): int {
    if history == [] then -1
    else if history[|history| - 1] == side then |history| - 1
    else LastUse(history[..|history| - 1], side)
  }

  /** The side whose last use is older; side 0 when neither was ever used. */
  function LeastRecent(history: seq<int>): int {
    if LastUse(history, 1) < LastUse(history, 0) then 1 else 0
  }

  function TouchedBy(t: Temp, id: int): seq<int> {
    if id == t.entry0.id then [0] else if id == t.entry1.id then [1] else []
  }

  /** Font sides used by the players that discarding a sequence stops. */
  function DiscardTouches(h: Heap, id: int, from: nat): seq<int>
    requires Sized(h) && from <= |h.players|
    decreases |h.players| - from
  {
    if from == |h.players| then []
    else if h.players[from].enabled && h.players[from].seqId == id then
      StopSoftens(h, from);
      TouchedBy(h.fonts.temp, h.players[from].font) + DiscardTouches(StopPlayer(h, from), id, from + 1)
    else DiscardTouches(h, id, from + 1)
  }

  /** Sides of the given kind allocated or found by one operation, in order. */
  ghost function Touches(h: Heap, op: Op, kind: Kind): seq<int>
    requires Ready(h) && Allowed(h, op)
  {
    match op
    case DoLoad(k, _, length, id, _) =>
      if !TakesSide(h, op) || ChooseSide(h, k) == NoSide then []
      else if k == kind then [ChooseSide(h, k).side]
      else if k == Sequences then
        var side := ChooseSide(h, k).side;
        ChosenIsSide(h, k);
        OccupyLayout(h.seqs, side, LoadSize(k, length), id);
        var (c, lost) := Occupy(h.seqs, side, LoadSize(k, length), id);
        if lost == NO_ID then [] else DiscardTouches(h.(seqs := c), lost, 0)
      else []
    case DoSearch(k, persistence, id) =>
      if k != kind || FindHit(h.Get(k), persistence, id) || (persistence != 0 && persistence != 2) then []
      else TouchedBy(h.Get(k).temp, id)
    case DoStop(p) => if kind == Fonts then TouchedBy(h.fonts.temp, h.players[p].font) else []
    case _ => []
  }

  predicate FindHit(c: Cache, persistence: nat, id: int) {
    persistence != 0 && FindPersistent(c.entries, id, 0) < |c.entries|
  }

  predicate Sides(ts: seq<int>) {
    forall i :: 0 <= i < |ts| ==> ts[i] in {0, 1}
  }

  function After(nextSide: int, ts: seq<int>): int {
    if ts == [] then nextSide else 1 - ts[|ts| - 1]
  }

  lemma {:induction false} DiscardFollows(h: Heap, id: int, from: nat)
    requires Sized(h) && from <= |h.players|
    ensures Sides(DiscardTouches(h, id, from))
    ensures DiscardSequence(h, id, from).fonts.temp.nextSide == After(h.fonts.temp.nextSide, DiscardTouches(h, id, from))
    decreases |h.players| - from
  {
    if from < |h.players| {
      if h.players[from].enabled && h.players[from].seqId == id {
        StopSoftens(h, from);
        DiscardFollows(StopPlayer(h, from), id, from + 1);
      } else {
        DiscardFollows(h, id, from + 1);
      }
    }
  }

  /** A temporary allocation on a chosen side, followed by the stops it causes. */
  lemma AllocFollows(h: Heap, k: Kind, side: int, size: nat, id: int)
    requires Ready(h) && side in {0, 1} && 0 <= id < |h.Get(k).status| && FitsTemp(h.Get(k), size)
    requires k == Fonts ==> SettleBoth(h, k).Get(k).temp == h.fonts.temp
    ensures Ready(SettleBoth(h, k)) && SettleBoth(h, k).Get(k).temp == h.Get(k).temp
    ensures Overlaps(Place(h.Get(k).temp, side, size, id)) ==> Side(h.Get(k).temp, 1 - side).id != NO_ID
    ensures var h' := AllocOnSide(SettleBoth(h, k), k, side, size, id).0;
      && h'.Get(k).temp.nextSide == 1 - side
      && (k == Fonts ==> h'.seqs == h.seqs)
      && (k == Sequences ==>
            var (c, lost) := Occupy(h.seqs, side, size, id);
            && Sized(h.(seqs := c))
            && h'.fonts.temp.nextSide ==
                 After(h.fonts.temp.nextSide, if lost == NO_ID then [] else DiscardTouches(h.(seqs := c), lost, 0))
            && (lost != NO_ID ==> Sides(DiscardTouches(h.(seqs := c), lost, 0))))
  {
    SettleSoftens(h, k);
    var s := SettleBoth(h, k);
    SoftenedReady(h, s);
    OccupyLayout(s.Get(k), side, size, id);
    AllocOnSideKeeps(s, k, side, size, id);
    if k == Sequences {
      var (c, lost) := Occupy(h.seqs, side, size, id);
      SetReady(h, k, c);
      if lost != NO_ID {
        DiscardFollows(h.(seqs := c), lost, 0);
      }
    }
  }

  /** Apart from a temporary allocation, a load moves no temporary entry. */
  lemma LoadTemps(h: Heap, op: Op, kind: Kind)
    requires Ready(h) && Allowed(h, op) && op.DoLoad?
    ensures Step(h, op).Get(kind).temp ==
              if TakesSide(h, op) then AllocTemporary(h, op.kind, LoadSize(op.kind, op.length), op.id).0.Get(kind).temp
              else h.Get(kind).temp
  {
    hide AllocTemporary;
  }

  lemma LoadFollows(h: Heap, op: Op, kind: Kind)
    requires Ready(h) && Allowed(h, op) && op.DoLoad?
    ensures Sides(Touches(h, op, kind))
    ensures Step(h, op).Get(kind).temp.nextSide == After(h.Get(kind).temp.nextSide, Touches(h, op, kind))
  {
    hide Step, AllocOnSide, SettleBoth, ChooseSide;
    LoadTemps(h, op, kind);
    SettleSoftens(h, op.kind);
    if TakesSide(h, op) && ChooseSide(h, op.kind) != NoSide {
      ChosenIsSide(h, op.kind);
      AllocFollows(h, op.kind, ChooseSide(h, op.kind).side, LoadSize(op.kind, op.length), op.id);
    }
  }

  lemma StepFollows(h: Heap, op: Op, kind: Kind)
    requires Ready(h) && Allowed(h, op)
    ensures Sides(Touches(h, op, kind))
    ensures Step(h, op).Get(kind).temp.nextSide == After(h.Get(kind).temp.nextSide, Touches(h, op, kind))
  {
    if op.DoLoad? {
      LoadFollows(h, op, kind);
    }
  }

  lemma {:induction false} LeastRecentAfter(history: seq<int>, ts: seq<int>)
    requires Sides(ts)
    ensures LeastRecent(history + ts) == After(LeastRecent(history), ts)
  {
    var all := history + ts;
    if ts == [] {
      assert all == history;
    } else {
      LastUseBound(all[..|all| - 1], 0);
      LastUseBound(all[..|all| - 1], 1);
    }
  }

  lemma {:induction false} LastUseBound(history: seq<int>, side: int)
    ensures -1 <= LastUse(history, side) < |history|
  {
    if history != [] {
      LastUseBound(history[..|history| - 1], side);
    }
  }

  /** Sides touched by a run, as far as its operations are allowed. */
  ghost function RunTouches(h: Heap, ops: seq<Op>, kind: Kind): seq<int>
    requires Ready(h)
    decreases |ops|
  {
    if ops == [] || !Allowed(h, ops[0]) then []
    else
      StepReady(h, ops[0]);
      Touches(h, ops[0], kind) + RunTouches(Step(h, ops[0]), ops[1..], kind)
  }

  /** After any run, nextSide is the side least recently allocated or found. */
  lemma {:induction false} NextSideIsLeastRecent(h: Heap, ops: seq<Op>, kind: Kind, history: seq<int>)
    requires Ready(h) && h.Get(kind).temp.nextSide == LeastRecent(history)
    ensures Run(h, ops).Get(kind).temp.nextSide == LeastRecent(history + RunTouches(h, ops, kind))
    decreases |ops|
  {
    hide Step, Touches, Allowed;
    if ops == [] || !Allowed(h, ops[0]) {
      assert history + [] == history;
    } else {
      StepReady(h, ops[0]);
      StepFollows(h, ops[0], kind);
      var ts := Touches(h, ops[0], kind);
      LeastRecentAfter(history, ts);
      var rest := RunTouches(Step(h, ops[0]), ops[1..], kind);
      NextSideIsLeastRecent(Step(h, ops[0]), ops[1..], kind, history + ts);
      assert RunTouches(h, ops, kind) == ts + rest;
      assert history + ts + rest == history + (ts + rest);
    }
  }

  /** So with both sides discardable, the next temporary load replaces the least recently used one. */
  lemma EvictsLeastRecent(h: Heap, ops: seq<Op>, kind: Kind, size: nat, id: int)
    requires Ready(h) && h.Get(kind).temp.nextSide == 0
    ensures var h' := Run(h, ops);
      var c := h'.Get(kind);
      && Ready(h')
      && (0 <= id < |c.status| && FitsTemp(c, size)
          && StatusOf(c, c.temp.entry0.id) == StatusOf(c, c.temp.entry1.id) == DISCARDABLE ==>
            Side(AllocTemporary(h', kind, size, id).0.Get(kind).temp, LeastRecent(RunTouches(h, ops, kind))).id == id)
  {
    hide Run, RunTouches, LeastRecent, AllocTemporary;
    RunReady(h, ops);
    NextSideFromStart(h, ops, kind);
    var h' := Run(h, ops);
    var c := h'.Get(kind);
    if 0 <= id < |c.status| && FitsTemp(c, size) {
      TemporaryOutcome(h', kind, size, id);
    }
  }

  lemma NextSideFromStart(h: Heap, ops: seq<Op>, kind: Kind)
    requires Ready(h) && h.Get(kind).temp.nextSide == 0
    ensures Run(h, ops).Get(kind).temp.nextSide == LeastRecent(RunTouches(h, ops, kind))
  {
    hide Run, RunTouches;
    NextSideIsLeastRecent(h, ops, kind, []);
    assert [] + RunTouches(h, ops, kind) == RunTouches(h, ops, kind);
  }
}
