/** What the cache operations answer and change, in terms of the heap before them: the side taken, every
    status, the players stopped, and the address a later lookup finds. */
module SoundCacheAnswers {
  import opened SoundCacheModel
  import opened SoundCacheProofs
  import opened SoundCacheRuns

  // ---------- which side a temporary load takes ----------

  /** A sounding note uses the font, or an enabled player plays the sequence. */
  predicate Playing(h: Heap, kind: Kind, id: int) {
    if kind == Fonts then exists i :: 0 <= i < |h.noteFonts| && h.noteFonts[i] == id
    else exists i :: 0 <= i < |h.players| && h.players[i].enabled && h.players[i].seqId == id
  }

  /** A font whose player has stopped and whose notes have all ended. */
  predicate Faded(h: Heap, kind: Kind, id: int)
    requires 0 <= id < |h.Get(kind).status|
  {
    kind == Fonts && h.Get(kind).status[id] == FONT_PENDING && !Playing(h, kind, id)
  }

  /** How reluctantly a side is given up: empty or unloaded 0, discardable or faded 1, complete and not
      playing 2, playing 3, loading 4. */
  function Reluctance(h: Heap, kind: Kind, side: int): nat
    requires Sized(h)
  {
    var c := h.Get(kind);
    var id := Side(c.temp, side).id;
    if id == NO_ID || c.status[id] == NOT_LOADED then 0
    else if c.status[id] == DISCARDABLE || Faded(h, kind, id) then 1
    else if c.status[id] == COMPLETE && !Playing(h, kind, id) then 2
    else if c.status[id] != LOADING then 3
    else 4
  }

  predicate OnASide(c: Cache, id: int) {
    id == c.temp.entry0.id || id == c.temp.entry1.id
  }

  lemma SettledStatus(h: Heap, kind: Kind, k: int)
    requires Sized(h) && 0 <= k < |h.Get(kind).status|
    ensures |SettleBoth(h, kind).Get(kind).status| == |h.Get(kind).status|
    ensures SettleBoth(h, kind).Get(kind).status[k] ==
              if OnASide(h.Get(kind), k) && Faded(h, kind, k) then DISCARDABLE else h.Get(kind).status[k]
  {
  }

  lemma SettledRank(h: Heap, kind: Kind, side: int)
    requires Sized(h) && side in {0, 1}
    ensures var c := SettleBoth(h, kind).Get(kind); var id := Side(h.Get(kind).temp, side).id;
      IdsInRange(c) && Rank(StatusOf(c, id), InUse(h, kind, id)) == Reluctance(h, kind, side)
  {
    var id := Side(h.Get(kind).temp, side).id;
    SettleSoftens(h, kind);
    if id != NO_ID {
      SettledStatus(h, kind, id);
    }
  }

  lemma ChoiceIsLeastReluctant(h: Heap, kind: Kind)
    requires Sized(h)
    ensures var r0, r1 := Reluctance(h, kind, 0), Reluctance(h, kind, 1);
      ChooseSide(h, kind) ==
        if r0 == 4 && r1 == 4 then NoSide
        else if r0 < r1 then Chosen(0)
        else if r1 < r0 then Chosen(1)
        else if r0 == 1 then Chosen(h.Get(kind).temp.nextSide)
        else Chosen(0)
  {
    SettleSoftens(h, kind);
    SettledRank(h, kind, 0);
    SettledRank(h, kind, 1);
    var c := SettleBoth(h, kind).Get(kind);
    var id0, id1 := c.temp.entry0.id, c.temp.entry1.id;
    PickIsLeastRank(StatusOf(c, id0), StatusOf(c, id1), InUse(h, kind, id0), InUse(h, kind, id1), c.temp.nextSide);
    hide Reluctance, SettleBoth, InUse, Pick;
  }

  /** A temporary load takes the side given up most willingly in the heap before the call; two discardable
      or faded sides go by nextSide, other ties to side 0; it fails exactly when both sides are loading. */
  lemma TakesLeastReluctant(h: Heap, kind: Kind, size: nat, id: int)
    requires Ready(h) && 0 <= id < |h.Get(kind).status| && FitsTemp(h.Get(kind), size)
    ensures var (h', ptr) := AllocTemporary(h, kind, size, id);
      var r0, r1, next := Reluctance(h, kind, 0), Reluctance(h, kind, 1), h.Get(kind).temp.nextSide;
      var side := if r0 < r1 then 0 else if r1 < r0 then 1 else if r0 == 1 then next else 0;
      && (ptr == 0 <==> r0 == 4 && r1 == 4)
      && (ptr == 0 ==> h' == h)
      && (ptr != 0 ==> h'.Get(kind).temp.nextSide == 1 - side && Side(h'.Get(kind).temp, side) == Entry(ptr, size, id))
  {
    hide AllocTemporary, ChooseSide, Reluctance, TempOk, PoolOk, IdsInRange, LoadingSide, Agrees;
    ChoiceIsLeastReluctant(h, kind);
    TemporaryOutcome(h, kind, size, id);
    NoneIsFour(h, kind);
  }

  lemma NoneIsFour(h: Heap, kind: Kind)
    requires Sized(h)
    ensures Reluctance(h, kind, 0) == 4 <==> LoadingSide(h.Get(kind), 0)
    ensures Reluctance(h, kind, 1) == 4 <==> LoadingSide(h.Get(kind), 1)
  {
  }

  // ---------- stopping players ----------

  /** A status is lowered from complete or above, and from nothing else. */
  function Lowered(st: nat, lower: bool, to: nat): nat {
    if lower && st >= COMPLETE then to else st
  }

  /** From h to h', exactly the given players have been stopped: their sequences are discardable, their
      fonts pending, as far as these were loaded. */
  ghost predicate Stopped(h: Heap, h': Heap, who: set<int>) {
    && |h'.players| == |h.players|
    && (forall i :: 0 <= i < |h.players| ==>
          h'.players[i] == if i in who then h.players[i].(enabled := false) else h.players[i])
    && |h'.seqs.status| == |h.seqs.status| && |h'.fonts.status| == |h.fonts.status|
    && (forall k :: 0 <= k < |h.seqs.status| ==>
          h'.seqs.status[k] == Lowered(h.seqs.status[k], PlayedBy(h, who, k), DISCARDABLE))
    && (forall f :: 0 <= f < |h.fonts.status| ==>
          h'.fonts.status[f] == Lowered(h.fonts.status[f], VoicedBy(h, who, f), FONT_PENDING))
    && h'.noteFonts == h.noteFonts
  }

  predicate PlayedBy(h: Heap, who: set<int>, id: int) {
    exists i :: i in who && 0 <= i < |h.players| && h.players[i].seqId == id
  }

  predicate VoicedBy(h: Heap, who: set<int>, font: int) {
    exists i :: i in who && 0 <= i < |h.players| && h.players[i].font == font
  }

  /** Stopping one player. */
  lemma StopExact(h: Heap, p: nat)
    requires Sized(h) && p < |h.players|
    ensures Stopped(h, StopPlayer(h, p), {p})
  {
    var h' := StopPlayer(h, p);
    assert PlayedBy(h, {p}, h.players[p].seqId) && VoicedBy(h, {p}, h.players[p].font);
  }

  lemma StoppedMore(h: Heap, m: Heap, h': Heap, p: nat, who: set<int>)
    requires Stopped(h, m, {p}) && Stopped(m, h', who) && p < |h.players|
    ensures Stopped(h, h', who + {p})
  {
    forall id
      ensures PlayedBy(h, who + {p}, id) <==> PlayedBy(h, {p}, id) || PlayedBy(m, who, id)
      ensures VoicedBy(h, who + {p}, id) <==> VoicedBy(h, {p}, id) || VoicedBy(m, who, id)
    {
      if PlayedBy(h, {p}, id) {
        assert p in who + {p};
      }
      if i :| i in who && 0 <= i < |m.players| && m.players[i].seqId == id {
        assert i in who + {p} && h.players[i].seqId == id;
      }
      if i :| i in who + {p} && 0 <= i < |h.players| && h.players[i].seqId == id {
        assert i == p || m.players[i].seqId == id;
      }
      if VoicedBy(h, {p}, id) {
        assert p in who + {p};
      }
      if i :| i in who && 0 <= i < |m.players| && m.players[i].font == id {
        assert i in who + {p} && h.players[i].font == id;
      }
      if i :| i in who + {p} && 0 <= i < |h.players| && h.players[i].font == id {
        assert i == p || m.players[i].font == id;
      }
    }
    hide PlayedBy, VoicedBy;
  }

  /** The enabled players from index from on that play the sequence. */
  function Audience(players: seq<Player>, id: int, from: nat): set<int> {
    set i | from <= i < |players| && players[i].enabled && players[i].seqId == id
  }

  /** Evicting a sequence stops exactly its players. */
  lemma {:induction false} DiscardExact(h: Heap, id: int, from: nat)
    requires Sized(h) && from <= |h.players|
    ensures Stopped(h, DiscardSequence(h, id, from), Audience(h.players, id, from))
    decreases |h.players| - from
  {
    hide Stopped, StopPlayer;
    if from == |h.players| {
      assert Audience(h.players, id, from) == {};
      NobodyStopped(h);
    } else if h.players[from].enabled && h.players[from].seqId == id {
      StopSoftens(h, from);
      StopExact(h, from);
      var m := StopPlayer(h, from);
      OthersPlay(h, m, from);
      DiscardExact(m, id, from + 1);
      assert Audience(h.players, id, from) == Audience(m.players, id, from + 1) + {from};
      StoppedMore(h, m, DiscardSequence(m, id, from + 1), from, Audience(m.players, id, from + 1));
    } else {
      assert Audience(h.players, id, from) == Audience(h.players, id, from + 1);
      DiscardExact(h, id, from + 1);
    }
  }

  lemma NobodyStopped(h: Heap)
    ensures Stopped(h, h, {})
  {
  }

  lemma OthersPlay(h: Heap, m: Heap, p: nat)
    requires Stopped(h, m, {p}) && p < |h.players|
    ensures |m.players| == |h.players| && forall i :: 0 <= i < |h.players| && i != p ==> m.players[i] == h.players[i]
  {
  }

  // ---------- every status after a temporary load ----------

  /** The ids whose entries a new region on a side replaces: the side's own and, if the regions meet, the
      opposite one. */
  predicate Replaced(t: Temp, side: int, size: nat, k: int) {
    k != NO_ID && (k == Side(t, side).id || (k == Side(t, 1 - side).id && !RegionsApart(t, side, size)))
  }

  /** Exactly the replaced ids become unloaded, and exactly the faded fonts on either side that are not
      replaced become discardable. */
  lemma TemporaryStatus(h: Heap, kind: Kind, size: nat, id: int, k: int)
    requires Ready(h) && 0 <= id < |h.Get(kind).status| && FitsTemp(h.Get(kind), size) && 0 <= k < |h.Get(kind).status|
    ensures var (h', ptr) := AllocTemporary(h, kind, size, id);
      var c, c' := h.Get(kind), h'.Get(kind);
      c'.status[k] ==
        if ptr != 0 && Replaced(c.temp, 1 - c'.temp.nextSide, size, k) then NOT_LOADED
        else if OnASide(c, k) && Faded(h, kind, k) then DISCARDABLE
        else c.status[k]
  {
    hide AllocOnSide, Occupy, SettleBoth, ChooseSide, TempOk, PoolOk, IdsInRange, Agrees, LoadingSide, Faded, RegionsApart;
    TemporaryOutcome(h, kind, size, id);
    SettleEntries(h, kind);
    SettledStatus(h, kind, k);
    SettleSoftens(h, kind);
    var s := SettleBoth(h, kind);
    SoftenedReady(h, s);
    if ChooseSide(h, kind) != NoSide {
      ChosenIsSide(h, kind);
      OnSideStatus(s, kind, ChooseSide(h, kind).side, size, id, k);
    }
  }

  lemma OnSideStatus(s: Heap, kind: Kind, side: int, size: nat, id: int, k: int)
    requires Ready(s) && side in {0, 1} && 0 <= id < |s.Get(kind).status| && FitsTemp(s.Get(kind), size)
    requires 0 <= k < |s.Get(kind).status|
    ensures Overlaps(Place(s.Get(kind).temp, side, size, id)) ==> Side(s.Get(kind).temp, 1 - side).id != NO_ID
    ensures var (h', ptr) := AllocOnSide(s, kind, side, size, id); var c := s.Get(kind);
      && ptr != 0 && h'.Get(kind).temp.nextSide == 1 - side
      && h'.Get(kind).status[k] == if Replaced(c.temp, side, size, k) then NOT_LOADED else c.status[k]
  {
    hide TempOk, PoolOk, IdsInRange, Agrees, RegionsApart, FitsTemp, DiscardSequence, Stopped;
    AllocOnSideKeeps(s, kind, side, size, id);
    OccupyLayout(s.Get(kind), side, size, id);
    OccupyStatus(s.Get(kind), side, size, id, k);
    var (c, lost) := Occupy(s.Get(kind), side, size, id);
    if kind == Sequences && lost != NO_ID {
      SideInRange(s.seqs, 1 - side);
      OccupyStatus(s.seqs, side, size, id, lost);
      assert s.(seqs := c) == s.Set(kind, c);
      LostStays(s.(seqs := c), lost, k);
    }
  }

  lemma SideInRange(c: Cache, side: int)
    requires IdsInRange(c)
    ensures Side(c.temp, side).id == NO_ID || 0 <= Side(c.temp, side).id < |c.status|
  {
  }

  /** Stopping the players of a sequence that is already unloaded moves no sequence's status. */
  lemma LostStays(h: Heap, lost: int, k: int)
    requires Sized(h) && 0 <= lost < |h.seqs.status| && h.seqs.status[lost] == NOT_LOADED && 0 <= k < |h.seqs.status|
    ensures SameShape(h, DiscardSequence(h, lost, 0))
    ensures DiscardSequence(h, lost, 0).seqs.status[k] == h.seqs.status[k]
  {
    DiscardExact(h, lost, 0);
    hide DiscardSequence;
    if PlayedBy(h, Audience(h.players, lost, 0), k) {
      assert k == lost;
    }
  }

  /** The sequence a load ran into loses its players, and no others stop; loading a font stops nobody and
      leaves the sequences alone. */
  lemma TemporaryStops(h: Heap, kind: Kind, size: nat, id: int)
    requires Ready(h) && 0 <= id < |h.Get(kind).status| && FitsTemp(h.Get(kind), size)
    ensures var (h', ptr) := AllocTemporary(h, kind, size, id);
      var side := 1 - h'.Get(kind).temp.nextSide;
      var lost := Side(h.seqs.temp, 1 - side).id;
      && (kind == Fonts ==> h'.players == h.players && h'.seqs == h.seqs)
      && (kind == Sequences ==>
            var who := if ptr != 0 && lost != NO_ID && !RegionsApart(h.seqs.temp, side, size)
                       then Audience(h.players, lost, 0) else {};
            && |h'.players| == |h.players| && |h'.fonts.status| == |h.fonts.status|
            && (forall i :: 0 <= i < |h.players| ==>
                  h'.players[i] == if i in who then h.players[i].(enabled := false) else h.players[i])
            && (forall f :: 0 <= f < |h.fonts.status| ==>
                  h'.fonts.status[f] == Lowered(h.fonts.status[f], VoicedBy(h, who, f), FONT_PENDING)))
  {
    hide TempOk, PoolOk, IdsInRange, Agrees, LoadingSide, DiscardSequence, Occupy;
    TemporaryOutcome(h, kind, size, id);
    SettleSoftens(h, kind);
    if kind == Sequences && ChooseSide(h, kind) != NoSide {
      ChosenIsSide(h, kind);
      var side := ChooseSide(h, kind).side;
      OccupyLayout(h.seqs, side, size, id);
      var (c, lost) := Occupy(h.seqs, side, size, id);
      SetReady(h, kind, c);
      if lost != NO_ID {
        DiscardExact(h.(seqs := c), lost, 0);
        SameVoices(h, h.(seqs := c));
      }
    }
  }

  lemma SameVoices(h: Heap, m: Heap)
    requires m.players == h.players
    ensures forall who, f :: VoicedBy(m, who, f) <==> VoicedBy(h, who, f)
  {
  }

  // ---------- lookups ----------

  predicate InRows(c: Cache, id: int) {
    exists i :: 0 <= i < |c.entries| && c.entries[i].id == id
  }

  /** A lookup answers with the first persistent row of the file unless only the temporary region is asked
      for, else with the temporary entry of the file unless only rows are asked for, else with null. */
  lemma SearchExact(h: Heap, kind: Kind, mode: nat, id: int)
    ensures var ptr := Search(h, kind, mode, id).1; var c := h.Get(kind);
      && (mode != 0 && InRows(c, id) ==>
            exists i :: 0 <= i < |c.entries| && c.entries[i].id == id && c.entries[i].ptr == ptr
              && forall j :: 0 <= j < i ==> c.entries[j].id != id)
      && (!(mode != 0 && InRows(c, id)) ==>
            && (mode in {0, 2} && id == c.temp.entry0.id ==> ptr == c.temp.entry0.ptr)
            && (mode in {0, 2} && id != c.temp.entry0.id && id == c.temp.entry1.id ==> ptr == c.temp.entry1.ptr)
            && (mode !in {0, 2} || !OnASide(c, id) ==> ptr == 0))
  {
    var c := h.Get(kind);
    if mode != 0 && InRows(c, id) {
      var i := FindPersistent(c.entries, id, 0);
      assert c.entries[i].id == id;
    }
  }

  /** A lookup changes at most which side goes next: the one it did not find. */
  lemma SearchTouches(h: Heap, kind: Kind, mode: nat, id: int)
    ensures var h' := Search(h, kind, mode, id).0; var t := h.Get(kind).temp;
      h' == h.Set(kind, h.Get(kind).(temp := t.(nextSide :=
        if mode !in {0, 2} || (mode == 2 && InRows(h.Get(kind), id)) then t.nextSide
        else if id == t.entry0.id then 1
        else if id == t.entry1.id then 0
        else t.nextSide)))
  {
  }

  // ---------- load, then find ----------

  /** From c to c' no entry has come, moved or taken another file's place except for the file loaded. */
  predicate EntriesKept(c: Cache, c': Cache, loaded: int) {
    && |c.entries| <= |c'.entries|
    && (forall i :: 0 <= i < |c.entries| ==> c'.entries[i] == c.entries[i])
    && (forall i :: |c.entries| <= i < |c'.entries| ==> c'.entries[i].id == loaded)
    && (c'.temp.entry0 == c.temp.entry0 || c'.temp.entry0.id in {loaded, NO_ID})
    && (c'.temp.entry1 == c.temp.entry1 || c'.temp.entry1.id in {loaded, NO_ID})
  }

  function LoadedBy(op: Op, kind: Kind): int {
    if op.DoLoad? && op.kind == kind then op.id else NO_ID
  }

  lemma TemporaryEntries(h: Heap, kind: Kind, size: nat, id: int, k: Kind)
    requires Ready(h) && 0 <= id < |h.Get(kind).status| && FitsTemp(h.Get(kind), size)
    ensures EntriesKept(h.Get(k), AllocTemporary(h, kind, size, id).0.Get(k), if k == kind then id else NO_ID)
  {
    hide AllocOnSide, Occupy, SettleBoth, ChooseSide, TempOk, PoolOk, IdsInRange, Agrees, LoadingSide;
    TemporaryOutcome(h, kind, size, id);
    SettleSoftens(h, kind);
    SettleEntries(h, kind);
    var s := SettleBoth(h, kind);
    SoftenedReady(h, s);
    if ChooseSide(h, kind) != NoSide {
      ChosenIsSide(h, kind);
      AllocOnSideKeeps(s, kind, ChooseSide(h, kind).side, size, id);
      OccupyLayout(s.Get(kind), ChooseSide(h, kind).side, size, id);
    }
  }

  lemma LoadEntries(h: Heap, op: Op, k: Kind)
    requires Ready(h) && Allowed(h, op) && op.DoLoad?
    ensures EntriesKept(h.Get(k), Step(h, op).Get(k), LoadedBy(op, k))
  {
    hide AllocTemporary, TempOk, PoolOk, IdsInRange, LoadSize, LoadedStatus;
    if TakesSide(h, op) {
      TemporaryEntries(h, op.kind, LoadSize(op.kind, op.length), op.id, k);
    }
  }

  lemma StepEntries(h: Heap, op: Op, k: Kind)
    requires Ready(h) && Allowed(h, op)
    ensures EntriesKept(h.Get(k), Step(h, op).Get(k), LoadedBy(op, k))
  {
    if op.DoLoad? {
      LoadEntries(h, op, k);
    }
    hide Load, Demote;
  }

  /** Every entry of the file is at this address; row says whether it has a persistent one or, if any, a
      temporary one. */
  predicate OnlyAt(c: Cache, id: int, ptr: int, row: bool) {
    && (InRows(c, id) <==> row) && (row ==> !OnASide(c, id))
    && (forall i :: 0 <= i < |c.entries| && c.entries[i].id == id ==> c.entries[i].ptr == ptr)
    && (id == c.temp.entry0.id ==> c.temp.entry0.ptr == ptr)
    && (id == c.temp.entry1.id ==> c.temp.entry1.ptr == ptr)
  }

  lemma OnlyAtStays(c: Cache, c': Cache, id: int, ptr: int, row: bool, loaded: int)
    requires OnlyAt(c, id, ptr, row) && EntriesKept(c, c', loaded) && id !in {loaded, NO_ID}
    ensures OnlyAt(c', id, ptr, row)
  {
    if i :| 0 <= i < |c.entries| && c.entries[i].id == id {
      assert c'.entries[i].id == id;
    }
  }

  /** A load of a file nobody holds puts it in one place. */
  lemma LoadedOnce(h: Heap, op: Op)
    requires Ready(h) && Allowed(h, op) && op.DoLoad? && !Held(h.Get(op.kind), op.id)
    ensures var (h', ptr) := Load(h, op.kind, op.persistence, op.length, op.id, op.async);
      ptr != 0 ==> OnlyAt(h'.Get(op.kind), op.id, ptr, !TakesSide(h, op))
  {
    var size := LoadSize(op.kind, op.length);
    var (h', ptr) := AllocCached(h, op.kind, op.persistence, size, op.id);
    var c, c' := h.Get(op.kind), h'.Get(op.kind);
    hide AllocTemporary, TempOk, PoolOk, IdsInRange, LoadSize, LoadedStatus;
    if TakesSide(h, op) {
      TemporaryOutcome(h, op.kind, size, op.id);
      TemporaryOpposite(h, op.kind, size, op.id);
    } else if ptr != 0 {
      assert c'.entries[|c.entries|].id == op.id;
    }
  }

  lemma TemporaryOpposite(h: Heap, kind: Kind, size: nat, id: int)
    requires Ready(h) && 0 <= id < |h.Get(kind).status| && FitsTemp(h.Get(kind), size)
    ensures var (h', ptr) := AllocTemporary(h, kind, size, id);
      var side := 1 - h'.Get(kind).temp.nextSide;
      var was, now := Side(h.Get(kind).temp, 1 - side), Side(h'.Get(kind).temp, 1 - side);
      ptr != 0 ==> side in {0, 1} && (now == was || now.id == NO_ID)
  {
    hide AllocOnSide, Occupy, SettleBoth, ChooseSide, TempOk, PoolOk, IdsInRange, Agrees, LoadingSide;
    TemporaryOutcome(h, kind, size, id);
    SettleSoftens(h, kind);
    SettleEntries(h, kind);
    var s := SettleBoth(h, kind);
    SoftenedReady(h, s);
    if ChooseSide(h, kind) != NoSide {
      ChosenIsSide(h, kind);
      AllocOnSideKeeps(s, kind, ChooseSide(h, kind).side, size, id);
      OccupyLayout(s.Get(kind), ChooseSide(h, kind).side, size, id);
    }
  }

  /** The run does not load the file again. */
  predicate NotReloaded(ops: seq<Op>, kind: Kind, id: int) {
    forall i :: 0 <= i < |ops| ==> LoadedBy(ops[i], kind) != id
  }

  lemma {:induction false} RunOnlyAt(h: Heap, ops: seq<Op>, kind: Kind, id: int, ptr: int, row: bool)
    requires Ready(h) && NotReloaded(ops, kind, id) && id != NO_ID && OnlyAt(h.Get(kind), id, ptr, row)
    ensures OnlyAt(Run(h, ops).Get(kind), id, ptr, row)
    decreases |ops|
  {
    hide Step, OnlyAt, EntriesKept, Allowed;
    if ops != [] && Allowed(h, ops[0]) {
      StepReady(h, ops[0]);
      StepEntries(h, ops[0], kind);
      OnlyAtStays(h.Get(kind), Step(h, ops[0]).Get(kind), id, ptr, row, LoadedBy(ops[0], kind));
      RunOnlyAt(Step(h, ops[0]), ops[1..], kind, id, ptr, row);
    }
  }

  /** What a load of a new file returned is what any later lookup finds: for good if it is persistent, and
      exactly while its entry stands if it is temporary. */
  lemma LoadThenFind(h: Heap, op: Op, ops: seq<Op>, mode: nat)
    requires Ready(h) && Allowed(h, op) && op.DoLoad? && !Held(h.Get(op.kind), op.id)
    requires Load(h, op.kind, op.persistence, op.length, op.id, op.async).1 != 0 && NotReloaded(ops, op.kind, op.id)
    ensures var ptr := Load(h, op.kind, op.persistence, op.length, op.id, op.async).1;
      var g := Run(Step(h, op), ops);
      Search(g, op.kind, mode, op.id).1 ==
        if (if TakesSide(h, op) then mode in {0, 2} && OnASide(g.Get(op.kind), op.id) else mode != 0) then ptr else 0
  {
    var ptr := Load(h, op.kind, op.persistence, op.length, op.id, op.async).1;
    LoadedOnce(h, op);
    StepReady(h, op);
    hide Load, Search, Run;
    RunOnlyAt(Step(h, op), ops, op.kind, op.id, ptr, !TakesSide(h, op));
    SearchExact(Run(Step(h, op), ops), op.kind, mode, op.id);
  }

  // ---------- routes, sizes and statuses of a load ----------

  /** The persistent pool has room for the file, rounded up to 16 bytes. */
  predicate PoolHasRoom(c: Cache, size: nat) {
    c.pool.cur + (size + 0xF) / 0x10 * 0x10 <= c.pool.start + c.pool.size
  }

  /** Where an allocation goes: to the persistent pool if it is asked for and has room, with a new row; to the
      temporary region if only that is asked for, or as a fallback; else nowhere, with a null row when the
      fallback is unknown. */
  lemma AllocCachedRoutes(h: Heap, kind: Kind, persistence: nat, size: nat, id: int)
    requires Ready(h) && 0 <= id < |h.Get(kind).status| && Fits(h.Get(kind), persistence, size)
    ensures var (h', ptr) := AllocCached(h, kind, persistence, size, id); var c, c' := h.Get(kind), h'.Get(kind);
      var room := PoolHasRoom(c, size);
      if persistence == 0 || (persistence == 2 && !room) then
        FitsTemp(c, size) && (h', ptr) == AllocTemporary(h, kind, size, id)
      else if persistence == 1 && !room then h' == h && ptr == 0
      else
        && c'.entries == c.entries + [Entry(ptr, size, id)] && ptr == (if room then c.pool.cur else 0)
        && h' == h.Set(kind, c.(entries := c'.entries, pool := c'.pool))
        && c'.pool.start == c.pool.start && c'.pool.size == c.pool.size
        && c'.pool.cur == c.pool.cur + if room then (size + 0xF) / 0x10 * 0x10 else 0
  {
    hide AllocTemporary;
  }

  /** The space set aside for a file, in whole 16-byte blocks, holds a sequence and, of a font, all that
      follows its 16-byte header; it holds the whole font file too unless that is one byte more than a number
      of blocks. */
  lemma LoadSizeCovers(kind: Kind, length: nat)
    ensures var size := LoadSize(kind, length);
      && size % 0x10 == 0
      && (kind == Sequences ==> length + 0xF <= size <= length + 0x1E)
      && (kind == Fonts ==> length <= size + 1 && size < length + 0xF && (length <= size <==> length % 0x10 != 1))
  {
    var k, m := length / 0x10, length % 0x10;
    assert length + 0x1E == 0x10 * (k + 1) + (m + 0xE);
    assert (length + 0x1E) / 0x10 == if m < 2 then k + 1 else k + 2;
  }

  /** A load that succeeds publishes the file's status; nothing else but its allocation happens. */
  lemma LoadStatus(h: Heap, kind: Kind, persistence: nat, length: nat, id: int, async: bool)
    requires Ready(h) && 0 <= id < |h.Get(kind).status| && Fits(h.Get(kind), persistence, LoadSize(kind, length))
    ensures var (m, ptr) := AllocCached(h, kind, persistence, LoadSize(kind, length), id);
      var h' := Load(h, kind, persistence, length, id, async).0;
      && Load(h, kind, persistence, length, id, async).1 == ptr
      && (ptr == 0 ==> h' == m)
      && (ptr != 0 ==>
            && h' == m.Set(kind, m.Get(kind).(status := h'.Get(kind).status))
            && |h'.Get(kind).status| == |m.Get(kind).status|
            && forall k :: 0 <= k < |m.Get(kind).status| ==>
                 h'.Get(kind).status[k] ==
                   if k != id then m.Get(kind).status[k]
                   else if async && (kind == Fonts || 0x40 < LoadSize(kind, length)) then LOADING
                   else COMPLETE)
  {
    hide AllocCached, LoadSize;
  }

  /** An arrival completes its file and changes nothing else. */
  lemma ArriveExact(h: Heap, kind: Kind, id: int)
    requires 0 <= id < |h.Get(kind).status|
    ensures var h' := Arrive(h, kind, id); var c, c' := h.Get(kind), h'.Get(kind);
      && h' == h.Set(kind, c.(status := c'.status)) && |c'.status| == |c.status| && c'.status[id] == COMPLETE
      && forall k :: 0 <= k < |c.status| && k != id ==> c'.status[k] == c.status[k]
  {
  }
}
