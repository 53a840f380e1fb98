/** The sound caches as the program keeps them, updated in place and proved against the model. */
module SoundCaches {
  import opened SoundCacheModel
  import opened SoundCacheProofs
  import opened SoundCacheRuns
  import AudioPool
  import Base = AudioBase

  class SoundCache {
    const entries: array<Entry>
    const status: array<nat>
    const pool: AudioPool.Pool
    var numEntries: nat
    var temp: Temp

    predicate Shape()
      reads this
    {
      entries.Length == MAX_PERSISTENT && numEntries <= MAX_PERSISTENT
    }

    function Model(): Cache
      requires Shape()
      reads this, entries, status, pool
    {
      Cache(entries[..numEntries], PoolState(pool.start, pool.cur, pool.size), temp, status[..])
    }

    constructor (entries: array<Entry>, status: array<nat>, pool: AudioPool.Pool, temp: Temp)
      requires entries.Length == MAX_PERSISTENT
      ensures this.entries == entries && this.status == status && this.pool == pool
      ensures this.temp == temp && numEntries == 0 && Shape()
    {
      this.entries, this.status, this.pool, this.temp, numEntries := entries, status, pool, temp, 0;
    }

    /** Forgets the side's old id and records the new entry there. */
    method PlaceEntry(side: int, size: nat, id: int) returns (ptr: int)
      requires Shape() && IdsInRange(Model()) && side in {0, 1}
      modifies `temp, status
      ensures Shape() && ptr == Side(temp, side).ptr
      ensures var c := old(Model()); var c' := Forget(c, Side(c.temp, side).id);
        Model() == c'.(temp := Place(c.temp.(nextSide := side), side, size, id))
    {
      var victim := if side == 0 then temp.entry0.id else temp.entry1.id;
      if victim != NO_ID {
        status[victim] := NOT_LOADED;
      }
      temp := temp.(nextSide := side);
      if side == 0 {
        temp := temp.(entry0 := Entry(temp.start, size, id));
        temp := temp.(cur := temp.start + size);
        ptr := temp.entry0.ptr;
      } else {
        temp := temp.(entry1 := Entry(temp.start + temp.size - size - 0x10, size, id));
        ptr := temp.entry1.ptr;
      }
    }

    /** Clears the status of the entry opposite side, which must be occupied. */
    method ForgetOpposite(side: int) returns (lost: int)
      requires Shape() && side in {0, 1} && 0 <= Side(temp, 1 - side).id < status.Length
      modifies status
      ensures Shape() && lost == Side(temp, 1 - side).id && Model() == Forget(old(Model()), lost)
    {
      lost := if side == 0 then temp.entry1.id else temp.entry0.id;
      status[lost] := NOT_LOADED;
    }

    method DropOpposite(side: int)
      requires Shape() && side in {0, 1}
      modifies `temp
      ensures Shape() && temp == SoundCacheModel.DropOpposite(old(temp), side)
    {
      if side == 0 {
        temp := temp.(entry1 := temp.entry1.(id := NO_ID));
        temp := temp.(entry1 := temp.entry1.(ptr := temp.start + temp.size));
      } else {
        temp := temp.(entry0 := temp.entry0.(id := NO_ID));
        temp := temp.(cur := temp.start);
      }
    }

    /** Takes a side when nothing else hangs on the evicted id (fonts). */
    method TakeSide(side: int, size: nat, id: int) returns (ptr: int)
      requires Shape() && IdsInRange(Model()) && side in {0, 1} && 0 <= id < status.Length
      requires Overlaps(Place(temp, side, size, id)) ==> Side(temp, 1 - side).id != NO_ID
      modifies `temp, status
      ensures Shape() && Model() == old(Occupy(Model(), side, size, id).0) && ptr == Side(temp, side).ptr
    {
      ptr := PlaceEntry(side, size, id);
      if temp.entry1.ptr < temp.cur {
        var lost := ForgetOpposite(side);
        DropOpposite(side);
      }
      temp := temp.(nextSide := 1 - side);
    }
  }

  class SoundHeap {
    const seqs: SoundCache
    const fonts: SoundCache
    const players: array<Player>
    const noteFonts: array<nat>
    const ram: array<Base.byte>

    constructor (seqs: SoundCache, fonts: SoundCache, players: array<Player>, noteFonts: array<nat>, ram: array<Base.byte>)
      ensures this.seqs == seqs && this.fonts == fonts && this.players == players
      ensures this.noteFonts == noteFonts && this.ram == ram
    {
      this.seqs, this.fonts, this.players, this.noteFonts, this.ram := seqs, fonts, players, noteFonts, ram;
    }

    ghost function Repr(): set<object> {
      {seqs, fonts, seqs.entries, seqs.status, seqs.pool, fonts.entries, fonts.status, fonts.pool, players, noteFonts, ram}
    }

    ghost predicate Shape()
      reads seqs, fonts
    {
      && seqs.Shape() && fonts.Shape() && seqs != fonts && seqs.entries != fonts.entries
      && seqs.pool != fonts.pool && seqs.status != fonts.status
      && noteFonts != seqs.status && noteFonts != fonts.status
    }

    ghost function Model(): Heap
      requires Shape()
      reads seqs, fonts, Repr()
    {
      Heap(seqs.Model(), fonts.Model(), players[..], noteFonts[..])
    }

    ghost predicate Valid()
      reads Repr()
    {
      Shape() && Ready(Model()) && seqs.pool.Valid(ram) && fonts.pool.Valid(ram)
    }

    function CacheOf(kind: Kind): SoundCache {
      if kind == Sequences then seqs else fonts
    }

    /** The note scan: does any note still name this font? */
    method FontIsUsed(id: int) returns (used: bool)
      ensures used <==> FontInUse(noteFonts[..], id)
    {
      var i := 0;
      while i < noteFonts.Length
        invariant i <= noteFonts.Length && forall j :: 0 <= j < i ==> noteFonts[j] != id
      {
        if noteFonts[i] == id {
          assert noteFonts[..][i] == id;
          return true;
        }
        i := i + 1;
      }
      return false;
    }

    /** The player scan: is any enabled player on this sequence? */
    method SequenceIsUsed(id: int) returns (used: bool)
      ensures used <==> SequenceInUse(players[..], id)
    {
      var i := 0;
      while i < players.Length
        invariant i <= players.Length
        invariant forall j :: 0 <= j < i ==> !(players[j].enabled && players[j].seqId == id)
      {
        if players[i].enabled && players[i].seqId == id {
          assert players[..][i] == players[i];
          return true;
        }
        i := i + 1;
      }
      return false;
    }

    /** Disables a player and releases its files. */
    method StopPlayer(p: nat)
      requires Shape() && Sized(Model()) && p < players.Length
      modifies players, seqs.status, fonts.status, fonts`temp
      ensures Shape() && Model() == SoundCacheModel.StopPlayer(old(Model()), p)
    {
      ghost var next := SoundCacheModel.StopPlayer(Model(), p);
      var seqId, font := players[p].seqId, players[p].font;
      players[p] := players[p].(enabled := false);
      if seqs.status[seqId] >= COMPLETE {
        seqs.status[seqId] := DISCARDABLE;
      }
      if fonts.status[font] >= COMPLETE {
        fonts.status[font] := FONT_PENDING;
      }
      if font == fonts.temp.entry0.id {
        fonts.temp := fonts.temp.(nextSide := 1);
      } else if font == fonts.temp.entry1.id {
        fonts.temp := fonts.temp.(nextSide := 0);
      }
      assert seqs.status[..] == next.seqs.status && fonts.status[..] == next.fonts.status;
      assert players[..] == next.players;
    }

    /** Stops every player on a sequence that is being thrown out. */
    method DiscardSequence(id: int)
      requires Shape() && Sized(Model())
      modifies players, seqs.status, fonts.status, fonts`temp
      ensures Shape() && Model() == SoundCacheModel.DiscardSequence(old(Model()), id, 0)
    {
      hide SoundCacheModel.StopPlayer, IdsInRange;
      var p := 0;
      while p < players.Length
        invariant p <= players.Length && Shape() && Sized(Model())
        invariant SoundCacheModel.DiscardSequence(Model(), id, p) == SoundCacheModel.DiscardSequence(old(Model()), id, 0)
      {
        if players[p].enabled && players[p].seqId == id {
          StopSoftens(Model(), p);
          StopPlayer(p);
        }
        p := p + 1;
      }
    }

    /** A pending font (status st) with no notes left becomes discardable. */
    method SettleFont(id: int, st: nat) returns (st': nat)
      requires Valid() && (id == NO_ID || 0 <= id < fonts.status.Length)
      requires st == StatusOf(Model().fonts, id) || (st == FONT_PENDING && StatusOf(Model().fonts, id) == DISCARDABLE && !FontInUse(noteFonts[..], id))
      modifies fonts.status
      ensures Valid() && Model() == old(Settle(Model(), Fonts, id)) && st' == StatusOf(Model().fonts, id)
    {
      ghost var next := Settle(Model(), Fonts, id);
      st' := st;
      if st == FONT_PENDING {
        var used := FontIsUsed(id);
        if !used {
          fonts.status[id] := DISCARDABLE;
          st' := DISCARDABLE;
        }
      }
      assert fonts.status[..] == next.fonts.status;
    }

    /** Reads both sides' statuses, first making pending fonts without notes discardable. */
    method ReadStatuses(kind: Kind) returns (st0: nat, st1: nat)
      requires Valid()
      modifies fonts.status
      ensures Valid() && Model() == old(SettleBoth(Model(), kind))
      ensures var c := Model().Get(kind);
        st0 == StatusOf(c, c.temp.entry0.id) && st1 == StatusOf(c, c.temp.entry1.id)
    {
      var c := CacheOf(kind);
      var id0, id1 := c.temp.entry0.id, c.temp.entry1.id;
      st0 := if id0 == NO_ID then NOT_LOADED else c.status[id0];
      st1 := if id1 == NO_ID then NOT_LOADED else c.status[id1];
      if kind == Fonts {
        st0 := SettleFont(id0, st0);
        st1 := SettleFont(id1, st1);
      }
    }

    /** The victim cascade; side is -1 when both sides are loading. */
    method ChooseVictim(kind: Kind, st0: nat, st1: nat) returns (side: int)
      requires Valid()
      ensures var t := Model().Get(kind).temp;
        Pick(st0, st1, InUse(Model(), kind, t.entry0.id), InUse(Model(), kind, t.entry1.id), t.nextSide) ==
          if side == -1 then NoSide else Chosen(side)
      ensures side in {-1, 0, 1}
    {
      var t := CacheOf(kind).temp;
      if st0 == NOT_LOADED {
        return 0;
      } else if st1 == NOT_LOADED {
        return 1;
      } else if st0 == DISCARDABLE && st1 == DISCARDABLE {
        return t.nextSide;
      } else if st0 == DISCARDABLE {
        return 0;
      } else if st1 == DISCARDABLE {
        return 1;
      }
      if st0 == COMPLETE {
        var used := IsUsed(kind, t.entry0.id);
        if !used {
          return 0;
        }
      }
      if st1 == COMPLETE {
        var used := IsUsed(kind, t.entry1.id);
        if !used {
          return 1;
        }
      }
      return if st0 != LOADING then 0 else if st1 != LOADING then 1 else -1;
    }

    method IsUsed(kind: Kind, id: int) returns (used: bool)
      requires Shape()
      ensures used <==> InUse(Model(), kind, id)
    {
      if kind == Fonts {
        used := FontIsUsed(id);
      } else {
        used := SequenceIsUsed(id);
      }
    }

    /** Forgets the victim, places the entry, throws out the other side if it is in the way
        (stopping the players of a lost sequence), and flips nextSide. */
    method TakeSequenceSide(side: int, size: nat, id: int) returns (ptr: int)
      requires Shape() && Sized(Model()) && side in {0, 1} && 0 <= id < seqs.status.Length
      requires Overlaps(Place(seqs.temp, side, size, id)) ==> Side(seqs.temp, 1 - side).id != NO_ID
      modifies seqs`temp, fonts`temp, seqs.status, fonts.status, players
      ensures Shape() && (Model(), ptr) == old(AllocOnSide(Model(), Sequences, side, size, id))
    {
      ghost var h := Model();
      ghost var (goal, gone) := Occupy(h.seqs, side, size, id);
      ptr := seqs.PlaceEntry(side, size, id);
      ghost var c1 := seqs.Model();
      assert Model() == h.(seqs := c1);
      if seqs.temp.entry1.ptr < seqs.temp.cur {
        var lost := seqs.ForgetOpposite(side);
        ghost var c2 := Forget(c1, gone);
        assert Model() == h.(seqs := c2);
        DiscardSequence(lost);
        DiscardedThenDropped(h, Sequences, c2, goal, gone, side);
        seqs.DropOpposite(side);
      }
      seqs.temp := seqs.temp.(nextSide := 1 - side);
    }

    method TakeSide(kind: Kind, side: int, size: nat, id: int) returns (ptr: int)
      requires Shape() && Sized(Model()) && side in {0, 1} && 0 <= id < CacheOf(kind).status.Length
      requires Overlaps(Place(CacheOf(kind).temp, side, size, id)) ==> Side(CacheOf(kind).temp, 1 - side).id != NO_ID
      modifies seqs`temp, fonts`temp, seqs.status, fonts.status, players
      ensures Shape() && (Model(), ptr) == old(AllocOnSide(Model(), kind, side, size, id))
    {
      if kind == Sequences {
        ptr := TakeSequenceSide(side, size, id);
      } else {
        ptr := fonts.TakeSide(side, size, id);
      }
    }

    method AllocTemporary(kind: Kind, size: nat, id: int) returns (ptr: int)
      requires Valid()
      requires 0 <= id < CacheOf(kind).status.Length && FitsTemp(Model().Get(kind), size)
      modifies seqs`temp, fonts`temp, seqs.status, fonts.status, players
      ensures Valid() && (Model(), ptr) == old(SoundCacheModel.AllocTemporary(Model(), kind, size, id))
    {
      hide SoundCacheModel.AllocOnSide, Pick, TempOk, PoolOk, IdsInRange, Settle, Agrees;
      ghost var h := Model();
      assert Ready(SoundCacheModel.AllocTemporary(h, kind, size, id).0) by { TemporaryOutcome(h, kind, size, id); }
      EitherSideReady(h, kind, size, id);
      var st0, st1 := ReadStatuses(kind);
      var side := ChooseVictim(kind, st0, st1);
      if side == -1 {
        return 0;
      }
      ptr := TakeSide(kind, side, size, id);
    }

    /** Records a persistent entry in the next free row. */
    method Record(kind: Kind, ptr: int, size: nat, id: int)
      requires Shape() && CacheOf(kind).numEntries < MAX_PERSISTENT
      modifies CacheOf(kind)`numEntries, CacheOf(kind).entries
      ensures Shape()
      ensures Model() == old(Model().Set(kind, AddPersistent(Model().Get(kind), ptr, size, id)))
    {
      var c := CacheOf(kind);
      ghost var rows := c.entries[..c.numEntries];
      c.entries[c.numEntries] := Entry(ptr, size, id);
      c.numEntries := c.numEntries + 1;
      assert c.entries[..c.numEntries] == rows + [Entry(ptr, size, id)];
    }

    method AllocCached(kind: Kind, persistence: nat, size: nat, id: int) returns (ptr: int)
      requires Valid() && 0 <= id < CacheOf(kind).status.Length
      requires Fits(Model().Get(kind), persistence, size) && (persistence != 0 ==> CacheOf(kind).numEntries < MAX_PERSISTENT)
      modifies Repr(), seqs, fonts
      ensures Valid() && (Model(), ptr) == old(SoundCacheModel.AllocCached(Model(), kind, persistence, size, id))
    {
      hide SoundCacheModel.AllocTemporary, Ready;
      AllocCachedReady(Model(), kind, persistence, size, id);
      if persistence == 0 {
        ptr := AllocTemporary(kind, size, id);
        return;
      }
      var c := CacheOf(kind);
      ghost var h := Model();
      ptr := c.pool.AllocZeroed(ram, size);
      assert ptr != 0 <==> PoolFits(h.Get(kind).pool, size);
      if ptr == 0 {
        assert Model() == h;
        if persistence == 2 {
          ptr := AllocTemporary(kind, size, id);
          return;
        } else if persistence == 1 {
          return 0;
        }
      }
      Record(kind, ptr, size, id);
    }

    method Search(kind: Kind, persistence: nat, id: int) returns (ptr: int)
      requires Shape()
      modifies CacheOf(kind)`temp
      ensures Shape() && (Model(), ptr) == old(SoundCacheModel.Search(Model(), kind, persistence, id))
    {
      var c := CacheOf(kind);
      if persistence != 0 {
        var i := 0;
        while i < c.numEntries
          invariant i <= c.numEntries && unchanged(c)
          invariant FindPersistent(c.entries[..c.numEntries], id, 0) == FindPersistent(c.entries[..c.numEntries], id, i)
        {
          if c.entries[i].id == id {
            return c.entries[i].ptr;
          }
          i := i + 1;
        }
        if persistence != 2 {
          return 0;
        }
      }
      if id == c.temp.entry0.id {
        c.temp := c.temp.(nextSide := 1);
        return c.temp.entry0.ptr;
      } else if id == c.temp.entry1.id {
        c.temp := c.temp.(nextSide := 0);
        return c.temp.entry1.ptr;
      }
      return 0;
    }

    /** The common shape of the four loaders: allocate, copy, then publish the status. */
    method Load(kind: Kind, persistence: nat, length: nat, id: int, async: bool) returns (ptr: int)
      requires Valid() && 0 <= id < CacheOf(kind).status.Length
      requires Fits(Model().Get(kind), persistence, LoadSize(kind, length))
      requires persistence != 0 ==> CacheOf(kind).numEntries < MAX_PERSISTENT
      modifies Repr(), seqs, fonts
      ensures Valid() && (Model(), ptr) == old(SoundCacheModel.Load(Model(), kind, persistence, length, id, async))
    {
      hide SoundCacheModel.AllocCached, TempOk, IdsInRange;
      LoadReady(Model(), kind, persistence, length, id, async);
      ptr := AllocCached(kind, persistence, LoadSize(kind, length), id);
      if ptr == 0 {
        return;
      }
      ghost var h := Model();
      CacheOf(kind).status[id] := LoadedStatus(kind, length, async);
      assert CacheOf(kind).status[..] == h.Get(kind).status[id := LoadedStatus(kind, length, async)];
    }
  }
}
