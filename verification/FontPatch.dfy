/** The patch itself, working in place on a loaded font. */
module FontPatch {
  import opened FontModel
  import AudioPool

  class LoadedFont {
    const site: Site
    const pool: AudioPool.Pool
    const ram: array<byte>
    var drumTable: int
    var drumSlots: seq<int>
    var instSlots: seq<int>
    var drums: map<int, Drum>
    var instruments: map<int, Instrument>
    var samples: map<int, Sample>

    function Model(): Font
      reads this
    {
      Font(drumTable, drumSlots, instSlots, drums, instruments, samples)
    }

    predicate Valid()
      reads this, pool
    {
      pool.Valid(ram)
    }

    constructor (site: Site, pool: AudioPool.Pool, ram: array<byte>, f: Font)
      requires pool.Valid(ram)
      ensures Valid() && Model() == f && this.site == site && this.pool == pool && this.ram == ram
    {
      this.site, this.pool, this.ram := site, pool, ram;
      drumTable, drumSlots, instSlots := f.drumTable, f.drumSlots, f.instSlots;
      drums, instruments, samples := f.drums, f.instruments, f.samples;
    }

    /** Synchronous transfer of len bytes from ROM to RAM. */
    method DmaCopyImmediate(dev: nat, p: nat, len: nat)
      requires p + len <= ram.Length
      modifies ram
      ensures Copied(site, ram[..], p, dev, len) && ram[..p] == old(ram[..p])
      ensures ram[p + len..] == old(ram[p + len..])
    {
      for k := 0 to len
        invariant ram[..p] == old(ram[..p]) && ram[p + len..] == old(ram[p + len..])
        invariant ram[p..p + k] == RomBytes(site.rom, dev, k)
      {
        ghost var done := ram[p..p + k];
        ram[p + k] := site.rom(dev + k);
        assert ram[p..p + k + 1] == done + [ram[p + k]];
        assert RomBytes(site.rom, dev, k + 1) == RomBytes(site.rom, dev, k) + [site.rom(dev + k)];
      }
    }

    /** Follows one sample slot and returns its new value. The sample is placed unless it already was:
        copied to RAM exactly when it asks for that and the pool has room, else addressed in ROM. */
    method PatchSound(slot: int) returns (slot': int)
      requires Valid() && SlotTarget(site.base, slot) <= samples.Keys
      modifies this`samples, pool`cur, ram
      ensures Valid() && slot' == Rebase(site.base, slot) && samples.Keys == old(samples.Keys)
      ensures old(pool.cur) <= pool.cur && ram[..old(pool.cur)] == old(ram[..pool.cur])
      ensures forall a :: a in samples && a !in SlotTarget(site.base, slot) ==> samples[a] == old(samples)[a]
      ensures forall a :: a in SlotTarget(site.base, slot) ==>
                && SampleDone(site, old(samples)[a], samples[a], true, ram[..], old(pool.cur), pool.cur)
                && (old(samples)[a].flag == WANTS_RAM ==> (samples[a].flag == IN_RAM <==> old(pool.Fits(samples[a].size))))
    {
      if slot == 0 {
        return 0;
      }
      var a := Add32(slot, site.base);
      slot' := a;
      var s := samples[a];
      var dev := Add32(s.addr, site.romBase);
      if s.flag == UNPLACED {
        samples := samples[a := Sample(IN_ROM, dev, Add32(s.loop, site.base), Add32(s.book, site.base), s.size)];
      } else if s.flag == WANTS_RAM {
        var p := pool.AllocZeroed(ram, s.size);
        if p == 0 {
          samples := samples[a := s.(addr := dev, flag := IN_ROM)];
        } else {
          DmaCopyImmediate(dev, p, s.size);
          samples := samples[a := s.(flag := IN_RAM, addr := p)];
        }
        var t := samples[a];
        samples := samples[a := t.(loop := Add32(t.loop, site.base), book := Add32(t.book, site.base))];
      }
    }

    /** PatchSound for a font under way: one more slot has been followed. */
    method FollowSound(slot: int, ghost start: map<int, Sample>, ghost used: set<int>, ghost lo: nat) returns (slot': int)
      requires Valid() && SlotTarget(site.base, slot) <= start.Keys && lo <= pool.cur
      requires SamplesDone(site, start, samples, used, ram[..], lo, pool.cur)
      modifies this`samples, pool`cur, ram
      ensures Valid() && slot' == Rebase(site.base, slot)
      ensures SamplesDone(site, start, samples, used + SlotTarget(site.base, slot), ram[..], lo, pool.cur)
      ensures old(pool.cur) <= pool.cur && ram[..old(pool.cur)] == old(ram[..pool.cur])
    {
      ghost var was, bytes, hi := samples, ram[..], pool.cur;
      slot' := PatchSound(slot);
      SampleGrows(site, start, was, samples, used, slot, bytes, ram[..], lo, hi, pool.cur);
    }

    /** Processes drum slot i of a font whose first i drum slots and insts instrument slots are done. */
    method PatchDrumSlot(i: nat, ghost f: Font, ghost insts: nat, ghost lo: nat)
      requires Valid() && i < |f.drumSlots| && insts <= |f.instSlots| && lo <= pool.cur
      requires SlotTarget(site.base, f.drumSlots[i]) <= f.drums.Keys
      requires forall a :: a in f.drums && f.drums[a].loaded == 0 ==> SlotTarget(site.base, f.drums[a].sound) <= f.samples.Keys
      requires Patched(site, f, Model(), insts, i, ram[..], lo, pool.cur)
      modifies this, pool`cur, ram
      ensures Valid() && drumTable == old(drumTable) && lo <= pool.cur
      ensures Patched(site, f, Model(), insts, i + 1, ram[..], lo, pool.cur)
      ensures old(pool.cur) <= pool.cur && ram[..old(pool.cur)] == old(ram[..pool.cur])
    {
      hide SamplesDone, UsedSamples, InstrumentsDone;
      ghost var used := UsedSamples(site.base, f, Reached(site.base, f.instSlots, insts), Reached(site.base, f.drumSlots, i));
      var s := drumSlots[i];
      assert Reached(site.base, f.drumSlots, i) + {} == Reached(site.base, f.drumSlots, i) && used + {} == used;
      if s != 0 {
        var a := Add32(s, site.base);
        drumSlots := drumSlots[i := a];
        UsedGrowsDrum(site.base, f, Reached(site.base, f.instSlots, insts), Reached(site.base, f.drumSlots, i), a);
        if drums[a].loaded == 0 {
          var sound := FollowSound(drums[a].sound, f.samples, used, lo);
          drums := drums[a := Drum(1, sound, Add32(drums[a].envelope, site.base))];
        } else if a in Reached(site.base, f.drumSlots, i) {
          assert Reached(site.base, f.drumSlots, i) + {a} == Reached(site.base, f.drumSlots, i);
        }
      }
    }

    /** An instrument's three sounds, in order, then its flag and envelope. */
    method PatchInstrument(a: int, ghost start: map<int, Sample>, ghost used: set<int>, ghost lo: nat)
      requires Valid() && a in instruments && InstrumentSamples(site.base, instruments[a]) <= start.Keys && lo <= pool.cur
      requires SamplesDone(site, start, samples, used, ram[..], lo, pool.cur)
      modifies this`samples, this`instruments, pool`cur, ram
      ensures Valid() && instruments == old(instruments[a := PatchedInstrument(site.base, instruments[a])])
      ensures SamplesDone(site, start, samples, used + InstrumentSamples(site.base, old(instruments[a])), ram[..], lo, pool.cur)
      ensures old(pool.cur) <= pool.cur && ram[..old(pool.cur)] == old(ram[..pool.cur])
    {
      hide SamplesDone, SlotTarget, Rebase;
      var x := instruments[a];
      ghost var u1 := used + SlotTarget(site.base, x.low);
      ghost var u2 := u1 + SlotTarget(site.base, x.normal);
      assert u2 + SlotTarget(site.base, x.high) == used + InstrumentSamples(site.base, x);
      ghost var bytes, cur0 := ram[..], pool.cur;
      var low := FollowSound(x.low, start, used, lo);
      ghost var bytes1, cur1 := ram[..], pool.cur;
      var normal := FollowSound(x.normal, start, u1, lo);
      ghost var bytes2, cur2 := ram[..], pool.cur;
      var high := FollowSound(x.high, start, u2, lo);
      PrefixKept(bytes, bytes1, bytes2, cur0, cur1);
      PrefixKept(bytes, bytes2, ram[..], cur0, cur2);
      instruments := instruments[a := Instrument(1, Add32(x.envelope, site.base), low, normal, high)];
    }

    method PatchInstrumentSlot(i: nat, ghost f: Font, ghost drumCount: nat, ghost lo: nat)
      requires Valid() && i < |f.instSlots| && drumCount <= |f.drumSlots| && lo <= pool.cur
      requires SlotTarget(site.base, f.instSlots[i]) <= f.instruments.Keys
      requires forall a :: a in f.instruments && f.instruments[a].loaded == 0 ==>
                 InstrumentSamples(site.base, f.instruments[a]) <= f.samples.Keys
      requires Patched(site, f, Model(), i, drumCount, ram[..], lo, pool.cur)
      modifies this, pool`cur, ram
      ensures Valid() && drumTable == old(drumTable) && lo <= pool.cur
      ensures Patched(site, f, Model(), i + 1, drumCount, ram[..], lo, pool.cur)
      ensures old(pool.cur) <= pool.cur && ram[..old(pool.cur)] == old(ram[..pool.cur])
    {
      hide SamplesDone, UsedSamples, DrumsDone;
      ghost var used := UsedSamples(site.base, f, Reached(site.base, f.instSlots, i), Reached(site.base, f.drumSlots, drumCount));
      var s := instSlots[i];
      assert Reached(site.base, f.instSlots, i) + {} == Reached(site.base, f.instSlots, i) && used + {} == used;
      if s != 0 {
        var a := Add32(s, site.base);
        instSlots := instSlots[i := a];
        UsedGrowsInstrument(site.base, f, Reached(site.base, f.instSlots, i), Reached(site.base, f.drumSlots, drumCount), a);
        if instruments[a].loaded == 0 {
          PatchInstrument(a, f.samples, used, lo);
        } else if a in Reached(site.base, f.instSlots, i) {
          assert Reached(site.base, f.instSlots, i) + {a} == Reached(site.base, f.instSlots, i);
        }
      }
    }

    method PatchBank(numInst: nat, numDrums: nat)
      requires Valid() && Closed(Model(), site.base, numInst, numDrums)
      modifies this, pool`cur, ram
      ensures Valid() && drumTable == old(if UsesDrums(Model(), numDrums) then Add32(drumTable, site.base) else drumTable)
      ensures Patched(site, old(Model()), Model(), numInst, old(if UsesDrums(Model(), numDrums) then numDrums else 0),
                      ram[..], old(pool.cur), pool.cur)
      ensures ram[..old(pool.cur)] == old(ram[..pool.cur])
    {
      hide Patched, Closed, UsesDrums;
      ghost var f, lo, drumCount := Model(), pool.cur, 0;
      PatchStarts(site, f, numInst, numDrums, ram[..], lo);
      if drumTable != 0 && numDrums != 0 {
        drumTable := Add32(drumTable, site.base);
        drumCount := numDrums;
        for i := 0 to numDrums
          invariant Valid() && lo <= pool.cur && ram[..lo] == old(ram[..pool.cur])
          invariant drumTable == Add32(f.drumTable, site.base)
          invariant Patched(site, f, Model(), 0, i, ram[..], lo, pool.cur)
        {
          ghost var bytes, cur := ram[..], pool.cur;
          ClosedDrum(f, site.base, numInst, numDrums, i);
          PatchDrumSlot(i, f, 0, lo);
          PrefixKept(old(ram[..]), bytes, ram[..], lo, cur);
        }
      }
      for i := 0 to numInst
        invariant Valid() && lo <= pool.cur && ram[..lo] == old(ram[..pool.cur])
        invariant drumTable == if drumCount != 0 then Add32(f.drumTable, site.base) else f.drumTable
        invariant Patched(site, f, Model(), i, drumCount, ram[..], lo, pool.cur)
      {
        ghost var bytes, cur := ram[..], pool.cur;
        ClosedInstrument(f, site.base, numInst, numDrums, i);
        PatchInstrumentSlot(i, f, drumCount, lo);
        PrefixKept(old(ram[..]), bytes, ram[..], lo, cur);
      }
    }
  }
}
