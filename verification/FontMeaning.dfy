/** What the relocated font means: every slot leads to the object, and the sound, it named in the file. */
module FontMeaning {
  import opened FontModel

  /** The sound a file slot names: offsets are relative to the file and to the sample data. */
  function FileSound(site: Site, f: Font, slot: int): seq<byte>
    requires SlotTarget(site.base, slot) <= f.samples.Keys
  {
    if slot == 0 then []
    else
      var s := f.samples[Add32(slot, site.base)];
      RomBytes(site.rom, Add32(s.addr, site.romBase), s.size)
  }

  /** The sound a live pointer leads to: from RAM if it was copied there, else from ROM. */
  function LiveSound(site: Site, g: Font, ram: seq<byte>, p: int): seq<byte>
    requires Audible(g, ram, p)
  {
    if p == 0 then []
    else
      var s := g.samples[p];
      if s.flag == IN_RAM then ram[s.addr..s.addr + s.size] else RomBytes(site.rom, s.addr, s.size)
  }

  predicate Audible(g: Font, ram: seq<byte>, p: int) {
    p != 0 ==> p in g.samples && (g.samples[p].flag == IN_RAM ==> g.samples[p].addr + g.samples[p].size <= |ram|)
  }

  predicate FreshSound(base: int, f: Font, slot: int) {
    forall a :: a in SlotTarget(base, slot) ==> a in f.samples && f.samples[a].flag in {UNPLACED, WANTS_RAM}
  }

  lemma SoundKept(site: Site, f: Font, g: Font, used: set<int>, slot: int, ram: seq<byte>, lo: nat, hi: nat)
    requires SamplesDone(site, f.samples, g.samples, used, ram, lo, hi) && FreshSound(site.base, f, slot)
    requires SlotTarget(site.base, slot) <= used && (slot != 0 ==> Add32(slot, site.base) != 0)
    ensures Audible(g, ram, Rebase(site.base, slot))
    ensures LiveSound(site, g, ram, Rebase(site.base, slot)) == FileSound(site, f, slot)
    ensures MovedOnce(site, f, g, slot, Rebase(site.base, slot))
  {
    if slot != 0 {
      var a := Add32(slot, site.base);
      assert SampleDone(site, f.samples[a], g.samples[a], true, ram, lo, hi);
    }
  }

  /** Objects are placed at real addresses. */
  predicate NoNullObjects(f: Font) {
    0 !in f.instruments && 0 !in f.drums && 0 !in f.samples
  }

  /** An instrument slot, however many others share its instrument or samples, leads after the patch to
      an instrument whose three sounds are the ones the file named, its envelope moved once. */
  lemma InstrumentSounds(site: Site, f: Font, g: Font, numInst: nat, drumCount: nat, ram: seq<byte>,
                         lo: nat, hi: nat, i: nat)
    requires numInst <= |f.instSlots| && drumCount <= |f.drumSlots| && Patched(site, f, g, numInst, drumCount, ram, lo, hi)
    requires Closed(f, site.base, numInst, drumCount) && NoNullObjects(f)
    requires i < numInst && f.instSlots[i] != 0
    ensures |g.instSlots| == |f.instSlots| && Add32(f.instSlots[i], site.base) in f.instruments && g.instSlots[i] in g.instruments
    ensures var x := f.instruments[Add32(f.instSlots[i], site.base)]; var y := g.instruments[g.instSlots[i]];
      && (x.loaded != 0 ==> y == x)
      && (x.loaded == 0 ==>
            && y.loaded == 1 && y.envelope == Add32(x.envelope, site.base)
            && SameSound(site, f, g, x.low, y.low, ram) && SameSound(site, f, g, x.normal, y.normal, ram)
            && SameSound(site, f, g, x.high, y.high, ram))
  {
    hide SamplesDone;
    var a := Add32(f.instSlots[i], site.base);
    ReachedExact(site.base, f.instSlots, numInst, a);
    var insts, drums := Reached(site.base, f.instSlots, numInst), Reached(site.base, f.drumSlots, drumCount);
    var used := UsedSamples(site.base, f, insts, drums);
    assert a in SlotTarget(site.base, f.instSlots[i]);
    var x := f.instruments[a];
    if x.loaded == 0 {
      assert InstrumentSamples(site.base, x) <= used;
      SameSoundFrom(site, f, g, used, x.low, ram, lo, hi);
      SameSoundFrom(site, f, g, used, x.normal, ram, lo, hi);
      SameSoundFrom(site, f, g, used, x.high, ram, lo, hi);
    }
  }

  /** The sample's loop and book offsets have become addresses, and it is marked placed. */
  predicate MovedOnce(site: Site, f: Font, g: Font, s: int, p: int) {
    s != 0 ==>
      && Add32(s, site.base) in f.samples && p in g.samples
      && var x, y := f.samples[Add32(s, site.base)], g.samples[p];
        && y.loop == Add32(x.loop, site.base) && y.book == Add32(x.book, site.base) && y.size == x.size
        && y.flag in {IN_ROM, IN_RAM} && (y.flag == IN_RAM ==> x.flag == WANTS_RAM)
  }

  /** Slot s in the file and pointer p after the patch agree on the sound, if it was still to be placed. */
  predicate SameSound(site: Site, f: Font, g: Font, s: int, p: int, ram: seq<byte>) {
    && (p == 0 <==> s == 0) && SlotTarget(site.base, s) <= f.samples.Keys
    && (FreshSound(site.base, f, s) ==> Audible(g, ram, p) && LiveSound(site, g, ram, p) == FileSound(site, f, s) && MovedOnce(site, f, g, s, p))
  }

  lemma SameSoundFrom(site: Site, f: Font, g: Font, used: set<int>, slot: int, ram: seq<byte>, lo: nat, hi: nat)
    requires SamplesDone(site, f.samples, g.samples, used, ram, lo, hi) && 0 !in f.samples
    requires SlotTarget(site.base, slot) <= used && SlotTarget(site.base, slot) <= f.samples.Keys
    ensures SameSound(site, f, g, slot, Rebase(site.base, slot), ram)
  {
    assert slot != 0 ==> Add32(slot, site.base) in SlotTarget(site.base, slot);
    if FreshSound(site.base, f, slot) {
      SoundKept(site, f, g, used, slot, ram, lo, hi);
    }
  }

  lemma DrumSounds(site: Site, f: Font, g: Font, numInst: nat, numDrums: nat, ram: seq<byte>, lo: nat, hi: nat, i: nat)
    requires numInst <= |f.instSlots| && numDrums <= |f.drumSlots| && Patched(site, f, g, numInst, numDrums, ram, lo, hi)
    requires Closed(f, site.base, numInst, numDrums) && NoNullObjects(f) && f.drumTable != 0
    requires i < numDrums && f.drumSlots[i] != 0
    ensures |g.drumSlots| == |f.drumSlots| && Add32(f.drumSlots[i], site.base) in f.drums && g.drumSlots[i] in g.drums
    ensures var x := f.drums[Add32(f.drumSlots[i], site.base)]; var y := g.drums[g.drumSlots[i]];
      && (x.loaded != 0 ==> y == x)
      && (x.loaded == 0 ==>
            y.loaded == 1 && y.envelope == Add32(x.envelope, site.base) && SameSound(site, f, g, x.sound, y.sound, ram))
  {
    hide SamplesDone;
    var a := Add32(f.drumSlots[i], site.base);
    ReachedExact(site.base, f.drumSlots, numDrums, a);
    var insts, drums := Reached(site.base, f.instSlots, numInst), Reached(site.base, f.drumSlots, numDrums);
    var used := UsedSamples(site.base, f, insts, drums);
    assert a in SlotTarget(site.base, f.drumSlots[i]);
    var x := f.drums[a];
    if x.loaded == 0 {
      assert SlotTarget(site.base, x.sound) <= used;
      SameSoundFrom(site, f, g, used, x.sound, ram, lo, hi);
    }
  }

  /** Nothing guards the table slots themselves: a second patch leaves a slot alone only when it is
      empty or the file sits at address 0 modulo the word size. */
  lemma SecondPatchKeepsSlotIff(site: Site, f: Font, g: Font, h: Font, numInst: nat, ram: seq<byte>, ram': seq<byte>,
                                lo: nat, hi: nat, i: nat)
    requires numInst <= |f.instSlots| && Patched(site, f, g, numInst, 0, ram, lo, hi)
    requires numInst <= |g.instSlots| && Patched(site, g, h, numInst, 0, ram', lo, hi)
    requires i < numInst && Rebase(site.base, f.instSlots[i]) != 0
    ensures |h.instSlots| == |g.instSlots|
    ensures h.instSlots[i] == g.instSlots[i] <==> site.base % 0x1_0000_0000 == 0
  {
    hide SamplesDone, InstrumentsDone, DrumsDone;
    AddFixed(g.instSlots[i], site.base);
  }

  lemma AddFixed(a: int, b: int)
    requires 0 <= a < 0x1_0000_0000
    ensures Add32(a, b) == a <==> b % 0x1_0000_0000 == 0
  {
    var q, r := b / 0x1_0000_0000, b % 0x1_0000_0000;
    assert a + b == 0x1_0000_0000 * q + (a + r);
    if a + r < 0x1_0000_0000 {
      assert (a + b) / 0x1_0000_0000 == q;
    } else {
      assert (a + b) / 0x1_0000_0000 == q + 1;
    }
  }
}
