/** Relocating a freshly loaded sound font: file offsets become addresses, each exactly once, although
    table slots may share instruments and drums, and these may share samples. */
module FontModel {
  import Base = AudioBase

  type byte = Base.byte

  function Add32(a: int, b: int): nat {
    (a + b) % 0x1_0000_0000
  }

  // Sample flags: still to be placed, in ROM, to be copied to RAM, copied.
  const UNPLACED := 0
  const IN_ROM := 1
  const WANTS_RAM := 0x80
  const IN_RAM := 0x81

  datatype Sample = Sample(flag: nat, addr: nat, loop: int, book: int, size: nat)
  datatype Drum = Drum(loaded: nat, sound: int, envelope: int)
  datatype Instrument = Instrument(loaded: nat, envelope: int, low: int, normal: int, high: int)

  /** Objects are keyed by their address. A zero slot is empty. */
  datatype Font = Font(drumTable: int, drumSlots: seq<int>, instSlots: seq<int>,
                       drums: map<int, Drum>, instruments: map<int, Instrument>, samples: map<int, Sample>)

  /** Where the file was loaded and where its sample data starts in ROM. */
  datatype Site = Site(base: int, romBase: int, rom: Base.Rom)

  function Rebase(base: int, s: int): int {
    if s == 0 then 0 else Add32(s, base)
  }

  function SlotTarget(base: int, s: int): set<int> {
    if s == 0 then {} else {Add32(s, base)}
  }

  /** Addresses of the objects in the first n slots of a table. */
  function Reached(base: int, slots: seq<int>, n: nat): set<int>
    requires n <= |slots|
  {
    if n == 0 then {} else Reached(base, slots, n - 1) + SlotTarget(base, slots[n - 1])
  }

  lemma {:induction false} ReachedExact(base: int, slots: seq<int>, n: nat, a: int)
    requires n <= |slots|
    ensures a in Reached(base, slots, n) <==> exists i :: 0 <= i < n && slots[i] != 0 && Add32(slots[i], base) == a
  {
    if n > 0 {
      ReachedExact(base, slots, n - 1, a);
    }
  }

  function InstrumentSamples(base: int, x: Instrument): set<int> {
    SlotTarget(base, x.low) + SlotTarget(base, x.normal) + SlotTarget(base, x.high)
  }

  /** Samples used by the instruments and drums in the given sets that were not loaded before. */
  function UsedSamples(base: int, f: Font, insts: set<int>, drums: set<int>): set<int> {
    (set b, a | b in insts && b in f.instruments && f.instruments[b].loaded == 0
                && a in InstrumentSamples(base, f.instruments[b]) :: a) +
    (set b, a | b in drums && b in f.drums && f.drums[b].loaded == 0 && a in SlotTarget(base, f.drums[b].sound) :: a)
  }

  predicate UsesDrums(f: Font, numDrums: nat) {
    f.drumTable != 0 && numDrums != 0
  }

  /** Every slot the patch will follow leads to an object of its kind. */
  predicate Closed(f: Font, base: int, numInst: nat, numDrums: nat) {
    && numInst <= |f.instSlots| && (UsesDrums(f, numDrums) ==> numDrums <= |f.drumSlots|)
    && (forall i :: 0 <= i < numInst ==> SlotTarget(base, f.instSlots[i]) <= f.instruments.Keys)
    && (UsesDrums(f, numDrums) ==> forall i :: 0 <= i < numDrums ==> SlotTarget(base, f.drumSlots[i]) <= f.drums.Keys)
    && (forall a :: a in f.instruments && f.instruments[a].loaded == 0 ==> InstrumentSamples(base, f.instruments[a]) <= f.samples.Keys)
    && (forall a :: a in f.drums && f.drums[a].loaded == 0 ==> SlotTarget(base, f.drums[a].sound) <= f.samples.Keys)
  }

  // ---------- what patching does ----------

  function PatchedInstrument(base: int, x: Instrument): Instrument {
    Instrument(1, Add32(x.envelope, base), Rebase(base, x.low), Rebase(base, x.normal), Rebase(base, x.high))
  }

  function PatchedDrum(base: int, x: Drum): Drum {
    Drum(1, Rebase(base, x.sound), Add32(x.envelope, base))
  }

  predicate Unplaced(s: Sample) {
    s.flag == UNPLACED || s.flag == WANTS_RAM
  }

  function RomBytes(rom: Base.Rom, dev: nat, len: nat): (r: seq<byte>)
    ensures |r| == len
  {
    seq(len, k requires 0 <= k < len => rom(dev + k))
  }

  /** RAM from p on holds len bytes of ROM from dev on. */
  predicate Copied(site: Site, ram: seq<byte>, p: int, dev: nat, len: nat) {
    0 <= p && p + len <= |ram| && ram[p..p + len] == RomBytes(site.rom, dev, len)
  }

  /** The sample's inner pointers are rebased once and its data is where the flag says; a copy lies
      between lo and hi. */
  predicate Placed(site: Site, s: Sample, t: Sample, ram: seq<byte>, lo: nat, hi: nat) {
    var dev := Add32(s.addr, site.romBase);
    && t.loop == Add32(s.loop, site.base) && t.book == Add32(s.book, site.base) && t.size == s.size
    && ((t.flag == IN_ROM && t.addr == dev) ||
        (s.flag == WANTS_RAM && t.flag == IN_RAM && lo <= t.addr && t.addr + t.size <= hi
         && Copied(site, ram, t.addr, dev, t.size)))
  }

  predicate SampleDone(site: Site, s: Sample, t: Sample, used: bool, ram: seq<byte>, lo: nat, hi: nat) {
    if used && Unplaced(s) then Placed(site, s, t, ram, lo, hi) else t == s
  }

  predicate SamplesDone(site: Site, before: map<int, Sample>, after: map<int, Sample>, used: set<int>,
                        ram: seq<byte>, lo: nat, hi: nat) {
    && after.Keys == before.Keys
    && forall a :: a in before ==> SampleDone(site, before[a], after[a], a in used, ram, lo, hi)
  }

  predicate InstrumentsDone(base: int, before: map<int, Instrument>, after: map<int, Instrument>, done: set<int>) {
    && after.Keys == before.Keys
    && forall a :: a in before ==> after[a] == if a in done && before[a].loaded == 0 then PatchedInstrument(base, before[a]) else before[a]
  }

  predicate DrumsDone(base: int, before: map<int, Drum>, after: map<int, Drum>, done: set<int>) {
    && after.Keys == before.Keys
    && forall a :: a in before ==> after[a] == if a in done && before[a].loaded == 0 then PatchedDrum(base, before[a]) else before[a]
  }

  predicate SlotsDone(base: int, before: seq<int>, after: seq<int>, n: nat) {
    && |after| == |before|
    && forall i :: 0 <= i < |before| ==> after[i] == if i < n then Rebase(base, before[i]) else before[i]
  }

  /** The first numInst instrument slots and numDrums drum slots have been processed. */
  predicate Patched(site: Site, f: Font, g: Font, numInst: nat, numDrums: nat, ram: seq<byte>, lo: nat, hi: nat)
    requires numInst <= |f.instSlots| && numDrums <= |f.drumSlots|
  {
    var insts := Reached(site.base, f.instSlots, numInst);
    var drums := Reached(site.base, f.drumSlots, numDrums);
    && SlotsDone(site.base, f.instSlots, g.instSlots, numInst) && SlotsDone(site.base, f.drumSlots, g.drumSlots, numDrums)
    && InstrumentsDone(site.base, f.instruments, g.instruments, insts) && DrumsDone(site.base, f.drums, g.drums, drums)
    && SamplesDone(site, f.samples, g.samples, UsedSamples(site.base, f, insts, drums), ram, lo, hi)
  }

  lemma PatchStarts(site: Site, f: Font, numInst: nat, numDrums: nat, ram: seq<byte>, lo: nat)
    requires Closed(f, site.base, numInst, numDrums)
    ensures numInst <= |f.instSlots| && (UsesDrums(f, numDrums) ==> numDrums <= |f.drumSlots|)
    ensures forall d :: Patched(site, f, f.(drumTable := d), 0, 0, ram, lo, lo)
    ensures UsesDrums(f, numDrums) <==> f.drumTable != 0 && numDrums != 0
  {
  }

  lemma ClosedDrum(f: Font, base: int, numInst: nat, numDrums: nat, i: nat)
    requires Closed(f, base, numInst, numDrums) && f.drumTable != 0 && i < numDrums
    ensures i < |f.drumSlots| && SlotTarget(base, f.drumSlots[i]) <= f.drums.Keys
    ensures forall a :: a in f.drums && f.drums[a].loaded == 0 ==> SlotTarget(base, f.drums[a].sound) <= f.samples.Keys
  {
  }

  lemma ClosedInstrument(f: Font, base: int, numInst: nat, numDrums: nat, i: nat)
    requires Closed(f, base, numInst, numDrums) && i < numInst
    ensures i < |f.instSlots| && SlotTarget(base, f.instSlots[i]) <= f.instruments.Keys
    ensures forall a :: a in f.instruments && f.instruments[a].loaded == 0 ==> InstrumentSamples(base, f.instruments[a]) <= f.samples.Keys
  {
  }

  // ---------- growing the processed sets ----------

  /** Later writes go above hi, so a placed sample stays placed. */
  lemma PlacedStays(site: Site, s: Sample, t: Sample, ram: seq<byte>, ram': seq<byte>, lo: nat, hi: nat, hi': nat)
    requires Placed(site, s, t, ram, lo, hi) && hi <= hi' <= |ram'| == |ram| && ram'[..hi] == ram[..hi]
    ensures Placed(site, s, t, ram', lo, hi')
  {
    if t.addr + t.size <= hi {
      SliceOfPrefix(ram, t.addr, t.addr + t.size, hi);
      SliceOfPrefix(ram', t.addr, t.addr + t.size, hi);
    }
  }

  lemma SliceOfPrefix(s: seq<byte>, a: nat, b: nat, hi: nat)
    requires a <= b <= hi <= |s|
    ensures s[..hi][a..b] == s[a..b]
  {
  }

  /** One more sample slot followed: the sample is placed unless an earlier slot already did so. */
  lemma SampleGrows(site: Site, before: map<int, Sample>, was: map<int, Sample>, now: map<int, Sample>, used: set<int>,
                    slot: int, ram: seq<byte>, ram': seq<byte>, lo: nat, hi: nat, hi': nat)
    requires SamplesDone(site, before, was, used, ram, lo, hi) && lo <= hi <= hi' <= |ram'| == |ram|
    requires ram'[..hi] == ram[..hi]
    requires now.Keys == was.Keys && SlotTarget(site.base, slot) <= was.Keys
    requires forall a :: a in was && a !in SlotTarget(site.base, slot) ==> now[a] == was[a]
    requires forall a :: a in SlotTarget(site.base, slot) ==> SampleDone(site, was[a], now[a], true, ram', hi, hi')
    ensures SamplesDone(site, before, now, used + SlotTarget(site.base, slot), ram', lo, hi')
  {
    forall a | a in before
      ensures SampleDone(site, before[a], now[a], a in used + SlotTarget(site.base, slot), ram', lo, hi')
    {
      assert SampleDone(site, before[a], was[a], a in used, ram, lo, hi);
      if a in used && Unplaced(before[a]) {
        PlacedStays(site, before[a], was[a], ram, ram', lo, hi, hi');
      }
    }
  }

  lemma PrefixKept(u: seq<byte>, v: seq<byte>, w: seq<byte>, lo: nat, hi: nat)
    requires lo <= hi <= |u| == |v| == |w| && v[..lo] == u[..lo] && w[..hi] == v[..hi]
    ensures w[..lo] == u[..lo]
  {
    assert w[..lo] == w[..hi][..lo];
    assert v[..lo] == v[..hi][..lo];
  }

  lemma UsedGrowsInstrument(base: int, f: Font, insts: set<int>, drums: set<int>, a: int)
    requires a in f.instruments
    ensures UsedSamples(base, f, insts + {a}, drums) == UsedSamples(base, f, insts, drums) +
      if f.instruments[a].loaded == 0 then InstrumentSamples(base, f.instruments[a]) else {}
  {
  }

  lemma UsedGrowsDrum(base: int, f: Font, insts: set<int>, drums: set<int>, a: int)
    requires a in f.drums
    ensures UsedSamples(base, f, insts, drums + {a}) == UsedSamples(base, f, insts, drums) +
      if f.drums[a].loaded == 0 then SlotTarget(base, f.drums[a].sound) else {}
  {
  }
}
