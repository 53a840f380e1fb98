/** The bytes behind the sequence cache: what the temporary region holds while transfers land in it. */
module SequenceBytes {
  import opened AudioBase
  import opened SoundCacheModel
  import opened SoundCacheProofs
  import opened SoundCacheRuns
  import opened SoundCacheRecency
  import opened SoundCacheArrivals
  import opened SoundCacheFailures

  const PREFIX := 0x40

  /** Where each sequence lies in ROM and how long it is. */
  datatype Catalogue = Catalogue(rom: Rom, src: int -> nat, length: int -> nat)

  /** The rest of an asynchronous load, to land behind the prefix at an offset of the region. */
  datatype Transit = Transit(at: int, size: nat, landed: bool)

  /** region: the bytes of the temporary sequence region. */
  datatype World = World(h: Heap, region: seq<byte>, transits: map<int, Transit>)

  /** Land: the rest of a sequence arrives in memory, before anyone is told. */
  datatype Event = Do(op: Op) | Land(id: int)

  predicate Shaped(w: World) {
    Ready(w.h) && |w.region| == w.h.seqs.temp.size
  }

  predicate LoadsHere(h: Heap, op: Op)
    requires Ready(h) && Allowed(h, op)
  {
    op.DoLoad? && op.kind == Sequences && TakesSide(h, op) && ChooseSide(h, Sequences) != NoSide
  }

  function Offset(t: Temp, e: Entry): int {
    e.ptr - t.start
  }

  function Put(region: seq<byte>, at: int, cat: Catalogue, id: int, from: nat, to: nat): (r: seq<byte>)
    requires from <= to
    ensures |r| == |region|
  {
    if at < 0 then region
    else Transfer(region, at + from, cat.rom, cat.src(id) + from, to - from)
  }

  function Play(w: World, cat: Catalogue, e: Event): World
    requires Shaped(w) && (e.Do? ==> Allowed(w.h, e.op))
  {
    match e
    case Land(id) =>
      if id !in w.transits || w.transits[id].size < PREFIX then w
      else
        var t := w.transits[id];
        w.(region := Put(w.region, t.at, cat, id, PREFIX, t.size), transits := w.transits[id := t.(landed := true)])
    case Do(op) =>
      var h' := Step(w.h, op);
      if LoadsHere(w.h, op) then
        var t, size := h'.seqs.temp, LoadSize(Sequences, op.length);
        var at := Offset(t, Side(t, 1 - t.nextSide));
        if LoadedStatus(Sequences, op.length, op.async) == COMPLETE then
          World(h', Put(w.region, at, cat, op.id, 0, size), w.transits)
        else
          World(h', Put(w.region, at, cat, op.id, 0, PREFIX), w.transits[op.id := Transit(at, size, false)])
      else if op.DoArrive? && op.kind == Sequences then w.(h := h', transits := w.transits - {op.id})
      else w.(h := h')
  }

  // ---------- the invariant ----------

  /** The region holds the first n bytes of sequence id at an offset. */
  predicate Holds(region: seq<byte>, cat: Catalogue, id: int, at: int, n: int) {
    0 <= at && 0 <= n && at + n <= |region| && forall k :: at <= k < at + n ==> region[k] == cat.rom(cat.src(id) + (k - at))
  }

  /** The transit fills this entry. */
  predicate Fills(w: World, id: int, e: Entry) {
    id in w.transits && e.id == id && w.transits[id].at == Offset(w.h.seqs.temp, e) && w.transits[id].size == e.size
  }

  /** An entry's bytes are its file's, all of them, or as many as have landed. */
  predicate InPlace(w: World, cat: Catalogue, e: Entry) {
    e.id != NO_ID ==>
      && e.size == LoadSize(Sequences, cat.length(e.id))
      && (Holds(w.region, cat, e.id, Offset(w.h.seqs.temp, e), e.size) ||
          (Fills(w, e.id, e) && !w.transits[e.id].landed && PREFIX < e.size
           && Holds(w.region, cat, e.id, Offset(w.h.seqs.temp, e), PREFIX)))
  }

  predicate Faithful(w: World, cat: Catalogue) {
    InPlace(w, cat, w.h.seqs.temp.entry0) && InPlace(w, cat, w.h.seqs.temp.entry1)
  }

  /** Every transit is an outstanding load, and lands in an entry that is still its own. */
  predicate Aimed(w: World, out: set<File>) {
    forall id :: id in w.transits ==>
      && File(Sequences, id) in out && PREFIX < w.transits[id].size
      && (Fills(w, id, w.h.seqs.temp.entry0) || Fills(w, id, w.h.seqs.temp.entry1))
  }

  // ---------- bytes ----------

  lemma PutHere(region: seq<byte>, cat: Catalogue, id: int, at: int, from: nat, to: nat)
    requires from <= to && 0 <= at && at + to <= |region| && Holds(region, cat, id, at, from)
    ensures Holds(Put(region, at, cat, id, from, to), cat, id, at, to)
  {
  }

  lemma PutElsewhere(region: seq<byte>, cat: Catalogue, id: int, at: int, from: nat, to: nat, other: int, at': int, n: int)
    requires from <= to && Holds(region, cat, other, at', n) && (at' + n <= at + from || at + to <= at')
    ensures Holds(Put(region, at, cat, id, from, to), cat, other, at', n)
  {
  }

  // ---------- one event ----------

  /** Where a load puts its entry, and what becomes of the other one. */
  lemma LoadTemp(h: Heap, op: Op)
    requires Ready(h) && Allowed(h, op) && LoadsHere(h, op)
    ensures var t, t' := h.seqs.temp, Step(h, op).seqs.temp; var side := 1 - t'.nextSide;
      && side in {0, 1} && !LoadingSide(h.seqs, side) && ChooseSide(h, Sequences) == Chosen(side)
      && TempOk(t') && t'.start == t.start && t'.size == t.size
      && Side(t', side).id == op.id && Side(t', side).size == LoadSize(Sequences, op.length)
      && (Side(t', 1 - side) == Side(t, 1 - side)
          || (Side(t', 1 - side).id == NO_ID && !RegionsApart(t, side, LoadSize(Sequences, op.length))))
    ensures Load(h, Sequences, op.persistence, op.length, op.id, op.async).1 != 0
  {
    var size := LoadSize(Sequences, op.length);
    LoadTemps(h, op, Sequences);
    hide AllocOnSide, Occupy, SettleBoth, ChooseSide, Step, PoolOk, IdsInRange, Agrees, LoadSize;
    TemporaryOutcome(h, Sequences, size, op.id);
    ChoiceMeaning(h, Sequences);
    SettleSoftens(h, Sequences);
    var side := ChooseSide(h, Sequences).side;
    AllocOnSideKeeps(h, Sequences, side, size, op.id);
    OccupyLayout(h.seqs, side, size, op.id);
  }

  /** Any other operation leaves both entries where they are. */
  lemma TempStays(h: Heap, op: Op)
    requires Ready(h) && Allowed(h, op) && !LoadsHere(h, op)
    ensures var t, t' := h.seqs.temp, Step(h, op).seqs.temp; t' == t.(nextSide := t'.nextSide)
  {
    hide AllocTemporary, Load, StopPlayer, TempOk, PoolOk;
    match op
    case DoLoad(kind, persistence, length, id, async) =>
      LoadTemps(h, op, Sequences);
      if TakesSide(h, op) {
        OtherKindStays(h, kind, LoadSize(kind, length), id);
      }
    case DoStop(p) => StopSoftens(h, p);
    case _ =>
  }

  lemma OtherKindStays(h: Heap, kind: Kind, size: nat, id: int)
    requires Ready(h) && 0 <= id < |h.Get(kind).status| && FitsTemp(h.Get(kind), size)
    requires kind == Fonts || ChooseSide(h, kind) == NoSide
    ensures AllocTemporary(h, kind, size, id).0.seqs.temp == h.seqs.temp
  {
    TemporaryOutcome(h, kind, size, id);
    SettleSoftens(h, kind);
    ChosenIsSide(h, kind);
    if ChooseSide(h, kind) != NoSide {
      AllocOnSideKeeps(SettleBoth(h, kind), kind, ChooseSide(h, kind).side, size, id);
    }
  }

  /** Live entries lie in the region, apart from each other. */
  lemma EntriesApart(t: Temp)
    requires TempOk(t)
    ensures t.entry0.id != NO_ID ==> 0 <= Offset(t, t.entry0) && 0 <= t.entry0.size && Offset(t, t.entry0) + t.entry0.size <= t.size
    ensures t.entry1.id != NO_ID ==> 0 <= Offset(t, t.entry1) && 0 <= t.entry1.size && Offset(t, t.entry1) + t.entry1.size <= t.size
    ensures t.entry0.id != NO_ID && t.entry1.id != NO_ID ==> Offset(t, t.entry0) + t.entry0.size <= Offset(t, t.entry1)
  {
  }

  /** Bytes written for one entry leave another live entry as it was. */
  lemma BesidesStays(w: World, w': World, cat: Catalogue, o: Entry, id: int, at: int, from: nat, to: nat)
    requires InPlace(w, cat, o) && from <= to && w'.region == Put(w.region, at, cat, id, from, to)
    requires w'.h.seqs.temp.start == w.h.seqs.temp.start
    requires o.id != NO_ID ==>
               Offset(w.h.seqs.temp, o) + o.size <= at || at + to <= Offset(w.h.seqs.temp, o)
    requires o.id in w.transits && Fills(w, o.id, o) ==> o.id in w'.transits && w'.transits[o.id] == w.transits[o.id]
    ensures InPlace(w', cat, o)
  {
    if o.id != NO_ID {
      var a := Offset(w.h.seqs.temp, o);
      if Holds(w.region, cat, o.id, a, o.size) {
        PutElsewhere(w.region, cat, id, at, from, to, o.id, a, o.size);
      } else {
        PutElsewhere(w.region, cat, id, at, from, to, o.id, a, PREFIX);
      }
    }
  }

  predicate Catalogued(cat: Catalogue, op: Op) {
    op.DoLoad? && op.kind == Sequences ==> op.length == cat.length(op.id)
  }

  /** What holds throughout a modest run. */
  ghost predicate Tracked(w: World, cat: Catalogue, out: set<File>) {
    && Shaped(w) && Good(w.h) && Small(w.h) && Waiting(w.h, out) && Faithful(w, cat) && Aimed(w, out)
  }

  /** The operation is one a careful caller makes: see Modest. */
  predicate ModestOp(h: Heap, out: set<File>, op: Op) {
    && (op.DoLoad? ==> File(op.kind, op.id) !in out && Half(h.Get(op.kind).temp, LoadSize(op.kind, op.length)))
    && (op.DoArrive? ==> File(op.kind, op.id) in out)
  }

  /** The new entry holds what has been transferred for it. */
  lemma NewEntryInPlace(w: World, cat: Catalogue, op: Op)
    requires Shaped(w) && Allowed(w.h, op) && LoadsHere(w.h, op) && Catalogued(cat, op)
    ensures var w' := Play(w, cat, Do(op)); var t := w'.h.seqs.temp;
      t.nextSide in {0, 1} && InPlace(w', cat, Side(t, 1 - t.nextSide))
  {
    LoadTemp(w.h, op);
    var t' := Step(w.h, op).seqs.temp;
    EntriesApart(t');
    var e, size := Side(t', 1 - t'.nextSide), LoadSize(Sequences, op.length);
    hide Step, ChooseSide, TempOk, RegionsApart;
    if LoadedStatus(Sequences, op.length, op.async) == COMPLETE {
      PutHere(w.region, cat, op.id, Offset(t', e), 0, size);
    } else {
      PutHere(w.region, cat, op.id, Offset(t', e), 0, PREFIX);
    }
  }

  /** The other entry, if it survives, keeps its bytes. */
  lemma OldEntryInPlace(w: World, cat: Catalogue, out: set<File>, op: Op)
    requires Tracked(w, cat, out) && Allowed(w.h, op) && LoadsHere(w.h, op) && ModestOp(w.h, out, op)
    ensures var w' := Play(w, cat, Do(op)); var t := w'.h.seqs.temp;
      t.nextSide in {0, 1} && InPlace(w', cat, Side(t, t.nextSide))
  {
    LoadTemp(w.h, op);
    var t, t' := w.h.seqs.temp, Step(w.h, op).seqs.temp;
    EntriesApart(t');
    var o := Side(t', t'.nextSide);
    if o.id != NO_ID {
      var w' := Play(w, cat, Do(op));
      var at := Offset(t', Side(t', 1 - t'.nextSide));
      var n := if LoadedStatus(Sequences, op.length, op.async) == COMPLETE then LoadSize(Sequences, op.length) else PREFIX;
      assert w'.region == Put(w.region, at, cat, op.id, 0, n);
      hide Step, ChooseSide, TempOk, RegionsApart, LoadSize, Play, Holds, Put, InPlace;
      BesidesStays(w, w', cat, o, op.id, at, 0, n);
    }
  }

  /** Every transit still aims at its own entry. */
  lemma LoadStaysAimed(w: World, cat: Catalogue, out: set<File>, op: Op)
    requires Tracked(w, cat, out) && Allowed(w.h, op) && LoadsHere(w.h, op) && ModestOp(w.h, out, op)
    ensures Aimed(Play(w, cat, Do(op)), Outstanding(w.h, out, op))
  {
    LoadTemp(w.h, op);
    var h, w' := w.h, Play(w, cat, Do(op));
    var t, t' := h.seqs.temp, Step(h, op).seqs.temp;
    var side := 1 - t'.nextSide;
    hide Step, ChooseSide, TempOk, PoolOk, Holds, Put, InPlace, Agrees, AllocCached;
    forall id | id in w'.transits
      ensures File(Sequences, id) in Outstanding(h, out, op) && PREFIX < w'.transits[id].size
      ensures Fills(w', id, t'.entry0) || Fills(w', id, t'.entry1)
    {
      if id != op.id || w'.transits == w.transits {
        assert id in w.transits && id != op.id;
        var f := File(Sequences, id);
        assert WaitingIn(h.seqs, id);
        SmallNeverEvicts(h, op, f);
        TransitOpposite(w, out, op, side, id);
      }
    }
  }

  /** A transit under way aims at the side that is not taken, and that side survives. */
  lemma TransitOpposite(w: World, out: set<File>, op: Op, side: int, id: int)
    requires Shaped(w) && Allowed(w.h, op) && LoadsHere(w.h, op) && Aimed(w, out) && id in w.transits
    requires WaitingIn(w.h.seqs, id) && side in {0, 1} && !LoadingSide(w.h.seqs, side)
    requires ChooseSide(w.h, Sequences) == Chosen(side) && !Evicts(w.h, op, File(Sequences, id))
    ensures Fills(w, id, Side(w.h.seqs.temp, 1 - side))
    ensures RegionsApart(w.h.seqs.temp, side, LoadSize(Sequences, op.length))
  {
    hide ChooseSide, TempOk, PoolOk, LoadSize;
  }

  lemma LandStays(w: World, cat: Catalogue, out: set<File>, id: int)
    requires Tracked(w, cat, out)
    ensures Tracked(Play(w, cat, Land(id)), cat, out)
  {
    if id in w.transits {
      var t, tr := w.h.seqs.temp, w.transits[id];
      var w' := Play(w, cat, Land(id));
      assert PREFIX < tr.size;
      EntriesApart(t);
      hide TempOk, Agrees, Put, PoolOk, Small, Waiting;
      if Fills(w, id, t.entry0) {
        LandsIn(w, cat, id, t.entry0);
        BesidesLanding(w, w', cat, id, t.entry1);
      } else {
        LandsIn(w, cat, id, t.entry1);
        BesidesLanding(w, w', cat, id, t.entry0);
      }
      assert Aimed(w', out);
    }
  }

  lemma LandsIn(w: World, cat: Catalogue, id: int, e: Entry)
    requires Shaped(w) && InPlace(w, cat, e) && id in w.transits && Fills(w, id, e) && PREFIX < e.size && id != NO_ID
    requires Offset(w.h.seqs.temp, e) + e.size <= |w.region|
    ensures InPlace(Play(w, cat, Land(id)), cat, e)
  {
    PutHere(w.region, cat, id, Offset(w.h.seqs.temp, e), PREFIX, e.size);
  }

  lemma BesidesLanding(w: World, w': World, cat: Catalogue, id: int, o: Entry)
    requires Shaped(w) && InPlace(w, cat, o) && id in w.transits && PREFIX < w.transits[id].size
    requires w' == Play(w, cat, Land(id))
    requires o.id != NO_ID ==>
               var at := w.transits[id].at;
               Offset(w.h.seqs.temp, o) + o.size <= at || at + w.transits[id].size <= Offset(w.h.seqs.temp, o)
    requires o.id != NO_ID && o.size > 0 ==> !Fills(w, id, o)
    ensures InPlace(w', cat, o)
  {
    if o.id != NO_ID {
      BesidesStays(w, w', cat, o, id, w.transits[id].at, PREFIX, w.transits[id].size);
    }
  }

  /** Someone is told only of loads that have landed. */
  predicate Landed(w: World, op: Op) {
    op.DoArrive? && op.kind == Sequences && op.id in w.transits ==> w.transits[op.id].landed
  }

  lemma QuietStays(w: World, cat: Catalogue, out: set<File>, op: Op)
    requires Tracked(w, cat, out) && Allowed(w.h, op) && !LoadsHere(w.h, op) && ModestOp(w.h, out, op) && Landed(w, op)
    ensures var w' := Play(w, cat, Do(op)); Faithful(w', cat) && Aimed(w', Outstanding(w.h, out, op))
  {
    hide Step, TempOk, PoolOk, Agrees, ChooseSide, Load, InPlace, Waiting, Small, Sized, LoadSize, LoadsHere;
    TempStays(w.h, op);
    var w', gone := Play(w, cat, Do(op)), if op.DoArrive? && op.kind == Sequences then {op.id} else {};
    assert w'.transits == w.transits - gone;
    QuietEntry(w, w', cat, w.h.seqs.temp.entry0, gone);
    QuietEntry(w, w', cat, w.h.seqs.temp.entry1, gone);
  }

  lemma QuietEntry(w: World, w': World, cat: Catalogue, e: Entry, gone: set<int>)
    requires InPlace(w, cat, e) && w'.region == w.region && w'.h.seqs.temp.start == w.h.seqs.temp.start
    requires w'.transits == w.transits - gone && forall id :: id in gone && id in w.transits ==> w.transits[id].landed
    ensures InPlace(w', cat, e)
  {
  }

  /** One event of a modest run, and the outstanding files after it. */
  predicate ModestEvent(w: World, cat: Catalogue, out: set<File>, e: Event) {
    e.Do? ==> ModestOp(w.h, out, e.op) && Catalogued(cat, e.op) && Landed(w, e.op)
  }

  function OutAfter(w: World, out: set<File>, e: Event): set<File>
    requires Shaped(w) && (e.Do? ==> Allowed(w.h, e.op))
  {
    if e.Do? then Outstanding(w.h, out, e.op) else out
  }

  lemma EventStays(w: World, cat: Catalogue, out: set<File>, e: Event)
    requires Tracked(w, cat, out) && (e.Do? ==> Allowed(w.h, e.op)) && ModestEvent(w, cat, out, e)
    ensures Tracked(Play(w, cat, e), cat, OutAfter(w, out, e))
  {
    match e
    case Land(id) => LandStays(w, cat, out, id);
    case Do(op) =>
      hide Step, ChooseSide, Agrees, InPlace, Aimed, TempOk, PoolOk, Evicts, Small, Half, Put, LoadSize;
      if op.DoLoad? {
        forall f | f in out
          ensures !Evicts(w.h, op, f)
        {
          SmallNeverEvicts(w.h, op, f);
        }
      }
      CarefulStep(w.h, out, op);
      SmallStep(w.h, op);
      if LoadsHere(w.h, op) {
        NewEntryInPlace(w, cat, op);
        OldEntryInPlace(w, cat, out, op);
        LoadStaysAimed(w, cat, out, op);
      } else {
        QuietStays(w, cat, out, op);
      }
  }

  // ---------- runs ----------

  /** Plays events as long as they are allowed. */
  function PlayAll(w: World, cat: Catalogue, events: seq<Event>): World
    decreases |events|
  {
    if events == [] || !Shaped(w) || (events[0].Do? && !Allowed(w.h, events[0].op)) then w
    else PlayAll(Play(w, cat, events[0]), cat, events[1..])
  }

  predicate ModestRun(w: World, cat: Catalogue, out: set<File>, events: seq<Event>)
    decreases |events|
  {
    events != [] && Shaped(w) && (events[0].Do? ==> Allowed(w.h, events[0].op)) ==>
      && ModestEvent(w, cat, out, events[0])
      && ModestRun(Play(w, cat, events[0]), cat, OutAfter(w, out, events[0]), events[1..])
  }

  /** Whenever a sequence is marked complete, discardable included, the region of its entry holds its ROM
      bytes, however loads, transfers and arrivals interleave. */
  lemma {:induction false} CompleteEntriesAreRom(w: World, cat: Catalogue, out: set<File>, events: seq<Event>, side: int)
    requires Tracked(w, cat, out) && ModestRun(w, cat, out, events) && side in {0, 1}
    ensures var v := PlayAll(w, cat, events); var c := v.h.seqs; var e := Side(c.temp, side);
      e.id != NO_ID && 0 <= e.id < |c.status| && c.status[e.id] >= COMPLETE ==>
        e.size == LoadSize(Sequences, cat.length(e.id))
        && Holds(v.region, cat, e.id, Offset(c.temp, e), e.size)
    decreases |events|
  {
    hide Play, ModestEvent, OutAfter, Holds, Allowed, Waiting, Small, Agrees, Sized, TempOk, PoolOk;
    if events != [] && (events[0].Do? ==> Allowed(w.h, events[0].op)) {
      EventStays(w, cat, out, events[0]);
      CompleteEntriesAreRom(Play(w, cat, events[0]), cat, OutAfter(w, out, events[0]), events[1..], side);
    } else {
      TrackedComplete(w, cat, out, side);
    }
  }

  lemma TrackedComplete(w: World, cat: Catalogue, out: set<File>, side: int)
    requires Tracked(w, cat, out) && side in {0, 1}
    ensures var c := w.h.seqs; var e := Side(c.temp, side);
      e.id != NO_ID && 0 <= e.id < |c.status| && c.status[e.id] >= COMPLETE ==>
        e.size == LoadSize(Sequences, cat.length(e.id)) && Holds(w.region, cat, e.id, Offset(c.temp, e), e.size)
  {
    hide Holds, TempOk, PoolOk, Sized, Agrees, LoadSize;
    var e := Side(w.h.seqs.temp, side);
    if e.id in w.transits && e.id != NO_ID {
      assert File(Sequences, e.id) in out;
      assert WaitingIn(w.h.seqs, e.id);
    }
  }

  /** A cache nothing was loaded into, with nothing outstanding, is where such runs start. */
  lemma ColdIsTracked(h: Heap, region: seq<byte>, cat: Catalogue)
    requires Good(h) && |region| == h.seqs.temp.size
    requires forall kind :: h.Get(kind).temp.entry0.id == h.Get(kind).temp.entry1.id == NO_ID
    ensures Tracked(World(h, region, map[]), cat, {})
  {
    assert h.seqs == h.Get(Sequences) && h.fonts == h.Get(Fonts);
    assert h.seqs.temp.entry0.id == NO_ID && h.fonts.temp.entry0.id == NO_ID;
  }

  // ---------- what an evicted load still does ----------

  /** One sequence on side 0, loading, its rest in transit; side 1 empty. */
  ghost predicate OneLoading(w: World, size: nat, x: int, sx: nat) {
    && Shaped(w) && Good(w.h) && NonePending(w.h.seqs) && w.h.seqs.temp.size == size
    && w.h.seqs.temp.entry0 == Entry(w.h.seqs.temp.start, sx, x) && w.h.seqs.temp.entry1.id == NO_ID
    && WaitingIn(w.h.seqs, x) && w.transits == map[x := Transit(0, sx, false)]
  }

  lemma FirstTransit(w: World, cat: Catalogue, pool: PoolState, start: nat, size: nat, x: int)
    requires Shaped(w) && Good(w.h) && w.h.seqs == ColdCache(pool, start, size, |w.h.seqs.status|) && w.transits == map[]
    requires 0 <= x < |w.h.seqs.status| && PREFIX < LoadSize(Sequences, cat.length(x)) && LoadSize(Sequences, cat.length(x)) + 0x10 <= size
    ensures var a := DoLoad(Sequences, 0, cat.length(x), x, true);
      && Allowed(w.h, a) && OneLoading(Play(w, cat, Do(a)), size, x, LoadSize(Sequences, cat.length(x)))
      && |Play(w, cat, Do(a)).h.seqs.status| == |w.h.seqs.status|
  {
    var a := DoLoad(Sequences, 0, cat.length(x), x, true);
    assert w.h.Get(Sequences) == w.h.seqs;
    FirstLoad(w.h, Sequences, pool, start, size, x, cat.length(x));
    LoadsOnSide(w.h, Sequences, cat.length(x), x, true, 0);
    LoadTemp(w.h, a);
    hide Step, ChooseSide, Load, Agrees, LoadSize, SettleBoth, Loaded;
  }

  /** A second load that does not fit beside the first evicts it; the transit stays. */
  lemma SecondTransit(w: World, cat: Catalogue, size: nat, x: int, sx: nat, y: int)
    requires OneLoading(w, size, x, sx) && 0 <= y < |w.h.seqs.status| && x != y
    requires var sy := LoadSize(Sequences, cat.length(y)); sx + 0x10 <= size && sy + 0x10 <= size && sx + sy + 0x10 > size
    ensures var b := DoLoad(Sequences, 0, cat.length(y), y, false); var sy := LoadSize(Sequences, cat.length(y));
      && Allowed(w.h, b)
      && var v := Play(w, cat, Do(b)); var e := v.h.seqs.temp.entry1;
      && Shaped(v) && e.id == y && e.size == sy && Offset(v.h.seqs.temp, e) == size - 0x10 - sy
      && y < |v.h.seqs.status| && v.h.seqs.status[y] == COMPLETE && v.h.seqs.temp.entry0.id == NO_ID
      && v.transits == w.transits && Holds(v.region, cat, y, size - 0x10 - sy, sy)
  {
    var b := DoLoad(Sequences, 0, cat.length(y), y, false);
    hide Step, Load, Agrees, LoadSize, Pick, SettleBoth, ChooseSide, PoolOk, WaitingIn, IdsInRange;
    SecondSide(w.h, Sequences, x, y, cat.length(y));
    LoadTemp(w.h, b);
    StepReady(w.h, b);
    NewStatus(w.h, b);
    var t := Step(w.h, b).seqs.temp;
    EntriesApart(t);
    PutHere(w.region, cat, y, Offset(t, t.entry1), 0, LoadSize(Sequences, cat.length(y)));
  }

  lemma NewStatus(h: Heap, op: Op)
    requires Ready(h) && Allowed(h, op) && LoadsHere(h, op)
    ensures |Step(h, op).seqs.status| == |h.seqs.status|
    ensures Step(h, op).seqs.status[op.id] == LoadedStatus(Sequences, op.length, op.async)
  {
    hide AllocCached;
    LoadTemp(h, op);
  }

  /** The rest of the evicted load lands all the same: the complete entry that replaced it keeps its bytes
      if and only if the two files happen to agree where they overlap. */
  lemma LateLandingOverwrites(w: World, cat: Catalogue, pool: PoolState, start: nat, size: nat, x: int, y: int)
    requires Shaped(w) && Good(w.h) && w.h.seqs == ColdCache(pool, start, size, |w.h.seqs.status|) && w.transits == map[]
    requires 0 <= x < |w.h.seqs.status| && 0 <= y < |w.h.seqs.status| && x != y
    requires var sx, sy := LoadSize(Sequences, cat.length(x)), LoadSize(Sequences, cat.length(y));
      PREFIX < sx && sx + 0x10 <= size && sy + 0x10 <= size && sx + sy + 0x10 > size
    ensures var a, b := DoLoad(Sequences, 0, cat.length(x), x, true), DoLoad(Sequences, 0, cat.length(y), y, false);
      var sx, sy := LoadSize(Sequences, cat.length(x)), LoadSize(Sequences, cat.length(y));
      && Allowed(w.h, a) && Shaped(Play(w, cat, Do(a))) && Allowed(Play(w, cat, Do(a)).h, b)
      && Shaped(Play(Play(w, cat, Do(a)), cat, Do(b)))
      && var v := Play(Play(Play(w, cat, Do(a)), cat, Do(b)), cat, Land(x)); var at := size - 0x10 - sy;
      && v.h.seqs.status[y] == COMPLETE
      && (Holds(v.region, cat, y, at, sy) <==> Agree(cat, x, sx, y, at))
  {
    hide Play, Holds, LoadSize, Agrees, ColdCache, Agree;
    var a, b := DoLoad(Sequences, 0, cat.length(x), x, true), DoLoad(Sequences, 0, cat.length(y), y, false);
    var sx, sy := LoadSize(Sequences, cat.length(x)), LoadSize(Sequences, cat.length(y));
    FirstTransit(w, cat, pool, start, size, x);
    SecondTransit(Play(w, cat, Do(a)), cat, size, x, sx, y);
    LandsOnReplacement(Play(Play(w, cat, Do(a)), cat, Do(b)), cat, x, sx, y, size - 0x10 - sy, sy);
  }

  /** Byte k of a sequence in ROM. */
  function ByteOf(cat: Catalogue, id: int, k: nat): byte {
    cat.rom(cat.src(id) + k)
  }

  /** The rest of x, laid from offset 0 of the region on, repeats what y has from offset at on. */
  predicate Agree(cat: Catalogue, x: int, sx: nat, y: int, at: int) {
    forall k: nat {:trigger ByteOf(cat, x, k)} :: PREFIX <= k < sx && at <= k ==> ByteOf(cat, x, k) == ByteOf(cat, y, k - at)
  }

  lemma LandsOnReplacement(u: World, cat: Catalogue, x: int, sx: nat, y: int, at: int, sy: nat)
    requires Shaped(u) && x in u.transits && u.transits[x] == Transit(0, sx, false)
    requires PREFIX < sx <= at + sy && Holds(u.region, cat, y, at, sy)
    ensures var v := Play(u, cat, Land(x));
      v.h == u.h && (Holds(v.region, cat, y, at, sy) <==> Agree(cat, x, sx, y, at))
  {
    LandsOver(u.region, cat, x, sx, y, at, sy);
  }

  lemma LandsOver(region: seq<byte>, cat: Catalogue, x: int, sx: nat, y: int, at: int, sy: nat)
    requires PREFIX < sx <= at + sy && Holds(region, cat, y, at, sy)
    ensures Holds(Put(region, 0, cat, x, PREFIX, sx), cat, y, at, sy) <==> Agree(cat, x, sx, y, at)
  {
    var after := Put(region, 0, cat, x, PREFIX, sx);
    if Holds(after, cat, y, at, sy) {
      forall k: nat | PREFIX <= k < sx && at <= k
        ensures ByteOf(cat, x, k) == ByteOf(cat, y, k - at)
      {
        assert after[k] == cat.rom(cat.src(y) + (k - at));
      }
    }
    if Agree(cat, x, sx, y, at) {
      forall k | at <= k < at + sy
        ensures after[k] == cat.rom(cat.src(y) + (k - at))
      {
        if PREFIX <= k < sx {
          assert ByteOf(cat, x, k) == ByteOf(cat, y, k - at);
        }
      }
    }
  }
}
