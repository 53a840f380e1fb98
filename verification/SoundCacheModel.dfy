/** The sequence and sound-font caches as values: persistent entries, a two-sided temporary
    region, and a load-status table per kind. */
module SoundCacheModel {
  import opened AudioBase

  const NO_ID := -1
  const MAX_PERSISTENT := 32
  const PLAYERS := 4

  // Load status. FontPending marks a font whose player has stopped but whose notes may still sound.
  const NOT_LOADED := 0
  const LOADING := 1
  const COMPLETE := 2
  const DISCARDABLE := 3
  const FONT_PENDING := 4

  datatype Kind = Sequences | Fonts
  datatype Entry = Entry(ptr: int, size: int, id: int)

  /** Side 0 grows from start up to cur; side 1 ends 16 bytes short of start + size. */
  datatype Temp = Temp(nextSide: int, start: nat, cur: nat, size: nat, entry0: Entry, entry1: Entry)

  datatype PoolState = PoolState(start: nat, cur: nat, size: nat)
  datatype Cache = Cache(entries: seq<Entry>, pool: PoolState, temp: Temp, status: seq<nat>)
  datatype Player = Player(enabled: bool, seqId: nat, font: nat)
  datatype Heap = Heap(seqs: Cache, fonts: Cache, players: seq<Player>, noteFonts: seq<nat>)
  {
    function Get(kind: Kind): Cache {
      if kind == Sequences then seqs else fonts
    }

    function Set(kind: Kind, c: Cache): Heap {
      if kind == Sequences then this.(seqs := c) else this.(fonts := c)
    }
  }

  function Side(t: Temp, side: int): Entry {
    if side == 0 then t.entry0 else t.entry1
  }

  function StatusOf(c: Cache, id: int): nat
    requires id == NO_ID || 0 <= id < |c.status|
  {
    if id == NO_ID then NOT_LOADED else c.status[id]
  }

  // ---------- who is using a file ----------

  predicate FontInUse(noteFonts: seq<nat>, id: int) {
    exists i :: 0 <= i < |noteFonts| && noteFonts[i] == id
  }

  predicate SequenceInUse(players: seq<Player>, id: int) {
    exists i :: 0 <= i < |players| && players[i].enabled && players[i].seqId == id
  }

  predicate InUse(h: Heap, kind: Kind, id: int) {
    if kind == Fonts then FontInUse(h.noteFonts, id) else SequenceInUse(h.players, id)
  }

  // ---------- stopping a player ----------

  predicate SameShape(h: Heap, h': Heap) {
    |h'.seqs.status| == |h.seqs.status| && |h'.fonts.status| == |h.fonts.status| && |h'.players| == |h.players|
  }

  /** A lookup or a stop that names a temporary entry makes the other side next to go. */
  function Touch(t: Temp, id: int): Temp {
    if id == t.entry0.id then t.(nextSide := 1)
    else if id == t.entry1.id then t.(nextSide := 0)
    else t
  }

  function Demote(c: Cache, id: nat, to: nat): Cache
    requires id < |c.status|
  {
    if c.status[id] >= COMPLETE then c.(status := c.status[id := to]) else c
  }

  function StopPlayer(h: Heap, p: nat): Heap
    requires p < |h.players| && h.players[p].seqId < |h.seqs.status| && h.players[p].font < |h.fonts.status|
  {
    var player := h.players[p];
    var fonts := Demote(h.fonts, player.font, FONT_PENDING);
    h.(players := h.players[p := player.(enabled := false)],
       seqs := Demote(h.seqs, player.seqId, DISCARDABLE),
       fonts := fonts.(temp := Touch(fonts.temp, player.font)))
  }

  /** Stops players from..end-1 that play sequence id. */
  function DiscardSequence(h: Heap, id: int, from: nat): (r: Heap)
    requires from <= |h.players|
    requires forall i :: 0 <= i < |h.players| ==>
               h.players[i].seqId < |h.seqs.status| && h.players[i].font < |h.fonts.status|
    ensures SameShape(h, r)
    decreases |h.players| - from
  {
    if from == |h.players| then h
    else if h.players[from].enabled && h.players[from].seqId == id then
      DiscardSequence(StopPlayer(h, from), id, from + 1)
    else DiscardSequence(h, id, from + 1)
  }

  // ---------- choosing a side ----------

  datatype Choice = NoSide | Chosen(side: int)

  function Pick(st0: nat, st1: nat, used0: bool, used1: bool, nextSide: int): Choice {
    if st0 == NOT_LOADED then Chosen(0)
    else if st1 == NOT_LOADED then Chosen(1)
    else if st0 == DISCARDABLE && st1 == DISCARDABLE then Chosen(nextSide)
    else if st0 == DISCARDABLE then Chosen(0)
    else if st1 == DISCARDABLE then Chosen(1)
    else if st0 == COMPLETE && !used0 then Chosen(0)
    else if st1 == COMPLETE && !used1 then Chosen(1)
    else if st0 != LOADING then Chosen(0)
    else if st1 != LOADING then Chosen(1)
    else NoSide
  }

  /** A pending font whose last note has gone becomes discardable. */
  function Settle(h: Heap, kind: Kind, id: int): Heap
    requires id == NO_ID || 0 <= id < |h.Get(kind).status|
  {
    var c := h.Get(kind);
    if kind == Fonts && StatusOf(c, id) == FONT_PENDING && !FontInUse(h.noteFonts, id) then
      h.Set(kind, c.(status := c.status[id := DISCARDABLE]))
    else h
  }

  predicate IdsInRange(c: Cache) {
    && (c.temp.entry0.id == NO_ID || 0 <= c.temp.entry0.id < |c.status|)
    && (c.temp.entry1.id == NO_ID || 0 <= c.temp.entry1.id < |c.status|)
    && (forall i :: 0 <= i < |c.entries| ==> 0 <= c.entries[i].id < |c.status|)
  }

  predicate Sized(h: Heap) {
    && IdsInRange(h.seqs) && IdsInRange(h.fonts) && |h.players| == PLAYERS
    && forall i :: 0 <= i < |h.players| ==>
         h.players[i].seqId < |h.seqs.status| && h.players[i].font < |h.fonts.status|
  }

  function SettleBoth(h: Heap, kind: Kind): Heap
    requires Sized(h)
  {
    Settle(Settle(h, kind, h.Get(kind).temp.entry0.id), kind, h.Get(kind).temp.entry1.id)
  }

  function ChooseSide(h: Heap, kind: Kind): Choice
    requires Sized(h)
  {
    var c := SettleBoth(h, kind).Get(kind);
    var id0, id1 := c.temp.entry0.id, c.temp.entry1.id;
    Pick(StatusOf(c, id0), StatusOf(c, id1), InUse(h, kind, id0), InUse(h, kind, id1), c.temp.nextSide)
  }

  // ---------- allocation ----------

  function Forget(c: Cache, id: int): Cache
    requires id == NO_ID || 0 <= id < |c.status|
  {
    if id == NO_ID then c else c.(status := c.status[id := NOT_LOADED])
  }

  /** Puts the new entry on its side of the region. */
  function Place(t: Temp, side: int, size: nat, id: int): Temp {
    if side == 0 then t.(entry0 := Entry(t.start, size, id), cur := t.start + size)
    else t.(entry1 := Entry(t.start + t.size - size - 0x10, size, id))
  }

  predicate Overlaps(t: Temp) {
    t.entry1.ptr < t.cur
  }

  /** Throws out the entry opposite side after the new region ran into it. */
  function DropOpposite(t: Temp, side: int): Temp {
    if side == 0 then t.(entry1 := t.entry1.(id := NO_ID, ptr := t.start + t.size))
    else t.(entry0 := t.entry0.(id := NO_ID), cur := t.start)
  }

  /** The cache after a new entry takes a side, and the opposite id it ran into (NO_ID if none). */
  function Occupy(c: Cache, side: int, size: nat, id: int): (r: (Cache, int))
    requires IdsInRange(c) && 0 <= id < |c.status|
    requires Overlaps(Place(c.temp, side, size, id)) ==> Side(c.temp, 1 - side).id != NO_ID
    ensures |r.0.status| == |c.status|
  {
    var c1 := Forget(c, Side(c.temp, side).id);
    var t := Place(c.temp, side, size, id);
    if !Overlaps(t) then (c1.(temp := t.(nextSide := 1 - side)), NO_ID)
    else
      var lost := Side(t, 1 - side).id;
      (Forget(c1, lost).(temp := DropOpposite(t, side).(nextSide := 1 - side)), lost)
  }

  /** Evicting a sequence by overlap also stops the players that play it. */
  function AllocOnSide(h: Heap, kind: Kind, side: int, size: nat, id: int): (r: (Heap, int))
    requires Sized(h) && 0 <= id < |h.Get(kind).status|
    requires Overlaps(Place(h.Get(kind).temp, side, size, id)) ==> Side(h.Get(kind).temp, 1 - side).id != NO_ID
    ensures SameShape(h, r.0)
  {
    var (c, lost) := Occupy(h.Get(kind), side, size, id);
    var h' := h.Set(kind, c);
    (if kind == Sequences && lost != NO_ID then DiscardSequence(h', lost, 0) else h', Side(c.temp, side).ptr)
  }

  /** The new region, plus 16 bytes of slack at the top end, fits the temporary pool. */
  predicate FitsTemp(c: Cache, size: nat) {
    size + 0x10 <= c.temp.size
  }

  /** The layout of the temporary region: entry 0 is exactly start..cur, entry 1 ends 16 bytes
      short of the end, the two never cross, and an empty side gives its space back. */
  predicate TempOk(t: Temp) {
    && t.nextSide in {0, 1}
    && 0 < t.start <= t.cur <= t.entry1.ptr <= t.start + t.size
    && (if t.entry0.id == NO_ID then t.cur == t.start
        else t.entry0.ptr == t.start && t.entry0.ptr + t.entry0.size == t.cur)
    && (if t.entry1.id == NO_ID then t.entry1.ptr == t.start + t.size
        else 0 <= t.entry1.size && t.entry1.ptr + t.entry1.size + 0x10 == t.start + t.size)
  }

  predicate PoolOk(p: PoolState) {
    0 < p.start <= p.cur <= p.start + p.size
  }

  predicate Ready(h: Heap) {
    && Sized(h) && TempOk(h.seqs.temp) && TempOk(h.fonts.temp)
    && PoolOk(h.seqs.pool) && PoolOk(h.fonts.pool)
  }

  function AllocTemporary(h: Heap, kind: Kind, size: nat, id: int): (r: (Heap, int))
    requires Ready(h) && 0 <= id < |h.Get(kind).status| && FitsTemp(h.Get(kind), size)
    ensures SameShape(h, r.0)
  {
    match ChooseSide(h, kind)
    case NoSide => (SettleBoth(h, kind), 0)
    case Chosen(side) => AllocOnSide(SettleBoth(h, kind), kind, side, size, id)
  }

  predicate PoolFits(p: PoolState, size: nat) {
    p.cur + Align16(size) <= p.start + p.size
  }

  /** The request ends up in the temporary region. */
  predicate UsesTemporary(c: Cache, persistence: nat, size: nat) {
    persistence == 0 || (persistence == 2 && !PoolFits(c.pool, size))
  }

  /** A file bound for the temporary region fits it. */
  predicate Fits(c: Cache, persistence: nat, size: nat) {
    UsesTemporary(c, persistence, size) ==> FitsTemp(c, size)
  }

  function AddPersistent(c: Cache, ptr: int, size: nat, id: int): Cache {
    c.(entries := c.entries + [Entry(ptr, size, id)])
  }

  /** persistence 0 asks for the temporary region, 1 for the persistent pool only, 2 for the pool
      with the temporary region as a fallback; any other value records a null entry when the pool is full. */
  function AllocCached(h: Heap, kind: Kind, persistence: nat, size: nat, id: int): (r: (Heap, int))
    requires Ready(h) && 0 <= id < |h.Get(kind).status| && Fits(h.Get(kind), persistence, size)
    ensures SameShape(h, r.0)
  {
    var c := h.Get(kind);
    if persistence == 0 then AllocTemporary(h, kind, size, id)
    else if PoolFits(c.pool, size) then
      var c' := c.(pool := c.pool.(cur := c.pool.cur + Align16(size)));
      (h.Set(kind, AddPersistent(c', c.pool.cur, size, id)), c.pool.cur)
    else if persistence == 2 then AllocTemporary(h, kind, size, id)
    else if persistence == 1 then (h, 0)
    else (h.Set(kind, AddPersistent(c, 0, size, id)), 0)
  }

  // ---------- loaders and lookups ----------

  /** The four loaders: immediate ones complete, asynchronous ones leave the file loading,
      except that a sequence of at most 0x40 bytes is always copied at once. */
  function LoadSize(kind: Kind, length: nat): nat {
    var rounded := (length + 0x1E) / 0x10 * 0x10;
    if kind == Fonts then rounded - 0x10 else rounded
  }

  function LoadedStatus(kind: Kind, length: nat, async: bool): nat {
    if async && !(kind == Sequences && LoadSize(kind, length) <= 0x40) then LOADING else COMPLETE
  }

  function Load(h: Heap, kind: Kind, persistence: nat, length: nat, id: int, async: bool): (r: (Heap, int))
    requires Ready(h) && 0 <= id < |h.Get(kind).status| && Fits(h.Get(kind), persistence, LoadSize(kind, length))
  {
    var (h', ptr) := AllocCached(h, kind, persistence, LoadSize(kind, length), id);
    if ptr == 0 then (h', 0)
    else
      var c := h'.Get(kind);
      (h'.Set(kind, c.(status := c.status[id := LoadedStatus(kind, length, async)])), ptr)
  }

  function FindPersistent(entries: seq<Entry>, id: int, i: nat): (r: nat)
    requires i <= |entries|
    ensures i <= r <= |entries| && (r < |entries| ==> entries[r].id == id)
    ensures forall j :: i <= j < r ==> entries[j].id != id
    decreases |entries| - i
  {
    if i == |entries| || entries[i].id == id then i else FindPersistent(entries, id, i + 1)
  }

  /** Looks in the persistent entries unless persistence is 0, in the temporary ones when it is 0 or 2. */
  function Search(h: Heap, kind: Kind, persistence: nat, id: int): (r: (Heap, int)) {
    var c := h.Get(kind);
    var i := if persistence == 0 then |c.entries| else FindPersistent(c.entries, id, 0);
    if i < |c.entries| then (h, c.entries[i].ptr)
    else if persistence != 0 && persistence != 2 then (h, 0)
    else if id == c.temp.entry0.id then (h.Set(kind, c.(temp := Touch(c.temp, id))), c.temp.entry0.ptr)
    else if id == c.temp.entry1.id then (h.Set(kind, c.(temp := Touch(c.temp, id))), c.temp.entry1.ptr)
    else (h, 0)
  }

  /** The last transfer of an asynchronous load has arrived. */
  function Arrive(h: Heap, kind: Kind, id: int): Heap
    requires 0 <= id < |h.Get(kind).status|
  {
    var c := h.Get(kind);
    h.Set(kind, c.(status := c.status[id := COMPLETE]))
  }

  // ---------- runs ----------

  datatype Op =
    | DoLoad(kind: Kind, persistence: nat, length: nat, id: int, async: bool)
    | DoSearch(kind: Kind, persistence: nat, id: int)
    | DoStop(player: nat)
    | DoPlay(player: nat, seqId: nat, font: nat)
    | DoNotes(noteFonts: seq<nat>)
    | DoArrive(kind: Kind, id: int)

  /** Ids lie in the status tables, files fit the temporary region, and the persistent table has room. */
  predicate Allowed(h: Heap, op: Op) {
    match op
    case DoLoad(kind, persistence, length, id, _) =>
      && 0 <= id < |h.Get(kind).status| && Fits(h.Get(kind), persistence, LoadSize(kind, length))
      && (persistence != 0 ==> |h.Get(kind).entries| < MAX_PERSISTENT)
    case DoSearch(_, _, id) => id != NO_ID
    case DoStop(p) => p < |h.players|
    case DoPlay(p, seqId, font) => p < |h.players| && seqId < |h.seqs.status| && font < |h.fonts.status|
    case DoNotes(_) => true
    case DoArrive(kind, id) => 0 <= id < |h.Get(kind).status|
  }

  function Step(h: Heap, op: Op): Heap
    requires Ready(h) && Allowed(h, op)
  {
    match op
    case DoLoad(kind, persistence, length, id, async) => Load(h, kind, persistence, length, id, async).0
    case DoSearch(kind, persistence, id) => Search(h, kind, persistence, id).0
    case DoStop(p) => StopPlayer(h, p)
    case DoPlay(p, seqId, font) => h.(players := h.players[p := Player(true, seqId, font)])
    case DoNotes(fonts) => h.(noteFonts := fonts)
    case DoArrive(kind, id) => Arrive(h, kind, id)
  }

  /** Runs operations as long as they are allowed. */
  function Run(h: Heap, ops: seq<Op>): Heap
    decreases |ops|
  {
    if ops == [] || !Ready(h) || !Allowed(h, ops[0]) then h else Run(Step(h, ops[0]), ops[1..])
  }
}
