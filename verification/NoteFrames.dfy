/** The per-frame pass over all notes: where each note goes, and that none is lost or duplicated. */
module NoteFrames {
  import opened NoteListModel
  import opened NotePools

  /** What one pass reads about a note: its layer, the layer's player, priority and envelope. */
  datatype Parent = NoParent | BadParent | Layer(enabled: bool, owner: LayerOwner)
  datatype LayerOwner = NoPlayer(layerNotes: seq<int>, channelPool: nat) | OnPlayer(muted: bool, stopsNotes: bool)
  datatype Wanted = NoWanted | WantedLayer(hasChannel: bool)
  datatype Frame = Frame(parent: Parent, priority: nat, finished: bool, envelopeOff: bool, wanted: Wanted)

  /** Where the pass leaves a note: untouched, at the front of decaying, at the back of a class,
      or after its channel was shut down. */
  datatype Fate = Keep | ToDecaying | ToBack(c: nat) | ChannelShut(layerNotes: seq<int>, channelPool: nat)

  predicate Stops(f: Frame) {
    && f.parent.Layer?
    && ((!f.parent.enabled && f.priority >= 2) ||
        ((f.parent.enabled || f.priority < 2) && f.parent.owner.OnPlayer? && f.parent.owner.muted && f.parent.owner.stopsNotes))
  }

  predicate LosesChannel(f: Frame) {
    f.parent.Layer? && (f.parent.enabled || f.priority < 2) && f.parent.owner.NoPlayer?
  }

  predicate Skipped(f: Frame) {
    f.parent.BadParent? || (f.parent.NoParent? && f.priority >= 2)
  }

  /** The note has stopped sounding: its priority is nonzero and its envelope or sample has ended. */
  predicate Over(f: Frame) {
    (Stops(f) || f.priority != 0) && (f.envelopeOff || f.finished)
  }

  /** The table behind the branches: only a note that has fallen to priority 1, or whose sample ended,
      is handed to a waiting layer. */
  function FateOf(f: Frame): Fate {
    if LosesChannel(f) then ChannelShut(f.parent.owner.layerNotes, f.parent.owner.channelPool)
    else if Skipped(f) then Keep
    else if Over(f) then
      if (Stops(f) || f.priority == 1 || f.finished) && f.wanted == WantedLayer(true) then ToBack(ACTIVE)
      else ToBack(DISABLED)
    else if Stops(f) then ToDecaying
    else Keep
  }

  /** The note's layer is gone, or its player is muted and stops notes then. */
  predicate MustStop(f: Frame) {
    f.parent.Layer? &&
    if f.parent.enabled || f.priority < 2
    then f.parent.owner.OnPlayer? && f.parent.owner.muted && f.parent.owner.stopsNotes
    else true
  }

  /** The table read off what is known of the note: a channel without a player is shut down; a note that
      must stop decays, unless its sound has ended; a note whose sound has ended goes to the layer waiting
      for it or is disabled, but a note that plays on at priority 2 or more is never handed over merely
      because its envelope is off; every other note stays. */
  lemma FateTable(f: Frame)
    ensures var shut := f.parent.Layer? && f.parent.owner.NoPlayer? && (f.parent.enabled || f.priority < 2);
      var skipped := f.parent.BadParent? || (f.parent.NoParent? && f.priority >= 2);
      var ended := f.finished || f.envelopeOff;
      var over := !shut && !skipped && ended && (MustStop(f) || f.priority != 0);
      && (FateOf(f).ChannelShut? <==> shut)
      && (shut ==> FateOf(f) == ChannelShut(f.parent.owner.layerNotes, f.parent.owner.channelPool))
      && (FateOf(f) == ToDecaying <==> MustStop(f) && !ended)
      && (FateOf(f) == ToBack(ACTIVE) <==>
            over && f.wanted == WantedLayer(true) && (MustStop(f) || f.finished || f.priority == 1))
      && (FateOf(f) == ToBack(DISABLED) <==>
            over && !(f.wanted == WantedLayer(true) && (MustStop(f) || f.finished || f.priority == 1)))
      && (FateOf(f) == Keep <==> !shut && !over && !(MustStop(f) && !ended))
  {
  }

  /** The list of class c in the pool that list a belongs to. */
  function ClassList(a: nat, c: nat): (b: nat)
    requires c < CLASSES
    ensures b / 4 == a / 4 && b % 4 == c
    ensures forall n {:trigger n % 4} :: a < n && n % 4 == 0 ==> b < n
  {
    a / 4 * 4 + c
  }

  /** Note x taken out of its list and put at one end of list c of the same pool. */
  function Relocated(ls: Lists, a: nat, x: int, c: nat, front: bool): Lists
    requires a < |ls| && x in ls[a] && c < CLASSES && |ls| % 4 == 0
  {
    var b := ClassList(a, c);
    var rest := ls[a := Without(ls[a], IndexOf(ls[a], x))];
    rest[b := if front then [x] + rest[b] else rest[b] + [x]]
  }

  predicate SamePools(w: World, w': World) {
    |w'.owner| == |w.owner| &&
    forall x :: 0 <= x < |w.owner| && 0 <= w.owner[x] ==> 0 <= w'.owner[x] && w'.owner[x] / 4 == w.owner[x] / 4
  }

  ghost predicate AllLinked(w: World) {
    |w.lists| % 4 == 0 && forall x :: IsNote(w, x) ==> w.owner[x] != -1
  }

  /** A linked note's owner, membership and pool field agree. */
  lemma LinkedNote(w: World, x: int)
    requires Ok(w) && AllLinked(w) && IsNote(w, x)
    ensures 0 <= w.owner[x] < |w.lists| && x in w.lists[w.owner[x]] && w.pool[x] == PoolOf(w.owner[x])
    ensures w.links.prev[x] != 0
  {
    assert OwnerOk(w, x);
    var a := w.owner[x];
    assert ListOk(w, a);
    assert OnList(w, a, x);
  }

  ghost function Relocate(w: World, x: int, c: nat, front: bool): World
    requires Ok(w) && AllLinked(w) && IsNote(w, x) && c < CLASSES
  {
    RemoveOk(w, x);
    LinkedNote(w, x);
    var b := ClassList(w.owner[x], c);
    if front then PushFront(Remove(w, x), b, x) else PushBack(Remove(w, x), b, x)
  }

  /** Changing one linked note's list within its pool links and unlinks nothing else. */
  lemma OwnerMoved(w: World, w': World, x: int, c: nat)
    requires AllLinked(w) && IsNote(w, x) && c < CLASSES && 0 <= w.owner[x]
    requires |w'.lists| == |w.lists| && w'.owner == w.owner[x := ClassList(w.owner[x], c)]
    ensures AllLinked(w') && SameLinked(w, w') && SamePools(w, w')
  {
  }

  lemma RelocateLists(w: World, x: int, c: nat, front: bool)
    requires Ok(w) && AllLinked(w) && IsNote(w, x) && c < CLASSES
    ensures 0 <= w.owner[x] < |w.lists| && x in w.lists[w.owner[x]]
    ensures var w' := Relocate(w, x, c, front);
      && Ok(w') && w'.lists == Relocated(w.lists, w.owner[x], x, c, front)
      && w'.owner == w.owner[x := ClassList(w.owner[x], c)]
  {
    LinkedNote(w, x);
    RemoveKnown(w, w.owner[x], IndexOf(w.lists[w.owner[x]], x));
    RemoveOk(w, x);
    PushFrontOk(Remove(w, x), ClassList(w.owner[x], c), x);
    PushBackOk(Remove(w, x), ClassList(w.owner[x], c), x);
    hide ListOk, OwnerOk, Remove, Linked, NoDup, PushFrontLinks, PushBackLinks, IndexOf, PoolOf;
  }

  /** Relocation keeps every list well formed and every note in its own pool. */
  lemma RelocateExact(w: World, x: int, c: nat, front: bool)
    requires Ok(w) && AllLinked(w) && IsNote(w, x) && c < CLASSES
    ensures 0 <= w.owner[x] < |w.lists| && x in w.lists[w.owner[x]]
    ensures var w' := Relocate(w, x, c, front);
      && Ok(w') && AllLinked(w') && SameLinked(w, w') && SamePools(w, w')
      && w'.lists == Relocated(w.lists, w.owner[x], x, c, front)
      && w'.owner == w.owner[x := ClassList(w.owner[x], c)]
  {
    RelocateLists(w, x, c, front);
    hide Relocate, Ok;
    OwnerMoved(w, Relocate(w, x, c, front), x, c);
  }

  /** Moving a note twice leaves the lists as the second move alone would. */
  lemma RelocateTwice(w: World, x: int, c: nat)
    requires Ok(w) && AllLinked(w) && IsNote(w, x) && c < CLASSES
    ensures 0 <= w.owner[x] < |w.lists| && x in w.lists[w.owner[x]]
    ensures var v := Relocate(w, x, DECAYING, true);
      && Ok(v) && AllLinked(v) && IsNote(v, x)
      && Relocate(v, x, c, false).lists == Relocated(w.lists, w.owner[x], x, c, false)
      && Relocate(v, x, c, false).owner == w.owner[x := ClassList(w.owner[x], c)]
  {
    hide ListOk, OwnerOk, IndexOf, Relocated, Relocate, Without, Linked, SamePools, Ok;
    RelocateExact(w, x, DECAYING, true);
    var v := Relocate(w, x, DECAYING, true);
    RelocateExact(v, x, c, false);
    NotTwiceListed(w, x);
    MoveAgain(w.lists, w.owner[x], x, c);
  }

  lemma NotTwiceListed(w: World, x: int)
    requires Ok(w) && AllLinked(w) && IsNote(w, x)
    ensures 0 <= w.owner[x] < |w.lists| && x in w.lists[w.owner[x]]
    ensures var a := w.owner[x]; var k := IndexOf(w.lists[a], x);
      && x !in Without(w.lists[a], k) && (forall b :: 0 <= b < |w.lists| && b != a ==> x !in w.lists[b])
  {
    LinkedNote(w, x);
    var a := w.owner[x];
    assert ListOk(w, a);
    hide Linked;
    forall b, i | 0 <= b < |w.lists| && 0 <= i < |w.lists[b]|
      ensures OnList(w, b, w.lists[b][i])
    {
      assert ListOk(w, b);
    }
  }

  lemma MoveAgain(ls: Lists, a: nat, x: int, c: nat)
    requires a < |ls| && x in ls[a] && c < CLASSES && |ls| % 4 == 0
    requires x !in Without(ls[a], IndexOf(ls[a], x)) && forall b :: 0 <= b < |ls| && b != a ==> x !in ls[b]
    ensures var d := ClassList(a, DECAYING); var mid := Relocated(ls, a, x, DECAYING, true);
      && d < |mid| && x in mid[d]
      && Relocated(mid, d, x, c, false) == Relocated(ls, a, x, c, false)
  {
    var d, mid := ClassList(a, DECAYING), Relocated(ls, a, x, DECAYING, true);
    assert mid[d][0] == x && IndexOf(mid[d], x) == 0;
    var rest := ls[a := Without(ls[a], IndexOf(ls[a], x))];
    assert Without(mid[d], 0) == rest[d];
    assert mid[d := rest[d]] == rest;
  }

  // ---------- one note ----------

  predicate FrameOk(w: World, f: Frame) {
    f.parent.Layer? && f.parent.owner.NoPlayer? ==>
      && HasPool(w.lists, f.parent.owner.channelPool)
      && forall i :: 0 <= i < |f.parent.owner.layerNotes| ==> IsNote(w, f.parent.owner.layerNotes[i])
  }

  lemma DecayOne(u: World, x: int)
    requires Ok(u) && AllLinked(u) && IsNote(u, x)
    ensures var v := Relocate(u, x, DECAYING, true);
      Ok(v) && AllLinked(v) && SameLinked(u, v) && SamePools(u, v)
  {
    RelocateExact(u, x, DECAYING, true);
  }

  /** The first k of some notes moved, one after another, to the front of their pools' decaying lists. */
  ghost function DecayAll(w: World, notes: seq<int>, k: nat): (v: World)
    requires Ok(w) && AllLinked(w) && k <= |notes| && forall i :: 0 <= i < |notes| ==> IsNote(w, notes[i])
    ensures Ok(v) && AllLinked(v) && SameLinked(w, v) && SamePools(w, v)
  {
    if k == 0 then w
    else
      DecayOne(DecayAll(w, notes, k - 1), notes[k - 1]);
      Relocate(DecayAll(w, notes, k - 1), notes[k - 1], DECAYING, true)
  }

  /** Exactly the named notes change class, to decaying, each within its pool. */
  lemma {:induction false} DecayedOwners(w: World, notes: seq<int>, k: nat, y: int)
    requires Ok(w) && AllLinked(w) && k <= |notes| && forall i :: 0 <= i < |notes| ==> IsNote(w, notes[i])
    requires IsNote(w, y)
    ensures 0 <= w.owner[y]
    ensures DecayAll(w, notes, k).owner[y] == if y in notes[..k] then ClassList(w.owner[y], DECAYING) else w.owner[y]
  {
    hide Ok, Relocate, Relocated, SamePools;
    LinkedNote(w, y);
    if k > 0 {
      DecayedOwners(w, notes, k - 1, y);
      RelocateExact(DecayAll(w, notes, k - 1), notes[k - 1], DECAYING, true);
      assert notes[..k] == notes[..k - 1] + [notes[k - 1]];
    }
  }

  /** The lists after the pass has visited note x. */
  ghost function FateLists(w: World, x: int, f: Frame): Lists
    requires Ok(w) && AllLinked(w) && IsNote(w, x) && FrameOk(w, f)
  {
    LinkedNote(w, x);
    match FateOf(f)
    case Keep => w.lists
    case ToDecaying => Relocated(w.lists, w.owner[x], x, DECAYING, true)
    case ToBack(c) => Relocated(w.lists, w.owner[x], x, c, false)
    case ChannelShut(notes, p) => ClearLists(DecayAll(w, notes, |notes|).lists, p)
  }

  /** The class a fate puts a note in. */
  function ListAfter(fate: Fate, a: nat): nat {
    match fate
    case ToDecaying => ClassList(a, DECAYING)
    case ToBack(c) => if c < CLASSES then ClassList(a, c) else a
    case _ => a
  }

  /** From v to w, one visit to note x. */
  ghost predicate Visited(v: World, w: World, x: int, f: Frame)
    requires Ok(v) && AllLinked(v) && IsNote(v, x) && FrameOk(v, f)
  {
    LinkedNote(v, x);
    && Ok(w) && AllLinked(w) && SameLinked(v, w)
    && w.lists == FateLists(v, x, f)
    && (!FateOf(f).ChannelShut? ==> w.owner == v.owner[x := ListAfter(FateOf(f), v.owner[x])])
  }

  /** A stopped note is sent to decaying; then a note that is over goes to the back of a class. The two
      moves together are the one the table prescribes. */
  lemma VisitExact(w: World, x: int, f: Frame)
    requires Ok(w) && AllLinked(w) && IsNote(w, x) && FrameOk(w, f) && !LosesChannel(f)
    ensures Ok(AfterStop(w, x, f)) && AllLinked(AfterStop(w, x, f)) && IsNote(AfterStop(w, x, f), x)
    ensures Skipped(f) ==> Visited(w, w, x, f)
    ensures !Skipped(f) ==> Visited(w, AfterSettle(AfterStop(w, x, f), x, f, PriorityAfterStop(f)), x, f)
  {
    hide Ok, AllLinked, Relocate, Relocated, SamePools;
    LinkedNote(w, x);
    var c := WantedClass(f, PriorityAfterStop(f));
    if Stops(f) {
      RelocateExact(w, x, DECAYING, true);
      RelocateTwice(w, x, c);
      RelocateExact(AfterStop(w, x, f), x, c, false);
    } else {
      RelocateExact(w, x, c, false);
    }
  }

  function PriorityAfterStop(f: Frame): nat {
    if Stops(f) then 1 else f.priority
  }

  ghost function AfterStop(w: World, x: int, f: Frame): World
    requires Ok(w) && AllLinked(w) && IsNote(w, x)
  {
    if Stops(f) then Relocate(w, x, DECAYING, true) else w
  }

  function WantedClass(f: Frame, priority: nat): (c: nat)
    ensures c < CLASSES
  {
    if (priority == 1 || f.finished) && f.wanted == WantedLayer(true) then ACTIVE else DISABLED
  }

  ghost function AfterSettle(w: World, x: int, f: Frame, priority: nat): World
    requires Ok(w) && AllLinked(w) && IsNote(w, x)
  {
    if priority != 0 && (f.envelopeOff || f.finished) then Relocate(w, x, WantedClass(f, priority), false) else w
  }

  // ---------- the whole pass ----------

  function NoteAt(w: World, i: nat): int {
    |w.lists| + 1 + i
  }

  predicate FramesOk(w: World, frames: seq<Frame>) {
    && |w.lists| + 1 + |frames| == |w.owner|
    && forall i :: 0 <= i < |frames| ==> FrameOk(w, frames[i])
  }

  /** From w to v, the pass has visited the first n notes in address order, each once. */
  ghost predicate Passed(w: World, v: World, frames: seq<Frame>, n: nat)
    requires Ok(w) && AllLinked(w) && FramesOk(w, frames) && n <= |frames|
    decreases n, 1
  {
    if n == 0 then v == w
    else exists u :: PassedVia(w, u, v, frames, n)
  }

  ghost predicate PassedVia(w: World, u: World, v: World, frames: seq<Frame>, n: nat)
    requires Ok(w) && AllLinked(w) && FramesOk(w, frames) && 0 < n <= |frames|
    decreases n, 0
  {
    Passed(w, u, frames, n - 1) && VisitedNth(u, v, frames, n - 1)
  }

  ghost predicate VisitedNth(u: World, v: World, frames: seq<Frame>, i: nat)
    requires i < |frames|
  {
    && Ok(u) && AllLinked(u) && FramesOk(u, frames)
    && Visited(u, v, NoteAt(u, i), frames[i])
  }

  lemma OkSized(w: World)
    requires Ok(w)
    ensures Sized(w)
  {
    hide ListOk, OwnerOk;
  }

  lemma LinkedFollow(w: World, v: World)
    requires AllLinked(w) && SameLinked(w, v)
    ensures AllLinked(v)
  {
  }

  lemma FramesFollow(w: World, v: World, frames: seq<Frame>)
    requires FramesOk(w, frames) && SameLinked(w, v)
    ensures FramesOk(v, frames)
  {
    forall i | 0 <= i < |frames|
      ensures FrameOk(v, frames[i])
    {
      assert FrameOk(w, frames[i]);
    }
  }

  lemma NextFrame(u: World, frames: seq<Frame>, i: nat)
    requires FramesOk(u, frames) && i < |frames|
    ensures IsNote(u, NoteAt(u, i)) && FrameOk(u, frames[i])
    ensures NoteAt(u, i) == |u.owner| - |frames| + i
  {
  }

  lemma PassStarts(w: World, frames: seq<Frame>)
    requires Ok(w) && AllLinked(w) && FramesOk(w, frames)
    ensures Passed(w, w, frames, 0) && SameLinked(w, w)
  {
  }

  /** One more visit extends a pass. */
  lemma PassGrows(w: World, u: World, v: World, frames: seq<Frame>, n: nat)
    requires Ok(w) && AllLinked(w) && FramesOk(w, frames) && n < |frames| && Passed(w, u, frames, n)
    requires Ok(u) && AllLinked(u) && FramesOk(u, frames) && IsNote(u, NoteAt(u, n)) && FrameOk(u, frames[n])
    requires Visited(u, v, NoteAt(u, n), frames[n])
    ensures Passed(w, v, frames, n + 1) && Ok(v) && AllLinked(v) && SameLinked(u, v) && FramesOk(v, frames)
  {
    hide Ok, AllLinked, FateLists, FateOf, FramesOk, FrameOk;
    assert PassedVia(w, u, v, frames, n + 1);
    FramesFollow(u, v, frames);
  }

  lemma {:induction false} PassedSame(w: World, v: World, frames: seq<Frame>, n: nat)
    requires Ok(w) && AllLinked(w) && FramesOk(w, frames) && n <= |frames| && Passed(w, v, frames, n)
    ensures SameLinked(w, v) && FramesOk(v, frames)
    decreases n
  {
    hide Ok, AllLinked, FateLists, FateOf, FramesOk;
    if n > 0 {
      var u :| PassedVia(w, u, v, frames, n);
      VisitedSame(u, v, frames, n - 1);
      PassedSame(w, u, frames, n - 1);
      FramesFollow(u, v, frames);
    }
  }

  lemma VisitedSame(u: World, v: World, frames: seq<Frame>, i: nat)
    requires i < |frames| && VisitedNth(u, v, frames, i)
    ensures Ok(v) && AllLinked(v) && SameLinked(u, v) && FramesOk(u, frames)
  {
    hide Ok, AllLinked, FateLists, FateOf, SameLinked;
  }

  lemma VisitedOwner(u: World, v: World, frames: seq<Frame>, i: nat)
    requires i < |frames| && VisitedNth(u, v, frames, i) && !FateOf(frames[i]).ChannelShut?
    ensures |u.lists| + 1 + i < |u.owner|
    ensures var x := NoteAt(u, i); 0 <= u.owner[x] && v.owner == u.owner[x := ListAfter(FateOf(frames[i]), u.owner[x])]
  {
    hide Ok, AllLinked, FateLists, FateOf, ListAfter;
    LinkedNote(u, NoteAt(u, i));
  }

  // ---------- what a shutdown does to each note ----------

  /** Clearing a pool takes each of its notes to the free list of the same class, and moves no other. */
  lemma ClearedOwner(d: World, v: World, p: nat, y: int)
    requires Ok(d) && Ok(v) && AllLinked(d) && AllLinked(v) && IsNote(d, y) && |v.owner| == |d.owner|
    requires HasPool(d.lists, p) && v.lists == ClearLists(d.lists, p)
    ensures 0 <= d.owner[y]
    ensures v.owner[y] == if d.owner[y] / 4 == p then d.owner[y] % 4 else d.owner[y]
  {
    LinkedNote(d, y);
    var a := d.owner[y];
    var b := if a / 4 == p then a % 4 else a;
    ClearedLists(d.lists, p, a);
    assert y in v.lists[b];
    var i :| 0 <= i < |v.lists[b]| && v.lists[b][i] == y;
    MemberOwner(v, b, i);
  }

  lemma ClearedLists(ls: Lists, p: nat, a: nat)
    requires HasPool(ls, p) && a < |ls|
    ensures var b := if a / 4 == p then a % 4 else a;
      b < |ls| && forall x :: x in ls[a] ==> x in ClearLists(ls, p)[b]
  {
    if a / 4 == p {
      assert PoolList(p, a % 4) == a;
      ClearedAt(ls, p, a % 4);
    } else if a < CLASSES {
      ClearedAt(ls, p, a);
    } else {
      assert ClearUpTo(ls, p, CLASSES)[a] == ls[a];
    }
  }

  /** Where a shutdown leaves note y of list a: a layer's note is decaying, any other keeps its class; notes
      of the channel's pool are free, the others stay in their pool. */
  predicate ShutFrom(a: nat, b: int, y: int, layerNotes: seq<int>, channelPool: nat) {
    && 0 <= b
    && b % 4 == (if y in layerNotes then DECAYING else a % 4)
    && b / 4 == (if a / 4 == channelPool then 0 else a / 4)
  }

  lemma ShutdownExact(u: World, v: World, notes: seq<int>, p: nat, y: int)
    requires Ok(u) && AllLinked(u) && HasPool(u.lists, p) && forall i :: 0 <= i < |notes| ==> IsNote(u, notes[i])
    requires Ok(v) && AllLinked(v) && SameLinked(u, v) && IsNote(u, y)
    requires v.lists == ClearLists(DecayAll(u, notes, |notes|).lists, p)
    ensures 0 <= u.owner[y] && ShutFrom(u.owner[y], v.owner[y], y, notes, p)
  {
    hide *;
    var d := DecayAll(u, notes, |notes|);
    DecayedOwners(u, notes, |notes|, y);
    assert notes[..|notes|] == notes;
    ClearedAfter(u, d, v, p, y);
    DecayThenClear(u, d, v, y, notes, p);
  }

  lemma ClearedAfter(u: World, d: World, v: World, p: nat, y: int)
    requires IsNote(u, y) && SameLinked(u, d) && SameLinked(u, v) && HasPool(u.lists, p)
    requires Ok(d) && Ok(v) && AllLinked(d) && AllLinked(v) && v.lists == ClearLists(d.lists, p)
    ensures |v.owner| == |u.owner| == |d.owner| && 0 <= d.owner[y]
    ensures v.owner[y] == if d.owner[y] / 4 == p then d.owner[y] % 4 else d.owner[y]
  {
    hide Ok, AllLinked, ClearLists;
    ClearedOwner(d, v, p, y);
  }

  lemma DecayThenClear(u: World, d: World, v: World, y: int, notes: seq<int>, p: nat)
    requires IsNote(u, y) && |u.owner| == |d.owner| == |v.owner| && 0 <= u.owner[y]
    requires d.owner[y] == if y in notes then ClassList(u.owner[y], DECAYING) else u.owner[y]
    requires v.owner[y] == if d.owner[y] / 4 == p then d.owner[y] % 4 else d.owner[y]
    ensures ShutFrom(u.owner[y], v.owner[y], y, notes, p)
  {
  }

  lemma MemberOwner(d: World, b: nat, i: nat)
    requires Ok(d) && b < |d.lists| && i < |d.lists[b]|
    ensures 0 <= d.lists[b][i] < |d.owner| && d.owner[d.lists[b][i]] == b
  {
    ListIsOk(d, b);
    assert OnList(d, b, d.lists[b][i]);
  }

  // ---------- where a pass leaves each note ----------

  /** Where one visit leaves note y of list a; own says whether y is the note visited. */
  function FiledBy(fate: Fate, own: bool, y: int, a: nat): nat {
    match fate
    case ChannelShut(notes, p) =>
      (if a / 4 == p then 0 else a / 4) * 4 + (if y in notes then DECAYING else a % 4)
    case _ => if own then ListAfter(fate, a) else a
  }

  /** Where the first n visits leave note y, the i-th in address order: each note's way is its own. */
  function Filed(frames: seq<Frame>, n: nat, i: nat, y: int, a: nat): nat
    requires n <= |frames|
  {
    if n == 0 then a else FiledBy(FateOf(frames[n - 1]), n - 1 == i, y, Filed(frames, n - 1, i, y, a))
  }

  lemma VisitFiles(u: World, v: World, frames: seq<Frame>, i: nat, y: int)
    requires i < |frames| && VisitedNth(u, v, frames, i) && IsNote(u, y)
    ensures |v.owner| == |u.owner| && 0 <= u.owner[y]
    ensures v.owner[y] == FiledBy(FateOf(frames[i]), y == NoteAt(u, i), y, u.owner[y])
  {
    hide Ok, AllLinked, FateOf, ListAfter, ClearLists, DecayAll;
    LinkedNote(u, y);
    VisitedSame(u, v, frames, i);
    if FateOf(frames[i]).ChannelShut? {
      ShutVisit(u, v, NoteAt(u, i), frames[i], y);
    } else {
      VisitedOwner(u, v, frames, i);
    }
  }

  lemma ShutVisit(u: World, v: World, x: int, f: Frame, y: int)
    requires Ok(u) && AllLinked(u) && IsNote(u, x) && FrameOk(u, f) && Visited(u, v, x, f) && IsNote(u, y)
    requires FateOf(f).ChannelShut?
    ensures 0 <= u.owner[y] && ShutFrom(u.owner[y], v.owner[y], y, FateOf(f).layerNotes, FateOf(f).channelPool)
  {
    hide Ok, AllLinked, ClearLists;
    ShutdownExact(u, v, FateOf(f).layerNotes, FateOf(f).channelPool, y);
  }

  /** One pass, shutdowns included, files every note by its own frame and the shutdowns that name it or its
      pool, in order, and by nothing else. */
  lemma {:induction false} PassFilesEachNote(w: World, v: World, frames: seq<Frame>, n: nat, i: nat)
    requires Ok(w) && AllLinked(w) && FramesOk(w, frames) && n <= |frames| && i < |frames|
    requires Passed(w, v, frames, n)
    ensures |v.lists| == |w.lists| && |v.owner| == |w.owner|
    ensures var y := NoteAt(w, i); 0 <= w.owner[y] && v.owner[y] == Filed(frames, n, i, y, w.owner[y])
    decreases n
  {
    hide Ok, AllLinked, FateLists, FateOf, VisitedNth, FiledBy;
    LinkedNote(w, NoteAt(w, i));
    PassedSame(w, v, frames, n);
    if n > 0 {
      var u :| PassedVia(w, u, v, frames, n);
      PassedSame(w, u, frames, n - 1);
      PassFilesEachNote(w, u, frames, n - 1, i);
      VisitFiles(u, v, frames, n - 1, NoteAt(w, i));
    }
  }

  /** With no shutdown among the frames, its own frame alone decides. */
  lemma {:induction false} FiledAlone(frames: seq<Frame>, n: nat, i: nat, y: int, a: nat)
    requires n <= |frames| && i < |frames| && forall k :: 0 <= k < n ==> !FateOf(frames[k]).ChannelShut?
    ensures Filed(frames, n, i, y, a) == if i < n then ListAfter(FateOf(frames[i]), a) else a
  {
    if n > 0 {
      FiledAlone(frames, n - 1, i, y, a);
    }
  }

  /** In any pass a note ends in the pool it came from or in the free one. */
  lemma {:induction false} FiledKeepsPool(frames: seq<Frame>, n: nat, i: nat, y: int, a: nat)
    requires n <= |frames|
    ensures Filed(frames, n, i, y, a) < 4 || Filed(frames, n, i, y, a) / 4 == a / 4
  {
    if n > 0 {
      FiledKeepsPool(frames, n - 1, i, y, a);
    }
  }

  /** Over a whole pass, shutdowns included, every note ends in the pool it came from or in the free one. */
  lemma PassKeepsPools(w: World, v: World, frames: seq<Frame>, n: nat, y: int)
    requires Ok(w) && AllLinked(w) && FramesOk(w, frames) && n <= |frames| && IsNote(w, y)
    requires Passed(w, v, frames, n)
    ensures |v.owner| == |w.owner| && 0 <= w.owner[y] && 0 <= v.owner[y]
    ensures v.owner[y] < 4 || v.owner[y] / 4 == w.owner[y] / 4
  {
    hide Ok, AllLinked, Passed, Filed, FramesOk;
    assert |w.lists| + 1 + |frames| == |w.owner| by { FramesCount(w, frames); }
    var i := y - |w.lists| - 1;
    PassFilesEachNote(w, v, frames, n, i);
    FiledKeepsPool(frames, n, i, y, w.owner[y]);
  }

  lemma FramesCount(w: World, frames: seq<Frame>)
    requires FramesOk(w, frames)
    ensures |w.lists| + 1 + |frames| == |w.owner|
  {
  }
}
