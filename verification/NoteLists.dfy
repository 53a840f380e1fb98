/** The note lists as the program keeps them: link fields in emulated memory, rewritten in place. */
module NoteLists {
  import opened AudioBase
  import opened NoteListModel
  import opened NotePools
  import opened NoteFrames

  class NoteMemory {
    const prev: array<int>
    const next: array<int>
    const count: array<int>
    const pool: array<int>
    ghost var lists: Lists    // members of list a, front to back
    ghost var owner: seq<int> // the list each address is on, -1 when unlinked

    predicate Shape() {
      && prev.Length == next.Length == count.Length == pool.Length
      && prev != next && prev != count && prev != pool && next != count && next != pool && count != pool
    }

    ghost function Model(): World
      reads this, prev, next, count, pool
    {
      World(Links(prev[..], next[..]), count[..], pool[..], lists, owner)
    }

    ghost predicate Valid()
      reads this, prev, next, count, pool
    {
      Shape() && Ok(Model())
    }

    method AudioListPushFront(a: nat, x: int)
      requires Valid() && a < |lists| && IsNote(Model(), x)
      modifies this, prev, next, count, pool
      ensures Valid() && Model() == old(PushFront(Model(), a, x))
    {
      ghost var goal := PushFront(Model(), a, x);
      PushFrontOk(Model(), a, x);
      if prev[x] != 0 {
        return;
      }
      assert ListOk(Model(), a);
      var l := Head(a);
      prev[x] := l;
      next[x] := next[l];
      prev[next[l]] := x;
      count[l] := count[l] + 1;
      next[l] := x;
      pool[x] := pool[l];
      lists, owner := goal.lists, goal.owner;
      assert prev[..] == goal.links.prev && next[..] == goal.links.next;
      assert count[..] == goal.count && pool[..] == goal.pool;
    }

    /** Needs only the addressed list to be proper: at boot other pools are still uninitialised. */
    method AudioListPushBack(a: nat, x: int)
      requires Shape() && Sized(Model()) && a < |lists| && IsNote(Model(), x) && ListOk(Model(), a)
      modifies this, prev, next, count, pool
      ensures Model() == old(Append(Model(), a, x))
      ensures old(Valid()) ==> Valid() && Model() == old(PushBack(Model(), a, x))
    {
      ghost var goal := Append(Model(), a, x);
      if Ok(Model()) {
        PushBackOk(Model(), a, x);
      }
      if prev[x] != 0 {
        return;
      }
      var l := Head(a);
      next[prev[l]] := x;
      prev[x] := prev[l];
      next[x] := l;
      prev[l] := x;
      count[l] := count[l] + 1;
      pool[x] := pool[l];
      lists, owner := goal.lists, goal.owner;
      assert prev[..] == goal.links.prev && next[..] == goal.links.next;
      assert count[..] == goal.count && pool[..] == goal.pool;
    }

    method AudioListRemove(x: int)
      requires Valid() && IsNote(Model(), x)
      modifies this, prev, next
      ensures Valid() && Model() == old(Remove(Model(), x))
    {
      ghost var goal := Remove(Model(), x);
      RemoveOk(Model(), x);
      if prev[x] == 0 {
        return;
      }
      NeighboursInRange(Model(), x);
      next[prev[x]] := next[x];
      prev[next[x]] := prev[x];
      prev[x] := 0;
      lists, owner := goal.lists, goal.owner;
      assert prev[..] == goal.links.prev && next[..] == goal.links.next;
    }

    /** Takes the last note of a list, or returns null from an empty one. */
    method AudioListPopBack(a: nat) returns (x: int)
      requires Valid() && a < |lists|
      modifies this, prev, next, count
      ensures Valid() && (Model(), x) == old(PopBack(Model(), a))
    {
      ghost var goal := PopBack(Model(), a).0;
      PopBackOk(Model(), a);
      assert ListOk(Model(), a);
      var l := Head(a);
      x := prev[l];
      if x == l {
        return 0;
      }
      NeighboursInRange(Model(), x);
      next[prev[x]] := l;
      prev[l] := prev[x];
      prev[x] := 0;
      count[l] := count[l] - 1;
      lists, owner := goal.lists, goal.owner;
      assert prev[..] == goal.links.prev && next[..] == goal.links.next && count[..] == goal.count;
    }

    /** Moves every note of list src, front first, to the back of list dst. */
    method MoveAll(src: nat, dst: nat)
      requires Valid() && src < |lists| && dst < |lists| && src != dst
      modifies this, prev, next, count, pool
      ensures Valid() && SameLinked(old(Model()), Model())
      ensures lists == old(Moving(lists, src, dst, |lists[src]|))
    {
      hide ListOk, OwnerOk, Moving;
      ghost var start, m := lists, 0;
      MovingStart(start, src, dst, 0);
      FirstIsNext(Model(), src);
      var x := next[Head(src)];
      while x != Head(src) && x != 0
        invariant Valid() && SameLinked(old(Model()), Model())
        invariant m <= |start[src]| && lists == Moving(start, src, dst, m)
        invariant x == next[Head(src)] != 0 && (x == Head(src) <==> m == |start[src]|)
        decreases |start[src]| - m
      {
        MovingStart(start, src, dst, m);
        MovingStep(start, src, dst, m);
        MoveFirstNote(src, dst);
        m := m + 1;
        MovingStart(start, src, dst, m);
        FirstIsNext(Model(), src);
        x := next[Head(src)];
      }
    }

    method MoveFirstNote(src: nat, dst: nat)
      requires Valid() && src < |lists| && dst < |lists| && lists[src] != []
      modifies this, prev, next, count, pool
      ensures Valid() && SameLinked(old(Model()), Model())
      ensures var ls := old(lists); var rest := ls[src := ls[src][1..]];
        lists == rest[dst := rest[dst] + [ls[src][0]]]
    {
      FirstIsNext(Model(), src);
      MoveFirstExact(Model(), src, dst);
      var x := next[Head(src)];
      AudioListRemove(x);
      AudioListPushBack(dst, x);
    }

    /** Returns a pool's notes to the free lists of the same class, in order. */
    method NotePoolClear(p: nat)
      requires Valid() && HasPool(lists, p)
      modifies this, prev, next, count, pool
      ensures Valid() && SameLinked(old(Model()), Model())
      ensures lists == old(ClearLists(lists, p))
    {
      ghost var start := lists;
      var c := 0;
      while c < CLASSES
        invariant c <= CLASSES && Valid() && SameLinked(old(Model()), Model())
        invariant lists == ClearUpTo(start, p, c)
      {
        ClearClass(start, p, c);
        MoveAll(PoolList(p, c), c);
        c := c + 1;
      }
    }

    /** Gives the pool up to n notes, drawn from the free classes in turn, after returning its own. */
    method NotePoolFill(p: nat, n: int)
      requires Valid() && HasPool(lists, p)
      modifies this, prev, next, count, pool
      ensures Valid() && SameLinked(old(Model()), Model())
      ensures lists == old(FillLists(lists, p, n))
    {
      hide ListOk, OwnerOk, ClearLists, FillUpTo, Drawing;
      NotePoolClear(p);
      ghost var start := lists;
      FillStart(old(lists), p, n);
      var taken, c := 0, 0;
      while taken < n && c < CLASSES
        invariant c <= CLASSES && Valid() && SameLinked(old(Model()), Model())
        invariant taken == Taken(start, n, c) && lists == FillUpTo(start, p, n, c)
        decreases CLASSES - c
      {
        DrawClass(start, p, n, c);
        var k := DrawFrom(p, c, n - taken);
        taken := taken + k;
        c := c + 1;
      }
      if n <= taken {
        FillSaturates(start, p, n, c);
      }
    }

    /** Pops up to wanted notes of free class c onto the pool's (empty) list of that class. */
    method DrawFrom(p: nat, c: nat, wanted: nat) returns (k: nat)
      requires Valid() && HasPool(lists, p) && c < CLASSES && lists[PoolList(p, c)] == []
      modifies this, prev, next, count, pool
      ensures Valid() && SameLinked(old(Model()), Model())
      ensures k == Min(wanted, old(|lists[c]|)) && lists == old(Drawing(lists, p, c, k))
    {
      hide ListOk, OwnerOk, Drawing, PopBack;
      ghost var start := lists;
      k := 0;
      DrawingStart(start, p, c);
      while k < wanted
        invariant Valid() && SameLinked(old(Model()), Model())
        invariant k <= wanted && k <= |start[c]| && lists == Drawing(start, p, c, k)
      {
        PopBackOk(Model(), c);
        DrawnSoFar(start, p, c, k);
        if k < |start[c]| {
          DrawingStep(start, p, c, k);
          PopPush(Model(), c, PoolList(p, c));
        }
        var x := AudioListPopBack(c);
        if x == 0 {
          break;
        }
        AudioListPushBack(PoolList(p, c), x);
        k := k + 1;
      }
    }

    // ---------- initialisation ----------

    /** Zeroed memory for a number of pools and notes: no list is usable yet and no note is linked. */
    constructor (pools: nat, notes: nat)
      ensures Shape() && lists == seq(4 * pools, _ => []) && prev.Length == 1 + 4 * pools + notes
      ensures OkBut(Model(), PoolsBelow(pools))
      ensures forall x :: IsNote(Model(), x) ==> owner[x] == -1
      ensures fresh(prev) && fresh(next) && fresh(count) && fresh(pool)
    {
      var total := 1 + 4 * pools + notes;
      prev := new int[total](_ => 0);
      next := new int[total](_ => 0);
      count := new int[total](_ => 0);
      pool := new int[total](_ => 0);
      lists := seq(4 * pools, _ => []);
      owner := seq(total, i => if 0 < i <= 4 * pools then i - 1 else -1);
      new;
      assert |lists| == 4 * pools;
      FreshOk(Model());
    }

    /** Makes a list head point to itself and zeroes its count. */
    method InitNoteList(a: nat)
      requires Shape() && Head(a) < prev.Length
      modifies prev, next, count
      ensures prev[..] == old(prev[..][Head(a) := Head(a)]) && next[..] == old(next[..][Head(a) := Head(a)])
      ensures count[..] == old(count[..][Head(a) := 0])
    {
      var h := Head(a);
      prev[h] := h;
      next[h] := h;
      count[h] := 0;
    }

    /** Turns a memberless pool whose heads hold anything into four proper empty lists. */
    method InitNoteLists(p: nat, ghost raw: set<int>)
      requires Shape() && OkBut(Model(), raw) && PoolList(p, CLASSES) <= |lists|
      requires p in raw
      modifies prev, next, count, pool
      ensures OkBut(Model(), raw - {p})
    {
      ghost var w := Model();
      InitNoteList(PoolList(p, DISABLED));
      InitNoteList(PoolList(p, DECAYING));
      InitNoteList(PoolList(p, RELEASING));
      InitNoteList(PoolList(p, ACTIVE));
      var h := Head(PoolList(p, 0));
      pool[h] := h;
      pool[h + 1] := h;
      pool[h + 2] := h;
      pool[h + 3] := h;
      hide OkBut;
      HeadsWritten(w, Model(), p);
      ResetOk(w, Model(), raw, p);
    }

    method FreeNote(x: int, ghost raw: set<int>)
      requires Shape() && OkBut(Model(), raw) && 0 !in raw && |lists| > 0 && IsNote(Model(), x) && owner[x] == -1
      modifies this, prev, next, count, pool
      ensures OkBut(Model(), raw) && |owner| == old(|owner|)
      ensures owner == old(owner[x := DISABLED]) && lists == old(lists[DISABLED := lists[DISABLED] + [x]])
    {
      ghost var w := Model();
      hide OkBut, ListOk;
      AppendOkBut(w, raw, DISABLED, x);
      prev[x] := 0;
      assert prev[..] == w.links.prev;
      AudioListPushBack(DISABLED, x);
    }

    /** Puts every note on the free pool's disabled list, in order, whatever that pool's heads held. The
        other pools may still be uninitialised, as they are at boot. */
    method InitNoteFreeList(notes: nat, ghost raw: set<int>)
      requires Shape() && OkBut(Model(), raw) && 0 in raw && CLASSES <= |lists|
      requires notes == prev.Length - 1 - |lists|
      requires forall a :: 0 <= a < |lists| ==> lists[a] == []
      requires forall x :: IsNote(Model(), x) ==> owner[x] == -1
      modifies this, prev, next, count, pool
      ensures OkBut(Model(), raw - {0}) && forall x :: IsNote(Model(), x) ==> owner[x] == DISABLED
      ensures lists == old(lists)[DISABLED := NotesFrom(|old(lists)| + 1, notes)]
    {
      hide Ok, OkBut;
      OkButSized(Model(), raw);
      InitNoteLists(0, raw);
      ghost var start := lists;
      var first := prev.Length - notes;
      var i := 0;
      assert start[DISABLED := NotesFrom(first, 0)] == start;
      while i < notes
        invariant OkBut(Model(), raw - {0}) && first == |start| + 1 && i <= notes
        invariant lists == start[DISABLED := NotesFrom(first, i)] && |owner| == prev.Length
        invariant forall x :: IsNote(Model(), x) ==> owner[x] == if x < first + i then DISABLED else -1
      {
        assert NotesFrom(first, i) + [first + i] == NotesFrom(first, i + 1);
        FreeNote(first + i, raw - {0});
        i := i + 1;
      }
    }

    /** Initialises every pool but the free one, whose lists may already have members. */
    method InitOtherPools(pools: nat)
      requires Shape() && OkBut(Model(), PoolsBelow(pools) - {0}) && 0 < pools && 4 * pools <= |lists|
      modifies prev, next, count, pool
      ensures Valid()
    {
      hide OkBut, Ok;
      ghost var raw := PoolsBelow(pools) - {0};
      var p := 1;
      assert raw - PoolsBelow(1) == raw by { assert PoolsBelow(1) == PoolsBelow(0) + {0}; }
      while p < pools
        invariant 1 <= p <= pools && OkBut(Model(), raw - PoolsBelow(p))
      {
        assert raw - PoolsBelow(p) - {p} == raw - PoolsBelow(p + 1);
        InitNoteLists(p, raw - PoolsBelow(p));
        p := p + 1;
      }
      assert raw - PoolsBelow(pools) == {};
      OkButNone(Model());
    }

    // ---------- the per-frame pass ----------

    /** Takes a note out of its list and puts it at the front of its pool's decaying list. */
    method SendToDecaying(x: int)
      requires Valid() && AllLinked(Model()) && IsNote(Model(), x)
      modifies this, prev, next, count, pool
      ensures Valid() && Model() == old(Relocate(Model(), x, DECAYING, true))
    {
      hide ListOk, OwnerOk;
      LinkedNote(Model(), x);
      AudioListRemove(x);
      AudioListPushFront(pool[x] - 1 + DECAYING, x);
    }

    /** Takes a note out of its list and puts it at the back of list c of its pool. */
    method SendToBack(x: int, c: nat)
      requires Valid() && AllLinked(Model()) && IsNote(Model(), x) && c < CLASSES
      modifies this, prev, next, count, pool
      ensures Valid() && Model() == old(Relocate(Model(), x, c, false))
    {
      hide ListOk, OwnerOk, Append;
      LinkedNote(Model(), x);
      AudioListRemove(x);
      ListIsOk(Model(), pool[x] - 1 + c);
      AudioListPushBack(pool[x] - 1 + c, x);
    }

    /** Lets the notes of a channel's layers decay, then returns the channel's notes to the free pool. */
    method SequenceChannelDisable(layerNotes: seq<int>, channelPool: nat)
      requires Valid() && AllLinked(Model()) && HasPool(lists, channelPool)
      requires forall i :: 0 <= i < |layerNotes| ==> IsNote(Model(), layerNotes[i])
      modifies this, prev, next, count, pool
      ensures Valid() && AllLinked(Model()) && SameLinked(old(Model()), Model())
      ensures lists == old(ClearLists(DecayAll(Model(), layerNotes, |layerNotes|).lists, channelPool))
    {
      hide Ok, AllLinked, Relocate, SamePools, ClearLists;
      ghost var w := Model();
      var i := 0;
      while i < |layerNotes|
        invariant i <= |layerNotes| && Valid() && Model() == DecayAll(w, layerNotes, i)
      {
        SendToDecaying(layerNotes[i]);
        i := i + 1;
      }
      ghost var u := Model();
      NotePoolClear(channelPool);
      LinkedFollow(u, Model());
    }

    /** First half of a visit: a stopped note goes to decaying; done means the visit ends here. */
    method StopNote(x: int, f: Frame) returns (priority: nat, done: bool)
      requires Valid() && AllLinked(Model()) && IsNote(Model(), x) && FrameOk(Model(), f)
      modifies this, prev, next, count, pool
      ensures Valid() && done == (Skipped(f) || LosesChannel(f)) && (!done ==> priority == PriorityAfterStop(f))
      ensures if LosesChannel(f) then Visited(old(Model()), Model(), x, f)
              else if done then Model() == old(Model())
              else Model() == old(AfterStop(Model(), x, f))
    {
      hide Ok;
      priority := f.priority;
      match f.parent {
        case BadParent =>
          return priority, true;
        case NoParent =>
          return priority, priority >= 2;
        case Layer(enabled, layerOwner) =>
          if !enabled && priority >= 2 {
            SendToDecaying(x);
            return 1, false;
          }
          match layerOwner {
            case NoPlayer(layerNotes, channelPool) =>
              SequenceChannelDisable(layerNotes, channelPool);
              return 1, true;
            case OnPlayer(muted, stopsNotes) =>
              if muted && stopsNotes {
                SendToDecaying(x);
                return 1, false;
              }
              return priority, false;
          }
      }
    }

    /** Second half: a note whose sound is over is disabled, or handed to the layer waiting for it. */
    method SettleNote(x: int, f: Frame, priority: nat)
      requires Valid() && AllLinked(Model()) && IsNote(Model(), x)
      modifies this, prev, next, count, pool
      ensures Valid() && Model() == old(AfterSettle(Model(), x, f, priority))
    {
      hide Ok;
      if priority != 0 {
        if priority == 1 || f.finished {
          if f.envelopeOff || f.finished {
            if f.wanted.WantedLayer? && f.wanted.hasChannel {
              SendToBack(x, ACTIVE);
            } else {
              SendToBack(x, DISABLED);
            }
          }
        } else if f.envelopeOff {
          SendToBack(x, DISABLED);
        }
      }
    }

    method ProcessNote(x: int, f: Frame)
      requires Valid() && AllLinked(Model()) && IsNote(Model(), x) && FrameOk(Model(), f)
      modifies this, prev, next, count, pool
      ensures Valid() && Visited(old(Model()), Model(), x, f)
    {
      hide Ok, Relocate, Visited, AllLinked;
      if !LosesChannel(f) {
        VisitExact(Model(), x, f);
      }
      var priority, done := StopNote(x, f);
      if !done {
        SettleNote(x, f, priority);
      }
    }

    /** Visits every note in address order. */
    method ProcessNotes(frames: seq<Frame>)
      requires Valid() && AllLinked(Model()) && FramesOk(Model(), frames)
      modifies this, prev, next, count, pool
      ensures Valid() && AllLinked(Model()) && SameLinked(old(Model()), Model())
      ensures Passed(old(Model()), Model(), frames, |frames|)
    {
      hide Ok, AllLinked, Visited, FramesOk, FrameOk, Passed, SameLinked, IsNote, NoteAt;
      OkSized(Model());
      ghost var w := Model();
      var i := 0;
      PassStarts(w, frames);
      while i < |frames|
        invariant i <= |frames| && Valid() && AllLinked(Model()) && SameLinked(w, Model()) && FramesOk(Model(), frames)
        invariant Passed(w, Model(), frames, i) && prev.Length == |owner|
      {
        ghost var u := Model();
        NextFrame(u, frames, i);
        ProcessNote(prev.Length - |frames| + i, frames[i]);
        PassGrows(w, u, Model(), frames, i);
        SameLinkedTrans(w, u, Model());
        i := i + 1;
      }
    }
  }

  /** Start-up: notes are freed into fresh memory first, and only then do the players and channels
      initialise their pools. */
  method BootNotes(pools: nat, notes: nat) returns (m: NoteMemory)
    requires pools > 0
    ensures fresh(m) && m.Valid() && AllLinked(m.Model())
    ensures m.lists == seq(4 * pools, _ => [])[DISABLED := NotesFrom(4 * pools + 1, notes)]
  {
    hide OkBut, Ok;
    m := new NoteMemory(pools, notes);
    m.InitNoteFreeList(notes, PoolsBelow(pools));
    m.InitOtherPools(pools);
  }
}
