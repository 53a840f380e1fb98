/** Moving notes between the free pool (pool 0) and the pool of a channel or player. */
module NotePools {
  import opened AudioBase
  import opened NoteListModel

  // ---------- one move ----------

  /** Which notes are on some list. */
  predicate SameLinked(w: World, w': World) {
    |w'.owner| == |w.owner| && |w'.lists| == |w.lists|
    && forall x :: 0 <= x < |w.owner| ==> (w'.owner[x] == -1 <==> w.owner[x] == -1)
  }

  lemma SameLinkedTrans(u: World, v: World, w: World)
    requires SameLinked(u, v) && SameLinked(v, w)
    ensures SameLinked(u, w)
  {
  }

  /** In a well-formed world a linked note is at one place of one list, and nowhere else. */
  lemma OnExactlyOneList(w: World, x: int)
    requires Ok(w) && IsNote(w, x)
    ensures w.owner[x] == -1 ==> forall a, i :: 0 <= a < |w.lists| && 0 <= i < |w.lists[a]| ==> w.lists[a][i] != x
    ensures w.owner[x] != -1 ==>
              exists a, i :: 0 <= a < |w.lists| && 0 <= i < |w.lists[a]| && w.lists[a][i] == x
                && forall b, j :: 0 <= b < |w.lists| && 0 <= j < |w.lists[b]| && w.lists[b][j] == x ==> b == a && j == i
  {
    hide Linked;
    forall b, j | 0 <= b < |w.lists| && 0 <= j < |w.lists[b]| && w.lists[b][j] == x
      ensures w.owner[x] == b
    {
      assert ListOk(w, b) && OnList(w, b, w.lists[b][j]);
    }
    assert OwnerOk(w, x);
    if w.owner[x] != -1 {
      var a := w.owner[x];
      assert ListOk(w, a);
      var i :| 0 <= i < |w.lists[a]| && w.lists[a][i] == x;
    }
  }

  /** Moves the first note of list src to the back of list dst. */
  function MoveFirst(w: World, src: nat, dst: nat): World
    requires Ok(w) && src < |w.lists| && dst < |w.lists| && w.lists[src] != []
  {
    assert ListOk(w, src);
    var x := w.links.next[Head(src)];
    assert OnList(w, src, w.lists[src][0]);
    RemoveOk(w, x);
    PushBack(Remove(w, x), dst, x)
  }

  lemma RemoveKnown(w: World, a: nat, k: nat)
    requires Ok(w) && a < |w.lists| && k < |w.lists[a]|
    ensures var x := w.lists[a][k];
      && IsNote(w, x) && w.owner[x] == a && w.links.prev[x] != 0
      && Remove(w, x).lists == w.lists[a := Without(w.lists[a], k)]
      && Remove(w, x).owner == w.owner[x := -1] && Remove(w, x).links.prev[x] == 0
  {
    assert w.lists[a] == w.lists[a];
    assert ListOk(w, a);
    var x := w.lists[a][k];
    assert OnList(w, a, x);
    NeighbourOwner(w, a, x);
    var j := IndexOf(w.lists[a], x);
    assert j == k;
  }

  lemma MoveFirstExact(w: World, src: nat, dst: nat)
    requires Ok(w) && src < |w.lists| && dst < |w.lists| && w.lists[src] != []
    ensures var w' := MoveFirst(w, src, dst); var l := w.lists[src];
      && Ok(w') && SameLinked(w, w')
      && w'.lists == var rest := w.lists[src := l[1..]]; rest[dst := rest[dst] + [l[0]]]
  {
    assert w.lists[src] == w.lists[src];
    assert ListOk(w, src);
    var x := w.lists[src][0];
    RemoveKnown(w, src, 0);
    RemoveOk(w, x);
    PushBackOk(Remove(w, x), dst, x);
    assert Without(w.lists[src], 0) == w.lists[src][1..];
  }

  /** The clear loop, m rounds on, when a list is moved into itself. */
  ghost function Spun(w: World, a: nat, m: nat): (v: World)
    requires Ok(w) && a < |w.lists| && w.lists[a] != []
    ensures Ok(v) && |v.lists| == |w.lists| && |v.lists[a]| == |w.lists[a]|
  {
    if m == 0 then w
    else
      MoveFirstExact(Spun(w, a, m - 1), a, a);
      MoveFirst(Spun(w, a, m - 1), a, a)
  }

  /** List l after its first member has been moved to the back k times. */
  function Rotated(l: seq<int>, k: nat): (r: seq<int>)
    requires l != []
    ensures |r| == |l| && multiset(r) == multiset(l)
  {
    if k == 0 then l
    else
      var r := Rotated(l, k - 1);
      assert r == [r[0]] + r[1..];
      r[1..] + [r[0]]
  }

  /** Clearing the free pool into itself never ends: after any number of rounds the list has merely been
      rotated, and the head's next, which the loop guard reads, is still a note. */
  lemma {:induction false} ClearingFreePoolSpins(w: World, a: nat, m: nat)
    requires Ok(w) && a < |w.lists| && w.lists[a] != []
    ensures var v := Spun(w, a, m);
      && v.lists == w.lists[a := Rotated(w.lists[a], m)]
      && v.links.next[Head(a)] != Head(a) && v.links.next[Head(a)] != 0
  {
    hide Ok, MoveFirst;
    if m > 0 {
      ClearingFreePoolSpins(w, a, m - 1);
      MoveFirstExact(Spun(w, a, m - 1), a, a);
    }
    FirstIsNext(Spun(w, a, m), a);
  }

  /** The first member of a list is the head's next; an empty list's head points to itself. */
  lemma FirstIsNext(w: World, a: nat)
    requires Ok(w) && a < |w.lists|
    ensures var x := w.links.next[Head(a)];
      x != 0 && (x == Head(a) <==> w.lists[a] == []) && (w.lists[a] != [] ==> x == w.lists[a][0] && IsNote(w, x))
  {
    assert ListOk(w, a);
    if w.lists[a] != [] {
      assert OnList(w, a, w.lists[a][0]);
    }
  }

  // ---------- clear and fill on lists ----------

  function PoolList(p: nat, c: nat): nat {
    4 * p + c
  }

  predicate HasPool(ls: Lists, p: nat) {
    0 < p && PoolList(p, CLASSES) <= |ls|
  }

  /** Classes below c of pool p appended to the matching free lists. */
  function ClearUpTo(ls: Lists, p: nat, c: nat): (r: Lists)
    requires HasPool(ls, p) && c <= CLASSES
    ensures |r| == |ls|
  {
    seq(|ls|, a requires 0 <= a < |ls| =>
      if a < c then ls[a] + ls[PoolList(p, a)]
      else if PoolList(p, 0) <= a < PoolList(p, c) then []
      else ls[a])
  }

  function ClearLists(ls: Lists, p: nat): (r: Lists)
    requires HasPool(ls, p)
    ensures |r| == |ls|
  {
    ClearUpTo(ls, p, CLASSES)
  }

  /** Notes in the free classes below c. */
  function FreeBefore(ls: Lists, c: nat): nat
    requires c <= CLASSES <= |ls|
  {
    if c == 0 then 0 else FreeBefore(ls, c - 1) + |ls[c - 1]|
  }

  /** How many of n notes come from the classes below c. */
  function Taken(ls: Lists, n: int, c: nat): nat
    requires c <= CLASSES <= |ls|
  {
    if n < 0 then 0 else Min(n, FreeBefore(ls, c))
  }

  function FromClass(ls: Lists, n: int, c: nat): (k: nat)
    requires c < CLASSES <= |ls|
    ensures k <= |ls[c]|
  {
    Taken(ls, n, c + 1) - Taken(ls, n, c)
  }

  function Reverse(s: seq<int>): (r: seq<int>)
    ensures |r| == |s|
  {
    if s == [] then [] else Reverse(s[1..]) + [s[0]]
  }

  function Last(s: seq<int>, k: nat): seq<int>
    requires k <= |s|
  {
    s[|s| - k..]
  }

  /** Free classes below c have given their share, last note first, to the (cleared) pool p. */
  function FillList(ls: Lists, p: nat, n: int, c: nat, a: nat): seq<int>
    requires HasPool(ls, p) && c <= CLASSES && a < |ls|
  {
    if a < c then ls[a][..|ls[a]| - FromClass(ls, n, a)]
    else if PoolList(p, 0) <= a < PoolList(p, c) then
      Reverse(Last(ls[a - PoolList(p, 0)], FromClass(ls, n, a - PoolList(p, 0))))
    else ls[a]
  }

  function FillUpTo(ls: Lists, p: nat, n: int, c: nat): (r: Lists)
    requires HasPool(ls, p) && c <= CLASSES
    ensures |r| == |ls|
  {
    seq(|ls|, a requires 0 <= a < |ls| => FillList(ls, p, n, c, a))
  }

  function FillLists(ls: Lists, p: nat, n: int): Lists
    requires HasPool(ls, p)
  {
    FillUpTo(ClearLists(ls, p), p, n, CLASSES)
  }

  function PoolSize(ls: Lists, p: nat, c: nat): nat
    requires c <= CLASSES && PoolList(p, CLASSES) <= |ls|
  {
    if c == 0 then 0 else PoolSize(ls, p, c - 1) + |ls[PoolList(p, c - 1)]|
  }

  // ---------- what filling achieves ----------

  lemma ClearedAt(ls: Lists, p: nat, c: nat)
    requires HasPool(ls, p) && c < CLASSES
    ensures ClearLists(ls, p)[c] == ls[c] + ls[PoolList(p, c)] && ClearLists(ls, p)[PoolList(p, c)] == []
  {
    var a := PoolList(p, c);
    assert CLASSES <= PoolList(p, 0) <= a < PoolList(p, CLASSES);
    assert ClearUpTo(ls, p, CLASSES)[a] == [];
  }

  lemma FilledAt(ls: Lists, p: nat, n: int, c: nat)
    requires HasPool(ls, p) && c < CLASSES
    ensures var cl := ClearLists(ls, p); var k := FromClass(cl, n, c);
      && FillLists(ls, p, n)[c] == cl[c][..|cl[c]| - k]
      && FillLists(ls, p, n)[PoolList(p, c)] == Reverse(Last(cl[c], k))
  {
    hide ClearLists, FromClass, Reverse, Last;
    var cl := ClearLists(ls, p);
    var a := PoolList(p, c);
    assert CLASSES <= PoolList(p, 0) <= a < PoolList(p, CLASSES);
    assert FillUpTo(cl, p, n, CLASSES)[a] == Reverse(Last(cl[a - PoolList(p, 0)], FromClass(cl, n, a - PoolList(p, 0))));
  }

  lemma {:induction false} PoolSizeIsTaken(ls: Lists, p: nat, n: int, c: nat)
    requires HasPool(ls, p) && c <= CLASSES
    ensures PoolSize(FillLists(ls, p, n), p, c) == Taken(ClearLists(ls, p), n, c)
  {
    if c > 0 {
      FilledAt(ls, p, n, c - 1);
      PoolSizeIsTaken(ls, p, n, c - 1);
    }
  }

  lemma {:induction false} FreeBeforeMonotone(ls: Lists, c: nat, d: nat)
    requires c <= d <= CLASSES <= |ls|
    ensures FreeBefore(ls, c) <= FreeBefore(ls, d)
    decreases d - c
  {
    if c < d {
      FreeBeforeMonotone(ls, c, d - 1);
    }
  }

  /** Asking for n notes yields min(max(n, 0), all free) of them. */
  lemma FillCount(ls: Lists, p: nat, n: int)
    requires HasPool(ls, p)
    ensures var free := FreeBefore(ClearLists(ls, p), CLASSES);
      PoolSize(FillLists(ls, p, n), p, CLASSES) == if n < 0 then 0 else Min(n, free)
  {
    PoolSizeIsTaken(ls, p, n, CLASSES);
  }

  /** A class is drawn from only once every earlier class has nothing left. */
  lemma FillInOrder(ls: Lists, p: nat, n: int, c: nat, d: nat)
    requires HasPool(ls, p) && c < d < CLASSES && FillLists(ls, p, n)[PoolList(p, d)] != []
    ensures FillLists(ls, p, n)[c] == []
  {
    hide FillLists, ClearLists;
    FilledAt(ls, p, n, c);
    FilledAt(ls, p, n, d);
    FreeBeforeMonotone(ClearLists(ls, p), c + 1, d);
  }

  lemma {:induction false} ReverseKeeps(s: seq<int>)
    ensures multiset(Reverse(s)) == multiset(s)
  {
    if s != [] {
      ReverseKeeps(s[1..]);
      assert s == [s[0]] + s[1..];
    }
  }

  /** Clearing after a fill gives every class back exactly the notes it had. */
  lemma ClearUndoesFill(ls: Lists, p: nat, n: int, c: nat)
    requires HasPool(ls, p) && c < CLASSES
    ensures multiset(ClearLists(FillLists(ls, p, n), p)[c]) == multiset(ls[c]) + multiset(ls[PoolList(p, c)])
    ensures ClearLists(FillLists(ls, p, n), p)[PoolList(p, c)] == []
  {
    var cl, fl := ClearLists(ls, p), FillLists(ls, p, n);
    var l, k := cl[c], FromClass(cl, n, c);
    ClearedAt(ls, p, c);
    FilledAt(ls, p, n, c);
    ClearedAt(fl, p, c);
    SplitMultiset(l, k);
  }

  lemma SplitMultiset(l: seq<int>, k: nat)
    requires k <= |l|
    ensures multiset(l[..|l| - k] + Reverse(Last(l, k))) == multiset(l)
  {
    ReverseKeeps(Last(l, k));
    assert l == l[..|l| - k] + Last(l, k);
  }

  // ---------- steps of the loops ----------

  lemma ReverseSnoc(s: seq<int>, k: nat)
    requires k < |s|
    ensures Reverse(Last(s, k + 1)) == Reverse(Last(s, k)) + [s[|s| - k - 1]]
  {
    assert Last(s, k + 1)[1..] == Last(s, k);
  }

  /** Once n notes are taken, the remaining classes contribute nothing. */
  lemma FillSaturates(ls: Lists, p: nat, n: int, c: nat)
    requires HasPool(ls, p) && c <= CLASSES && n <= Taken(ls, n, c)
    requires forall d :: 0 <= d < CLASSES ==> ls[PoolList(p, d)] == []
    ensures FillUpTo(ls, p, n, c) == FillUpTo(ls, p, n, CLASSES)
  {
    forall d | c <= d < CLASSES
      ensures FromClass(ls, n, d) == 0
    {
      FreeBeforeMonotone(ls, c, d);
    }
    forall a | 0 <= a < |ls|
      ensures FillUpTo(ls, p, n, c)[a] == FillUpTo(ls, p, n, CLASSES)[a]
    {
      if PoolList(p, c) <= a < PoolList(p, CLASSES) {
        var d := a - PoolList(p, 0);
        assert PoolList(p, d) == a && ls[PoolList(p, d)] == [] && FromClass(ls, n, d) == 0;
        assert Last(ls[d], 0) == [] && Reverse(Last(ls[d], 0)) == [];
        assert FillUpTo(ls, p, n, CLASSES)[a] == Reverse(Last(ls[d], FromClass(ls, n, d)));
      } else if c <= a < CLASSES {
        assert FromClass(ls, n, a) == 0;
        assert ls[a][..|ls[a]| - FromClass(ls, n, a)] == ls[a];
      }
    }
  }

  /** Lists with the first m notes of src already at the back of dst. */
  function Moving(ls: Lists, src: nat, dst: nat, m: nat): Lists
    requires src < |ls| && dst < |ls| && src != dst && m <= |ls[src]|
  {
    ls[src := ls[src][m..]][dst := ls[dst] + ls[src][..m]]
  }

  lemma MovingStart(ls: Lists, src: nat, dst: nat, m: nat)
    requires src < |ls| && dst < |ls| && src != dst && m <= |ls[src]|
    ensures Moving(ls, src, dst, 0) == ls
    ensures |Moving(ls, src, dst, m)| == |ls| && Moving(ls, src, dst, m)[src] == ls[src][m..]
  {
    assert ls[dst] + ls[src][..0] == ls[dst];
  }

  lemma MovingStep(ls: Lists, src: nat, dst: nat, m: nat)
    requires src < |ls| && dst < |ls| && src != dst && m < |ls[src]|
    ensures var now := Moving(ls, src, dst, m); var rest := now[src := now[src][1..]];
      rest[dst := rest[dst] + [now[src][0]]] == Moving(ls, src, dst, m + 1)
  {
    assert ls[src][..m + 1] == ls[src][..m] + [ls[src][m]];
    assert ls[dst] + ls[src][..m] + [ls[src][m]] == ls[dst] + ls[src][..m + 1];
  }

  lemma ClearClass(ls: Lists, p: nat, c: nat)
    requires HasPool(ls, p) && c < CLASSES
    ensures var now := ClearUpTo(ls, p, c); var src := PoolList(p, c);
      Moving(now, src, c, |now[src]|) == ClearUpTo(ls, p, c + 1)
  {
    var now, goal, src := ClearUpTo(ls, p, c), ClearUpTo(ls, p, c + 1), PoolList(p, c);
    assert PoolList(p, c + 1) == src + 1 && c < CLASSES <= PoolList(p, 0) <= src;
    assert now[src] == ls[src] && now[c] == ls[c] && ls[src][..|ls[src]|] == ls[src];
    forall a | 0 <= a < |ls|
      ensures Moving(now, src, c, |now[src]|)[a] == goal[a]
    {
      if a != c && a != src {
        assert goal[a] == now[a];
      }
    }
  }

  /** Lists with m notes of free class c already popped onto the pool. */
  function Drawing(ls: Lists, p: nat, c: nat, m: nat): Lists
    requires HasPool(ls, p) && c < CLASSES && m <= |ls[c]|
  {
    ls[c := ls[c][..|ls[c]| - m]][PoolList(p, c) := Reverse(Last(ls[c], m))]
  }

  lemma DrawingStart(ls: Lists, p: nat, c: nat)
    requires HasPool(ls, p) && c < CLASSES && ls[PoolList(p, c)] == []
    ensures Drawing(ls, p, c, 0) == ls
  {
    assert Last(ls[c], 0) == [] && Reverse(Last(ls[c], 0)) == [];
    assert ls[c][..|ls[c]| - 0] == ls[c];
  }

  lemma DrawingStep(ls: Lists, p: nat, c: nat, m: nat)
    requires HasPool(ls, p) && c < CLASSES && m < |ls[c]|
    ensures var now := Drawing(ls, p, c, m); var x := ls[c][|ls[c]| - m - 1];
      && now[c] != [] && now[c][|now[c]| - 1] == x
      && now[c := now[c][..|now[c]| - 1]][PoolList(p, c) := now[PoolList(p, c)] + [x]] == Drawing(ls, p, c, m + 1)
  {
    ReverseSnoc(ls[c], m);
    var now := Drawing(ls, p, c, m);
    assert now[c][..|now[c]| - 1] == ls[c][..|ls[c]| - (m + 1)];
  }

  lemma DrawClass(ls: Lists, p: nat, n: int, c: nat)
    requires HasPool(ls, p) && c < CLASSES
    ensures var now := FillUpTo(ls, p, n, c);
      && now[c] == ls[c] && now[PoolList(p, c)] == ls[PoolList(p, c)]
      && Drawing(now, p, c, FromClass(ls, n, c)) == FillUpTo(ls, p, n, c + 1)
  {
    hide Reverse, Last, Taken;
    var now, goal, k := FillUpTo(ls, p, n, c), FillUpTo(ls, p, n, c + 1), FromClass(ls, n, c);
    forall a | 0 <= a < |ls|
      ensures Drawing(now, p, c, k)[a] == goal[a]
    {
      if a == PoolList(p, c) {
        assert a - PoolList(p, 0) == c;
        assert goal[a] == Reverse(Last(ls[c], k));
      } else if PoolList(p, 0) <= a < PoolList(p, c) {
        assert CLASSES <= PoolList(p, 0) && a < PoolList(p, c + 1);
        assert goal[a] == now[a];
      } else if a != c {
        assert goal[a] == now[a];
      }
    }
  }

  /** Popping the last of a list and pushing it behind another. */
  lemma PopPush(w: World, a: nat, b: nat)
    requires Ok(w) && a < |w.lists| && b < |w.lists| && a != b && w.lists[a] != []
    ensures var (v, x) := PopBack(w, a);
      && Ok(v) && x == w.lists[a][|w.lists[a]| - 1] != 0 && IsNote(v, x)
      && |v.lists| == |w.lists| && SameLinked(w, PushBack(v, b, x))
      && PushBack(v, b, x).lists == w.lists[a := w.lists[a][..|w.lists[a]| - 1]][b := w.lists[b] + [x]]
  {
    PopBackOk(w, a);
    RemoveKnown(w, a, |w.lists[a]| - 1);
  }

  lemma DrawnSoFar(ls: Lists, p: nat, c: nat, m: nat)
    requires HasPool(ls, p) && c < CLASSES && m <= |ls[c]|
    ensures |Drawing(ls, p, c, m)| == |ls| && Drawing(ls, p, c, m)[c] == ls[c][..|ls[c]| - m]
  {
  }

  lemma FillStart(ls: Lists, p: nat, n: int)
    requires HasPool(ls, p)
    ensures var cl := ClearLists(ls, p);
      && FillUpTo(cl, p, n, 0) == cl && Taken(cl, n, 0) == 0
      && forall d :: 0 <= d < CLASSES ==> cl[PoolList(p, d)] == []
  {
    forall d | 0 <= d < CLASSES
      ensures ClearLists(ls, p)[PoolList(p, d)] == []
    {
      ClearedAt(ls, p, d);
    }
  }

  /** A note that comes and goes leaves every list as it was and its list's count one too high. */
  lemma CountRunsAhead(w: World, a: nat, x: int)
    requires Ok(w) && a < |w.lists| && IsNote(w, x) && w.owner[x] == -1
    ensures Ok(PushFront(w, a, x)) && IsNote(PushFront(w, a, x), x)
    ensures var v := Remove(PushFront(w, a, x), x);
      v.lists == w.lists && v.owner == w.owner && v.count == w.count[Head(a) := w.count[Head(a)] + 1]
  {
    hide ListOk, OwnerOk, PushFrontLinks, RemoveLinks;
    UnlinkedIsNull(w, x);
    PushFrontOk(w, a, x);
    var u := PushFront(w, a, x);
    assert u.lists[a] == [x] + w.lists[a];
    RemoveKnown(u, a, 0);
    assert Without(u.lists[a], 0) == w.lists[a];
    assert IndexOf(u.lists[a], x) == 0;
  }

  /** Removing is a no-op for exactly the unlinked notes, pushing for exactly the linked ones. */
  lemma IdlePrimitives(w: World, a: nat, x: int)
    requires Ok(w) && a < |w.lists| && IsNote(w, x)
    ensures Remove(w, x) == w <==> w.owner[x] == -1
    ensures PushFront(w, a, x) == w <==> w.owner[x] != -1
    ensures PushBack(w, a, x) == w <==> w.owner[x] != -1
  {
    assert OwnerOk(w, x);
    if w.owner[x] == -1 {
      assert PushFront(w, a, x).owner[x] == a && PushBack(w, a, x).owner[x] == a;
    } else {
      assert Remove(w, x).owner[x] == -1;
    }
  }

  // ---------- initialisation ----------

  /** All lists are proper except those of the given pools, which have no members and may hold anything. */
  ghost predicate OkBut(w: World, raw: set<int>) {
    && Sized(w)
    && (forall a {:trigger FineOrRaw(w, raw, a)} :: 0 <= a < |w.lists| ==> FineOrRaw(w, raw, a))
    && (forall x {:trigger w.owner[x]} :: IsNote(w, x) ==> OwnerOk(w, x))
  }

  ghost predicate FineOrRaw(w: World, raw: set<int>, a: nat)
    requires Sized(w) && a < |w.lists|
  {
    if a / 4 in raw then w.lists[a] == [] && w.owner[Head(a)] == a else ListOk(w, a)
  }

  function PoolsBelow(n: nat): (r: set<int>)
    ensures forall a :: a in r <==> 0 <= a < n
  {
    if n == 0 then {} else PoolsBelow(n - 1) + {n - 1}
  }

  /** Memory after the four heads of pool p have been made to point to themselves. */
  predicate HeadsReset(w: World, w': World, p: nat)
    requires Sized(w) && PoolList(p, CLASSES) <= |w.lists|
  {
    && w'.lists == w.lists && w'.owner == w.owner && Sized(w') && |w'.owner| == |w.owner|
    && (forall a :: PoolList(p, 0) <= a < PoolList(p, CLASSES) ==> EmptyHead(w', a))
    && (forall y :: 0 <= y < |w.owner| && !(Head(PoolList(p, 0)) <= y < Head(PoolList(p, CLASSES))) ==> SameAt(w, w', y))
  }

  predicate EmptyHead(w: World, a: nat)
    requires Sized(w) && a < |w.lists|
  {
    var h := Head(a);
    w.links.prev[h] == h && w.links.next[h] == h && w.count[h] == 0 && w.pool[h] == PoolOf(a)
  }

  /** The writes that reset pool p's heads. */
  lemma HeadsWritten(w: World, w': World, p: nat)
    requires Sized(w) && PoolList(p, CLASSES) <= |w.lists| && w'.lists == w.lists && w'.owner == w.owner
    requires var h := Head(PoolList(p, 0));
      && w'.links.prev == w.links.prev[h := h][h + 1 := h + 1][h + 2 := h + 2][h + 3 := h + 3]
      && w'.links.next == w.links.next[h := h][h + 1 := h + 1][h + 2 := h + 2][h + 3 := h + 3]
      && w'.count == w.count[h := 0][h + 1 := 0][h + 2 := 0][h + 3 := 0]
      && w'.pool == w.pool[h := h][h + 1 := h][h + 2 := h][h + 3 := h]
    ensures HeadsReset(w, w', p)
  {
    hide PoolOf;
    forall a | PoolList(p, 0) <= a < PoolList(p, CLASSES)
      ensures EmptyHead(w', a)
    {
      PoolOfList(p, a);
    }
    hide EmptyHead;
  }

  lemma PoolOfList(p: nat, a: nat)
    requires PoolList(p, 0) <= a < PoolList(p, CLASSES)
    ensures PoolOf(a) == Head(PoolList(p, 0))
  {
  }

  lemma EmptyHeadOk(w: World, w': World, raw: set<int>, p: nat, a: nat)
    requires Sized(w) && PoolList(p, CLASSES) <= |w.lists| && HeadsReset(w, w', p)
    requires PoolList(p, 0) <= a < PoolList(p, CLASSES) && p in raw && FineOrRaw(w, raw, a)
    ensures ListOk(w', a)
  {
    assert EmptyHead(w', a);
  }

  lemma OtherListOk(w: World, w': World, raw: set<int>, p: nat, a: nat)
    requires OkBut(w, raw) && PoolList(p, CLASSES) <= |w.lists| && HeadsReset(w, w', p) && a < |w.lists|
    requires p in raw
    requires !(PoolList(p, 0) <= a < PoolList(p, CLASSES)) && ListOk(w, a)
    ensures ListOk(w', a)
  {
    hide ListOk, EmptyHead, OwnerOk, OkBut, FineOrRaw;
    var h := Head(PoolList(p, 0));
    RawHead(w, raw, h - 1);
    RawHead(w, raw, h);
    RawHead(w, raw, h + 1);
    RawHead(w, raw, h + 2);
    ListFrame(w, w', a, {h, h + 1, h + 2, h + 3});
  }

  lemma RawHead(w: World, raw: set<int>, b: nat)
    requires OkBut(w, raw) && b < |w.lists| && b / 4 in raw
    ensures Sized(w) && w.owner[Head(b)] == b
  {
    hide OwnerOk, ListOk;
    assert FineOrRaw(w, raw, b);
  }

  lemma ResetFacts(w: World, w': World, raw: set<int>, p: nat, a: nat)
    requires OkBut(w, raw) && PoolList(p, CLASSES) <= |w.lists| && HeadsReset(w, w', p) && a < |w.lists|
    ensures Sized(w) && Sized(w') && w'.owner == w.owner && w'.lists == w.lists && FineOrRaw(w, raw, a)
  {
    hide ListOk, OwnerOk, SameAt, EmptyHead, FineOrRaw;
  }

  lemma ResetOne(w: World, w': World, raw: set<int>, p: nat, a: nat)
    requires OkBut(w, raw) && PoolList(p, CLASSES) <= |w.lists| && HeadsReset(w, w', p) && a < |w.lists|
    requires p in raw
    ensures FineOrRaw(w', raw - {p}, a)
  {
    hide ListOk, OwnerOk, SameAt, OwnerOk, EmptyHead, HeadsReset, OkBut;
    ResetFacts(w, w', raw, p, a);
    if a / 4 == p {
      EmptyHeadOk(w, w', raw, p, a);
    } else if a / 4 !in raw {
      OtherListOk(w, w', raw, p, a);
    }
  }

  /** Resetting a raw pool's heads makes its lists proper and disturbs no other list. */
  lemma ResetOk(w: World, w': World, raw: set<int>, p: nat)
    requires OkBut(w, raw) && PoolList(p, CLASSES) <= |w.lists| && HeadsReset(w, w', p)
    requires p in raw
    ensures OkBut(w', raw - {p})
  {
    forall x | IsNote(w', x)
      ensures OwnerOk(w', x)
    {
      assert w.owner[x] == w'.owner[x] && SameAt(w, w', x);
    }
    forall a | 0 <= a < |w'.lists|
      ensures FineOrRaw(w', raw - {p}, a)
    {
      ResetOne(w, w', raw, p, a);
    }
  }

  lemma ProperList(w: World, raw: set<int>, a: nat)
    requires OkBut(w, raw) && a < |w.lists| && a / 4 !in raw
    ensures Sized(w) && ListOk(w, a)
  {
    assert FineOrRaw(w, raw, a);
  }

  lemma NoteOwner(w: World, raw: set<int>, x: int)
    requires OkBut(w, raw) && IsNote(w, x)
    ensures Sized(w) && OwnerOk(w, x) && (w.owner[x] == -1 ==> w.links.prev[x] == 0)
  {
    hide FineOrRaw;
  }

  /** Filling a proper list leaves the raw ones raw and the others proper. */
  lemma AppendOkBut(w: World, raw: set<int>, a: nat, x: int)
    requires OkBut(w, raw) && a < |w.lists| && a / 4 !in raw && IsNote(w, x) && w.owner[x] == -1
    ensures Sized(w) && ListOk(w, a) && w.links.prev[x] == 0
    ensures OkBut(Append(w, a, x), raw)
  {
    hide OkBut;
    ProperList(w, raw, a);
    NoteOwner(w, raw, x);
    NeighbourOwner(w, a, Head(a));
    AppendedOk(w, a, x);
    AppendOthers(w, Append(w, a, x), raw, a, x, {x, Head(a), w.links.prev[Head(a)]});
  }

  lemma AppendedOk(w: World, a: nat, x: int)
    requires Sized(w) && a < |w.lists| && ListOk(w, a) && IsNote(w, x) && w.owner[x] == -1 && w.links.prev[x] == 0
    requires 0 < w.links.prev[Head(a)] < |w.owner| && w.owner[w.links.prev[Head(a)]] == a
    ensures var w' := Append(w, a, x); var touched := {x, Head(a), w.links.prev[Head(a)]};
      && Pushed(w, w', a, x) && ListOk(w', a)
      && (forall y :: 0 <= y < |w.owner| && y !in touched ==> SameAt(w, w', y))
      && (forall y :: y in touched && IsNote(w, y) ==> w'.links.prev[y] != 0)
  {
    PushBackLinked(w.links, Head(a), w.lists[a], x);
    LastIsLinked(w, a);
    PushedListOk(w, Append(w, a, x), a, x);
    hide Linked, NoDup, OnList, PoolOf;
  }

  lemma LastIsLinked(w: World, a: nat)
    requires Sized(w) && a < |w.lists| && ListOk(w, a)
    ensures 0 <= w.links.prev[Head(a)] < |w.owner| && w.links.prev[w.links.prev[Head(a)]] != 0
  {
    var l := w.lists[a];
    if l != [] {
      assert OnList(w, a, l[|l| - 1]) && NodeOk(w.links, Head(a), l, |l| - 1);
    }
  }

  lemma AppendOthers(w: World, w': World, raw: set<int>, a: nat, x: int, touched: set<int>)
    requires OkBut(w, raw) && Pushed(w, w', a, x) && ListOk(w, a) && ListOk(w', a) && a / 4 !in raw
    requires forall y :: y in touched && 0 <= y < |w.owner| ==> y == x || w.owner[y] == a
    requires forall y :: 0 <= y < |w.owner| && y !in touched ==> SameAt(w, w', y)
    requires forall y :: y in touched && IsNote(w, y) ==> w'.links.prev[y] != 0
    ensures OkBut(w', raw)
  {
    hide ListOk, Linked, OnList, OwnerOk;
    forall b | 0 <= b < |w'.lists|
      ensures FineOrRaw(w', raw, b)
    {
      assert FineOrRaw(w, raw, b);
      if b != a && b / 4 !in raw {
        ListFrame(w, w', b, touched);
      }
    }
    forall y | IsNote(w', y)
      ensures OwnerOk(w', y)
    {
      NoteOwner(w, raw, y);
      if y !in touched && w.owner[y] != a {
        OwnerFrame(w, w', a, y);
      } else {
        assert y in touched || SameAt(w, w', y);
        StillLinked(w, w', a, x, y);
      }
    }
  }

  lemma StillLinked(w: World, w': World, a: nat, x: int, y: int)
    requires Sized(w) && Pushed(w, w', a, x) && IsNote(w, y) && OwnerOk(w, y) && (y == x || w.owner[y] == a)
    requires w'.links.prev[y] != 0 || SameAt(w, w', y)
    ensures OwnerOk(w', y)
  {
    PushedOwnerOk(w, w', a, x, y);
  }

  lemma OkButSized(w: World, raw: set<int>)
    requires OkBut(w, raw)
    ensures Sized(w)
  {
    hide FineOrRaw, OwnerOk;
  }

  lemma OkButNone(w: World)
    requires OkBut(w, {})
    ensures Ok(w)
  {
    forall a | 0 <= a < |w.lists|
      ensures ListOk(w, a)
    {
      assert FineOrRaw(w, {}, a);
    }
    forall x | IsNote(w, x)
      ensures OwnerOk(w, x)
    {
      assert w.owner[x] == w.owner[x];
    }
  }

  /** Zeroed memory: no list usable, no note linked. */
  lemma FreshOk(w: World)
    requires Sized(w)
    requires forall a :: 0 <= a < |w.lists| ==> w.lists[a] == []
    requires forall y :: 0 <= y < |w.owner| ==> w.owner[y] == if 0 < y <= |w.lists| then y - 1 else -1
    requires forall y :: 0 <= y < |w.owner| ==> w.links.prev[y] == 0
    ensures OkBut(w, PoolsBelow((|w.lists| + 3) / 4))
  {
    forall x | IsNote(w, x)
      ensures OwnerOk(w, x)
    {
    }
  }

  lemma UnlinkedIsNull(w: World, x: int)
    requires Ok(w) && IsNote(w, x) && w.owner[x] == -1
    ensures w.links.prev[x] == 0
  {
    assert OwnerOk(w, x);
  }

  /** The first n notes in address order. */
  function NotesFrom(first: nat, n: nat): (l: seq<int>)
    ensures |l| == n && forall i :: 0 <= i < n ==> l[i] == first + i
  {
    seq(n, i => first + i)
  }
}
