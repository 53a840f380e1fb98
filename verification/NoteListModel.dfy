/** Circular doubly linked lists over link arrays indexed by address: 0 is the null pointer, list
    heads come first and notes after them. What the four primitive operations do to the lists. */
module NoteListModel {

  // The four lists of a pool.
  const CLASSES := 4
  const DISABLED := 0
  const DECAYING := 1
  const RELEASING := 2
  const ACTIVE := 3

  datatype Links = Links(prev: seq<int>, next: seq<int>)

  /** Members of each list, front to back. */
  type Lists = seq<seq<int>>

  function Head(a: nat): int {
    a + 1
  }

  /** Head h and members l form one circle, read the same in both directions. */
  ghost predicate Linked(m: Links, h: int, l: seq<int>) {
    && |m.prev| == |m.next| && 0 < h < |m.next|
    && m.next[h] == (if l == [] then h else l[0])
    && m.prev[h] == (if l == [] then h else l[|l| - 1])
    && (forall i :: 0 <= i < |l| ==> 0 < l[i] < |m.next| && l[i] != h)
    && (forall i {:trigger NodeOk(m, h, l, i)} {:trigger m.next[l[i]]} {:trigger m.prev[l[i]]} ::
          0 <= i < |l| ==> NodeOk(m, h, l, i))
  }

  /** Member i is a proper node between its neighbours. */
  ghost predicate NodeOk(m: Links, h: int, l: seq<int>, i: nat)
    requires |m.prev| == |m.next| && i < |l| && 0 <= l[i] < |m.next|
  {
    && m.next[l[i]] == (if i + 1 < |l| then l[i + 1] else h)
    && m.prev[l[i]] == (if i == 0 then h else l[i - 1])
  }

  predicate NoDup(l: seq<int>) {
    forall i, j :: 0 <= i < j < |l| ==> l[i] != l[j]
  }

  function PushFrontLinks(m: Links, h: int, x: int): Links
    requires |m.prev| == |m.next| && 0 <= h < |m.next| && 0 <= x < |m.next| && 0 <= m.next[h] < |m.next|
  {
    Links(m.prev[x := h][m.next[h] := x], m.next[x := m.next[h]][h := x])
  }

  function PushBackLinks(m: Links, h: int, x: int): Links
    requires |m.prev| == |m.next| && 0 <= h < |m.next| && 0 <= x < |m.next| && 0 <= m.prev[h] < |m.next|
  {
    Links(m.prev[x := m.prev[h]][h := x], m.next[m.prev[h] := x][x := h])
  }

  function RemoveLinks(m: Links, x: int): Links
    requires |m.prev| == |m.next| && 0 <= x < |m.next|
    requires 0 <= m.prev[x] < |m.next| && 0 <= m.next[x] < |m.next|
  {
    Links(m.prev[m.next[x] := m.prev[x]][x := 0], m.next[m.prev[x] := m.next[x]])
  }

  lemma PushFrontLinked(m: Links, h: int, l: seq<int>, x: int)
    requires Linked(m, h, l) && NoDup(l) && 0 < x < |m.next| && x != h && x !in l
    ensures Linked(PushFrontLinks(m, h, x), h, [x] + l)
  {
    var m', l' := PushFrontLinks(m, h, x), [x] + l;
    forall i | 0 <= i < |l'|
      ensures 0 < l'[i] < |m.next| && l'[i] != h
    {
    }
    forall i | 0 <= i < |l'|
      ensures NodeOk(m', h, l', i)
    {
      if i > 0 {
        assert l'[i] == l[i - 1] && NodeOk(m, h, l, i - 1);
      }
    }
  }

  lemma PushBackLinked(m: Links, h: int, l: seq<int>, x: int)
    requires Linked(m, h, l) && NoDup(l) && 0 < x < |m.next| && x != h && x !in l
    ensures Linked(PushBackLinks(m, h, x), h, l + [x])
  {
    var m', l' := PushBackLinks(m, h, x), l + [x];
    forall i | 0 <= i < |l'|
      ensures 0 < l'[i] < |m.next| && l'[i] != h
    {
    }
    forall i | 0 <= i < |l'|
      ensures NodeOk(m', h, l', i)
    {
      if i < |l| {
        assert l'[i] == l[i] && NodeOk(m, h, l, i);
      }
    }
  }

  function Without(l: seq<int>, k: nat): seq<int>
    requires k < |l|
  {
    l[..k] + l[k + 1..]
  }

  /** Member i of the shortened list sits between its new neighbours. */
  lemma RemovedNode(m: Links, h: int, l: seq<int>, k: nat, i: nat)
    requires Linked(m, h, l) && NoDup(l) && k < |l| && i < |l| - 1
    requires 0 <= m.prev[l[k]] < |m.next| && 0 <= m.next[l[k]] < |m.next|
    ensures var l' := Without(l, k); 0 < l'[i] < |m.next| && NodeOk(RemoveLinks(m, l[k]), h, l', i)
  {
    var j := if i < k then i else i + 1;
    assert NodeOk(m, h, l, k) && NodeOk(m, h, l, j) && l[j] != l[k];
    assert i + 1 != k ==> l[j] != m.prev[l[k]];
    assert i != k ==> l[j] != m.next[l[k]];
  }

  lemma RemoveLinked(m: Links, h: int, l: seq<int>, k: nat)
    requires Linked(m, h, l) && NoDup(l) && k < |l|
    ensures 0 <= m.prev[l[k]] < |m.next| && 0 <= m.next[l[k]] < |m.next|
    ensures Linked(RemoveLinks(m, l[k]), h, Without(l, k))
  {
    assert NodeOk(m, h, l, k);
    var m', l' := RemoveLinks(m, l[k]), Without(l, k);
    forall i | 0 <= i < |l'|
      ensures 0 < l'[i] < |m.next| && l'[i] != h
    {
    }
    forall i | 0 <= i < |l'|
      ensures NodeOk(m', h, l', i)
    {
      RemovedNode(m, h, l, k, i);
    }
  }

  /** A list none of whose nodes is written keeps its circle. */
  lemma LinkedFrame(m: Links, m': Links, h: int, l: seq<int>)
    requires Linked(m, h, l) && |m'.prev| == |m'.next| == |m.next|
    requires m'.prev[h] == m.prev[h] && m'.next[h] == m.next[h]
    requires forall i :: 0 <= i < |l| ==> m'.prev[l[i]] == m.prev[l[i]] && m'.next[l[i]] == m.next[l[i]]
    ensures Linked(m', h, l)
  {
    forall i | 0 <= i < |l|
      ensures NodeOk(m', h, l, i)
    {
      assert NodeOk(m, h, l, i);
    }
  }

  // ---------- all lists together ----------

  /** lists holds the members of every list; owner says, per address, which list it is on (-1: none). */
  datatype World = World(links: Links, count: seq<int>, pool: seq<int>, lists: Lists, owner: seq<int>)

  /** The address of a pool, which is the address of its first list head. */
  function PoolOf(a: nat): int {
    Head(a / CLASSES * CLASSES)
  }

  predicate Sized(w: World) {
    && |w.links.prev| == |w.links.next| == |w.count| == |w.pool| == |w.owner|
    && |w.lists| < |w.owner|
  }

  predicate IsNote(w: World, x: int) {
    |w.lists| < x < |w.owner|
  }

  /** Every list is well formed, a note is on at most one list, its pool field names the pool of that
      list, and a null prev marks exactly the notes on no list. List counts may run ahead of lengths. */
  ghost predicate Ok(w: World) {
    && Sized(w)
    && (forall a {:trigger w.lists[a]} :: 0 <= a < |w.lists| ==> ListOk(w, a))
    && (forall x {:trigger w.owner[x]} :: IsNote(w, x) ==> OwnerOk(w, x))
  }

  ghost predicate ListOk(w: World, a: nat)
    requires Sized(w) && a < |w.lists|
  {
    && Linked(w.links, Head(a), w.lists[a]) && NoDup(w.lists[a])
    && w.owner[Head(a)] == a && w.pool[Head(a)] == PoolOf(a) && |w.lists[a]| <= w.count[Head(a)]
    && (forall i :: 0 <= i < |w.lists[a]| ==> OnList(w, a, w.lists[a][i]))
  }

  predicate OnList(w: World, a: nat, x: int)
    requires Sized(w)
  {
    IsNote(w, x) && w.owner[x] == a && w.pool[x] == PoolOf(a)
  }

  predicate OwnerOk(w: World, x: int)
    requires Sized(w) && IsNote(w, x)
  {
    if w.links.prev[x] == 0 then w.owner[x] == -1
    else 0 <= w.owner[x] < |w.lists| && x in w.lists[w.owner[x]]
  }

  function PushFront(w: World, a: nat, x: int): World
    requires Ok(w) && a < |w.lists| && IsNote(w, x)
  {
    if w.links.prev[x] != 0 then w
    else
      assert ListOk(w, a);
      var h := Head(a);
      World(PushFrontLinks(w.links, h, x), w.count[h := w.count[h] + 1], w.pool[x := w.pool[h]],
            w.lists[a := [x] + w.lists[a]], w.owner[x := a])
  }

  /** Pushing at the back needs only the addressed list to be well formed. */
  function Append(w: World, a: nat, x: int): World
    requires Sized(w) && a < |w.lists| && IsNote(w, x) && ListOk(w, a)
  {
    if w.links.prev[x] != 0 then w
    else
      var h := Head(a);
      World(PushBackLinks(w.links, h, x), w.count[h := w.count[h] + 1], w.pool[x := w.pool[h]],
            w.lists[a := w.lists[a] + [x]], w.owner[x := a])
  }

  function PushBack(w: World, a: nat, x: int): World
    requires Ok(w) && a < |w.lists| && IsNote(w, x)
  {
    assert w.lists[a] == w.lists[a];
    Append(w, a, x)
  }

  function IndexOf(l: seq<int>, x: int): (k: nat)
    requires x in l
    ensures k < |l| && l[k] == x
  {
    if l[0] == x then 0 else 1 + IndexOf(l[1..], x)
  }

  /** Removal leaves the list's count alone. */
  function Remove(w: World, x: int): World
    requires Ok(w) && IsNote(w, x)
  {
    assert OwnerOk(w, x);
    if w.links.prev[x] == 0 then w
    else
      var a := w.owner[x];
      assert ListOk(w, a);
      var k := IndexOf(w.lists[a], x);
      RemoveLinked(w.links, Head(a), w.lists[a], k);
      RemoveAt(w, a, k)
  }

  function RemoveAt(w: World, a: nat, k: nat): World
    requires Sized(w) && a < |w.lists| && k < |w.lists[a]| && IsNote(w, w.lists[a][k])
    requires 0 <= w.links.prev[w.lists[a][k]] < |w.owner| && 0 <= w.links.next[w.lists[a][k]] < |w.owner|
  {
    var x := w.lists[a][k];
    w.(links := RemoveLinks(w.links, x), lists := w.lists[a := Without(w.lists[a], k)], owner := w.owner[x := -1])
  }

  // ---------- each primitive keeps every list ----------

  predicate SameAt(w: World, w': World, y: int)
    requires Sized(w) && Sized(w') && |w'.owner| == |w.owner| && 0 <= y < |w.owner|
  {
    && w'.links.prev[y] == w.links.prev[y] && w'.links.next[y] == w.links.next[y]
    && w'.count[y] == w.count[y] && w'.pool[y] == w.pool[y] && w'.owner[y] == w.owner[y]
  }

  /** A list keeps its shape when only nodes of other owners are written. */
  lemma ListFrame(w: World, w': World, b: nat, touched: set<int>)
    requires Sized(w) && Sized(w') && |w'.owner| == |w.owner| && |w'.lists| == |w.lists|
    requires b < |w.lists| && ListOk(w, b) && w'.lists[b] == w.lists[b]
    requires forall y :: 0 <= y < |w.owner| && y !in touched ==> SameAt(w, w', y)
    requires forall y :: y in touched && 0 <= y < |w.owner| ==> w.owner[y] != b
    ensures ListOk(w', b)
  {
    assert SameAt(w, w', Head(b));
    forall i | 0 <= i < |w.lists[b]|
      ensures SameAt(w, w', w.lists[b][i]) && OnList(w', b, w.lists[b][i])
    {
      assert OnList(w, b, w.lists[b][i]);
    }
    LinkedFrame(w.links, w'.links, Head(b), w.lists[b]);
  }

  /** Nodes next to the head or to a member belong to the same list. */
  lemma NeighbourOwner(w: World, a: nat, y: int)
    requires Sized(w) && a < |w.lists| && ListOk(w, a) && (y == Head(a) || y in w.lists[a])
    ensures 0 < w.links.next[y] < |w.owner| && w.owner[w.links.next[y]] == a
    ensures 0 < w.links.prev[y] < |w.owner| && w.owner[w.links.prev[y]] == a
    ensures y in w.lists[a] ==> w.links.next[y] != y && w.links.prev[y] != y
  {
    var l := w.lists[a];
    if y == Head(a) {
      if l != [] {
        assert OnList(w, a, l[0]) && OnList(w, a, l[|l| - 1]);
      }
    } else {
      var i :| 0 <= i < |l| && l[i] == y;
      assert w.links.next[l[i]] == if i + 1 < |l| then l[i + 1] else Head(a);
      assert w.links.prev[l[i]] == if i == 0 then Head(a) else l[i - 1];
      if i + 1 < |l| {
        assert OnList(w, a, l[i + 1]);
      }
      if i > 0 {
        assert OnList(w, a, l[i - 1]);
      }
    }
  }

  lemma OwnerFrame(w: World, w': World, a: nat, y: int)
    requires Sized(w) && Sized(w') && |w'.owner| == |w.owner| && |w'.lists| == |w.lists| && a < |w.lists|
    requires w'.lists == w.lists[a := w'.lists[a]] && IsNote(w, y) && OwnerOk(w, y)
    requires SameAt(w, w', y) && w.owner[y] != a
    ensures OwnerOk(w', y)
  {
  }

  /** Gluing: one list changed, the touched nodes were its own or unlinked, owners follow. */
  lemma OkAfter(w: World, w': World, a: nat, touched: set<int>)
    requires Ok(w) && Sized(w') && |w'.owner| == |w.owner| && |w'.lists| == |w.lists| && a < |w.lists|
    requires w'.lists == w.lists[a := w'.lists[a]] && ListOk(w', a)
    requires forall y :: 0 <= y < |w.owner| && y !in touched ==> SameAt(w, w', y)
    requires forall y :: y in touched && 0 <= y < |w.owner| ==> w.owner[y] == a || w.owner[y] == -1
    requires forall y :: IsNote(w, y) && (y in touched || w.owner[y] == a) ==> OwnerOk(w', y)
    ensures Ok(w')
  {
    hide ListOk, OwnerOk, SameAt;
    forall b | 0 <= b < |w'.lists|
      ensures ListOk(w', b)
    {
      if b != a {
        assert w.lists[b] == w'.lists[b];
        ListFrame(w, w', b, touched);
      }
    }
    forall y | IsNote(w', y)
      ensures OwnerOk(w', y)
    {
      if y !in touched && w.owner[y] != a {
        OwnerFrame(w, w', a, y);
      }
    }
  }

  /** What pushing x onto list a does, at either end. */
  predicate Pushed(w: World, w': World, a: nat, x: int)
    requires Sized(w)
  {
    && Sized(w') && |w'.owner| == |w.owner| && |w'.lists| == |w.lists| && a < |w.lists|
    && IsNote(w, x) && w.owner[x] == -1
    && (w'.lists == w.lists[a := [x] + w.lists[a]] || w'.lists == w.lists[a := w.lists[a] + [x]])
    && w'.owner == w.owner[x := a] && w'.count == w.count[Head(a) := w.count[Head(a)] + 1]
    && w'.pool == w.pool[x := w.pool[Head(a)]]
  }

  lemma PushedListOk(w: World, w': World, a: nat, x: int)
    requires Sized(w) && Pushed(w, w', a, x) && ListOk(w, a) && Linked(w'.links, Head(a), w'.lists[a])
    ensures ListOk(w', a)
  {
    hide Linked;
    var l, l' := w.lists[a], w'.lists[a];
    forall i | 0 <= i < |l|
      ensures l[i] != x && OnList(w', a, l[i])
    {
      assert OnList(w, a, l[i]);
    }
    forall i | 0 <= i < |l'|
      ensures OnList(w', a, l'[i])
    {
      assert l'[i] == x || l'[i] in l;
    }
  }

  lemma PushedOwnerOk(w: World, w': World, a: nat, x: int, y: int)
    requires Sized(w) && Pushed(w, w', a, x) && IsNote(w, y) && OwnerOk(w, y)
    requires y == x || w.owner[y] == a
    requires w'.links.prev[y] != 0
    ensures OwnerOk(w', y)
  {
    assert y == x || y in w.lists[a];
    assert x in w'.lists[a];
  }

  /** A note pushed while linked changes nothing; otherwise exactly the addressed list grows. */
  lemma PushFrontOk(w: World, a: nat, x: int)
    requires Ok(w) && a < |w.lists| && IsNote(w, x)
    ensures Ok(PushFront(w, a, x))
  {
    assert w.lists[a] == w.lists[a];
    assert ListOk(w, a) && w.owner[x] == w.owner[x];
    assert OwnerOk(w, x);
    if w.links.prev[x] == 0 {
      var h, w' := Head(a), PushFront(w, a, x);
      NeighbourOwner(w, a, h);
      PushFrontLinked(w.links, h, w.lists[a], x);
      PushedOk(w, w', a, x, {x, h, w.links.next[h]});
    }
  }

  lemma PushBackOk(w: World, a: nat, x: int)
    requires Ok(w) && a < |w.lists| && IsNote(w, x)
    ensures Ok(PushBack(w, a, x))
  {
    assert w.lists[a] == w.lists[a];
    assert ListOk(w, a) && w.owner[x] == w.owner[x];
    assert OwnerOk(w, x);
    if w.links.prev[x] == 0 {
      var h, w' := Head(a), PushBack(w, a, x);
      NeighbourOwner(w, a, h);
      PushBackLinked(w.links, h, w.lists[a], x);
      PushedOk(w, w', a, x, {x, h, w.links.prev[h]});
    }
  }

  /** In a well-formed memory each list is. */
  lemma ListIsOk(w: World, a: nat)
    requires Ok(w) && a < |w.lists|
    ensures Sized(w) && ListOk(w, a)
  {
    assert w.lists[a] == w.lists[a];
  }

  lemma PushedOk(w: World, w': World, a: nat, x: int, touched: set<int>)
    requires Ok(w) && Pushed(w, w', a, x) && ListOk(w, a) && Linked(w'.links, Head(a), w'.lists[a])
    requires forall y :: y in touched && 0 <= y < |w.owner| ==> y == x || w.owner[y] == a
    requires forall y :: 0 <= y < |w.owner| && y !in touched ==> SameAt(w, w', y)
    requires forall y :: y in touched && IsNote(w, y) ==> w'.links.prev[y] != 0
    ensures Ok(w')
  {
    hide ListOk, Linked, OnList;
    PushedListOk(w, w', a, x);
    forall y | IsNote(w, y) && (y in touched || w.owner[y] == a)
      ensures OwnerOk(w', y)
    {
      assert OwnerOk(w, y);
      assert y in touched || SameAt(w, w', y);
      PushedOwnerOk(w, w', a, x, y);
    }
    OkAfter(w, w', a, touched);
  }

  /** What taking x off list a does. */
  predicate Removed(w: World, w': World, a: nat, k: nat, x: int)
    requires Sized(w)
  {
    && Sized(w') && |w'.owner| == |w.owner| && |w'.lists| == |w.lists| && a < |w.lists|
    && IsNote(w, x) && w.owner[x] == a && k < |w.lists[a]| && w.lists[a][k] == x
    && w'.lists == w.lists[a := Without(w.lists[a], k)]
    && w'.owner == w.owner[x := -1] && w'.pool == w.pool
    && (forall y :: 0 <= y < |w.count| && y != Head(a) ==> w'.count[y] == w.count[y])
    && |w'.lists[a]| <= w'.count[Head(a)]
  }

  lemma RemovedListOk(w: World, w': World, a: nat, k: nat, x: int)
    requires Sized(w) && Removed(w, w', a, k, x) && ListOk(w, a) && Linked(w'.links, Head(a), w'.lists[a])
    ensures ListOk(w', a)
  {
    hide Linked;
    var l, l' := w.lists[a], w'.lists[a];
    forall i | 0 <= i < |l'|
      ensures OnList(w', a, l'[i])
    {
      var j := if i < k then i else i + 1;
      assert l'[i] == l[j] && OnList(w, a, l[j]);
    }
  }

  lemma RemovedOwnerOk(w: World, w': World, a: nat, k: nat, x: int, y: int)
    requires Sized(w) && Removed(w, w', a, k, x) && IsNote(w, y) && OwnerOk(w, y)
    requires y == x || w.owner[y] == a
    requires w'.links.prev[y] == 0 <==> y == x
    ensures OwnerOk(w', y)
  {
    if y != x {
      var i :| 0 <= i < |w.lists[a]| && w.lists[a][i] == y;
      assert w'.lists[a][if i < k then i else i - 1] == y;
    }
  }

  lemma RemovedOk(w: World, w': World, a: nat, k: nat, x: int, touched: set<int>)
    requires Ok(w) && Removed(w, w', a, k, x) && ListOk(w, a) && Linked(w'.links, Head(a), w'.lists[a])
    requires forall y :: y in touched && 0 <= y < |w.owner| ==> w.owner[y] == a
    requires forall y :: 0 <= y < |w.owner| && y !in touched ==> SameAt(w, w', y)
    requires forall y :: y in touched && IsNote(w, y) ==> (w'.links.prev[y] == 0 <==> y == x)
    requires x in touched
    ensures Ok(w')
  {
    hide ListOk, Linked, OnList;
    RemovedListOk(w, w', a, k, x);
    forall y | IsNote(w, y) && (y in touched || w.owner[y] == a)
      ensures OwnerOk(w', y)
    {
      assert OwnerOk(w, y);
      assert y in touched || SameAt(w, w', y);
      RemovedOwnerOk(w, w', a, k, x, y);
    }
    OkAfter(w, w', a, touched);
  }

  /** Removing an unlinked note changes nothing; otherwise the note leaves its list and no other changes. */
  lemma RemoveOk(w: World, x: int)
    requires Ok(w) && IsNote(w, x)
    ensures Ok(Remove(w, x))
  {
    assert w.owner[x] == w.owner[x];
    assert OwnerOk(w, x);
    if w.links.prev[x] != 0 {
      assert w.lists[w.owner[x]] == w.lists[w.owner[x]];
      RemoveLinkedOk(w, w.owner[x], x);
    }
  }

  lemma RemoveLinkedOk(w: World, a: nat, x: int)
    requires Ok(w) && IsNote(w, x) && a < |w.lists| && w.owner[x] == a && x in w.lists[a] && w.links.prev[x] != 0
    requires ListOk(w, a)
    ensures Ok(Remove(w, x))
  {
    RemoveAtOk(w, a, IndexOf(w.lists[a], x));
  }

  lemma RemoveAtOk(w: World, a: nat, k: nat)
    requires Ok(w) && a < |w.lists| && ListOk(w, a) && k < |w.lists[a]|
    ensures IsNote(w, w.lists[a][k])
    ensures 0 < w.links.prev[w.lists[a][k]] < |w.owner| && 0 < w.links.next[w.lists[a][k]] < |w.owner|
    ensures Ok(RemoveAt(w, a, k))
  {
    hide Linked, ListOk, Without, OwnerOk, NoDup, OnList, PoolOf, RemoveLinks, Ok;
    var x := w.lists[a][k];
    TakenOut(w, a, k);
    NotesAreLinked(w, w.links.prev[x]);
    NotesAreLinked(w, w.links.next[x]);
    RemoveTouches(w, a, k);
    RemovedOk(w, RemoveAt(w, a, k), a, k, x, {x, w.links.prev[x], w.links.next[x]});
  }

  /** What one removal does to the list and its neighbours. */
  lemma TakenOut(w: World, a: nat, k: nat)
    requires Ok(w) && a < |w.lists| && ListOk(w, a) && k < |w.lists[a]|
    ensures Sized(w) && IsNote(w, w.lists[a][k])
    ensures var x := w.lists[a][k]; var before, after := w.links.prev[x], w.links.next[x];
      && 0 < before < |w.owner| && 0 < after < |w.owner| && before != x && after != x
      && w.owner[x] == w.owner[before] == w.owner[after] == a
      && Removed(w, RemoveAt(w, a, k), a, k, x)
      && Linked(RemoveAt(w, a, k).links, Head(a), RemoveAt(w, a, k).lists[a])
  {
    hide OwnerOk;
    var x := w.lists[a][k];
    assert OnList(w, a, x);
    NeighbourOwner(w, a, x);
    RemoveLinked(w.links, Head(a), w.lists[a], k);
    CountAfterRemove(w, a, k);
    hide Linked, ListOk, Without, NoDup, PoolOf;
  }

  /** A note that some list owns is linked. */
  lemma NotesAreLinked(w: World, y: int)
    requires Ok(w) && 0 <= y < |w.owner| && w.owner[y] != -1
    ensures Sized(w) && (IsNote(w, y) ==> w.links.prev[y] != 0)
  {
    hide ListOk;
    if IsNote(w, y) {
      assert w.owner[y] != -1 && OwnerOk(w, y);
    }
  }

  /** Only the note and its two neighbours are written, and the neighbours stay linked. */
  lemma RemoveTouches(w: World, a: nat, k: nat)
    requires Sized(w) && a < |w.lists| && k < |w.lists[a]| && IsNote(w, w.lists[a][k])
    requires var x := w.lists[a][k]; var before, after := w.links.prev[x], w.links.next[x];
      && 0 < before < |w.owner| && 0 < after < |w.owner| && before != x && after != x
      && (IsNote(w, before) ==> w.links.prev[before] != 0) && (IsNote(w, after) ==> w.links.prev[after] != 0)
    ensures var x := w.lists[a][k]; var touched := {x, w.links.prev[x], w.links.next[x]}; var w' := RemoveAt(w, a, k);
      && (forall y :: 0 <= y < |w.owner| && y !in touched ==> SameAt(w, w', y))
      && (forall y :: y in touched && IsNote(w, y) ==> (w'.links.prev[y] == 0 <==> y == x))
  {
    hide Without;
  }

  lemma CountAfterRemove(w: World, a: nat, k: nat)
    requires Sized(w) && a < |w.lists| && ListOk(w, a) && k < |w.lists[a]|
    ensures |Without(w.lists[a], k)| <= w.count[Head(a)]
  {
  }

  /** Unlike removal, popping the last note also lowers the list's count. */
  function PopBack(w: World, a: nat): (r: (World, int))
    requires Ok(w) && a < |w.lists|
  {
    assert ListOk(w, a);
    var h, l := Head(a), w.lists[a];
    var x := w.links.prev[h];
    if x == h then (w, 0)
    else
      RemoveAtOk(w, a, |l| - 1);
      (CountDown(RemoveAt(w, a, |l| - 1), h), x)
  }

  function CountDown(w: World, h: int): World
    requires 0 <= h < |w.count|
  {
    w.(count := w.count[h := w.count[h] - 1])
  }

  lemma CountDownOk(w: World, a: nat)
    requires Ok(w) && a < |w.lists| && |w.lists[a]| < w.count[Head(a)]
    ensures Ok(CountDown(w, Head(a)))
  {
    hide Linked, NoDup;
    var w' := CountDown(w, Head(a));
    forall b | 0 <= b < |w'.lists|
      ensures ListOk(w', b)
    {
      assert w.lists[b] == w'.lists[b];
      assert ListOk(w, b);
      forall i | 0 <= i < |w.lists[b]|
        ensures OnList(w', b, w.lists[b][i])
      {
        assert OnList(w, b, w.lists[b][i]);
      }
    }
    forall y | IsNote(w', y)
      ensures OwnerOk(w', y)
    {
      assert w.owner[y] == w'.owner[y];
      assert OwnerOk(w, y);
    }
  }

  lemma PopBackOk(w: World, a: nat)
    requires Ok(w) && a < |w.lists|
    ensures var (w', x) := PopBack(w, a);
      && Ok(w') && (x == 0 <==> w.lists[a] == []) && (x == 0 ==> w' == w)
      && (x != 0 ==> x == w.lists[a][|w.lists[a]| - 1] && IsNote(w, x) && w'.links.prev[x] == 0
                     && w'.lists == w.lists[a := w.lists[a][..|w.lists[a]| - 1]])
  {
    assert w.lists[a] == w.lists[a];
    assert ListOk(w, a);
    var l := w.lists[a];
    if l != [] {
      RemoveAtOk(w, a, |l| - 1);
      assert Without(l, |l| - 1) == l[..|l| - 1];
      CountDownOk(RemoveAt(w, a, |l| - 1), a);
    }
  }

  /** A linked note has two real neighbours. */
  lemma NeighboursInRange(w: World, x: int)
    requires Ok(w) && IsNote(w, x) && w.links.prev[x] != 0
    ensures 0 < w.links.prev[x] < |w.owner| && 0 < w.links.next[x] < |w.owner|
  {
    assert w.owner[x] == w.owner[x];
    assert OwnerOk(w, x);
    assert w.lists[w.owner[x]] == w.lists[w.owner[x]];
    NeighbourOwner(w, w.owner[x], x);
  }
}
