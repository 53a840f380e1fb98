/** What a list's count really counts: every note that was ever put on the list and not popped. */
module NoteCounts {
  import opened NoteListModel
  import opened NotePools

  datatype ListOp = Front(a: nat, x: int) | Back(a: nat, x: int) | Take(x: int) | Pop(a: nat)

  predicate OpOk(w: World, op: ListOp) {
    match op
    case Front(a, x) => a < |w.lists| && IsNote(w, x)
    case Back(a, x) => a < |w.lists| && IsNote(w, x)
    case Take(x) => IsNote(w, x)
    case Pop(a) => a < |w.lists|
  }

  lemma RemoveSizes(w: World, x: int)
    requires Ok(w) && IsNote(w, x)
    ensures |Remove(w, x).lists| == |w.lists| && |Remove(w, x).owner| == |w.owner|
  {
    assert OwnerOk(w, x);
  }

  ghost function Apply(w: World, op: ListOp): (v: World)
    requires Ok(w) && OpOk(w, op)
    ensures Ok(v) && |v.lists| == |w.lists| && |v.owner| == |w.owner|
  {
    hide ListOk, OwnerOk;
    match op
    case Front(a, x) => PushFrontOk(w, a, x); PushFront(w, a, x)
    case Back(a, x) => PushBackOk(w, a, x); PushBack(w, a, x)
    case Take(x) => RemoveOk(w, x); RemoveSizes(w, x); Remove(w, x)
    case Pop(a) => PopBackOk(w, a); PopBack(w, a).0
  }

  /** How far the count of a list runs ahead of its length. */
  ghost function Excess(w: World, a: nat): int
    requires Ok(w) && a < |w.lists|
  {
    OkCounts(w);
    w.count[Head(a)] - |w.lists[a]|
  }

  lemma OkCounts(w: World)
    requires Ok(w)
    ensures Sized(w)
  {
    hide ListOk, OwnerOk;
  }

  /** The operation unlinks a note from list a without popping it. */
  predicate RemovesFrom(w: World, op: ListOp, a: nat)
    requires OpOk(w, op)
  {
    op.Take? && w.owner[op.x] == a
  }

  lemma PushKeepsExcess(w: World, op: ListOp, a: nat)
    requires Ok(w) && OpOk(w, op) && a < |w.lists| && (op.Front? || op.Back?)
    ensures Excess(Apply(w, op), a) == Excess(w, a)
  {
    hide ListOk, OwnerOk, PushFrontLinks, PushBackLinks;
  }

  lemma RemovalRaisesExcess(w: World, x: int, a: nat)
    requires Ok(w) && IsNote(w, x) && a < |w.lists|
    ensures Excess(Apply(w, Take(x)), a) == Excess(w, a) + if w.owner[x] == a then 1 else 0
  {
    assert OwnerOk(w, x);
    if w.owner[x] != -1 {
      var b := w.owner[x];
      RemoveKnown(w, b, IndexOf(w.lists[b], x));
    }
    hide ListOk, OwnerOk, RemoveLinks;
  }

  lemma PopKeepsExcess(w: World, b: nat, a: nat)
    requires Ok(w) && a < |w.lists| && b < |w.lists|
    ensures Excess(Apply(w, Pop(b)), a) == Excess(w, a)
  {
    PopBackOk(w, b);
    ListIsOk(w, b);
    hide ListOk, OwnerOk, RemoveLinks;
  }

  lemma ApplyExcess(w: World, op: ListOp, a: nat)
    requires Ok(w) && OpOk(w, op) && a < |w.lists|
    ensures Excess(Apply(w, op), a) == Excess(w, a) + if RemovesFrom(w, op, a) then 1 else 0
  {
    hide Apply, Excess, Ok;
    match op
    case Take(x) => RemovalRaisesExcess(w, x, a);
    case Pop(b) => PopKeepsExcess(w, b, a);
    case _ => PushKeepsExcess(w, op, a);
  }

  // ---------- runs ----------

  predicate OpsOk(w: World, ops: seq<ListOp>) {
    forall i :: 0 <= i < |ops| ==> OpOk(w, ops[i])
  }

  lemma OpsStayOk(w: World, v: World, ops: seq<ListOp>)
    requires OpsOk(w, ops) && |v.lists| == |w.lists| && |v.owner| == |w.owner|
    ensures OpsOk(v, ops)
  {
    forall i | 0 <= i < |ops|
      ensures OpOk(v, ops[i])
    {
      assert OpOk(w, ops[i]);
    }
  }

  ghost function Run(w: World, ops: seq<ListOp>): (v: World)
    requires Ok(w) && OpsOk(w, ops)
    ensures Ok(v) && |v.lists| == |w.lists| && |v.owner| == |w.owner|
    decreases |ops|
  {
    if ops == [] then w
    else
      OpsStayOk(w, Apply(w, ops[0]), ops[1..]);
      Run(Apply(w, ops[0]), ops[1..])
  }

  /** Linked notes a run removes from list a. */
  ghost function Removals(w: World, ops: seq<ListOp>, a: nat): nat
    requires Ok(w) && OpsOk(w, ops)
    decreases |ops|
  {
    if ops == [] then 0
    else
      OpsStayOk(w, Apply(w, ops[0]), ops[1..]);
      (if RemovesFrom(w, ops[0], a) then 1 else 0) + Removals(Apply(w, ops[0]), ops[1..], a)
  }

  /** Over any run, a list's count moves ahead of its length by exactly the removals; so counting from an
      exact count, it stays exact if and only if nothing was removed. */
  lemma {:induction false} CountIsExactIff(w: World, ops: seq<ListOp>, a: nat)
    requires Ok(w) && OpsOk(w, ops) && a < |w.lists|
    ensures Excess(Run(w, ops), a) == Excess(w, a) + Removals(w, ops, a)
    ensures Excess(w, a) == 0 ==> (Excess(Run(w, ops), a) == 0 <==> Removals(w, ops, a) == 0)
    decreases |ops|
  {
    hide Apply, Excess, Ok, RemovesFrom;
    if ops != [] {
      var v := Apply(w, ops[0]);
      OpsStayOk(w, v, ops[1..]);
      ApplyExcess(w, ops[0], a);
      CountIsExactIff(v, ops[1..], a);
    }
  }
}
