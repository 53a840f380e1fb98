/** Bringing a bank or sequence in from ROM in pieces: what each call transfers, and that the pieces
    make up the whole file, each byte once. */
module ChunkModel {
  import Base = AudioBase

  type byte = Base.byte

  const CHUNK := 0x1000
  const PREFIX := 0x40

  // Load status of the font or sequence.
  const IN_PROGRESS := 1
  const COMPLETE := 2

  datatype Transfer = Transfer(dev: nat, dst: nat, len: nat)

  /** A load under way: next source and destination, bytes still to request, and every request so far. */
  datatype Load = Load(dev: nat, dst: nat, left: nat, loading: bool, status: nat, ram: seq<byte>, log: seq<Transfer>)

  /** One request for the next chunk; source and destination move on together. */
  function PartialCopy(s: Load, rom: Base.Rom): (t: Load)
    requires s.dst + s.left <= |s.ram|
  {
    var n := if s.left < CHUNK then s.left else CHUNK;
    s.(dev := s.dev + n, dst := s.dst + n, left := s.left - n,
       ram := Base.Transfer(s.ram, s.dst, rom, s.dev, n), log := s.log + [Transfer(s.dev, s.dst, n)])
  }

  /** Starting an asynchronous bank load requests the first chunk at once. */
  function Start(s: Load, rom: Base.Rom): Load
    requires s.dst + s.left <= |s.ram|
  {
    PartialCopy(s, rom).(loading := true, status := IN_PROGRESS)
  }

  /** A request has been served: ask for the next chunk, or finish when none is left. */
  function Served(s: Load, rom: Base.Rom): Load
    requires s.dst + s.left <= |s.ram|
  {
    if !s.loading then s
    else if s.left == 0 then s.(loading := false, status := COMPLETE)
    else PartialCopy(s, rom)
  }

  function Run(s: Load, rom: Base.Rom, served: nat): (t: Load)
    requires s.dst + s.left <= |s.ram|
    ensures t.dst + t.left <= |t.ram|
  {
    if served == 0 then Start(s, rom) else Served(Run(s, rom, served - 1), rom)
  }

  // ---------- tiling ----------

  /** Requests needed for n bytes. Even an empty file takes one. */
  function Calls(n: nat): nat {
    if n == 0 then 1 else (n + CHUNK - 1) / CHUNK
  }

  function Nth(dev: nat, dst: nat, n: nat, i: nat): Transfer
    requires CHUNK * i <= n
  {
    Transfer(dev + CHUNK * i, dst + CHUNK * i, Base.Min(CHUNK, n - CHUNK * i))
  }

  /** Two adjacent transfers are one. */
  lemma TransferJoins(ram: seq<byte>, p: nat, rom: Base.Rom, dev: nat, a: nat, b: nat)
    requires p + a + b <= |ram|
    ensures Base.Transfer(Base.Transfer(ram, p, rom, dev, a), p + a, rom, dev + a, b) == Base.Transfer(ram, p, rom, dev, a + b)
  {
  }

  /** After k requests: exactly the first k pieces, end to end, and exactly their bytes of ROM in RAM. */
  predicate Requested(s: Load, t: Load, rom: Base.Rom, k: nat)
    requires s.dst + s.left <= |s.ram|
  {
    var done := Base.Min(s.left, CHUNK * k);
    && t.dev == s.dev + done && t.dst == s.dst + done && t.left == s.left - done
    && t.ram == Base.Transfer(s.ram, s.dst, rom, s.dev, done)
    && |t.log| == |s.log| + k && t.log[..|s.log|] == s.log
    && forall i :: 0 <= i < k ==> CHUNK * i <= s.left && t.log[|s.log| + i] == Nth(s.dev, s.dst, s.left, i)
  }

  lemma FirstRequest(s: Load, rom: Base.Rom)
    requires s.dst + s.left <= |s.ram|
    ensures Requested(s, Start(s, rom), rom, 1)
  {
  }

  lemma NextRequest(s: Load, t: Load, rom: Base.Rom, k: nat)
    requires s.dst + s.left <= |s.ram| && Requested(s, t, rom, k) && CHUNK * k <= s.left
    ensures t.dst + t.left <= |t.ram| && Requested(s, PartialCopy(t, rom), rom, k + 1)
  {
    var n := if t.left < CHUNK then t.left else CHUNK;
    var u := PartialCopy(t, rom);
    TransferJoins(s.ram, s.dst, rom, s.dev, CHUNK * k, n);
    assert u.log[..|s.log|] == t.log[..|s.log|];
  }

  /** The load is complete after exactly Calls(n) requests have been served, having made exactly those. */
  lemma {:induction false} LoadsWholeFile(s: Load, rom: Base.Rom, served: nat)
    requires s.dst + s.left <= |s.ram| && served <= Calls(s.left)
    ensures var t := Run(s, rom, served);
      && (t.loading <==> served < Calls(s.left)) && t.status == (if t.loading then IN_PROGRESS else COMPLETE)
      && Requested(s, t, rom, Base.Min(served + 1, Calls(s.left)))
      && (!t.loading ==> t.ram == Base.Transfer(s.ram, s.dst, rom, s.dev, s.left) && |t.log| == |s.log| + Calls(s.left))
  {
    if served == 0 {
      FirstRequest(s, rom);
    } else {
      LoadsWholeFile(s, rom, served - 1);
      var t := Run(s, rom, served - 1);
      if served < Calls(s.left) {
        NextRequest(s, t, rom, served);
      }
    }
  }

  /** The pieces do not overlap and leave no gap: every offset is in exactly one of them. */
  lemma EachByteOnce(dev: nat, dst: nat, n: nat, o: nat)
    requires o < n
    ensures var i := o / CHUNK;
      && i < Calls(n) && CHUNK * i <= n
      && forall j :: 0 <= j < Calls(n) && CHUNK * j <= n ==>
           (var t := Nth(dev, dst, n, j); t.dst <= dst + o < t.dst + t.len <==> j == i)
  {
  }

  // ---------- sequences: a prefix at once, the rest in one request ----------

  function SequenceTransfers(dev: nat, dst: nat, size: nat): seq<Transfer> {
    if size <= PREFIX then [Transfer(dev, dst, size)]
    else [Transfer(dev, dst, PREFIX), Transfer(dev + PREFIX, dst + PREFIX, size - PREFIX)]
  }

  function ApplyAll(ram: seq<byte>, rom: Base.Rom, ts: seq<Transfer>): seq<byte>
    requires forall i :: 0 <= i < |ts| ==> ts[i].dst + ts[i].len <= |ram|
    decreases |ts|
  {
    if ts == [] then ram else ApplyAll(Base.Transfer(ram, ts[0].dst, rom, ts[0].dev, ts[0].len), rom, ts[1..])
  }

  /** The prefix and the rest tile the file: their joint effect is one transfer of all of it. */
  lemma {:induction false} PrefixAndRest(ram: seq<byte>, rom: Base.Rom, dev: nat, dst: nat, size: nat)
    requires dst + size <= |ram|
    ensures ApplyAll(ram, rom, SequenceTransfers(dev, dst, size)) == Base.Transfer(ram, dst, rom, dev, size)
  {
    hide ApplyAll, Base.Transfer;
    if size > PREFIX {
      TransferJoins(ram, dst, rom, dev, PREFIX, size - PREFIX);
      ApplyTwo(ram, rom, Transfer(dev, dst, PREFIX), Transfer(dev + PREFIX, dst + PREFIX, size - PREFIX));
    } else {
      ApplyOne(ram, rom, Transfer(dev, dst, size));
    }
  }

  /** The first request is the first 0x40 bytes, or all of a shorter file; the second, if any, starts where it
      ends and reaches to the end of the file. */
  lemma PrefixFirst(dev: nat, dst: nat, size: nat)
    ensures var ts := SequenceTransfers(dev, dst, size);
      && |ts| == (if size <= 0x40 then 1 else 2)
      && ts[0] == Transfer(dev, dst, if size <= 0x40 then size else 0x40)
      && (|ts| == 2 ==>
            ts[1].dev == dev + ts[0].len && ts[1].dst == dst + ts[0].len && ts[0].len + ts[1].len == size)
  {
  }

  lemma ApplyOne(ram: seq<byte>, rom: Base.Rom, t: Transfer)
    requires t.dst + t.len <= |ram|
    ensures ApplyAll(ram, rom, [t]) == Base.Transfer(ram, t.dst, rom, t.dev, t.len)
  {
    assert [t][1..] == [];
  }

  lemma ApplyTwo(ram: seq<byte>, rom: Base.Rom, t: Transfer, u: Transfer)
    requires t.dst + t.len <= |ram| && u.dst + u.len <= |ram|
    ensures ApplyAll(ram, rom, [t, u]) == Base.Transfer(Base.Transfer(ram, t.dst, rom, t.dev, t.len), u.dst, rom, u.dev, u.len)
  {
    var mid := Base.Transfer(ram, t.dst, rom, t.dev, t.len);
    assert [t, u][1..] == [u] && [u][1..] == [];
    assert ApplyAll(mid, rom, [u]) == ApplyAll(Base.Transfer(mid, u.dst, rom, u.dev, u.len), rom, []);
  }
}
