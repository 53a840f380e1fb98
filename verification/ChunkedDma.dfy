/** The loaders' transfer code, updating the request fields of a player in place. */
module ChunkedDma {
  import opened ChunkModel
  import Base = AudioBase

  class PlayerDma {
    const rom: Base.Rom
    const ram: array<byte>
    var dev: nat
    var dst: nat
    var left: nat
    var bankLoading: bool
    var bankStatus: nat
    var seqLoading: bool
    var seqStatus: nat
    var log: seq<Transfer>

    function Model(): Load
      reads this, ram
    {
      Load(dev, dst, left, bankLoading, bankStatus, ram[..], log)
    }

    predicate Valid()
      reads this
    {
      dst + left <= ram.Length
    }

    constructor (rom: Base.Rom, ram: array<byte>)
      ensures Valid() && !bankLoading && !seqLoading && log == [] && this.rom == rom && this.ram == ram
    {
      this.rom, this.ram := rom, ram;
      dev, dst, left, log := 0, 0, 0, [];
      bankLoading, bankStatus, seqLoading, seqStatus := false, 0, false, 0;
    }

    /** A transfer: a copy and an entry in the log. */
    method Copy(from: nat, to: nat, len: nat)
      requires to + len <= ram.Length
      modifies ram, this`log
      ensures ram[..] == Base.Transfer(old(ram[..]), to, rom, from, len) && log == old(log) + [Transfer(from, to, len)]
    {
      for k := 0 to len
        invariant log == old(log)
        invariant forall i :: 0 <= i < ram.Length ==>
                    ram[i] == if to <= i < to + k then rom(from + (i - to)) else old(ram[i])
      {
        ram[to + k] := rom(from + k);
      }
      log := log + [Transfer(from, to, len)];
    }

    method DmaPartialCopyAsync()
      requires Valid()
      modifies ram, this`dev, this`dst, this`left, this`log
      ensures Valid() && Model() == PartialCopy(old(Model()), rom)
      ensures left == if old(left) < 0x1000 then 0 else old(left) - 0x1000
    {
      var n := if left < CHUNK then left else CHUNK;
      left := left - n;
      Copy(dev, dst, n);
      dev := dev + n;
      dst := dst + n;
    }

    /** Begins loading size bytes of bank. */
    method BankLoadAsync(from: nat, to: nat, size: nat)
      requires to + size <= ram.Length
      modifies ram, this
      ensures Valid() && seqLoading == old(seqLoading) && seqStatus == old(seqStatus)
      ensures Model() == old(Start(Load(from, to, size, bankLoading, bankStatus, ram[..], log), rom))
    {
      dev, dst, left := from, to, size;
      bankLoading := true;
      DmaPartialCopyAsync();
      bankStatus := IN_PROGRESS;
    }

    /** The player's per-frame check after the outstanding request was served. */
    method BankServed()
      requires Valid()
      modifies ram, this
      ensures Valid() && Model() == Served(old(Model()), rom) && seqLoading == old(seqLoading) && seqStatus == old(seqStatus)
    {
      if bankLoading {
        if left == 0 {
          bankLoading := false;
          bankStatus := COMPLETE;
        } else {
          DmaPartialCopyAsync();
        }
      }
    }

    /** A short sequence is copied at once; a longer one gets its first 0x40 bytes at once and the rest
        in one asynchronous request. */
    method SequenceDmaAsync(from: nat, to: nat, size: nat)
      requires to + size <= ram.Length
      modifies ram, this`log, this`seqLoading, this`seqStatus
      ensures log == old(log) + SequenceTransfers(from, to, size)
      ensures ram[..] == Base.Transfer(old(ram[..]), to, rom, from, size)
      ensures seqStatus == (if size <= PREFIX then COMPLETE else IN_PROGRESS)
      ensures seqLoading == (old(seqLoading) || size > PREFIX)
    {
      PrefixAndRest(ram[..], rom, from, to, size);
      if size <= PREFIX {
        Copy(from, to, size);
        seqStatus := COMPLETE;
      } else {
        TransferJoins(ram[..], to, rom, from, PREFIX, size - PREFIX);
        Copy(from, to, PREFIX);
        seqLoading := true;
        Copy(from + PREFIX, to + PREFIX, size - PREFIX);
        seqStatus := IN_PROGRESS;
      }
    }

    method SequenceServed()
      modifies this`seqLoading, this`seqStatus
      ensures !seqLoading && seqStatus == if old(seqLoading) then COMPLETE else old(seqStatus)
    {
      if seqLoading {
        seqLoading := false;
        seqStatus := COMPLETE;
      }
    }
  }
}
