/** What every part of the audio engine shares: bytes, ROM, transfers, alignment. */
module AudioBase {
  type byte = x: int | 0 <= x < 0x100 witness 0
  type Rom = nat -> byte

  /** A PI transfer: len bytes of ROM from base land at p. */
  function Transfer(ram: seq<byte>, p: nat, rom: Rom, base: nat, len: nat): (r: seq<byte>)
    ensures |r| == |ram|
  {
    seq(|ram|, k requires 0 <= k < |ram| => if p <= k < p + len then rom(base + (k - p)) else ram[k])
  }

  function Align16(n: nat): (r: nat)
    ensures n <= r < n + 0x10 && r % 0x10 == 0
  {
    (n + 0xF) / 0x10 * 0x10
  }

  function Min(a: int, b: int): int {
    if a < b then a else b
  }
}
