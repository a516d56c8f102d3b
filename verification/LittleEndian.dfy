/** Unsigned little-endian integers, as Python writes them and the firmware reads them. */
module LittleEndian {
  import opened Machine

  function Limit(width: nat): (l: nat)
    ensures l > 0
  {
    if width == 0 then 1 else 0x100 * Limit(width - 1)
  }

  /** n.to_bytes(width, byteorder="little", signed=False) for 0 <= n < Limit(width). */
  function ToBytes(n: nat, width: nat): (b: seq<byte>)
    ensures |b| == width
  {
    if width == 0 then [] else [n % 0x100] + ToBytes(n / 0x100, width - 1)
  }

  function FromBytes(b: seq<byte>): (n: nat)
    ensures n < Limit(|b|)
  {
    if b == [] then 0 else b[0] + 0x100 * FromBytes(b[1..])
  }

  lemma {:induction false} DecodeEncode(n: nat, width: nat)
    requires n < Limit(width)
    ensures FromBytes(ToBytes(n, width)) == n
    decreases width
  {
    if width > 0 {
      DecodeEncode(n / 0x100, width - 1);
      assert ToBytes(n, width)[1..] == ToBytes(n / 0x100, width - 1);
    }
  }

  lemma {:induction false} EncodeDecode(b: seq<byte>)
    ensures ToBytes(FromBytes(b), |b|) == b
    decreases |b|
  {
    if b != [] {
      EncodeDecode(b[1..]);
      assert FromBytes(b) % 0x100 == b[0] && FromBytes(b) / 0x100 == FromBytes(b[1..]);
    }
  }

  /** The least significant byte comes first. */
  lemma Digits(b: seq<byte>)
    ensures |b| == 2 ==> FromBytes(b) == b[0] as int + 0x100 * b[1] as int
    ensures |b| == 4 ==>
      FromBytes(b) ==
      b[0] as int + 0x100 * b[1] as int + 0x1_0000 * b[2] as int + 0x100_0000 * b[3] as int
  {
  }

  lemma Widths()
    ensures Limit(1) == 0x100 && Limit(2) == TWO16 && Limit(4) == TWO32 && Limit(8) == TWO64
  {
  }
}
