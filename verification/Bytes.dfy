/** Byte strings: public keys and little-endian numbers. */
module Bytes {
  import opened Machine
  import opened Arith

  type Pubkey = key: seq<u8> | |key| == 32 witness seq(32, _ => 0)

  /** `Pubkey::default()`. */
  function DefaultKey(): Pubkey {
    seq(32, _ => 0)
  }

  function Pow256(width: nat): nat {
    if width == 0 then 1 else 256 * Pow256(width - 1)
  }

  /** `to_le_bytes` of a number of the given width in bytes. */
  function LittleEndian(v: nat, width: nat): (s: seq<u8>)
    ensures |s| == width
  {
    if width == 0 then [] else [v % 256] + LittleEndian(v / 256, width - 1)
  }

  /** `from_le_bytes`. */
  function FromLittleEndian(s: seq<u8>): (v: nat)
    ensures v < Pow256(|s|)
  {
    if s == [] then 0 else s[0] + 256 * FromLittleEndian(s[1..])
  }

  lemma {:induction false} LittleEndianRoundTrip(v: nat, width: nat)
    requires v < Pow256(width)
    ensures FromLittleEndian(LittleEndian(v, width)) == v
  {
    if width > 0 {
      FloorAdjoint(v, 256, Pow256(width - 1));
      LittleEndianRoundTrip(v / 256, width - 1);
      assert LittleEndian(v, width)[1..] == LittleEndian(v / 256, width - 1);
    }
  }

  /** Every byte string of a width is the encoding of the number it decodes to. */
  lemma {:induction false} FromLittleEndianRoundTrip(s: seq<u8>)
    ensures LittleEndian(FromLittleEndian(s), |s|) == s
  {
    if s != [] {
      var tail := FromLittleEndian(s[1..]);
      var v := s[0] + 256 * tail;
      assert v % 256 == s[0] && v / 256 == tail;
      FromLittleEndianRoundTrip(s[1..]);
      assert s == [s[0]] + s[1..];
    }
  }

  // ---------------------------------------------------------------- numbers by the weight of their bytes

  function ByteAt(s: seq<u8>, k: nat): (b: nat)
    requires k < |s|
    ensures b < 0x100
  {
    s[k]
  }

  function U16At(s: seq<u8>, k: nat): (v: u16)
    requires k + 2 <= |s|
  {
    ByteAt(s, k) + 0x100 * ByteAt(s, k + 1)
  }

  function U32At(s: seq<u8>, k: nat): (v: u32)
    requires k + 4 <= |s|
  {
    ByteAt(s, k) + 0x100 * ByteAt(s, k + 1) + 0x1_0000 * ByteAt(s, k + 2) + 0x100_0000 * ByteAt(s, k + 3)
  }

  function U64At(s: seq<u8>, k: nat): (v: u64)
    requires k + 8 <= |s|
  {
    U32At(s, k) + 0x1_0000_0000 * U32At(s, k + 4)
  }

  /** In general the byte at position k weighs 256 to the k. */
  lemma {:induction false} LastByteWeighs(s: seq<u8>, b: u8)
    ensures FromLittleEndian(s + [b]) == FromLittleEndian(s) + Pow256(|s|) * b
  {
    if s == [] {
      assert [b][1..] == [] && Pow256(0) == 1;
    } else {
      assert (s + [b])[1..] == s[1..] + [b];
      LastByteWeighs(s[1..], b);
      assert 256 * (Pow256(|s| - 1) * b) == Pow256(|s|) * b;
    }
  }

  lemma TwoBytes(s: seq<u8>)
    requires |s| == 2
    ensures FromLittleEndian(s) == U16At(s, 0)
  {
    assert s[1..][1..] == [] && s[1..][0] == s[1];
  }

  lemma FourBytes(s: seq<u8>)
    requires |s| >= 4
    ensures FromLittleEndian(s) == U32At(s, 0) + 0x1_0000_0000 * FromLittleEndian(s[4..])
  {
    var (a, b, c) := (s[1..], s[2..], s[3..]);
    assert a[1..] == b && b[1..] == c && c[1..] == s[4..];
    assert a[0] == s[1] && b[0] == s[2] && c[0] == s[3];
  }

  lemma EightBytes(s: seq<u8>)
    requires |s| == 8
    ensures FromLittleEndian(s) == U64At(s, 0)
  {
    FourBytes(s);
    FourBytes(s[4..]);
    assert s[4..][4..] == [];
  }
}
