/** Little-endian views of raw kernel memory. The drivers target x86-64, where Rust's unaligned
    reads and writes of `u32`, `usize` and pointers use exactly this byte order. */
module Bytes {

  type byte = bv8

  function ToLe32(v: bv32): (b: seq<byte>)
    ensures |b| == 4
  {
    [(v & 0xFF) as byte, ((v >> 8) & 0xFF) as byte, ((v >> 16) & 0xFF) as byte, (v >> 24) as byte]
  }

  function FromLe32(b: seq<byte>): bv32
    requires |b| == 4
  {
    (b[0] as bv32) | ((b[1] as bv32) << 8) | ((b[2] as bv32) << 16) | ((b[3] as bv32) << 24)
  }

  function ToLe64(v: bv64): (b: seq<byte>)
    ensures |b| == 8
  {
    ToLe32((v & 0xFFFF_FFFF) as bv32) + ToLe32((v >> 32) as bv32)
  }

  function FromLe64(b: seq<byte>): bv64
    requires |b| == 8
  {
    (FromLe32(b[..4]) as bv64) | ((FromLe32(b[4..]) as bv64) << 32)
  }

  /** The four bytes of memory `m` that a `u32` read at offset `at` decodes. */
  function Load32(m: seq<byte>, at: nat): bv32
    requires at + 4 <= |m|
  {
    FromLe32(m[at..at + 4])
  }

  function Load64(m: seq<byte>, at: nat): bv64
    requires at + 8 <= |m|
  {
    FromLe64(m[at..at + 8])
  }

  /** Memory `m` with the bytes `b` stored at offset `at`. */
  function Store(m: seq<byte>, at: nat, b: seq<byte>): (r: seq<byte>)
    requires at + |b| <= |m|
    ensures |r| == |m|
  {
    m[..at] + b + m[at + |b|..]
  }

  /** Two fields of the given offsets and sizes do not overlap. */
  predicate Apart(at1: nat, size1: nat, at2: nat, size2: nat) {
    at1 + size1 <= at2 || at2 + size2 <= at1
  }

  // ----- round trips

  lemma Decode32(v: bv32)
    ensures FromLe32(ToLe32(v)) == v
  {
  }

  lemma Encode32(b: seq<byte>)
    requires |b| == 4
    ensures ToLe32(FromLe32(b)) == b
  {
  }

  lemma FourWeights(b0: byte, b1: byte, b2: byte, b3: byte)
    ensures ((b0 as bv32) | ((b1 as bv32) << 8) | ((b2 as bv32) << 16) | ((b3 as bv32) << 24)) as int
            == b0 as int + (b1 as int) * 0x100 + (b2 as int) * 0x1_0000 + (b3 as int) * 0x100_0000
  {
  }

  /** Little-endian: the first byte weighs 1, each next one 256 times as much. */
  lemma ByteWeights32(b: seq<byte>)
    requires |b| == 4
    ensures FromLe32(b) as int
            == b[0] as int + (b[1] as int) * 0x100 + (b[2] as int) * 0x1_0000 + (b[3] as int) * 0x100_0000
  {
    FourWeights(b[0], b[1], b[2], b[3]);
  }

  lemma HalfWeights(lo: bv32, hi: bv32)
    ensures ((lo as bv64) | ((hi as bv64) << 32)) as int == lo as int + (hi as int) * 0x1_0000_0000
  {
  }

  lemma ByteWeights64(b: seq<byte>)
    requires |b| == 8
    ensures FromLe64(b) as int == FromLe32(b[..4]) as int + (FromLe32(b[4..]) as int) * 0x1_0000_0000
  {
    HalfWeights(FromLe32(b[..4]), FromLe32(b[4..]));
  }

  lemma JoinHalves(v: bv64)
    ensures ((v & 0xFFFF_FFFF) as bv32 as bv64) | (((v >> 32) as bv32 as bv64) << 32) == v
  {
  }

  lemma Decode64(v: bv64)
    ensures FromLe64(ToLe64(v)) == v
  {
    var lo, hi := (v & 0xFFFF_FFFF) as bv32, (v >> 32) as bv32;
    assert ToLe64(v)[..4] == ToLe32(lo) && ToLe64(v)[4..] == ToLe32(hi);
    Decode32(lo);
    Decode32(hi);
    JoinHalves(v);
  }

  /** A store is seen by a read of the same bytes and by no read of bytes apart from it. */
  lemma StoreFrame(m: seq<byte>, at: nat, b: seq<byte>, other: nat, size: nat)
    requires at + |b| <= |m| && other + size <= |m|
    ensures Store(m, at, b)[at..at + |b|] == b
    ensures Apart(at, |b|, other, size) ==> Store(m, at, b)[other..other + size] == m[other..other + size]
  {
    var r := Store(m, at, b);
    assert r[at..at + |b|] == b;
    if Apart(at, |b|, other, size) {
      assert r[other..other + size] == m[other..other + size];
    }
  }

  /** Writing back the value just read changes nothing. */
  lemma StoreLoaded32(m: seq<byte>, at: nat)
    requires at + 4 <= |m|
    ensures Store(m, at, ToLe32(Load32(m, at))) == m
  {
    Encode32(m[at..at + 4]);
  }

  // ----- writes through a pointer

  /** `ptr.write(...)` of the bytes `b` at offset `at` of the allocation `a`. */
  method WriteBytes(a: array<byte>, at: nat, b: seq<byte>)
    requires at + |b| <= a.Length
    modifies a
    ensures a[..] == Store(old(a[..]), at, b)
  {
    forall i | 0 <= i < |b| {
      a[at + i] := b[i];
    }
    assert a[..] == Store(old(a[..]), at, b);
  }
}
