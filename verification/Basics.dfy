/** Small shared vocabulary: optional values, results and Go's integer types. */
module Basics {

  /** A Go pointer, slice or map that may be nil, or a lookup that may miss. */
  datatype Option<+T> = None | Some(value: T)

  /** A Go value that comes with an error. */
  datatype Result<+T, +E> = Ok(value: T) | Err(error: E)

  type Pos = n: nat | 0 < n witness 1
  type U16 = n: nat | n < 0x1_0000
  type U32 = n: nat | n < 0x1_0000_0000
  type U64 = n: nat | n < 0x1_0000_0000_0000_0000
  type I64 = n: int | -0x8000_0000_0000_0000 <= n < 0x8000_0000_0000_0000

  lemma MapInsertSize<K, V>(m: map<K, V>, k: K, v: V)
    ensures |m[k := v]| == if k in m then |m| else |m| + 1
  {
    assert m[k := v].Keys == m.Keys + {k};
  }

  lemma MapRemoveSize<K, V>(m: map<K, V>, k: K)
    ensures |m - {k}| == if k in m then |m| - 1 else |m|
  {
    assert (m - {k}).Keys == m.Keys - {k};
  }
}

/**
 Bytes and fixed-width little-endian numbers. Writing truncates to the width, as the Go
 conversions to uint16, uint32 and uint64 do (negative numbers wrap to two's complement).
 */
module Bytes {
  type Byte = b: int | 0 <= b < 256

  function Pow256(width: nat): (p: nat)
    ensures p > 0
  {
    if width == 0 then 1 else 256 * Pow256(width - 1)
  }

  function NumBytes(v: int, width: nat): (s: seq<Byte>)
    ensures |s| == width
    decreases width
  {
    if width == 0 then [] else [v % 256] + NumBytes(v / 256, width - 1)
  }

  function Num(s: seq<Byte>): (v: nat)
    ensures v < Pow256(|s|)
  {
    if s == [] then 0 else s[0] + 256 * Num(s[1..])
  }

  lemma DigitSplit(v: int, p: nat)
    requires p > 0
    ensures v % 256 + 256 * (v / 256 % p) == v % (256 * p)
  {
    var q, r := v / 256, v % 256;
    var k, m := q / p, q % p;
    assert 256 * q == 256 * (p * k) + 256 * m;
    assert 256 * (p * k) == (256 * p) * k;
    ModUnique(v, 256 * p, k, 256 * m + r);
  }

  lemma ModUnique(v: int, d: int, k: int, r: int)
    requires d > 0 && v == d * k + r && 0 <= r < d
    ensures v % d == r
  {
    var gap := k - v / d;
    assert d * gap == d * k - d * (v / d);
    assert d * gap == v % d - r;
    Small(d, gap);
  }

  lemma Small(d: int, gap: int)
    requires -d < d * gap < d && d > 0
    ensures gap == 0
  {
  }

  /** Reading back a written number gives it modulo the width; numbers in range come back unchanged. */
  lemma {:induction false} NumRoundTrip(v: int, width: nat)
    ensures Num(NumBytes(v, width)) == v % Pow256(width)
    ensures 0 <= v < Pow256(width) ==> Num(NumBytes(v, width)) == v
    decreases width
  {
    if width > 0 {
      NumRoundTrip(v / 256, width - 1);
      var s := NumBytes(v, width);
      assert s[1..] == NumBytes(v / 256, width - 1);
      DigitSplit(v, Pow256(width - 1));
    }
  }

  /** The other direction: every byte string is the number it denotes, written at its own width. */
  lemma {:induction false} BytesRoundTrip(s: seq<Byte>)
    ensures NumBytes(Num(s), |s|) == s
  {
    if s != [] {
      BytesRoundTrip(s[1..]);
      assert Num(s) % 256 == s[0] && Num(s) / 256 == Num(s[1..]);
      assert s == [s[0]] + s[1..];
    }
  }

  lemma Widths()
    ensures Pow256(1) == 0x100 && Pow256(2) == 0x1_0000
    ensures Pow256(4) == 0x1_0000_0000 && Pow256(8) == 0x1_0000_0000_0000_0000
  {
  }

  /** int64 read out of an unsigned 64-bit number. */
  function ToInt64(n: nat): int {
    if n < 0x8000_0000_0000_0000 then n else n - 0x1_0000_0000_0000_0000
  }

  /** Stores the low `width` bytes of `v` at `off`, as binary.LittleEndian.PutUint16/32/64 do. */
  method PutNum(data: array<Byte>, off: nat, v: int, width: nat)
    requires off + width <= data.Length
    modifies data
    ensures data[..] == old(data[..off]) + NumBytes(v, width) + old(data[off + width..])
  {
    var rest := v;
    ghost var was := data[..];
    for i := 0 to width
      invariant NumBytes(v, width) == data[off..off + i] + NumBytes(rest, width - i)
      invariant data[..off] == was[..off] && data[off + i..] == was[off + i..]
    {
      data[off + i] := rest % 256;
      assert NumBytes(rest, width - i) == [rest % 256] + NumBytes(rest / 256, width - i - 1);
      assert data[off..off + i + 1] == data[off..off + i] + [rest % 256];
      rest := rest / 256;
    }
    Assembled(data[..], was, off, off + width);
  }

  lemma Assembled(now: seq<Byte>, was: seq<Byte>, from: nat, to: nat)
    requires from <= to <= |now| == |was| && now[..from] == was[..from] && now[to..] == was[to..]
    ensures now == was[..from] + now[from..to] + was[to..]
  {
  }

  /** Copies `src` to `off`, as Go's copy does when there is room. */
  method PutBytes(data: array<Byte>, off: nat, src: seq<Byte>)
    requires off + |src| <= data.Length
    modifies data
    ensures data[..] == old(data[..off]) + src + old(data[off + |src|..])
  {
    forall i | 0 <= i < |src| {
      data[off + i] := src[i];
    }
    assert data[..] == data[..off] + data[off..off + |src|] + data[off + |src|..];
    assert data[off..off + |src|] == src;
  }
}
