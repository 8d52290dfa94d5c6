/**
 * idLib helpers: byte-order swapping, the six-bit group packing used by
 * Base64, and the warning list and error escalation of idLib.
 *
 * Values are modelled by their two's-complement bit patterns (`bv16` for a
 * `short`, `bv32` for an `int`); byte buffers are arrays of `bv8`.
 */
module Lib {

  // ------------------------------------------------------------------
  // Byte swapping of scalars
  // ------------------------------------------------------------------

  /** ShortSwap: the two bytes of a 16-bit value exchanged. */
  function ShortSwap(l: bv16): (r: bv16)
    ensures r & 0xFF == l >> 8
    ensures r >> 8 == l & 0xFF
  {
    ((l & 0xFF) << 8) | ((l >> 8) & 0xFF)
  }

  lemma ShortSwapInvolution(l: bv16)
    ensures ShortSwap(ShortSwap(l)) == l
  {
  }

  /** LongSwap: the four bytes of a 32-bit value in reverse order. */
  function LongSwap(l: bv32): (r: bv32)
    ensures r & 0xFF == l >> 24
    ensures (r >> 8) & 0xFF == (l >> 16) & 0xFF
    ensures (r >> 16) & 0xFF == (l >> 8) & 0xFF
    ensures r >> 24 == l & 0xFF
  {
    ((l & 0xFF) << 24) | (((l >> 8) & 0xFF) << 16) | (((l >> 16) & 0xFF) << 8) | ((l >> 24) & 0xFF)
  }

  lemma LongSwapInvolution(l: bv32)
    ensures LongSwap(LongSwap(l)) == l
  {
  }

  // ------------------------------------------------------------------
  // Swap_Init: the host's byte order selects the conversion routines
  // ------------------------------------------------------------------

  datatype Conversion = Swap | NoSwap
  datatype SixtetsVariant = LittleSixtets | BigSixtets

  /** The function pointers Swap_Init installs (the float ones are not modelled). */
  datatype SwapTable = SwapTable(
    bigShort: Conversion, littleShort: Conversion,
    bigLong: Conversion, littleLong: Conversion,
    bigRevBytes: Conversion, littleRevBytes: Conversion,
    littleBitField: Conversion, sixtets: SixtetsVariant)

  function SwapInit(littleEndianHost: bool): SwapTable
  {
    if littleEndianHost then
      SwapTable(Swap, NoSwap, Swap, NoSwap, Swap, NoSwap, NoSwap, LittleSixtets)
    else
      SwapTable(NoSwap, Swap, NoSwap, Swap, NoSwap, Swap, Swap, BigSixtets)
  }

  function ApplyShort(c: Conversion, l: bv16): bv16 { if c == Swap then ShortSwap(l) else l }
  function ApplyLong(c: Conversion, l: bv32): bv32 { if c == Swap then LongSwap(l) else l }

  /** The 16-bit value a host reads from the two bytes b0, b1 stored in that order. */
  function HostShort(littleEndianHost: bool, b0: bv16, b1: bv16): bv16
    requires b0 < 256 && b1 < 256
  {
    if littleEndianHost then (b1 << 8) | b0 else (b0 << 8) | b1
  }

  function HostLong(littleEndianHost: bool, b0: bv32, b1: bv32, b2: bv32, b3: bv32): bv32
    requires b0 < 256 && b1 < 256 && b2 < 256 && b3 < 256
  {
    if littleEndianHost then (b3 << 24) | (b2 << 16) | (b1 << 8) | b0
    else (b0 << 24) | (b1 << 16) | (b2 << 8) | b3
  }

  /**
   * Whatever the host, BigShort applied to what the host read from memory
   * gives the big-endian reading of the bytes, and LittleShort the
   * little-endian one.
   */
  lemma SwapInitDecodesShort(le: bool, b0: bv16, b1: bv16)
    requires b0 < 256 && b1 < 256
    ensures ApplyShort(SwapInit(le).bigShort, HostShort(le, b0, b1)) == (b0 << 8) | b1
    ensures ApplyShort(SwapInit(le).littleShort, HostShort(le, b0, b1)) == (b1 << 8) | b0
  {
    if le {
      assert SwapInit(le).bigShort == Swap;
    } else {
      assert SwapInit(le).littleShort == Swap;
    }
  }

  /** The same for BigLong and LittleLong. */
  lemma SwapInitDecodesLong(le: bool, b0: bv32, b1: bv32, b2: bv32, b3: bv32)
    requires b0 < 256 && b1 < 256 && b2 < 256 && b3 < 256
    ensures ApplyLong(SwapInit(le).bigLong, HostLong(le, b0, b1, b2, b3)) == (b0 << 24) | (b1 << 16) | (b2 << 8) | b3
    ensures ApplyLong(SwapInit(le).littleLong, HostLong(le, b0, b1, b2, b3)) == (b3 << 24) | (b2 << 16) | (b1 << 8) | b0
  {
    if le {
      assert SwapInit(le).bigLong == Swap;
    } else {
      assert SwapInit(le).littleLong == Swap;
    }
  }

  /** On either host exactly one of each Big/Little pair swaps. */
  lemma SwapInitPairsOneSwap(le: bool)
    ensures var t := SwapInit(le);
      && (t.bigShort == Swap) != (t.littleShort == Swap)
      && (t.bigLong == Swap) != (t.littleLong == Swap)
      && (t.bigRevBytes == Swap) != (t.littleRevBytes == Swap)
      && (t.littleBitField == Swap) == (t.littleRevBytes == Swap)
      && (t.sixtets == LittleSixtets) == le
  {
  }

  // ------------------------------------------------------------------
  // RevBytesSwap: reverse the bytes of each element in place
  // ------------------------------------------------------------------

  /** `s` with the bytes in [lo, hi) reversed. */
  function ReverseRange<T>(s: seq<T>, lo: nat, hi: nat): (r: seq<T>)
    requires lo <= hi <= |s|
    ensures |r| == |s|
  {
    seq(|s|, k requires 0 <= k < |s| => if lo <= k < hi then s[lo + hi - 1 - k] else s[k])
  }

  /**
   * Reverse `count` windows of `size` bytes, the first at `pos` and each
   * next one `stride` bytes further on.
   */
  function RevWindows<T>(s: seq<T>, pos: nat, size: nat, count: nat, stride: nat): (r: seq<T>)
    requires stride <= size && pos + count * size <= |s|
    ensures |r| == |s|
    decreases count
  {
    if count == 0 then s
    else
      MulPred(count, size);
      RevWindows(ReverseRange(s, pos, pos + size), pos + stride, size, count - 1, stride)
  }

  /**
   * How far RevBytesSwap's pointer moves per element: the inner loop leaves
   * it size/2 bytes in, then `p += elsize >> 1` adds size/2 again, which is
   * one byte short of the element size when that size is odd.
   */
  function AsWrittenStride(size: nat): (st: nat)
    ensures st <= size && (st == size <==> size % 2 == 0)
  {
    2 * (size / 2)
  }

  /** The intended effect: every element's bytes reversed, elements back to back. */
  function RevBytesPerElement<T>(s: seq<T>, size: nat, count: nat): (r: seq<T>)
    requires count * size <= |s|
    ensures |r| == |s|
  {
    RevWindows(s, 0, size, count, size)
  }

  /** `s` with the outer ends [lo, p) and (q, hi) of the range [lo, hi) reversed. */
  function SwappedEnds<T>(s: seq<T>, lo: nat, hi: nat, p: nat, q: int): (r: seq<T>)
    requires lo <= p && p + q == lo + hi - 1 && p <= q + 1 && hi <= |s|
    ensures |r| == |s|
  {
    seq(|s|, k requires 0 <= k < |s| => if lo <= k < p || q < k < hi then s[lo + hi - 1 - k] else s[k])
  }

  lemma SwappedEndsStep<T>(s: seq<T>, lo: nat, hi: nat, p: nat, q: nat)
    requires lo <= p < q && p + q == lo + hi - 1 && hi <= |s|
    ensures SwappedEnds(s, lo, hi, p, q)[p := s[q]][q := s[p]] == SwappedEnds(s, lo, hi, p + 1, q - 1)
  {
  }

  /** Swap the bytes at p and q inward while p < q; returns where p stopped. */
  method SwapInward(a: array<bv8>, p0: nat, q0: int) returns (p: nat)
    requires p0 <= q0 + 1 <= a.Length
    modifies a
    ensures p == p0 + (q0 + 1 - p0) / 2
    ensures a[..] == ReverseRange(old(a[..]), p0, q0 + 1)
  {
    ghost var s := a[..];
    ghost var hi := q0 + 1;
    p := p0;
    var q := q0;
    while p < q
      invariant p0 <= p && p + q == p0 + hi - 1 && p <= q + 1
      invariant a[..] == SwappedEnds(s, p0, hi, p, q)
    {
      // the source exchanges the two bytes with three XORs
      assert a[p] == s[p] && a[q] == s[q];
      ExchangeXor(a, p, q);
      SwappedEndsStep(s, p0, hi, p, q);
      p := p + 1;
      q := q - 1;
    }
    assert a[..] == ReverseRange(s, p0, hi);
  }

  function Xor(x: bv8, y: bv8): bv8 { x ^ y }

  lemma XorSwap(x: bv8, y: bv8)
    ensures Xor(y, Xor(x, y)) == x && Xor(Xor(x, y), x) == y
  {
  }

  /** `*p ^= *q; *q ^= *p; *p ^= *q;` exchanges the two bytes. */
  method ExchangeXor(a: array<bv8>, p: nat, q: nat)
    requires p < q < a.Length
    modifies a
    ensures a[..] == old(a[..])[p := old(a[q])][q := old(a[p])]
  {
    var u, v := a[p], a[q];
    XorSwap(u, v);
    var x := Xor(u, v);
    a[p] := x;
    var y := Xor(v, x);
    a[q] := y;
    a[p] := Xor(x, y);
  }

  /**
   * RevBytesSwap as written: for elsize 2 a pairwise exchange, otherwise the
   * inward swap loop per element followed by `p += elsize >> 1`.
   */
  method RevBytesSwap(a: array<bv8>, elsize: nat, elcount: nat)
    requires elsize * elcount <= a.Length
    modifies a
    ensures a[..] == RevWindows(old(a[..]), 0, elsize, elcount, AsWrittenStride(elsize))
  {
    if elsize == 2 {
      ExchangePairs(a, elcount);
    } else {
      SwapElements(a, elsize, elcount);
    }
  }

  /** The two-byte case: exchange the bytes of each pair. */
  method ExchangePairs(a: array<bv8>, elcount: nat)
    requires 2 * elcount <= a.Length
    modifies a
    ensures a[..] == RevWindows(old(a[..]), 0, 2, elcount, 2)
  {
    ghost var goal := RevWindows(a[..], 0, 2, elcount, 2);
    var p: nat := 0;
    var n: nat := elcount;
    while n > 0
      invariant p + 2 * n <= a.Length
      invariant RevWindows(a[..], p, 2, n, 2) == goal
    {
      ghost var before := a[..];
      ExchangeXor(a, p, p + 1);
      ExchangeIsReverse(before, p);
      RevWindowsStep(before, p, 2, n, 2);
      p := p + 2;
      n := n - 1;
    }
  }

  /** Exchanging two neighbours reverses the two-byte window they form. */
  lemma ExchangeIsReverse<T>(s: seq<T>, p: nat)
    requires p + 2 <= |s|
    ensures s[p := s[p + 1]][p + 1 := s[p]] == ReverseRange(s, p, p + 2)
  {
  }

  /** Every other size: swap inward, then step on by half the size. */
  method SwapElements(a: array<bv8>, elsize: nat, elcount: nat)
    requires elsize * elcount <= a.Length
    modifies a
    ensures a[..] == RevWindows(old(a[..]), 0, elsize, elcount, AsWrittenStride(elsize))
  {
    ghost var goal := RevWindows(a[..], 0, elsize, elcount, AsWrittenStride(elsize));
    var p: nat := 0;
    var n: nat := elcount;
    while n > 0
      invariant p + n * elsize <= a.Length
      invariant RevWindows(a[..], p, elsize, n, AsWrittenStride(elsize)) == goal
    {
      ghost var before := a[..];
      var start := p;
      RevWindowsStep(before, p, elsize, n, AsWrittenStride(elsize));
      p := SwapInward(a, p, p + elsize - 1);
      p := p + elsize / 2;
      assert p == start + AsWrittenStride(elsize);
      n := n - 1;
    }
  }

  /** One step of RevWindows, with the bound for the remaining windows. */
  lemma RevWindowsStep<T>(s: seq<T>, pos: nat, size: nat, count: nat, stride: nat)
    requires stride <= size && pos + count * size <= |s| && count > 0
    ensures pos + size <= |s| && pos + stride + (count - 1) * size <= |s|
    ensures RevWindows(s, pos, size, count, stride)
         == RevWindows(ReverseRange(s, pos, pos + size), pos + stride, size, count - 1, stride)
  {
    MulPred(count, size);
  }

  /** off is a whole number of size-byte elements. */
  predicate IsMultiple(off: nat, size: nat)
    decreases off
  {
    off == 0 || (0 < size <= off && IsMultiple(off - size, size))
  }

  lemma {:induction false} MultipleOf(j: nat, size: nat)
    requires size > 0
    ensures IsMultiple(j * size, size)
  {
    if j > 0 {
      MulPred(j, size);
      MultipleOf(j - 1, size);
    }
  }

  /**
   * Byte i of the element at offset off of the per-element reversal is byte
   * size-1-i of that element.
   */
  lemma {:induction false} RevBytesPerElementAt<T>(s: seq<T>, pos: nat, size: nat, count: nat, off: nat, i: nat)
    requires pos + count * size <= |s| && IsMultiple(off, size) && off + size <= count * size && i < size
    ensures RevWindows(s, pos, size, count, size)[pos + off + i] == s[pos + off + size - 1 - i]
    decreases count
  {
    MulPred(count, size);
    RevWindowsStep(s, pos, size, count, size);
    var s' := ReverseRange(s, pos, pos + size);
    if off == 0 {
      RevWindowsOutside(s', pos + size, size, count - 1, size, pos + i);
    } else {
      RevBytesPerElementAt(s', pos + size, size, count - 1, off - size, i);
    }
  }

  /** One window fewer: count * size splits off its last size. */
  lemma MulPred(count: nat, size: nat)
    requires count > 0
    ensures count * size == (count - 1) * size + size
  {
  }

  lemma MulLeNat(x: nat, y: nat, a: nat)
    requires x <= y
    ensures x * a <= y * a
  {
    assert y * a == x * a + (y - x) * a;
  }

  /** Bytes before the first window or past the last are never touched. */
  lemma {:induction false} RevWindowsOutside<T>(s: seq<T>, pos: nat, size: nat, count: nat, stride: nat, k: nat)
    requires stride <= size && pos + count * size <= |s| && k < |s|
    requires k < pos || k >= pos + count * size
    ensures RevWindows(s, pos, size, count, stride)[k] == s[k]
    decreases count
  {
    if count > 0 {
      MulPred(count, size);
      RevWindowsOutside(ReverseRange(s, pos, pos + size), pos + stride, size, count - 1, stride, k);
    }
  }

  /** RevBytesSwap touches nothing beyond elsize * elcount bytes. */
  lemma RevBytesSwapFrame(s: seq<bv8>, elsize: nat, elcount: nat, k: nat)
    requires elsize * elcount <= k < |s|
    ensures RevWindows(s, 0, elsize, elcount, AsWrittenStride(elsize))[k] == s[k]
  {
    RevWindowsOutside(s, 0, elsize, elcount, AsWrittenStride(elsize), k);
  }

  /** For even element sizes (and size 1) the code does what its comment says. */
  lemma RevBytesSwapEvenSizeCorrect(s: seq<bv8>, elsize: nat, elcount: nat, j: nat, i: nat)
    requires elsize * elcount <= |s| && (elsize % 2 == 0 || elsize == 1)
    requires j < elcount && i < elsize
    ensures j * elsize + elsize <= elcount * elsize
    ensures RevWindows(s, 0, elsize, elcount, AsWrittenStride(elsize))[j * elsize + i]
         == s[j * elsize + elsize - 1 - i]
  {
    if elsize == 1 {
      assert i == 0;
      RevWindowsIdentity(s, 0, elcount, AsWrittenStride(1), j);
      MulLeNat(j + 1, elcount, 1);
    } else {
      MultipleOf(j, elsize);
      MulLeNat(j + 1, elcount, elsize);
      MulPred(j + 1, elsize);
      RevBytesPerElementAt(s, 0, elsize, elcount, j * elsize, i);
    }
  }

  /** Reversing one-byte windows changes nothing. */
  lemma {:induction false} RevWindowsIdentity<T>(s: seq<T>, pos: nat, count: nat, stride: nat, k: nat)
    requires stride <= 1 && pos + count <= |s| && k < |s|
    ensures RevWindows(s, pos, 1, count, stride)[k] == s[k]
    decreases count
  {
    if count > 0 {
      assert ReverseRange(s, pos, pos + 1) == s;
      RevWindowsIdentity(s, pos + stride, count - 1, stride, k);
    }
  }

  /**
   * With three-byte elements the second reversal starts one byte early:
   * [1,2,3, 4,5,6] becomes [3,2,5,4,1,6] instead of [3,2,1,6,5,4].
   */
  lemma RevBytesSwapOddSizeMisaligned()
    ensures RevWindows([1, 2, 3, 4, 5, 6], 0, 3, 2, AsWrittenStride(3)) == [3, 2, 5, 4, 1, 6]
    ensures RevBytesPerElement([1, 2, 3, 4, 5, 6], 3, 2) == [3, 2, 1, 6, 5, 4]
  {
    var s: seq<int> := [1, 2, 3, 4, 5, 6];
    assert AsWrittenStride(3) == 2;
    var s1 := ReverseRange(s, 0, 3);
    assert s1 == [3, 2, 1, 4, 5, 6];
    assert ReverseRange(s1, 2, 5) == [3, 2, 5, 4, 1, 6];
    assert ReverseRange(s1, 3, 6) == [3, 2, 1, 6, 5, 4];
    assert RevWindows(ReverseRange(s1, 2, 5), 4, 3, 0, 2) == [3, 2, 5, 4, 1, 6];
    assert RevWindows(ReverseRange(s1, 3, 6), 6, 3, 0, 3) == [3, 2, 1, 6, 5, 4];
  }

  // ------------------------------------------------------------------
  // RevBitFieldSwap
  // ------------------------------------------------------------------

  function Bit(v: bv8, j: nat): bv8
    requires j < 8
  {
    (v >> j) & 1
  }

  /** The intended per-byte operation: bit j moves to bit 7 - j. */
  function Rev8(v: bv8): (r: bv8)
    ensures forall j: nat :: j < 8 ==> Bit(r, j) == Bit(v, 7 - j)
  {
    ((v & 1) << 7) | ((v & 2) << 5) | ((v & 4) << 3) | ((v & 8) << 1) |
    ((v & 16) >> 1) | ((v & 32) >> 3) | ((v & 64) >> 5) | ((v & 128) >> 7)
  }

  lemma Rev8Involution(v: bv8)
    ensures Rev8(Rev8(v)) == v
  {
  }

  /** What the bit loop has collected after k passes: bits 1..k of v, reversed. */
  function BitsCollected(v: bv8, k: nat): bv8
    requires k <= 8
  {
    if k == 0 then 0 else (BitsCollected(v, k - 1) << 1) | ((v >> k) & 1)
  }

  lemma BitsCollectedAll(v: bv8)
    ensures BitsCollected(v, 8) == Rev8(v) << 1
  {
    assert BitsCollected(v, 1) == (v >> 1) & 1;
    assert BitsCollected(v, 2) == (BitsCollected(v, 1) << 1) | ((v >> 2) & 1);
    assert BitsCollected(v, 3) == (BitsCollected(v, 2) << 1) | ((v >> 3) & 1);
    assert BitsCollected(v, 4) == (BitsCollected(v, 3) << 1) | ((v >> 4) & 1);
    assert BitsCollected(v, 5) == (BitsCollected(v, 4) << 1) | ((v >> 5) & 1);
    assert BitsCollected(v, 6) == (BitsCollected(v, 5) << 1) | ((v >> 6) & 1);
    assert BitsCollected(v, 7) == (BitsCollected(v, 6) << 1) | ((v >> 7) & 1);
    assert BitsCollected(v, 8) == (BitsCollected(v, 7) << 1) | ((v >> 8) & 1);
  }

  /**
   * The bit loop of RevBitFieldSwap as written: it shifts v before reading
   * its low bit, so bit 0 is lost and the result is the reversal shifted
   * left by one.
   */
  method BitFieldByte(v0: bv8) returns (t: bv8)
    ensures t == Rev8(v0) << 1
  {
    var v := v0;
    t := 0;
    ghost var k := 0;
    for i := 8 downto 0
      invariant k == 8 - i
      invariant v == v0 >> k
      invariant t == BitsCollected(v0, k)
    {
      t := t << 1;
      v := v >> 1;
      t := t | (v & 1);
      k := k + 1;
    }
    BitsCollectedAll(v0);
  }

  /** The byte 0x01 comes out as 0x00 rather than 0x80. */
  lemma BitFieldByteDropsBitZero()
    ensures Rev8(1) << 1 == 0 && Rev8(1) == 0x80
  {
  }

  /** What the bit loop makes of one byte. */
  function ShiftedRev8(v: bv8): bv8 { Rev8(v) << 1 }

  /** The first n bytes passed through the bit loop. */
  function BitLoopPrefix(s: seq<bv8>, n: nat): (r: seq<bv8>)
    requires n <= |s|
    ensures |r| == |s|
  {
    seq(|s|, k requires 0 <= k < |s| => if k < n then ShiftedRev8(s[k]) else s[k])
  }

  /**
   * RevBitFieldSwap (installed only on big-endian hosts, where
   * LittleRevBytes is RevBytesSwap): reverse the element's bytes, then run
   * the bit loop on each byte.
   */
  method RevBitFieldSwap(a: array<bv8>, elsize: nat)
    requires elsize <= a.Length
    modifies a
    ensures a[..] == BitLoopPrefix(ReverseRange(old(a[..]), 0, elsize), elsize)
  {
    RevBytesSwap(a, elsize, 1);
    assert a[..] == ReverseRange(old(a[..]), 0, elsize) by {
      assert RevWindows(ReverseRange(old(a[..]), 0, elsize), AsWrittenStride(elsize), elsize, 0, AsWrittenStride(elsize))
          == ReverseRange(old(a[..]), 0, elsize);
    }
    ghost var mid := a[..];
    var p := 0;
    while p < elsize
      invariant p <= elsize
      invariant a[..] == BitLoopPrefix(mid, p)
    {
      var t := BitFieldByte(a[p]);
      a[p] := t;
      p := p + 1;
    }
  }

  // ------------------------------------------------------------------
  // Six-bit groups (the 24-bit packing of section 4 of RFC 4648)
  // ------------------------------------------------------------------

  /**
   * SixtetsForIntLittle. On a little-endian host b[0..2] are the low three
   * bytes of src; they are read as one 24-bit group with b[0] most
   * significant and cut into four six-bit values from the top. Bytes are
   * held in `bv32` cells.
   */
  function SixtetsForIntLittle(src: bv32): (out: seq<bv32>)
    ensures |out| == 4 && out[0] < 64 && out[1] < 64 && out[2] < 64 && out[3] < 64
  {
    var b0, b1, b2 := src & 0xFF, (src >> 8) & 0xFF, (src >> 16) & 0xFF;
    [ (b0 & 0xFC) >> 2,
      ((b0 & 0x3) << 4) + ((b1 & 0xF0) >> 4),
      ((b1 & 0xF) << 2) + ((b2 & 0xC0) >> 6),
      b2 & 0x3F ]
  }

  /** The 24-bit group b[0] b[1] b[2] of section 4 of RFC 4648, first byte on top. */
  function Group24(src: bv32): bv32
  {
    ((src & 0xFF) << 16) | (((src >> 8) & 0xFF) << 8) | ((src >> 16) & 0xFF)
  }

  /** Each output is the next six bits of the group, most significant first. */
  lemma SixtetsLittleAreGroupBits(src: bv32)
    ensures var out, g := SixtetsForIntLittle(src), Group24(src);
      out[0] == (g >> 18) & 0x3F && out[1] == (g >> 12) & 0x3F &&
      out[2] == (g >> 6) & 0x3F && out[3] == g & 0x3F
  {
  }

  /**
   * IntForSixtetsLittle: the inverse packing, ORed into the bytes of a zero
   * int; each byte store keeps only eight bits.
   */
  function IntForSixtetsLittle(inp: seq<bv32>): bv32
    requires |inp| == 4
  {
    var b0 := ((inp[0] << 2) & 0xFF) | ((inp[1] & 0x30) >> 4);
    var b1 := ((inp[1] & 0xF) << 4) | ((inp[2] & 0x3C) >> 2);
    var b2 := ((inp[2] & 0x3) << 6) | (inp[3] & 0xFF);
    (b2 << 16) | (b1 << 8) | b0
  }

  /** Unpacking restores the low three bytes of src; the top byte comes back zero. */
  lemma SixtetsLittleRoundTrip(src: bv32)
    ensures IntForSixtetsLittle(SixtetsForIntLittle(src)) == src & 0xFF_FFFF
  {
  }

  /** Packing four six-bit values and cutting them again gives them back. */
  lemma IntForSixtetsLittleRoundTrip(inp: seq<bv32>)
    requires |inp| == 4 && inp[0] < 64 && inp[1] < 64 && inp[2] < 64 && inp[3] < 64
    ensures SixtetsForIntLittle(IntForSixtetsLittle(inp)) == inp
  {
    PackedBytes(inp);
    UnpackBytes(inp[0], inp[1], inp[2], inp[3]);
  }

  /** Cutting the three stored bytes again yields the four six-bit values. */
  lemma UnpackBytes(x0: bv32, x1: bv32, x2: bv32, x3: bv32)
    requires x0 < 64 && x1 < 64 && x2 < 64 && x3 < 64
    ensures var b0, b1, b2 := ((x0 << 2) & 0xFF) | ((x1 & 0x30) >> 4), ((x1 & 0xF) << 4) | ((x2 & 0x3C) >> 2),
                              ((x2 & 0x3) << 6) | x3;
      && (b0 & 0xFC) >> 2 == x0
      && ((b0 & 0x3) << 4) + ((b1 & 0xF0) >> 4) == x1
      && ((b1 & 0xF) << 2) + ((b2 & 0xC0) >> 6) == x2
      && b2 & 0x3F == x3
  {
  }

  /** The packed int holds the three stored bytes at bits 0, 8 and 16. */
  lemma PackedBytes(inp: seq<bv32>)
    requires |inp| == 4 && inp[3] < 64
    ensures var v := IntForSixtetsLittle(inp);
      && v & 0xFF == ((inp[0] << 2) & 0xFF) | ((inp[1] & 0x30) >> 4)
      && (v >> 8) & 0xFF == ((inp[1] & 0xF) << 4) | ((inp[2] & 0x3C) >> 2)
      && (v >> 16) & 0xFF == ((inp[2] & 0x3) << 6) | inp[3]
  {
  }

  /** The six-bit fields of src, least significant first. */
  function SixtetsBig(src: bv32): (out: seq<bv32>)
    ensures |out| == 4 && out[0] < 64 && out[1] < 64 && out[2] < 64 && out[3] < 64
  {
    [ src & 0x3F, (src >> 6) & 0x3F, (src >> 12) & 0x3F, (src >> 18) & 0x3F ]
  }

  /**
   * SixtetsForIntBig: four passes of `out[i] = src & 0x3f; src >>= 6`.
   * The source shifts a signed int arithmetically; only the low 24 bits
   * are ever read, so a logical shift gives the same values.
   */
  method SixtetsForIntBig(src0: bv32) returns (out: seq<bv32>)
    ensures out == SixtetsBig(src0)
  {
    var src := src0;
    out := [];
    var i := 0;
    while i < 4
      invariant 0 <= i <= 4 && out == SixtetsBig(src0)[..i]
      invariant i < 4 ==> src == SixtetPassInput(src0, i)
    {
      SixtetPass(src0, i);
      assert SixtetsBig(src0)[..i + 1] == SixtetsBig(src0)[..i] + [SixtetsBig(src0)[i]];
      out := out + [src & 0x3F];
      src := src >> 6;
      i := i + 1;
    }
  }

  /** The value src holds at the start of pass i of SixtetsForIntBig's loop. */
  function SixtetPassInput(x: bv32, i: nat): bv32
    requires i < 4
  {
    if i == 0 then x else if i == 1 then x >> 6 else if i == 2 then x >> 12 else x >> 18
  }

  /** Pass i emits field i, and shifting its input by six gives the next pass's input. */
  lemma SixtetPass(x: bv32, i: nat)
    requires i < 4
    ensures SixtetsBig(x)[i] == SixtetPassInput(x, i) & 0x3F
    ensures i < 3 ==> SixtetPassInput(x, i) >> 6 == SixtetPassInput(x, i + 1)
  {
    if i == 1 {
      assert (x >> 6) >> 6 == x >> 12;
    } else if i == 2 {
      assert (x >> 12) >> 6 == x >> 18;
    }
  }

  /** IntForSixtetsBig: in[0] | in[1] << 6 | in[2] << 12 | in[3] << 18. */
  function IntForSixtetsBig(inp: seq<bv32>): bv32
    requires |inp| == 4
  {
    PackBig(inp[0], inp[1], inp[2], inp[3])
  }

  function PackBig(x0: bv32, x1: bv32, x2: bv32, x3: bv32): bv32
  {
    x0 | (x1 << 6) | (x2 << 12) | (x3 << 18)
  }

  /** The big-endian variant round-trips src modulo 2^24. */
  lemma SixtetsBigRoundTrip(src: bv32)
    ensures IntForSixtetsBig(SixtetsBig(src)) == src & 0xFF_FFFF
  {
  }

  lemma PackBigFields(x0: bv32, x1: bv32, x2: bv32, x3: bv32)
    requires x0 < 64 && x1 < 64 && x2 < 64 && x3 < 64
    ensures var v := PackBig(x0, x1, x2, x3);
      v & 0x3F == x0 && (v >> 6) & 0x3F == x1 && (v >> 12) & 0x3F == x2 && (v >> 18) & 0x3F == x3
  {
  }

  lemma IntForSixtetsBigRoundTrip(inp: seq<bv32>)
    requires |inp| == 4 && inp[0] < 64 && inp[1] < 64 && inp[2] < 64 && inp[3] < 64
    ensures SixtetsBig(IntForSixtetsBig(inp)) == inp
  {
    PackBigFields(inp[0], inp[1], inp[2], inp[3]);
  }

  // ------------------------------------------------------------------
  // Warnings and errors
  // ------------------------------------------------------------------

  const MAX_WARNING_LIST: nat := 256

  datatype ErrorParm = ERP_NONE | ERP_FATAL | ERP_DROP | ERP_DISCONNECT

  /** How idLib::Error leaves: process exit, a thrown idException, or Sys_Error. */
  datatype ErrorExit = Quit | Thrown(code: ErrorParm) | FatalExit

  /** The static state idLib keeps for warnings and errors. */
  class LibState {
    var warningList: seq<string>
    var errorEntered: ErrorParm
    var lastErrorTime: int
    var errorCount: int

    constructor ()
      ensures warningList == [] && errorEntered == ERP_NONE
      ensures lastErrorTime == 0 && errorCount == 0
    {
      warningList := [];
      errorEntered := ERP_NONE;
      lastErrorTime := 0;
      errorCount := 0;
    }

    /** ClearWarnings empties the list. */
    method ClearWarnings()
      modifies this
      ensures warningList == []
      ensures errorEntered == old(errorEntered) && lastErrorTime == old(lastErrorTime)
      ensures errorCount == old(errorCount)
    {
      warningList := [];
    }

    /**
     * idLib::Warning: off the main thread nothing is recorded; otherwise the
     * message is added, once, while fewer than MAX_WARNING_LIST are held.
     */
    method Warning(msg: string, isMainThread: bool)
      modifies this
      ensures warningList == (if isMainThread && |old(warningList)| < MAX_WARNING_LIST && msg !in old(warningList)
                              then old(warningList) + [msg] else old(warningList))
      ensures errorEntered == old(errorEntered) && lastErrorTime == old(lastErrorTime)
      ensures errorCount == old(errorCount)
    {
      if !isMainThread {
        return;
      }
      if |warningList| < MAX_WARNING_LIST {
        if msg !in warningList {
          warningList := warningList + [msg];
        }
      }
    }

    /**
     * idLib::Error at clock time `currentTime`. A recursive error while a
     * fatal one is being handled quits the process. Otherwise the code is
     * ERP_FATAL when fs_copyfiles is set, when already inside an error, or
     * when this is the fourth or later error each under 100 ms after the
     * previous one; else ERP_DROP, which throws and clears errorEntered.
     */
    method Error(currentTime: int, copyFiles: bool) returns (exit: ErrorExit)
      modifies this
      ensures old(errorEntered) == ERP_FATAL ==>
        (exit == Quit && errorEntered == old(errorEntered) &&
         lastErrorTime == old(lastErrorTime) && errorCount == old(errorCount))
      ensures old(errorEntered) != ERP_FATAL ==>
        (lastErrorTime == currentTime &&
         errorCount == (if currentTime - old(lastErrorTime) < 100 then old(errorCount) + 1 else 0))
      ensures old(errorEntered) != ERP_FATAL ==>
        (var fatal := copyFiles || old(errorEntered) != ERP_NONE || errorCount > 3;
         exit == (if fatal then FatalExit else Thrown(ERP_DROP)) &&
         errorEntered == (if fatal then ERP_FATAL else ERP_NONE))
      ensures warningList == old(warningList)
    {
      var code := ERP_DROP;
      if copyFiles {
        code := ERP_FATAL;
      }
      if errorEntered != ERP_NONE {
        if errorEntered == ERP_FATAL {
          return Quit;
        }
        code := ERP_FATAL;
      }
      if currentTime - lastErrorTime < 100 {
        errorCount := errorCount + 1;
        if errorCount > 3 {
          code := ERP_FATAL;
        }
      } else {
        errorCount := 0;
      }
      lastErrorTime := currentTime;
      errorEntered := code;
      // code is ERP_DROP or ERP_FATAL here, so the source's ERP_DISCONNECT branch is dead
      if code == ERP_DROP {
        errorEntered := ERP_NONE;
        return Thrown(code);
      }
      return FatalExit;
    }
  }

  /** Four errors in a row, each under 100 ms after the one before, end fatally. */
  method FourQuickErrorsAreFatal(st: LibState, t1: int, t2: int, t3: int, t4: int)
      returns (e1: ErrorExit, e2: ErrorExit, e3: ErrorExit, e4: ErrorExit)
    requires st.errorEntered == ERP_NONE && st.errorCount == 0
    requires t1 - st.lastErrorTime < 100 && t2 - t1 < 100 && t3 - t2 < 100 && t4 - t3 < 100
    modifies st
    ensures e1 == e2 == e3 == Thrown(ERP_DROP) && e4 == FatalExit
  {
    e1 := st.Error(t1, false);
    e2 := st.Error(t2, false);
    e3 := st.Error(t3, false);
    e4 := st.Error(t4, false);
  }
}
