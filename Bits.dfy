/** Small arithmetic and option helpers shared by the renderer model. */
module Bits {

  datatype Option<T> = None | Some(value: T)

  const INT32_MIN: int := -0x8000_0000
  const INT32_MAX: int := 0x7FFF_FFFF

  predicate IsInt32(x: int) { INT32_MIN <= x <= INT32_MAX }

  const UINT32_MAX: nat := 0xFFFF_FFFF
  const UINT64_MAX: nat := 0xFFFF_FFFF_FFFF_FFFF

  /** Unsigned 64-bit arithmetic: the result of `x` reduced modulo 2^64. */
  function U64(x: int): (r: nat)
    ensures r <= UINT64_MAX
    ensures 0 <= x <= UINT64_MAX ==> r == x
  {
    x % 0x1_0000_0000_0000_0000
  }

  /**
   * Number of frames the renderer keeps in flight. Its definition lives in a
   * header that is not part of this model; every ring indexed by it below
   * relies only on it being positive.
   */
  const NUM_FRAME_DATA: nat := 2

  /** C's `/` on integers: the quotient truncated toward zero. */
  function TDiv(a: int, b: int): int
    requires b != 0
  {
    if a >= 0 then (if b > 0 then a / b else -(a / -b))
    else (if b > 0 then -(-a / b) else -a / -b)
  }

  /** The two's-complement narrowing `(int)x` of a wider integer. */
  function Int32(x: int): (r: int)
    ensures IsInt32(r)
    ensures IsInt32(x) ==> r == x
    ensures (r - x) % 0x1_0000_0000 == 0
  {
    var m := x % 0x1_0000_0000;
    if m > INT32_MAX then m - 0x1_0000_0000 else m
  }

  /** The least multiple of `a` that is at least `x`, for positive `a`. */
  function AlignUp(x: nat, a: nat): (r: nat)
    requires a > 0
    ensures r % a == 0 && x <= r < x + a
  {
    DivMulBounds(x + a - 1, a);
    (x + a - 1) / a * a
  }

  lemma DivMulBounds(y: nat, a: nat)
    requires a > 0
    ensures y - a < y / a * a <= y
    ensures (y / a * a) % a == 0
  {
    var q, m := y / a, y % a;
    assert y == q * a + m;
    MulMod(q, a);
  }

  lemma MulLe(x: int, y: int, a: int)
    requires a > 0 && x <= y
    ensures x * a <= y * a
  {
    assert y * a == x * a + (y - x) * a;
  }

  /** Euclidean division is determined by its defining equation. */
  lemma DivModUnique(x: int, a: int, q: int, r: int)
    requires a > 0 && 0 <= r < a && x == q * a + r
    ensures x / a == q && x % a == r
  {
    var q', r' := x / a, x % a;
    assert x == q' * a + r';
    if q < q' { assert (q + 1) * a == q * a + a; MulLe(q + 1, q', a); }
    if q' < q { assert (q' + 1) * a == q' * a + a; MulLe(q' + 1, q, a); }
  }

  lemma MulMod(q: int, a: int)
    requires a > 0
    ensures (q * a) % a == 0 && (q * a) / a == q
  {
    DivModUnique(q * a, a, q, 0);
  }

  /** The quotient is pinned down by any multiple of `a` below or above `x`. */
  lemma DivBounds(x: int, a: int, k: int)
    requires a > 0
    ensures k * a <= x ==> k <= x / a
    ensures x < (k + 1) * a ==> x / a <= k
  {
    var q := x / a;
    assert x == q * a + x % a;
    if k * a <= x && q < k { assert (q + 1) * a == q * a + a; MulLe(q + 1, k, a); }
    if x < (k + 1) * a && k < q { assert (k + 1) * a == k * a + a; MulLe(k + 1, q, a); }
  }

  lemma DivMono(x: int, y: int, a: int)
    requires a > 0 && x <= y
    ensures x / a <= y / a
  {
    DivBounds(y, a, x / a);
    assert x == (x / a) * a + x % a;
  }

  function Min(a: int, b: int): int { if a < b then a else b }
  function Max(a: int, b: int): int { if a < b then b else a }

  /** The decimal digit character for d. */
  function Digit(d: int): (c: char)
    requires 0 <= d <= 9
    ensures '0' <= c <= '9'
  {
    (('0' as int) + d) as char
  }

  /** "%d" of a non-negative value: its decimal digits, no leading zeros. */
  function DecimalString(n: nat): (s: string)
    ensures |s| >= 1 && forall k :: 0 <= k < |s| ==> '0' <= s[k] <= '9'
    ensures n < 10 <==> |s| == 1
  {
    if n < 10 then [Digit(n)] else DecimalString(n / 10) + [Digit(n % 10)]
  }
}
