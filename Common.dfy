/**
 * The frame/millisecond conversions of the engine's common header. The engine
 * runs at `numerator / denominator` milliseconds per frame; both values are
 * globals of the engine and are parameters here. Products are taken in 64 bits
 * and the quotient is narrowed to a 32-bit `int`; C's division truncates
 * toward zero.
 */
module Common {
  import opened Bits

  /** The msec the frame starts on (FRAME_TO_MSEC). */
  function FrameToMsec(frame: int, num: int, den: int): int
    requires den != 0
  {
    Int32(TDiv(frame * num, den))
  }

  /** MSEC_TO_FRAME_FLOOR: adds `den - 1` before dividing by the numerator. */
  function MsecToFrameFloor(msec: int, num: int, den: int): int
    requires num != 0
  {
    Int32(TDiv(msec * den + (den - 1), num))
  }

  /** MSEC_TO_FRAME_CEIL: adds `num - 1` before dividing by the numerator. */
  function MsecToFrameCeil(msec: int, num: int, den: int): int
    requires num != 0
  {
    Int32(TDiv(msec * den + (num - 1), num))
  }

  /** MSEC_ALIGN_TO_FRAME: the start of the frame MSEC_TO_FRAME_CEIL picks. */
  function MsecAlignToFrame(msec: int, num: int, den: int): int
    requires num != 0 && den != 0
  {
    FrameToMsec(MsecToFrameCeil(msec, num, den), num, den)
  }

  /**
   * A non-negative msec with a positive rate, small enough that every
   * intermediate value of the conversions below fits in a 32-bit `int`.
   */
  predicate InRange(msec: int, num: int, den: int)
  {
    0 <= msec && 0 < num && 0 < den &&
    msec * den + num + den <= INT32_MAX * num &&
    msec * den + num + den <= INT32_MAX * den
  }

  lemma NonNegProduct(x: int, y: int)
    requires 0 <= x && 0 <= y
    ensures 0 <= x * y
  {
    if y > 0 { MulLe(0, x, y); }
  }

  /** FRAME_TO_MSEC is the floor of frame * numerator / denominator. */
  lemma FrameToMsecIsFloor(frame: int, num: int, den: int)
    requires 0 <= frame && 0 < num && 0 < den
    requires frame * num <= INT32_MAX * den
    ensures var r := FrameToMsec(frame, num, den);
      0 <= r && r == frame * num / den && r * den <= frame * num < (r + 1) * den
  {
    var x := frame * num;
    NonNegProduct(frame, num);
    DivBounds(x, den, INT32_MAX);
    var q := x / den;
    assert x == q * den + x % den;
    assert (q + 1) * den == q * den + den;
  }

  /** The quotient of a non-negative y brackets y between two consecutive multiples. */
  lemma QuotientBracket(y: int, a: int)
    requires 0 <= y && 0 < a
    ensures 0 <= y / a && y / a * a <= y < y / a * a + a
  {
    assert y == y / a * a + y % a;
  }

  lemma NextMultiple(q: int, a: int)
    ensures (q + 1) * a == q * a + a
    ensures (q - 1) * a == q * a - a
  {
  }

  /**
   * Although MSEC_TO_FRAME_FLOOR adds `den - 1` rather than nothing, it does
   * round down in the engine's terms: the result is the last frame whose
   * (truncated) start msec is at or before `msec`.
   */
  lemma MsecToFrameFloorIsLastStartedFrame(msec: int, num: int, den: int)
    requires InRange(msec, num, den)
    ensures var r := MsecToFrameFloor(msec, num, den);
      0 <= r && FrameToMsec(r, num, den) <= msec < FrameToMsec(r + 1, num, den)
  {
    NonNegProduct(msec, den);
    var y := msec * den + (den - 1);
    FloorValue(msec, num, den);
    var r := y / num;
    QuotientBracket(y, num);
    NextMultiple(r, num);
    NextMultiple(msec, den);
    FrameToMsecIsFloor(r, num, den);
    FrameToMsecIsFloor(r + 1, num, den);
    DivBounds(r * num, den, msec);
    DivBounds((r + 1) * num, den, msec + 1);
  }

  /** MSEC_TO_FRAME_CEIL rounds up: the least frame whose exact start is at or after msec. */
  lemma MsecToFrameCeilRoundsUp(msec: int, num: int, den: int)
    requires InRange(msec, num, den)
    ensures var c := MsecToFrameCeil(msec, num, den);
      0 <= c && c * num >= msec * den && (c - 1) * num < msec * den
  {
    NonNegProduct(msec, den);
    var y := msec * den + (num - 1);
    CeilValue(msec, num, den);
    QuotientBracket(y, num);
    NextMultiple(y / num, num);
  }

  /**
   * MSEC_ALIGN_TO_FRAME returns a frame start that is at or after msec, and
   * the frame before it (when there is one) starts before msec.
   */
  lemma MsecAlignToFrameIsNextFrameStart(msec: int, num: int, den: int)
    requires InRange(msec, num, den)
    ensures var c := MsecToFrameCeil(msec, num, den);
      var a := MsecAlignToFrame(msec, num, den);
      a == FrameToMsec(c, num, den) && msec <= a &&
      (c > 0 ==> FrameToMsec(c - 1, num, den) < msec)
  {
    MsecToFrameCeilRoundsUp(msec, num, den);
    var c := MsecToFrameCeil(msec, num, den);
    NonNegProduct(msec, den);
    NextMultiple(c, num);
    // c * num < msec * den + num, so its start fits in 32 bits
    FrameToMsecIsFloor(c, num, den);
    DivBounds(c * num, den, msec);
    if c > 0 {
      FrameToMsecIsFloor(c - 1, num, den);
      NextMultiple(msec - 1, den);
      DivBounds((c - 1) * num, den, msec - 1);
    }
  }

  lemma FloorValue(msec: int, num: int, den: int)
    requires InRange(msec, num, den)
    ensures MsecToFrameFloor(msec, num, den) == (msec * den + (den - 1)) / num
  {
    NonNegProduct(msec, den);
    NextMultiple(INT32_MAX, num);
    QuotientBracket(msec * den + (den - 1), num);
    DivBounds(msec * den + (den - 1), num, INT32_MAX);
  }

  lemma CeilValue(msec: int, num: int, den: int)
    requires InRange(msec, num, den)
    ensures MsecToFrameCeil(msec, num, den) == (msec * den + (num - 1)) / num
  {
    NonNegProduct(msec, den);
    NextMultiple(INT32_MAX, num);
    QuotientBracket(msec * den + (num - 1), num);
    DivBounds(msec * den + (num - 1), num, INT32_MAX);
  }

  /** MSEC_TO_FRAME_FLOOR and MSEC_TO_FRAME_CEIL are monotone within the 32-bit range. */
  lemma MsecToFrameMonotone(m1: int, m2: int, num: int, den: int)
    requires InRange(m1, num, den) && InRange(m2, num, den) && m1 <= m2
    ensures MsecToFrameFloor(m1, num, den) <= MsecToFrameFloor(m2, num, den)
    ensures MsecToFrameCeil(m1, num, den) <= MsecToFrameCeil(m2, num, den)
  {
    FloorValue(m1, num, den);
    FloorValue(m2, num, den);
    CeilValue(m1, num, den);
    CeilValue(m2, num, den);
    MulLe(m1, m2, den);
    DivMono(m1 * den + (den - 1), m2 * den + (den - 1), num);
    DivMono(m1 * den + (num - 1), m2 * den + (num - 1), num);
  }

  /** MSEC_ALIGN_TO_FRAME is monotone within the 32-bit range. */
  lemma MsecAlignToFrameMonotone(m1: int, m2: int, num: int, den: int)
    requires InRange(m1, num, den) && InRange(m2, num, den) && m1 <= m2
    ensures MsecAlignToFrame(m1, num, den) <= MsecAlignToFrame(m2, num, den)
  {
    MsecToFrameMonotone(m1, m2, num, den);
    MsecToFrameCeilRoundsUp(m1, num, den);
    MsecToFrameCeilRoundsUp(m2, num, den);
    var c1, c2 := MsecToFrameCeil(m1, num, den), MsecToFrameCeil(m2, num, den);
    NonNegProduct(m2, den);
    assert (c2 - 1) * num == c2 * num - num;
    FrameToMsecMonotone(c1, c2, num, den);
  }

  /** FRAME_TO_MSEC is monotone in the frame number. */
  lemma FrameToMsecMonotone(f1: int, f2: int, num: int, den: int)
    requires 0 <= f1 <= f2 && 0 < num && 0 < den && f2 * num <= INT32_MAX * den
    ensures 0 <= FrameToMsec(f1, num, den) <= FrameToMsec(f2, num, den)
  {
    MulLe(f1, f2, num);
    FrameToMsecIsFloor(f1, num, den);
    FrameToMsecIsFloor(f2, num, den);
    DivMono(f1 * num, f2 * num, den);
  }
}
