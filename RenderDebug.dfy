/**
 * The back end's debug-primitive lists, the screenshot file naming and
 * command arguments, the view-size console commands, and the TGA buffer
 * TakeScreenshot writes.
 *
 * Geometry, colours and windings of the debug primitives are floats and
 * are not part of this model; an entry keeps its kind, text, alignment,
 * depth-test flag and expiry time. Pixel bytes are naturals below 256.
 */
module RenderDebug {
  import opened Bits

  const MAX_DEBUG_LINES: nat := 16384
  const MAX_DEBUG_TEXT: nat := 512
  const MAX_DEBUG_POLYGONS: nat := 8192

  // ------------------------------------------------------------------
  // Debug primitive lists
  // ------------------------------------------------------------------

  datatype DebugItem =
    | DebugText(text: string, align: int, depthTest: bool, lifeTime: int)
    | DebugLine(depthTest: bool, lifeTime: int)
    | DebugPolygon(depthTest: bool, lifeTime: int)

  /** The entries still to be drawn after time t, in their original order. */
  function Surviving(s: seq<DebugItem>, t: int): (r: seq<DebugItem>)
    ensures |r| <= |s|
  {
    if s == [] then []
    else Surviving(s[..|s| - 1], t) + (if s[|s| - 1].lifeTime > t then [s[|s| - 1]] else [])
  }

  /** Surviving keeps exactly the entries that outlive t. */
  lemma {:induction false} SurvivingMembers(s: seq<DebugItem>, t: int)
    ensures forall x :: x in Surviving(s, t) <==> x in s && x.lifeTime > t
  {
    if s != [] {
      SurvivingMembers(s[..|s| - 1], t);
      assert s == s[..|s| - 1] + [s[|s| - 1]];
    }
  }

  /** Filtering distributes over concatenation, so the order of the survivors is kept. */
  lemma {:induction false} SurvivingConcat(a: seq<DebugItem>, b: seq<DebugItem>, t: int)
    ensures Surviving(a + b, t) == Surviving(a, t) + Surviving(b, t)
  {
    if b != [] {
      assert (a + b)[..|a + b| - 1] == a + b[..|b| - 1];
      SurvivingConcat(a, b[..|b| - 1], t);
    } else {
      assert a + b == a;
    }
  }

  /** Clearing twice at the same time removes nothing more. */
  lemma {:induction false} SurvivingIdempotent(s: seq<DebugItem>, t: int)
    ensures Surviving(Surviving(s, t), t) == Surviving(s, t)
  {
    if s != [] {
      var init := s[..|s| - 1];
      SurvivingIdempotent(init, t);
      SurvivingConcat(Surviving(init, t), if s[|s| - 1].lifeTime > t then [s[|s| - 1]] else [], t);
      if s[|s| - 1].lifeTime > t {
        assert Surviving([s[|s| - 1]], t) == Surviving([], t) + [s[|s| - 1]];
      }
    }
  }

  /** One of the fixed-size rb_debug* arrays with its count and its time base. */
  class DebugBuffer {
    const items: array<DebugItem>
    var count: int
    var time: int

    ghost predicate Valid()
      reads this
    {
      0 <= count <= items.Length
    }

    /** The entries in use. */
    function Live(): seq<DebugItem>
      reads this, items
      requires Valid()
    {
      items[..count]
    }

    constructor (capacity: nat, blank: DebugItem)
      ensures Valid() && fresh(items) && items.Length == capacity
      ensures count == 0 && time == 0
    {
      items := new DebugItem[capacity](_ => blank);
      count := 0;
      time := 0;
    }

    /**
     * RB_AddDebug*: appends the entry with its expiry at the time base plus
     * its lifetime while there is room; a full list is left as it is.
     */
    method Add(item: DebugItem, lifetime: int)
      requires Valid()
      modifies this, items
      ensures Valid() && time == old(time)
      ensures old(count) < items.Length ==>
        Live() == old(Live()) + [item.(lifeTime := old(time) + lifetime)]
      ensures old(count) >= items.Length ==> count == old(count) && items[..] == old(items[..])
    {
      if count < items.Length {
        items[count] := item.(lifeTime := time + lifetime);
        count := count + 1;
      }
    }

    /**
     * RB_ClearDebug*: records t as the time base; at time 0 the list is
     * emptied, otherwise it is compacted in place to the entries that
     * outlive t, in order.
     */
    method Clear(t: int)
      requires Valid()
      modifies this, items
      ensures Valid() && time == t
      ensures t == 0 ==> count == 0 && items[..] == old(items[..])
      ensures t != 0 ==> Live() == Surviving(old(Live()), t)
    {
      time := t;
      if t == 0 {
        count := 0;
        return;
      }
      count := Compact(items, count, t);
    }

    /** The compaction loop of RB_ClearDebug*: the entries of items[..n] outliving t, moved to the front. */
    static method Compact(items: array<DebugItem>, n: int, t: int) returns (num: int)
      requires 0 <= n <= items.Length
      modifies items
      ensures 0 <= num <= n
      ensures items[..num] == Surviving(old(items[..n]), t)
    {
      ghost var s := items[..n];
      num := 0;
      var i := 0;
      while i < n
        invariant 0 <= num <= i <= n
        invariant items[..num] == Surviving(s[..i], t)
        invariant forall k :: i <= k < n ==> items[k] == s[k]
      {
        assert s[..i + 1] == s[..i] + [s[i]];
        if items[i].lifeTime > t {
          ghost var kept := items[..num];
          if num != i {
            items[num] := items[i];
          }
          assert items[..num + 1] == kept + [s[i]];
          num := num + 1;
        }
        i := i + 1;
      }
      assert s[..n] == s;
    }

    /** The string release loop of RB_ClearDebugText at time 0, over the whole array. */
    method ClearStrings()
      requires Valid()
      modifies items
      ensures forall k :: 0 <= k < items.Length ==> items[k] == WithoutText(old(items[k]))
    {
      for k := 0 to items.Length
        invariant forall j :: 0 <= j < k ==> items[j] == WithoutText(old(items[j]))
        invariant forall j :: k <= j < items.Length ==> items[j] == old(items[j])
      {
        items[k] := WithoutText(items[k]);
      }
    }
  }

  function WithoutText(x: DebugItem): (r: DebugItem)
    ensures r.lifeTime == x.lifeTime
    ensures r.DebugText? ==> r.text == ""
  {
    if x.DebugText? then x.(text := "") else x
  }

  /** The three debug lists of the back end. */
  class DebugTools {
    const lines: DebugBuffer
    const texts: DebugBuffer
    const polygons: DebugBuffer

    ghost predicate Valid()
      reads this, lines, texts, polygons
    {
      lines.Valid() && texts.Valid() && polygons.Valid() &&
      lines != texts && lines != polygons && texts != polygons &&
      lines.items != texts.items && lines.items != polygons.items && texts.items != polygons.items &&
      lines.items.Length == MAX_DEBUG_LINES && texts.items.Length == MAX_DEBUG_TEXT &&
      polygons.items.Length == MAX_DEBUG_POLYGONS
    }

    constructor ()
      ensures Valid()
      ensures lines.count == 0 && texts.count == 0 && polygons.count == 0
    {
      lines := new DebugBuffer(MAX_DEBUG_LINES, DebugLine(false, 0));
      texts := new DebugBuffer(MAX_DEBUG_TEXT, DebugText("", 0, false, 0));
      polygons := new DebugBuffer(MAX_DEBUG_POLYGONS, DebugPolygon(false, 0));
    }

    /** RB_AddDebugText. */
    method AddText(text: string, align: int, lifetime: int, depthTest: bool)
      requires Valid()
      modifies texts, texts.items
      ensures Valid()
      ensures old(texts.count) < MAX_DEBUG_TEXT ==>
        texts.Live() == old(texts.Live()) + [DebugText(text, align, depthTest, old(texts.time) + lifetime)]
      ensures old(texts.count) >= MAX_DEBUG_TEXT ==> texts.count == old(texts.count)
    {
      texts.Add(DebugText(text, align, depthTest, 0), lifetime);
    }

    /** RB_AddDebugLine. */
    method AddLine(lifeTime: int, depthTest: bool)
      requires Valid()
      modifies lines, lines.items
      ensures Valid()
      ensures old(lines.count) < MAX_DEBUG_LINES ==>
        lines.Live() == old(lines.Live()) + [DebugLine(depthTest, old(lines.time) + lifeTime)]
      ensures old(lines.count) >= MAX_DEBUG_LINES ==> lines.count == old(lines.count)
    {
      lines.Add(DebugLine(depthTest, 0), lifeTime);
    }

    /** RB_AddDebugPolygon. */
    method AddPolygon(lifeTime: int, depthTest: bool)
      requires Valid()
      modifies polygons, polygons.items
      ensures Valid()
      ensures old(polygons.count) < MAX_DEBUG_POLYGONS ==>
        polygons.Live() == old(polygons.Live()) + [DebugPolygon(depthTest, old(polygons.time) + lifeTime)]
      ensures old(polygons.count) >= MAX_DEBUG_POLYGONS ==> polygons.count == old(polygons.count)
    {
      polygons.Add(DebugPolygon(depthTest, 0), lifeTime);
    }

    /** RB_ClearDebugText: at time 0 every string of the array is released too. */
    method ClearText(time: int)
      requires Valid()
      modifies texts, texts.items
      ensures Valid() && texts.time == time
      ensures time == 0 ==> (texts.count == 0 &&
        forall k :: 0 <= k < MAX_DEBUG_TEXT ==> texts.items[k] == WithoutText(old(texts.items[k])))
      ensures time != 0 ==> texts.Live() == Surviving(old(texts.Live()), time)
    {
      if time == 0 {
        texts.ClearStrings();
      }
      texts.Clear(time);
    }

    /** RB_ClearDebugLines. */
    method ClearLines(time: int)
      requires Valid()
      modifies lines, lines.items
      ensures Valid() && lines.time == time
      ensures time == 0 ==> lines.count == 0
      ensures time != 0 ==> lines.Live() == Surviving(old(lines.Live()), time)
    {
      lines.Clear(time);
    }

    /** RB_ClearDebugPolygons. */
    method ClearPolygons(time: int)
      requires Valid()
      modifies polygons, polygons.items
      ensures Valid() && polygons.time == time
      ensures time == 0 ==> polygons.count == 0
      ensures time != 0 ==> polygons.Live() == Surviving(old(polygons.Live()), time)
    {
      polygons.Clear(time);
    }
  }

  // ------------------------------------------------------------------
  // Screenshot names
  // ------------------------------------------------------------------

  const LAST_SHOT: int := 99999

  /** The five "%i" digits of a shot number, peeled off from the ten-thousands down. */
  function FiveDigits(n: int): (s: string)
    requires 0 <= n <= LAST_SHOT
    ensures |s| == 5 && forall k :: 0 <= k < 5 ==> '0' <= s[k] <= '9'
  {
    var a := n / 10000;
    var f1 := n - a * 10000;
    var b := f1 / 1000;
    var f2 := f1 - b * 1000;
    var c := f2 / 100;
    var f3 := f2 - c * 100;
    var d := f3 / 10;
    var e := f3 - d * 10;
    [Digit(a), Digit(b), Digit(c), Digit(d), Digit(e)]
  }

  /** The decimal value of a string of digits. */
  function DecimalValue(s: string): int
  {
    if s == [] then 0 else DecimalValue(s[..|s| - 1]) * 10 + (s[|s| - 1] as int - '0' as int)
  }

  lemma DigitValue(d: int)
    requires 0 <= d <= 9
    ensures Digit(d) as int - '0' as int == d
  {
  }

  /** Reading the five digits back gives the shot number. */
  lemma FiveDigitsRoundTrip(n: int)
    requires 0 <= n <= LAST_SHOT
    ensures DecimalValue(FiveDigits(n)) == n
  {
    var s := FiveDigits(n);
    var a := n / 10000;
    var f1 := n - a * 10000;
    var b := f1 / 1000;
    var f2 := f1 - b * 1000;
    var c := f2 / 100;
    var f3 := f2 - c * 100;
    var d := f3 / 10;
    var e := f3 - d * 10;
    DigitValue(a); DigitValue(b); DigitValue(c); DigitValue(d); DigitValue(e);
    assert s[..5] == s;
    assert s[..5][..4] == s[..4] && s[..4][..3] == s[..3] && s[..3][..2] == s[..2] && s[..2][..1] == s[..1];
    assert s[..1][..0] == [];
    assert DecimalValue(s[..1]) == a;
    assert DecimalValue(s[..2]) == a * 10 + b;
    assert DecimalValue(s[..3]) == (a * 10 + b) * 10 + c;
    assert DecimalValue(s[..4]) == ((a * 10 + b) * 10 + c) * 10 + d;
  }

  /** base + five digits + ".tga". */
  function ShotName(base: string, n: int): (name: string)
    requires 0 <= n <= LAST_SHOT
    ensures |name| == |base| + 9 && name[..|base|] == base && name[|base| + 5..] == ".tga"
  {
    base + FiveDigits(n) + ".tga"
  }

  /** Different shot numbers give different names. */
  lemma ShotNamesDistinct(base: string, m: int, n: int)
    requires 0 <= m <= LAST_SHOT && 0 <= n <= LAST_SHOT && m != n
    ensures ShotName(base, m) != ShotName(base, n)
  {
    FiveDigitsRoundTrip(m);
    FiveDigitsRoundTrip(n);
    assert ShotName(base, m)[|base|..|base| + 5] == FiveDigits(m);
    assert ShotName(base, n)[|base|..|base| + 5] == FiveDigits(n);
  }

  /**
   * The scan of R_ScreenshotFilename as written: while the number is below
   * 99999 the name is formatted and the scan stops at the first name that
   * does not exist; at 99999 the loop ends without formatting, so the
   * caller's name is kept, or the last (existing) name formatted.
   */
  function ScanAsWritten(last: int, base: string, existing: set<string>, name: string): (r: (int, string))
    requires 0 <= last <= LAST_SHOT
    decreases LAST_SHOT - last
  {
    if last >= LAST_SHOT then (last, name)
    else
      var n := ShotName(base, last);
      if n !in existing then (last, n)
      else ScanAsWritten(last + 1, base, existing, n)
  }

  function ScreenshotFilenameAsWritten(lastNumber: int, base: string, existing: set<string>, fileName: string): (r: (int, string))
    requires 0 <= lastNumber <= LAST_SHOT
  {
    ScanAsWritten(Min(lastNumber + 1, LAST_SHOT), base, existing, fileName)
  }

  /**
   * Once the counter reaches 99999 no name is produced: the screenshot is
   * written under whatever name the caller passed in (an empty string from
   * the console command).
   */
  lemma ScreenshotNameUnsetAsWritten(base: string, existing: set<string>)
    ensures ScreenshotFilenameAsWritten(99998, base, existing, "") == (LAST_SHOT, "")
    ensures ScreenshotFilenameAsWritten(LAST_SHOT, base, existing, "") == (LAST_SHOT, "")
  {
  }

  /** When the remaining names all exist, the existing ...99998.tga is handed back to be overwritten. */
  lemma ScreenshotOverwritesAsWritten(base: string)
    ensures var existing := {ShotName(base, 99998)};
      ScreenshotFilenameAsWritten(99997, base, existing, "") == (LAST_SHOT, ShotName(base, 99998)) &&
      ShotName(base, 99998) in existing
  {
  }

  /**
   * R_ScreenshotFilename with the 99999 fallback formatted: the counter
   * moves to the first number (from the one after the last) whose name does
   * not exist, else to 99999, and the name is always that number's.
   */
  method ScreenshotFilename(lastNumber: int, base: string, existing: set<string>) returns (last: int, name: string)
    requires 0 <= lastNumber <= LAST_SHOT
    ensures Min(lastNumber + 1, LAST_SHOT) <= last <= LAST_SHOT
    ensures name == ShotName(base, last)
    ensures forall k :: Min(lastNumber + 1, LAST_SHOT) <= k < last ==> ShotName(base, k) in existing
    ensures last < LAST_SHOT ==> name !in existing
  {
    last := lastNumber + 1;
    if last > LAST_SHOT {
      last := LAST_SHOT;
    }
    ghost var first := last;
    name := ShotName(base, last);
    while last < LAST_SHOT && name in existing
      invariant first <= last <= LAST_SHOT && name == ShotName(base, last)
      invariant forall k :: first <= k < last ==> ShotName(base, k) in existing
      decreases LAST_SHOT - last
    {
      last := last + 1;
      name := ShotName(base, last);
    }
  }

  // ------------------------------------------------------------------
  // Console commands
  // ------------------------------------------------------------------

  const MAX_BLENDS: int := 256

  /** The blend count of "screenshot w h blends", kept within what a 16-bit accumulator holds. */
  function ClampBlends(blends: int): (r: int)
    ensures 1 <= r <= MAX_BLENDS
    ensures 1 <= blends <= MAX_BLENDS ==> r == blends
    ensures blends < 1 ==> r == 1
    ensures blends > MAX_BLENDS ==> r == MAX_BLENDS
  {
    if blends < 1 then 1 else if blends > MAX_BLENDS then MAX_BLENDS else blends
  }

  datatype ScreenshotRequest = ScreenshotRequest(width: int, height: int, blends: int, fileName: string)

  /**
   * The screenshot console command: one to four arguments (counting the
   * command) choose the size, the blend count and whether the name is
   * given or generated; any other count only prints the usage.
   */
  method ScreenshotCommand(argc: int, argName: string, argWidth: int, argHeight: int, argBlends: int,
                           screenWidth: int, screenHeight: int,
                           lastNumber: int, existing: set<string>)
    returns (req: Option<ScreenshotRequest>, newLast: int)
    requires 0 <= lastNumber <= LAST_SHOT
    ensures req.None? <==> !(1 <= argc <= 4)
    ensures req.Some? ==> 1 <= req.value.blends <= MAX_BLENDS
    ensures argc == 4 && req.Some? ==> req.value.blends == ClampBlends(argBlends)
    ensures argc == 1 || argc == 2 ==> req == Some(ScreenshotRequest(screenWidth, screenHeight, 1, req.value.fileName))
    ensures argc == 3 || argc == 4 ==> req.Some? && req.value.width == argWidth && req.value.height == argHeight
    ensures argc == 2 ==> req.value.fileName == argName && newLast == lastNumber
    ensures (argc == 1 || argc == 3 || argc == 4) ==>
      (Min(lastNumber + 1, LAST_SHOT) <= newLast <= LAST_SHOT && req.value.fileName == ShotName("screenshots/shot", newLast))
    ensures !(1 <= argc <= 4) ==> newLast == lastNumber
  {
    newLast := lastNumber;
    var name: string;
    if argc == 1 {
      newLast, name := ScreenshotFilename(lastNumber, "screenshots/shot", existing);
      req := Some(ScreenshotRequest(screenWidth, screenHeight, 1, name));
    } else if argc == 2 {
      req := Some(ScreenshotRequest(screenWidth, screenHeight, 1, argName));
    } else if argc == 3 {
      newLast, name := ScreenshotFilename(lastNumber, "screenshots/shot", existing);
      req := Some(ScreenshotRequest(argWidth, argHeight, 1, name));
    } else if argc == 4 {
      var blends := argBlends;
      if blends < 1 {
        blends := 1;
      }
      if blends > MAX_BLENDS {
        blends := MAX_BLENDS;
      }
      newLast, name := ScreenshotFilename(lastNumber, "screenshots/shot", existing);
      req := Some(ScreenshotRequest(argWidth, argHeight, blends, name));
    } else {
      req := None;
    }
  }

  /** sizeUp: r_screenFraction grows by 10, capped at 100. */
  function SizeUp(fraction: int): (r: int)
    ensures r <= 100
    ensures fraction <= 90 ==> r == fraction + 10
    ensures fraction > 90 ==> r == 100
  {
    if fraction + 10 > 100 then 100 else fraction + 10
  }

  /** sizeDown: r_screenFraction shrinks by 10, floored at 10. */
  function SizeDown(fraction: int): (r: int)
    ensures r >= 10
    ensures fraction >= 20 ==> r == fraction - 10
    ensures fraction < 20 ==> r == 10
  {
    if fraction - 10 < 10 then 10 else fraction - 10
  }

  /** The two commands keep the fraction within [10, 100] and undo each other away from the ends. */
  lemma SizeStepsInverse(fraction: int)
    requires 10 <= fraction <= 100
    ensures 10 <= SizeUp(fraction) <= 100 && 10 <= SizeDown(fraction) <= 100
    ensures fraction <= 90 ==> SizeDown(SizeUp(fraction)) == fraction
    ensures fraction >= 20 ==> SizeUp(SizeDown(fraction)) == fraction
  {
  }

  // ------------------------------------------------------------------
  // TakeScreenshot
  // ------------------------------------------------------------------

  const TGA_HEADER_SIZE: nat := 18
  const SHORT_RANGE: nat := 0x1_0000

  predicate IsBytes(s: seq<nat>)
  {
    forall k :: 0 <= k < |s| ==> s[k] < 256
  }

  /** The sum of byte j over the first n samples. */
  function SumReads(samples: seq<seq<nat>>, n: nat, j: nat): nat
    requires n <= |samples| && forall r :: r in samples ==> j < |r|
  {
    if n == 0 then 0 else SumReads(samples, n - 1, j) + samples[n - 1][j]
  }

  /**
   * The value of byte j of the image: the single sample, or the 16-bit
   * accumulated sum divided by the blend count and stored in a byte.
   */
  function Blended(samples: seq<seq<nat>>, blends: int, j: nat): nat
    requires |samples| == (if blends <= 1 then 1 else blends) && forall r :: r in samples ==> j < |r|
  {
    if blends <= 1 then samples[0][j]
    else (SumReads(samples, blends, j) % SHORT_RANGE / blends) % 256
  }

  lemma {:induction false} SumReadsBounds(samples: seq<seq<nat>>, n: nat, j: nat, lo: nat, hi: nat)
    requires n <= |samples| && forall r :: r in samples ==> j < |r|
    requires forall k :: 0 <= k < n ==> lo <= samples[k][j] <= hi
    ensures n * lo <= SumReads(samples, n, j) <= n * hi
  {
    if n > 0 {
      SumReadsBounds(samples, n - 1, j, lo, hi);
      assert n * lo == (n - 1) * lo + lo;
      assert n * hi == (n - 1) * hi + hi;
    }
  }

  /**
   * With at most 256 blends of bytes the 16-bit sum never wraps: the
   * stored value is the truncated mean of the samples, between their least
   * and greatest value.
   */
  lemma BlendIsMean(samples: seq<seq<nat>>, blends: int, j: nat, lo: nat, hi: nat)
    requires 1 < blends <= MAX_BLENDS && |samples| == blends
    requires forall r :: r in samples ==> j < |r|
    requires forall k :: 0 <= k < blends ==> lo <= samples[k][j] <= hi < 256
    ensures Blended(samples, blends, j) == SumReads(samples, blends, j) / blends
    ensures lo <= Blended(samples, blends, j) <= hi
  {
    var sum := SumReads(samples, blends, j);
    SumReadsBounds(samples, blends, j, lo, hi);
    if hi > 0 {
      MulLe(blends, MAX_BLENDS, hi);
      MulLe(hi, 255, MAX_BLENDS);
    }
    assert sum < SHORT_RANGE;
    DivModUnique(sum, SHORT_RANGE, 0, sum);
    assert lo * blends <= sum;
    assert sum < (hi + 1) * blends;
    DivBounds(sum, blends, lo);
    DivBounds(sum, blends, hi);
  }

  /** The header and pixel data the TGA file holds, in terms of the samples. */
  ghost predicate IsScreenshotFile(file: seq<nat>, width: nat, height: nat, blends: int, samples: seq<seq<nat>>)
    requires |samples| == (if blends <= 1 then 1 else blends)
    requires forall r :: r in samples ==> |r| == width * height * 3
  {
    |file| == TGA_HEADER_SIZE + width * height * 3 &&
    file[2] == 2 && file[12] == width % 256 && file[13] == width / 256 % 256 &&
    file[14] == height % 256 && file[15] == height / 256 % 256 && file[16] == 24 &&
    file[0] == 0 && file[1] == 0 && (forall k :: 3 <= k < 12 ==> file[k] == 0) && file[17] == 0 &&
    forall p :: 0 <= p < width * height ==>
      file[TGA_HEADER_SIZE + 3 * p] == Blended(samples, blends, 3 * p + 2) &&
      file[TGA_HEADER_SIZE + 3 * p + 1] == Blended(samples, blends, 3 * p + 1) &&
      file[TGA_HEADER_SIZE + 3 * p + 2] == Blended(samples, blends, 3 * p)
  }

  /** Adds one sample into the 16-bit accumulators. */
  method Accumulate(acc: array<nat>, sample: seq<nat>)
    requires |sample| == acc.Length
    modifies acc
    ensures forall j :: 0 <= j < acc.Length ==> acc[j] == (old(acc[j]) + sample[j]) % SHORT_RANGE
  {
    for j := 0 to acc.Length
      invariant forall k :: 0 <= k < j ==> acc[k] == (old(acc[k]) + sample[k]) % SHORT_RANGE
      invariant forall k :: j <= k < acc.Length ==> acc[k] == old(acc[k])
    {
      acc[j] := (acc[j] + sample[j]) % SHORT_RANGE;
    }
  }

  lemma AddMod(x: nat, y: nat, m: nat)
    requires m > 0
    ensures (x % m + y) % m == (x + y) % m
  {
    DivModUnique(x, m, x / m, x % m);
    DivModUnique(x + y, m, x / m + (x % m + y) / m, (x % m + y) % m);
  }

  /** The blend loop: the accumulators end at each byte's 16-bit sum over all samples. */
  method AccumulateReads(acc: array<nat>, samples: seq<seq<nat>>, blends: nat)
    requires blends == |samples| && forall r :: r in samples ==> |r| == acc.Length
    requires forall k :: 0 <= k < acc.Length ==> acc[k] == 0
    modifies acc
    ensures forall j :: 0 <= j < acc.Length ==> acc[j] == SumReads(samples, blends, j) % SHORT_RANGE
  {
    for i := 0 to blends
      invariant forall j :: 0 <= j < acc.Length ==> acc[j] == SumReads(samples, i, j) % SHORT_RANGE
    {
      Accumulate(acc, samples[i]);
      forall j | 0 <= j < acc.Length
        ensures acc[j] == SumReads(samples, i + 1, j) % SHORT_RANGE
      {
        AddMod(SumReads(samples, i, j), samples[i][j], SHORT_RANGE);
      }
    }
  }

  /**
   * TakeScreenshot: an 18-byte header (type 2, little-endian width and
   * height, 24 bits per pixel) followed by the pixels, sample once or
   * averaged over the blends, with red and blue exchanged in every pixel.
   * The samples stand for what ReadTiledPixels returns each time.
   */
  method TakeScreenshot(width: nat, height: nat, blends: int, samples: seq<seq<nat>>) returns (file: seq<nat>)
    requires |samples| == (if blends <= 1 then 1 else blends)
    requires forall r :: r in samples ==> |r| == width * height * 3
    ensures IsScreenshotFile(file, width, height, blends, samples)
  {
    var pix := width * height;
    var buffer := new nat[pix * 3 + TGA_HEADER_SIZE](_ => 0);
    ghost var image := seq(pix * 3, k requires 0 <= k < pix * 3 => Blended(samples, blends, k));
    if blends <= 1 {
      StorePixels(buffer, samples[0]);
      assert samples[0] == image;
    } else {
      var acc := new nat[pix * 3](_ => 0);
      AccumulateReads(acc, samples, blends);
      StoreMeans(buffer, acc, blends, image);
    }
    WriteHeader(buffer, width, height);
    SwapRedBlue(buffer, pix, image);
    file := buffer[..];
    ScreenshotFileFrom(file, width, height, blends, samples, image);
  }

  /** The header bytes TakeScreenshot fills in; the zeroed rest stays. */
  method WriteHeader(buffer: array<nat>, width: nat, height: nat)
    requires buffer.Length >= TGA_HEADER_SIZE
    requires forall k :: 0 <= k < TGA_HEADER_SIZE ==> buffer[k] == 0
    modifies buffer
    ensures buffer[TGA_HEADER_SIZE..] == old(buffer[TGA_HEADER_SIZE..])
    ensures buffer[2] == 2 && buffer[12] == width % 256 && buffer[13] == width / 256 % 256
    ensures buffer[14] == height % 256 && buffer[15] == height / 256 % 256 && buffer[16] == 24
    ensures buffer[0] == 0 && buffer[1] == 0 && buffer[17] == 0
    ensures forall k :: 3 <= k < 12 ==> buffer[k] == 0
  {
    buffer[2] := 2;
    buffer[12] := width % 256;
    buffer[13] := width / 256 % 256;
    buffer[14] := height % 256;
    buffer[15] := height / 256 % 256;
    buffer[16] := 24;
  }

  lemma ScreenshotFileFrom(file: seq<nat>, width: nat, height: nat, blends: int, samples: seq<seq<nat>>, image: seq<nat>)
    requires |samples| == (if blends <= 1 then 1 else blends)
    requires forall r :: r in samples ==> |r| == width * height * 3
    requires |image| == width * height * 3
    requires forall k :: 0 <= k < |image| ==> image[k] == Blended(samples, blends, k)
    requires |file| == TGA_HEADER_SIZE + width * height * 3
    requires file[2] == 2 && file[12] == width % 256 && file[13] == width / 256 % 256
    requires file[14] == height % 256 && file[15] == height / 256 % 256 && file[16] == 24
    requires file[0] == 0 && file[1] == 0 && file[17] == 0
    requires forall k :: 3 <= k < 12 ==> file[k] == 0
    requires forall p :: 0 <= p < width * height ==>
      file[TGA_HEADER_SIZE + 3 * p] == image[3 * p + 2] &&
      file[TGA_HEADER_SIZE + 3 * p + 1] == image[3 * p + 1] &&
      file[TGA_HEADER_SIZE + 3 * p + 2] == image[3 * p]
    ensures IsScreenshotFile(file, width, height, blends, samples)
  {
  }

  /** ReadTiledPixels' single read, stored after the header. */
  method StorePixels(buffer: array<nat>, pixels: seq<nat>)
    requires buffer.Length == TGA_HEADER_SIZE + |pixels|
    modifies buffer
    ensures forall k :: 0 <= k < TGA_HEADER_SIZE ==> buffer[k] == old(buffer[k])
    ensures buffer[TGA_HEADER_SIZE..] == pixels
  {
    for j := 0 to |pixels|
      invariant forall k :: 0 <= k < j ==> buffer[TGA_HEADER_SIZE + k] == pixels[k]
      invariant forall k :: 0 <= k < TGA_HEADER_SIZE ==> buffer[k] == old(buffer[k])
    {
      buffer[TGA_HEADER_SIZE + j] := pixels[j];
    }
  }

  /** The divide-back loop: each accumulator over the blend count, stored in a byte. */
  method StoreMeans(buffer: array<nat>, acc: array<nat>, blends: int, ghost image: seq<nat>)
    requires blends > 1 && buffer.Length == TGA_HEADER_SIZE + acc.Length && |image| == acc.Length
    requires buffer != acc
    requires forall k :: 0 <= k < acc.Length ==> acc[k] / blends % 256 == image[k]
    modifies buffer
    ensures forall k :: 0 <= k < TGA_HEADER_SIZE ==> buffer[k] == old(buffer[k])
    ensures buffer[TGA_HEADER_SIZE..] == image
  {
    for j := 0 to acc.Length
      invariant forall k :: 0 <= k < j ==> buffer[TGA_HEADER_SIZE + k] == image[k]
      invariant forall k :: 0 <= k < TGA_HEADER_SIZE ==> buffer[k] == old(buffer[k])
    {
      buffer[TGA_HEADER_SIZE + j] := acc[j] / blends % 256;
    }
  }

  /** The rgb-to-bgr loop over the pixels after the header. */
  method SwapRedBlue(buffer: array<nat>, pix: nat, ghost pixels: seq<nat>)
    requires buffer.Length == TGA_HEADER_SIZE + pix * 3 && |pixels| == pix * 3
    requires buffer[TGA_HEADER_SIZE..] == pixels
    modifies buffer
    ensures buffer[..TGA_HEADER_SIZE] == old(buffer[..TGA_HEADER_SIZE])
    ensures forall p :: 0 <= p < pix ==>
      buffer[TGA_HEADER_SIZE + 3 * p] == pixels[3 * p + 2] &&
      buffer[TGA_HEADER_SIZE + 3 * p + 1] == pixels[3 * p + 1] &&
      buffer[TGA_HEADER_SIZE + 3 * p + 2] == pixels[3 * p]
  {
    var c := TGA_HEADER_SIZE + pix * 3;
    var i := TGA_HEADER_SIZE;
    ghost var p := 0;
    while i < c
      invariant i == TGA_HEADER_SIZE + 3 * p && p <= pix
      invariant buffer[..TGA_HEADER_SIZE] == old(buffer[..TGA_HEADER_SIZE])
      invariant forall q :: 0 <= q < p ==>
        buffer[TGA_HEADER_SIZE + 3 * q] == pixels[3 * q + 2] &&
        buffer[TGA_HEADER_SIZE + 3 * q + 1] == pixels[3 * q + 1] &&
        buffer[TGA_HEADER_SIZE + 3 * q + 2] == pixels[3 * q]
      invariant forall k :: i <= k < c ==> buffer[k] == pixels[k - TGA_HEADER_SIZE]
    {
      var temp := buffer[i];
      buffer[i] := buffer[i + 2];
      buffer[i + 2] := temp;
      i := i + 3;
      p := p + 1;
    }
  }
}
