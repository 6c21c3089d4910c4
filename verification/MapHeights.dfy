/** The height and liquid packing of the map extractor: contrib/extractor/System.cpp, ConvertADT. Heights are
    reals; V8 holds the cell centres of a grid, V9 the corners. */
module MapHeights {

  const GRID_SIZE: nat := 128

  /** The options, with the values they have unless switched off. */
  const USE_MIN_HEIGHT: real := -500.0
  const FLOAT_TO_INT8_LIMIT: real := 2.0
  const FLOAT_TO_INT16_LIMIT: real := 2048.0
  const FLAT_HEIGHT_DELTA_LIMIT: real := 0.005
  const FLAT_LIQUID_DELTA_LIMIT: real := 0.001

  // ---------- lowest and highest ----------

  ghost predicate AllWithin(a: array2<real>, low: real, high: real)
    reads a
  {
    forall y, x :: 0 <= y < a.Length0 && 0 <= x < a.Length1 ==> low <= a[y, x] <= high
  }

  ghost predicate Occurs(a: array2<real>, h: real)
    reads a
  {
    exists y, x :: 0 <= y < a.Length0 && 0 <= x < a.Length1 && a[y, x] == h
  }

  /** The scan of one array, going on from the extremes found so far. */
  method Scan(a: array2<real>, highest: real, lowest: real) returns (maxHeight: real, minHeight: real)
    ensures AllWithin(a, minHeight, maxHeight) && minHeight <= lowest && highest <= maxHeight
    ensures maxHeight == highest || Occurs(a, maxHeight)
    ensures minHeight == lowest || Occurs(a, minHeight)
  {
    maxHeight, minHeight := highest, lowest;
    for y := 0 to a.Length0
      invariant minHeight <= lowest && highest <= maxHeight
      invariant forall j, x :: 0 <= j < y && 0 <= x < a.Length1 ==> minHeight <= a[j, x] <= maxHeight
      invariant maxHeight == highest || Occurs(a, maxHeight)
      invariant minHeight == lowest || Occurs(a, minHeight)
    {
      for x := 0 to a.Length1
        invariant minHeight <= lowest && highest <= maxHeight
        invariant forall j, i :: 0 <= j < y && 0 <= i < a.Length1 ==> minHeight <= a[j, i] <= maxHeight
        invariant forall i :: 0 <= i < x ==> minHeight <= a[y, i] <= maxHeight
        invariant maxHeight == highest || Occurs(a, maxHeight)
        invariant minHeight == lowest || Occurs(a, minHeight)
      {
        var h := a[y, x];
        if maxHeight < h {
          maxHeight := h;
        }
        if minHeight > h {
          minHeight := h;
        }
      }
    }
  }

  function Raised(h: real, limit: real): real {
    if h < limit then limit else h
  }

  method RaiseTo(a: array2<real>, limit: real)
    modifies a
    ensures forall y, x :: 0 <= y < a.Length0 && 0 <= x < a.Length1 ==> a[y, x] == Raised(old(a[y, x]), limit)
  {
    for y := 0 to a.Length0
      invariant forall j, x :: 0 <= j < a.Length0 && 0 <= x < a.Length1 ==>
                  a[j, x] == if j < y then Raised(old(a[j, x]), limit) else old(a[j, x])
    {
      for x := 0 to a.Length1
        invariant forall j, i :: 0 <= j < a.Length0 && 0 <= i < a.Length1 ==>
                    a[j, i] == if j < y || (j == y && i < x) then Raised(old(a[j, i]), limit) else old(a[j, i])
      {
        if a[y, x] < limit {
          a[y, x] := limit;
        }
      }
    }
  }

  /** Finds the extremes and, if allowed, raises what is too low. Then all heights are between the extremes,
      and both occur. */
  method Bound(V8: array2<real>, V9: array2<real>, allowHeightLimit: bool) returns (maxHeight: real, minHeight: real)
    requires V8 != V9 && V8.Length0 == V8.Length1 == GRID_SIZE && V9.Length0 == V9.Length1 == GRID_SIZE + 1
    requires forall y, x :: 0 <= y < V8.Length0 && 0 <= x < V8.Length1 ==> -20000.0 < V8[y, x] < 20000.0
    requires forall y, x :: 0 <= y < V9.Length0 && 0 <= x < V9.Length1 ==> -20000.0 < V9[y, x] < 20000.0
    modifies V8, V9
    ensures AllWithin(V8, minHeight, maxHeight) && AllWithin(V9, minHeight, maxHeight)
    ensures Occurs(V8, minHeight) || Occurs(V9, minHeight)
    ensures Occurs(V8, maxHeight) || Occurs(V9, maxHeight)
    ensures forall y, x :: 0 <= y < V8.Length0 && 0 <= x < V8.Length1 ==>
              V8[y, x] == if allowHeightLimit then Raised(old(V8[y, x]), USE_MIN_HEIGHT) else old(V8[y, x])
    ensures forall y, x :: 0 <= y < V9.Length0 && 0 <= x < V9.Length1 ==>
              V9[y, x] == if allowHeightLimit then Raised(old(V9[y, x]), USE_MIN_HEIGHT) else old(V9[y, x])
  {
    maxHeight, minHeight := -20000.0, 20000.0;
    maxHeight, minHeight := Scan(V8, maxHeight, minHeight);
    assert minHeight <= V8[0, 0] <= maxHeight;
    maxHeight, minHeight := Scan(V9, maxHeight, minHeight);
    if allowHeightLimit && minHeight < USE_MIN_HEIGHT {
      ghost var low, high := minHeight, maxHeight;
      RaiseTo(V8, USE_MIN_HEIGHT);
      RaiseTo(V9, USE_MIN_HEIGHT);
      if minHeight < USE_MIN_HEIGHT {
        minHeight := USE_MIN_HEIGHT;
      }
      if maxHeight < USE_MIN_HEIGHT {
        maxHeight := USE_MIN_HEIGHT;
      }
    }
  }

  // ---------- packing to integers ----------

  /** selectUInt8StepStore and selectUInt16StepStore */
  function StepStore(top: nat, maxDiff: real): real
    requires maxDiff > 0.0
  {
    top as real / maxDiff
  }

  /** The integer a height is stored as: rounded to the nearest step. */
  function Packed(h: real, minHeight: real, step: real): int {
    ((h - minHeight) * step + 0.5).Floor
  }

  /** The height an integer stands for: packing undone. */
  function Unpacked(p: int, minHeight: real, step: real): real
    requires step != 0.0
  {
    minHeight + p as real / step
  }

  lemma StepTimesDiff(top: nat, diff: real)
    requires diff > 0.0 && top > 0
    ensures StepStore(top, diff) > 0.0 && diff * StepStore(top, diff) == top as real
  {
  }

  lemma ScaledWithin(part: real, diff: real, step: real)
    requires 0.0 <= part <= diff && step > 0.0
    ensures 0.0 <= part * step <= diff * step
  {
  }

  lemma DivideBack(a: real, step: real)
    requires step > 0.0
    ensures a * step / step == a
  {
  }

  lemma QuotientsClose(a: real, b: real, step: real, bound: real)
    requires step > 0.0 && 0.0 - bound <= a - b <= bound
    ensures 0.0 - bound / step <= a / step - b / step <= bound / step
  {
    assert a / step - b / step == (a - b) / step;
  }

  /** A packed height fits its range, and unpacks to within half a step of the original: for 255 steps over
      diff that is diff / 510, for 65535 steps diff / 131070. */
  lemma PackingIsClose(h: real, minHeight: real, diff: real, top: nat)
    requires diff > 0.0 && top > 0 && minHeight <= h <= minHeight + diff
    ensures var step := StepStore(top, diff);
            && 0 <= Packed(h, minHeight, step) <= top
            && step != 0.0
            && h - diff / (2 * top) as real <= Unpacked(Packed(h, minHeight, step), minHeight, step)
                                            <= h + diff / (2 * top) as real
  {
    var step := StepStore(top, diff);
    StepTimesDiff(top, diff);
    var part := h - minHeight;
    ScaledWithin(part, diff, step);
    var p := Packed(h, minHeight, step);
    DivideBack(part, step);
    QuotientsClose(p as real, part * step, step, 0.5);
    HalfStep(top, diff);
  }

  lemma HalfStep(top: nat, diff: real)
    requires diff > 0.0 && top > 0
    ensures 0.5 / StepStore(top, diff) == diff / (2 * top) as real
  {
  }

  /** The extremes are kept exactly: the lowest height packs to 0, the highest to the top of the range. */
  lemma ExtremesAreExact(minHeight: real, diff: real, top: nat)
    requires diff > 0.0 && top > 0
    ensures Packed(minHeight, minHeight, StepStore(top, diff)) == 0
    ensures Packed(minHeight + diff, minHeight, StepStore(top, diff)) == top
  {
    StepTimesDiff(top, diff);
  }

  /** Higher places never pack lower. */
  lemma PackingIsMonotone(g: real, h: real, minHeight: real, step: real)
    requires g <= h && step > 0.0
    ensures Packed(g, minHeight, step) <= Packed(h, minHeight, step)
  {
    ScaledWithin(h - g, h - g, step);
    assert (h - minHeight) * step - (g - minHeight) * step == (h - g) * step;
  }

  datatype Packing = Flat | Int8 | Int16 | Float

  /** How a grid between these extremes is stored. */
  function PackingOf(minHeight: real, maxHeight: real, allowFloatToInt: bool): Packing {
    if maxHeight == minHeight || (allowFloatToInt && maxHeight - minHeight < FLAT_HEIGHT_DELTA_LIMIT) then Flat
    else if !allowFloatToInt then Float
    else if maxHeight - minHeight < FLOAT_TO_INT8_LIMIT then Int8
    else if maxHeight - minHeight < FLOAT_TO_INT16_LIMIT then Int16
    else Float
  }

  /** A grid stored as one height is off by less than the allowed delta anywhere. */
  lemma FlatIsClose(a: array2<real>, minHeight: real, maxHeight: real, allowFloatToInt: bool, y: nat, x: nat)
    requires AllWithin(a, minHeight, maxHeight) && PackingOf(minHeight, maxHeight, allowFloatToInt) == Flat
    requires y < a.Length0 && x < a.Length1
    ensures 0.0 <= a[y, x] - minHeight < FLAT_HEIGHT_DELTA_LIMIT
  {
    assert minHeight <= a[y, x] <= maxHeight;
  }

  /** The integers are used exactly below a difference of 2048 that is not flat, and so finely that no height is off by
      more than a 64th. */
  lemma PackingIsPrecise(minHeight: real, maxHeight: real, allowFloatToInt: bool)
    requires minHeight <= maxHeight
    ensures var packing, diff := PackingOf(minHeight, maxHeight, allowFloatToInt), maxHeight - minHeight;
            && (packing.Int8? || packing.Int16? <==> allowFloatToInt && FLAT_HEIGHT_DELTA_LIMIT <= diff < 2048.0)
            && (packing.Int8? || packing.Int16? ==> diff / (2 * TopOf(packing)) as real < 0.015626)
            && (packing.Int8? <==> allowFloatToInt && FLAT_HEIGHT_DELTA_LIMIT <= diff < 2.0)
            && (packing.Float? <==> diff > 0.0 && (!allowFloatToInt || diff >= 2048.0))
  {
  }

  function TopOf(packing: Packing): nat {
    if packing == Int8 then 255 else 65535
  }

  method PackArray(a: array2<real>, minHeight: real, step: real) returns (p: array2<int>)
    ensures fresh(p) && p.Length0 == a.Length0 && p.Length1 == a.Length1
    ensures forall y, x :: 0 <= y < a.Length0 && 0 <= x < a.Length1 ==> p[y, x] == Packed(a[y, x], minHeight, step)
  {
    p := new int[a.Length0, a.Length1];
    for y := 0 to a.Length0
      invariant forall j, x :: 0 <= j < y && 0 <= x < a.Length1 ==> p[j, x] == Packed(a[j, x], minHeight, step)
    {
      for x := 0 to a.Length1
        invariant forall j, i :: 0 <= j < y && 0 <= i < a.Length1 ==> p[j, i] == Packed(a[j, i], minHeight, step)
        invariant forall i :: 0 <= i < x ==> p[y, i] == Packed(a[y, i], minHeight, step)
      {
        p[y, x] := ((a[y, x] - minHeight) * step + 0.5).Floor;
      }
    }
  }

  /** Each stored integer is in range and unpacks to within diff / (2 * top) of the height. */
  ghost predicate StoredClosely(a: array2<real>, p: array2<int>, minHeight: real, diff: real, top: nat)
    requires diff > 0.0 && top > 0
    reads a, p
  {
    && p.Length0 == a.Length0 && p.Length1 == a.Length1
    && forall y, x :: 0 <= y < a.Length0 && 0 <= x < a.Length1 ==>
         0 <= p[y, x] <= top && UnpacksTo(p[y, x], a[y, x], minHeight, diff, top)
  }

  predicate UnpacksTo(p: int, h: real, minHeight: real, diff: real, top: nat)
    requires diff > 0.0 && top > 0
  {
    var step := StepStore(top, diff);
    step != 0.0 && h - diff / (2 * top) as real <= Unpacked(p, minHeight, step) <= h + diff / (2 * top) as real
  }

  /** The height section's header and, where heights are packed, their integers. */
  method PackHeights(V8: array2<real>, V9: array2<real>, minHeight: real, maxHeight: real, allowFloatToInt: bool)
    returns (packing: Packing, P8: array2<int>, P9: array2<int>, size: nat)
    requires V8.Length0 == V8.Length1 == GRID_SIZE && V9.Length0 == V9.Length1 == GRID_SIZE + 1
    requires minHeight <= maxHeight && AllWithin(V8, minHeight, maxHeight) && AllWithin(V9, minHeight, maxHeight)
    ensures packing == PackingOf(minHeight, maxHeight, allowFloatToInt)
    ensures packing.Int8? || packing.Int16? ==>
              maxHeight > minHeight
              && StoredClosely(V8, P8, minHeight, maxHeight - minHeight, TopOf(packing))
              && StoredClosely(V9, P9, minHeight, maxHeight - minHeight, TopOf(packing))
    ensures size == HeightSize(packing)
  {
    size := HEIGHT_HEADER_SIZE;
    P8 := new int[0, 0];
    P9 := new int[0, 0];
    if maxHeight == minHeight || (allowFloatToInt && maxHeight - minHeight < FLAT_HEIGHT_DELTA_LIMIT) {
      return Flat, P8, P9, size;
    }
    packing := Float;
    var step := 0.0;
    if allowFloatToInt {
      var diff := maxHeight - minHeight;
      if diff < FLOAT_TO_INT8_LIMIT {
        packing := Int8;
        step := StepStore(255, diff);
      } else if diff < FLOAT_TO_INT16_LIMIT {
        packing := Int16;
        step := StepStore(65535, diff);
      }
    }
    if packing == Float {
      size := size + 4 * (GRID_SIZE + 1) * (GRID_SIZE + 1) + 4 * GRID_SIZE * GRID_SIZE;
      return;
    }
    P8 := PackArray(V8, minHeight, step);
    P9 := PackArray(V9, minHeight, step);
    ArrayStoredClosely(V8, P8, minHeight, maxHeight, TopOf(packing));
    ArrayStoredClosely(V9, P9, minHeight, maxHeight, TopOf(packing));
    if packing == Int8 {
      size := size + (GRID_SIZE + 1) * (GRID_SIZE + 1) + GRID_SIZE * GRID_SIZE;
    } else {
      size := size + 2 * (GRID_SIZE + 1) * (GRID_SIZE + 1) + 2 * GRID_SIZE * GRID_SIZE;
    }
  }

  lemma ArrayStoredClosely(a: array2<real>, p: array2<int>, minHeight: real, maxHeight: real, top: nat)
    requires maxHeight > minHeight && top > 0 && AllWithin(a, minHeight, maxHeight)
    requires p.Length0 == a.Length0 && p.Length1 == a.Length1
    requires forall y, x :: 0 <= y < a.Length0 && 0 <= x < a.Length1 ==>
               p[y, x] == Packed(a[y, x], minHeight, StepStore(top, maxHeight - minHeight))
    ensures StoredClosely(a, p, minHeight, maxHeight - minHeight, top)
  {
    forall y, x | 0 <= y < a.Length0 && 0 <= x < a.Length1
      ensures 0 <= p[y, x] <= top && UnpacksTo(p[y, x], a[y, x], minHeight, maxHeight - minHeight, top)
    {
      PackingIsClose(a[y, x], minHeight, maxHeight - minHeight, top);
    }
  }

  // ---------- sizes ----------

  const HEIGHT_HEADER_SIZE: nat := 16

  /** The bytes of the height section: the header, and 129 * 129 corners and 128 * 128 centres. */
  function HeightSize(packing: Packing): nat {
    match packing
    case Flat => 16
    case Int8 => 33041
    case Int16 => 66066
    case Float => 132116
  }
}
