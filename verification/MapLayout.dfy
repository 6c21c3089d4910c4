/** The liquid part and the layout of a map file: contrib/extractor/System.cpp, ConvertADT. */
module MapLayout {
  import opened Basics
  import opened MapHeights

  const CELLS: nat := 16

  // ---------- the liquid's bounding box ----------

  datatype Box = Box(minX: int, minY: int, maxX: int, maxY: int)

  const NO_BOX: Box := Box(255, 255, 0, 0)

  predicate InBox(b: Box, y: int, x: int) {
    b.minY <= y <= b.maxY && b.minX <= x <= b.maxX
  }

  function Grown(b: Box, y: int, x: int): Box {
    Box(if b.minX > x then x else b.minX, if b.minY > y then y else b.minY,
        if b.maxX < x then x else b.maxX, if b.maxY < y then y else b.maxY)
  }

  /** Some shown square. */
  ghost predicate Shown(show: array2<bool>)
    reads show
  {
    exists y, x :: 0 <= y < show.Length0 && 0 <= x < show.Length1 && show[y, x]
  }

  /** Every edge of the box has a shown square on it. */
  ghost predicate Tight(show: array2<bool>, b: Box)
    reads show
  {
    && (exists y, x :: 0 <= y < show.Length0 && 0 <= x < show.Length1 && show[y, x] && x == b.minX)
    && (exists y, x :: 0 <= y < show.Length0 && 0 <= x < show.Length1 && show[y, x] && x == b.maxX)
    && (exists y, x :: 0 <= y < show.Length0 && 0 <= x < show.Length1 && show[y, x] && y == b.minY)
    && (exists y, x :: 0 <= y < show.Length0 && 0 <= x < show.Length1 && show[y, x] && y == b.maxY)
  }

  /** The squares scanned so far: those in rows above row y, and in row y left of x. */
  predicate Before(j: int, i: int, y: int, x: int) {
    j < y || (j == y && i < x)
  }

  ghost predicate BoxOf(show: array2<bool>, y: int, x: int, b: Box)
    reads show
  {
    && (forall j, i ::
          0 <= j < show.Length0 && 0 <= i < show.Length1 && Before(j, i, y, x) && show[j, i] ==> InBox(b, j, i))
    && (b == NO_BOX || (Tight(show, b) && 0 <= b.minX <= b.maxX && 0 <= b.minY <= b.maxY))
  }

  lemma BoxGrows(show: array2<bool>, y: int, x: int, b: Box)
    requires 0 <= y < show.Length0 <= GRID_SIZE && 0 <= x < show.Length1 <= GRID_SIZE
    requires show[y, x] && BoxOf(show, y, x, b)
    ensures BoxOf(show, y, x + 1, Grown(b, y, x)) && Grown(b, y, x) != NO_BOX
  {
  }

  /** The scanned heights so far lie between the extremes; before anything shown there are none. */
  predicate Extremes(b: Box, maxHeight: real, minHeight: real) {
    if b == NO_BOX then minHeight == 20000.0 && maxHeight == -20000.0 else minHeight <= maxHeight
  }

  function Higher(a: real, b: real): real {
    if a < b then b else a
  }

  function Lower(a: real, b: real): real {
    if a > b then b else a
  }

  /** A square of the grid. */
  datatype Cell = Cell(y: Coordinate, x: Coordinate)

  type Coordinate = n: nat | n < GRID_SIZE

  /** One square: shown, it belongs to the box and its height counts; hidden, it gets the least storable height. */
  method ScanSquare(show: array2<bool>, height: array2<real>, y: nat, x: nat, b0: Box, max0: real, min0: real)
    returns (b: Box, maxHeight: real, minHeight: real)
    requires show.Length0 == show.Length1 == GRID_SIZE && y < GRID_SIZE && x < GRID_SIZE
    requires height.Length0 == height.Length1 == GRID_SIZE + 1
    requires -20000.0 < height[y, x] < 20000.0 && BoxOf(show, y, x, b0) && Extremes(b0, max0, min0)
    modifies height
    ensures BoxOf(show, y, x + 1, b) && Extremes(b, maxHeight, minHeight)
    ensures height[y, x] == if show[y, x] then old(height[y, x]) else USE_MIN_HEIGHT
    ensures forall j, i :: 0 <= j <= GRID_SIZE && 0 <= i <= GRID_SIZE && !(j == y && i == x) ==>
              height[j, i] == old(height[j, i])
    ensures if show[y, x]
            then b != NO_BOX && maxHeight == Higher(max0, height[y, x]) && minHeight == Lower(min0, height[y, x])
            else b == b0 && maxHeight == max0 && minHeight == min0
  {
    b, maxHeight, minHeight := b0, max0, min0;
    if show[y, x] {
      BoxGrows(show, y, x, b);
      b := Grown(b, y, x);
      if maxHeight < height[y, x] {
        maxHeight := height[y, x];
      }
      if minHeight > height[y, x] {
        minHeight := height[y, x];
      }
    } else {
      BoxSkips(show, y, x, b);
      height[y, x] := USE_MIN_HEIGHT;
    }
  }

  /** One row, from left to right. */
  method ScanRow(show: array2<bool>, height: array2<real>, y: nat, b0: Box, max0: real, min0: real)
    returns (b: Box, maxHeight: real, minHeight: real, ghost top: Cell, ghost low: Cell)
    requires show.Length0 == show.Length1 == GRID_SIZE && y < GRID_SIZE
    requires height.Length0 == height.Length1 == GRID_SIZE + 1
    requires forall i :: 0 <= i < GRID_SIZE ==> -20000.0 < height[y, i] < 20000.0
    requires BoxOf(show, y, 0, b0) && Extremes(b0, max0, min0)
    modifies height
    ensures BoxOf(show, y, GRID_SIZE, b) && Extremes(b, maxHeight, minHeight) && minHeight <= min0 && max0 <= maxHeight
    ensures forall i :: 0 <= i < GRID_SIZE ==> height[y, i] == if show[y, i] then old(height[y, i]) else USE_MIN_HEIGHT
    ensures forall i :: 0 <= i < GRID_SIZE && show[y, i] ==> minHeight <= height[y, i] <= maxHeight
    ensures maxHeight == max0 || (top.y == y && show[y, top.x] && height[y, top.x] == maxHeight)
    ensures minHeight == min0 || (low.y == y && show[y, low.x] && height[y, low.x] == minHeight)
    ensures b0 == NO_BOX && b != NO_BOX ==> maxHeight != max0 && minHeight != min0
    ensures forall j, i :: 0 <= j <= GRID_SIZE && 0 <= i <= GRID_SIZE && j != y ==> height[j, i] == old(height[j, i])
  {
    b, maxHeight, minHeight, top, low := b0, max0, min0, Cell(0, 0), Cell(0, 0);
    for x := 0 to GRID_SIZE
      invariant BoxOf(show, y, x, b) && Extremes(b, maxHeight, minHeight) && minHeight <= min0 && max0 <= maxHeight
      invariant forall i :: 0 <= i < x ==> height[y, i] == if show[y, i] then old(height[y, i]) else USE_MIN_HEIGHT
      invariant forall i :: x <= i < GRID_SIZE ==> height[y, i] == old(height[y, i])
      invariant forall i :: 0 <= i < x && show[y, i] ==> minHeight <= height[y, i] <= maxHeight
      invariant maxHeight == max0 || (top.y == y && top.x < x && show[y, top.x] && height[y, top.x] == maxHeight)
      invariant minHeight == min0 || (low.y == y && low.x < x && show[y, low.x] && height[y, low.x] == minHeight)
      invariant b0 == NO_BOX && b != NO_BOX ==> maxHeight > max0 && minHeight < min0
      invariant forall j, i ::
        0 <= j <= GRID_SIZE && 0 <= i <= GRID_SIZE && j != y ==> height[j, i] == old(height[j, i])
    {
      ghost var before, beneath := maxHeight, minHeight;
      b, maxHeight, minHeight := ScanSquare(show, height, y, x, b, maxHeight, minHeight);
      top := if maxHeight == before then top else Cell(y, x);
      low := if minHeight == beneath then low else Cell(y, x);
    }
  }

  lemma BoxSkips(show: array2<bool>, y: int, x: int, b: Box)
    requires 0 <= y < show.Length0 && 0 <= x < show.Length1 && !show[y, x] && BoxOf(show, y, x, b)
    ensures BoxOf(show, y, x + 1, b)
  {
  }

  lemma BoxNextRow(show: array2<bool>, y: int, b: Box)
    requires 0 <= y && BoxOf(show, y, show.Length1, b)
    ensures BoxOf(show, y + 1, 0, b)
  {
  }

  /** What the scan has made of the rows above row y. */
  twostate predicate RowsScanned(show: array2<bool>, height: array2<real>, y: nat, maxHeight: real, minHeight: real)
    requires show.Length0 == show.Length1 == GRID_SIZE
    requires height.Length0 == height.Length1 == GRID_SIZE + 1
    reads show, height
  {
    && (forall j, i :: 0 <= j < y && j < GRID_SIZE && 0 <= i < GRID_SIZE ==>
          height[j, i] == if show[j, i] then old(height[j, i]) else USE_MIN_HEIGHT)
    && (forall j, i :: 0 <= j < y && j < GRID_SIZE && 0 <= i < GRID_SIZE && show[j, i] ==>
          minHeight <= height[j, i] <= maxHeight)
  }

  /** A shown square with that height in one of the first rows, if there is anything shown. */
  ghost predicate Reached(show: array2<bool>, height: array2<real>, y: nat, b: Box, cell: Cell, h: real)
    requires show.Length0 == show.Length1 == GRID_SIZE
    requires height.Length0 == height.Length1 == GRID_SIZE + 1
    reads show, height
  {
    b != NO_BOX ==> cell.y < y && show[cell.y, cell.x] && height[cell.y, cell.x] == h
  }

  /** The scan over the liquid squares: the box of the shown ones, the extremes of their heights, and the
      least storable height put where nothing is shown. */
  method LiquidBox(show: array2<bool>, height: array2<real>)
    returns (b: Box, maxHeight: real, minHeight: real, ghost top: Cell, ghost low: Cell)
    requires show.Length0 == show.Length1 == GRID_SIZE
    requires height.Length0 == height.Length1 == GRID_SIZE + 1
    requires forall y, x :: 0 <= y < height.Length0 && 0 <= x < height.Length1 ==> -20000.0 < height[y, x] < 20000.0
    modifies height
    ensures BoxOf(show, GRID_SIZE, 0, b) && (b == NO_BOX <==> !Shown(show)) && Extremes(b, maxHeight, minHeight)
    ensures RowsScanned(show, height, GRID_SIZE, maxHeight, minHeight)
    ensures Shown(show) ==> show[top.y, top.x] && height[top.y, top.x] == maxHeight
    ensures Shown(show) ==> show[low.y, low.x] && height[low.y, low.x] == minHeight
  {
    b, top, low := NO_BOX, Cell(0, 0), Cell(0, 0);
    maxHeight, minHeight := -20000.0, 20000.0;
    for y := 0 to GRID_SIZE
      invariant BoxOf(show, y, 0, b) && Extremes(b, maxHeight, minHeight)
      invariant RowsScanned(show, height, y, maxHeight, minHeight)
      invariant forall j, i :: y <= j < GRID_SIZE && 0 <= i < GRID_SIZE ==> height[j, i] == old(height[j, i])
      invariant Reached(show, height, y, b, top, maxHeight) && Reached(show, height, y, b, low, minHeight)
    {
      ghost var max0, min0, rowTop, rowLow := maxHeight, minHeight, top, low;
      b, maxHeight, minHeight, rowTop, rowLow := ScanRow(show, height, y, b, maxHeight, minHeight);
      top := if maxHeight == max0 then top else rowTop;
      low := if minHeight == min0 then low else rowLow;
      BoxNextRow(show, y, b);
      assert RowsScanned(show, height, y + 1, maxHeight, minHeight);
    }
    BoxTells(show, b);
  }

  lemma BoxTells(show: array2<bool>, b: Box)
    requires show.Length0 == show.Length1 == GRID_SIZE && BoxOf(show, GRID_SIZE, 0, b)
    ensures b == NO_BOX <==> !Shown(show)
  {
    if Shown(show) {
      var y, x :| 0 <= y < show.Length0 && 0 <= x < show.Length1 && show[y, x];
      assert Before(y, x, GRID_SIZE, 0);
    }
  }

  // ---------- the liquid header ----------

  datatype LiquidHeader = LiquidHeader(
    offsetX: nat, offsetY: nat, width: nat, height: nat, noHeight: bool, noType: bool)

  method MakeLiquidHeader(b: Box, maxHeight: real, minHeight: real, fullType: bool, allowFloatToInt: bool)
    returns (h: LiquidHeader, size: nat)
    ensures h == LiquidHeader(Byte(b.minX), Byte(b.minY), Byte(b.maxX - b.minX + 2), Byte(b.maxY - b.minY + 2),
                              NoHeight(maxHeight, minHeight, allowFloatToInt), !fullType)
    ensures size == LiquidSize(h)
  {
    size := 16;
    h := LiquidHeader(Byte(b.minX), Byte(b.minY), Byte(b.maxX - b.minX + 1 + 1), Byte(b.maxY - b.minY + 1 + 1),
                      false, false);
    if maxHeight == minHeight {
      h := h.(noHeight := true);
    }
    if allowFloatToInt && maxHeight - minHeight < FLAT_LIQUID_DELTA_LIMIT {
      h := h.(noHeight := true);
    }
    if !fullType {
      h := h.(noType := true);
    }
    if !h.noType {
      size := size + 512 + 256;
    }
    if !h.noHeight {
      size := size + 4 * h.width * h.height;
    }
  }

  predicate NoHeight(maxHeight: real, minHeight: real, allowFloatToInt: bool) {
    maxHeight == minHeight || (allowFloatToInt && maxHeight - minHeight < FLAT_LIQUID_DELTA_LIMIT)
  }

  /** Where liquid heights may be left out, they differ by less than a thousandth, and otherwise by nothing. */
  lemma FlatLiquidIsClose(maxHeight: real, minHeight: real, allowFloatToInt: bool)
    requires minHeight <= maxHeight
    ensures NoHeight(maxHeight, minHeight, allowFloatToInt) <==>
              maxHeight - minHeight < 0.001 && (allowFloatToInt || maxHeight - minHeight <= 0.0)
  {
  }

  /** The header's 16 bytes, entries and flags of 16 * 16 cells, the box of heights. */
  function LiquidSize(h: LiquidHeader): nat {
    16 + (if h.noType then 0 else 512 + 256) + (if h.noHeight then 0 else 4 * h.width * h.height)
  }

  /** The stored heights are read from within the 129 * 129 array. */
  predicate RowsInBounds(h: LiquidHeader) {
    h.noHeight || (h.offsetX + h.width <= GRID_SIZE + 1 && h.offsetY + h.height <= GRID_SIZE + 1)
  }

  lemma BoxInGrid(show: array2<bool>, b: Box)
    requires show.Length0 == show.Length1 == GRID_SIZE && BoxOf(show, GRID_SIZE, 0, b) && b != NO_BOX
    ensures 0 <= b.minX <= b.maxX < GRID_SIZE && 0 <= b.minY <= b.maxY < GRID_SIZE
  {
  }

  /** The heights stored are within the array exactly when some liquid is shown or flat liquids need not be
      stored: with a liquid type but nothing shown, the box is empty and its corner outside the grid. */
  lemma LiquidHeightsInBounds(show: array2<bool>, b: Box, maxHeight: real, minHeight: real, fullType: bool,
                              allowFloatToInt: bool)
    requires show.Length0 == show.Length1 == GRID_SIZE
    requires BoxOf(show, GRID_SIZE, 0, b) && Extremes(b, maxHeight, minHeight)
    ensures var h := LiquidHeader(Byte(b.minX), Byte(b.minY), Byte(b.maxX - b.minX + 2), Byte(b.maxY - b.minY + 2),
                                  NoHeight(maxHeight, minHeight, allowFloatToInt), !fullType);
            RowsInBounds(h) <==> Shown(show) || allowFloatToInt
  {
    BoxTells(show, b);
    if b == NO_BOX {
      assert Byte(0 - 253) == 3;
    } else {
      BoxInGrid(show, b);
    }
  }

  /** Where something is shown the box is stored as it is, one more column and row for the last corners. */
  lemma LiquidBoxIsStored(show: array2<bool>, b: Box)
    requires show.Length0 == show.Length1 == GRID_SIZE && BoxOf(show, GRID_SIZE, 0, b) && b != NO_BOX
    ensures Byte(b.minX) == b.minX && Byte(b.minY) == b.minY
    ensures Byte(b.maxX - b.minX + 2) == b.maxX - b.minX + 2 && Byte(b.maxY - b.minY + 2) == b.maxY - b.minY + 2
  {
    BoxInGrid(show, b);
  }

  // ---------- the file ----------

  datatype Section = Head | Area | Height | Liquid | Holes

  /** One fwrite: so many bytes of a section. */
  datatype Chunk = Chunk(section: Section, bytes: nat)

  function Bytes(file: seq<Chunk>): nat {
    if file == [] then 0 else Bytes(file[..|file| - 1]) + file[|file| - 1].bytes
  }

  datatype FileHeader = FileHeader(
    areaMapOffset: nat, areaMapSize: nat, heightMapOffset: nat, heightMapSize: nat,
    liquidMapOffset: nat, liquidMapSize: nat, holesOffset: nat, holesSize: nat)

  /** What a grid has to store: area flags one by one, its heights' packing, and its liquid, if any. */
  datatype Contents = Contents(fullAreaData: bool, packing: Packing, liquid: Option<LiquidHeader>)

  /** Each section follows the one before; a file without liquid has no liquid section. */
  predicate Describes(header: FileHeader, c: Contents) {
    && header.areaMapOffset == 40 && header.areaMapSize == (if c.fullAreaData then 8 + 512 else 8)
    && header.heightMapOffset == header.areaMapOffset + header.areaMapSize
    && header.heightMapSize == HeightSize(c.packing)
    && header.liquidMapOffset == (if c.liquid.Some? then header.heightMapOffset + header.heightMapSize else 0)
    && header.liquidMapSize == (if c.liquid.Some? then LiquidSize(c.liquid.value) else 0)
    && header.holesOffset == header.heightMapOffset + header.heightMapSize + header.liquidMapSize
    && header.holesSize == 512
  }

  /** Offsets and sizes, in the order in which ConvertADT comes to know them. */
  method MakeHeader(c: Contents) returns (header: FileHeader)
    ensures Describes(header, c)
  {
    var areaMapOffset, areaMapSize := 40, 8;
    if c.fullAreaData {
      areaMapSize := areaMapSize + 2 * CELLS * CELLS;
    }
    var heightMapOffset := areaMapOffset + areaMapSize;
    var heightMapSize := HeightSize(c.packing);
    var liquidMapOffset, liquidMapSize := 0, 0;
    if c.liquid.Some? {
      liquidMapOffset := heightMapOffset + heightMapSize;
      liquidMapSize := LiquidSize(c.liquid.value);
    }
    var holesOffset;
    if liquidMapOffset != 0 {
      holesOffset := liquidMapOffset + liquidMapSize;
    } else {
      holesOffset := heightMapOffset + heightMapSize;
    }
    header := FileHeader(areaMapOffset, areaMapSize, heightMapOffset, heightMapSize,
                       liquidMapOffset, liquidMapSize, holesOffset, 2 * CELLS * CELLS);
  }

  /** The chunks from i to j are those of one section. */
  predicate Spans(file: seq<Chunk>, i: nat, j: nat, section: Section) {
    i <= j <= |file| && forall k :: 0 <= k < |file| ==> (file[k].section == section <==> i <= k < j)
  }

  method WriteArea(c: Contents) returns (part: seq<Chunk>)
    ensures Bytes(part) == if c.fullAreaData then 8 + 512 else 8
    ensures AllOf(part, Area)
  {
    part := [Chunk(Area, 8)];
    BytesOfOne(Chunk(Area, 8));
    if c.fullAreaData {
      BytesAppend(part, Chunk(Area, 512));
      part := part + [Chunk(Area, 512)];
    }
  }

  method WriteHeight(c: Contents) returns (part: seq<Chunk>)
    ensures Bytes(part) == HeightSize(c.packing)
    ensures AllOf(part, Height)
  {
    part := [Chunk(Height, HEIGHT_HEADER_SIZE)];
    BytesOfOne(Chunk(Height, HEIGHT_HEADER_SIZE));
    if c.packing != Flat {
      var width := if c.packing == Int8 then 1 else if c.packing == Int16 then 2 else 4;
      var corners := Chunk(Height, width * ((GRID_SIZE + 1) * (GRID_SIZE + 1)));
      var centres := Chunk(Height, width * (GRID_SIZE * GRID_SIZE));
      BytesAppend(part, corners);
      part := part + [corners];
      BytesAppend(part, centres);
      part := part + [centres];
    }
  }

  method WriteLiquid(h: LiquidHeader) returns (part: seq<Chunk>)
    ensures Bytes(part) == LiquidSize(h)
    ensures AllOf(part, Liquid)
  {
    part := [Chunk(Liquid, 16)];
    BytesOfOne(Chunk(Liquid, 16));
    if !h.noType {
      BytesAppend(part, Chunk(Liquid, 512));
      part := part + [Chunk(Liquid, 512)];
      BytesAppend(part, Chunk(Liquid, 256));
      part := part + [Chunk(Liquid, 256)];
    }
    if !h.noHeight {
      ghost var before := Bytes(part);
      var row := 4 * h.width;
      for y := 0 to h.height
        invariant Bytes(part) == before + row * y
        invariant AllOf(part, Liquid)
      {
        BytesAppend(part, Chunk(Liquid, row));
        part := part + [Chunk(Liquid, row)];
      }
    }
  }

  lemma BytesOfOne(c: Chunk)
    ensures Bytes([c]) == c.bytes
  {
    assert [c][..0] == [];
  }

  lemma BytesAppend(part: seq<Chunk>, c: Chunk)
    ensures Bytes(part + [c]) == Bytes(part) + c.bytes
  {
    assert (part + [c])[..|part|] == part;
  }

  lemma {:induction false} BytesAdd(a: seq<Chunk>, b: seq<Chunk>)
    ensures Bytes(a + b) == Bytes(a) + Bytes(b)
  {
    if b == [] {
      assert a + b == a;
    } else {
      BytesAdd(a, b[..|b| - 1]);
      assert (a + b)[..|a + b| - 1] == a + b[..|b| - 1];
    }
  }

  predicate AllOf(part: seq<Chunk>, section: Section) {
    forall k :: 0 <= k < |part| ==> part[k].section == section
  }

  predicate NoneOf(part: seq<Chunk>, section: Section) {
    forall k :: 0 <= k < |part| ==> part[k].section != section
  }

  lemma NoneJoined(a: seq<Chunk>, b: seq<Chunk>, s: Section)
    requires NoneOf(a, s) && NoneOf(b, s)
    ensures NoneOf(a + b, s)
  {
  }

  /** Section s is what stands from chunk i to chunk j, starts at that byte and has that size. */
  predicate Placed(file: seq<Chunk>, i: nat, j: nat, s: Section, offset: nat, size: nat) {
    Spans(file, i, j, s) && Bytes(file[..i]) == offset && Bytes(file[i..j]) == size
  }

  /** The parts before and after do not matter, but for the bytes before. */
  lemma PartPlaced(file: seq<Chunk>, a: seq<Chunk>, b: seq<Chunk>, rest: seq<Chunk>, s: Section)
    requires file == a + b + rest && AllOf(b, s) && NoneOf(a, s) && NoneOf(rest, s)
    ensures Placed(file, |a|, |a| + |b|, s, Bytes(a), Bytes(b))
  {
    assert file[..|a|] == a && file[|a|..|a| + |b|] == b;
  }

  /** Writes the file: every section starts at the byte its offset says, and has as many bytes as its size
      says. */
  method WriteFile(c: Contents, header: FileHeader)
    returns (file: seq<Chunk>, area: nat, height: nat, liquid: nat, holes: nat)
    requires Describes(header, c)
    ensures Placed(file, area, height, Area, header.areaMapOffset, header.areaMapSize)
    ensures Placed(file, height, liquid, Height, header.heightMapOffset, header.heightMapSize)
    ensures c.liquid.Some? ==> Placed(file, liquid, holes, Liquid, header.liquidMapOffset, header.liquidMapSize)
    ensures c.liquid.None? ==> liquid == holes && header.liquidMapOffset == 0
    ensures Placed(file, holes, |file|, Holes, header.holesOffset, header.holesSize)
  {
    var head := [Chunk(Head, 40)];
    BytesOfOne(Chunk(Head, 40));
    var areas := WriteArea(c);
    var heights := WriteHeight(c);
    var liquids := [];
    if header.liquidMapOffset != 0 {
      liquids := WriteLiquid(c.liquid.value);
    }
    var hole := [Chunk(Holes, header.holesSize)];
    BytesOfOne(Chunk(Holes, header.holesSize));
    file, area, height, liquid, holes := Assemble(head, areas, heights, liquids, hole);
  }

  method Assemble(head: seq<Chunk>, areas: seq<Chunk>, heights: seq<Chunk>, liquids: seq<Chunk>, hole: seq<Chunk>)
    returns (file: seq<Chunk>, area: nat, height: nat, liquid: nat, holes: nat)
    requires AllOf(head, Head) && AllOf(areas, Area) && AllOf(heights, Height)
    requires AllOf(liquids, Liquid) && AllOf(hole, Holes)
    ensures Placed(file, area, height, Area, Bytes(head), Bytes(areas))
    ensures Placed(file, height, liquid, Height, Bytes(head) + Bytes(areas), Bytes(heights))
    ensures Placed(file, liquid, holes, Liquid, Bytes(head) + Bytes(areas) + Bytes(heights), Bytes(liquids))
    ensures Placed(file, holes, |file|, Holes,
                   Bytes(head) + Bytes(areas) + Bytes(heights) + Bytes(liquids), Bytes(hole))
    ensures holes - liquid == |liquids|
  {
    var upToAreas := head + areas;
    var upToHeights := upToAreas + heights;
    var upToLiquids := upToHeights + liquids;
    file := upToLiquids + hole;
    area := |head|;
    height := |upToAreas|;
    liquid := |upToHeights|;
    holes := |upToLiquids|;
    BytesAdd(head, areas);
    BytesAdd(upToAreas, heights);
    BytesAdd(upToHeights, liquids);
    AreaPlaced(file, head, areas, upToAreas, heights, upToHeights, liquids, upToLiquids, hole);
    HeightPlaced(file, upToAreas, heights, upToHeights, liquids, upToLiquids, hole);
    NoneJoined(head, areas, Liquid);
    NoneJoined(upToAreas, heights, Liquid);
    PartPlaced(file, upToHeights, liquids, hole, Liquid);
    NoneJoined(head, areas, Holes);
    NoneJoined(upToAreas, heights, Holes);
    NoneJoined(upToHeights, liquids, Holes);
    HolesPlaced(file, upToLiquids, hole);
  }

  lemma AreaPlaced(file: seq<Chunk>, head: seq<Chunk>, areas: seq<Chunk>, upToAreas: seq<Chunk>, heights: seq<Chunk>,
                   upToHeights: seq<Chunk>, liquids: seq<Chunk>, upToLiquids: seq<Chunk>, hole: seq<Chunk>)
    requires AllOf(head, Head) && AllOf(areas, Area) && AllOf(heights, Height)
    requires AllOf(liquids, Liquid) && AllOf(hole, Holes)
    requires upToAreas == head + areas && upToHeights == upToAreas + heights
    requires upToLiquids == upToHeights + liquids && file == upToLiquids + hole
    ensures Placed(file, |head|, |upToAreas|, Area, Bytes(head), Bytes(areas))
  {
    var below := liquids + hole;
    var rest := heights + below;
    Associate(upToHeights, liquids, hole);
    Associate(upToAreas, heights, below);
    NoneJoined(liquids, hole, Area);
    NoneJoined(heights, below, Area);
    PartPlaced(file, head, areas, rest, Area);
  }

  lemma HeightPlaced(file: seq<Chunk>, a: seq<Chunk>, heights: seq<Chunk>, upToHeights: seq<Chunk>, liquids: seq<Chunk>,
                     upToLiquids: seq<Chunk>, hole: seq<Chunk>)
    requires NoneOf(a, Height) && AllOf(heights, Height) && AllOf(liquids, Liquid) && AllOf(hole, Holes)
    requires upToHeights == a + heights && upToLiquids == upToHeights + liquids && file == upToLiquids + hole
    ensures Placed(file, |a|, |upToHeights|, Height, Bytes(a), Bytes(heights))
  {
    var rest := liquids + hole;
    Associate(upToHeights, liquids, hole);
    NoneJoined(liquids, hole, Height);
    PartPlaced(file, a, heights, rest, Height);
  }

  lemma HolesPlaced(file: seq<Chunk>, a: seq<Chunk>, hole: seq<Chunk>)
    requires NoneOf(a, Holes) && AllOf(hole, Holes) && file == a + hole
    ensures Placed(file, |a|, |file|, Holes, Bytes(a), Bytes(hole))
  {
    assert a + hole + [] == file;
    PartPlaced(file, a, hole, [], Holes);
  }
}
