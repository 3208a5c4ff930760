/**
 * The sheet paginator: the grid-filling part of `StickerGenerator.generate_pdf`.
 * Every sheet is an 8-by-3 table whose cells carry the slot numbers 1..24 in a
 * fixed, non-row-major layout; the sticker image is placed in ascending slot
 * order, the first sheet starting after the slots already used, every later
 * sheet starting at slot 1, and every cell left over becomes an empty cell.
 */
module Pagination {
  import opened Wrappers

  /** A table cell: a slot number still waiting, the sticker image, or an empty cell (`""`). */
  datatype Cell = Numbered(slot: int) | Image | Blank

  /** A table, as a list of rows. */
  type Grid = seq<seq<Cell>>

  /** The exception `generate_pdf` raises when the first sheet has too few free slots. */
  datatype PdfError = NotEnoughStickersLeft

  const Rows := 8
  const Columns := 3
  const SlotsPerSheet := 24
  /** The fewest free slots a partly used first sheet may have. */
  const MinStickersLeft := 6

  /** The slot numbering of one sheet. */
  const TableTemplate: Grid := [
    [Numbered(19), Numbered(20), Numbered(21)],
    [Numbered(1), Numbered(2), Numbered(3)],
    [Numbered(4), Numbered(5), Numbered(6)],
    [Numbered(7), Numbered(8), Numbered(9)],
    [Numbered(10), Numbered(11), Numbered(12)],
    [Numbered(13), Numbered(14), Numbered(15)],
    [Numbered(16), Numbered(17), Numbered(18)],
    [Numbered(22), Numbered(23), Numbered(24)]
  ]

  /** The slot number in row `r`, column `c` of the template, as a formula. */
  function SlotNumber(r: int, c: int): int
  {
    if r == 0 then 19 + c
    else if r == Rows - 1 then 22 + c
    else 3 * (r - 1) + c + 1
  }

  /** The row holding slot `k`. */
  function SlotRow(k: int): int
  {
    if k <= 18 then (k - 1) / 3 + 1 else if k <= 21 then 0 else Rows - 1
  }

  /** The column holding slot `k`. */
  function SlotColumn(k: int): int
  {
    if k <= 18 then (k - 1) % 3 else if k <= 21 then k - 19 else k - 22
  }

  /** `g` has the shape of a sheet: 8 rows of 3 cells. */
  predicate IsSheet(g: Grid)
  {
    |g| == Rows && forall r :: 0 <= r < Rows ==> |g[r]| == Columns
  }

  /** The cell of sheet `g` that holds slot `k`. */
  function CellOfSlot(g: Grid, k: int): Cell
    requires IsSheet(g) && 1 <= k <= SlotsPerSheet
  {
    SlotNumberingIsBijective();
    g[SlotRow(k)][SlotColumn(k)]
  }

  /** The literal template is the one the formula `SlotNumber` describes. */
  lemma TemplateNumbering()
    ensures IsSheet(TableTemplate)
    ensures forall r, c :: 0 <= r < Rows && 0 <= c < Columns ==>
      TableTemplate[r][c] == Numbered(SlotNumber(r, c))
  {
    forall r, c | 0 <= r < Rows && 0 <= c < Columns
      ensures |TableTemplate[r]| == Columns && TableTemplate[r][c] == Numbered(SlotNumber(r, c))
    {
      if r == 0 {} else if r == 1 {} else if r == 2 {} else if r == 3 {}
      else if r == 4 {} else if r == 5 {} else if r == 6 {} else {}
    }
  }

  /** Every cell holds one slot of 1..24 and every slot sits in exactly one cell. */
  lemma SlotNumberingIsBijective()
    ensures forall r, c :: 0 <= r < Rows && 0 <= c < Columns ==>
      1 <= SlotNumber(r, c) <= SlotsPerSheet && SlotRow(SlotNumber(r, c)) == r && SlotColumn(SlotNumber(r, c)) == c
    ensures forall k :: 1 <= k <= SlotsPerSheet ==>
      0 <= SlotRow(k) < Rows && 0 <= SlotColumn(k) < Columns && SlotNumber(SlotRow(k), SlotColumn(k)) == k
  {
  }

  // ---------------------------------------------------------------------------
  // The tables the loop builds
  // ---------------------------------------------------------------------------

  /** Replace the cell carrying slot number `n` by the image (`_el if _el != i else img`). */
  function PlaceImage(g: Grid, n: int): Grid
  {
    seq(|g|, r requires 0 <= r < |g| =>
      seq(|g[r]|, c requires 0 <= c < |g[r]| => if g[r][c] == Numbered(n) then Image else g[r][c]))
  }

  /** Turn every cell that is not the image into an empty cell. */
  function BlankUnused(g: Grid): Grid
  {
    seq(|g|, r requires 0 <= r < |g| =>
      seq(|g[r]|, c requires 0 <= c < |g[r]| => if g[r][c] == Image then Image else Blank))
  }

  /** The template after the slots `start .. upto - 1` have received the image. */
  function PartlyFilled(start: int, upto: int): Grid
  {
    seq(Rows, r => seq(Columns, c =>
      if start <= SlotNumber(r, c) < upto then Image else Numbered(SlotNumber(r, c))))
  }

  /** The finished sheet whose slots `start .. start + count - 1` carry the image. */
  function FilledSheet(start: int, count: int): Grid
  {
    seq(Rows, r => seq(Columns, c =>
      if start <= SlotNumber(r, c) < start + count then Image else Blank))
  }

  /** The sheets for `total` stickers when the first sheet has `free` free slots. */
  function Sheets(free: int, total: int): seq<Grid>
    requires 1 <= free <= SlotsPerSheet
    decreases total
  {
    if total <= 0 then []
    else [FilledSheet(SlotsPerSheet + 1 - free, total)] + Sheets(SlotsPerSheet, total - free)
  }

  /** The number of free slots on the first sheet after the defaulting of `stickers_left`. */
  function FirstSheetFree(stickersLeft: Option<int>): (r: Result<int, PdfError>)
    ensures r.Failure? <==> stickersLeft.Some? && 0 < stickersLeft.value < MinStickersLeft
    ensures stickersLeft.None? || stickersLeft.value == 0 || stickersLeft.value > SlotsPerSheet ==>
      r == Success(SlotsPerSheet)
    ensures stickersLeft.Some? && MinStickersLeft <= stickersLeft.value <= SlotsPerSheet ==>
      r == Success(stickersLeft.value)
    ensures stickersLeft.Some? && stickersLeft.value < 0 ==> r == Success(stickersLeft.value)
  {
    if stickersLeft.None? || stickersLeft.value == 0 || stickersLeft.value > SlotsPerSheet then
      Success(SlotsPerSheet)
    else if MinStickersLeft > stickersLeft.value > 0 then
      Failure(NotEnoughStickersLeft)
    else
      Success(stickersLeft.value)
  }

  /** The sheets `generate_pdf` hands to the document builder, or its exception. */
  function Paginate(stickersLeft: Option<int>, totalStickers: Option<int>): Result<seq<Grid>, PdfError>
    requires stickersLeft.None? || stickersLeft.value >= 0
  {
    var free :- FirstSheetFree(stickersLeft);
    var total := if totalStickers.None? then SlotsPerSheet else totalStickers.value;
    Success(Sheets(free, total))
  }

  // ---------------------------------------------------------------------------
  // The loop of generate_pdf
  // ---------------------------------------------------------------------------

  /** Grids of the same shape with the same cells are equal. */
  lemma GridsEqual(g: Grid, h: Grid)
    requires |g| == |h|
    requires forall r :: 0 <= r < |g| ==> |g[r]| == |h[r]|
    requires forall r, c :: 0 <= r < |g| && 0 <= c < |g[r]| ==> g[r][c] == h[r][c]
    ensures g == h
  {
    forall r | 0 <= r < |g| ensures g[r] == h[r] {
      assert forall c :: 0 <= c < |g[r]| ==> g[r][c] == h[r][c];
    }
  }

  /** Placing the image in slot `upto` extends the filled range by one slot. */
  lemma PlaceNextSlot(start: int, upto: int)
    requires start <= upto
    ensures PlaceImage(PartlyFilled(start, upto), upto) == PartlyFilled(start, upto + 1)
  {
    GridsEqual(PlaceImage(PartlyFilled(start, upto), upto), PartlyFilled(start, upto + 1));
  }

  /** Blanking the unused cells of a partly filled template gives the finished sheet. */
  lemma FinishSheet(start: int, count: int, upto: int)
    requires upto == if count < SlotsPerSheet + 1 - start then start + count else SlotsPerSheet + 1
    ensures BlankUnused(PartlyFilled(start, upto)) == FilledSheet(start, count)
  {
    SlotNumberingIsBijective();
    GridsEqual(BlankUnused(PartlyFilled(start, upto)), FilledSheet(start, count));
  }

  /**
   * One pass of the outer loop of `generate_pdf`: a copy of the template
   * receives the image in ascending slots from `25 - left`, as many as the
   * sticker count and the free slots allow, and the other cells are blanked.
   */
  method FillSheet(left: int, total: int) returns (table: Grid, remaining: int)
    requires 1 <= left <= SlotsPerSheet && total > 0
    ensures table == FilledSheet(SlotsPerSheet + 1 - left, total)
    ensures remaining == if total < left then 0 else total - left
  {
    remaining := total;
    var startNumber := SlotsPerSheet - left + 1;
    TemplateNumbering();
    table := TableTemplate;
    assert table == PartlyFilled(startNumber, startNumber) by {
      GridsEqual(table, PartlyFilled(startNumber, startNumber));
    }
    var stop := if remaining < SlotsPerSheet - startNumber + 1 then startNumber + remaining else SlotsPerSheet + 1;
    var i := startNumber;
    while i < stop
      invariant startNumber <= i <= stop
      invariant table == PartlyFilled(startNumber, i)
      invariant remaining == total - (i - startNumber)
    {
      PlaceNextSlot(startNumber, i);
      table := PlaceImage(table, i);
      remaining := remaining - 1;
      i := i + 1;
    }
    FinishSheet(startNumber, total, stop);
    table := BlankUnused(table);
  }

  /**
   * `generate_pdf` from the defaulting of its arguments to the list of tables:
   * the exception for 1..5 stickers left, else one table per sheet.
   */
  method GeneratePdf(stickersLeft: Option<int>, totalStickers: Option<int>) returns (r: Result<seq<Grid>, PdfError>)
    requires stickersLeft.None? || stickersLeft.value >= 0
    ensures r == Paginate(stickersLeft, totalStickers)
  {
    var total := if totalStickers.None? then SlotsPerSheet else totalStickers.value;
    var left: int;
    if stickersLeft.None? || stickersLeft.value == 0 || stickersLeft.value > SlotsPerSheet {
      left := SlotsPerSheet;
    } else if MinStickersLeft > stickersLeft.value > 0 {
      return Failure(NotEnoughStickersLeft);
    } else {
      left := stickersLeft.value;
    }
    assert FirstSheetFree(stickersLeft) == Success(left);
    ghost var sheets := Sheets(left, total);
    var flowables: seq<Grid> := [];
    while total > 0
      invariant 1 <= left <= SlotsPerSheet
      invariant flowables + Sheets(left, total) == sheets
      decreases total
    {
      var table, remaining := FillSheet(left, total);
      assert Sheets(left, total) == [table] + Sheets(SlotsPerSheet, remaining);
      flowables := flowables + [table];
      total := remaining;
      left := SlotsPerSheet;
    }
    assert flowables == sheets;
    r := Success(flowables);
  }

  // ---------------------------------------------------------------------------
  // What the sheets hold
  // ---------------------------------------------------------------------------

  /** The number of image cells in a row. */
  function CountImages(cells: seq<Cell>): nat
  {
    if cells == [] then 0 else (if cells[0] == Image then 1 else 0) + CountImages(cells[1..])
  }

  /** The number of image cells in a table. */
  function ImagesOn(g: Grid): nat
  {
    if g == [] then 0 else CountImages(g[0]) + ImagesOn(g[1..])
  }

  /** The number of image cells over a list of tables. */
  function TotalImages(pages: seq<Grid>): nat
  {
    if pages == [] then 0 else ImagesOn(pages[0]) + TotalImages(pages[1..])
  }

  /** The size of the intersection of the integer ranges [lo, hi) and [a, b). */
  function Overlap(lo: int, hi: int, a: int, b: int): int
  {
    var m := (if hi < b then hi else b) - (if lo > a then lo else a);
    if m < 0 then 0 else m
  }

  /** A row of a finished sheet holds as many images as its three slots meet the filled range. */
  lemma RowImages(start: int, count: int, r: int)
    requires 0 <= r < Rows
    ensures CountImages(FilledSheet(start, count)[r]) ==
      Overlap(start, start + count, SlotNumber(r, 0), SlotNumber(r, 0) + Columns)
  {
    var row := FilledSheet(start, count)[r];
    assert row[1..][1..][1..] == [];
    assert CountImages(row[1..][1..]) == (if row[2] == Image then 1 else 0);
  }

  /** Counting a table row by row, from row `r` on. */
  lemma ImagesOnFrom(g: Grid, r: int)
    requires 0 <= r < |g|
    ensures ImagesOn(g[r..]) == CountImages(g[r]) + ImagesOn(g[r + 1..])
  {
    assert g[r..][1..] == g[r + 1..];
  }

  /** Counting over [a, b) and then over [b, c) counts over [a, c). */
  lemma OverlapSplit(lo: int, hi: int, a: int, b: int, c: int)
    requires a <= b <= c
    ensures Overlap(lo, hi, a, b) + Overlap(lo, hi, b, c) == Overlap(lo, hi, a, c)
  {
  }

  /** A finished sheet holds exactly one image per slot of the filled range. */
  lemma ImagesOnFilledSheet(start: int, count: int)
    requires 1 <= start <= SlotsPerSheet + 1 && count >= 0
    ensures ImagesOn(FilledSheet(start, count)) ==
      if count < SlotsPerSheet + 1 - start then count else SlotsPerSheet + 1 - start
  {
    ImagesOnFilledSheetByRows(start, count);
    OverlapOfRows(start, start + count);
  }

  lemma ImagesOnFilledSheetByRows(start: int, count: int)
    ensures var hi := start + count;
      ImagesOn(FilledSheet(start, count)) ==
        Overlap(start, hi, 19, 22) + Overlap(start, hi, 1, 4) + Overlap(start, hi, 4, 7) + Overlap(start, hi, 7, 10) +
        Overlap(start, hi, 10, 13) + Overlap(start, hi, 13, 16) + Overlap(start, hi, 16, 19) + Overlap(start, hi, 22, 25)
  {
    var g := FilledSheet(start, count);
    ImagesOnFrom(g, 0); RowImages(start, count, 0);
    ImagesOnFrom(g, 1); RowImages(start, count, 1);
    ImagesOnFrom(g, 2); RowImages(start, count, 2);
    ImagesOnFrom(g, 3); RowImages(start, count, 3);
    ImagesOnFrom(g, 4); RowImages(start, count, 4);
    ImagesOnFrom(g, 5); RowImages(start, count, 5);
    ImagesOnFrom(g, 6); RowImages(start, count, 6);
    ImagesOnFrom(g, 7); RowImages(start, count, 7);
    assert g[0..] == g;
    assert g[Rows..] == [];
  }

  /** The eight rows of a sheet together cover the slots 1 to 24 once each. */
  lemma OverlapOfRows(lo: int, hi: int)
    ensures Overlap(lo, hi, 19, 22) + Overlap(lo, hi, 1, 4) + Overlap(lo, hi, 4, 7) + Overlap(lo, hi, 7, 10) +
      Overlap(lo, hi, 10, 13) + Overlap(lo, hi, 13, 16) + Overlap(lo, hi, 16, 19) + Overlap(lo, hi, 22, 25) ==
      Overlap(lo, hi, 1, 25)
  {
    OverlapSplit(lo, hi, 1, 4, 7);
    OverlapSplit(lo, hi, 1, 7, 10);
    OverlapSplit(lo, hi, 1, 10, 13);
    OverlapSplit(lo, hi, 1, 13, 16);
    OverlapSplit(lo, hi, 1, 16, 19);
    OverlapSplit(lo, hi, 1, 19, 22);
    OverlapSplit(lo, hi, 1, 22, 25);
  }

  /** Every sticker requested lands on exactly one cell of exactly one sheet. */
  lemma {:induction false} SheetsPlaceEverySticker(free: int, total: int)
    requires 1 <= free <= SlotsPerSheet
    ensures TotalImages(Sheets(free, total)) == if total < 0 then 0 else total
    decreases total
  {
    if total > 0 {
      ImagesOnFilledSheet(SlotsPerSheet + 1 - free, total);
      SheetsPlaceEverySticker(SlotsPerSheet, total - free);
      assert Sheets(free, total)[1..] == Sheets(SlotsPerSheet, total - free);
    }
  }

  /** One sheet when the first sheet suffices, else one more per 24 stickers or part of 24. */
  lemma {:induction false} SheetCount(free: int, total: int)
    requires 1 <= free <= SlotsPerSheet
    ensures |Sheets(free, total)| ==
      if total <= 0 then 0
      else if total <= free then 1
      else 1 + (total - free + SlotsPerSheet - 1) / SlotsPerSheet
    decreases total
  {
    if total > free {
      SheetCount(SlotsPerSheet, total - free);
    }
  }

  /**
   * The first sheet carries the image exactly in the slots `25 - free` up to
   * `25 - free + min(total, free) - 1`, and every other cell is empty.
   */
  lemma FirstSheetSlots(free: int, total: int, k: int)
    requires 1 <= free <= SlotsPerSheet && total >= 1 && 1 <= k <= SlotsPerSheet
    ensures IsSheet(Sheets(free, total)[0])
    ensures CellOfSlot(Sheets(free, total)[0], k) == Image <==>
      SlotsPerSheet + 1 - free <= k < SlotsPerSheet + 1 - free + (if total < free then total else free)
    ensures CellOfSlot(Sheets(free, total)[0], k) != Image ==> CellOfSlot(Sheets(free, total)[0], k) == Blank
  {
    SlotNumberingIsBijective();
  }

  /** Every sheet after the first is filled from slot 1, all 24 slots being free. */
  lemma {:induction false} LaterSheets(free: int, total: int, i: int)
    requires 1 <= free <= SlotsPerSheet && 1 <= i < |Sheets(free, total)|
    ensures Sheets(free, total)[i] == FilledSheet(1, total - free - SlotsPerSheet * (i - 1))
    decreases i
  {
    if i > 1 {
      LaterSheets(SlotsPerSheet, total - free, i - 1);
    }
  }

  /** No slot number survives on any sheet: a cell holds the image or nothing. */
  lemma {:induction false} SheetsHoldOnlyImagesAndBlanks(free: int, total: int)
    requires 1 <= free <= SlotsPerSheet
    ensures forall p :: 0 <= p < |Sheets(free, total)| ==>
      IsSheet(Sheets(free, total)[p]) &&
      forall r, c :: 0 <= r < Rows && 0 <= c < Columns ==> Sheets(free, total)[p][r][c] in {Image, Blank}
    decreases total
  {
    if total > 0 {
      SheetsHoldOnlyImagesAndBlanks(SlotsPerSheet, total - free);
    }
  }
}
