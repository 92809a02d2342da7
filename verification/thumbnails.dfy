/**
 * The thumbnail grid: how many columns fit and how large each icon is
 * (`ThumbnailListWidget.update_icon_size`), and moving the current row of the
 * thumbnail list one step back or forward (`ThumbnailViewer.previous_image`,
 * `ThumbnailViewer.next_image`).
 */
module Thumbnails {

  const MinThumbnailSize: int := 100
  const MaxThumbnailSize: int := 250
  const Spacing: int := 8

  /** The width one column needs at least: a minimum-size icon plus spacing on both sides. */
  const MinCellWidth: int := MinThumbnailSize + Spacing * 2

  /** Python's `int(a / b)` for a positive divisor: the quotient truncated toward zero. */
  function TruncDiv(a: int, b: int): (q: int)
    requires b > 0
    ensures a >= 0 ==> 0 <= q && q * b <= a < q * b + b
    ensures a < 0 ==> q <= 0 && q * b - b < a <= q * b
  {
    var n := if a >= 0 then a else -a;
    DivBounds(n, b);
    if a >= 0 then n / b else -(n / b)
  }

  lemma DivBounds(n: int, b: int)
    requires n >= 0 && b > 0
    ensures n / b >= 0 && (n / b) * b <= n < (n / b) * b + b
  {
    assert n == (n / b) * b + n % b;
  }

  datatype IconLayout = IconLayout(columns: int, iconSize: int)

  /** The number of columns for an available width: as many minimum-size cells as fit, at least one. */
  function ColumnCount(availableWidth: int): (c: int)
    ensures c >= 1
  {
    var numColumns := TruncDiv(availableWidth, MinCellWidth);
    if numColumns > 1 then numColumns else 1
  }

  /** The icon size for `numColumns` columns: the width left per column after spacing,
      clamped to [MinThumbnailSize, MaxThumbnailSize]. */
  function IconSize(availableWidth: int, numColumns: int): (s: int)
    requires numColumns >= 1
    ensures MinThumbnailSize <= s <= MaxThumbnailSize
  {
    var newIconSize := TruncDiv(availableWidth - numColumns * Spacing * 2, numColumns);
    var newIconSize := if newIconSize < MaxThumbnailSize then newIconSize else MaxThumbnailSize;
    if MinThumbnailSize > newIconSize then MinThumbnailSize else newIconSize
  }

  /** The column count and icon size chosen for a widget `width` pixels wide with a
      scroll bar `scrollbarWidth` pixels wide. */
  function UpdateIconSize(width: int, scrollbarWidth: int): (r: IconLayout)
    ensures r.columns >= 1
    ensures MinThumbnailSize <= r.iconSize <= MaxThumbnailSize
  {
    var availableWidth := width - scrollbarWidth - 4;
    var numColumns := ColumnCount(availableWidth);
    IconLayout(numColumns, IconSize(availableWidth, numColumns))
  }

  /** When at least one minimum-size column fits, the column count is the largest number of
      minimum-size columns that fit, and the chosen icons with their spacing fit as well. */
  lemma WideLayoutFits(width: int, scrollbarWidth: int)
    requires width - scrollbarWidth - 4 >= MinCellWidth
    ensures var a := width - scrollbarWidth - 4;
      var r := UpdateIconSize(width, scrollbarWidth);
      && r.columns * MinCellWidth <= a < (r.columns + 1) * MinCellWidth
      && r.columns * (r.iconSize + Spacing * 2) <= a
  {
    var a := width - scrollbarWidth - 4;
    ColumnsFit(a);
    IconsFit(a, ColumnCount(a));
  }

  /** With room for at least one minimum-size cell, the column count is the number of such
      cells that fit. */
  lemma ColumnsFit(a: int)
    requires a >= MinCellWidth
    ensures ColumnCount(a) * MinCellWidth <= a < (ColumnCount(a) + 1) * MinCellWidth
  {
    var c := TruncDiv(a, MinCellWidth);
    assert c * MinCellWidth <= a < c * MinCellWidth + MinCellWidth;
    assert c >= 1;
  }

  /** With `c` minimum-size cells fitting in `a`, `c` icons of the chosen size fit too. */
  lemma IconsFit(a: int, c: int)
    requires c >= 1 && c * MinCellWidth <= a
    ensures c * (IconSize(a, c) + Spacing * 2) <= a
  {
    var rest := a - c * Spacing * 2;
    var raw := TruncDiv(rest, c);
    assert rest >= MinThumbnailSize * c;
    assert raw * c <= rest < raw * c + c;
    MulLess(MinThumbnailSize, raw + 1, c);
    assert IconSize(a, c) <= raw;
    MulAtMost(IconSize(a, c), raw, c);
  }

  lemma MulLess(x: int, y: int, c: int)
    requires c > 0 && x * c < y * c
    ensures x < y
  {
    assert (y - x) * c > 0;
  }

  lemma MulAtMost(x: int, y: int, c: int)
    requires c > 0 && x <= y
    ensures x * c <= y * c
  {
    assert y * c == x * c + (y - x) * c;
  }

  /** When not even one minimum-size column fits (the available width may be negative),
      there is one column of minimum-size icons. */
  lemma NarrowLayout(width: int, scrollbarWidth: int)
    requires width - scrollbarWidth - 4 < MinCellWidth
    ensures UpdateIconSize(width, scrollbarWidth) == IconLayout(1, MinThumbnailSize)
  {
  }

  /** The row `previous_image` moves to. */
  function PreviousRow(row: int): (r: int)
    ensures r == row - 1 <==> row >= 1
    ensures r == row <==> row < 1
  {
    var nextRow := row - 1;
    if nextRow >= 0 then nextRow else row
  }

  /** The row `next_image` moves to in a list of `count` items. */
  function NextRow(row: int, count: int): (r: int)
    ensures r == row + 1 <==> row + 1 < count
    ensures r == row <==> row + 1 >= count
  {
    var nextRow := row + 1;
    if nextRow < count then nextRow else row
  }

  /** Neither move takes a current row in [-1, count) outside that range; from a row in
      [0, count) both stay in [0, count). (-1 is the list's "no current item".) */
  lemma MovesStayInRange(row: int, count: int)
    requires -1 <= row < count
    ensures -1 <= PreviousRow(row) < count && -1 <= NextRow(row, count) < count
    ensures 0 <= row ==> 0 <= PreviousRow(row) < count && 0 <= NextRow(row, count) < count
  {
  }

  /** The list of thumbnails with its current row (-1 when nothing is current). */
  class ThumbnailList {
    var count: nat
    var currentRow: int

    ghost predicate Valid()
      reads this
    {
      -1 <= currentRow < count
    }

    constructor (count: nat)
      ensures Valid() && this.count == count && currentRow == -1
    {
      this.count := count;
      currentRow := -1;
    }

    method PreviousImage()
      requires Valid()
      modifies this`currentRow
      ensures Valid()
      ensures currentRow == PreviousRow(old(currentRow))
      ensures currentRow == old(currentRow) - 1 || currentRow == old(currentRow)
    {
      var nextRow := currentRow - 1;
      if nextRow >= 0 {
        currentRow := nextRow;
      }
    }

    method NextImage()
      requires Valid()
      modifies this`currentRow
      ensures Valid()
      ensures currentRow == NextRow(old(currentRow), count)
      ensures currentRow == old(currentRow) + 1 || currentRow == old(currentRow)
    {
      var nextRow := currentRow + 1;
      if nextRow < count {
        currentRow := nextRow;
      }
    }
  }
}
