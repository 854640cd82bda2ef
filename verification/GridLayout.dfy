// RedXe/DashboardHost.cpp: pixel bounds of dashboard tiles placed on a grid, whose edges are rounded to the nearest
// pixel one by one.
module GridLayout {
  import opened Basics

  datatype GridPlacement = GridPlacement(column: nat, row: nat, columnSpan: nat, rowSpan: nat)
  {
    predicate Covers(column': int, row': int) {
      column <= column' < column + columnSpan && row <= row' < row + rowSpan
    }
  }

  function RoundGridEdge(cell: nat, extent: nat, divisions: nat): (edge: nat)
    requires divisions > 0
  {
    (cell * extent * 2 + divisions) / (divisions * 2)
  }

  function ToPixelBounds(p: GridPlacement, columns: nat, rows: nat, width: nat, height: nat): (r: Rect)
    requires columns > 0 && rows > 0
  {
    Rect(RoundGridEdge(p.column, width, columns), RoundGridEdge(p.row, height, rows),
         RoundGridEdge(p.column + p.columnSpan, width, columns), RoundGridEdge(p.row + p.rowSpan, height, rows))
  }

  /** An edge is the pixel nearest to its exact position, halves rounded up. */
  lemma EdgeIsNearest(cell: nat, extent: nat, divisions: nat)
    requires divisions > 0
    ensures var edge := RoundGridEdge(cell, extent, divisions);
            2 * (divisions * edge) <= 2 * (cell * extent) + divisions < 2 * (divisions * edge) + 2 * divisions
  {
    var doubled := cell * extent * 2 + divisions;
    var edge := RoundGridEdge(cell, extent, divisions);
    assert doubled == (divisions * 2) * edge + doubled % (divisions * 2);
    assert (divisions * 2) * edge == 2 * (divisions * edge);
  }

  lemma EdgesMonotone(a: nat, b: nat, extent: nat, divisions: nat)
    requires divisions > 0 && a <= b
    ensures RoundGridEdge(a, extent, divisions) <= RoundGridEdge(b, extent, divisions)
  {
    MulMonotone(a, b, extent);
    DivMonotone(a * extent * 2 + divisions, b * extent * 2 + divisions, divisions * 2);
  }

  lemma OuterEdges(extent: nat, divisions: nat)
    requires divisions > 0
    ensures RoundGridEdge(0, extent, divisions) == 0
    ensures RoundGridEdge(divisions, extent, divisions) == extent
  {
    QuotientIs(divisions, divisions * 2, 0);
    assert (divisions * 2) * extent == divisions * extent * 2;
    QuotientIs(divisions * extent * 2 + divisions, divisions * 2, extent);
  }

  /** The grid cell a pixel falls into, searched from `cell` on. */
  function CellAt(x: nat, extent: nat, divisions: nat, cell: nat): (c: nat)
    requires divisions > 0 && x < extent && cell <= divisions
    requires RoundGridEdge(cell, extent, divisions) <= x
    ensures c < divisions
    ensures RoundGridEdge(c, extent, divisions) <= x < RoundGridEdge(c + 1, extent, divisions)
    decreases divisions - cell
  {
    OuterEdges(extent, divisions);
    if x < RoundGridEdge(cell + 1, extent, divisions) then cell else CellAt(x, extent, divisions, cell + 1)
  }

  function Cell(x: nat, extent: nat, divisions: nat): (c: nat)
    requires divisions > 0 && x < extent
    ensures c < divisions
    ensures RoundGridEdge(c, extent, divisions) <= x < RoundGridEdge(c + 1, extent, divisions)
  {
    OuterEdges(extent, divisions);
    CellAt(x, extent, divisions, 0)
  }

  /** A pixel lies between two edges exactly when its cell does: the rounded cells leave no gap and never overlap. */
  lemma BetweenEdges(x: nat, extent: nat, divisions: nat, first: nat, last: nat)
    requires divisions > 0 && x < extent
    ensures RoundGridEdge(first, extent, divisions) <= x < RoundGridEdge(last, extent, divisions) <==>
            first <= Cell(x, extent, divisions) < last
  {
    var c := Cell(x, extent, divisions);
    if first <= c {
      EdgesMonotone(first, c, extent, divisions);
    } else {
      EdgesMonotone(c + 1, first, extent, divisions);
    }
    if c < last {
      EdgesMonotone(c + 1, last, extent, divisions);
    } else {
      EdgesMonotone(last, c, extent, divisions);
    }
  }

  /** The pixels of a tile are exactly the pixels of the grid cells it covers, so tiles meet, overlap or leave room on
      the canvas exactly as their placements do on the grid. */
  lemma TilesFollowTheGrid(p: GridPlacement, columns: nat, rows: nat, width: nat, height: nat, x: nat, y: nat)
    requires columns > 0 && rows > 0 && x < width && y < height
    ensures ToPixelBounds(p, columns, rows, width, height).Contains(x, y) <==>
            p.Covers(Cell(x, width, columns), Cell(y, height, rows))
  {
    BetweenEdges(x, width, columns, p.column, p.column + p.columnSpan);
    BetweenEdges(y, height, rows, p.row, p.row + p.rowSpan);
  }

  predicate CoveredOnce(tiles: seq<GridPlacement>, c: int, r: int) {
    exists i :: 0 <= i < |tiles| && tiles[i].Covers(c, r) &&
      forall j :: 0 <= j < |tiles| && tiles[j].Covers(c, r) ==> j == i
  }

  /** Placements that cover every grid cell exactly once tile the canvas exactly. */
  lemma GridPartitionsCanvas(tiles: seq<GridPlacement>, columns: nat, rows: nat, width: nat, height: nat, x: nat,
                             y: nat)
    requires columns > 0 && rows > 0 && x < width && y < height
    requires forall c, r :: 0 <= c < columns && 0 <= r < rows ==> CoveredOnce(tiles, c, r)
    ensures exists i :: 0 <= i < |tiles| && ToPixelBounds(tiles[i], columns, rows, width, height).Contains(x, y) &&
              forall j :: 0 <= j < |tiles| && ToPixelBounds(tiles[j], columns, rows, width, height).Contains(x, y) ==>
                j == i
  {
    var c, r := Cell(x, width, columns), Cell(y, height, rows);
    assert CoveredOnce(tiles, c, r);
    forall i | 0 <= i < |tiles|
      ensures ToPixelBounds(tiles[i], columns, rows, width, height).Contains(x, y) <==> tiles[i].Covers(c, r)
    {
      TilesFollowTheGrid(tiles[i], columns, rows, width, height, x, y);
    }
    var i :| 0 <= i < |tiles| && tiles[i].Covers(c, r) &&
        forall j :: 0 <= j < |tiles| && tiles[j].Covers(c, r) ==> j == i;
    assert ToPixelBounds(tiles[i], columns, rows, width, height).Contains(x, y);
  }
}
