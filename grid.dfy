/** Geometry of the game board: the window is cut into square cells, and the
    bottom 100 pixels are kept for the control panel. */
module Grid {

  const ScreenWidth := 800
  const ScreenHeight := 600
  /** Side of one cell, in pixels. */
  const GridSize := 60
  /** Number of columns, 13 (the source's integer division `//` on positive values). */
  const GridWidth := ScreenWidth / GridSize
  /** Number of rows, 8: the control panel takes the bottom 100 pixels. */
  const GridHeight := (ScreenHeight - 100) / GridSize

  /** One grid coordinate (column, row). */
  type Cell = (int, int)

  predicate InGrid(c: Cell) {
    0 <= c.0 < GridWidth && 0 <= c.1 < GridHeight
  }
}
