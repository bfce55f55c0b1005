/** Grid geometry: fifteen columns, as many rows as the year needs, a dot radius that
    lets the grid use at most 65% of the width and 55% of the height, the spacing and
    bounding boxes, and the vertical placement of the grid and the two text lines.
    JavaScript doubles are idealised as exact `real`s. */
module Geometry {

  const Cols: int := 15

  /** `Math.ceil` of a real. */
  function Ceil(x: real): (n: int)
    ensures n as real - 1.0 < x <= n as real
  {
    -((-x).Floor)
  }

  /** `Math.ceil(totalDays / cols)` */
  function Rows(totalDays: int): (rows: int)
    ensures (rows - 1) * Cols < totalDays <= rows * Cols
  {
    var n := Ceil(totalDays as real / Cols as real);
    assert (n - 1) as real * 15.0 < totalDays as real <= n as real * 15.0;
    n
  }

  /** A leap year gets no extra row: both year lengths need 25 rows of 15. */
  lemma RowsOfYear()
    ensures Rows(365) == 25 && Rows(366) == 25
  {
  }

  /** `Math.min((width * 0.65) / (cols * 3), (height * 0.55) / (rows * 3))` */
  function DotRadius(width: real, height: real, rows: int): (r: real)
    requires rows > 0
    ensures r <= width * 0.65 / (Cols * 3) as real
    ensures r <= height * 0.55 / (rows * 3) as real
    ensures r == width * 0.65 / (Cols * 3) as real || r == height * 0.55 / (rows * 3) as real
    ensures width > 0.0 && height > 0.0 ==> r > 0.0
  {
    var byWidth := (width * 0.65) / (Cols * 3) as real;
    var byHeight := (height * 0.55) / (rows * 3) as real;
    if byWidth <= byHeight then byWidth else byHeight
  }

  /** The sizes `route.tsx` derives from the radius. */
  datatype GridSpec = GridSpec(cols: int, rows: int, radius: real, gap: real,
                               gridWidth: real, gridHeight: real, svgWidth: real, svgHeight: real)

  function Grid(width: real, height: real, totalDays: int): (g: GridSpec)
    requires totalDays > 0
    ensures g.cols == Cols && g.rows == Rows(totalDays) && g.radius == DotRadius(width, height, g.rows)
    ensures g.gap == g.radius * 3.4
    ensures g.svgWidth == 49.6 * g.radius
    ensures g.svgHeight == (g.rows - 1) as real * g.gap + 2.0 * g.radius
    ensures g.gridWidth == g.svgWidth - 2.0 * g.radius && g.gridHeight == g.svgHeight - 2.0 * g.radius
  {
    var rows := Rows(totalDays);
    var r := DotRadius(width, height, rows);
    var gap := r * 3.4;
    var gridWidth := (Cols - 1) as real * gap;
    var gridHeight := (rows - 1) as real * gap;
    GridSpec(Cols, rows, r, gap, gridWidth, gridHeight, gridWidth + r * 2.0, gridHeight + r * 2.0)
  }

  /** On a canvas of positive size the radius is positive and the grid is never wider than
      the canvas: 49.6 radii are at most 49.6 * 0.65 / 45 < 0.72 of the width. */
  lemma {:induction false} GridFitsWidth(width: real, height: real, totalDays: int)
    requires width > 0.0 && height > 0.0 && totalDays > 0
    ensures Grid(width, height, totalDays).radius > 0.0
    ensures Grid(width, height, totalDays).gap > 2.0 * Grid(width, height, totalDays).radius
    ensures Grid(width, height, totalDays).svgWidth <= width
  {
    var g := Grid(width, height, totalDays);
    assert g.radius <= width * 0.65 / 45.0;
    assert g.svgWidth <= 49.6 * (width * 0.65 / 45.0);
  }

  /** The vertical layout of the grid box and the two text lines. */
  datatype Placement = Placement(safeTop: real, safeBottom: real, gridTop: real,
                                 progressTop: real, completionTop: real)

  function Place(height: real, g: GridSpec): (p: Placement)
    ensures p.safeTop == height * 0.32 && p.safeBottom == height * 0.82
    ensures p.gridTop - p.safeTop == p.safeBottom - (p.gridTop + g.svgHeight)
    ensures p.progressTop == p.gridTop + g.svgHeight + 5.0 * g.radius
    ensures p.completionTop == p.progressTop + 5.0 * g.radius
  {
    var safeTop := height * 0.32;
    var safeBottom := height * 0.82;
    var safeHeight := safeBottom - safeTop;
    var gridTop := safeTop + (safeHeight - g.svgHeight) / 2.0;
    Placement(safeTop, safeBottom, gridTop, gridTop + g.svgHeight + g.radius * 5.0,
              gridTop + g.svgHeight + g.radius * 10.0)
  }

  /** With a positive radius the progress line sits below the grid and the completion line
      below the progress line. */
  lemma TextBelowGrid(height: real, g: GridSpec)
    requires g.radius > 0.0
    ensures Place(height, g).gridTop + g.svgHeight < Place(height, g).progressTop < Place(height, g).completionTop
  {
  }

  /** The grid is centred in the band, not fitted to it: at the default 1179 x 2556 canvas
      the box is taller than the band and starts above it. */
  lemma {:induction false} DefaultCanvasOverflowsBand()
    ensures var g := Grid(1179.0, 2556.0, 365);
            var p := Place(2556.0, g);
            g.svgHeight > p.safeBottom - p.safeTop && p.gridTop < p.safeTop
  {
    RowsOfYear();
    var g := Grid(1179.0, 2556.0, 365);
    assert g.radius == 1179.0 * 0.65 / 45.0;
  }
}
