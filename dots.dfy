/** The dot-building loop: one record per day, pushed in row-major order by a row loop
    and a column loop that both stop once the running day counter passes `totalDays`. */
module Dots {
  import opened Geometry
  import opened Theme

  /** One `<circle>`: its key (the day), centre, radius and fill colour. */
  datatype Dot = Dot(key: int, cx: real, cy: real, r: real, fill: string)

  function Min(a: int, b: int): int {
    if a <= b then a else b
  }

  /** Row and column of `day` in a row-major grid of `Cols` columns, counting from 0. */
  function RowOf(day: int): int {
    (day - 1) / Cols
  }

  function ColOf(day: int): int {
    (day - 1) % Cols
  }

  /** `dotRadius + k * gap`: the centre coordinate of column or row `k`. */
  function Centre(radius: real, k: int, gap: real): real {
    radius + k as real * gap
  }

  /** The dot for `day`: centre one radius in from the box edge plus whole gaps. */
  function DotFor(day: int, dayOfYear: int, radius: real, gap: real, pal: Palette): Dot {
    Dot(day, Centre(radius, ColOf(day), gap), Centre(radius, RowOf(day), gap), radius,
        Fill(StatusOf(day, dayOfYear), pal))
  }

  /** The first `n` dots of the plan, day 1 first. */
  function Plan(n: nat, dayOfYear: int, radius: real, gap: real, pal: Palette): (dots: seq<Dot>)
    ensures |dots| == n
  {
    seq(n, i requires 0 <= i < n => DotFor(i + 1, dayOfYear, radius, gap, pal))
  }

  /** How many dots the two loops emit: `totalDays`, unless the grid runs out of cells first. */
  function DotCount(totalDays: int, rows: nat): nat {
    Min(rows * Cols, if totalDays < 0 then 0 else totalDays)
  }

  /** The nested loops of the source, pushing onto a growing sequence. */
  method BuildDots(totalDays: int, dayOfYear: int, rows: nat, radius: real, gap: real, pal: Palette)
    returns (dots: seq<Dot>)
    ensures dots == Plan(DotCount(totalDays, rows), dayOfYear, radius, gap, pal)
  {
    ghost var total: nat := if totalDays < 0 then 0 else totalDays;
    dots := [];
    var day := 1;
    var r := 0;
    while r < rows && day <= totalDays
      invariant 0 <= r <= rows
      invariant day - 1 == Min(r * Cols, total)
      invariant dots == Plan(day - 1, dayOfYear, radius, gap, pal)
    {
      var c := 0;
      while c < Cols && day <= totalDays
        invariant 0 <= c <= Cols
        invariant day - 1 == r * Cols + c <= total
        invariant dots == Plan(day - 1, dayOfYear, radius, gap, pal)
      {
        var fill := pal.pending;
        if day < dayOfYear {
          fill := pal.passed;
        }
        if day == dayOfYear {
          fill := pal.active;
        }
        assert fill == Fill(StatusOf(day, dayOfYear), pal);
        CellOfDay(r, c);
        PlanGrows(day - 1, dayOfYear, radius, gap, pal);
        dots := dots + [Dot(day, Centre(radius, c, gap), Centre(radius, r, gap), radius, fill)];
        day := day + 1;
        c := c + 1;
      }
      r := r + 1;
    }
  }

  /** The day in row `r`, column `c` is `r * Cols + c + 1`. */
  lemma CellOfDay(r: int, c: int)
    requires 0 <= r && 0 <= c < Cols
    ensures RowOf(r * Cols + c + 1) == r && ColOf(r * Cols + c + 1) == c
  {
  }

  lemma PlanGrows(n: nat, dayOfYear: int, radius: real, gap: real, pal: Palette)
    ensures Plan(n + 1, dayOfYear, radius, gap, pal)
         == Plan(n, dayOfYear, radius, gap, pal) + [DotFor(n + 1, dayOfYear, radius, gap, pal)]
  {
  }

  /** With `rows = ceil(totalDays / 15)` the grid has room for every day, so the loops
      emit exactly `totalDays` dots. */
  lemma EveryDayHasADot(totalDays: int)
    requires totalDays > 0
    ensures Rows(totalDays) > 0
    ensures DotCount(totalDays, Rows(totalDays)) == totalDays
  {
  }

  /** The keys run 1, 2, ..., n: strictly increasing, with no day missing. */
  lemma KeysAreTheDays(n: nat, dayOfYear: int, radius: real, gap: real, pal: Palette)
    ensures forall i :: 0 <= i < n ==> Plan(n, dayOfYear, radius, gap, pal)[i].key == i + 1
    ensures forall i, j :: 0 <= i < j < n ==>
              Plan(n, dayOfYear, radius, gap, pal)[i].key < Plan(n, dayOfYear, radius, gap, pal)[j].key
  {
  }

  /** One more row or column moves the centre at least one gap further. */
  lemma CentreStep(radius: real, a: int, b: int, gap: real)
    requires a < b && gap > 0.0
    ensures Centre(radius, a, gap) + gap <= Centre(radius, b, gap)
  {
    var d := (b - a) as real;
    assert d >= 1.0;
    assert d * gap >= gap;
    assert b as real == a as real + d;
    assert b as real * gap == a as real * gap + d * gap;
  }

  /** Rows and columns 0..bound keep the centre within `bound` gaps of the first one. */
  lemma CentreWithin(radius: real, a: int, bound: int, gap: real)
    requires 0 <= a <= bound && gap >= 0.0
    ensures radius <= Centre(radius, a, gap) <= radius + bound as real * gap
  {
    var d := (bound - a) as real;
    assert bound as real == a as real + d;
    assert d * gap >= 0.0;
    assert a as real * gap >= 0.0;
    assert bound as real * gap == a as real * gap + d * gap;
  }

  /** A later day is on a later row, or on the same row in a later column. */
  lemma CellOrder(i: int, j: int)
    requires 0 <= i < j
    ensures RowOf(i + 1) < RowOf(j + 1) || (RowOf(i + 1) == RowOf(j + 1) && ColOf(i + 1) < ColOf(j + 1))
  {
  }

  /** The fill is row-major: a later day lies on a lower row, or on the same row at least
      one gap further right. */
  lemma {:induction false} RowMajor(n: nat, dayOfYear: int, radius: real, gap: real, pal: Palette, i: int, j: int)
    requires gap > 0.0 && 0 <= i < j < n
    ensures var dots := Plan(n, dayOfYear, radius, gap, pal);
            dots[i].cy + gap <= dots[j].cy ||
            (dots[i].cy == dots[j].cy && dots[i].cx + gap <= dots[j].cx)
  {
    var dots := Plan(n, dayOfYear, radius, gap, pal);
    assert dots[i] == DotFor(i + 1, dayOfYear, radius, gap, pal);
    assert dots[j] == DotFor(j + 1, dayOfYear, radius, gap, pal);
    CellOrder(i, j);
    if RowOf(i + 1) < RowOf(j + 1) {
      CentreStep(radius, RowOf(i + 1), RowOf(j + 1), gap);
    } else {
      CentreStep(radius, ColOf(i + 1), ColOf(j + 1), gap);
    }
  }

  /** Each row, the partial last one included, starts at the left edge: a dot sits one
      radius in from the left exactly when its day begins a row. */
  lemma {:induction false} RowsStartAtLeftEdge(n: nat, dayOfYear: int, radius: real, gap: real, pal: Palette, j: int)
    requires gap > 0.0 && 0 <= j < n
    ensures Plan(n, dayOfYear, radius, gap, pal)[j].cx == radius <==> j % Cols == 0
  {
    var dots := Plan(n, dayOfYear, radius, gap, pal);
    assert dots[j] == DotFor(j + 1, dayOfYear, radius, gap, pal);
    if j % Cols != 0 {
      CentreStep(radius, 0, ColOf(j + 1), gap);
    }
  }

  /** For a canvas of positive size, every dot centre lies at least one radius inside the
      grid's bounding box `svgWidth x svgHeight`. */
  lemma {:induction false} DotsInsideBox(width: real, height: real, totalDays: int, dayOfYear: int, pal: Palette, i: int)
    requires width > 0.0 && height > 0.0 && totalDays > 0
    requires 0 <= i < totalDays
    ensures var g := Grid(width, height, totalDays);
            var d := Plan(totalDays, dayOfYear, g.radius, g.gap, pal)[i];
            g.radius <= d.cx <= g.svgWidth - g.radius && g.radius <= d.cy <= g.svgHeight - g.radius
  {
    var g := Grid(width, height, totalDays);
    GridFitsWidth(width, height, totalDays);
    var d := Plan(totalDays, dayOfYear, g.radius, g.gap, pal)[i];
    assert d == DotFor(i + 1, dayOfYear, g.radius, g.gap, pal);
    var row, col := RowOf(i + 1), ColOf(i + 1);
    assert i == row * Cols + col;
    assert row <= g.rows - 1;
    CentreWithin(g.radius, col, Cols - 1, g.gap);
    CentreWithin(g.radius, row, g.rows - 1, g.gap);
  }

  /** Number of dots filled with `colour`. */
  function CountFill(dots: seq<Dot>, colour: string): (n: nat)
    ensures n <= |dots|
  {
    if dots == [] then 0
    else CountFill(dots[..|dots| - 1], colour) + (if dots[|dots| - 1].fill == colour then 1 else 0)
  }

  /** Colour counts among the first `n` dots. */
  lemma {:induction false} PrefixCounts(n: nat, dayOfYear: int, radius: real, gap: real, pal: Palette)
    requires Distinct(pal) && 1 <= dayOfYear
    ensures CountFill(Plan(n, dayOfYear, radius, gap, pal), pal.passed) == Min(n, dayOfYear - 1)
    ensures CountFill(Plan(n, dayOfYear, radius, gap, pal), pal.active) == if dayOfYear <= n then 1 else 0
    ensures CountFill(Plan(n, dayOfYear, radius, gap, pal), pal.pending) == if n <= dayOfYear then 0 else n - dayOfYear
  {
    if n > 0 {
      var dots := Plan(n, dayOfYear, radius, gap, pal);
      assert dots[..n - 1] == Plan(n - 1, dayOfYear, radius, gap, pal);
      PrefixCounts(n - 1, dayOfYear, radius, gap, pal);
    }
  }

  /** With today in [1, totalDays]: dayOfYear - 1 dots passed, exactly one active and
      totalDays - dayOfYear pending, and the active dot is today's. */
  lemma {:induction false} ColourPartition(totalDays: int, dayOfYear: int, radius: real, gap: real, pal: Palette)
    requires Distinct(pal) && 1 <= dayOfYear <= totalDays
    ensures var dots := Plan(totalDays, dayOfYear, radius, gap, pal);
            CountFill(dots, pal.passed) == dayOfYear - 1 &&
            CountFill(dots, pal.active) == 1 &&
            CountFill(dots, pal.pending) == totalDays - dayOfYear
    ensures forall i :: 0 <= i < totalDays ==>
              (Plan(totalDays, dayOfYear, radius, gap, pal)[i].fill == pal.active <==> i + 1 == dayOfYear)
  {
    PrefixCounts(totalDays, dayOfYear, radius, gap, pal);
  }
}
