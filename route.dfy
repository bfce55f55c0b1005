/** The body of the `GET` handler without its I/O: normalise the query, resolve today's
    ordinal date from the local wall-clock time, pick the palette, size the grid, build
    the dots and place the grid and the two text lines. The result is the drawing plan
    handed to the image renderer. */
module Route {
  import opened Query
  import opened Calendar
  import opened Theme
  import opened Geometry
  import opened Dots
  import opened Text

  /** An absolutely positioned text line: its top offset, colour and content. */
  datatype TextLine = TextLine(top: real, colour: string, content: string)

  /** What the renderer receives: the canvas, its background, the grid box with its dots,
      and the two summary lines. */
  datatype Frame = Frame(width: real, height: real, background: string,
                         svgWidth: real, svgHeight: real, gridTop: real,
                         dots: seq<Dot>, progress: TextLine, completion: TextLine)

  /** The drawing plan for a normalised request at local time `now`, stated with the
      specification `Plan` of the dot loop. */
  function Layout(req: Request, now: LocalTime, offsetMs: int): Frame
    requires ValidTime(now)
  {
    var dayOfYear := DayOfYear(now, offsetMs);
    var totalDays := TotalDays(now.year);
    var pal := PaletteFor(req.theme);
    var g := Grid(req.width, req.height, totalDays);
    var p := Place(req.height, g);
    DayOfYearIsOrdinal(now, offsetMs);
    Frame(req.width, req.height, pal.background, g.svgWidth, g.svgHeight, p.gridTop,
          Plan(DotCount(totalDays, g.rows), dayOfYear, g.radius, g.gap, pal),
          TextLine(p.progressTop, pal.passed, ProgressText(dayOfYear, totalDays)),
          TextLine(p.completionTop, pal.active,
                   CompletionText(Percent(dayOfYear, totalDays), totalDays - dayOfYear)))
  }

  /** The handler body, step by step as in the source, with the dots built by the loops. */
  method YearProgress(w: Option<JsNumber>, h: Option<JsNumber>, tz: Option<string>, theme: Option<string>,
                      now: LocalTime, offsetMs: int)
    returns (frame: Frame)
    requires ValidTime(now)
    ensures frame == Layout(Normalise(w, h, tz, theme), now, offsetMs)
    ensures |frame.dots| == TotalDays(now.year)
  {
    var req := Normalise(w, h, tz, theme);
    var width, height := req.width, req.height;

    var year := now.year;
    var dayOfYear := DayOfYear(now, offsetMs);
    DayOfYearIsOrdinal(now, offsetMs);
    var totalDays := TotalDays(year);
    var daysLeft := totalDays - dayOfYear;
    var percent := Percent(dayOfYear, totalDays);

    var pal := PaletteFor(req.theme);

    var g := Grid(width, height, totalDays);
    var dots := BuildDots(totalDays, dayOfYear, g.rows, g.radius, g.gap, pal);
    EveryDayHasADot(totalDays);

    var p := Place(height, g);
    frame := Frame(width, height, pal.background, g.svgWidth, g.svgHeight, p.gridTop, dots,
                   TextLine(p.progressTop, pal.passed, ProgressText(dayOfYear, totalDays)),
                   TextLine(p.completionTop, pal.active, CompletionText(percent, daysLeft)));
  }

  /** One dot per day of the year, keyed 1..totalDays; the days before today are passed,
      today is the one active dot, and the rest are pending. */
  lemma {:induction false} LayoutDots(req: Request, now: LocalTime, offsetMs: int)
    requires ValidTime(now)
    ensures var f := Layout(req, now, offsetMs);
            var total := TotalDays(now.year);
            var today := Ordinal(now.year, now.month, now.day);
            var pal := PaletteFor(req.theme);
            |f.dots| == total &&
            (forall i :: 0 <= i < total ==> f.dots[i].key == i + 1) &&
            CountFill(f.dots, pal.passed) == today - 1 &&
            CountFill(f.dots, ActiveColour) == 1 &&
            CountFill(f.dots, pal.pending) == total - today &&
            (forall i :: 0 <= i < total ==> (f.dots[i].fill == ActiveColour <==> i + 1 == today))
  {
    var total := TotalDays(now.year);
    var today := DayOfYear(now, offsetMs);
    DayOfYearIsOrdinal(now, offsetMs);
    var pal := PaletteFor(req.theme);
    PalettesDistinct(req.theme);
    var g := Grid(req.width, req.height, total);
    EveryDayHasADot(total);
    ColourPartition(total, today, g.radius, g.gap, pal);
  }

  /** The grid box is centred in the band from 32% to 82% of the height, and the progress
      and completion lines follow five and ten radii below it. */
  lemma LayoutPlacement(req: Request, now: LocalTime, offsetMs: int)
    requires ValidTime(now)
    ensures var f := Layout(req, now, offsetMs);
            f.gridTop - f.height * 0.32 == f.height * 0.82 - (f.gridTop + f.svgHeight)
    ensures var f := Layout(req, now, offsetMs);
            f.width > 0.0 && f.height > 0.0 ==>
              f.svgWidth <= f.width &&
              f.gridTop + f.svgHeight < f.progress.top < f.completion.top
  {
    var f := Layout(req, now, offsetMs);
    var g := Grid(req.width, req.height, TotalDays(now.year));
    if f.width > 0.0 && f.height > 0.0 {
      GridFitsWidth(req.width, req.height, TotalDays(now.year));
      TextBelowGrid(req.height, g);
    }
  }

  /** The text lines read "{today} / {totalDays} days" in the passed colour and
      "{percent}% complete ({daysLeft} days left)" in red; the background follows the theme. */
  lemma LayoutText(req: Request, now: LocalTime, offsetMs: int)
    requires ValidTime(now)
    ensures var f := Layout(req, now, offsetMs);
            var total := TotalDays(now.year);
            var today := Ordinal(now.year, now.month, now.day);
            f.progress.content == ProgressText(today, total) &&
            f.completion.content == CompletionText(Percent(today, total), total - today) &&
            f.progress.colour == PaletteFor(req.theme).passed &&
            f.completion.colour == ActiveColour &&
            f.background == PaletteFor(req.theme).background
  {
    DayOfYearIsOrdinal(now, offsetMs);
  }

  /** A request with no parameters on February 15, 2023 (day 46 of 365): a black
      background, 45 white dots, one red dot, 319 dark-grey dots, and the lines
      "46 / 365 days" and "12.6% complete (319 days left)". */
  lemma {:induction false} DefaultScenario(ms: int, offsetMs: int)
    requires 0 <= ms < MsPerDay
    ensures var f := Layout(Normalise(None, None, None, None), LocalTime(2023, 2, 15, ms), offsetMs);
            f.width == 1179.0 && f.height == 2556.0 && f.background == "#000000" &&
            |f.dots| == 365 &&
            CountFill(f.dots, "#FFFFFF") == 45 &&
            CountFill(f.dots, "#EF4444") == 1 &&
            CountFill(f.dots, "#222222") == 319 &&
            f.progress.content == "46 / 365 days" &&
            f.completion.content == "12.6% complete (319 days left)"
  {
    var req := Normalise(None, None, None, None);
    var now := LocalTime(2023, 2, 15, ms);
    EmptyQueryDefaults();
    assert req.theme == "dark";
    February15();
    var f := Layout(req, now, offsetMs);
    var pal := PaletteFor(req.theme);
    assert pal.passed == "#FFFFFF" && pal.pending == "#222222" && pal.background == "#000000";
    LayoutDots(req, now, offsetMs);
    assert CountFill(f.dots, pal.passed) == 45 && CountFill(f.dots, pal.pending) == 319;
    LayoutText(req, now, offsetMs);
    TextExample();
  }

  /** February 15, 2023 is day 46 of a 365-day year. */
  lemma February15()
    ensures TotalDays(2023) == 365 && Ordinal(2023, 2, 15) == 46
  {
    LeapYearExamples();
  }
}
