# Year-progress wallpaper: a Dafny model of the drawing engine

The handler `GET` in `app/route.tsx` answers a request with an image. The image shows one
dot for each day of the current year in a 15-column grid. Days that have passed are in one
colour, today is red, and days still to come are in a third colour. Two lines of text
below the grid give "{day} / {total} days" and "{percent}% complete ({left} days left)".

This project models everything between the query string and the renderer:

- `Query` (query.dfy): the fallbacks `Number(x) || 1179`, `Number(x) || 2556`,
  `tz || "UTC"` and `theme || "dark"`.
- `Calendar` (calendar.dfy): the Gregorian leap-year test with JavaScript's truncating `%`,
  and the year length. It also defines an ECMAScript-style day timeline (`DayFromYear`,
  `MakeDay`) and the day of the year computed as
  `floor((now - new Date(year, 0, 0)) / 86400000)` on a fixed-offset clock. This is proved
  to be the ordinal date. The module also gives the inverse of the ordinal date.
- `Theme` (theme.dfy): the two palettes and whether a day is passed, active or pending.
- `Geometry` (geometry.dfy): `cols = 15` and `rows = ceil(totalDays / 15)`. It defines the
  dot radius as the smaller of the width and height terms, the gap, the bounding boxes,
  the centring in the band from 32% to 82% of the height, and the two text offsets.
  JavaScript doubles are idealised as exact `real`s.
- `Dots` (dots.dfy): the nested row/column loop with its running `day` counter, as a
  method proved against the specification `Plan`. Lemmas give its count, order, positions
  and colour partition.
- `Text` (text.dfy): printing integers, `toFixed(1)`, and the two text lines.
- `Route` (route.dfy): the handler body as a method `YearProgress`, proved equal to the
  function `Layout`, with lemmas on what the plan contains.

The local wall-clock time `(year, month, day, msOfDay)` and the clock's UTC offset are
inputs. The model does not read a clock.

Three points where the code may not do what one expects:

- A negative `w` or `h` is truthy, so it passes through unchanged and is not replaced by
  the default.
- The grid is centred in the band, not fitted to it. At the default 1179 x 2556 canvas the
  grid box is taller than the band and starts above it (`Geometry.DefaultCanvasOverflowsBand`).
- `rows` is 25 for both 365 and 366 days.

## Model

| member | source | states |
|---|---|---|
| `Query.NumberOr` | app/route.tsx:9-10 | A missing, NaN or zero parameter gives the default. Any other number, negative ones included, passes through unchanged. With a non-zero default the result is never zero. |
| `Query.StringOr` | app/route.tsx:11-12 | A missing or empty string gives the default. Any other string passes through. A non-empty default gives a non-empty result. |
| `Query.Normalise` | app/route.tsx:9-12 | The normalised width and height are never zero, and the time zone and theme are never empty. Each field is its own parameter's fallback. |
| `Query.NegativeDimensionPassesThrough` | app/route.tsx:9-10 | A negative width or height is kept as it is. |
| `Query.NormaliseIsIdempotent` | app/route.tsx:9-12 | Normalising an already normalised request changes nothing. |
| `Query.EmptyQueryDefaults` | app/route.tsx:9-12 | With no parameters the request is 1179 x 2556, "UTC", "dark". |
| `Calendar.JsRem` | app/route.tsx:21 | JavaScript's truncating `%` is zero exactly when the Euclidean remainder is zero, and its magnitude is below the divisor. |
| `Calendar.LeapYearRule` | app/route.tsx:21 | A year is leap iff `(y%4==0 && y%100!=0) \|\| y%400==0`, negative years included. |
| `Calendar.IsLeapYear` | app/route.tsx:21 | Defines the leap test with JavaScript `%` (`JsRem`). `LeapYearRule` gives its meaning as the Gregorian divisibility rule. |
| `Calendar.LeapYearExamples` | app/route.tsx:21-23 | 2000 and 2024 are leap years, and 1900 and 2023 are not. 2024 has 366 days and 2023 has 365. |
| `Calendar.TotalDays` | app/route.tsx:23 | The year has 366 days iff it is leap, and otherwise 365. |
| `Calendar.MonthLength` | app/route.tsx:18-19 | Every month has 28 to 31 days. February has 29 exactly in a leap year. |
| `Calendar.DaysBeforeMonth` | app/route.tsx:18-19 | The days before month m lie between 28(m-1) and 31(m-1). |
| `Calendar.TwelveMonthsMakeAYear` | app/route.tsx:19-23 | The twelve month lengths add up to `totalDays`. |
| `Calendar.MonthsInOrder` | app/route.tsx:19 | An earlier month ends no later than a later month begins. |
| `Calendar.Ordinal` | app/route.tsx:19 | The ordinal date of a valid date lies in [1, totalDays]. |
| `Calendar.DayOfYearIsOrdinal` | app/route.tsx:16-19 | `floor((now - Dec 31 of the previous year, 00:00) / 86400000)` equals the ordinal date for any fixed clock offset, any time of day and any year outside 0..99, so it lies in [1, totalDays]. |
| `Calendar.DayOfYear` | app/route.tsx:19 | Defines `floor((local ms of now - local ms of new Date(year, 0, 0)) / 86400000)` for a year outside 0..99. `DayOfYearIsOrdinal` gives its value as the ordinal date. |
| `Calendar.DaysLeft` | app/route.tsx:24 | Defines `totalDays - dayOfYear`. `DaysLeftRange` gives its range and its zero on December 31. |
| `Calendar.FirstAndLastDay` | app/route.tsx:18-24 | January 1 gives day 1. December 31 gives day `totalDays` and 0 days left. |
| `Calendar.LastOrdinalIsDecember31` | app/route.tsx:19-23 | A date has the last ordinal iff it is December 31. |
| `Calendar.DaysLeftRange` | app/route.tsx:24 | `daysLeft` lies in [0, totalDays-1] and is 0 iff today is December 31. |
| `Calendar.OrdinalInjective` | app/route.tsx:19 | Two dates of one year with the same ordinal are the same date. |
| `Calendar.MonthOfOrdinal` | app/route.tsx:19 | The month found for ordinal n contains n. |
| `Calendar.DateOfOrdinal` | app/route.tsx:19 | Every n in [1, totalDays] is the ordinal of a valid date of the year. |
| `Calendar.OrdinalRoundTrip` | app/route.tsx:19 | Each date is recovered from its ordinal, so days 1..totalDays and the dates of the year correspond one to one. |
| `Calendar.YearLengthOnTimeline` | app/route.tsx:18-23 | The day numbers of consecutive January 1sts differ by `totalDays`, so the day timeline and the leap rule agree. |
| `Calendar.NewYear` | app/route.tsx:18 | The day after December 31 is January 1 of the next year, as `new Date(year, 0, 0)` assumes. |
| `Theme.PaletteFor` | app/route.tsx:27-30 | "light" selects a white background, black passed dots and light-grey pending dots. Any other theme selects black, white and dark grey. Active is always #EF4444. |
| `Theme.PalettesDistinct` | app/route.tsx:27-30 | In both palettes the three dot colours differ, and the passed colour, which is also the progress text colour, differs from the background. |
| `Theme.ThemeSwap` | app/route.tsx:27-30 | Switching theme swaps the background and the passed colour and keeps today red. |
| `Theme.StatusOf` | app/route.tsx:49-51 | A day is passed iff it is before today, active iff it is today, and pending iff it is after today. |
| `Geometry.Ceil` | app/route.tsx:33 | `Math.ceil`: the smallest integer not below x. |
| `Geometry.Rows` | app/route.tsx:32-33 | `rows` is the least number of 15-column rows that holds `totalDays`. |
| `Geometry.RowsOfYear` | app/route.tsx:33 | 365 and 366 days both need 25 rows. |
| `Geometry.DotRadius` | app/route.tsx:35-38 | The radius is at most `0.65w/45` and at most `0.55h/(3 rows)`, and it equals one of them. It is positive when the width and height are positive. |
| `Geometry.Grid` | app/route.tsx:40-42 | `gap = 3.4r`. `svgWidth = 14 gap + 2r = 49.6r`, `svgHeight = (rows-1) gap + 2r`, and the grid box is the svg box less one radius on each side. |
| `Geometry.GridFitsWidth` | app/route.tsx:66-67 | For a positive canvas, r > 0, the gap exceeds a diameter, and `svgWidth <= width`. |
| `Geometry.Place` | app/route.tsx:69-73 | The band is 0.32h to 0.82h. The grid box is centred in it: the space above equals the space below. The text tops are 5r and 10r below the box. |
| `Geometry.TextBelowGrid` | app/route.tsx:103-115 | For r > 0 the progress line is below the grid and the completion line is below the progress line. |
| `Geometry.DefaultCanvasOverflowsBand` | app/route.tsx:69-73 | At 1179 x 2556 the grid box is taller than the band and starts above the band's top. |
| `Dots.DotFor` | app/route.tsx:47-62 | Defines the dot of one day: key, centre one radius in plus whole gaps at its row and column, and the fill of its status. `RowMajor`, `DotsInsideBox` and `ColourPartition` give its properties. |
| `Dots.Plan` | app/route.tsx:44-64 | The first `n` dots, one per day 1..n in order, so the plan has exactly `n` dots. `BuildDots` is proved to build it, and `KeysAreTheDays` and `PrefixCounts` describe it. |
| `Dots.BuildDots` | app/route.tsx:44-64 | The nested loops push exactly the dots of `Plan` for `min(rows*15, totalDays)` days, in order. |
| `Dots.CellOfDay` | app/route.tsx:56-57 | The dot pushed at row r, column c is day `15r + c + 1`. |
| `Dots.EveryDayHasADot` | app/route.tsx:47-48 | With `rows = ceil(totalDays/15)` the loops stop on the day count, not the grid size, so they emit `totalDays` dots. |
| `Dots.KeysAreTheDays` | app/route.tsx:45-62 | Dot i has key i+1, so the keys run 1..n and strictly increase. |
| `Dots.CentreStep` | app/route.tsx:56-57 | One more row or column moves the centre by at least one gap. |
| `Dots.CentreWithin` | app/route.tsx:56-57 | The centres of columns or rows 0..k stay within k gaps of the first one. |
| `Dots.CellOrder` | app/route.tsx:47-48 | A later day is on a later row, or on the same row in a later column. |
| `Dots.RowMajor` | app/route.tsx:47-57 | A later dot lies at least one gap lower, or on the same row at least one gap further right. |
| `Dots.RowsStartAtLeftEdge` | app/route.tsx:48-56 | A dot lies at the left edge iff its day starts a row, so the partial last row is left-aligned. |
| `Dots.DotsInsideBox` | app/route.tsx:56-67 | On a positive canvas every centre lies in `[r, svgWidth-r] x [r, svgHeight-r]`. |
| `Dots.PrefixCounts` | app/route.tsx:49-51 | Among the first n dots, `min(n, today-1)` are passed, one is active if today <= n, and `max(0, n-today)` are pending. |
| `Dots.ColourPartition` | app/route.tsx:49-51 | With today in [1, totalDays]: today-1 dots are passed, exactly 1 is active and totalDays-today are pending. The active dot is today's. |
| `Text.DigitChar` | app/route.tsx:110 | A digit's character reads back as that digit. |
| `Text.DecimalString` | app/route.tsx:110 | Printing a number gives digits only, with no leading zero. |
| `Text.DecimalRoundTrip` | app/route.tsx:110 | Reading the printed digits gives back the number. |
| `Text.IntString` | app/route.tsx:110-122 | An integer is printed as its decimal digits, after a minus sign when it is negative. |
| `Text.RoundTenths` | app/route.tsx:25 | The tenths of `toFixed(1)` are nearest to 10x, and the larger one is taken on a tie. |
| `Text.FixedOne` | app/route.tsx:25 | `toFixed(1)` gives digits, a point and one digit, which together read as the rounded tenths. The integer part has no leading zero, so the string is fixed by the value. |
| `Text.Percent` | app/route.tsx:25 | `(dayOfYear / totalDays) * 100` is non-negative for a non-negative day, at most 100 for a day within the year, and exactly 100 on the last day. |
| `Text.PercentHasNoTie` | app/route.tsx:25 | For 365 or 366 days, ten times the percentage is at least 1/732 away from every halfway point `k + 1/2`, so no tie-breaking is needed. |
| `Text.ProgressText` | app/route.tsx:110 | Defines the line "{dayOfYear} / {totalDays} days". `TextExample` gives a concrete instance. |
| `Text.CompletionText` | app/route.tsx:122 | Defines the line "{percent}% complete ({daysLeft} days left)" with `FixedOne` for the percentage. `TextExample` and `LastDayText` give concrete instances. |
| `Text.TextExample` | app/route.tsx:110-122 | Day 46 of 365 reads "46 / 365 days" and "12.6% complete (319 days left)". |
| `Text.LastDayText` | app/route.tsx:122 | On the last day the line reads "100.0% complete (0 days left)". |
| `Route.Layout` | app/route.tsx:9-122 | Defines the drawing plan of a normalised request in closed form, with `Plan` for the dots. `LayoutDots`, `LayoutPlacement` and `LayoutText` give its properties. |
| `Route.YearProgress` | app/route.tsx:9-73 | The handler body produces exactly the `Layout` plan of the normalised request, with one dot per day of the year. |
| `Route.LayoutDots` | app/route.tsx:44-64 | The plan has `totalDays` dots keyed 1..totalDays: today-1 passed, exactly one active (today's) and totalDays-today pending. |
| `Route.LayoutPlacement` | app/route.tsx:66-115 | The grid box is centred in the band. On a positive canvas it is no wider than the canvas, and the two text lines follow below it in order. |
| `Route.LayoutText` | app/route.tsx:103-122 | The progress line reads "{today} / {totalDays} days" in the passed colour. The completion line reads "{percent}% complete ({daysLeft} days left)" in red. The background follows the theme. |
| `Route.DefaultScenario` | app/route.tsx:9-122 | With no parameters on 2023-02-15, the plan has a black background, 45 white, 1 red and 319 dark-grey dots, and the texts "46 / 365 days" and "12.6% complete (319 days left)". |

## Left out

- HTTP transport: the `Request`, the URL parsing and `runtime` (app/route.tsx:4-7). The query parameters are inputs to `YearProgress`.
- Parsing the raw strings with `Number(...)`: the parsed value is an input, either NaN or a finite number. `Infinity` and `-Infinity` are not modelled. They are truthy, would pass through, and would make the geometry non-finite.
- The time-zone conversion `new Date(new Date().toLocaleString(..., { timeZone: tz }))` (app/route.tsx:14): the local wall-clock time is an input. An unknown time zone makes this call throw; that is not modelled. `tz` is normalised but otherwise unused.
- Years 0..99, which `new Date(year, 0, 0)` reads as 1900 + year (app/route.tsx:19): the model uses the year as it is. The wall-clock time comes from a formatted current date, so such a year does not occur.
- Daylight-saving changes between January 0 and now (app/route.tsx:19): the server clock has a fixed offset from UTC.
- Doubles: all geometry is exact `real` arithmetic, so double rounding in the radius, gap and offsets is not modelled.
- Text.FixedOne: modelled on exact reals. `PercentHasNoTie` proves that ten times the exact percentage is at least 1/732 away from any halfway point between two tenths. A double's error is far smaller than that, so the printed digits agree, but that bound is argued, not proved.
- Font sizes `Math.round(width * 0.038)` and `Math.round(width * 0.028)` (app/route.tsx:106, 118): a double tie such as 9.5 can round differently from the exact real value, so they are not modelled.
- `ImageResponse`, the JSX elements and their CSS (app/route.tsx:1-2, 75-126): the plan is a `Frame` value with plain dot records. Horizontal centring (`left: 50%`, `translateX(-50%)`) and the font family are the renderer's business.
- Any promise that the grid fits inside the band: the code does not make one, and `Geometry.DefaultCanvasOverflowsBand` shows it fails at the default canvas.
