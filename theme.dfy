/** The colour palette chosen by the `theme` parameter, and the status of each day
    relative to today. */
module Theme {

  /** The colour used for today in both themes. */
  const ActiveColour: string := "#EF4444"

  datatype Palette = Palette(background: string, passed: string, pending: string, active: string)

  /** `theme === "light"` selects the light palette; every other string selects the dark one. */
  function PaletteFor(theme: string): (p: Palette)
    ensures p.active == ActiveColour
    ensures theme == "light" <==> p.background == "#FFFFFF"
    ensures theme == "light" ==> p.passed == "#000000" && p.pending == "#DDDDDD"
    ensures theme != "light" ==> p.background == "#000000" && p.passed == "#FFFFFF" && p.pending == "#222222"
  {
    var light := theme == "light";
    Palette(if light then "#FFFFFF" else "#000000",
            if light then "#000000" else "#FFFFFF",
            if light then "#DDDDDD" else "#222222",
            ActiveColour)
  }

  /** The three dot colours can be told apart. */
  predicate Distinct(p: Palette) {
    p.passed != p.active && p.pending != p.active && p.passed != p.pending
  }

  /** Both palettes keep the three dot colours apart, and the progress text, drawn in the
      passed colour, differs from the background. */
  lemma PalettesDistinct(theme: string)
    ensures Distinct(PaletteFor(theme))
    ensures PaletteFor(theme).passed != PaletteFor(theme).background
  {
    var p := PaletteFor(theme);
    assert p.passed[1] != p.active[1] && p.pending[1] != p.active[1];
    assert p.passed[1] != p.pending[1] && p.passed[1] != p.background[1];
  }

  /** Swapping the theme swaps the background and the passed colour and keeps today red. */
  lemma ThemeSwap()
    ensures PaletteFor("light").background == PaletteFor("dark").passed
    ensures PaletteFor("light").passed == PaletteFor("dark").background
    ensures PaletteFor("light").active == PaletteFor("dark").active
  {
  }

  /** Where a day stands relative to today. */
  datatype Status = Passed | Active | Pending

  /** A day before today has passed, today is active, a later day is pending. */
  function StatusOf(day: int, dayOfYear: int): (s: Status)
    ensures s == Passed <==> day < dayOfYear
    ensures s == Active <==> day == dayOfYear
    ensures s == Pending <==> day > dayOfYear
  {
    if day < dayOfYear then Passed else if day == dayOfYear then Active else Pending
  }

  function Fill(s: Status, p: Palette): string {
    match s
    case Passed => p.passed
    case Active => p.active
    case Pending => p.pending
  }
}
