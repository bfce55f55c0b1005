/** Normalisation of the four query parameters `w`, `h`, `tz` and `theme`.
    A numeric parameter is read with JavaScript's `Number(...)` and replaced by its
    default whenever the number is falsy (NaN, 0 or -0); a string parameter is replaced
    by its default when it is missing or empty. */
module Query {

  datatype Option<T> = None | Some(value: T)

  /** The value `Number(s)` produces for a raw query string: either NaN or a finite number. */
  datatype JsNumber = NaN | Finite(value: real)

  const DefaultWidth: real := 1179.0
  const DefaultHeight: real := 2556.0
  const DefaultTimeZone: string := "UTC"
  const DefaultTheme: string := "dark"

  /** The normalised request the rest of the computation sees. */
  datatype Request = Request(width: real, height: real, timeZone: string, theme: string)

  /** `Number(searchParams.get(k))`: a missing parameter is `Number(null)`, which is 0. */
  function NumberOf(p: Option<JsNumber>): (n: JsNumber)
    ensures p.None? ==> n == Finite(0.0)
    ensures p.Some? ==> n == p.value
  {
    match p
    case None => Finite(0.0)
    case Some(v) => v
  }

  /** JavaScript truthiness of a number: NaN and zero are falsy. */
  predicate Truthy(n: JsNumber) {
    n.Finite? && n.value != 0.0
  }

  /** `Number(searchParams.get(k)) || default`. */
  function NumberOr(p: Option<JsNumber>, default: real): (r: real)
    ensures p == None || p == Some(NaN) || p == Some(Finite(0.0)) ==> r == default
    ensures p.Some? && p.value.Finite? && p.value.value != 0.0 ==> r == p.value.value
    ensures default != 0.0 ==> r != 0.0
  {
    var n := NumberOf(p);
    if Truthy(n) then n.value else default
  }

  /** `searchParams.get(k) || default`: null and the empty string are falsy. */
  function StringOr(p: Option<string>, default: string): (r: string)
    ensures p == None || p == Some("") ==> r == default
    ensures p.Some? && p.value != "" ==> r == p.value
    ensures default != "" ==> r != ""
  {
    if p.Some? && p.value != "" then p.value else default
  }

  /** The four parameters after their fallbacks. */
  function Normalise(w: Option<JsNumber>, h: Option<JsNumber>, tz: Option<string>, theme: Option<string>): (req: Request)
    ensures req.width != 0.0 && req.height != 0.0
    ensures req.timeZone != "" && req.theme != ""
    ensures req.width == NumberOr(w, DefaultWidth) && req.height == NumberOr(h, DefaultHeight)
    ensures req.timeZone == StringOr(tz, DefaultTimeZone) && req.theme == StringOr(theme, DefaultTheme)
  {
    Request(NumberOr(w, DefaultWidth), NumberOr(h, DefaultHeight),
            StringOr(tz, DefaultTimeZone), StringOr(theme, DefaultTheme))
  }

  /** A negative number is truthy, so it passes through unchanged. */
  lemma NegativeDimensionPassesThrough(v: real, default: real)
    requires v < 0.0
    ensures NumberOr(Some(Finite(v)), default) == v
  {
  }

  /** Feeding a normalised value back in as the parameter changes nothing. */
  lemma NormaliseIsIdempotent(w: Option<JsNumber>, h: Option<JsNumber>, tz: Option<string>, theme: Option<string>)
    ensures var req := Normalise(w, h, tz, theme);
            Normalise(Some(Finite(req.width)), Some(Finite(req.height)), Some(req.timeZone), Some(req.theme)) == req
  {
  }

  /** A request with no parameters at all gets the defaults 1179, 2556, "UTC" and "dark". */
  lemma EmptyQueryDefaults()
    ensures Normalise(None, None, None, None) == Request(1179.0, 2556.0, "UTC", "dark")
  {
  }
}
