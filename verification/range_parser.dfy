/**
 * `RangeAction` of `_parser/_range.py`: parses "<magnitude> <unit>" into a
 * whole number of bytes, rounding down.
 */
module RangeParser {
  import opened Wrappers
  import opened Text
  import opened Namespace
  import ParserShared

  /** `_unit_map` of this parser: the binary units up to TiB; PiB is not accepted here. */
  function UnitExponent(unit: string): (r: Option<nat>)
    ensures r.Some? <==> unit in {"B", "KiB", "MiB", "GiB", "TiB"}
    ensures r.Some? ==> r.value <= 4
  {
    if unit == "B" then Some(0)
    else if unit == "KiB" then Some(1)
    else if unit == "MiB" then Some(2)
    else if unit == "GiB" then Some(3)
    else if unit == "TiB" then Some(4)
    else None
  }

  type Positive = n: int | n >= 1 witness 1

  /** A magnitude as the size library reads it from text: an exact rational. */
  datatype Magnitude = Magnitude(num: int, den: Positive)

  datatype RangeError =
    | SpaceRequired
    | UnknownUnit(unit: string)
    | BadMagnitude(libraryMessage: string)
  {
    function Message(): string {
      match this
      case SpaceRequired => "Space required between magnitude and unit specifier"
      case UnknownUnit(u) => "Unknown unit specifier \"" + u + "\""
      case BadMagnitude(m) => m
    }
  }

  /** Rounding down to whole bytes: the largest whole number not above `num / den`. */
  function RoundDown(num: int, den: Positive): (r: int)
    ensures r * den <= num < (r + 1) * den
  {
    num / den
  }

  /**
   * `RangeAction.__call__(parser, namespace, values)`, where `readMagnitude`
   * is the size library's reading of the magnitude text, failing with the
   * text of the `RangeValueError` it raises, which is reported unchanged.
   */
  function RangeAction(ns: Namespace, dest: string, values: string, readMagnitude: string -> Result<Magnitude, string>)
    : (r: Result<Namespace, RangeError>)
    ensures ' ' !in values ==> r == Failure(SpaceRequired)
    ensures ' ' in values ==>
      var parts := SplitOnce(values, ' ');
      && (UnitExponent(parts[1]).None? ==> r == Failure(UnknownUnit(parts[1])))
      && (UnitExponent(parts[1]).Some? && readMagnitude(parts[0]).Failure? ==>
            r == Failure(BadMagnitude(readMagnitude(parts[0]).error)))
      && (UnitExponent(parts[1]).Some? && readMagnitude(parts[0]).Success? ==>
            r.Success? && r.value.Keys == ns.Keys + {dest}
            && (forall k :: k in ns && k != dest ==> r.value[k] == ns[k])
            && r.value[dest].AInt?
            && var m := readMagnitude(parts[0]).value;
               var exact := m.num * ParserShared.Pow1024(UnitExponent(parts[1]).value);
               r.value[dest].i * m.den <= exact < (r.value[dest].i + 1) * m.den)
  {
    var parts := SplitOnce(values, ' ');
    if |parts| < 2 then Failure(SpaceRequired)
    else
      match UnitExponent(parts[1])
      case None => Failure(UnknownUnit(parts[1]))
      case Some(k) =>
        match readMagnitude(parts[0])
        case Failure(e) => Failure(BadMagnitude(e))
        case Success(m) => Success(ns[dest := AInt(RoundDown(m.num * ParserShared.Pow1024(k), m.den))])
  }

  /** Whole magnitudes are stored exactly: magnitude times the unit. */
  lemma RangeActionWhole(ns: Namespace, dest: string, magnitude: string, unit: string,
                         readMagnitude: string -> Result<Magnitude, string>)
    requires ' ' !in magnitude && UnitExponent(unit).Some?
    requires readMagnitude(magnitude).Success? && readMagnitude(magnitude).value.den == 1
    ensures RangeAction(ns, dest, magnitude + " " + unit, readMagnitude)
      == Success(ns[dest := AInt(readMagnitude(magnitude).value.num * ParserShared.Pow1024(UnitExponent(unit).value))])
  {
    SplitOnceCons(magnitude, ' ', unit);
  }
}
