/**
 * `get_timeout` of `_actions/_environment.py`: the D-Bus timeout, given in
 * milliseconds, checked and converted to whole seconds.
 */
module Environment {
  import opened Wrappers
  import opened Text

  /** The value handed in: an integer, a string (from the environment) or a float. */
  datatype TimeoutInput = IntValue(i: int) | StrValue(s: string) | FloatValue

  const MAXIMUM_DBUS_TIMEOUT_MS: int := 1073741823

  datatype TimeoutError = FloatGiven | NotAnInteger | TooSmall | TooLarge {
    function Message(): string {
      match this
      case FloatGiven => "The timeout value provided is a float; it should be an integer."
      case NotAnInteger => "The timeout value provided is not an integer."
      case TooSmall => "The timeout value provided is smaller than the smallest acceptable value, -1."
      case TooLarge => "The timeout value provided exceeds the largest acceptable value, 1073741823."
    }
  }

  /** Python `int(value)` on the accepted input types; `None` for `ValueError`. */
  function IntOf(v: TimeoutInput): Option<int>
    requires !v.FloatValue?
  {
    match v
    case IntValue(i) => Some(i)
    case StrValue(s) => ParsePyInt(s)
  }

  /** `get_timeout(value)`. */
  function GetTimeout(v: TimeoutInput): (r: Result<int, TimeoutError>)
    ensures v.FloatValue? ==> r == Failure(FloatGiven)
    ensures !v.FloatValue? && IntOf(v).None? ==> r == Failure(NotAnInteger)
    ensures !v.FloatValue? && IntOf(v).Some? ==>
      var ms := IntOf(v).value;
      && (ms < -1 ==> r == Failure(TooSmall))
      && (ms > MAXIMUM_DBUS_TIMEOUT_MS ==> r == Failure(TooLarge))
      && (-1 <= ms <= MAXIMUM_DBUS_TIMEOUT_MS ==> r.Success? && r.value * 1000 <= ms < (r.value + 1) * 1000)
    ensures r.Success? ==> -1 <= r.value <= 1073741
  {
    if v.FloatValue? then Failure(FloatGiven)
    else
      match IntOf(v)
      case None => Failure(NotAnInteger)
      case Some(ms) =>
        if ms < -1 then Failure(TooSmall)
        else if ms > MAXIMUM_DBUS_TIMEOUT_MS then Failure(TooLarge)
        else Success(ms / 1000)
  }

  /** Floor division: -1 ms is -1 s (no timeout), and 999 ms rounds down to 0. */
  lemma GetTimeoutExamples()
    ensures GetTimeout(IntValue(-1)) == Success(-1)
    ensures GetTimeout(IntValue(0)) == Success(0)
    ensures GetTimeout(IntValue(999)) == Success(0)
    ensures GetTimeout(IntValue(1000)) == Success(1)
    ensures GetTimeout(IntValue(-2)) == Failure(TooSmall)
    ensures GetTimeout(IntValue(1073741824)) == Failure(TooLarge)
  {
  }

  /** A string is treated as the integer it denotes. */
  lemma GetTimeoutString(i: int)
    ensures GetTimeout(StrValue(IntToString(i))) == GetTimeout(IntValue(i))
  {
    ParseIntToString(i);
  }
}
