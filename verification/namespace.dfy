/**
 * argparse namespaces: attribute name to value, with the values the
 * client's parsers store, and Python's truth test on those values.
 */
module Namespace {
  import Constants

  datatype Arg =
    | ANone
    | AStr(s: string)
    | ABool(b: bool)
    | AInt(i: int)
    | AClevis(c: Constants.Clevis)

  /** Python `bool(value)`: enum members are always true. */
  predicate Truthy(a: Arg) {
    match a
    case ANone => false
    case AStr(s) => s != ""
    case ABool(b) => b
    case AInt(i) => i != 0
    case AClevis(_) => true
  }

  type Namespace = map<string, Arg>

  /** A Clevis pin with its JSON configuration object. */
  datatype ClevisInfo = ClevisInfo(pin: string, config: map<string, Arg>)
}
