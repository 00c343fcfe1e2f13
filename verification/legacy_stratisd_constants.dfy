/**
 * `cli/_stratisd_constants.py` of the earlier client: the constants the
 * daemon publishes as a list of `(name, value, description)` triples,
 * turned into lookup maps and into a class whose attributes are the
 * names; the class is fetched from the daemon once and cached.
 *
 * A class built with `type(name, (object,), values)` is modelled by its
 * name and the attributes it was given; the attributes every class
 * inherits from `object` are not part of this model.
 */
module LegacyStratisdConstants {
  import opened Wrappers

  const SERVICE: string := "org.storage.stratis1"

  /** The map from names to values and the map from values to descriptions. */
  datatype ErrorTables<V(==)> = ErrorTables(values: map<string, V>, descriptions: map<V, string>)

  /** No later triple has the same name as the `i`th. */
  ghost predicate LastWithName<V>(errorList: seq<(string, V, string)>, i: nat)
    requires i < |errorList|
  {
    forall j :: i < j < |errorList| ==> errorList[j].0 != errorList[i].0
  }

  /** No later triple has the same value as the `i`th. */
  ghost predicate LastWithValue<V>(errorList: seq<(string, V, string)>, i: nat)
    requires i < |errorList|
  {
    forall j :: i < j < |errorList| ==> errorList[j].1 != errorList[i].1
  }

  /** The names of the triples. */
  ghost function NamesOf<V>(errorList: seq<(string, V, string)>): set<string> {
    set i | 0 <= i < |errorList| :: errorList[i].0
  }

  /** The values of the triples. */
  ghost function ValuesOf<V>(errorList: seq<(string, V, string)>): set<V> {
    set i | 0 <= i < |errorList| :: errorList[i].1
  }

  /** `values[key] = value` for every triple in turn: the later triple wins. */
  function Values<V>(errorList: seq<(string, V, string)>): (r: map<string, V>)
    ensures r.Keys == NamesOf(errorList)
    ensures forall i :: 0 <= i < |errorList| && LastWithName(errorList, i) ==> r[errorList[i].0] == errorList[i].1
  {
    if |errorList| == 0 then map[]
    else
      var n := |errorList| - 1;
      var before := Values(errorList[..n]);
      ValuesStep(errorList, before);
      before[errorList[n].0 := errorList[n].1]
  }

  lemma ValuesStep<V>(errorList: seq<(string, V, string)>, before: map<string, V>)
    requires |errorList| > 0
    requires before.Keys == NamesOf(errorList[..|errorList| - 1])
    requires forall i :: 0 <= i < |errorList| - 1 && LastWithName(errorList[..|errorList| - 1], i)
                         ==> before[errorList[i].0] == errorList[i].1
    ensures var last := errorList[|errorList| - 1];
      before[last.0 := last.1].Keys == NamesOf(errorList)
    ensures var last := errorList[|errorList| - 1];
      forall i :: 0 <= i < |errorList| && LastWithName(errorList, i) ==> before[last.0 := last.1][errorList[i].0] == errorList[i].1
  {
    var n := |errorList| - 1;
    var front := errorList[..n];
    assert forall i :: 0 <= i < n ==> front[i] == errorList[i];
    assert NamesOf(errorList) == NamesOf(front) + {errorList[n].0};
    forall i | 0 <= i < n && LastWithName(errorList, i)
      ensures LastWithName(front, i) && errorList[i].0 != errorList[n].0
    {
    }
  }

  /** `descriptions[value] = desc` for every triple in turn: the later triple wins. */
  function Descriptions<V(==)>(errorList: seq<(string, V, string)>): (r: map<V, string>)
    ensures r.Keys == ValuesOf(errorList)
    ensures forall i :: 0 <= i < |errorList| && LastWithValue(errorList, i) ==> r[errorList[i].1] == errorList[i].2
  {
    if |errorList| == 0 then map[]
    else
      var n := |errorList| - 1;
      var before := Descriptions(errorList[..n]);
      DescriptionsStep(errorList, before);
      before[errorList[n].1 := errorList[n].2]
  }

  lemma DescriptionsStep<V>(errorList: seq<(string, V, string)>, before: map<V, string>)
    requires |errorList| > 0
    requires before.Keys == ValuesOf(errorList[..|errorList| - 1])
    requires forall i :: 0 <= i < |errorList| - 1 && LastWithValue(errorList[..|errorList| - 1], i)
                         ==> before[errorList[i].1] == errorList[i].2
    ensures var last := errorList[|errorList| - 1];
      before[last.1 := last.2].Keys == ValuesOf(errorList)
    ensures var last := errorList[|errorList| - 1];
      forall i :: 0 <= i < |errorList| && LastWithValue(errorList, i) ==> before[last.1 := last.2][errorList[i].1] == errorList[i].2
  {
    var n := |errorList| - 1;
    var front := errorList[..n];
    assert forall i :: 0 <= i < n ==> front[i] == errorList[i];
    assert ValuesOf(errorList) == ValuesOf(front) + {errorList[n].1};
    forall i | 0 <= i < n && LastWithValue(errorList, i)
      ensures LastWithValue(front, i) && errorList[i].1 != errorList[n].1
    {
    }
  }

  /**
   * `parse_error_list(error_list)`: every name maps to its value and every
   * value to its description; where a name or a value repeats, the later
   * triple wins.
   */
  function ParseErrorList<V(==)>(errorList: seq<(string, V, string)>): (r: ErrorTables<V>)
    ensures r.values.Keys == NamesOf(errorList) && r.descriptions.Keys == ValuesOf(errorList)
    ensures forall i :: 0 <= i < |errorList| && LastWithName(errorList, i) ==> r.values[errorList[i].0] == errorList[i].1
    ensures forall i :: 0 <= i < |errorList| && LastWithValue(errorList, i) ==> r.descriptions[errorList[i].1] == errorList[i].2
  {
    ErrorTables(Values(errorList), Descriptions(errorList))
  }

  /** A class built by `type(classname, (object,), attributes)`. */
  datatype ClassObject<V> = ClassObject(name: string, attributes: map<string, V>)

  /** `getattr(klass, name)`: `None` where Python raises `AttributeError`. */
  function GetAttr<V>(klass: ClassObject<V>, name: string): (r: Option<V>)
    ensures r.Some? <==> name in klass.attributes
  {
    if name in klass.attributes then Some(klass.attributes[name]) else None
  }

  /** `build_class(classname, values)`: each name an attribute equal to its value. */
  function BuildClass<V>(classname: string, values: map<string, V>): (r: ClassObject<V>)
    ensures r.name == classname
    ensures forall name :: name in values ==> GetAttr(r, name) == Some(values[name])
    ensures forall name :: name !in values ==> GetAttr(r, name).None?
  {
    ClassObject(classname, values)
  }

  /**
   * `get_class(classname, error_list)`: the class of the names and values
   * of the list, the later triple winning for a repeated name.
   */
  function GetClass<V(==)>(classname: string, errorList: seq<(string, V, string)>): (r: ClassObject<V>)
    ensures r.name == classname
    ensures forall i :: 0 <= i < |errorList| && LastWithName(errorList, i) ==> GetAttr(r, errorList[i].0) == Some(errorList[i].1)
    ensures forall name :: (forall i :: 0 <= i < |errorList| ==> errorList[i].0 != name) ==> GetAttr(r, name).None?
  {
    BuildClass(classname, ParseErrorList(errorList).values)
  }

  /** The descriptions take no part in the class: lists that differ only in them give the same class. */
  lemma {:induction false} DescriptionsDiscarded<V>(classname: string, a: seq<(string, V, string)>, b: seq<(string, V, string)>)
    requires |a| == |b|
    requires forall i :: 0 <= i < |a| ==> a[i].0 == b[i].0 && a[i].1 == b[i].1
    ensures GetClass(classname, a) == GetClass(classname, b)
  {
    if |a| > 0 {
      var n := |a| - 1;
      DescriptionsDiscarded(classname, a[..n], b[..n]);
    }
  }

  /** Why fetching the constants failed. */
  datatype FetchFailure =
      /** `sys.exit('Service %s unavailable.' % SERVICE)`. */
    | ServiceUnavailable(exitMessage: string)
      /** The D-Bus error, re-raised. */
    | Reraised(message: string)

  const SERVICE_UNAVAILABLE: string := "Service " + SERVICE + " unavailable."

  /** A subclass of `StratisdConstantsGen`: the class to build and the D-Bus method that lists it. */
  datatype Generator = Generator(className: string, methodName: string)

  /** `StratisdErrorsGen`. */
  const STRATISD_ERRORS_GEN: Generator := Generator("StratisdErrors", "GetErrorCodes")

  /**
   * `StratisdConstantsGen.get_object()`: the cached class if there is one
   * (the daemon is not asked); otherwise the class of the daemon's reply
   * to the generator's method, which is cached. A D-Bus error whose text
   * starts with the service-unknown prefix ends the program; any other is
   * re-raised; a failure caches nothing. `call` is the Manager's method of
   * the given name.
   */
  function GetObject<V(==)>(cache: Option<ClassObject<V>>, gen: Generator, serviceUnknownPrefix: string,
                            call: string -> Result<seq<(string, V, string)>, string>)
    : (r: (Option<ClassObject<V>>, Result<ClassObject<V>, FetchFailure>))
    ensures cache.Some? ==> r == (cache, Success(cache.value))
    ensures cache.None? && call(gen.methodName).Success? ==>
      r.0 == Some(GetClass(gen.className, call(gen.methodName).value)) && r.1 == Success(r.0.value)
    ensures cache.None? && call(gen.methodName).Failure? ==> r.0.None? && r.1.Failure?
    ensures cache.None? && call(gen.methodName).Failure? ==>
      (r.1.error == ServiceUnavailable(SERVICE_UNAVAILABLE) <==> StartsWith(call(gen.methodName).error, serviceUnknownPrefix))
    ensures cache.None? && call(gen.methodName).Failure? && !StartsWith(call(gen.methodName).error, serviceUnknownPrefix) ==>
      r.1.error == Reraised(call(gen.methodName).error)
  {
    if cache.Some? then (cache, Success(cache.value))
    else
      match call(gen.methodName)
      case Success(errorList) =>
        var klass := GetClass(gen.className, errorList);
        (Some(klass), Success(klass))
      case Failure(message) =>
        if StartsWith(message, serviceUnknownPrefix) then (None, Failure(ServiceUnavailable(SERVICE_UNAVAILABLE)))
        else (None, Failure(Reraised(message)))
  }

  /** Python `str.startswith`. */
  predicate StartsWith(s: string, prefix: string) {
    |prefix| <= |s| && s[..|prefix|] == prefix
  }

  /**
   * Once a fetch succeeds, every later call returns the same class,
   * whatever the daemon would reply.
   */
  lemma FetchedOnce<V>(gen: Generator, prefix: string, first: string -> Result<seq<(string, V, string)>, string>,
                       later: string -> Result<seq<(string, V, string)>, string>)
    requires first(gen.methodName).Success?
    ensures var (cache, _) := GetObject(None, gen, prefix, first);
      GetObject(cache, gen, prefix, later) == (cache, Success(GetClass(gen.className, first(gen.methodName).value)))
  {
  }
}
