/**
 * `cli/_stratisd_errors.py` of the earlier client: the error codes the
 * daemon publishes, as a class named `StratisdErrors` fetched once over
 * D-Bus with `GetErrorCodes` and cached. The file is a copy, specialised
 * to the error codes, of the general constants generator in
 * `LegacyStratisdConstants`, and is modelled by that module's definitions.
 */
module LegacyStratisdErrors {
  import opened Wrappers
  import C = LegacyStratisdConstants

  const CLASS_NAME: string := "StratisdErrors"

  /** `StratisdErrorsGen.build_class(values)`: each name an attribute equal to its value. */
  function BuildClass<V>(values: map<string, V>): (r: C.ClassObject<V>)
    ensures r.name == CLASS_NAME
    ensures forall name :: C.GetAttr(r, name) == if name in values then Some(values[name]) else None
  {
    C.BuildClass(CLASS_NAME, values)
  }

  /**
   * `StratisdErrorsGen.get_class(error_list)`: every name of the list is an
   * attribute holding the value of the last triple with that name, and
   * there are no other attributes.
   */
  function GetClass<V(==)>(errorList: seq<(string, V, string)>): (r: C.ClassObject<V>)
    ensures r.name == CLASS_NAME
    ensures forall i :: 0 <= i < |errorList| && C.LastWithName(errorList, i) ==> C.GetAttr(r, errorList[i].0) == Some(errorList[i].1)
    ensures forall name :: C.GetAttr(r, name).Some? <==> name in C.NamesOf(errorList)
  {
    BuildClass(C.ParseErrorList(errorList).values)
  }

  /**
   * `StratisdErrorsGen.get_errors()`: the cached class, or the class of the
   * reply to `GetErrorCodes`, cached; a D-Bus error ends the program when
   * the service is unknown and is re-raised otherwise.
   */
  function GetErrors<V(==)>(cache: Option<C.ClassObject<V>>, serviceUnknownPrefix: string,
                            reply: Result<seq<(string, V, string)>, string>)
    : (r: (Option<C.ClassObject<V>>, Result<C.ClassObject<V>, C.FetchFailure>))
    ensures cache.Some? ==> r == (cache, Success(cache.value))
    ensures cache.None? && reply.Success? ==> r == (Some(GetClass(reply.value)), Success(GetClass(reply.value)))
    ensures cache.None? && reply.Failure? ==> r.0.None? && r.1.Failure?
    ensures cache.None? && reply.Failure? ==>
      (r.1.error == C.ServiceUnavailable(C.SERVICE_UNAVAILABLE) <==> C.StartsWith(reply.error, serviceUnknownPrefix))
    ensures cache.None? && reply.Failure? && !C.StartsWith(reply.error, serviceUnknownPrefix) ==>
      r.1.error == C.Reraised(reply.error)
  {
    if cache.Some? then (cache, Success(cache.value))
    else
      match reply
      case Success(errorList) =>
        var klass := GetClass(errorList);
        (Some(klass), Success(klass))
      case Failure(message) =>
        if C.StartsWith(message, serviceUnknownPrefix) then (None, Failure(C.ServiceUnavailable(C.SERVICE_UNAVAILABLE)))
        else (None, Failure(C.Reraised(message)))
  }

  /**
   * The error-code fetcher behaves as the general generator does for
   * `StratisdErrorsGen`, when the daemon's `GetErrorCodes` gives `reply`.
   */
  lemma AgreesWithGenerator<V>(cache: Option<C.ClassObject<V>>, prefix: string,
                               reply: Result<seq<(string, V, string)>, string>)
    ensures GetErrors(cache, prefix, reply) == C.GetObject(cache, C.STRATISD_ERRORS_GEN, prefix, _ => reply)
  {
  }

  /** The two fields of the unit tests' example become attributes with their values. */
  lemma TwoFieldExample()
    ensures var klass := BuildClass(map["FIELD1" := 2, "FIELD2" := 0]);
      C.GetAttr(klass, "FIELD1") == Some(2) && C.GetAttr(klass, "FIELD2") == Some(0) && C.GetAttr(klass, "FIELD3").None?
  {
  }
}
