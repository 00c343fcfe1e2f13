/**
 * `_error_reporting.py`: the error mapper. An exception's chain of causes
 * is collected, then the element after the head is classified in a fixed
 * order, and failing that the last element is read as a D-Bus error; an
 * explanation ends the program with the error exit code, its absence
 * re-raises the original exception.
 *
 * Exceptions are an inductive datatype: a chain is finite and acyclic by
 * construction. Each exception has one kind, the class its `isinstance`
 * tests see.
 */
module ErrorReporting {
  import opened Wrappers
  import ActionConstants

  /** The exception classes the interpretation tests with `isinstance`. */
  datatype ErrClass =
    | ActionError
    | UniqueResultError
    | MissingSearchPropertiesError
    | MissingPropertyError
    | EngineError
    | EnginePropertyError
    | UserError
    | AggregateError
    | StratisdVersionError
    | IncoherenceError
    | DBusException

  /**
   * An exception: the classes it is an instance of, `str(exc)`, the
   * attributes the interpretation reads (`interface_name`, whether
   * `result == []`, `get_dbus_name()`), `__cause__` and `__context__`.
   */
  datatype Exc = Exc(classes: set<ErrClass>, text: string, interfaceName: string, resultEmpty: bool, dbusName: string,
                     cause: Option<Exc>, context: Option<Exc>)

  /** `exc.__cause__ or exc.__context__`: exceptions are always truthy. */
  function Next(e: Exc): (r: Option<Exc>)
    ensures e.cause.Some? ==> r == e.cause
    ensures e.cause.None? ==> r == e.context
  {
    if e.cause.Some? then e.cause else e.context
  }

  /** Each step of the chain goes to a strictly smaller exception. */
  lemma NextSmaller(e: Exc)
    requires Next(e).Some?
    ensures Next(e).value < e
  {
  }

  /** A chain: starts at `e`, each element followed by its successor, ending where there is none. */
  ghost predicate IsChain(e: Exc, s: seq<Exc>) {
    |s| >= 1 && s[0] == e
    && (forall i :: 0 <= i < |s| - 1 ==> Next(s[i]) == Some(s[i + 1]))
    && Next(s[|s| - 1]).None?
  }

  /** `list(get_errors(exc))`: the exception, then its causes (or contexts) in turn. */
  function GetErrors(e: Exc): (r: seq<Exc>)
    ensures IsChain(e, r)
    decreases e
  {
    match Next(e)
    case None => [e]
    case Some(n) =>
      NextSmaller(e);
      var rest := GetErrors(n);
      [e] + rest
  }

  /** The chain of an exception is unique: `GetErrors` is the only sequence with the chain shape. */
  lemma {:induction false} ChainUnique(e: Exc, s: seq<Exc>)
    requires IsChain(e, s)
    ensures s == GetErrors(e)
    decreases e
  {
    if |s| > 1 {
      assert Next(e) == Some(s[1]);
      NextSmaller(e);
      assert IsChain(s[1], s[1..]) by {
        forall i | 0 <= i < |s[1..]| - 1 ensures Next(s[1..][i]) == Some(s[1..][i + 1]) {
          assert s[1..][i] == s[i + 1];
        }
      }
      ChainUnique(s[1], s[1..]);
    }
  }

  const ACCESS_DENIED: string := "org.freedesktop.DBus.Error.AccessDenied"
  const NAME_HAS_NO_OWNER: string := "org.freedesktop.DBus.Error.NameHasNoOwner"
  const NO_REPLY: string := "org.freedesktop.DBus.Error.NoReply"

  const PERMISSIONS_MSG: string := "Most likely stratis has insufficient permissions for the action requested."
  const NO_OWNER_MSG: string := "Most likely stratis is unable to connect to the stratisd D-Bus service."
  const NO_REPLY_MSG: string :=
    "stratis attempted communication with the daemon, stratisd, over the D-Bus, but stratisd did not respond in the allowed time."
  const DBUS_INTERFACE_MSG: string :=
    "The version of stratis you are running expects a different D-Bus interface than the one stratisd provides. Most likely you are running a version that requires a newer version of stratisd than you are running."

  /** `_interpret_errors_0`: the three D-Bus error names with an explanation. */
  function InterpretDbusError(dbusName: string): (r: Option<string>)
    ensures r.Some? <==> dbusName in {ACCESS_DENIED, NAME_HAS_NO_OWNER, NO_REPLY}
    ensures dbusName == ACCESS_DENIED ==> r == Some(PERMISSIONS_MSG)
    ensures dbusName == NAME_HAS_NO_OWNER ==> r == Some(NO_OWNER_MSG)
    ensures dbusName == NO_REPLY ==> r == Some(NO_REPLY_MSG)
  {
    if dbusName == ACCESS_DENIED then Some(PERMISSIONS_MSG)
    else if dbusName == NAME_HAS_NO_OWNER then Some(NO_OWNER_MSG)
    else if dbusName == NO_REPLY then Some(NO_REPLY_MSG)
    else None
  }

  /**
   * `_interface_name_to_common_name`: the kind of object an interface
   * stands for; `None` where `StratisCliUnknownInterfaceError` is raised.
   */
  function CommonName(interfaceName: string): (r: Option<string>)
    ensures r == Some("block device") <==> interfaceName == ActionConstants.BLOCKDEV_INTERFACE
    ensures r == Some("filesystem") <==> interfaceName == ActionConstants.FILESYSTEM_INTERFACE
    ensures r == Some("pool") <==> interfaceName == ActionConstants.POOL_INTERFACE
    ensures r.None? <==>
      interfaceName !in {ActionConstants.BLOCKDEV_INTERFACE, ActionConstants.FILESYSTEM_INTERFACE, ActionConstants.POOL_INTERFACE}
  {
    ActionConstants.InterfacesDistinct();
    if interfaceName == ActionConstants.BLOCKDEV_INTERFACE then Some("block device")
    else if interfaceName == ActionConstants.FILESYSTEM_INTERFACE then Some("filesystem")
    else if interfaceName == ActionConstants.POOL_INTERFACE then Some("pool")
    else None
  }

  /** Why an interpretation raised instead of returning. */
  datatype Raised =
      /** `errors[0]` of an empty list (`IndexError`). */
    | NoSuchElement
      /** `StratisCliUnknownInterfaceError(interface_name)`. */
    | UnknownInterface(interfaceName: string)

  const ENGINE_PREFIX: string :=
    "stratisd failed to perform the operation that you requested. It returned the following information via the D-Bus: "
  const USER_PREFIX: string := "It appears that you issued an unintended command: "
  const AGGREGATE_PREFIX: string := "An iterative command generated one or more errors: "
  const VERSION_SUFFIX: string := ". stratis can execute only the subset of its commands that do not require stratisd."
  const INCOHERENCE_PREFIX: string :=
    "stratisd reported that it did not execute every action that it would have been expected to execute as a result of the command that you requested: "

  /** "Most likely you specified a %s which does not exist." */
  function DoesNotExist(commonName: string): string {
    "Most likely you specified a " + commonName + " which does not exist."
  }

  /** The classes of the interpretation rules, in the order they are tried. */
  const RULE_ORDER: seq<ErrClass> := [
    UniqueResultError, MissingSearchPropertiesError, MissingPropertyError, EngineError, EnginePropertyError,
    UserError, AggregateError, StratisdVersionError, IncoherenceError]

  /** The rule of class `c` applies: the error is an instance, and a unique-result error has an empty result. */
  predicate Applies(c: ErrClass, error: Exc) {
    c in error.classes && (c == UniqueResultError ==> error.resultEmpty)
  }

  /** The explanation the rule of class `c` gives. */
  function RuleExplanation(c: ErrClass, error: Exc): Result<string, Raised> {
    match c
    case UniqueResultError =>
      CommonName(error.interfaceName).ToResult(UnknownInterface(error.interfaceName)).MapSuccess(DoesNotExist)
    case MissingSearchPropertiesError => Success(DBUS_INTERFACE_MSG)
    case MissingPropertyError => Success(DBUS_INTERFACE_MSG)
    case EngineError => Success(ENGINE_PREFIX + error.text + ".")
    case EnginePropertyError => Success(error.text)
    case UserError => Success(USER_PREFIX + error.text)
    case AggregateError => Success(AGGREGATE_PREFIX + error.text)
    case StratisdVersionError => Success(error.text + VERSION_SUFFIX)
    case IncoherenceError => Success(INCOHERENCE_PREFIX + error.text)
    case _ => Success("")
  }

  lemma RuleOrderIndices()
    ensures |RULE_ORDER| == 9
    ensures RULE_ORDER[0] == UniqueResultError && RULE_ORDER[1] == MissingSearchPropertiesError
    ensures RULE_ORDER[2] == MissingPropertyError && RULE_ORDER[3] == EngineError
    ensures RULE_ORDER[4] == EnginePropertyError && RULE_ORDER[5] == UserError
    ensures RULE_ORDER[6] == AggregateError && RULE_ORDER[7] == StratisdVersionError
    ensures RULE_ORDER[8] == IncoherenceError
  {
  }

  /**
   * The first part of `_interpret_errors_1`: the explanation the first
   * error of the sub-chain gets by its class. The rules are tried in a
   * fixed order, and the first that applies decides; `None` means none
   * applies.
   */
  function ClassRule(error: Exc): Option<Result<string, Raised>> {
    if UniqueResultError in error.classes && error.resultEmpty then
      Some(CommonName(error.interfaceName).ToResult(UnknownInterface(error.interfaceName)).MapSuccess(DoesNotExist))
    else if MissingSearchPropertiesError in error.classes || MissingPropertyError in error.classes then
      Some(Success(DBUS_INTERFACE_MSG))
    else if EngineError in error.classes then Some(Success(ENGINE_PREFIX + error.text + "."))
    else if EnginePropertyError in error.classes then Some(Success(error.text))
    else if UserError in error.classes then Some(Success(USER_PREFIX + error.text))
    else if AggregateError in error.classes then Some(Success(AGGREGATE_PREFIX + error.text))
    else if StratisdVersionError in error.classes then Some(Success(error.text + VERSION_SUFFIX))
    else if IncoherenceError in error.classes then Some(Success(INCOHERENCE_PREFIX + error.text))
    else None
  }

  /** No rule gives an explanation exactly when no rule applies. */
  lemma ClassRuleNone(error: Exc)
    ensures ClassRule(error).None? <==> forall c :: c in RULE_ORDER ==> !Applies(c, error)
  {
    RuleOrderIndices();
    if ClassRule(error).None? {
      forall c | c in RULE_ORDER
        ensures !Applies(c, error)
      {
        var k :| 0 <= k < |RULE_ORDER| && RULE_ORDER[k] == c;
      }
    } else {
      assert exists k :: 0 <= k < |RULE_ORDER| && Applies(RULE_ORDER[k], error);
    }
  }

  /** The first rule in the order that applies gives the explanation. */
  lemma ClassRuleFirst(error: Exc, k: nat)
    requires k < |RULE_ORDER| && Applies(RULE_ORDER[k], error)
    requires forall j :: 0 <= j < k ==> !Applies(RULE_ORDER[j], error)
    ensures ClassRule(error) == Some(RuleExplanation(RULE_ORDER[k], error))
  {
    RuleOrderIndices();
    if k == 0 {
    } else {
      assert !Applies(RULE_ORDER[0], error);
      if k <= 2 {
      } else {
        assert !Applies(RULE_ORDER[1], error) && !Applies(RULE_ORDER[2], error);
        if k == 3 {
        } else {
          assert !Applies(RULE_ORDER[3], error);
          if k == 4 {
          } else {
            assert !Applies(RULE_ORDER[4], error);
            if k == 5 {
            } else {
              assert !Applies(RULE_ORDER[5], error);
              if k == 6 {
              } else {
                assert !Applies(RULE_ORDER[6], error);
                if k == 7 {
                } else {
                  assert !Applies(RULE_ORDER[7], error);
                }
              }
            }
          }
        }
      }
    }
  }

  /**
   * `_interpret_errors_1(errors)`: the first error's class rule, or else
   * the last error read as a D-Bus error.
   */
  function InterpretErrors1(errors: seq<Exc>): (r: Result<Option<string>, Raised>)
    ensures |errors| == 0 ==> r == Failure(NoSuchElement)
    ensures |errors| > 0 && ClassRule(errors[0]).Some? ==>
      r == ClassRule(errors[0]).value.MapSuccess(s => Some(s))
    ensures |errors| > 0 && ClassRule(errors[0]).None? && DBusException !in errors[|errors| - 1].classes ==>
      r == Success(None)
    ensures |errors| > 0 && ClassRule(errors[0]).None? && DBusException in errors[|errors| - 1].classes ==>
      r == Success(InterpretDbusError(errors[|errors| - 1].dbusName))
  {
    if |errors| == 0 then Failure(NoSuchElement)
    else
      match ClassRule(errors[0])
      case Some(explained) => explained.MapSuccess(s => Some(s))
      case None =>
        var lowest := errors[|errors| - 1];
        if DBusException in lowest.classes then Success(InterpretDbusError(lowest.dbusName))
        else Success(None)
  }

  /**
   * `_interpret_errors(errors)`: the head must be an action error, and
   * anything raised while interpreting (the failed assertion included)
   * means no explanation.
   */
  function InterpretErrors(errors: seq<Exc>): (r: Option<string>)
    ensures |errors| == 0 || ActionError !in errors[0].classes ==> r.None?
    ensures |errors| > 0 && ActionError in errors[0].classes ==>
      (r.Some? <==> InterpretErrors1(errors[1..]).Success? && InterpretErrors1(errors[1..]).value.Some?)
    ensures r.Some? ==> r == InterpretErrors1(errors[1..]).value
  {
    if |errors| == 0 || ActionError !in errors[0].classes then None
    else
      match InterpretErrors1(errors[1..])
      case Success(explanation) => explanation
      case Failure(_) => None
  }

  /** What `handle_error` does: exit with a code and message, or re-raise the error. */
  datatype Outcome = Exit(code: nat, message: string) | Reraise(error: Exc)

  /** `StratisCliErrorCodes.ERROR`. */
  const ERROR_CODE: nat := 1

  /** "Execution failed:" and the line separator (POSIX `os.linesep`). */
  const EXECUTION_FAILED: string := "Execution failed:\n"

  /** `handle_error(err)`. */
  function HandleError(err: Exc): (r: Outcome)
    ensures r.Reraise? <==> InterpretErrors(GetErrors(err)).None?
    ensures r.Reraise? ==> r.error == err
    ensures r.Exit? ==> r.code == ERROR_CODE
    ensures r.Exit? ==> |r.message| >= |EXECUTION_FAILED| && r.message[..|EXECUTION_FAILED|] == EXECUTION_FAILED
    ensures r.Exit? ==> Some(r.message[|EXECUTION_FAILED|..]) == InterpretErrors(GetErrors(err))
  {
    match InterpretErrors(GetErrors(err))
    case None => Reraise(err)
    case Some(explanation) =>
      var message := EXECUTION_FAILED + explanation;
      assert message[|EXECUTION_FAILED|..] == explanation;
      Exit(ERROR_CODE, message)
  }

  /**
   * A chain of one exception has nothing after its head, so it is never
   * explained and is always re-raised.
   */
  lemma SingleErrorReraised(err: Exc)
    requires Next(err).None?
    ensures HandleError(err) == Reraise(err)
  {
    assert GetErrors(err) == [err];
    assert GetErrors(err)[1..] == [];
  }

  /**
   * Only the head, the element after it and the last element decide the
   * explanation: chains that agree on those are explained alike.
   */
  lemma {:induction false} OnlySecondAndLastMatter(a: seq<Exc>, b: seq<Exc>)
    requires |a| >= 2 && |b| >= 2
    requires ActionError in a[0].classes <==> ActionError in b[0].classes
    requires a[1] == b[1] && a[|a| - 1] == b[|b| - 1]
    ensures InterpretErrors(a) == InterpretErrors(b)
  {
    var ta, tb := a[1..], b[1..];
    assert ta[0] == tb[0];
    assert ta[|ta| - 1] == a[|a| - 1] && tb[|tb| - 1] == b[|b| - 1];
  }

  /**
   * A unique-result error with an empty result, right after an action
   * error, names the kind of object that does not exist.
   */
  lemma MissingObjectExplained(err: Exc, missing: Exc)
    requires ActionError in err.classes && Next(err) == Some(missing)
    requires UniqueResultError in missing.classes && missing.resultEmpty
    ensures missing.interfaceName == ActionConstants.POOL_INTERFACE ==>
      HandleError(err) == Exit(ERROR_CODE, EXECUTION_FAILED + DoesNotExist("pool"))
    ensures missing.interfaceName == ActionConstants.FILESYSTEM_INTERFACE ==>
      HandleError(err) == Exit(ERROR_CODE, EXECUTION_FAILED + DoesNotExist("filesystem"))
  {
    NextSmaller(err);
    var chain := GetErrors(err);
    assert chain == [err] + GetErrors(missing);
    assert chain[1..] == GetErrors(missing);
  }
}
