/**
 * `_actions/_dynamic.py`: the D-Bus timeout every generated proxy class uses,
 * and the absolute-path precondition wrapped around the methods that take
 * device paths.
 */
module Dynamic {
  import opened Wrappers
  import opened Text
  import opened ManagedObjects
  import Environment
  import ActionConstants

  const DBUS_TIMEOUT_SECONDS: int := 120

  /** `os.environ.get("STRATIS_DBUS_TIMEOUT", DBUS_TIMEOUT_SECONDS * 1000)`, handed to `get_timeout`. */
  function Timeout(stratisDbusTimeout: Option<string>): (r: Result<int, Environment.TimeoutError>)
    ensures stratisDbusTimeout.Some? ==> r == Environment.GetTimeout(Environment.StrValue(stratisDbusTimeout.value))
  {
    var raw := match stratisDbusTimeout
      case Some(s) => Environment.StrValue(s)
      case None => Environment.IntValue(DBUS_TIMEOUT_SECONDS * 1000);
    Environment.GetTimeout(raw)
  }

  /** With the variable unset, the timeout is 120 seconds. */
  lemma DefaultTimeout()
    ensures Timeout(None) == Success(DBUS_TIMEOUT_SECONDS)
  {
  }

  /** `os.path.isabs` on POSIX. */
  predicate IsAbs(path: string) {
    |path| > 0 && path[0] == '/'
  }

  /** The paths of `paths` that are not absolute, in order. */
  function RelativePaths(paths: seq<string>): (r: seq<string>)
    ensures forall p :: p in r <==> p in paths && !IsAbs(p)
    ensures |r| == 0 <==> forall i :: 0 <= i < |paths| ==> IsAbs(paths[i])
    ensures |paths| == 1 ==> r == if IsAbs(paths[0]) then [] else paths
  {
    if |paths| == 0 then []
    else
      var rest := RelativePaths(paths[1..]);
      assert forall p :: p in paths <==> p == paths[0] || p in paths[1..];
      assert forall i :: 1 <= i < |paths| ==> paths[i] == paths[1..][i - 1];
      if IsAbs(paths[0]) then rest else [paths[0]] + rest
  }

  /**
   * The relative paths of a concatenation are those of each part, one part
   * after the other; with the one-path case this fixes their order as the
   * order of the arguments.
   */
  lemma {:induction false} RelativePathsAppend(a: seq<string>, b: seq<string>)
    ensures RelativePaths(a + b) == RelativePaths(a) + RelativePaths(b)
  {
    if |a| == 0 {
      assert a + b == b;
    } else {
      assert (a + b)[1..] == a[1..] + b;
      RelativePathsAppend(a[1..], b);
    }
  }

  datatype GuardError =
      /** `args[key]` raised `KeyError`. */
    | MissingArgument(key: string)
      /** `args[key]` is not a list of strings. */
    | NotPaths(key: string)
      /** The `AssertionError` the guard raises, with its message. */
    | RelativePathsGiven(paths: seq<string>, message: string)

  /** The strings of a D-Bus array of strings. */
  function Strings(v: Value): (r: Option<seq<string>>)
    ensures r.Some? ==> v.VList? && |r.value| == |v.items|
  {
    match v
    case VList(items) =>
      if forall i :: 0 <= i < |items| ==> items[i].VStr? then Some(seq(|items|, i requires 0 <= i < |items| => items[i].s))
      else None
    case _ => None
  }

  function PreconditionMessage(rel: seq<string>): string {
    "Precondition violated: paths " + Join(", ", rel) + " should be absolute"
  }

  /**
   * The method `_add_abs_path_assertion(klass, method_name, key)` installs:
   * every path in `args[key]` must be absolute, and then the original
   * method (`call`) is invoked with the same arguments.
   */
  function AbsPathGuard<R>(key: string, args: map<string, Value>, call: map<string, Value> -> R): (r: Result<R, GuardError>)
    ensures key !in args ==> r == Failure(MissingArgument(key))
    ensures key in args && Strings(args[key]).None? ==> r == Failure(NotPaths(key))
    ensures r.Success? <==> (key in args && Strings(args[key]).Some?
                             && forall i :: 0 <= i < |Strings(args[key]).value| ==> IsAbs(Strings(args[key]).value[i]))
    ensures r.Success? ==> r.value == call(args)
    ensures r.Failure? && r.error.RelativePathsGiven? ==>
      var rel := RelativePaths(Strings(args[key]).value);
      |rel| > 0 && r.error == RelativePathsGiven(rel, PreconditionMessage(rel))
  {
    if key !in args then Failure(MissingArgument(key))
    else
      match Strings(args[key])
      case None => Failure(NotPaths(key))
      case Some(paths) =>
        var rel := RelativePaths(paths);
        if rel != [] then Failure(RelativePathsGiven(rel, PreconditionMessage(rel)))
        else Success(call(args))
  }

  /** Only the guarded argument decides whether the original method is reached. */
  lemma AbsPathGuardLooksOnlyAtKey<R>(key: string, a: map<string, Value>, b: map<string, Value>, call: map<string, Value> -> R)
    requires key in a <==> key in b
    requires key in a ==> a[key] == b[key]
    ensures AbsPathGuard(key, a, call).Success? <==> AbsPathGuard(key, b, call).Success?
  {
  }

  /** The generated classes, with their interface and the methods that are guarded (all on "devices"). */
  datatype ClassKey = FILESYSTEM | MANAGER | OBJECT_MANAGER | POOL | REPORT {
    function InterfaceName(): string {
      match this
      case FILESYSTEM => ActionConstants.FILESYSTEM_INTERFACE
      case MANAGER => ActionConstants.MANAGER_INTERFACE
      case OBJECT_MANAGER => "org.freedesktop.DBus.ObjectManager"
      case POOL => ActionConstants.POOL_INTERFACE
      case REPORT => ActionConstants.REPORT_INTERFACE
    }
    function InvokeName(): string {
      match this
      case FILESYSTEM => "Filesystem"
      case MANAGER => "Manager"
      case OBJECT_MANAGER => "ObjectManager"
      case POOL => "Pool"
      case REPORT => "Report"
    }
  }

  const GUARDED_KEY: string := "devices"

  /** The methods of a generated class whose "devices" argument must hold absolute paths. */
  function GuardedMethods(key: ClassKey): (r: set<string>)
    ensures "CreatePool" in r <==> key == MANAGER
    ensures "AddDataDevs" in r <==> key == POOL
    ensures key != MANAGER && key != POOL ==> r == {}
  {
    match key
    case MANAGER => {"CreatePool"}
    case POOL => {"InitCache", "AddCacheDevs", "AddDataDevs"}
    case _ => {}
  }

  /** Invoking `methodName` on a generated class: guarded methods go through the path check first. */
  function Invoke<R>(key: ClassKey, methodName: string, args: map<string, Value>, call: map<string, Value> -> R)
    : (r: Result<R, GuardError>)
    ensures methodName !in GuardedMethods(key) ==> r == Success(call(args))
    ensures methodName in GuardedMethods(key) ==> r == AbsPathGuard(GUARDED_KEY, args, call)
  {
    if methodName in GuardedMethods(key) then AbsPathGuard(GUARDED_KEY, args, call) else Success(call(args))
  }

  /** A pool created with a relative device path never reaches the daemon. */
  lemma CreatePoolRejectsRelative<R>(args: map<string, Value>, paths: seq<string>, i: nat, call: map<string, Value> -> R)
    requires GUARDED_KEY in args && Strings(args[GUARDED_KEY]) == Some(paths)
    requires i < |paths| && !IsAbs(paths[i])
    ensures Invoke(MANAGER, "CreatePool", args, call).Failure?
  {
  }
}
