/**
 * `check_stratisd_version` of `_actions/_stratisd_version.py`: the daemon's
 * version string, read as a tuple of integers, must lie between the
 * supported bounds, compared as Python compares tuples.
 */
module StratisdVersion {
  import opened Wrappers
  import opened Text

  /** Python `a < b` on tuples of integers: lexicographic, a proper prefix first. */
  predicate TupleLt(a: seq<int>, b: seq<int>) {
    if |b| == 0 then false
    else if |a| == 0 then true
    else if a[0] != b[0] then a[0] < b[0]
    else TupleLt(a[1..], b[1..])
  }

  lemma {:induction false} TupleLtIrreflexive(a: seq<int>)
    ensures !TupleLt(a, a)
  {
    if |a| > 0 {
      TupleLtIrreflexive(a[1..]);
    }
  }

  lemma {:induction false} TupleLtTransitive(a: seq<int>, b: seq<int>, c: seq<int>)
    requires TupleLt(a, b) && TupleLt(b, c)
    ensures TupleLt(a, c)
  {
    if |a| > 0 && a[0] == b[0] && b[0] == c[0] {
      TupleLtTransitive(a[1..], b[1..], c[1..]);
    }
  }

  lemma {:induction false} TupleLtTrichotomy(a: seq<int>, b: seq<int>)
    ensures TupleLt(a, b) || a == b || TupleLt(b, a)
  {
    if |a| > 0 && |b| > 0 && a[0] == b[0] {
      TupleLtTrichotomy(a[1..], b[1..]);
      assert a == [a[0]] + a[1..] && b == [b[0]] + b[1..];
    }
  }

  /** `int(x)` for every piece, or the first piece that does not parse. */
  function ParseInts(parts: seq<string>): (r: Result<seq<int>, string>)
    ensures r.Success? <==> forall i :: 0 <= i < |parts| ==> ParsePyInt(parts[i]).Some?
    ensures r.Success? ==> (|r.value| == |parts|
      && forall i :: 0 <= i < |parts| ==> r.value[i] == ParsePyInt(parts[i]).value)
    ensures r.Failure? ==> r.error in parts && ParsePyInt(r.error).None?
  {
    if |parts| == 0 then Success([])
    else
      var rest := ParseInts(parts[1..]);
      ParseIntsStep(parts, rest, ParsePyInt);
      match ParsePyInt(parts[0])
      case None => Failure(parts[0])
      case Some(n) =>
        match rest
        case Failure(e) => Failure(e)
        case Success(tail) => Success([n] + tail)
  }

  /** The contract of `ParseInts` carries over from the pieces after the first to all of them. */
  lemma ParseIntsStep(parts: seq<string>, rest: Result<seq<int>, string>, parse: string -> Option<int>)
    requires |parts| > 0
    requires rest.Success? <==> forall i :: 0 <= i < |parts[1..]| ==> parse(parts[1..][i]).Some?
    requires rest.Success? ==> (|rest.value| == |parts[1..]|
      && forall i :: 0 <= i < |parts[1..]| ==> rest.value[i] == parse(parts[1..][i]).value)
    requires rest.Failure? ==> rest.error in parts[1..] && parse(rest.error).None?
    ensures parse(parts[0]).Some? && rest.Success? <==> forall i :: 0 <= i < |parts| ==> parse(parts[i]).Some?
    ensures parse(parts[0]).Some? && rest.Success? ==>
      forall i :: 0 <= i < |parts| ==> ([parse(parts[0]).value] + rest.value)[i] == parse(parts[i]).value
    ensures rest.Failure? ==> rest.error in parts
  {
    var tail := parts[1..];
    assert forall i :: 1 <= i < |parts| ==> parts[i] == tail[i - 1];
    if parse(parts[0]).Some? && rest.Success? {
      var all := [parse(parts[0]).value] + rest.value;
      forall i | 0 <= i < |parts| ensures all[i] == parse(parts[i]).value {
        if i > 0 {
          assert all[i] == rest.value[i - 1];
        }
      }
    }
    if rest.Failure? {
      var k :| 0 <= k < |tail| && tail[k] == rest.error;
      assert parts[k + 1] == rest.error;
    }
  }

  /** `tuple([int(x) for x in version.split(".")])`. */
  function ParseVersion(version: string): (r: Result<seq<int>, string>)
    ensures r.Success? ==> |r.value| == |Split(version, '.')|
  {
    ParseInts(Split(version, '.'))
  }

  /** The dotted rendering of a version tuple. */
  function VersionString(t: seq<int>): string {
    Join(".", RenderInts(t))
  }

  function RenderInts(t: seq<int>): (r: seq<string>)
    ensures |r| == |t| && forall i :: 0 <= i < |t| ==> r[i] == IntToString(t[i])
  {
    if |t| == 0 then [] else [IntToString(t[0])] + RenderInts(t[1..])
  }

  /** One rendered component: no dot, and `int()` reads it back. */
  lemma RenderedComponent(n: int)
    ensures '.' !in IntToString(n) && ParsePyInt(IntToString(n)) == Some(n)
  {
    IntToStringChars(n, '.');
    ParseIntToString(n);
  }

  /** Reading the rendering of a non-empty version tuple gives the tuple back. */
  lemma ParseVersionRoundTrip(t: seq<int>)
    requires |t| >= 1
    ensures ParseVersion(VersionString(t)) == Success(t)
  {
    RenderedPartsUndotted(t);
    SplitJoin(RenderInts(t), '.');
    RenderedPartsParse(t);
  }

  lemma RenderedPartsUndotted(t: seq<int>)
    ensures forall i :: 0 <= i < |RenderInts(t)| ==> '.' !in RenderInts(t)[i]
  {
    var parts := RenderInts(t);
    forall i | 0 <= i < |parts|
      ensures '.' !in parts[i]
    {
      RenderedComponent(t[i]);
    }
  }

  lemma RenderedPartsParse(t: seq<int>)
    ensures ParseInts(RenderInts(t)) == Success(t)
  {
    var parts := RenderInts(t);
    forall i | 0 <= i < |parts|
      ensures ParsePyInt(parts[i]) == Some(t[i])
    {
      RenderedComponent(t[i]);
    }
    var r := ParseInts(parts);
    assert r.Success?;
    assert r.value == t;
  }

  datatype VersionError =
      /** `int()` raised `ValueError` on this component. */
    | NotAnInteger(component: string)
      /** `StratisCliStratisdVersionError(version, minimum, maximum)`. */
    | Unsupported(version: seq<int>, minimum: seq<int>, maximum: seq<int>)

  /**
   * `check_stratisd_version()`, with the daemon's reported version and the
   * supported bounds as parameters.
   */
  function CheckVersion(version: string, minimum: seq<int>, maximum: seq<int>): (r: Result<seq<int>, VersionError>)
    ensures r.Success? <==> (ParseVersion(version).Success?
      && !TupleLt(ParseVersion(version).value, minimum) && !TupleLt(maximum, ParseVersion(version).value))
    ensures ParseVersion(version).Failure? ==> r == Failure(NotAnInteger(ParseVersion(version).error))
    ensures r.Failure? && r.error.Unsupported? ==>
      r.error == Unsupported(ParseVersion(version).value, minimum, maximum)
    ensures r.Success? ==> r.value == ParseVersion(version).value
  {
    match ParseVersion(version)
    case Failure(c) => Failure(NotAnInteger(c))
    case Success(v) =>
      if TupleLt(v, minimum) || TupleLt(maximum, v) then Failure(Unsupported(v, minimum, maximum))
      else Success(v)
  }

  /** A rendered version passes exactly when it lies between the bounds. */
  lemma CheckRenderedVersion(t: seq<int>, minimum: seq<int>, maximum: seq<int>)
    requires |t| >= 1
    ensures CheckVersion(VersionString(t), minimum, maximum)
      == if TupleLt(t, minimum) || TupleLt(maximum, t) then Failure(Unsupported(t, minimum, maximum)) else Success(t)
  {
    ParseVersionRoundTrip(t);
  }

  /** With the bounds 3.8.2 and 4.0.0: the bounds themselves pass, 3.9 passes, 3.8.1 and 4.0.1 do not. */
  lemma SupportedBounds()
    ensures !TupleLt([3, 8, 2], [3, 8, 2]) && !TupleLt([4, 0, 0], [3, 8, 2])
    ensures !TupleLt([4, 0, 0], [3, 8, 2]) && !TupleLt([4, 0, 0], [4, 0, 0])
    ensures TupleLt([3, 8, 1], [3, 8, 2]) && TupleLt([4, 0, 0], [4, 0, 1])
    ensures !TupleLt([3, 9], [3, 8, 2]) && !TupleLt([4, 0, 0], [3, 9])
    ensures TupleLt([4, 0], [4, 0, 0])
  {
  }
}
