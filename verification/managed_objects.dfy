/**
 * The daemon's object tree as the client receives it from one
 * GetManagedObjects call: an ordered collection of objects, each with an
 * object path and, per D-Bus interface, a map of property values.
 * D-Bus values are kept loosely typed, as the client's Python code sees them.
 */
module ManagedObjects {
  import opened Wrappers

  /** A D-Bus value as seen from Python. */
  datatype Value =
    | VNone
    | VStr(s: string)
    | VBool(b: bool)
    | VInt(i: int)
      /** The `(valid, value)` pairs the daemon uses for optional values. */
    | VPair(valid: bool, item: Value)
    | VList(items: seq<Value>)
    | VDict(fields: map<string, Value>)

  /** Property name to value, for one interface of one object. */
  type Props = map<string, Value>

  datatype MObject = MObject(path: string, interfaces: map<string, Props>)

  /** The result of GetManagedObjects, in iteration order. */
  type Snapshot = seq<MObject>

  /** Object paths are keys of the daemon's dictionary, hence distinct. */
  ghost predicate DistinctPaths(mos: Snapshot) {
    forall i, j :: 0 <= i < j < |mos| ==> mos[i].path != mos[j].path
  }

  /**
   * The object implements `iface` and has every searched property with the
   * searched value; an empty `props` matches every object of the interface.
   */
  predicate Matches(o: MObject, iface: string, props: Props) {
    iface in o.interfaces
    && forall k :: k in props ==> k in o.interfaces[iface] && o.interfaces[iface][k] == props[k]
  }

  /** The objects that match, in snapshot order. */
  function Search(mos: Snapshot, iface: string, props: Props): (r: Snapshot)
    ensures |r| <= |mos|
    ensures forall o :: o in r <==> o in mos && Matches(o, iface, props)
  {
    if |mos| == 0 then []
    else
      var rest := Search(mos[1..], iface, props);
      assert forall o :: o in mos <==> o == mos[0] || o in mos[1..];
      if Matches(mos[0], iface, props) then [mos[0]] + rest else rest
  }

  /** Searching distributes over concatenation, so snapshot order is kept. */
  lemma {:induction false} SearchAppend(a: Snapshot, b: Snapshot, iface: string, props: Props)
    ensures Search(a + b, iface, props) == Search(a, iface, props) + Search(b, iface, props)
  {
    if |a| > 0 {
      assert (a + b)[1..] == a[1..] + b;
      SearchAppend(a[1..], b, iface, props);
    } else {
      assert a + b == b;
    }
  }

  /** Looking a property up: `None` where Python raises `KeyError`. */
  function Property(o: MObject, iface: string, name: string): (r: Option<Value>)
    ensures r.Some? <==> iface in o.interfaces && name in o.interfaces[iface]
    ensures r.Some? ==> r.value == o.interfaces[iface][name]
  {
    if iface in o.interfaces && name in o.interfaces[iface] then Some(o.interfaces[iface][name]) else None
  }
}
