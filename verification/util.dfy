/**
 * `get_objects` of `_actions/_util.py`: the objects of one kind, optionally
 * restricted to those belonging to the one pool with a given name.
 */
module Util {
  import opened Wrappers
  import opened ManagedObjects
  import Data

  /** Applies the wrapping function `wrap` to each object's interface data, in order. */
  function Construct<T>(objs: Snapshot, wrap: map<string, Props> -> T): (r: seq<T>)
    ensures |r| == |objs|
    ensures forall i :: 0 <= i < |objs| ==> r[i] == wrap(objs[i].interfaces)
  {
    seq(|objs|, i requires 0 <= i < |objs| => wrap(objs[i].interfaces))
  }

  /** The property map restricting a search to the objects of pool `path`. */
  function PoolFilter(path: string): Props {
    map["Pool" := VStr(path)]
  }

  function PoolByName(name: string): Props {
    map["Name" := VStr(name)]
  }

  /**
   * `get_objects(pool_name, managed_objects, search_function, wrap)`
   * where `search_function` searches interface `iface`.
   */
  function GetObjects<T>(poolName: Option<string>, mos: Snapshot, iface: string, wrap: map<string, Props> -> T)
    : (r: Result<seq<T>, Data.LookupError>)
    ensures poolName.None? ==> r == Success(Construct(Search(mos, iface, map[]), wrap))
    ensures poolName.Some? ==>
      (r.Success? <==> |Search(mos, Data.POOL_INTERFACE, PoolByName(poolName.value))| == 1)
    ensures poolName.Some? && r.Success? ==>
      var pool := Search(mos, Data.POOL_INTERFACE, PoolByName(poolName.value))[0];
      r.value == Construct(Search(mos, iface, PoolFilter(pool.path)), wrap)
    ensures r.Failure? ==> r.error == Data.LookupError(Data.POOL_INTERFACE, PoolByName(poolName.value))
  {
    match poolName
    case None => Success(Construct(Search(mos, iface, map[]), wrap))
    case Some(name) =>
      var found :- Data.Pools(mos, PoolByName(name), true);
      Success(Construct(Search(mos, iface, PoolFilter(found.obj.path)), wrap))
  }

  /**
   * With a pool name, the objects constructed are exactly those of the
   * searched kind whose "Pool" property is the named pool's object path.
   */
  lemma {:induction false} GetObjectsScoped<T>(name: string, mos: Snapshot, iface: string, wrap: map<string, Props> -> T)
    requires GetObjects(Some(name), mos, iface, wrap).Success?
    ensures exists pool ::
      (pool in mos && Matches(pool, Data.POOL_INTERFACE, PoolByName(name))
       && GetObjects(Some(name), mos, iface, wrap).value == Construct(Search(mos, iface, PoolFilter(pool.path)), wrap)
       && (forall o :: o in Search(mos, iface, PoolFilter(pool.path)) <==>
             o in mos && iface in o.interfaces && Property(o, iface, "Pool") == Some(VStr(pool.path))))
  {
    var pool := Search(mos, Data.POOL_INTERFACE, PoolByName(name))[0];
    assert pool in Search(mos, Data.POOL_INTERFACE, PoolByName(name));
    var objs := Search(mos, iface, PoolFilter(pool.path));
    forall o
      ensures o in objs <==> o in mos && iface in o.interfaces && Property(o, iface, "Pool") == Some(VStr(pool.path))
    {
      if o in mos && iface in o.interfaces && Property(o, iface, "Pool") == Some(VStr(pool.path)) {
        assert Matches(o, iface, PoolFilter(pool.path));
      }
    }
  }
}
