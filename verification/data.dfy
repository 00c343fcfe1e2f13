/**
 * The managed-object query functions of `_actions/_data.py`: a search by
 * interface and properties, optionally required to find exactly one object.
 */
module Data {
  import opened Wrappers
  import opened ManagedObjects

  const FILESYSTEM_INTERFACE: string := "org.storage.stratis1.filesystem"
  const POOL_INTERFACE: string := "org.storage.stratis1.pool"
  const BLOCKDEV_INTERFACE: string := "org.storage.stratis1.blockdev"

  /** `StratisCliDbusLookupError(interface, props)`. */
  datatype LookupError = LookupError(iface: string, props: Props)

  /** Either every match (in snapshot order) or the single match. */
  datatype Found = AllMatches(objects: Snapshot) | UniqueMatch(obj: MObject)

  /**
   * `_unique_wrapper(interface, func)(managed_objects, props, unique)`:
   * without `unique` the search result is handed back unchanged; with it,
   * anything but exactly one match is a lookup error naming the interface
   * and the searched properties.
   */
  function UniqueWrapper(iface: string, mos: Snapshot, props: Props, unique: bool): (r: Result<Found, LookupError>)
    ensures !unique ==> r == Success(AllMatches(Search(mos, iface, props)))
    ensures unique ==> (r.Success? <==> |Search(mos, iface, props)| == 1)
    ensures unique && r.Success? ==>
      r.value.UniqueMatch? && r.value.obj in mos && Matches(r.value.obj, iface, props)
      && (forall o :: o in mos && Matches(o, iface, props) ==> o == r.value.obj)
    ensures r.Failure? ==> r.error == LookupError(iface, props)
  {
    var result := Search(mos, iface, props);
    if unique then
      if |result| != 1 then Failure(LookupError(iface, props))
      else
        assert result[0] in result;
        Success(UniqueMatch(result[0]))
    else Success(AllMatches(result))
  }

  function Filesystems(mos: Snapshot, props: Props, unique: bool): Result<Found, LookupError> {
    UniqueWrapper(FILESYSTEM_INTERFACE, mos, props, unique)
  }

  function Pools(mos: Snapshot, props: Props, unique: bool): Result<Found, LookupError> {
    UniqueWrapper(POOL_INTERFACE, mos, props, unique)
  }

  function Devs(mos: Snapshot, props: Props, unique: bool): Result<Found, LookupError> {
    UniqueWrapper(BLOCKDEV_INTERFACE, mos, props, unique)
  }

  ghost predicate AllOf(f: Found, iface: string) {
    match f
    case AllMatches(objs) => forall o :: o in objs ==> iface in o.interfaces
    case UniqueMatch(o) => iface in o.interfaces
  }

  /**
   * Each query is bound to its own interface: it only ever yields objects
   * implementing that interface, and its errors name that interface.
   */
  lemma QueriesBoundToInterface(mos: Snapshot, props: Props, unique: bool)
    ensures Filesystems(mos, props, unique).Success? ==> AllOf(Filesystems(mos, props, unique).value, FILESYSTEM_INTERFACE)
    ensures Pools(mos, props, unique).Success? ==> AllOf(Pools(mos, props, unique).value, POOL_INTERFACE)
    ensures Devs(mos, props, unique).Success? ==> AllOf(Devs(mos, props, unique).value, BLOCKDEV_INTERFACE)
    ensures Filesystems(mos, props, unique).Failure? ==> Filesystems(mos, props, unique).error.iface == FILESYSTEM_INTERFACE
    ensures Pools(mos, props, unique).Failure? ==> Pools(mos, props, unique).error.iface == POOL_INTERFACE
    ensures Devs(mos, props, unique).Failure? ==> Devs(mos, props, unique).error.iface == BLOCKDEV_INTERFACE
  {
  }
}
