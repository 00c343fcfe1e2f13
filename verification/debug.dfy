/**
 * The debug actions of `_actions/_debug.py`: the object path of a pool,
 * filesystem or block device, and the daemon's state refresh.
 */
module Debug {
  import opened Wrappers
  import opened Text
  import opened ManagedObjects
  import opened ActionErrors
  import StratisdConstants
  import ActionConstants
  import Data

  /**
   * The search key of the pool and filesystem lookups: by `--name` when it
   * is given, else by the UUID's hex form (reading a missing `--uuid` is an
   * `AttributeError` in Python).
   */
  function LookupKey(name: Option<string>, uuid: Option<Uuid>): (r: Result<Props, ActionError>)
    ensures name.Some? ==> r == Success(map["Name" := VStr(name.value)])
    ensures name.None? && uuid.Some? ==> r == Success(map["Uuid" := VStr(UuidHex(uuid.value))])
    ensures name.None? && uuid.None? ==> r == Failure(AttributeError("hex"))
  {
    if name.Some? then Success(map["Name" := VStr(name.value)])
    else if uuid.Some? then Success(map["Uuid" := VStr(UuidHex(uuid.value))])
    else Failure(AttributeError("hex"))
  }

  /** The object path of the one object of the interface that matches the key. */
  function ObjectPath(iface: string, mos: Snapshot, key: Props): (r: Result<string, ActionError>)
    ensures r.Success? <==> |Search(mos, iface, key)| == 1
    ensures r.Success? ==> exists o :: o in mos && Matches(o, iface, key) && o.path == r.value
    ensures r.Success? ==> forall o :: o in mos && Matches(o, iface, key) ==> o.path == r.value
    ensures r.Failure? ==> r.error == DbusLookup(Data.LookupError(iface, key))
  {
    var o :- UniqueObject(iface, mos, key);
    Success(o.path)
  }

  /** `PoolDebugActions.get_object_path`. */
  function PoolObjectPath(mos: Snapshot, name: Option<string>, uuid: Option<Uuid>): (r: Result<string, ActionError>)
    ensures LookupKey(name, uuid).Success? ==>
      r == ObjectPath(ActionConstants.POOL_INTERFACE, mos, LookupKey(name, uuid).value)
    ensures LookupKey(name, uuid).Failure? ==> r == Failure(LookupKey(name, uuid).error)
  {
    var key :- LookupKey(name, uuid);
    ObjectPath(ActionConstants.POOL_INTERFACE, mos, key)
  }

  /** `FilesystemDebugActions.get_object_path`. */
  function FilesystemObjectPath(mos: Snapshot, name: Option<string>, uuid: Option<Uuid>)
    : (r: Result<string, ActionError>)
    ensures LookupKey(name, uuid).Success? ==>
      r == ObjectPath(ActionConstants.FILESYSTEM_INTERFACE, mos, LookupKey(name, uuid).value)
    ensures LookupKey(name, uuid).Failure? ==> r == Failure(LookupKey(name, uuid).error)
  {
    var key :- LookupKey(name, uuid);
    ObjectPath(ActionConstants.FILESYSTEM_INTERFACE, mos, key)
  }

  /** `BlockdevDebugActions.get_object_path`: always by UUID. */
  function BlockdevObjectPath(mos: Snapshot, uuid: Uuid): (r: Result<string, ActionError>)
    ensures r == ObjectPath(ActionConstants.BLOCKDEV_INTERFACE, mos, map["Uuid" := VStr(UuidHex(uuid))])
  {
    ObjectPath(ActionConstants.BLOCKDEV_INTERFACE, mos, map["Uuid" := VStr(UuidHex(uuid))])
  }

  /**
   * A pool found by UUID is the one pool whose `Uuid` property is that
   * UUID's hex form, and a given name takes precedence over the UUID.
   */
  lemma PoolByUuidHasThatUuid(mos: Snapshot, name: Option<string>, uuid: Uuid)
    ensures PoolObjectPath(mos, None, Some(uuid)).Success? ==>
      exists o :: o in mos && o.path == PoolObjectPath(mos, None, Some(uuid)).value
        && ActionConstants.POOL_INTERFACE in o.interfaces
        && Property(o, ActionConstants.POOL_INTERFACE, "Uuid") == Some(VStr(UuidHex(uuid)))
    ensures name.Some? ==> PoolObjectPath(mos, name, Some(uuid)) == PoolObjectPath(mos, name, None)
  {
    var key := map["Uuid" := VStr(UuidHex(uuid))];
    if PoolObjectPath(mos, None, Some(uuid)).Success? {
      var o :| o in mos && Matches(o, ActionConstants.POOL_INTERFACE, key)
        && o.path == PoolObjectPath(mos, None, Some(uuid)).value;
      assert "Uuid" in key;
    }
  }

  /** `refresh_state`: a non-OK return code is an engine error. */
  function RefreshState(returnCode: int, message: string): (r: Result<(), ActionError>)
    ensures r.Success? <==> returnCode == StratisdConstants.OK
    ensures r.Failure? ==> r.error == Engine(returnCode, message)
  {
    if returnCode != StratisdConstants.OK then Failure(Engine(returnCode, message)) else Success(())
  }
}
