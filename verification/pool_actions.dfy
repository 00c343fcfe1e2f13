/**
 * The local decision logic of `_actions/_pool.py`: which pools already own
 * requested block devices, the tier checks made before devices are added,
 * the encoding of create and start arguments, the selection of devices for
 * extend-data, and the interpretation of the daemon's replies.
 *
 * The pools and block devices of a GetManagedObjects result are given
 * through their decoded properties (`MOPool`/`MODev` accessors).
 */
module PoolActions {
  import opened Wrappers
  import opened Text
  import opened ManagedObjects
  import opened Namespace
  import Constants
  import StratisdConstants
  import ActionUtils
  import Data
  import opened ActionErrors

  /** A pool of the snapshot: its object path and `Name`. */
  datatype PoolRec = PoolRec(path: string, name: string)

  /** A block device of the snapshot: `Devnode`, `Pool` (object path) and `Tier`. */
  datatype DevRec = DevRec(devnode: string, pool: string, tier: Tier)

  /** `dict((path, name) for (path, info) in pools().search(...))`: later entries win. */
  function PoolMap(pools: seq<PoolRec>): (m: map<string, string>)
    ensures forall i :: 0 <= i < |pools| ==> pools[i].path in m
    ensures forall path :: path in m ==> exists i :: 0 <= i < |pools| && pools[i].path == path && m[path] == pools[i].name
  {
    if |pools| == 0 then map[]
    else
      var init := pools[..|pools| - 1];
      var last := pools[|pools| - 1];
      assert forall i :: 0 <= i < |init| ==> init[i] == pools[i];
      PoolMap(init)[last.path := last.name]
  }

  /** A device counts for `_generate_pools_to_blockdevs`: it is in `tier` and requested. */
  predicate Requested(d: DevRec, toBeAdded: set<string>, tier: Tier) {
    d.tier == tier && d.devnode in toBeAdded
  }

  /** The requested devices of `tier` are each owned by a pool the snapshot knows. */
  ghost predicate OwnersKnown(poolMap: map<string, string>, devs: seq<DevRec>, toBeAdded: set<string>, tier: Tier) {
    forall i :: 0 <= i < |devs| && Requested(devs[i], toBeAdded, tier) ==> devs[i].pool in poolMap
  }

  /** Pool `name` owns requested device `devnode` in `tier`. */
  ghost predicate Owns(poolMap: map<string, string>, devs: seq<DevRec>, toBeAdded: set<string>, tier: Tier,
                       name: string, devnode: string) {
    exists i :: 0 <= i < |devs| && Requested(devs[i], toBeAdded, tier) && devs[i].pool in poolMap
                && poolMap[devs[i].pool] == name && devs[i].devnode == devnode
  }

  lemma OwnersKnownSnoc(poolMap: map<string, string>, devs: seq<DevRec>, toBeAdded: set<string>, tier: Tier)
    requires |devs| > 0
    ensures var init, last := devs[..|devs| - 1], devs[|devs| - 1];
      OwnersKnown(poolMap, devs, toBeAdded, tier)
      <==> OwnersKnown(poolMap, init, toBeAdded, tier) && (Requested(last, toBeAdded, tier) ==> last.pool in poolMap)
  {
    var init := devs[..|devs| - 1];
    assert forall i :: 0 <= i < |init| ==> init[i] == devs[i];
  }

  lemma OwnsSnoc(poolMap: map<string, string>, devs: seq<DevRec>, toBeAdded: set<string>, tier: Tier, name: string, devnode: string)
    requires |devs| > 0
    ensures var init, last := devs[..|devs| - 1], devs[|devs| - 1];
      Owns(poolMap, devs, toBeAdded, tier, name, devnode)
      <==> Owns(poolMap, init, toBeAdded, tier, name, devnode)
           || (Requested(last, toBeAdded, tier) && last.pool in poolMap && poolMap[last.pool] == name && last.devnode == devnode)
  {
    var init, last := devs[..|devs| - 1], devs[|devs| - 1];
    assert forall i :: 0 <= i < |init| ==> init[i] == devs[i];
    if Owns(poolMap, devs, toBeAdded, tier, name, devnode) {
      var i :| 0 <= i < |devs| && Requested(devs[i], toBeAdded, tier) && devs[i].pool in poolMap
               && poolMap[devs[i].pool] == name && devs[i].devnode == devnode;
      if i < |init| {
        assert init[i] == devs[i];
      }
    }
    if Requested(last, toBeAdded, tier) && last.pool in poolMap && poolMap[last.pool] == name && last.devnode == devnode {
      assert devs[|devs| - 1] == last;
    }
  }

  /**
   * `_generate_pools_to_blockdevs(managed_objects, to_be_added, tier)`:
   * pool name to the requested devices it owns in `tier`; a device whose
   * pool is unknown raises `KeyError`.
   */
  function PoolsToBlockdevs(poolMap: map<string, string>, devs: seq<DevRec>, toBeAdded: set<string>, tier: Tier)
    : (r: Result<map<string, set<string>>, ActionError>)
    ensures r.Success? <==> OwnersKnown(poolMap, devs, toBeAdded, tier)
    ensures r.Failure? ==> r.error.KeyError?
    ensures r.Success? ==> forall name :: name in r.value ==> r.value[name] != {}
    ensures r.Success? ==> forall name, devnode ::
      (name in r.value && devnode in r.value[name]) <==> Owns(poolMap, devs, toBeAdded, tier, name, devnode)
    decreases |devs|
  {
    if |devs| == 0 then Success(map[])
    else
      var init := devs[..|devs| - 1];
      var last := devs[|devs| - 1];
      OwnersKnownSnoc(poolMap, devs, toBeAdded, tier);
      match PoolsToBlockdevs(poolMap, init, toBeAdded, tier)
      case Failure(e) => Failure(e)
      case Success(rest) =>
        if !Requested(last, toBeAdded, tier) then
          assert forall name, devnode :: Owns(poolMap, devs, toBeAdded, tier, name, devnode)
                                         <==> Owns(poolMap, init, toBeAdded, tier, name, devnode) by {
            forall name, devnode {
              OwnsSnoc(poolMap, devs, toBeAdded, tier, name, devnode);
            }
          }
          Success(rest)
        else if last.pool !in poolMap then Failure(KeyError(last.pool))
        else
          var name := poolMap[last.pool];
          var r := rest[name := (if name in rest then rest[name] else {}) + {last.devnode}];
          assert forall n, devnode :: (Owns(poolMap, devs, toBeAdded, tier, n, devnode)
                 <==> Owns(poolMap, init, toBeAdded, tier, n, devnode) || (n == name && devnode == last.devnode)) by {
            forall n, devnode {
              OwnsSnoc(poolMap, devs, toBeAdded, tier, n, devnode);
            }
          }
          Success(r)
  }

  /** Some requested device of `tier` is owned by some pool. */
  lemma OwnedIffNonEmpty(poolMap: map<string, string>, devs: seq<DevRec>, toBeAdded: set<string>, tier: Tier)
    requires PoolsToBlockdevs(poolMap, devs, toBeAdded, tier).Success?
    ensures PoolsToBlockdevs(poolMap, devs, toBeAdded, tier).value != map[]
      <==> exists i :: 0 <= i < |devs| && Requested(devs[i], toBeAdded, tier)
  {
    var m := PoolsToBlockdevs(poolMap, devs, toBeAdded, tier).value;
    if i :| 0 <= i < |devs| && Requested(devs[i], toBeAdded, tier) {
      assert Owns(poolMap, devs, toBeAdded, tier, poolMap[devs[i].pool], devs[i].devnode);
      assert poolMap[devs[i].pool] in m;
    }
  }

  function OtherTier(t: Tier): Tier {
    match t
    case Data => StratisdConstants.Cache
    case Cache => StratisdConstants.Data
  }

  /**
   * `_check_opposite_tier(managed_objects, to_be_added, other_tier)`: fails
   * exactly when a requested device already belongs to the other tier,
   * naming the tier that was requested.
   */
  function CheckOppositeTier(poolMap: map<string, string>, devs: seq<DevRec>, toBeAdded: set<string>, otherTier: Tier)
    : (r: Result<(), ActionError>)
    ensures PoolsToBlockdevs(poolMap, devs, toBeAdded, otherTier).Failure? ==>
      r == Failure(PoolsToBlockdevs(poolMap, devs, toBeAdded, otherTier).error)
    ensures PoolsToBlockdevs(poolMap, devs, toBeAdded, otherTier).Success? ==>
      (r.Failure? <==> exists i :: 0 <= i < |devs| && Requested(devs[i], toBeAdded, otherTier))
      && (r.Failure? ==> r.error == InUseOtherTier(PoolsToBlockdevs(poolMap, devs, toBeAdded, otherTier).value, OtherTier(otherTier)))
  {
    var owners :- PoolsToBlockdevs(poolMap, devs, toBeAdded, otherTier);
    OwnedIffNonEmpty(poolMap, devs, toBeAdded, otherTier);
    if owners != map[] then Failure(InUseOtherTier(owners, OtherTier(otherTier))) else Success(())
  }

  function AddCommand(tier: Tier): string {
    if tier == StratisdConstants.Cache then "add to cache" else "add to data"
  }

  /**
   * `_check_same_tier(pool_name, managed_objects, to_be_added, this_tier)`:
   * devices the target pool already owns are a partial change; otherwise
   * devices other pools own in this tier are in use.
   */
  function CheckSameTier(poolName: string, poolMap: map<string, string>, devs: seq<DevRec>, toBeAdded: set<string>, thisTier: Tier)
    : (r: Result<(), ActionError>)
    ensures PoolsToBlockdevs(poolMap, devs, toBeAdded, thisTier).Failure? ==>
      r == Failure(PoolsToBlockdevs(poolMap, devs, toBeAdded, thisTier).error)
    ensures PoolsToBlockdevs(poolMap, devs, toBeAdded, thisTier).Success? ==>
      var owners := PoolsToBlockdevs(poolMap, devs, toBeAdded, thisTier).value;
      && (poolName in owners ==>
            r == Failure(PartialChange(AddCommand(thisTier), toBeAdded - owners[poolName], toBeAdded * owners[poolName])))
      && (poolName !in owners ==>
            (r.Failure? <==> owners != map[])
            && (r.Failure? ==> r.error == InUseSameTier(owners, thisTier) && forall p :: p in r.error.owners ==> p != poolName))
  {
    var owners :- PoolsToBlockdevs(poolMap, devs, toBeAdded, thisTier);
    SameTierVerdict(poolName, owners, toBeAdded, thisTier)
  }

  /** The verdict of `_check_same_tier` once the owners of the requested devices are known. */
  function SameTierVerdict(poolName: string, owners: map<string, set<string>>, toBeAdded: set<string>, thisTier: Tier)
    : (r: Result<(), ActionError>)
    requires forall name :: name in owners ==> owners[name] != {}
    ensures poolName in owners ==>
      r == Failure(PartialChange(AddCommand(thisTier), toBeAdded - owners[poolName], toBeAdded * owners[poolName]))
    ensures poolName !in owners ==> (r.Failure? <==> owners != map[])
    ensures poolName !in owners && r.Failure? ==>
      r.error == InUseSameTier(owners, thisTier) && forall p :: p in r.error.owners ==> p != poolName
  {
    var owned := if poolName in owners then owners[poolName] else {};
    if owned != {} then Failure(PartialChange(AddCommand(thisTier), toBeAdded - owned, toBeAdded * owned))
    else
      var others := owners - {poolName};
      assert others == owners;
      if others != map[] then Failure(InUseSameTier(others, thisTier)) else Success(())
  }

  /** A partial change splits the request: the devices still to add and those already present partition it. */
  lemma PartialChangePartitions(poolName: string, poolMap: map<string, string>, devs: seq<DevRec>, toBeAdded: set<string>, thisTier: Tier)
    requires CheckSameTier(poolName, poolMap, devs, toBeAdded, thisTier).Failure?
    requires CheckSameTier(poolName, poolMap, devs, toBeAdded, thisTier).error.PartialChange?
    ensures var e := CheckSameTier(poolName, poolMap, devs, toBeAdded, thisTier).error;
      e.toChange + e.alreadyDone == toBeAdded && e.toChange * e.alreadyDone == {} && e.alreadyDone != {}
  {
    assert PoolsToBlockdevs(poolMap, devs, toBeAdded, thisTier).Success?;
    var owners := PoolsToBlockdevs(poolMap, devs, toBeAdded, thisTier).value;
    var owned := owners[poolName];
    assert forall d :: d in owned ==> d in toBeAdded by {
      forall d | d in owned
        ensures d in toBeAdded
      {
        assert Owns(poolMap, devs, toBeAdded, thisTier, poolName, d);
      }
    }
    var d :| d in owned;
    assert d in toBeAdded * owned;
  }

  /** The set of absolute device paths: `frozenset(os.path.abspath(p) for p in blockdevs)`. */
  function AbsoluteSet(blockdevs: seq<string>, absPath: string -> string): (r: set<string>)
    ensures forall p :: p in r <==> exists i :: 0 <= i < |blockdevs| && absPath(blockdevs[i]) == p
  {
    set i | 0 <= i < |blockdevs| :: absPath(blockdevs[i])
  }

  /** `pools(props={"Name": name}).search(...)` is non-empty. */
  predicate NameTaken(pools: seq<PoolRec>, name: string) {
    exists i :: 0 <= i < |pools| && pools[i].name == name
  }

  /** `(valid, value)` pairs as the daemon's optional arguments. */
  datatype Flagged<T> = Flagged(valid: bool, value: T)

  /** The integrity arguments: journal size, tag specification, superblock allocation. */
  datatype IntegrityArgs = IntegrityArgs(
    journalSize: Flagged<int>, tagSpec: Flagged<Constants.IntegrityTagSpec>, allocateSuperblock: Flagged<bool>)

  const U64_MAX: int := 0xFFFF_FFFF_FFFF_FFFF

  /**
   * The integrity triple of `create_pool`, including the marshalling
   * failure for a journal size beyond an unsigned 64-bit integer.
   */
  function IntegrityArguments(integrity: Constants.IntegrityOption, journalBytes: nat, tagSpec: Constants.IntegrityTagSpec)
    : (r: Result<IntegrityArgs, ActionError>)
    ensures integrity == Constants.INTEGRITY_NO ==>
      r == Success(IntegrityArgs(Flagged(true, 0), Flagged(true, Constants.B0), Flagged(true, false)))
    ensures integrity != Constants.INTEGRITY_NO ==>
      (r.Success? <==> journalBytes <= U64_MAX)
      && (r.Success? ==> r.value == IntegrityArgs(Flagged(true, journalBytes), Flagged(true, tagSpec), Flagged(true, true)))
    ensures r.Success? ==> (r.value.journalSize.valid && r.value.tagSpec.valid && r.value.allocateSuperblock.valid
      && 0 <= r.value.journalSize.value <= U64_MAX)
  {
    if integrity == Constants.INTEGRITY_NO then
      Success(IntegrityArgs(Flagged(true, 0), Flagged(true, Constants.B0), Flagged(true, false)))
    else if journalBytes > U64_MAX then
      Failure(InvalidOptionValue("--journal-size value is too large; it must be no greater than "
                                 + IntToString(U64_MAX) + " bytes."))
    else Success(IntegrityArgs(Flagged(true, journalBytes), Flagged(true, tagSpec), Flagged(true, true)))
  }

  /** What `create_pool` hands to `Manager.CreatePool`. */
  datatype CreatePoolArgs = CreatePoolArgs(
    name: string,
    devices: set<string>,
    keyDesc: seq<(Flagged<int>, string)>,
    clevisInfo: seq<(Flagged<int>, ClevisInfo)>,
    integrity: IntegrityArgs)

  /** The parsed arguments of `pool create`. */
  datatype CreateRequest = CreateRequest(
    poolName: string,
    blockdevs: seq<string>,
    keyDesc: Option<string>,
    clevis: Option<ClevisInfo>,
    integrity: Constants.IntegrityOption,
    journalBytes: nat,
    tagSpec: Constants.IntegrityTagSpec)

  /**
   * `create_pool(namespace)` up to the D-Bus call: a duplicate name, then
   * the cache tier, then the data tier, then the integrity arguments are
   * checked, in that order.
   */
  function CreatePool(req: CreateRequest, pools: seq<PoolRec>, devs: seq<DevRec>, absPath: string -> string)
    : (r: Result<CreatePoolArgs, ActionError>)
    ensures NameTaken(pools, req.poolName) ==> r == Failure(NameConflict("pool", req.poolName))
    ensures !NameTaken(pools, req.poolName) ==>
      var blockdevs := AbsoluteSet(req.blockdevs, absPath);
      var poolMap := PoolMap(pools);
      && (CheckOppositeTier(poolMap, devs, blockdevs, StratisdConstants.Cache).Failure? ==>
            r == Failure(CheckOppositeTier(poolMap, devs, blockdevs, StratisdConstants.Cache).error))
      && (CheckOppositeTier(poolMap, devs, blockdevs, StratisdConstants.Cache).Success?
          && CheckSameTier(req.poolName, poolMap, devs, blockdevs, StratisdConstants.Data).Failure? ==>
            r == Failure(CheckSameTier(req.poolName, poolMap, devs, blockdevs, StratisdConstants.Data).error))
      && (CheckOppositeTier(poolMap, devs, blockdevs, StratisdConstants.Cache).Success?
          && CheckSameTier(req.poolName, poolMap, devs, blockdevs, StratisdConstants.Data).Success? ==>
            && (IntegrityArguments(req.integrity, req.journalBytes, req.tagSpec).Failure? ==>
                  r == Failure(IntegrityArguments(req.integrity, req.journalBytes, req.tagSpec).error))
            && (IntegrityArguments(req.integrity, req.journalBytes, req.tagSpec).Success? ==> r.Success?))
    ensures r.Success? ==>
      && !NameTaken(pools, req.poolName)
      && r.value.name == req.poolName
      && r.value.devices == AbsoluteSet(req.blockdevs, absPath)
      && (r.value.keyDesc == if req.keyDesc.None? then [] else [(Flagged(false, 0), req.keyDesc.value)])
      && (r.value.clevisInfo == if req.clevis.None? then [] else [(Flagged(false, 0), req.clevis.value)])
      && IntegrityArguments(req.integrity, req.journalBytes, req.tagSpec) == Success(r.value.integrity)
  {
    var blockdevs := AbsoluteSet(req.blockdevs, absPath);
    if NameTaken(pools, req.poolName) then Failure(NameConflict("pool", req.poolName))
    else
      var poolMap := PoolMap(pools);
      var _ :- CheckOppositeTier(poolMap, devs, blockdevs, StratisdConstants.Cache);
      var _ :- CheckSameTier(req.poolName, poolMap, devs, blockdevs, StratisdConstants.Data);
      var integrity :- IntegrityArguments(req.integrity, req.journalBytes, req.tagSpec);
      Success(CreatePoolArgs(
        req.poolName,
        blockdevs,
        if req.keyDesc.None? then [] else [(Flagged(false, 0), req.keyDesc.value)],
        if req.clevis.None? then [] else [(Flagged(false, 0), req.clevis.value)],
        integrity))
  }

  /** A created pool's devices are in neither tier of any pool. */
  lemma CreatePoolDevicesUnowned(req: CreateRequest, pools: seq<PoolRec>, devs: seq<DevRec>, absPath: string -> string, i: nat)
    requires CreatePool(req, pools, devs, absPath).Success?
    requires i < |devs|
    ensures devs[i].devnode !in CreatePool(req, pools, devs, absPath).value.devices
  {
    var blockdevs := AbsoluteSet(req.blockdevs, absPath);
    var poolMap := PoolMap(pools);
    var cache, data := StratisdConstants.Cache, StratisdConstants.Data;
    assert CheckOppositeTier(poolMap, devs, blockdevs, cache).Success?;
    assert !Requested(devs[i], blockdevs, cache);
    assert CheckSameTier(req.poolName, poolMap, devs, blockdevs, data).Success?;
    assert PoolsToBlockdevs(poolMap, devs, blockdevs, data).value == map[];
    OwnedIffNonEmpty(poolMap, devs, blockdevs, data);
    assert !Requested(devs[i], blockdevs, data);
  }

  /** The reply of `AddDataDevs`/`AddCacheDevs`/`InitCache`: every requested device must have been added. */
  function InterpretAddReply(added: bool, devsAdded: nat, requested: set<string>, returnCode: int, message: string,
                             incoherence: string)
    : (r: Result<(), ActionError>)
    ensures r.Success? <==> returnCode == StratisdConstants.OK && added && devsAdded >= |requested|
    ensures returnCode != StratisdConstants.OK ==> r == Failure(Engine(returnCode, message))
  {
    if returnCode != StratisdConstants.OK then Failure(Engine(returnCode, message))
    else if !added || devsAdded < |requested| then Failure(Incoherence(incoherence))
    else Success(())
  }

  /** `stop_pool`/`start_pool`: an unchanged pool is a no-change error naming the pool. */
  function StopOrStartReply(command: string, id: Constants.Id, changed: bool, returnCode: int, message: string)
    : (r: Result<(), ActionError>)
    ensures returnCode == StratisdConstants.OK && !changed ==> r == Failure(NoChange(command, Constants.IdToString(id)))
    ensures r.Success? <==> returnCode == StratisdConstants.OK && changed
  {
    InterpretReply(changed, returnCode, message, NoChange(command, Constants.IdToString(id)))
  }

  /** `rename_pool`: an unchanged pool is a no-change error naming the new name. */
  function RenameReply(newName: string, changed: bool, returnCode: int, message: string)
    : (r: Result<(), ActionError>)
    ensures returnCode == StratisdConstants.OK && !changed ==> r == Failure(NoChange("rename", newName))
    ensures r.Success? <==> returnCode == StratisdConstants.OK && changed
  {
    InterpretReply(changed, returnCode, message, NoChange("rename", newName))
  }

  /** The `unlock_method` argument of `StartPool`: whether to unlock, and an optional token slot. */
  datatype UnlockArg = UnlockArg(unlock: bool, tokenSlot: Flagged<int>)

  /** `selection_func(uuid, info)` for one entry of `StoppedPools`. */
  predicate Selects(id: Constants.Id, entry: (string, Value)) {
    entry.1.VDict? && Constants.StoppedPoolsFunc(id, entry.0, entry.1.fields)
  }

  /**
   * `next((uuid, StoppedPool(info)) for ... if selection_func(uuid, info))`:
   * the first stopped pool the id selects, decoded.
   */
  function SelectStoppedPool(id: Constants.Id, stopped: seq<(string, Value)>): (r: Option<Result<ActionUtils.StoppedPool, string>>)
    ensures r.None? <==> forall i :: 0 <= i < |stopped| ==> !Selects(id, stopped[i])
    ensures r.Some? ==> exists k ::
      && 0 <= k < |stopped| && Selects(id, stopped[k])
      && (forall j :: 0 <= j < k ==> !Selects(id, stopped[j]))
      && r.value == ActionUtils.DecodeStoppedPool(stopped[k].1)
  {
    if |stopped| == 0 then None
    else if Selects(id, stopped[0]) then Some(ActionUtils.DecodeStoppedPool(stopped[0].1))
    else
      assert forall i :: 1 <= i < |stopped| ==> stopped[i] == stopped[1..][i - 1];
      var r := SelectStoppedPool(id, stopped[1..]);
      if r.Some? then
        var k :| 0 <= k < |stopped[1..]| && Selects(id, stopped[1..][k])
                 && (forall j :: 0 <= j < k ==> !Selects(id, stopped[1..][j]))
                 && r.value == ActionUtils.DecodeStoppedPool(stopped[1..][k].1);
        assert forall j :: 0 <= j < k + 1 ==> !Selects(id, stopped[j]) by {
          forall j | 0 < j < k + 1 ensures !Selects(id, stopped[j]) {
            assert stopped[j] == stopped[1..][j - 1];
          }
        }
        assert stopped[k + 1] == stopped[1..][k];
        r
      else r
  }

  /**
   * The unlock argument of `start_pool`: a token slot wins; without a
   * method, unlock only if a key is supplied; "any" unlocks with any
   * token; "clevis"/"keyring" use the legacy token slot of the stopped
   * pool, which must exist and must not have V2 metadata.
   */
  function UnlockArgument(id: Constants.Id, tokenSlot: Option<int>, unlockMethod: Option<Constants.UnlockMethod>,
                          keySupplied: bool, stopped: seq<(string, Value)>)
    : (r: Result<UnlockArg, ActionError>)
    ensures tokenSlot.Some? ==> r == Success(UnlockArg(true, Flagged(true, tokenSlot.value)))
    ensures tokenSlot.None? && unlockMethod.None? ==> r == Success(UnlockArg(keySupplied, Flagged(false, 0)))
    ensures tokenSlot.None? && unlockMethod == Some(Constants.UNLOCK_ANY) ==> r == Success(UnlockArg(true, Flagged(false, 0)))
    ensures tokenSlot.None? && unlockMethod.Some? && unlockMethod.value != Constants.UNLOCK_ANY ==>
      && (SelectStoppedPool(id, stopped).None? ==> r == Failure(ResourceNotFound("start", Constants.IdToString(id))))
      && (r.Success? ==> r.value == UnlockArg(true, Flagged(true, Constants.LegacyTokenSlot(unlockMethod.value)))
                         && SelectStoppedPool(id, stopped).Some? && SelectStoppedPool(id, stopped).value.Success?
                         && SelectStoppedPool(id, stopped).value.value.metadataVersion != Some(ActionUtils.V2))
    ensures tokenSlot.None? && unlockMethod.Some? && unlockMethod.value != Constants.UNLOCK_ANY
            && SelectStoppedPool(id, stopped).Some? ==>
      match SelectStoppedPool(id, stopped).value
      case Failure(e) => r == Failure(Decode(e))
      case Success(p) =>
        r == if p.metadataVersion == Some(ActionUtils.V2) then Failure(UnlockMethodWithV2Metadata(unlockMethod.value))
             else Success(UnlockArg(true, Flagged(true, Constants.LegacyTokenSlot(unlockMethod.value))))
  {
    match tokenSlot
    case Some(slot) => Success(UnlockArg(true, Flagged(true, slot)))
    case None =>
      match unlockMethod
      case None => Success(UnlockArg(keySupplied, Flagged(false, 0)))
      case Some(m) =>
        if m == Constants.UNLOCK_ANY then Success(UnlockArg(true, Flagged(false, 0)))
        else
          match SelectStoppedPool(id, stopped)
          case None => Failure(ResourceNotFound("start", Constants.IdToString(id)))
          case Some(Failure(e)) => Failure(Decode(e))
          case Some(Success(pool)) =>
            if pool.metadataVersion == Some(ActionUtils.V2) then Failure(UnlockMethodWithV2Metadata(m))
            else Success(UnlockArg(true, Flagged(true, Constants.LegacyTokenSlot(m))))
  }

  /**
   * The unlock argument the daemon receives tells the request apart: any
   * two requests that succeed with the same argument named the same
   * explicit token slot, or the same legacy method, or asked for any token.
   */
  lemma UnlockArgumentIdentifiesMethod(id: Constants.Id, m1: Constants.UnlockMethod, m2: Constants.UnlockMethod,
                                       keySupplied: bool, stopped: seq<(string, Value)>)
    requires UnlockArgument(id, None, Some(m1), keySupplied, stopped).Success?
    requires UnlockArgument(id, None, Some(m2), keySupplied, stopped).Success?
    ensures UnlockArgument(id, None, Some(m1), keySupplied, stopped) == UnlockArgument(id, None, Some(m2), keySupplied, stopped)
            <==> m1 == m2
  {
  }

  /** A legacy method unlocks a found pool exactly when its metadata is not version 2. */
  lemma LegacyUnlockRefusedForV2(id: Constants.Id, m: Constants.UnlockMethod, keySupplied: bool,
                                 stopped: seq<(string, Value)>, p: ActionUtils.StoppedPool)
    requires m != Constants.UNLOCK_ANY && SelectStoppedPool(id, stopped) == Some(Success(p))
    ensures UnlockArgument(id, None, Some(m), keySupplied, stopped).Success? <==> p.metadataVersion != Some(ActionUtils.V2)
  {
  }

  /** The `StartPool` arguments beyond the id. */
  datatype StartPoolArgs = StartPoolArgs(unlockMethod: UnlockArg, keyFd: Option<ActionUtils.PassphraseSource>)

  /** The parsed arguments of `pool start`. */
  datatype StartRequest = StartRequest(
    tokenSlot: Option<int>,
    unlockMethod: Option<Constants.UnlockMethod>,
    captureKey: bool,
    keyfilePath: Option<string>)

  /**
   * `start_pool(namespace)` up to the D-Bus call: the unlock argument, then
   * the passphrase when a key is captured or a keyfile given (without a
   * second entry).
   */
  function StartPool(id: Constants.Id, req: StartRequest, stopped: seq<(string, Value)>, keyfileExists: bool, line: string)
    : (r: Result<StartPoolArgs, ActionError>)
    ensures UnlockArgument(id, req.tokenSlot, req.unlockMethod, req.captureKey || req.keyfilePath.Some?, stopped).Failure? ==>
      r == Failure(UnlockArgument(id, req.tokenSlot, req.unlockMethod, req.captureKey || req.keyfilePath.Some?, stopped).error)
    ensures r.Success? ==>
      && r.value.unlockMethod == UnlockArgument(id, req.tokenSlot, req.unlockMethod, req.captureKey || req.keyfilePath.Some?, stopped).value
      && (r.value.keyFd.Some? <==> req.captureKey || req.keyfilePath.Some?)
    ensures r.Failure? && r.error.Passphrase? ==> r.error.error != ActionUtils.PassphraseMismatch
    ensures var keySupplied := req.captureKey || req.keyfilePath.Some?;
      var unlock := UnlockArgument(id, req.tokenSlot, req.unlockMethod, keySupplied, stopped);
      unlock.Success? ==>
        if !keySupplied then r == Success(StartPoolArgs(unlock.value, None))
        else match ActionUtils.GetPassphrase(req.keyfilePath, keyfileExists, line, line, false)
          case Failure(e) => r == Failure(Passphrase(e))
          case Success(source) => r == Success(StartPoolArgs(unlock.value, Some(source)))
  {
    var keySupplied := req.captureKey || req.keyfilePath.Some?;
    var unlock :- UnlockArgument(id, req.tokenSlot, req.unlockMethod, keySupplied, stopped);
    if keySupplied then
      match ActionUtils.GetPassphrase(req.keyfilePath, keyfileExists, line, line, false)
      case Failure(e) => Failure(Passphrase(e))
      case Success(source) => Success(StartPoolArgs(unlock, Some(source)))
    else Success(StartPoolArgs(unlock, None))
  }

  /**
   * `init_cache` up to the D-Bus call: the pool is looked up first, then a
   * pool that already has a cache is refused, then both tier checks are
   * made. `hasCache` is `MOPool(pool_info).HasCache()` of the pool found.
   */
  function InitCache(poolName: string, hasCache: bool, blockdevs: seq<string>, absPath: string -> string,
                     pools: seq<PoolRec>, devs: seq<DevRec>)
    : (r: Result<(PoolRec, set<string>), ActionError>)
    ensures UniquePool(pools, poolName).Failure? ==> r == Failure(UniquePool(pools, poolName).error)
    ensures UniquePool(pools, poolName).Success? && hasCache ==>
      r == Failure(NoPropertyChange("Pool already has an initialized cache"))
    ensures UniquePool(pools, poolName).Success? && !hasCache ==>
      var devices, poolMap := AbsoluteSet(blockdevs, absPath), PoolMap(pools);
      && (CheckOppositeTier(poolMap, devs, devices, StratisdConstants.Data).Failure? ==>
            r == Failure(CheckOppositeTier(poolMap, devs, devices, StratisdConstants.Data).error))
      && (CheckOppositeTier(poolMap, devs, devices, StratisdConstants.Data).Success?
          && CheckSameTier(poolName, poolMap, devs, devices, StratisdConstants.Cache).Failure? ==>
            r == Failure(CheckSameTier(poolName, poolMap, devs, devices, StratisdConstants.Cache).error))
      && (CheckOppositeTier(poolMap, devs, devices, StratisdConstants.Data).Success?
          && CheckSameTier(poolName, poolMap, devs, devices, StratisdConstants.Cache).Success? ==>
            r == Success((UniquePool(pools, poolName).value, devices)))
  {
    var pool :- UniquePool(pools, poolName);
    if hasCache then Failure(NoPropertyChange("Pool already has an initialized cache"))
    else
      var devices := AbsoluteSet(blockdevs, absPath);
      var _ :- CheckOppositeTier(PoolMap(pools), devs, devices, StratisdConstants.Data);
      var _ :- CheckSameTier(poolName, PoolMap(pools), devs, devices, StratisdConstants.Cache);
      Success((pool, devices))
  }

  /** The index of the first pool named `name`. */
  function FirstNamed(pools: seq<PoolRec>, name: string): (i: nat)
    requires exists j :: 0 <= j < |pools| && pools[j].name == name
    ensures i < |pools| && pools[i].name == name
  {
    if pools[0].name == name then 0
    else
      assert exists j :: 0 <= j < |pools[1..]| && pools[1..][j].name == name by {
        var j :| 0 <= j < |pools| && pools[j].name == name;
        assert pools[1..][j - 1] == pools[j];
      }
      1 + FirstNamed(pools[1..], name)
  }

  /**
   * `pools(props={"Name": name}).require_unique_match(True)`: the one pool
   * with that name, or the D-Bus lookup error naming the pool interface
   * and the properties searched for.
   */
  function UniquePool(pools: seq<PoolRec>, name: string): (r: Result<PoolRec, ActionError>)
    ensures r.Success? <==> |set i | 0 <= i < |pools| && pools[i].name == name| == 1
    ensures r.Success? ==> r.value in pools && r.value.name == name
    ensures r.Failure? ==> r.error == DbusLookup(Data.LookupError(Data.POOL_INTERFACE, map["Name" := VStr(name)]))
  {
    var matching := set i | 0 <= i < |pools| && pools[i].name == name;
    if |matching| == 1 then
      var i := FirstNamed(pools, name);
      Success(pools[i])
    else Failure(DbusLookup(Data.LookupError(Data.POOL_INTERFACE, map["Name" := VStr(name)])))
  }

  /**
   * `add_data_devices`/`add_cache_devices` up to the D-Bus call: both tier
   * checks, and only then the lookup of the pool.
   */
  function AddDevices(poolName: string, tier: Tier, blockdevs: seq<string>, absPath: string -> string,
                      pools: seq<PoolRec>, devs: seq<DevRec>)
    : (r: Result<(PoolRec, set<string>), ActionError>)
    ensures r.Success? ==> (r.value.1 == AbsoluteSet(blockdevs, absPath) && r.value.0.name == poolName
      && CheckOppositeTier(PoolMap(pools), devs, r.value.1, OtherTier(tier)).Success?
      && CheckSameTier(poolName, PoolMap(pools), devs, r.value.1, tier).Success?)
    ensures CheckOppositeTier(PoolMap(pools), devs, AbsoluteSet(blockdevs, absPath), OtherTier(tier)).Failure? ==>
      r == Failure(CheckOppositeTier(PoolMap(pools), devs, AbsoluteSet(blockdevs, absPath), OtherTier(tier)).error)
    ensures var devices, poolMap := AbsoluteSet(blockdevs, absPath), PoolMap(pools);
      CheckOppositeTier(poolMap, devs, devices, OtherTier(tier)).Success? ==>
        && (CheckSameTier(poolName, poolMap, devs, devices, tier).Failure? ==>
              r == Failure(CheckSameTier(poolName, poolMap, devs, devices, tier).error))
        && (CheckSameTier(poolName, poolMap, devs, devices, tier).Success? ==>
              && (UniquePool(pools, poolName).Failure? ==> r == Failure(UniquePool(pools, poolName).error))
              && (UniquePool(pools, poolName).Success? ==> r == Success((UniquePool(pools, poolName).value, devices))))
  {
    var devices := AbsoluteSet(blockdevs, absPath);
    var _ :- CheckOppositeTier(PoolMap(pools), devs, devices, OtherTier(tier));
    var _ :- CheckSameTier(poolName, PoolMap(pools), devs, devices, tier);
    var pool :- UniquePool(pools, poolName);
    Success((pool, devices))
  }

  /** `set_fs_limit`: setting the current limit again is refused. */
  function SetFsLimit(amount: int, current: int): (r: Result<int, ActionError>)
    ensures r.Success? <==> amount != current
    ensures r.Success? ==> r.value == amount
    ensures r.Failure? ==> r.error == NoPropertyChange("Pool filesystem limit is exactly " + IntToString(amount))
  {
    if amount == current then Failure(NoPropertyChange("Pool filesystem limit is exactly " + IntToString(amount)))
    else Success(amount)
  }

  /**
   * `set_overprovisioning_mode`: the decision is a `YesOrNo`, true exactly
   * when it is `YES`; setting the current mode again is refused.
   */
  function SetOverprovisioning(decision: Constants.YesOrNo, current: bool): (r: Result<bool, ActionError>)
    ensures r.Success? <==> (decision == Constants.YES) != current
    ensures r.Success? ==> r.value == (decision == Constants.YES)
    ensures r.Failure? ==> r.error == NoPropertyChange("Pool's overprovision mode is already set to "
                                                       + if current then "true" else "false")
  {
    var d := decision.Truthy();
    if d == current then
      Failure(NoPropertyChange("Pool's overprovision mode is already set to " + if d then "true" else "false"))
    else Success(d)
  }

  /** `[x for x in s if p(x)]`. */
  function Filter<T(!new)>(s: seq<T>, p: T -> bool): (r: seq<T>)
    ensures |r| <= |s|
    ensures forall x :: x in r <==> x in s && p(x)
  {
    if |s| == 0 then []
    else
      assert forall x :: x in s <==> x == s[0] || x in s[1..];
      (if p(s[0]) then [s[0]] else []) + Filter(s[1..], p)
  }

  /**
   * A block device of the pool being extended: its UUID (reported as
   * `Uuid`, the hex digits), `NewPhysicalSize` when valid, and
   * `TotalPhysicalSize`.
   */
  datatype ExtDev = ExtDev(uuid: Uuid, newSize: Option<int>, total: int)

  /** `expandable(modev)`: the new size is known and exceeds the size in use. */
  predicate Expandable(d: ExtDev) {
    d.newSize.Some? && d.newSize.value > d.total
  }

  /** `frozenset(uuid.hex for uuid in device_uuids)`. */
  function HexSet(uuids: seq<Uuid>): (r: set<string>)
    ensures forall h :: h in r <==> exists i :: 0 <= i < |uuids| && UuidHex(uuids[i]) == h
  {
    set i | 0 <= i < |uuids| :: UuidHex(uuids[i])
  }

  /** The devices whose `Uuid` is among the requested ones. */
  function Chosen(modevs: seq<ExtDev>, hexes: set<string>): (r: seq<ExtDev>)
    ensures |r| <= |modevs|
    ensures forall d :: d in r <==> d in modevs && UuidHex(d.uuid) in hexes
  {
    if |modevs| == 0 then []
    else
      assert forall d :: d in modevs <==> d == modevs[0] || d in modevs[1..];
      (if UuidHex(modevs[0].uuid) in hexes then [modevs[0]] else []) + Chosen(modevs[1..], hexes)
  }

  /** `PartialChangeError("extend-data", expandable, unexpandable)`, with UUIDs in hyphenated form. */
  function ExtendPartialChange(chosen: seq<ExtDev>): ActionError {
    PartialChange("extend-data",
                  set d | d in chosen && Expandable(d) :: UuidString(d.uuid),
                  set d | d in chosen && !Expandable(d) :: UuidString(d.uuid))
  }

  /**
   * `get_devices_to_expand(device_uuids, modevs)` as written: the set of
   * found devices subtracted from the requested hex strings holds `UUID`
   * objects, so nothing is subtracted and every requested UUID is reported
   * missing.
   */
  function DevicesToExpandAsWritten(requested: seq<Uuid>, modevs: seq<ExtDev>): (r: Result<seq<ExtDev>, ActionError>)
    ensures requested == [] ==> r.Success? && forall d :: d in r.value <==> d in modevs && Expandable(d)
    ensures requested != [] && |Chosen(modevs, HexSet(requested))| < |HexSet(requested)| ==>
      r == Failure(DevicesNotFound("extend-data", set i | 0 <= i < |requested| :: requested[i]))
    ensures r.Failure? && r.error.DevicesNotFound? ==> r.error.uuids == set u | u in requested
  {
    if requested == [] then Success(Filter(modevs, Expandable))
    else
      var hexes := HexSet(requested);
      var chosen := Chosen(modevs, hexes);
      if |chosen| < |hexes| then
        Failure(DevicesNotFound("extend-data", set i | 0 <= i < |requested| :: requested[i]))
      else if Filter(chosen, (d: ExtDev) => !Expandable(d)) != [] then Failure(ExtendPartialChange(chosen))
      else Success(chosen)
  }

  /** The requested UUIDs no device of the pool has. */
  function Missing(requested: seq<Uuid>, modevs: seq<ExtDev>): (r: set<Uuid>)
    ensures forall u :: u in r <==> u in requested && forall j :: 0 <= j < |modevs| ==> modevs[j].uuid != u
  {
    var present := set j | 0 <= j < |modevs| :: modevs[j].uuid;
    set u | u in requested && u !in present
  }

  /**
   * `get_devices_to_expand(device_uuids, modevs)` with the subtraction done
   * on hex strings, as evidently intended: exactly the missing UUIDs are
   * reported.
   */
  function DevicesToExpand(requested: seq<Uuid>, modevs: seq<ExtDev>): (r: Result<seq<ExtDev>, ActionError>)
    ensures requested == [] ==> r.Success? && forall d :: d in r.value <==> d in modevs && Expandable(d)
    ensures requested != [] && r.Success? ==>
      forall d :: d in r.value <==> d in modevs && d.uuid in requested
    ensures requested != [] && r.Success? ==> forall d :: d in r.value ==> Expandable(d)
    ensures r.Failure? && r.error.DevicesNotFound? ==> r.error.uuids == Missing(requested, modevs)
    ensures r.Failure? && r.error.PartialChange? ==>
      r.error == ExtendPartialChange(Chosen(modevs, HexSet(requested)))
      && exists d :: d in modevs && d.uuid in requested && !Expandable(d)
  {
    if requested == [] then Success(Filter(modevs, Expandable))
    else
      var hexes := HexSet(requested);
      var chosen := Chosen(modevs, hexes);
      ChosenAreRequested(requested, modevs);
      if |chosen| < |hexes| then
        Failure(DevicesNotFound("extend-data", Missing(requested, modevs)))
      else
        var unexpandable := Filter(chosen, (d: ExtDev) => !Expandable(d));
        if unexpandable != [] then
          assert unexpandable[0] in unexpandable;
          Failure(ExtendPartialChange(chosen))
        else
          Success(chosen)
  }

  /**
   * With unique device UUIDs, a non-empty request has one of three
   * outcomes: the missing UUIDs when some are missing; otherwise a partial
   * change when some requested device cannot expand; otherwise the
   * requested devices, in the pool's order.
   */
  lemma DevicesToExpandOutcome(requested: seq<Uuid>, modevs: seq<ExtDev>)
    requires DistinctUuids(modevs) && requested != []
    ensures Missing(requested, modevs) != {} ==>
      DevicesToExpand(requested, modevs) == Failure(DevicesNotFound("extend-data", Missing(requested, modevs)))
    ensures Missing(requested, modevs) == {} && (exists d :: d in modevs && d.uuid in requested && !Expandable(d)) ==>
      DevicesToExpand(requested, modevs) == Failure(ExtendPartialChange(Chosen(modevs, HexSet(requested))))
    ensures Missing(requested, modevs) == {} && (forall d :: d in modevs && d.uuid in requested ==> Expandable(d)) ==>
      DevicesToExpand(requested, modevs) == Success(Chosen(modevs, HexSet(requested)))
  {
    ShortfallIffMissing(requested, modevs);
    ChosenAreRequested(requested, modevs);
    var chosen := Chosen(modevs, HexSet(requested));
    var unexpandable := Filter(chosen, (d: ExtDev) => !Expandable(d));
    if d :| d in modevs && d.uuid in requested && !Expandable(d) {
      assert d in unexpandable;
    }
    if unexpandable != [] {
      assert unexpandable[0] in unexpandable;
    }
  }

  /**
   * The selection as written and the corrected one report missing devices
   * together, and agree whenever neither does: the defect is confined to
   * which UUIDs a `DevicesNotFound` names.
   */
  lemma DevicesToExpandAsWrittenAgrees(requested: seq<Uuid>, modevs: seq<ExtDev>)
    ensures (DevicesToExpandAsWritten(requested, modevs).Failure?
             && DevicesToExpandAsWritten(requested, modevs).error.DevicesNotFound?)
        <==> (DevicesToExpand(requested, modevs).Failure? && DevicesToExpand(requested, modevs).error.DevicesNotFound?)
    ensures !(DevicesToExpand(requested, modevs).Failure? && DevicesToExpand(requested, modevs).error.DevicesNotFound?) ==>
      DevicesToExpandAsWritten(requested, modevs) == DevicesToExpand(requested, modevs)
  {
  }

  /** A device is chosen exactly when its UUID was requested. */
  lemma ChosenAreRequested(requested: seq<Uuid>, modevs: seq<ExtDev>)
    ensures forall d :: d in Chosen(modevs, HexSet(requested)) <==> d in modevs && d.uuid in requested
  {
    forall d | d in modevs && UuidHex(d.uuid) in HexSet(requested)
      ensures d.uuid in requested
    {
      var i :| 0 <= i < |requested| && UuidHex(requested[i]) == UuidHex(d.uuid);
      UuidHexInjective(requested[i], d.uuid);
    }
  }

  /**
   * `extend_data` as written: the selection of `get_devices_to_expand` as
   * written, whose failure is the result; an empty selection is reported
   * as no size change.
   */
  function ExtendData(requested: seq<Uuid>, modevs: seq<ExtDev>): (r: Result<seq<ExtDev>, ActionError>)
    ensures DevicesToExpandAsWritten(requested, modevs).Failure? ==>
      r == Failure(DevicesToExpandAsWritten(requested, modevs).error)
    ensures DevicesToExpandAsWritten(requested, modevs).Success? ==>
      r == if DevicesToExpandAsWritten(requested, modevs).value == [] then Failure(NoDeviceSizeChange)
           else DevicesToExpandAsWritten(requested, modevs)
  {
    var chosen :- DevicesToExpandAsWritten(requested, modevs);
    if chosen == [] then Failure(NoDeviceSizeChange) else Success(chosen)
  }

  /**
   * `extend_data` over the corrected selection: a failure to select is the
   * result; an empty selection is no size change; otherwise the devices
   * expanded are exactly the requested ones (or every expandable device
   * when none is requested), none of them unexpandable.
   */
  function ExtendDataIntended(requested: seq<Uuid>, modevs: seq<ExtDev>): (r: Result<seq<ExtDev>, ActionError>)
    ensures DevicesToExpand(requested, modevs).Failure? ==> r == Failure(DevicesToExpand(requested, modevs).error)
    ensures DevicesToExpand(requested, modevs).Success? && DevicesToExpand(requested, modevs).value == [] ==>
      r == Failure(NoDeviceSizeChange)
    ensures r.Success? ==> r.value != [] && forall d :: d in r.value ==> d in modevs && Expandable(d)
    ensures r.Success? && requested != [] ==> forall d :: d in r.value <==> d in modevs && d.uuid in requested
    ensures r.Failure? && r.error.DevicesNotFound? ==> r.error.uuids == Missing(requested, modevs)
  {
    var chosen :- DevicesToExpand(requested, modevs);
    if chosen == [] then Failure(NoDeviceSizeChange) else Success(chosen)
  }

  /**
   * `extend_data` as written and corrected report missing devices together,
   * and otherwise have the same outcome, so the as-written command inherits
   * every other promise of `ExtendDataIntended`.
   */
  lemma ExtendDataAgrees(requested: seq<Uuid>, modevs: seq<ExtDev>)
    ensures (ExtendData(requested, modevs).Failure? && ExtendData(requested, modevs).error.DevicesNotFound?)
        <==> (ExtendDataIntended(requested, modevs).Failure? && ExtendDataIntended(requested, modevs).error.DevicesNotFound?)
    ensures !(ExtendDataIntended(requested, modevs).Failure? && ExtendDataIntended(requested, modevs).error.DevicesNotFound?) ==>
      ExtendData(requested, modevs) == ExtendDataIntended(requested, modevs)
  {
    DevicesToExpandAsWrittenAgrees(requested, modevs);
  }

  /** Block device UUIDs are unique within a pool. */
  ghost predicate DistinctUuids(modevs: seq<ExtDev>) {
    forall i, j :: 0 <= i < j < |modevs| ==> modevs[i].uuid != modevs[j].uuid
  }

  function HexesOf(modevs: seq<ExtDev>): (r: set<string>)
    ensures forall h :: h in r <==> exists i :: 0 <= i < |modevs| && UuidHex(modevs[i].uuid) == h
  {
    set i | 0 <= i < |modevs| :: UuidHex(modevs[i].uuid)
  }

  lemma DistinctTail(modevs: seq<ExtDev>)
    requires |modevs| > 0 && DistinctUuids(modevs)
    ensures DistinctUuids(modevs[1..])
    ensures UuidHex(modevs[0].uuid) !in HexesOf(modevs[1..])
    ensures HexesOf(modevs) == {UuidHex(modevs[0].uuid)} + HexesOf(modevs[1..])
  {
    var rest := modevs[1..];
    assert forall i :: 0 <= i < |rest| ==> rest[i] == modevs[i + 1];
    forall i | 0 <= i < |rest|
      ensures UuidHex(rest[i].uuid) != UuidHex(modevs[0].uuid)
    {
      UuidHexInjective(rest[i].uuid, modevs[0].uuid);
    }
  }

  /** With unique UUIDs, one device is chosen per requested hex string that some device has. */
  lemma {:induction false} ChosenCount(modevs: seq<ExtDev>, hexes: set<string>)
    requires DistinctUuids(modevs)
    ensures |Chosen(modevs, hexes)| == |hexes * HexesOf(modevs)|
  {
    if |modevs| > 0 {
      var rest := modevs[1..];
      var h := UuidHex(modevs[0].uuid);
      DistinctTail(modevs);
      ChosenCount(rest, hexes);
      CommonCons(h, HexesOf(rest), hexes);
    }
  }

  /** The cardinality step of `ChosenCount`, on plain sets. */
  lemma CommonCons(h: string, rest: set<string>, hexes: set<string>)
    requires h !in rest
    ensures h in hexes ==> |hexes * ({h} + rest)| == 1 + |hexes * rest|
    ensures h !in hexes ==> hexes * ({h} + rest) == hexes * rest
  {
    if h in hexes {
      assert hexes * ({h} + rest) == {h} + hexes * rest;
    }
  }

  /**
   * With unique device UUIDs, the shortfall test `len(expand_modevs) <
   * len(device_uuids)` holds exactly when some requested UUID is missing.
   */
  lemma ShortfallIffMissing(requested: seq<Uuid>, modevs: seq<ExtDev>)
    requires DistinctUuids(modevs)
    ensures |Chosen(modevs, HexSet(requested))| < |HexSet(requested)| <==> Missing(requested, modevs) != {}
  {
    var hexes := HexSet(requested);
    var present := HexesOf(modevs);
    ChosenCount(modevs, hexes);
    if Missing(requested, modevs) != {} {
      var u :| u in Missing(requested, modevs);
      MissingHexAbsent(requested, modevs, u);
      StrictSubsetCard(hexes * present, hexes, UuidHex(u));
    } else {
      NothingMissing(requested, modevs);
      assert hexes * present == hexes;
    }
  }

  /** A subset that misses an element is strictly smaller. */
  lemma StrictSubsetCard(a: set<string>, b: set<string>, x: string)
    requires a <= b && x in b && x !in a
    ensures |a| < |b|
  {
    assert b == a + (b - a);
    assert x in b - a;
  }

  lemma MissingHexAbsent(requested: seq<Uuid>, modevs: seq<ExtDev>, u: Uuid)
    requires u in Missing(requested, modevs)
    ensures UuidHex(u) in HexSet(requested) && UuidHex(u) !in HexesOf(modevs)
  {
    var i :| 0 <= i < |requested| && requested[i] == u;
    forall j | 0 <= j < |modevs|
      ensures UuidHex(modevs[j].uuid) != UuidHex(u)
    {
      UuidHexInjective(modevs[j].uuid, u);
    }
  }

  lemma NothingMissing(requested: seq<Uuid>, modevs: seq<ExtDev>)
    requires Missing(requested, modevs) == {}
    ensures HexSet(requested) <= HexesOf(modevs)
  {
    forall h | h in HexSet(requested)
      ensures h in HexesOf(modevs)
    {
      var i :| 0 <= i < |requested| && UuidHex(requested[i]) == h;
      assert requested[i] !in Missing(requested, modevs);
    }
  }

  /**
   * The reported UUIDs: for a pool whose only device is `a`, a request for
   * `a` and `b` reports both `a` and `b` as missing as written, and only
   * `b` once the subtraction is made on hex strings.
   */
  lemma ExtendDataReportsPresentDevices(a: Uuid, b: Uuid, d: ExtDev)
    requires a != b && d.uuid == a
    ensures DevicesToExpandAsWritten([a, b], [d]) == Failure(DevicesNotFound("extend-data", {a, b}))
    ensures DevicesToExpand([a, b], [d]) == Failure(DevicesNotFound("extend-data", {b}))
    ensures ExtendData([a, b], [d]) == Failure(DevicesNotFound("extend-data", {a, b}))
    ensures ExtendDataIntended([a, b], [d]) == Failure(DevicesNotFound("extend-data", {b}))
  {
    TwoHexes(a, b);
    var hexes := HexSet([a, b]);
    ChosenSingle(d, hexes);
    RequestedPair(a, b);
    MissingOfPair(a, b, d);
  }

  lemma TwoHexes(a: Uuid, b: Uuid)
    requires a != b
    ensures HexSet([a, b]) == {UuidHex(a), UuidHex(b)} && |HexSet([a, b])| == 2
  {
    UuidHexInjective(a, b);
    assert [a, b][0] == a && [a, b][1] == b;
  }

  lemma ChosenSingle(d: ExtDev, hexes: set<string>)
    requires UuidHex(d.uuid) in hexes
    ensures Chosen([d], hexes) == [d]
  {
    assert [d][1..] == [];
  }

  lemma RequestedPair(a: Uuid, b: Uuid)
    ensures (set i | 0 <= i < |[a, b]| :: [a, b][i]) == {a, b}
  {
    assert [a, b][0] == a && [a, b][1] == b;
  }

  lemma MissingOfPair(a: Uuid, b: Uuid, d: ExtDev)
    requires a != b && d.uuid == a
    ensures Missing([a, b], [d]) == {b}
  {
    assert [d][0] == d;
    assert b in [a, b];
  }
}
