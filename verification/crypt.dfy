/**
 * The whole-pool encryption actions of `_actions/_crypt.py`: encrypting an
 * unencrypted pool, and unencrypting or reencrypting an encrypted one.
 *
 * The pool is located in a GetManagedObjects snapshot by its name-or-UUID
 * id; whether it is encrypted is read through the `MOPool.Encrypted`
 * accessor, a parameter here, as is `json.dumps`. The daemon call is a
 * value and its reply an input.
 */
module Crypt {
  import opened Wrappers
  import opened Text
  import opened ManagedObjects
  import opened Namespace
  import opened ActionErrors
  import Constants
  import StratisdConstants
  import ActionConstants
  import ParserShared
  import ActionUtils
  import PoolActions

  type Flagged<T> = PoolActions.Flagged<T>

  /** The daemon call, on the object path of the located pool. */
  datatype CryptCall =
    | EncryptPool(pool: string, idArgs: map<string, string>, keyDesc: seq<(Flagged<int>, string)>,
                  clevisInfo: seq<(Flagged<int>, string, string)>)
    | DecryptPool(pool: string)
    | ReencryptPool(pool: string)

  /** `PoolId.from_parser_namespace(namespace)` with `--uuid`/`--name` required. */
  function PoolIdOf(uuid: Option<Uuid>, name: Option<string>): (r: Result<Constants.Id, ActionError>)
    ensures r.Success? <==> uuid.Some? || name.Some?
    ensures r.Success? ==> r.value.kind == Constants.PoolKind
    ensures uuid.Some? ==> r.Success? && r.value.value == Constants.UuidValue(uuid.value)
    ensures uuid.None? && name.Some? ==> r.Success? && r.value.value == Constants.NameValue(name.value)
    ensures r.Failure? ==> r.error == AssertionFailed
  {
    match Constants.FromParserNamespace(Constants.PoolKind, uuid, name, true)
    case Success(Some(id)) => Success(id)
    case _ => Failure(AssertionFailed)
  }

  /** `pools(props=pool_id.managed_objects_key()).require_unique_match(True)`. */
  function LocatePool(mos: Snapshot, id: Constants.Id): (r: Result<MObject, ActionError>)
    ensures r.Success? <==> |Search(mos, ActionConstants.POOL_INTERFACE, Constants.ManagedObjectsKey(id))| == 1
    ensures r.Success? ==> r.value in mos
    ensures r.Success? ==> Matches(r.value, ActionConstants.POOL_INTERFACE, Constants.ManagedObjectsKey(id))
  {
    UniqueObject(ActionConstants.POOL_INTERFACE, mos, Constants.ManagedObjectsKey(id))
  }

  /** The `key_desc` argument: `[]`, or one entry that leaves the token slot to the daemon. */
  function KeyDescArg(keyDesc: Option<string>): (r: seq<(Flagged<int>, string)>)
    ensures |r| <= 1 && (|r| == 1 <==> keyDesc.Some?)
    ensures |r| == 1 ==> r[0] == (PoolActions.Flagged(false, 0), keyDesc.value)
  {
    if keyDesc.None? then [] else [(PoolActions.Flagged(false, 0), keyDesc.value)]
  }

  /** The `clevis_info` argument: `[]`, or one entry with the pin and the JSON configuration. */
  function ClevisInfoArg(info: Option<ClevisInfo>, dumps: map<string, Arg> -> string)
    : (r: seq<(Flagged<int>, string, string)>)
    ensures |r| <= 1 && (|r| == 1 <==> info.Some?)
    ensures |r| == 1 ==> r[0] == (PoolActions.Flagged(false, 0), info.value.pin, dumps(info.value.config))
  {
    if info.None? then [] else [(PoolActions.Flagged(false, 0), info.value.pin, dumps(info.value.config))]
  }

  /** `ClevisInfo.get_info` on the optional Clevis options; its assertions become failures. */
  function ClevisInfoOf(clevis: Option<ParserShared.ClevisOptions>): (r: Result<Option<ClevisInfo>, ActionError>)
    ensures clevis.None? ==> r == Success(None)
    ensures clevis.Some? ==> (r.Success? <==> ActionUtils.GetInfo(clevis.value).Success?)
    ensures clevis.Some? && r.Success? ==> r.value == Some(ActionUtils.GetInfo(clevis.value).value)
  {
    if clevis.None? then Success(None)
    else
      match ActionUtils.GetInfo(clevis.value)
      case Success(info) => Success(Some(info))
      case Failure(_) => Failure(AssertionFailed)
  }

  /**
   * `encrypt` up to the daemon call: an already encrypted pool is a
   * no-change error, and `EncryptPool` is then never called.
   */
  function Encrypt(mos: Snapshot, uuid: Option<Uuid>, name: Option<string>, keyDesc: Option<string>,
                   clevis: Option<ParserShared.ClevisOptions>, encrypted: MObject -> bool,
                   dumps: map<string, Arg> -> string)
    : (r: Result<CryptCall, ActionError>)
    ensures PoolIdOf(uuid, name).Success? && LocatePool(mos, PoolIdOf(uuid, name).value).Success?
            && encrypted(LocatePool(mos, PoolIdOf(uuid, name).value).value) ==>
      r == Failure(NoChange("encryption on", Constants.IdToString(PoolIdOf(uuid, name).value)))
    ensures r.Success? ==> PoolIdOf(uuid, name).Success? && LocatePool(mos, PoolIdOf(uuid, name).value).Success?
    ensures r.Success? ==> ClevisInfoOf(clevis).Success?
    ensures r.Success? ==> (
      var id := PoolIdOf(uuid, name).value;
      var pool := LocatePool(mos, id).value;
      !encrypted(pool) && r.value.EncryptPool? && r.value.pool == pool.path
      && r.value.idArgs == Constants.DbusArgs(id)
      && r.value.keyDesc == KeyDescArg(keyDesc)
      && r.value.clevisInfo == ClevisInfoArg(ClevisInfoOf(clevis).value, dumps))
  {
    var id :- PoolIdOf(uuid, name);
    var pool :- LocatePool(mos, id);
    if encrypted(pool) then Failure(NoChange("encryption on", Constants.IdToString(id)))
    else
      var info :- ClevisInfoOf(clevis);
      Success(EncryptPool(pool.path, Constants.DbusArgs(id), KeyDescArg(keyDesc), ClevisInfoArg(info, dumps)))
  }

  /** `unencrypt` up to the daemon call: an unencrypted pool is a no-change error. */
  function Unencrypt(mos: Snapshot, uuid: Option<Uuid>, name: Option<string>, encrypted: MObject -> bool)
    : (r: Result<CryptCall, ActionError>)
    ensures PoolIdOf(uuid, name).Success? && LocatePool(mos, PoolIdOf(uuid, name).value).Success?
            && !encrypted(LocatePool(mos, PoolIdOf(uuid, name).value).value) ==>
      r == Failure(NoChange("encryption off", Constants.IdToString(PoolIdOf(uuid, name).value)))
    ensures r.Success? ==> PoolIdOf(uuid, name).Success? && LocatePool(mos, PoolIdOf(uuid, name).value).Success?
    ensures r.Success? ==> (
      var pool := LocatePool(mos, PoolIdOf(uuid, name).value).value;
      encrypted(pool) && r.value == DecryptPool(pool.path))
  {
    var id :- PoolIdOf(uuid, name);
    var pool :- LocatePool(mos, id);
    if !encrypted(pool) then Failure(NoChange("encryption off", Constants.IdToString(id)))
    else Success(DecryptPool(pool.path))
  }

  /** `reencrypt` up to the daemon call: an unencrypted pool has no encryption to renew. */
  function Reencrypt(mos: Snapshot, uuid: Option<Uuid>, name: Option<string>, encrypted: MObject -> bool)
    : (r: Result<CryptCall, ActionError>)
    ensures PoolIdOf(uuid, name).Success? && LocatePool(mos, PoolIdOf(uuid, name).value).Success?
            && !encrypted(LocatePool(mos, PoolIdOf(uuid, name).value).value) ==>
      r == Failure(ResourceNotFound("reencrypt", "encryption"))
    ensures r.Success? ==> PoolIdOf(uuid, name).Success? && LocatePool(mos, PoolIdOf(uuid, name).value).Success?
    ensures r.Success? ==> (
      var pool := LocatePool(mos, PoolIdOf(uuid, name).value).value;
      encrypted(pool) && r.value == ReencryptPool(pool.path))
  {
    var id :- PoolIdOf(uuid, name);
    var pool :- LocatePool(mos, id);
    if !encrypted(pool) then Failure(ResourceNotFound("reencrypt", "encryption"))
    else Success(ReencryptPool(pool.path))
  }

  /**
   * Once the pool is found, exactly one of `encrypt` and `unencrypt` gets
   * past its pre-check, and `reencrypt` gets past its own exactly when
   * `unencrypt` does.
   */
  lemma PreChecksPartition(mos: Snapshot, uuid: Option<Uuid>, name: Option<string>, keyDesc: Option<string>,
                           encrypted: MObject -> bool, dumps: map<string, Arg> -> string)
    requires PoolIdOf(uuid, name).Success? && LocatePool(mos, PoolIdOf(uuid, name).value).Success?
    ensures Encrypt(mos, uuid, name, keyDesc, None, encrypted, dumps).Success?
            != Unencrypt(mos, uuid, name, encrypted).Success?
    ensures Reencrypt(mos, uuid, name, encrypted).Success? == Unencrypt(mos, uuid, name, encrypted).Success?
  {
  }

  const ENCRYPT_PREFIX: string := "Expected to change "
  const ENCRYPT_SUFFIX: string :=
    " encryption status to encrypted, but stratisd reports that it did not change the encryption status"

  /**
   * The incoherence message of `encrypt` as written: the string has no
   * `f` prefix, so the placeholder `{pool_id}` is printed literally.
   */
  const ENCRYPT_INCOHERENCE_AS_WRITTEN: string := ENCRYPT_PREFIX + "{pool_id}" + ENCRYPT_SUFFIX

  /** As written, the message names no pool: the placeholder stands where the pool should be. */
  lemma EncryptIncoherenceAsWrittenNamesNoPool()
    ensures ENCRYPT_INCOHERENCE_AS_WRITTEN[..|ENCRYPT_PREFIX|] == ENCRYPT_PREFIX
    ensures ENCRYPT_INCOHERENCE_AS_WRITTEN[|ENCRYPT_PREFIX|..|ENCRYPT_PREFIX| + 9] == "{pool_id}"
  {
    Embedded(ENCRYPT_PREFIX, "{pool_id}", ENCRYPT_SUFFIX);
  }

  /** The incoherence message of `encrypt` as evidently intended, naming the pool. */
  function EncryptIncoherence(id: Constants.Id): (r: string)
    ensures |r| > |ENCRYPT_PREFIX| + |Constants.IdToString(id)|
    ensures r[..|ENCRYPT_PREFIX|] == ENCRYPT_PREFIX
    ensures r[|ENCRYPT_PREFIX|..|ENCRYPT_PREFIX| + |Constants.IdToString(id)|] == Constants.IdToString(id)
  {
    Embedded(ENCRYPT_PREFIX, Constants.IdToString(id), ENCRYPT_SUFFIX);
    ENCRYPT_PREFIX + Constants.IdToString(id) + ENCRYPT_SUFFIX
  }

  lemma Embedded(p: string, x: string, q: string)
    ensures (p + x + q)[..|p|] == p && (p + x + q)[|p|..|p| + |x|] == x
  {
  }

  /** The intended messages of pools with different names or UUIDs differ. */
  lemma EncryptIncoherenceTellsPoolsApart(a: Constants.Id, b: Constants.Id)
    requires |Constants.IdToString(a)| == |Constants.IdToString(b)| && Constants.IdToString(a) != Constants.IdToString(b)
    ensures EncryptIncoherence(a) != EncryptIncoherence(b)
  {
    var n := |ENCRYPT_PREFIX|;
    var k := |Constants.IdToString(a)|;
    assert EncryptIncoherence(a)[n..n + k] != EncryptIncoherence(b)[n..n + k];
  }

  const UNENCRYPT_INCOHERENCE: string :=
    "Expected to change the pool's encryption status to unencrypted, but stratisd reports that it did not "
      + "change the pool's encryption status"

  const REENCRYPT_INCOHERENCE: string :=
    "Expected to reencrypt the pool with a new key but stratisd reports that it did not change perform the "
      + "operation"

  /**
   * The reply of any of the three calls, as written: a non-OK code is an
   * engine error; an OK reply without a change contradicts the pre-check,
   * an incoherence, whose message for `encrypt` keeps its literal
   * placeholder.
   */
  function Conclude(call: CryptCall, changed: bool, returnCode: int, message: string)
    : (r: Result<(), ActionError>)
    ensures r.Success? <==> returnCode == StratisdConstants.OK && changed
    ensures returnCode != StratisdConstants.OK ==> r == Failure(Engine(returnCode, message))
    ensures returnCode == StratisdConstants.OK && !changed && call.EncryptPool? ==>
      r == Failure(Incoherence(ENCRYPT_INCOHERENCE_AS_WRITTEN))
    ensures returnCode == StratisdConstants.OK && !changed && call.DecryptPool? ==>
      r == Failure(Incoherence(UNENCRYPT_INCOHERENCE))
    ensures returnCode == StratisdConstants.OK && !changed && call.ReencryptPool? ==>
      r == Failure(Incoherence(REENCRYPT_INCOHERENCE))
  {
    var incoherence := match call
      case EncryptPool(_, _, _, _) => ENCRYPT_INCOHERENCE_AS_WRITTEN
      case DecryptPool(_) => UNENCRYPT_INCOHERENCE
      case ReencryptPool(_) => REENCRYPT_INCOHERENCE;
    InterpretReply(changed, returnCode, message, Incoherence(incoherence))
  }

  /** The reply as evidently intended: the `encrypt` incoherence names the pool. */
  function ConcludeIntended(call: CryptCall, id: Constants.Id, changed: bool, returnCode: int, message: string)
    : (r: Result<(), ActionError>)
    ensures r.Success? <==> returnCode == StratisdConstants.OK && changed
    ensures returnCode != StratisdConstants.OK ==> r == Failure(Engine(returnCode, message))
    ensures returnCode == StratisdConstants.OK && !changed && call.EncryptPool? ==>
      r == Failure(Incoherence(EncryptIncoherence(id)))
    ensures !call.EncryptPool? ==> r == Conclude(call, changed, returnCode, message)
  {
    if call.EncryptPool? then
      InterpretReply(changed, returnCode, message, Incoherence(EncryptIncoherence(id)))
    else Conclude(call, changed, returnCode, message)
  }

  /**
   * The two differ on exactly one reply: an OK `encrypt` without a change,
   * where the code as written names no pool and the intended message
   * names the pool's id.
   */
  lemma ConcludeDiscrepancy(call: CryptCall, id: Constants.Id, changed: bool, returnCode: int, message: string)
    ensures Conclude(call, changed, returnCode, message) != ConcludeIntended(call, id, changed, returnCode, message)
        <==> call.EncryptPool? && returnCode == StratisdConstants.OK && !changed
  {
    if call.EncryptPool? && returnCode == StratisdConstants.OK && !changed {
      var n := |ENCRYPT_PREFIX|;
      EncryptIncoherenceAsWrittenNamesNoPool();
      assert ENCRYPT_INCOHERENCE_AS_WRITTEN[n] == '{';
      assert EncryptIncoherence(id)[n] == Constants.IdToString(id)[0];
      assert Constants.IdToString(id)[0] in {'p', 'f'};
    }
  }
}
