/**
 * The binding actions of `_actions/_bind.py`: binding, unbinding and
 * rebinding an encrypted pool with Clevis or the kernel keyring.
 *
 * Each action looks the pool up by name in a GetManagedObjects snapshot,
 * makes one daemon call, and interprets the reply. The call is modelled
 * as a value (`Call`); the reply `(changed, return_code, message)` is an
 * input, and `json.dumps` is a parameter.
 */
module Bind {
  import opened Wrappers
  import opened ManagedObjects
  import opened Namespace
  import opened ActionErrors
  import Constants
  import StratisdConstants
  import ActionConstants
  import Data
  import ParserShared
  import ActionUtils
  import PoolActions

  type Flagged<T> = PoolActions.Flagged<T>

  /** The daemon call an action makes, with the object path of its pool. */
  datatype Call =
    | BindClevis(pool: string, pin: string, json: string, tokenSlot: Flagged<int>)
    | BindKeyring(pool: string, keyDesc: string, tokenSlot: Flagged<int>)
    | UnbindClevis(pool: string, tokenSlot: Flagged<int>)
    | UnbindKeyring(pool: string, tokenSlot: Flagged<int>)
    | RebindClevis(pool: string, tokenSlot: Flagged<int>)
    | RebindKeyring(pool: string, keyDesc: string, tokenSlot: Flagged<int>)
  {
    /** The command a no-change error names. */
    function Command(): string {
      if BindClevis? || BindKeyring? then "bind"
      else if UnbindClevis? || UnbindKeyring? then "unbind"
      else "rebind"
    }
  }

  /** The daemon's reply `(changed, return_code, message)`. */
  datatype Reply = Reply(changed: bool, returnCode: int, message: string)

  /** The search key of every binding action: the pool's name. */
  function NameKey(poolName: string): Props {
    map["Name" := VStr(poolName)]
  }

  /** `pools(props={"Name": pool_name}).require_unique_match(True)`: the pool's object path. */
  function PoolPath(mos: Snapshot, poolName: string): (r: Result<string, ActionError>)
    ensures r.Success? <==> |Search(mos, ActionConstants.POOL_INTERFACE, NameKey(poolName))| == 1
    ensures r.Success? ==>
      exists o :: o in mos && o.path == r.value && Matches(o, ActionConstants.POOL_INTERFACE, NameKey(poolName))
    ensures r.Failure? ==> r.error == DbusLookup(Data.LookupError(ActionConstants.POOL_INTERFACE, NameKey(poolName)))
  {
    var pool :- UniqueObject(ActionConstants.POOL_INTERFACE, mos, NameKey(poolName));
    Success(pool.path)
  }

  /**
   * The optional `--token-slot` as the daemon's `(valid, value)` pair:
   * `(False, 0)` when absent, `(True, n)` when given.
   */
  function TokenSlotArg(slot: Option<nat>): (r: Flagged<int>)
    ensures r.valid <==> slot.Some?
    ensures slot.Some? ==> r.value == slot.value
    ensures slot.None? ==> r.value == 0
  {
    match slot
    case None => PoolActions.Flagged(false, 0)
    case Some(n) => PoolActions.Flagged(true, n)
  }

  /** How the daemon reads a `(valid, value)` token slot. */
  function TokenSlotOf(f: Flagged<int>): Option<int> {
    if f.valid then Some(f.value) else None
  }

  /** The encoding loses nothing: the daemon reads back the slot that was given. */
  lemma TokenSlotRoundTrip(slot: Option<nat>)
    ensures TokenSlotOf(TokenSlotArg(slot)) == (match slot case None => None case Some(n) => Some(n as int))
  {
  }

  /**
   * The Clevis information of `bind_tang`: the URL, and the trust flag when
   * `--trust-url` is given, else the thumbprint, which must then be present
   * (an `assert` in `bind_tang`).
   */
  function TangInfo(url: string, trustUrl: bool, thumbprint: Option<string>): (r: Result<ClevisInfo, ActionError>)
    ensures r.Success? <==> trustUrl || thumbprint.Some?
    ensures r.Failure? ==> r.error == AssertionFailed
    ensures r.Success? ==> r.value.pin == StratisdConstants.CLEVIS_PIN_TANG
    ensures r.Success? ==> r.value.config.Keys == {StratisdConstants.CLEVIS_KEY_URL,
      if trustUrl then StratisdConstants.CLEVIS_KEY_TANG_TRUST_URL else StratisdConstants.CLEVIS_KEY_THP}
    ensures r.Success? ==> r.value.config[StratisdConstants.CLEVIS_KEY_URL] == AStr(url)
    ensures r.Success? && trustUrl ==> r.value.config[StratisdConstants.CLEVIS_KEY_TANG_TRUST_URL] == ABool(true)
    ensures r.Success? && !trustUrl ==> r.value.config[StratisdConstants.CLEVIS_KEY_THP] == AStr(thumbprint.value)
  {
    var config := map[StratisdConstants.CLEVIS_KEY_URL := AStr(url)];
    if trustUrl then
      Success(ClevisInfo(StratisdConstants.CLEVIS_PIN_TANG, config[StratisdConstants.CLEVIS_KEY_TANG_TRUST_URL := ABool(true)]))
    else if thumbprint.None? then Failure(AssertionFailed)
    else Success(ClevisInfo(StratisdConstants.CLEVIS_PIN_TANG, config[StratisdConstants.CLEVIS_KEY_THP := AStr(thumbprint.value)]))
  }

  /**
   * `bind_tang` builds the same Clevis information as `ClevisInfo.get_info`
   * does for Tang options carrying the same URL, trust flag and thumbprint.
   */
  lemma TangInfoAgreesWithGetInfo(url: string, trustUrl: bool, thumbprint: Option<string>)
    ensures var o := ParserShared.ClevisOptions(AClevis(Constants.Clevis.TANG),
                                                if thumbprint.None? then ANone else AStr(thumbprint.value),
                                                AStr(url), ABool(trustUrl));
      (ActionUtils.GetInfo(o).Success? <==> TangInfo(url, trustUrl, thumbprint).Success?)
      && (TangInfo(url, trustUrl, thumbprint).Success? ==>
          ActionUtils.GetInfo(o).value == TangInfo(url, trustUrl, thumbprint).value)
  {
  }

  /** The Clevis information of `bind_tpm`. */
  const TPM2_INFO: ClevisInfo := ClevisInfo(StratisdConstants.CLEVIS_PIN_TPM2, map[])

  /** `_bind_clevis`: bind with the given pin and configuration, never naming a token slot. */
  function BindClevisCall(mos: Snapshot, poolName: string, info: ClevisInfo, dumps: map<string, Arg> -> string)
    : (r: Result<Call, ActionError>)
    ensures r.Success? <==> PoolPath(mos, poolName).Success?
    ensures r.Success? ==> r.value == BindClevis(PoolPath(mos, poolName).value, info.pin, dumps(info.config),
                                                 PoolActions.Flagged(false, 0))
    ensures r.Failure? ==> r.error == PoolPath(mos, poolName).error
  {
    var path :- PoolPath(mos, poolName);
    Success(BindClevis(path, info.pin, dumps(info.config), PoolActions.Flagged(false, 0)))
  }

  /** `bind_tang`: the configuration is checked before the pool is looked up. */
  function BindTang(mos: Snapshot, poolName: string, url: string, trustUrl: bool, thumbprint: Option<string>,
                    dumps: map<string, Arg> -> string)
    : (r: Result<Call, ActionError>)
    ensures !trustUrl && thumbprint.None? ==> r == Failure(AssertionFailed)
    ensures (trustUrl || thumbprint.Some?) ==> r == BindClevisCall(mos, poolName, TangInfo(url, trustUrl, thumbprint).value, dumps)
    ensures r.Success? ==> (r.value.BindClevis? && r.value.pin == StratisdConstants.CLEVIS_PIN_TANG
      && r.value.tokenSlot == PoolActions.Flagged(false, 0))
  {
    var info :- TangInfo(url, trustUrl, thumbprint);
    BindClevisCall(mos, poolName, info, dumps)
  }

  /** `bind_tpm`: pin "tpm2" with an empty configuration. */
  function BindTpm(mos: Snapshot, poolName: string, dumps: map<string, Arg> -> string): (r: Result<Call, ActionError>)
    ensures r.Success? <==> PoolPath(mos, poolName).Success?
    ensures r.Success? ==> (r.value.BindClevis? && r.value.pin == StratisdConstants.CLEVIS_PIN_TPM2
      && r.value.json == dumps(map[]) && r.value.tokenSlot == PoolActions.Flagged(false, 0))
  {
    BindClevisCall(mos, poolName, TPM2_INFO, dumps)
  }

  /** `bind_keyring`: bind with a key description, never naming a token slot. */
  function BindKeyringCall(mos: Snapshot, poolName: string, keyDesc: string): (r: Result<Call, ActionError>)
    ensures r.Success? <==> PoolPath(mos, poolName).Success?
    ensures r.Success? ==> r.value == BindKeyring(PoolPath(mos, poolName).value, keyDesc, PoolActions.Flagged(false, 0))
  {
    var path :- PoolPath(mos, poolName);
    Success(BindKeyring(path, keyDesc, PoolActions.Flagged(false, 0)))
  }

  /** `unbind`: the Clevis method unbinds Clevis, any other the keyring. */
  function Unbind(mos: Snapshot, poolName: string, unbindMethod: Constants.EncryptionMethod, tokenSlot: Option<nat>)
    : (r: Result<Call, ActionError>)
    ensures r.Success? <==> PoolPath(mos, poolName).Success?
    ensures r.Success? ==> (r.value.UnbindClevis? <==> unbindMethod == Constants.CLEVIS)
    ensures r.Success? ==> (r.value.UnbindKeyring? <==> unbindMethod != Constants.CLEVIS)
    ensures r.Success? ==> (r.value.pool == PoolPath(mos, poolName).value
      && TokenSlotOf(r.value.tokenSlot) == (if tokenSlot.None? then None else Some(tokenSlot.value as int)))
  {
    var path :- PoolPath(mos, poolName);
    var slot := TokenSlotArg(tokenSlot);
    if unbindMethod == Constants.CLEVIS then Success(UnbindClevis(path, slot))
    else Success(UnbindKeyring(path, slot))
  }

  /** `rebind_clevis`. */
  function RebindClevisCall(mos: Snapshot, poolName: string, tokenSlot: Option<nat>): (r: Result<Call, ActionError>)
    ensures r.Success? <==> PoolPath(mos, poolName).Success?
    ensures r.Success? ==> (r.value.RebindClevis? && r.value.pool == PoolPath(mos, poolName).value
      && TokenSlotOf(r.value.tokenSlot) == (if tokenSlot.None? then None else Some(tokenSlot.value as int)))
  {
    var path :- PoolPath(mos, poolName);
    Success(RebindClevis(path, TokenSlotArg(tokenSlot)))
  }

  /** `rebind_keyring`. */
  function RebindKeyringCall(mos: Snapshot, poolName: string, keyDesc: string, tokenSlot: Option<nat>)
    : (r: Result<Call, ActionError>)
    ensures r.Success? <==> PoolPath(mos, poolName).Success?
    ensures r.Success? ==> (r.value.RebindKeyring? && r.value.pool == PoolPath(mos, poolName).value
      && r.value.keyDesc == keyDesc
      && TokenSlotOf(r.value.tokenSlot) == (if tokenSlot.None? then None else Some(tokenSlot.value as int)))
  {
    var path :- PoolPath(mos, poolName);
    Success(RebindKeyring(path, keyDesc, TokenSlotArg(tokenSlot)))
  }

  /**
   * The whole action: the planned call, then its reply. A non-OK return
   * code is an engine error whatever `changed` says; an unchanged result is
   * a no-change error naming the command and the pool.
   */
  function Run(plan: Result<Call, ActionError>, poolName: string, reply: Reply): (r: Result<Call, ActionError>)
    ensures plan.Failure? ==> r == Failure(plan.error)
    ensures plan.Success? ==> (r.Success? <==> reply.returnCode == StratisdConstants.OK && reply.changed)
    ensures plan.Success? && reply.returnCode != StratisdConstants.OK ==>
      r == Failure(Engine(reply.returnCode, reply.message))
    ensures plan.Success? && reply.returnCode == StratisdConstants.OK && !reply.changed ==>
      r == Failure(NoChange(plan.value.Command(), poolName))
    ensures r.Success? ==> r == plan
  {
    var call :- plan;
    var _ :- InterpretReply(reply.changed, reply.returnCode, reply.message, NoChange(call.Command(), poolName));
    Success(call)
  }

  /** Every bind leaves the token slot to the daemon, whichever mechanism it uses. */
  lemma BindsNeverNameTokenSlot(mos: Snapshot, poolName: string, url: string, trustUrl: bool,
                                thumbprint: Option<string>, keyDesc: string, dumps: map<string, Arg> -> string)
    ensures BindTang(mos, poolName, url, trustUrl, thumbprint, dumps).Success? ==>
      TokenSlotOf(BindTang(mos, poolName, url, trustUrl, thumbprint, dumps).value.tokenSlot).None?
    ensures BindTpm(mos, poolName, dumps).Success? ==> TokenSlotOf(BindTpm(mos, poolName, dumps).value.tokenSlot).None?
    ensures BindKeyringCall(mos, poolName, keyDesc).Success? ==>
      TokenSlotOf(BindKeyringCall(mos, poolName, keyDesc).value.tokenSlot).None?
  {
  }
}
