/**
 * The errors the client's actions raise (`StratisCli*Error`), with what
 * each carries, and the readings shared by every action: locating one
 * object of the snapshot and interpreting a daemon reply.
 */
module ActionErrors {
  import opened Wrappers
  import opened Text
  import opened ManagedObjects
  import Constants
  import StratisdConstants
  import ActionUtils
  import Data

  type Tier = StratisdConstants.BlockDevTier

  datatype ActionError =
    | KeyError(key: string)
      /** `StratisCliDbusLookupError(interface, props)` of a unique-match search. */
    | DbusLookup(lookup: Data.LookupError)
    | NameConflict(kind: string, name: string)
    | InUseOtherTier(owners: map<string, set<string>>, requestedTier: Tier)
    | InUseSameTier(owners: map<string, set<string>>, tier: Tier)
    | PartialChange(command: string, toChange: set<string>, alreadyDone: set<string>)
    | InvalidOptionValue(message: string)
    | UnlockMethodWithV2Metadata(unlockMethod: Constants.UnlockMethod)
    | Engine(code: int, message: string)
      /** `StratisCliRuntimeError(rc, message)` of the older actions. */
    | Runtime(code: int, message: string)
    | Incoherence(message: string)
    | NoChange(command: string, target: string)
    | NoPropertyChange(message: string)
    | ResourceNotFound(command: string, target: string)
    | DevicesNotFound(command: string, uuids: set<Uuid>)
    | NoDeviceSizeChange
    | Passphrase(error: ActionUtils.PassphraseError)
    | Decode(message: string)
      /** A Python `assert` of the action that does not hold. */
    | AssertionFailed
      /** `StratisCliPropertyNotFoundError(object_type, name)`. */
    | PropertyNotFound(objectType: string, propertyName: string)
      /** An attribute the namespace lacks (`AttributeError`). */
    | AttributeError(attribute: string)
      /**
       * The size library refused an arithmetic operation, such as
       * subtracting an unknown size from a `Range`; which exception it
       * raises, and with what text, is the library's.
       */
    | SizeArithmetic(operation: string)

  /**
   * The uniform reading of a daemon reply `(changed, return_code, message)`:
   * a non-OK code is an engine error, checked before `changed`; an
   * unchanged result is the given error.
   */
  function InterpretReply(changed: bool, returnCode: int, message: string, unchangedError: ActionError)
    : (r: Result<(), ActionError>)
    ensures r.Success? <==> returnCode == StratisdConstants.OK && changed
    ensures returnCode != StratisdConstants.OK ==> r == Failure(Engine(returnCode, message))
    ensures returnCode == StratisdConstants.OK && !changed ==> r == Failure(unchangedError)
  {
    if returnCode != StratisdConstants.OK then Failure(Engine(returnCode, message))
    else if !changed then Failure(unchangedError)
    else Success(())
  }

  /**
   * `<query>(props=props).require_unique_match(True).search(managed_objects)`
   * followed by `next(...)`: the one object of the interface with those
   * properties.
   */
  function UniqueObject(iface: string, mos: Snapshot, props: Props): (r: Result<MObject, ActionError>)
    ensures r.Success? <==> |Search(mos, iface, props)| == 1
    ensures r.Success? ==> r.value in mos && Matches(r.value, iface, props)
    ensures r.Success? ==> forall o :: o in mos && Matches(o, iface, props) ==> o == r.value
    ensures r.Failure? ==> r.error == DbusLookup(Data.LookupError(iface, props))
  {
    match Data.UniqueWrapper(iface, mos, props, true)
    case Success(found) => Success(found.obj)
    case Failure(e) => Failure(DbusLookup(e))
  }
}
