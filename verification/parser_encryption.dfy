/**
 * The Clevis option wrappers of `_parser/_encryption.py`, which rewrite the
 * namespace of the `bind nbde` and `bind tpm2` subcommands before the
 * shared Clevis options are taken from it and verified.
 */
module ParserEncryption {
  import opened Wrappers
  import opened Namespace
  import opened ParserShared
  import Constants
  import StratisdConstants

  /**
   * `ClevisEncryptionOptionsForTang(namespace)`: sets `clevis` to TANG, moves
   * `url` to `tang_url`, and then takes the shared options.
   */
  function TangOptions(ns: Namespace): (r: Result<(ClevisOptions, Namespace), string>)
    ensures r.Success? <==> "url" in ns && "thumbprint" in ns && "trust_url" in ns
    ensures r.Success? ==>
      r.value.0 == ClevisOptions(AClevis(Constants.Clevis.TANG), ns["thumbprint"], ns["url"], ns["trust_url"])
      && r.value.1 == ns - {"url"} - CLEVIS_ATTRIBUTES
  {
    if "url" !in ns then Failure("AttributeError")
    else
      var rewritten := (ns[ "clevis" := AClevis(Constants.Clevis.TANG)][ "tang_url" := ns["url"]]) - {"url"};
      TakeClevisOptions(rewritten)
  }

  /**
   * `ClevisEncryptionOptionsForTpm2(namespace)`: sets `clevis` to TPM2 and
   * the Tang options to None, and then takes the shared options.
   */
  function Tpm2Options(ns: Namespace): (r: (ClevisOptions, Namespace))
    ensures r.0 == ClevisOptions(AClevis(Constants.Clevis.TPM2), ANone, ANone, ANone)
    ensures r.1 == ns - CLEVIS_ATTRIBUTES
  {
    var rewritten := ns[ "clevis" := AClevis(Constants.Clevis.TPM2)][ "thumbprint" := ANone][ "tang_url" := ANone][ "trust_url" := ANone];
    var taken := TakeClevisOptions(rewritten);
    assert taken.Success?;
    assert taken.value.1 == ns - CLEVIS_ATTRIBUTES;
    taken.value
  }

  /** TPM2 options always pass verification and always yield the `tpm2` pin with an empty configuration. */
  lemma Tpm2AlwaysVerifies(ns: Namespace)
    ensures Verify(Tpm2Options(ns).0) == Success(Some(ClevisInfo(StratisdConstants.CLEVIS_PIN_TPM2, map[])))
  {
  }

  /**
   * Tang options fail verification exactly when the URL is None, or when
   * neither a (truthy) trust flag nor a thumbprint is given.
   */
  lemma TangVerifies(ns: Namespace)
    requires TangOptions(ns).Success?
    ensures Verify(TangOptions(ns).value.0).Failure? <==>
      ns["url"] == ANone || (!Truthy(ns["trust_url"]) && ns["thumbprint"] == ANone)
  {
  }

  /**
   * The `nbde` subcommand's required, mutually exclusive "Tang Server
   * Verification" group: exactly one of `--trust-url` and `--thumbprint`.
   */
  predicate NbdeGroupSatisfied(trustUrl: bool, thumbprint: Option<string>) {
    trustUrl != thumbprint.Some?
  }

  /** The namespace argparse builds for `bind nbde <pool> <url>` with the group's options. */
  function NbdeNamespace(poolName: string, url: string, trustUrl: bool, thumbprint: Option<string>): Namespace {
    map["pool_name" := AStr(poolName), "url" := AStr(url), "trust_url" := ABool(trustUrl),
        "thumbprint" := if thumbprint.Some? then AStr(thumbprint.value) else ANone]
  }

  /**
   * Whatever argparse accepts for `bind nbde` passes verification, with the
   * trust flag taking precedence over a thumbprint.
   */
  lemma NbdeAcceptedVerifies(poolName: string, url: string, trustUrl: bool, thumbprint: Option<string>)
    requires NbdeGroupSatisfied(trustUrl, thumbprint)
    ensures TangOptions(NbdeNamespace(poolName, url, trustUrl, thumbprint)).Success?
    ensures Verify(TangOptions(NbdeNamespace(poolName, url, trustUrl, thumbprint)).value.0)
      == Success(Some(ClevisInfo(StratisdConstants.CLEVIS_PIN_TANG,
           TangConfig(AStr(url), trustUrl, if thumbprint.Some? then AStr(thumbprint.value) else ANone))))
  {
  }

  /** The `bind` subcommands; "tang" is an alias of "nbde". */
  datatype BindSubcommand = BindNbde | BindTpm2 | BindKeyring

  function BindSubcommandFromName(name: string): (r: Option<BindSubcommand>)
    ensures r == Some(BindNbde) <==> name == Constants.Clevis.NBDE.ToString() || name == Constants.Clevis.TANG.ToString()
    ensures r == Some(BindTpm2) <==> name == Constants.Clevis.TPM2.ToString()
    ensures r == Some(BindKeyring) <==> name == "keyring"
  {
    if name == "nbde" || name == "tang" then Some(BindNbde)
    else if name == "tpm2" then Some(BindTpm2)
    else if name == "keyring" then Some(BindKeyring)
    else None
  }

  /** `rebind clevis|keyring --token-slot`: the value is checked by `ensure_nat`. */
  function RebindTokenSlot(arg: Option<string>): (r: Result<Option<nat>, string>)
    ensures arg.None? ==> r == Success(None)
    ensures arg.Some? ==> (r.Success? <==> EnsureNat(arg.value).Success?)
    ensures arg.Some? && r.Success? ==> r.value == Some(EnsureNat(arg.value).value)
  {
    match arg
    case None => Success(None)
    case Some(a) =>
      var n :- EnsureNat(a);
      Success(Some(n))
  }
}
