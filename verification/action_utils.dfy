/**
 * `_actions/_utils.py`: Clevis information from parsed options, tolerant
 * decoding of the daemon's encryption and stopped-pool payloads, and the
 * passphrase checks made before a passphrase is piped to the daemon.
 */
module ActionUtils {
  import opened Wrappers
  import opened Text
  import opened ManagedObjects
  import opened Namespace
  import Constants
  import ParserShared
  import StratisdConstants

  /**
   * `ClevisInfo.get_info(options)`: the pin and configuration to bind with.
   * Where the Python code asserts, the model fails.
   */
  function GetInfo(o: ParserShared.ClevisOptions): (r: Result<ClevisInfo, string>)
    ensures ParserShared.IsTang(o.clevis) ==>
      (r.Success? <==> o.tangUrl != ANone && (Truthy(o.trustUrl) || o.thumbprint != ANone))
    ensures ParserShared.IsTang(o.clevis) && r.Success? ==>
      r.value.pin == StratisdConstants.CLEVIS_PIN_TANG
      && (Truthy(o.trustUrl) ==> r.value.config == map[StratisdConstants.CLEVIS_KEY_URL := o.tangUrl,
                                                        StratisdConstants.CLEVIS_KEY_TANG_TRUST_URL := ABool(true)])
      && (!Truthy(o.trustUrl) ==> r.value.config == map[StratisdConstants.CLEVIS_KEY_URL := o.tangUrl,
                                                         StratisdConstants.CLEVIS_KEY_THP := o.thumbprint])
    ensures o.clevis == AClevis(Constants.Clevis.TPM2) ==> r == Success(ClevisInfo(StratisdConstants.CLEVIS_PIN_TPM2, map[]))
    ensures !ParserShared.IsTang(o.clevis) && o.clevis != AClevis(Constants.Clevis.TPM2) ==> r.Failure?
  {
    if ParserShared.IsTang(o.clevis) then
      if o.tangUrl == ANone then Failure("AssertionError")
      else if !Truthy(o.trustUrl) && o.thumbprint == ANone then Failure("AssertionError")
      else Success(ClevisInfo(StratisdConstants.CLEVIS_PIN_TANG,
                              ParserShared.TangConfig(o.tangUrl, Truthy(o.trustUrl), o.thumbprint)))
    else if o.clevis == AClevis(Constants.Clevis.TPM2) then
      Success(ClevisInfo(StratisdConstants.CLEVIS_PIN_TPM2, map[]))
    else Failure("unexpected value for clevis option")
  }

  /** Whatever the parser's `verify` accepted with a Clevis method, `get_info` turns into the same information. */
  lemma GetInfoAgreesWithVerify(o: ParserShared.ClevisOptions, info: ClevisInfo)
    requires ParserShared.Verify(o) == Success(Some(info))
    requires ParserShared.IsTang(o.clevis) || o.clevis == AClevis(Constants.Clevis.TPM2)
    ensures GetInfo(o) == Success(info)
  {
  }

  /** The decoded `EncryptionInfo`: consistent with an optional value, or an inconsistency message. */
  datatype EncryptionInfo<T> = Consistent(value: Option<T>) | Inconsistent(error: string) {
    /** `EncryptionInfo.consistent()`. */
    predicate IsConsistent() {
      Consistent?
    }
  }

  /** A Clevis binding as the daemon reports it: the pin and its JSON configuration text. */
  datatype ClevisBinding = ClevisBinding(pin: string, configJson: string)

  /**
   * `EncryptionInfo.__init__(info)` with the subclass's conversion of a
   * present value. `info` is `(consistent, (encrypted, value))` or
   * `(False, message)`; other shapes are malformed.
   */
  function DecodeEncryptionInfo<T>(info: Value, convert: Value -> Option<T>): (r: Result<EncryptionInfo<T>, string>)
    ensures info.VPair? && info.valid && info.item.VPair? && !info.item.valid ==> r == Success(Consistent(None))
    ensures info.VPair? && info.valid && info.item.VPair? && info.item.valid ==>
      (r.Success? <==> convert(info.item.item).Some?)
      && (r.Success? ==> r.value == Consistent(Some(convert(info.item.item).value)))
    ensures info.VPair? && !info.valid && info.item.VStr? ==> r == Success(Inconsistent(info.item.s))
    ensures r.Success? ==> info.VPair? && (r.value.IsConsistent() <==> info.valid)
  {
    if !info.VPair? then Failure("malformed encryption info")
    else if info.valid then
      if !info.item.VPair? then Failure("malformed encryption info")
      else if !info.item.valid then Success(Consistent(None))
      else
        match convert(info.item.item)
        case Some(v) => Success(Consistent(Some(v)))
        case None => Failure("malformed encryption value")
    else if info.item.VStr? then Success(Inconsistent(info.item.s))
    else Failure("malformed encryption info")
  }

  /** `EncryptionInfoKeyDescription`: a present value is the key description string. */
  function KeyDescriptionValue(v: Value): (r: Option<string>)
    ensures r.Some? <==> v.VStr?
    ensures r.Some? ==> r.value == v.s
  {
    if v.VStr? then Some(v.s) else None
  }

  /**
   * `EncryptionInfoClevis`: a present value is a `(pin, config)` pair of
   * strings. The config is kept as its JSON text; `json.loads` is not modelled.
   */
  function ClevisValue(v: Value): (r: Option<ClevisBinding>)
    ensures r.Some? <==> v.VList? && |v.items| == 2 && v.items[0].VStr? && v.items[1].VStr?
    ensures r.Some? ==> r.value == ClevisBinding(v.items[0].s, v.items[1].s)
  {
    if v.VList? && |v.items| == 2 && v.items[0].VStr? && v.items[1].VStr? then
      Some(ClevisBinding(v.items[0].s, v.items[1].s))
    else None
  }

  /** `(True, (True, value))` and `(True, (False, _))` are the two consistent payloads. */
  lemma EncryptionInfoCases(desc: string, anything: Value)
    ensures DecodeEncryptionInfo(VPair(true, VPair(true, VStr(desc))), KeyDescriptionValue) == Success(Consistent(Some(desc)))
    ensures DecodeEncryptionInfo(VPair(true, VPair(false, anything)), KeyDescriptionValue) == Success(Consistent(None))
    ensures DecodeEncryptionInfo(VPair(false, VStr(desc)), KeyDescriptionValue) == Success(Inconsistent(desc))
  {
  }

  /**
   * Python's `UUID(text)` on the form the daemon sends: lower-case hex
   * digits, hyphens anywhere. The text names exactly the UUID whose hex
   * form it is once its hyphens are removed.
   */
  function ParseUuid(text: string): (r: Option<Uuid>)
    ensures forall u: Uuid :: r == Some(u) <==> UuidHex(u) == RemoveHyphens(text)
  {
    var r := UuidFromHex(RemoveHyphens(text));
    forall u: Uuid | UuidHex(u) == RemoveHyphens(text)
      ensures r == Some(u)
    {
      UuidHexInjective(r.value, u);
    }
    r
  }

  function RemoveHyphens(s: string): (r: string)
    ensures '-' !in r
    ensures |r| <= |s|
    ensures '-' !in s ==> r == s
  {
    if |s| == 0 then ""
    else
      var rest := RemoveHyphens(s[1..]);
      assert s == [s[0]] + s[1..];
      if s[0] == '-' then rest else [s[0]] + rest
  }

  /** A canonical UUID string reads back as its UUID. */
  lemma ParseUuidHex(u: Uuid)
    ensures ParseUuid(UuidHex(u)) == Some(u)
  {
    var h := UuidHex(u);
    assert forall i :: 0 <= i < |h| ==> IsHexDigit(h[i]);
    assert !IsHexDigit('-');
    var r := UuidFromHex(h);
    assert r.Some?;
    UuidHexInjective(r.value, u);
  }

  /** A device of a stopped pool. */
  datatype Device = Device(uuid: Uuid, devnode: string)

  /** `Device(mapping)`: a missing key or a malformed UUID is an error. */
  function DecodeDevice(v: Value): (r: Option<Device>)
    ensures r.Some? ==> (v.VDict? && "uuid" in v.fields && v.fields["uuid"].VStr?
      && ParseUuid(v.fields["uuid"].s) == Some(r.value.uuid)
      && "devnode" in v.fields && v.fields["devnode"] == VStr(r.value.devnode))
  {
    if v.VDict? && "uuid" in v.fields && v.fields["uuid"].VStr? && "devnode" in v.fields && v.fields["devnode"].VStr? then
      match ParseUuid(v.fields["uuid"].s)
      case Some(u) => Some(Device(u, v.fields["devnode"].s))
      case None => None
    else None
  }

  function DecodeDevices(vs: seq<Value>): (r: Option<seq<Device>>)
    ensures r.Some? <==> forall i :: 0 <= i < |vs| ==> DecodeDevice(vs[i]).Some?
    ensures r.Some? ==> |r.value| == |vs| && forall i :: 0 <= i < |vs| ==> r.value[i] == DecodeDevice(vs[i]).value
  {
    if |vs| == 0 then Some([])
    else
      match DecodeDevice(vs[0])
      case None => None
      case Some(d) =>
        var tail := vs[1..];
        assert forall i :: 1 <= i < |vs| ==> vs[i] == tail[i - 1];
        match DecodeDevices(tail)
        case None => None
        case Some(ds) => Some([d] + ds)
  }

  /** The pool metadata versions the daemon reports. */
  datatype MetadataVersion = V1 | V2 {
    function Value(): int {
      match this
      case V1 => 1
      case V2 => 2
    }
  }

  /** `MetadataVersion(n)`, `None` where it raises `ValueError`. */
  function MetadataVersionOf(n: int): (r: Option<MetadataVersion>)
    ensures r.Some? ==> r.value.Value() == n
    ensures r.None? <==> n != 1 && n != 2
  {
    if n == 1 then Some(V1) else if n == 2 then Some(V2) else None
  }

  datatype PoolFeature = ENCRYPTION | INTEGRITY | RAID {
    function ToString(): string {
      match this
      case ENCRYPTION => "encryption"
      case INTEGRITY => "integrity"
      case RAID => "raid"
    }
  }

  /** `PoolFeature(text)`, `None` where it raises `ValueError`. */
  function PoolFeatureOf(text: string): (r: Option<PoolFeature>)
    ensures r.Some? <==> text in {"encryption", "integrity", "raid"}
    ensures r.Some? ==> r.value.ToString() == text
  {
    if text == "encryption" then Some(ENCRYPTION)
    else if text == "integrity" then Some(INTEGRITY)
    else if text == "raid" then Some(RAID)
    else None
  }

  lemma PoolFeatureRoundTrip(f: PoolFeature)
    ensures PoolFeatureOf(f.ToString()) == Some(f)
  {
  }

  /** The feature set of a list of feature strings; an unknown feature is an error. */
  function FeatureSet(vs: seq<Value>): (r: Option<set<PoolFeature>>)
    ensures r.Some? <==> forall i :: 0 <= i < |vs| ==> vs[i].VStr? && PoolFeatureOf(vs[i].s).Some?
    ensures r.Some? ==> forall f :: f in r.value <==> VStr(f.ToString()) in vs
  {
    if |vs| == 0 then Some({})
    else if !vs[0].VStr? then None
    else
      match PoolFeatureOf(vs[0].s)
      case None => None
      case Some(f) =>
        var tail := vs[1..];
        assert forall i :: 1 <= i < |vs| ==> vs[i] == tail[i - 1];
        assert forall x :: x in vs <==> x == vs[0] || x in tail;
        match FeatureSet(tail)
        case None => None
        case Some(fs) =>
          assert forall g: PoolFeature :: g.ToString() == f.ToString() ==> g == f;
          Some({f} + fs)
  }

  datatype StoppedPool = StoppedPool(
    devs: seq<Device>,
    clevisInfo: Option<EncryptionInfo<ClevisBinding>>,
    keyDescription: Option<EncryptionInfo<string>>,
    name: Option<string>,
    metadataVersion: Option<MetadataVersion>,
    features: Option<set<PoolFeature>>)

  function OptionalEncryption<T>(fields: map<string, Value>, key: string, convert: Value -> Option<T>)
    : (r: Result<Option<EncryptionInfo<T>>, string>)
    ensures key !in fields ==> r == Success(None)
    ensures key in fields ==> (r.Success? <==> DecodeEncryptionInfo(fields[key], convert).Success?)
    ensures key in fields && r.Success? ==> r.value == Some(DecodeEncryptionInfo(fields[key], convert).value)
  {
    if key !in fields then Success(None)
    else
      var e :- DecodeEncryptionInfo(fields[key], convert);
      Success(Some(e))
  }

  /**
   * `StoppedPool(pool_info)`: absent optional entries stay `None`; an
   * unknown metadata version is `None`; the feature set is present only
   * when its validity flag is set. Missing mandatory entries, malformed
   * devices and unknown features are errors.
   */
  function DecodeStoppedPool(info: Value): (r: Result<StoppedPool, string>)
    ensures r.Success? ==> info.VDict?
    ensures r.Success? ==> ("clevis_info" !in info.fields <==> r.value.clevisInfo.None?)
    ensures r.Success? ==> ("key_description" !in info.fields <==> r.value.keyDescription.None?)
    ensures r.Success? ==> ("name" !in info.fields <==> r.value.name.None?)
    ensures r.Success? && r.value.name.Some? ==> info.fields["name"] == VStr(r.value.name.value)
    ensures r.Success? ==> ("metadata_version" in info.fields && info.fields["metadata_version"].VPair?
      && var mv := info.fields["metadata_version"];
         r.value.metadataVersion == if mv.valid && mv.item.VInt? then MetadataVersionOf(mv.item.i) else None)
    ensures r.Success? ==> ("features" in info.fields && info.fields["features"].VPair?
      && (r.value.features.Some? <==> info.fields["features"].valid))
    ensures r.Success? ==>
      "devs" in info.fields && info.fields["devs"].VList? && DecodeDevices(info.fields["devs"].items) == Some(r.value.devs)
    ensures r.Success? ==>
      && OptionalEncryption(info.fields, "clevis_info", ClevisValue) == Success(r.value.clevisInfo)
      && OptionalEncryption(info.fields, "key_description", KeyDescriptionValue) == Success(r.value.keyDescription)
    ensures r.Success? && r.value.features.Some? ==>
      info.fields["features"].item.VList? && FeatureSet(info.fields["features"].item.items) == Some(r.value.features.value)
  {
    if !info.VDict? then Failure("malformed stopped pool")
    else
      var fields := info.fields;
      if "devs" !in fields || !fields["devs"].VList? then Failure("KeyError: devs")
      else
        var devs :- DecodeDevices(fields["devs"].items).ToResult("malformed device");
        var clevis :- OptionalEncryption(fields, "clevis_info", ClevisValue);
        var keyDesc :- OptionalEncryption(fields, "key_description", KeyDescriptionValue);
        var name: Option<string> :-
          if "name" !in fields then Success(None)
          else if fields["name"].VStr? then Success(Some(fields["name"].s))
          else Failure("malformed name");
        if "metadata_version" !in fields || !fields["metadata_version"].VPair? then Failure("KeyError: metadata_version")
        else
          var mv := fields["metadata_version"];
          var version := if mv.valid && mv.item.VInt? then MetadataVersionOf(mv.item.i) else None;
          if "features" !in fields || !fields["features"].VPair? then Failure("KeyError: features")
          else
            var fv := fields["features"];
            var features: Option<set<PoolFeature>> :-
              if !fv.valid then Success(None)
              else if !fv.item.VList? then Failure("malformed features")
              else
                match FeatureSet(fv.item.items)
                case None => Failure("ValueError: unknown pool feature")
                case Some(fs) => Success(Some(fs));
            Success(StoppedPool(devs, clevis, keyDesc, name, version, features))
  }

  /** `get_pass(prompt)`: the line read, without its trailing newlines. */
  function GetPass(line: string): (r: string)
    ensures |r| <= |line| && line[..|r|] == r
    ensures |r| > 0 ==> r[|r| - 1] != '\n'
    ensures forall i :: |r| <= i < |line| ==> line[i] == '\n'
  {
    RStripNewlines(line)
  }

  /** Reading an already stripped passphrase again changes nothing. */
  lemma GetPassIdempotent(line: string)
    ensures GetPass(GetPass(line)) == GetPass(line)
  {
    var r := GetPass(line);
    var rr := GetPass(r);
    assert rr == r[..|rr|];
  }

  datatype PassphraseError = PassphraseMismatch | PassphraseEmpty | KeyfileNotFound(path: string)

  /** Where the passphrase given to the daemon comes from. */
  datatype PassphraseSource = Piped(passphrase: string) | Keyfile(path: string)

  /**
   * `get_passphrase_fd(keyfile_path=..., verify=...)`, with the two lines
   * typed at the prompts and the existence of the keyfile as inputs.
   */
  function GetPassphrase(keyfilePath: Option<string>, keyfileExists: bool, line: string, verifyLine: string, verify: bool)
    : (r: Result<PassphraseSource, PassphraseError>)
    ensures keyfilePath.Some? ==> r == (if keyfileExists then Success(Keyfile(keyfilePath.value)) else Failure(KeyfileNotFound(keyfilePath.value)))
    ensures keyfilePath.None? ==>
      && (r == Failure(PassphraseMismatch) <==> verify && GetPass(line) != GetPass(verifyLine))
      && (r == Failure(PassphraseEmpty) <==> (!verify || GetPass(line) == GetPass(verifyLine)) && GetPass(line) == "")
      && (r.Success? ==> r.value == Piped(GetPass(line)) && GetPass(line) != "")
  {
    match keyfilePath
    case Some(path) => if keyfileExists then Success(Keyfile(path)) else Failure(KeyfileNotFound(path))
    case None =>
      var password := GetPass(line);
      var password2 := if verify then GetPass(verifyLine) else password;
      if password != password2 then Failure(PassphraseMismatch)
      else if |password| == 0 then Failure(PassphraseEmpty)
      else Success(Piped(password))
  }

  /** A mismatch is reported even when the first entry is empty. */
  lemma MismatchBeforeEmpty(verifyLine: string)
    requires GetPass(verifyLine) != ""
    ensures GetPassphrase(None, false, "\n", verifyLine, true) == Failure(PassphraseMismatch)
  {
    assert GetPass("\n") == "";
  }
}
