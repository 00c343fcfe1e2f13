/**
 * The client-side enumerations and identifiers of `_constants.py`: yes/no
 * toggles, name-or-UUID ids for pools and filesystems with the search keys
 * and D-Bus arguments they produce, and the string-valued option enums.
 */
module Constants {
  import opened Wrappers
  import opened Text
  import opened ManagedObjects

  datatype YesOrNo = YES | NO {
    /** Python `bool(self)`. */
    predicate Truthy()
      ensures Truthy() <==> this == YES
    {
      match this
      case YES => true
      case NO => false
    }

    function ToString(): string {
      match this
      case YES => "yes"
      case NO => "no"
    }
  }

  function YesOrNoFromString(s: string): (r: Option<YesOrNo>)
    ensures r.Some? ==> r.value.ToString() == s
    ensures forall v: YesOrNo :: s == v.ToString() ==> r == Some(v)
  {
    if s == "yes" then Some(YES) else if s == "no" then Some(NO) else None
  }

  datatype IdType = UUID | NAME {
    function ToString(): string {
      match this
      case UUID => "UUID"
      case NAME => "name"
    }
  }

  datatype IdValue = UuidValue(uuid: Uuid) | NameValue(name: string) {
    /** Python `str(value)`. */
    function ToString(): string {
      match this
      case UuidValue(u) => UuidString(u)
      case NameValue(n) => n
    }
  }

  /** Whether the id names a pool (`PoolId`) or a filesystem (`FilesystemId`). */
  datatype IdKind = PoolKind | FilesystemKind

  datatype RawId = RawId(kind: IdKind, idType: IdType, value: IdValue) {
    /** The assertion of `Id.__init__`: the type is UUID iff the value is a UUID. */
    predicate Valid() {
      (idType == UUID) == value.UuidValue?
    }
  }

  type Id = i: RawId | i.Valid() witness RawId(PoolKind, NAME, NameValue(""))

  /** `PoolId(t, v)` / `FilesystemId(t, v)`: `None` where the assertion fails. */
  function MakeId(kind: IdKind, t: IdType, v: IdValue): (r: Option<Id>)
    ensures r.Some? <==> ((t == UUID) <==> v.UuidValue?)
    ensures r.Some? ==> r.value.kind == kind && r.value.idType == t && r.value.value == v
  {
    var raw := RawId(kind, t, v);
    if raw.Valid() then Some(raw) else None
  }

  /** The text an id is matched by: the UUID's hex digits, or the name. */
  function SelectionValue(id: Id): string {
    match id.value
    case UuidValue(u) => UuidHex(u)
    case NameValue(n) => n
  }

  /** The D-Bus property an id is matched against. */
  function KeyProperty(id: Id): string {
    if id.idType == UUID then "Uuid" else "Name"
  }

  /** `Id.managed_objects_key()`. */
  function ManagedObjectsKey(id: Id): (r: Props)
    ensures r.Keys == {KeyProperty(id)}
    ensures r[KeyProperty(id)] == VStr(SelectionValue(id))
  {
    if id.idType == UUID then map["Uuid" := VStr(UuidHex(id.value.uuid))]
    else map["Name" := VStr(id.value.name)]
  }

  /**
   * The search key selects exactly the objects whose Uuid (resp. Name)
   * property is the id's hex digits (resp. name); for UUID ids, these are
   * the objects whose Uuid property denotes that UUID.
   */
  lemma ManagedObjectsKeySelects(id: Id, o: MObject, iface: string)
    ensures Matches(o, iface, ManagedObjectsKey(id)) <==>
      iface in o.interfaces && Property(o, iface, KeyProperty(id)) == Some(VStr(SelectionValue(id)))
    ensures id.idType == UUID ==>
      (Matches(o, iface, ManagedObjectsKey(id)) <==>
        iface in o.interfaces && Property(o, iface, "Uuid").Some? && Property(o, iface, "Uuid").value.VStr?
        && UuidFromHex(Property(o, iface, "Uuid").value.s) == Some(id.value.uuid))
  {
    if id.idType == UUID && iface in o.interfaces && Property(o, iface, "Uuid").Some?
       && Property(o, iface, "Uuid").value.VStr? {
      var s := Property(o, iface, "Uuid").value.s;
      if UuidFromHex(s) == Some(id.value.uuid) {
        assert s == UuidHex(id.value.uuid);
      }
      if s == UuidHex(id.value.uuid) {
        assert UuidFromHex(s).Some?;
        UuidHexInjective(UuidFromHex(s).value, id.value.uuid);
      }
    }
  }

  /** `Id.dbus_args()`. */
  function DbusArgs(id: Id): (r: map<string, string>)
    ensures r.Keys == {"id", "id_type"}
    ensures r["id"] == SelectionValue(id)
    ensures r["id_type"] == (if id.idType == NAME then "name" else "uuid")
  {
    if id.idType == NAME then map["id" := id.value.name, "id_type" := "name"]
    else map["id" := UuidHex(id.value.uuid), "id_type" := "uuid"]
  }

  /** How the daemon reads an `(id, id_type)` argument pair back. */
  function IdFromDbusArgs(kind: IdKind, args: map<string, string>): Option<Id> {
    if "id" !in args || "id_type" !in args then None
    else if args["id_type"] == "name" then MakeId(kind, NAME, NameValue(args["id"]))
    else if args["id_type"] == "uuid" then
      match UuidFromHex(args["id"])
      case Some(u) => MakeId(kind, UUID, UuidValue(u))
      case None => None
    else None
  }

  /** The D-Bus arguments identify the id they were made from. */
  lemma DbusArgsRoundTrip(id: Id)
    ensures IdFromDbusArgs(id.kind, DbusArgs(id)) == Some(id)
  {
    if id.idType == UUID {
      assert UuidFromHex(UuidHex(id.value.uuid)).Some?;
      UuidHexInjective(UuidFromHex(UuidHex(id.value.uuid)).value, id.value.uuid);
    }
  }

  /** `str(PoolId)` and `str(FilesystemId)`. */
  function IdToString(id: Id): (r: string)
    ensures StartsWith(r, if id.kind == PoolKind then "pool with " else "filesystem with ")
    ensures r == (if id.kind == PoolKind then "pool with " else "filesystem with ")
                 + id.idType.ToString() + " " + id.value.ToString()
  {
    var prefix := if id.kind == PoolKind then "pool with " else "filesystem with ";
    var r := prefix + id.idType.ToString() + " " + id.value.ToString();
    assert r[..|prefix|] == prefix;
    r
  }

  /** The rendering identifies the id: its kind, type and value can be read back from it. */
  lemma IdToStringInjective(a: Id, b: Id)
    ensures IdToString(a) == IdToString(b) <==> a == b
  {
    if IdToString(a) == IdToString(b) {
      var pa := if a.kind == PoolKind then "pool with " else "filesystem with ";
      var pb := if b.kind == PoolKind then "pool with " else "filesystem with ";
      assert IdToString(a)[0] == pa[0] && IdToString(b)[0] == pb[0];
      assert a.kind == b.kind;
      var ra := a.idType.ToString() + " " + a.value.ToString();
      var rb := b.idType.ToString() + " " + b.value.ToString();
      assert IdToString(a)[|pa|..] == ra && IdToString(b)[|pa|..] == rb;
      assert ra[0] == a.idType.ToString()[0] && rb[0] == b.idType.ToString()[0];
      assert a.idType == b.idType;
      var n := |a.idType.ToString()| + 1;
      assert ra[n..] == a.value.ToString() && rb[n..] == b.value.ToString();
      match a.value
      case NameValue(_) =>
      case UuidValue(u) => UuidStringInjective(u, b.value.uuid);
    }
  }

  lemma IdToStringExamples()
    ensures IdToString(RawId(PoolKind, NAME, NameValue("poolname"))) == "pool with name poolname"
    ensures IdToString(RawId(FilesystemKind, NAME, NameValue("fsname"))) == "filesystem with name fsname"
  {
  }

  /** The error `from_parser_namespace` raises when an id was required. */
  datatype NamespaceError = IdRequired

  /**
   * `PoolId.from_parser_namespace` / `FilesystemId.from_parser_namespace`
   * on a namespace whose `uuid` and `name` attributes hold the given values.
   */
  function FromParserNamespace(kind: IdKind, uuid: Option<Uuid>, name: Option<string>, required: bool)
    : (r: Result<Option<Id>, NamespaceError>)
    ensures uuid.Some? ==> r == Success(Some(RawId(kind, UUID, UuidValue(uuid.value))))
    ensures uuid.None? && name.Some? ==> r == Success(Some(RawId(kind, NAME, NameValue(name.value))))
    ensures uuid.None? && name.None? ==> (r.Failure? <==> required)
    ensures uuid.None? && name.None? && r.Success? ==> r.value.None?
  {
    if uuid.Some? then Success(Some(RawId(kind, UUID, UuidValue(uuid.value))))
    else if name.Some? then Success(Some(RawId(kind, NAME, NameValue(name.value))))
    else if required then Failure(IdRequired)
    else Success(None)
  }

  /**
   * `PoolId.stopped_pools_func()(uuid, info)`: whether the stopped pool with
   * key `key` and information `info` is the one the id selects.
   */
  function StoppedPoolsFunc(id: Id, key: string, info: map<string, Value>): bool {
    if id.idType == UUID then key == UuidHex(id.value.uuid)
    else "name" in info && info["name"] == VStr(id.value.name)
  }

  /**
   * A UUID id ignores the pool information and selects exactly the key that
   * denotes its UUID; a name id ignores the key and selects by the "name"
   * entry of the information.
   */
  lemma StoppedPoolsFuncSelects(id: Id, key: string, info: map<string, Value>)
    ensures id.idType == UUID ==> (StoppedPoolsFunc(id, key, info) <==> UuidFromHex(key) == Some(id.value.uuid))
    ensures id.idType == NAME ==>
      (StoppedPoolsFunc(id, key, info) <==> "name" in info && info["name"] == VStr(id.value.name))
  {
    if id.idType == UUID && UuidFromHex(key).Some? {
      UuidHexInjective(UuidFromHex(key).value, id.value.uuid);
    }
  }

  datatype EncryptionMethod = KEYRING | CLEVIS {
    function ToString(): string {
      match this
      case KEYRING => "keyring"
      case CLEVIS => "clevis"
    }
  }

  datatype UnlockMethod = UNLOCK_ANY | UNLOCK_CLEVIS | UNLOCK_KEYRING {
    function ToString(): string {
      match this
      case UNLOCK_ANY => "any"
      case UNLOCK_CLEVIS => "clevis"
      case UNLOCK_KEYRING => "keyring"
    }
  }

  /** `UnlockMethod.legacy_token_slot()`: the token slot a legacy pool uses for the method. */
  function LegacyTokenSlot(m: UnlockMethod): (r: nat)
    requires m != UNLOCK_ANY
    ensures r == 1 <==> m == UNLOCK_KEYRING
    ensures r == 2 <==> m == UNLOCK_CLEVIS
  {
    match m
    case UNLOCK_KEYRING => 1
    case UNLOCK_CLEVIS => 2
  }

  datatype Clevis = NBDE | TANG | TPM2 {
    function ToString(): string {
      match this
      case NBDE => "nbde"
      case TANG => "tang"
      case TPM2 => "tpm2"
    }
  }

  datatype IntegrityTagSpec = B0 | B32 | B512 {
    function ToString(): string {
      match this
      case B0 => "0b"
      case B32 => "32b"
      case B512 => "512b"
    }
  }

  datatype IntegrityOption = INTEGRITY_NO | PRE_ALLOCATE {
    function ToString(): string {
      match this
      case INTEGRITY_NO => "no"
      case PRE_ALLOCATE => "pre-allocate"
    }
  }

  /** `Clevis(s)`: the argparse type of the `--clevis` option. */
  function ClevisFromString(s: string): (r: Option<Clevis>)
    ensures r.Some? ==> r.value.ToString() == s
    ensures forall c: Clevis :: s == c.ToString() ==> r == Some(c)
  {
    if s == "nbde" then Some(NBDE) else if s == "tang" then Some(TANG)
    else if s == "tpm2" then Some(TPM2) else None
  }

  function UnlockMethodFromString(s: string): (r: Option<UnlockMethod>)
    ensures r.Some? ==> r.value.ToString() == s
    ensures forall m: UnlockMethod :: s == m.ToString() ==> r == Some(m)
  {
    if s == "any" then Some(UNLOCK_ANY) else if s == "clevis" then Some(UNLOCK_CLEVIS)
    else if s == "keyring" then Some(UNLOCK_KEYRING) else None
  }

  function EncryptionMethodFromString(s: string): (r: Option<EncryptionMethod>)
    ensures r.Some? ==> r.value.ToString() == s
    ensures forall m: EncryptionMethod :: s == m.ToString() ==> r == Some(m)
  {
    if s == "keyring" then Some(KEYRING) else if s == "clevis" then Some(CLEVIS) else None
  }

  function IntegrityTagSpecFromString(s: string): (r: Option<IntegrityTagSpec>)
    ensures r.Some? ==> r.value.ToString() == s
    ensures forall t: IntegrityTagSpec :: s == t.ToString() ==> r == Some(t)
  {
    if s == "0b" then Some(B0) else if s == "32b" then Some(B32)
    else if s == "512b" then Some(B512) else None
  }

  function IntegrityOptionFromString(s: string): (r: Option<IntegrityOption>)
    ensures r.Some? ==> r.value.ToString() == s
    ensures forall o: IntegrityOption :: s == o.ToString() ==> r == Some(o)
  {
    if s == "no" then Some(INTEGRITY_NO) else if s == "pre-allocate" then Some(PRE_ALLOCATE) else None
  }
}
