/**
 * `pool list` of `_actions/_list_pool.py`: the table of started pools, the
 * detail view of one started pool, and the table and detail view of
 * stopped pools.
 *
 * Started pools and their block devices come from a GetManagedObjects
 * snapshot; what the `MOPool` and `MODev` accessors read from an object,
 * together with the justbytes rendering of the size columns, is a
 * parameter. Stopped pools are the items of the `StoppedPools` property,
 * in dictionary order. The UUID formatter of the command line is a
 * parameter on UUID hex strings. Printing is left out: the results are the
 * table handed to `print_table` and the values the detail views print.
 */
module ListPool {
  import opened Wrappers
  import opened Text
  import opened ManagedObjects
  import opened ActionErrors
  import Sorting
  import ErrorCodes
  import Constants
  import ActionConstants
  import ActionUtils
  import Formatting

  type PoolErrorCode = ErrorCodes.PoolErrorCode

  /**
   * `_non_existent_or_inconsistent_to_str(value, ...)`: the inconsistency
   * string, the non-existence string, or the interpretation of the value.
   */
  function NonExistentOrInconsistentToStr<T>(value: ActionUtils.EncryptionInfo<T>, inconsistentStr: string,
                                             nonExistentStr: string, interp: T -> string): (r: string)
    ensures !value.IsConsistent() ==> r == inconsistentStr
    ensures value.IsConsistent() && value.value.None? ==> r == nonExistentStr
    ensures value.IsConsistent() && value.value.Some? ==> r == interp(value.value.value)
  {
    match value
    case Inconsistent(_) => inconsistentStr
    case Consistent(None) => nonExistentStr
    case Consistent(Some(v)) => interp(v)
  }

  /** The default strings of `_non_existent_or_inconsistent_to_str`. */
  const INCONSISTENT: string := "inconsistent"
  const NON_EXISTENT: string := "N/A"
  const UNENCRYPTED: string := "unencrypted"

  function Identity(s: string): string {
    s
  }

  // ---------------------------------------------------------------------
  // Alerts

  function Render(c: PoolErrorCode): string {
    c.ToString()
  }

  /** `str(code) for code in codes`. */
  function CodeStrings(codes: seq<PoolErrorCode>): (r: seq<string>)
    ensures |r| == |codes| && forall i :: 0 <= i < |codes| ==> r[i] == codes[i].ToString()
  {
    Sorting.Map(codes, Render)
  }

  /** A string as a one-element sort key. */
  function StringKey(s: string): seq<string> {
    [s]
  }

  /**
   * `Default.alert_string(codes)`: the string forms sorted and joined by
   * ", "; empty exactly when there are no codes.
   */
  function AlertString(codes: seq<PoolErrorCode>): (r: string)
    ensures exists s ::
              Sorting.SortedBy(s, StringKey) && multiset(s) == multiset(CodeStrings(codes)) && r == Join(", ", s)
    ensures r == "" <==> |codes| == 0
    ensures |codes| == 1 ==> r == codes[0].ToString()
  {
    var sorted := Sorting.SortBy(CodeStrings(codes), StringKey);
    if |codes| > 0 then
      assert sorted[0] in multiset(CodeStrings(codes));
      JoinHead(", ", sorted);
      Join(", ", sorted)
    else Join(", ", sorted)
  }

  lemma JoinHead(sep: string, parts: seq<string>)
    requires |parts| > 0
    ensures |Join(sep, parts)| >= |parts[0]|
  {
  }

  /** The alert string does not depend on the order the codes come in. */
  lemma AlertStringOrderFree(a: seq<PoolErrorCode>, b: seq<PoolErrorCode>)
    requires multiset(a) == multiset(b)
    ensures AlertString(a) == AlertString(b)
  {
    Sorting.MapMultiset(a, b, Render);
    var sa := Sorting.SortBy(CodeStrings(a), StringKey);
    var sb := Sorting.SortBy(CodeStrings(b), StringKey);
    Sorting.SortedUnique(sa, sb, StringKey);
  }

  /** `Default.alert_summary(codes)`: one line per code, in order. */
  function AlertSummary(codes: seq<PoolErrorCode>): (r: seq<string>)
    ensures |r| == |codes|
    ensures forall i :: 0 <= i < |codes| ==> r[i] == codes[i].ToString() + ": " + codes[i].Summarize()
  {
    seq(|codes|, i requires 0 <= i < |codes| => codes[i].ToString() + ": " + codes[i].Summarize())
  }

  /**
   * `Default.alert_codes(mopool)`: the maintenance codes of the pool's
   * action availability, then `NO_ALLOC_SPACE` when the pool has no space
   * left to allocate.
   */
  function AlertCodes(availabilityCodes: seq<PoolErrorCode>, noAllocSpace: bool): (r: seq<PoolErrorCode>)
    ensures |r| == |availabilityCodes| + (if noAllocSpace then 1 else 0)
    ensures r[..|availabilityCodes|] == availabilityCodes
    ensures noAllocSpace ==> r[|r| - 1] == ErrorCodes.NO_ALLOC_SPACE
  {
    availabilityCodes + (if noAllocSpace then [ErrorCodes.NO_ALLOC_SPACE] else [])
  }

  /** What `MODev` reads for the size check: the pool, the recorded size, and the `(valid, size)` observation. */
  datatype DevSizes = DevSizes(pool: string, totalPhysicalSize: nat, newPhysicalSize: (bool, nat))

  /** `get_property(modev.NewPhysicalSize(), Range, size)`: the observed size, defaulting to the recorded one. */
  function ObservedSize(d: DevSizes): nat {
    if d.newPhysicalSize.0 then d.newPhysicalSize.1 else d.totalPhysicalSize
  }

  /**
   * `Default._pools_with_changed_devs(devs)`: the pools with a device that
   * grew, and those with a device that shrank; a pool can be in both.
   */
  function PoolsWithChangedDevs(devs: seq<DevSizes>): (r: (set<string>, set<string>))
    ensures forall p :: p in r.0 <==>
      exists i :: 0 <= i < |devs| && devs[i].pool == p && ObservedSize(devs[i]) > devs[i].totalPhysicalSize
    ensures forall p :: p in r.1 <==>
      exists i :: 0 <= i < |devs| && devs[i].pool == p && ObservedSize(devs[i]) < devs[i].totalPhysicalSize
  {
    if |devs| == 0 then ({}, {})
    else
      var (increased, decreased) := PoolsWithChangedDevs(devs[1..]);
      var d := devs[0];
      assert forall i :: 1 <= i < |devs| ==> devs[i] == devs[1..][i - 1];
      (if ObservedSize(d) > d.totalPhysicalSize then increased + {d.pool} else increased,
       if ObservedSize(d) < d.totalPhysicalSize then decreased + {d.pool} else decreased)
  }

  /** Devices that report no new size never mark their pool as changed. */
  lemma UnobservedIsUnchanged(devs: seq<DevSizes>)
    requires forall i :: 0 <= i < |devs| ==> !devs[i].newPhysicalSize.0
    ensures PoolsWithChangedDevs(devs) == ({}, {})
  {
    var r := PoolsWithChangedDevs(devs);
    assert forall p :: p !in r.0;
    assert forall p :: p !in r.1;
  }

  /**
   * `Default._from_sets(path, increased, decreased)`: the size-change codes
   * of one pool, an increase before a decrease.
   */
  function FromSets(path: string, increased: set<string>, decreased: set<string>): (r: seq<PoolErrorCode>)
    ensures ErrorCodes.DEVICE_SIZE_INCREASED in r <==> path in increased
    ensures ErrorCodes.DEVICE_SIZE_DECREASED in r <==> path in decreased
    ensures |r| == (if path in increased then 1 else 0) + (if path in decreased then 1 else 0)
    ensures forall i :: 0 <= i < |r| ==> r[i].Class() == ErrorCodes.PoolDeviceSizeChangeCode
    ensures |r| == 2 ==> r[0] == ErrorCodes.DEVICE_SIZE_INCREASED
  {
    if path in increased && path in decreased then
      [ErrorCodes.DEVICE_SIZE_INCREASED, ErrorCodes.DEVICE_SIZE_DECREASED]
    else if path in increased then [ErrorCodes.DEVICE_SIZE_INCREASED]
    else if path in decreased then [ErrorCodes.DEVICE_SIZE_DECREASED]
    else []
  }

  // ---------------------------------------------------------------------
  // The properties column

  /** A pool flag as `gen_string` sees it: a D-Bus Boolean, true or false, or something else. */
  datatype FlagState = FlagTrue | FlagFalse | FlagUnknown {
    function Prefix(): (r: string)
      ensures |r| == 1
    {
      match this
      case FlagTrue => " "
      case FlagFalse => "~"
      case FlagUnknown => "?"
    }
  }

  function FlagStateOf(v: Value): FlagState {
    if !v.VBool? then FlagUnknown else if v.b then FlagTrue else FlagFalse
  }

  /**
   * `gen_string(has_property, code)`: the code behind a one-character
   * prefix, " " for a true D-Bus Boolean, "~" for a false one and "?" for
   * anything that is not a Boolean.
   */
  function GenString(v: Value, code: string): (r: string)
    ensures |r| == |code| + 1 && r[1..] == code
    ensures r[0] == (if v == VBool(true) then ' ' else if v == VBool(false) then '~' else '?')
  {
    FlagStateOf(v).Prefix() + code
  }

  /** `properties_string(mopool)`: the cache, encryption and overprovisioning flags, in that order. */
  function PropertiesString(hasCache: Value, encrypted: Value, overprovisioning: Value): (r: string)
    ensures |r| == 11 && r[1] == 'C' && r[2] == 'a' && r[5] == 'C' && r[6] == 'r' && r[9] == 'O' && r[10] == 'p'
    ensures r[3] == ',' && r[7] == ','
    ensures r == Join(",", [GenString(hasCache, "Ca"), GenString(encrypted, "Cr"), GenString(overprovisioning, "Op")])
  {
    var parts := [GenString(hasCache, "Ca"), GenString(encrypted, "Cr"), GenString(overprovisioning, "Op")];
    JoinThree(",", parts);
    parts[0] + "," + parts[1] + "," + parts[2]
  }

  lemma JoinThree(sep: string, parts: seq<string>)
    requires |parts| == 3
    ensures Join(sep, parts) == parts[0] + sep + parts[1] + sep + parts[2]
  {
    assert parts == [parts[0]] + [parts[1], parts[2]];
    JoinCons(sep, parts[0], [parts[1], parts[2]]);
    assert [parts[1], parts[2]] == [parts[1]] + [parts[2]];
    JoinCons(sep, parts[1], [parts[2]]);
  }

  /** The properties string tells apart exactly the flag states `gen_string` distinguishes. */
  lemma PropertiesStringInjective(a: Value, b: Value, c: Value, x: Value, y: Value, z: Value)
    ensures PropertiesString(a, b, c) == PropertiesString(x, y, z)
      <==> FlagStateOf(a) == FlagStateOf(x) && FlagStateOf(b) == FlagStateOf(y) && FlagStateOf(c) == FlagStateOf(z)
  {
    var p := PropertiesString(a, b, c);
    var q := PropertiesString(x, y, z);
    PropertiesPrefixes(a, b, c);
    PropertiesPrefixes(x, y, z);
    if FlagStateOf(a) == FlagStateOf(x) && FlagStateOf(b) == FlagStateOf(y) && FlagStateOf(c) == FlagStateOf(z) {
      assert p == q;
    }
  }

  /** Where each flag's prefix sits in the properties string. */
  lemma PropertiesPrefixes(a: Value, b: Value, c: Value)
    ensures var r := PropertiesString(a, b, c);
      [r[0]] == FlagStateOf(a).Prefix() && [r[4]] == FlagStateOf(b).Prefix() && [r[8]] == FlagStateOf(c).Prefix()
  {
    var parts := [GenString(a, "Ca"), GenString(b, "Cr"), GenString(c, "Op")];
    JoinThree(",", parts);
  }

  // ---------------------------------------------------------------------
  // Started pools

  /**
   * What the `MOPool` accessors read from a pool object, with the rendered
   * total/used/free cell and the maintenance codes of its action
   * availability.
   */
  datatype PoolView = PoolView(
    name: string,
    uuid: string,
    sizeTriple: string,
    hasCache: Value,
    encrypted: Value,
    overprovisioning: Value,
    availabilityCodes: seq<PoolErrorCode>,
    noAllocSpace: bool)

  /** The headings, given the total/used/free heading, and the alignment of the started pools' table. */
  function DefaultHeadings(totalUsedFree: string): seq<string> {
    ["Name", totalUsedFree, "Properties", "UUID", "Alerts"]
  }

  const DEFAULT_ALIGNMENT: seq<Formatting.Alignment> :=
    [Formatting.LEFT, Formatting.RIGHT, Formatting.RIGHT, Formatting.RIGHT, Formatting.LEFT]

  /** One row of the started pools' table; `DefaultRowCells` states its computed cells. */
  function DefaultRow(path: string, v: PoolView, increased: set<string>, decreased: set<string>,
                      uuidFormatter: string -> string): (r: seq<string>)
    ensures |r| == 5 && r[0] == v.name && r[1] == v.sizeTriple
    ensures r[3] == uuidFormatter(v.uuid)
  {
    [v.name, v.sizeTriple, PropertiesString(v.hasCache, v.encrypted, v.overprovisioning), uuidFormatter(v.uuid),
     AlertString(AlertCodes(v.availabilityCodes, v.noAllocSpace) + FromSets(path, increased, decreased))]
  }

  /**
   * The computed cells of a started pool's row: the properties string of
   * its three flags and the alert string of its availability, allocation
   * and size-change codes.
   */
  lemma DefaultRowCells(path: string, v: PoolView, increased: set<string>, decreased: set<string>,
                        uuidFormatter: string -> string)
    ensures var r := DefaultRow(path, v, increased, decreased, uuidFormatter);
      && r[2] == PropertiesString(v.hasCache, v.encrypted, v.overprovisioning)
      && r[4] == AlertString(AlertCodes(v.availabilityCodes, v.noAllocSpace) + FromSets(path, increased, decreased))
  {
  }

  /** A row's sort key: its first cell. */
  function NameKey(row: seq<string>): seq<string> {
    if |row| == 0 then [] else [row[0]]
  }

  function DevSizesOf(devs: Snapshot, sizes: MObject -> DevSizes): (r: seq<DevSizes>)
    ensures |r| == |devs| && forall i :: 0 <= i < |devs| ==> r[i] == sizes(devs[i])
  {
    seq(|devs|, i requires 0 <= i < |devs| => sizes(devs[i]))
  }

  function DefaultRows(pools: Snapshot, view: MObject -> PoolView, changed: (set<string>, set<string>),
                       uuidFormatter: string -> string): (r: seq<seq<string>>)
    ensures |r| == |pools|
    ensures forall i :: 0 <= i < |pools| ==> r[i] == DefaultRow(pools[i].path, view(pools[i]), changed.0, changed.1, uuidFormatter)
  {
    seq(|pools|, i requires 0 <= i < |pools| => DefaultRow(pools[i].path, view(pools[i]), changed.0, changed.1, uuidFormatter))
  }

  /**
   * `Default.list_pools` without a selection: one row per pool of the
   * snapshot, sorted by name (rows of equal name keep their order), with the size-change alerts of all
   * block devices of the snapshot.
   */
  function DefaultTable(mos: Snapshot, view: MObject -> PoolView, sizes: MObject -> DevSizes,
                        uuidFormatter: string -> string, totalUsedFree: string): (r: Formatting.Table)
    ensures r.headings == DefaultHeadings(totalUsedFree) && r.alignments == DEFAULT_ALIGNMENT
    ensures |r.rows| == |Search(mos, ActionConstants.POOL_INTERFACE, map[])|
    ensures Formatting.Rectangular(r.rows, |r.headings|)
    ensures Sorting.SortedBy(r.rows, NameKey)
    ensures forall i, j :: 0 <= i < j < |r.rows| ==> Sorting.StrLe(r.rows[i][0], r.rows[j][0])
    ensures var changed := PoolsWithChangedDevs(DevSizesOf(Search(mos, ActionConstants.BLOCKDEV_INTERFACE, map[]), sizes));
      multiset(r.rows) == multiset(DefaultRows(Search(mos, ActionConstants.POOL_INTERFACE, map[]), view, changed, uuidFormatter))
    ensures var changed := PoolsWithChangedDevs(DevSizesOf(Search(mos, ActionConstants.BLOCKDEV_INTERFACE, map[]), sizes));
      var unsorted := DefaultRows(Search(mos, ActionConstants.POOL_INTERFACE, map[]), view, changed, uuidFormatter);
      forall k :: Sorting.KeyFilter(r.rows, NameKey, k) == Sorting.KeyFilter(unsorted, NameKey, k)
  {
    var pools := Search(mos, ActionConstants.POOL_INTERFACE, map[]);
    var changed := PoolsWithChangedDevs(DevSizesOf(Search(mos, ActionConstants.BLOCKDEV_INTERFACE, map[]), sizes));
    var unsorted := DefaultRows(pools, view, changed, uuidFormatter);
    var rows := Sorting.SortBy(unsorted, NameKey);
    RowsKeepWidth(unsorted, rows, 5);
    SortedByName(rows);
    assert forall k :: Sorting.KeyFilter(rows, NameKey, k) == Sorting.KeyFilter(unsorted, NameKey, k) by {
      forall k ensures Sorting.KeyFilter(rows, NameKey, k) == Sorting.KeyFilter(unsorted, NameKey, k) {
        Sorting.SortByStable(unsorted, NameKey, k);
      }
    }
    Formatting.Table(DefaultHeadings(totalUsedFree), rows, DEFAULT_ALIGNMENT)
  }

  /** A permutation of rows of one width has rows of that width. */
  lemma RowsKeepWidth(unsorted: seq<seq<string>>, rows: seq<seq<string>>, width: nat)
    requires forall i :: 0 <= i < |unsorted| ==> |unsorted[i]| == width
    requires multiset(rows) == multiset(unsorted)
    ensures Formatting.Rectangular(rows, width)
  {
    forall i | 0 <= i < |rows| ensures |rows[i]| == width {
      assert rows[i] in multiset(unsorted);
    }
  }

  /** Rows sorted by their name key are in name order. */
  lemma SortedByName(rows: seq<seq<string>>)
    requires Sorting.SortedBy(rows, NameKey)
    requires forall i :: 0 <= i < |rows| ==> |rows[i]| > 0
    ensures forall i, j :: 0 <= i < j < |rows| ==> Sorting.StrLe(rows[i][0], rows[j][0])
  {
    forall i, j | 0 <= i < j < |rows| ensures Sorting.StrLe(rows[i][0], rows[j][0]) {
      assert Sorting.KeyLe(NameKey(rows[i]), NameKey(rows[j]));
      Sorting.StrLeTotal(rows[i][0], rows[j][0]);
    }
  }

  /** Every pool of the snapshot has its row in the table. */
  lemma DefaultTableHasEveryPool(mos: Snapshot, view: MObject -> PoolView, sizes: MObject -> DevSizes,
                                 uuidFormatter: string -> string, totalUsedFree: string, o: MObject)
    requires o in mos && ActionConstants.POOL_INTERFACE in o.interfaces
    ensures var changed := PoolsWithChangedDevs(DevSizesOf(Search(mos, ActionConstants.BLOCKDEV_INTERFACE, map[]), sizes));
      DefaultRow(o.path, view(o), changed.0, changed.1, uuidFormatter)
        in DefaultTable(mos, view, sizes, uuidFormatter, totalUsedFree).rows
  {
    var pools := Search(mos, ActionConstants.POOL_INTERFACE, map[]);
    var changed := PoolsWithChangedDevs(DevSizesOf(Search(mos, ActionConstants.BLOCKDEV_INTERFACE, map[]), sizes));
    assert o in pools;
    var i :| 0 <= i < |pools| && pools[i] == o;
    var unsorted := DefaultRows(pools, view, changed, uuidFormatter);
    assert unsorted[i] in multiset(unsorted);
  }

  /**
   * `Default.list_pools` with a selection: the uniquely selected pool and
   * the alert codes its detail view summarises, the size-change codes
   * coming from its own block devices only.
   */
  function DefaultDetail(mos: Snapshot, id: Constants.Id, view: MObject -> PoolView, sizes: MObject -> DevSizes)
    : (r: Result<(MObject, seq<PoolErrorCode>), ActionError>)
    ensures r.Success? <==> |Search(mos, ActionConstants.POOL_INTERFACE, Constants.ManagedObjectsKey(id))| == 1
    ensures r.Failure? ==> r.error.DbusLookup?
    ensures r.Success? ==> r.value.0 in mos
    ensures r.Success? ==> Matches(r.value.0, ActionConstants.POOL_INTERFACE, Constants.ManagedObjectsKey(id))
    ensures r.Success? ==>
      var pool := r.value.0;
      var devs := Search(mos, ActionConstants.BLOCKDEV_INTERFACE, map["Pool" := VStr(pool.path)]);
      var changed := PoolsWithChangedDevs(DevSizesOf(devs, sizes));
      r.value.1 == AlertCodes(view(pool).availabilityCodes, view(pool).noAllocSpace)
                   + FromSets(pool.path, changed.0, changed.1)
  {
    var pool :- UniqueObject(ActionConstants.POOL_INTERFACE, mos, Constants.ManagedObjectsKey(id));
    var devs := Search(mos, ActionConstants.BLOCKDEV_INTERFACE, map["Pool" := VStr(pool.path)]);
    var changed := PoolsWithChangedDevs(DevSizesOf(devs, sizes));
    var v := view(pool);
    Success((pool, AlertCodes(v.availabilityCodes, v.noAllocSpace) + FromSets(pool.path, changed.0, changed.1)))
  }

  /**
   * The key description and Clevis lines of a started pool's detail view:
   * "unencrypted" unless the pool is encrypted.
   */
  function DefaultEncryptionStrings(encrypted: bool, keyDescription: ActionUtils.EncryptionInfo<string>,
                                    clevis: ActionUtils.EncryptionInfo<ActionUtils.ClevisBinding>,
                                    clevisToStr: ActionUtils.ClevisBinding -> string): (r: (string, string))
    ensures !encrypted ==> r == (UNENCRYPTED, UNENCRYPTED)
    ensures encrypted ==> r.0 == NonExistentOrInconsistentToStr(keyDescription, INCONSISTENT, NON_EXISTENT, Identity)
    ensures encrypted ==> r.1 == NonExistentOrInconsistentToStr(clevis, INCONSISTENT, NON_EXISTENT, clevisToStr)
  {
    if !encrypted then (UNENCRYPTED, UNENCRYPTED)
    else (NonExistentOrInconsistentToStr(keyDescription, INCONSISTENT, NON_EXISTENT, Identity),
          NonExistentOrInconsistentToStr(clevis, INCONSISTENT, NON_EXISTENT, clevisToStr))
  }

  // ---------------------------------------------------------------------
  // Stopped pools

  const UNAVAILABLE: string := "<UNAVAILABLE>"

  /** `Stopped._pool_name(maybe_value)`. */
  function StoppedName(name: Option<string>): (r: string)
    ensures name.Some? ==> r == name.value
    ensures name.None? ==> r == UNAVAILABLE
  {
    if name.None? then UNAVAILABLE else name.value
  }

  /** `key_description_str(value)` of the stopped pools' table and detail view. */
  function KeyDescriptionStr(value: Option<ActionUtils.EncryptionInfo<string>>): (r: string)
    ensures value.None? ==> r == UNENCRYPTED
    ensures value.Some? ==> r == NonExistentOrInconsistentToStr(value.value, INCONSISTENT, NON_EXISTENT, Identity)
  {
    if value.None? then UNENCRYPTED else NonExistentOrInconsistentToStr(value.value, INCONSISTENT, NON_EXISTENT, Identity)
  }

  function Present(b: ActionUtils.ClevisBinding): string {
    "present"
  }

  /** `clevis_str(value)` of the stopped pools' table: a binding shows only as "present". */
  function ClevisStr(value: Option<ActionUtils.EncryptionInfo<ActionUtils.ClevisBinding>>): (r: string)
    ensures value.None? ==> r == UNENCRYPTED
    ensures value.Some? && !value.value.IsConsistent() ==> r == INCONSISTENT
    ensures value.Some? && value.value.IsConsistent() ==> r == (if value.value.value.Some? then "present" else NON_EXISTENT)
  {
    if value.None? then UNENCRYPTED else NonExistentOrInconsistentToStr(value.value, INCONSISTENT, NON_EXISTENT, Present)
  }

  const STOPPED_HEADINGS: seq<string> := ["Name", "UUID", "# Devices", "Key Description", "Clevis"]

  const STOPPED_ALIGNMENT: seq<Formatting.Alignment> :=
    [Formatting.LEFT, Formatting.LEFT, Formatting.RIGHT, Formatting.LEFT, Formatting.LEFT]

  /** One row of the stopped pools' table. */
  function StoppedRow(key: string, sp: ActionUtils.StoppedPool, uuidFormatter: string -> string): (r: seq<string>)
    ensures |r| == 5 && r[0] == StoppedName(sp.name) && r[1] == uuidFormatter(key)
    ensures Canonical(r[2]) && DecimalValue(r[2]) == |sp.devs|
    ensures r[3] == KeyDescriptionStr(sp.keyDescription) && r[4] == ClevisStr(sp.clevisInfo)
  {
    [StoppedName(sp.name), uuidFormatter(key), NatToDecimal(|sp.devs|), KeyDescriptionStr(sp.keyDescription),
     ClevisStr(sp.clevisInfo)]
  }

  /** `StoppedPool(info)` for every item; the first malformed one is the error. */
  function DecodeAll(stopped: seq<(string, map<string, Value>)>): (r: Result<seq<(string, ActionUtils.StoppedPool)>, ActionError>)
    ensures r.Success? <==> forall i :: 0 <= i < |stopped| ==> ActionUtils.DecodeStoppedPool(VDict(stopped[i].1)).Success?
    ensures r.Success? ==> |r.value| == |stopped|
    ensures r.Success? ==> forall i :: 0 <= i < |stopped| ==>
      r.value[i] == (stopped[i].0, ActionUtils.DecodeStoppedPool(VDict(stopped[i].1)).value)
  {
    if |stopped| == 0 then Success([])
    else
      match ActionUtils.DecodeStoppedPool(VDict(stopped[0].1))
      case Failure(e) => Failure(Decode(e))
      case Success(sp) =>
        assert forall i :: 1 <= i < |stopped| ==> stopped[i] == stopped[1..][i - 1];
        var rest :- DecodeAll(stopped[1..]);
        Success([(stopped[0].0, sp)] + rest)
  }

  function StoppedRows(pools: seq<(string, ActionUtils.StoppedPool)>, uuidFormatter: string -> string)
    : (r: seq<seq<string>>)
    ensures |r| == |pools| && forall i :: 0 <= i < |pools| ==> r[i] == StoppedRow(pools[i].0, pools[i].1, uuidFormatter)
  {
    seq(|pools|, i requires 0 <= i < |pools| => StoppedRow(pools[i].0, pools[i].1, uuidFormatter))
  }

  /** `Stopped.list_pools` without a selection: one row per stopped pool, sorted by name; rows of equal name keep their order. */
  function StoppedTable(stopped: seq<(string, map<string, Value>)>, uuidFormatter: string -> string)
    : (r: Result<Formatting.Table, ActionError>)
    ensures r.Success? <==> DecodeAll(stopped).Success?
    ensures r.Success? ==> r.value.headings == STOPPED_HEADINGS && r.value.alignments == STOPPED_ALIGNMENT
    ensures r.Success? ==> |r.value.rows| == |stopped| && Formatting.Rectangular(r.value.rows, 5)
    ensures r.Success? ==> Sorting.SortedBy(r.value.rows, NameKey)
    ensures r.Success? ==> multiset(r.value.rows) == multiset(StoppedRows(DecodeAll(stopped).value, uuidFormatter))
    ensures r.Success? ==> forall k ::
      Sorting.KeyFilter(r.value.rows, NameKey, k) == Sorting.KeyFilter(StoppedRows(DecodeAll(stopped).value, uuidFormatter), NameKey, k)
  {
    var pools :- DecodeAll(stopped);
    var unsorted := StoppedRows(pools, uuidFormatter);
    var rows := Sorting.SortBy(unsorted, NameKey);
    RowsKeepWidth(unsorted, rows, 5);
    assert forall k :: Sorting.KeyFilter(rows, NameKey, k) == Sorting.KeyFilter(unsorted, NameKey, k) by {
      forall k ensures Sorting.KeyFilter(rows, NameKey, k) == Sorting.KeyFilter(unsorted, NameKey, k) {
        Sorting.SortByStable(unsorted, NameKey, k);
      }
    }
    Success(Formatting.Table(STOPPED_HEADINGS, rows, STOPPED_ALIGNMENT))
  }

  /** `next(... if selection_func(uuid, info))`: the first selected item. */
  function FirstStopped(stopped: seq<(string, map<string, Value>)>, id: Constants.Id): (r: Option<nat>)
    ensures r.Some? ==> r.value < |stopped| && Constants.StoppedPoolsFunc(id, stopped[r.value].0, stopped[r.value].1)
    ensures r.Some? ==> forall j :: 0 <= j < r.value ==> !Constants.StoppedPoolsFunc(id, stopped[j].0, stopped[j].1)
    ensures r.None? <==> forall j :: 0 <= j < |stopped| ==> !Constants.StoppedPoolsFunc(id, stopped[j].0, stopped[j].1)
  {
    if |stopped| == 0 then None
    else if Constants.StoppedPoolsFunc(id, stopped[0].0, stopped[0].1) then Some(0)
    else
      match FirstStopped(stopped[1..], id)
      case None => None
      case Some(i) => Some(i + 1)
  }

  /**
   * `Stopped.list_pools` with a selection: the first selected stopped
   * pool, decoded; none selected is a not-found error naming the id.
   */
  function StoppedDetail(stopped: seq<(string, map<string, Value>)>, id: Constants.Id)
    : (r: Result<(string, ActionUtils.StoppedPool), ActionError>)
    ensures FirstStopped(stopped, id).None? ==> r == Failure(ResourceNotFound("list", Constants.IdToString(id)))
    ensures r.Success? ==> FirstStopped(stopped, id).Some?
    ensures r.Success? ==> var i := FirstStopped(stopped, id).value;
      r.value.0 == stopped[i].0 && ActionUtils.DecodeStoppedPool(VDict(stopped[i].1)) == Success(r.value.1)
  {
    match FirstStopped(stopped, id)
    case None => Failure(ResourceNotFound("list", Constants.IdToString(id)))
    case Some(i) =>
      match ActionUtils.DecodeStoppedPool(VDict(stopped[i].1))
      case Failure(e) => Failure(Decode(e))
      case Success(sp) => Success((stopped[i].0, sp))
  }

  /** The lines of `Stopped._print_detail_view`, `_clevis_to_str` given. */
  function StoppedDetailLines(key: string, sp: ActionUtils.StoppedPool, uuidFormatter: string -> string,
                              clevisToStr: ActionUtils.ClevisBinding -> string): (r: seq<string>)
    ensures |r| == 5 + |sp.devs|
    ensures r[0] == "Name: " + StoppedName(sp.name) && r[1] == "UUID: " + uuidFormatter(key)
    ensures r[2] == "Key Description: " + KeyDescriptionStr(sp.keyDescription)
    ensures sp.clevisInfo.None? ==> r[3] == "Clevis Configuration: " + UNENCRYPTED
    ensures sp.clevisInfo.Some? && !sp.clevisInfo.value.IsConsistent() ==> r[3] == "Clevis Configuration: " + INCONSISTENT
    ensures sp.clevisInfo.Some? && sp.clevisInfo.value == ActionUtils.Consistent(None) ==>
      r[3] == "Clevis Configuration: " + NON_EXISTENT
    ensures sp.clevisInfo.Some? && sp.clevisInfo.value.Consistent? && sp.clevisInfo.value.value.Some? ==>
      r[3] == "Clevis Configuration: " + clevisToStr(sp.clevisInfo.value.value.value)
    ensures r[4] == "Devices:"
    ensures forall i :: 0 <= i < |sp.devs| ==>
      r[5 + i] == uuidFormatter(UuidHex(sp.devs[i].uuid)) + "  " + sp.devs[i].devnode
  {
    var clevis := if sp.clevisInfo.None? then UNENCRYPTED
                  else NonExistentOrInconsistentToStr(sp.clevisInfo.value, INCONSISTENT, NON_EXISTENT, clevisToStr);
    ["Name: " + StoppedName(sp.name), "UUID: " + uuidFormatter(key),
     "Key Description: " + KeyDescriptionStr(sp.keyDescription), "Clevis Configuration: " + clevis, "Devices:"]
      + seq(|sp.devs|, i requires 0 <= i < |sp.devs| => uuidFormatter(UuidHex(sp.devs[i].uuid)) + "  " + sp.devs[i].devnode)
  }
}
