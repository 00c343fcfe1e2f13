/**
 * `_actions/_list_filesystem.py`: `stratis filesystem list`, as a table of
 * every filesystem (optionally of one pool) or the detail view of one
 * filesystem of one pool.
 *
 * The `MOFilesystem` accessors other than `Pool()` are the parameter
 * `view`; `MOPool(info).Name()` is the parameter `nameOf`. `Pool()` is
 * read from the object's properties, so that the search by pool and the
 * pool-name lookup of the rows speak about the same value. The justbytes
 * rendering of sizes (`size_triple`, `str(Range)`) and the date
 * formatting are parameters too.
 */
module ListFilesystem {
  import opened Wrappers
  import opened ManagedObjects
  import opened ActionErrors
  import Constants
  import ActionConstants
  import Data
  import Formatting
  import Sorting

  /** What the `MOFilesystem` accessors of one filesystem return. */
  datatype FsView = FsView(
    name: string,
    uuid: string,
    devnode: string,
    size: nat,
      /** `get_property(fs.Used(), Range, None)`. */
    used: Option<nat>,
      /** `get_property(fs.SizeLimit(), Range, None)`. */
    sizeLimit: Option<nat>,
    created: string,
      /** The origin's UUID when `fs.Origin()` is valid. */
    origin: Option<string>,
    mergeScheduled: bool)

  /** The size renderings: `size_triple(total, used)` and `str(Range(n))`. */
  datatype SizeFormat = SizeFormat(sizeTriple: (nat, Option<nat>) -> string, rangeStr: nat -> string)

  /**
   * `mofilesystem.Pool()`: the object path of the filesystem's pool; a
   * missing or non-string value is the `KeyError` of the lookup it feeds.
   */
  function PoolPath(fs: MObject): (r: Result<string, ActionError>)
    ensures r.Success? <==> exists p :: Property(fs, ActionConstants.FILESYSTEM_INTERFACE, "Pool") == Some(VStr(p))
    ensures r.Success? ==> Property(fs, ActionConstants.FILESYSTEM_INTERFACE, "Pool") == Some(VStr(r.value))
    ensures r.Failure? ==> r.error == KeyError("Pool")
  {
    match Property(fs, ActionConstants.FILESYSTEM_INTERFACE, "Pool")
    case Some(VStr(p)) => Success(p)
    case _ => Failure(KeyError("Pool"))
  }

  /** The object paths of the objects. */
  function PathsOf(objects: Snapshot): set<string> {
    set o | o in objects :: o.path
  }

  /** No later object has the same path as the `i`th. */
  ghost predicate LastWithPath(objects: Snapshot, i: nat)
    requires i < |objects|
  {
    forall j :: i < j < |objects| ==> objects[j].path != objects[i].path
  }

  /**
   * `dict((path, MOPool(info).Name()) for path, info in pools)`: every
   * pool's path is a key, and a path's name is that of the last pool with
   * that path.
   */
  function PathToName(pools: Snapshot, nameOf: MObject -> string): (r: map<string, string>)
    ensures r.Keys == PathsOf(pools)
    ensures forall i :: 0 <= i < |pools| && LastWithPath(pools, i) ==> r[pools[i].path] == nameOf(pools[i])
  {
    if |pools| == 0 then map[]
    else
      var front := pools[..|pools| - 1];
      var last := pools[|pools| - 1];
      var r := PathToName(front, nameOf)[last.path := nameOf(last)];
      PathToNameStep(pools, nameOf, PathToName(front, nameOf));
      r
  }

  /** The last pool's entry overwrites, or adds to, the entries of those before it. */
  lemma PathToNameStep(pools: Snapshot, nameOf: MObject -> string, before: map<string, string>)
    requires |pools| > 0
    requires before.Keys == PathsOf(pools[..|pools| - 1])
    requires forall i :: 0 <= i < |pools| - 1 && LastWithPath(pools[..|pools| - 1], i)
                 ==> before[pools[i].path] == nameOf(pools[i])
    ensures before[pools[|pools| - 1].path := nameOf(pools[|pools| - 1])].Keys == PathsOf(pools)
    ensures forall i :: 0 <= i < |pools| && LastWithPath(pools, i)
                 ==> before[pools[|pools| - 1].path := nameOf(pools[|pools| - 1])][pools[i].path] == nameOf(pools[i])
  {
    var front := pools[..|pools| - 1];
    var last := pools[|pools| - 1];
    assert pools == front + [last];
    assert PathsOf(pools) == PathsOf(front) + {last.path} by {
      assert forall o :: o in pools <==> o in front || o == last;
    }
    forall i | 0 <= i < |pools| - 1 && LastWithPath(pools, i)
      ensures LastWithPath(front, i) && pools[i].path != last.path
    {
      assert front[i] == pools[i];
    }
  }

  /** The pool search `{"Name": pool_name}`. */
  function PoolProps(poolName: string): Props {
    map["Name" := VStr(poolName)]
  }

  /** `{"Pool": pool_object_path} | fs_id.managed_objects_key()`. */
  function FsProps(poolPath: string, fsId: Option<Constants.Id>): (r: Props)
    ensures "Pool" in r && r["Pool"] == VStr(poolPath)
    ensures fsId.None? ==> r.Keys == {"Pool"}
    ensures fsId.Some? ==> r.Keys == {"Pool", Constants.KeyProperty(fsId.value)}
  {
    map["Pool" := VStr(poolPath)] + (if fsId.None? then map[] else Constants.ManagedObjectsKey(fsId.value))
  }

  /** The pool-name lookup and the filesystems to list. */
  datatype Selection = Selection(pathToName: map<string, string>, filesystems: Snapshot)

  /**
   * The object selection of `list_filesystems`: without a pool every pool
   * and every filesystem; with one, the pool found by a unique search by
   * name, and the filesystems whose `Pool` is its path (and which carry the
   * id, when one is given, in which case exactly one must match).
   */
  function Select(mos: Snapshot, poolName: Option<string>, fsId: Option<Constants.Id>, nameOf: MObject -> string)
    : (r: Result<Selection, ActionError>)
    ensures poolName.None? && fsId.None? ==>
      r.Success? && r.value.filesystems == Search(mos, ActionConstants.FILESYSTEM_INTERFACE, map[])
    ensures poolName.None? && r.Success? ==>
      r.value.pathToName == PathToName(Search(mos, ActionConstants.POOL_INTERFACE, map[]), nameOf)
    ensures poolName.Some? && UniqueObject(ActionConstants.POOL_INTERFACE, mos, PoolProps(poolName.value)).Failure? ==>
      r == Failure(UniqueObject(ActionConstants.POOL_INTERFACE, mos, PoolProps(poolName.value)).error)
    ensures poolName.Some? && r.Success? ==>
      var pool := UniqueObject(ActionConstants.POOL_INTERFACE, mos, PoolProps(poolName.value));
      pool.Success? && r.value.pathToName == map[pool.value.path := nameOf(pool.value)]
      && forall o :: o in r.value.filesystems <==> o in mos && Matches(o, ActionConstants.FILESYSTEM_INTERFACE, FsProps(pool.value.path, fsId))
    ensures fsId.Some? && r.Success? ==> |r.value.filesystems| == 1
    ensures r.Failure? ==> r.error.DbusLookup?
  {
    if poolName.None? then
      var pools := Search(mos, ActionConstants.POOL_INTERFACE, map[]);
      var found :- Data.UniqueWrapper(ActionConstants.FILESYSTEM_INTERFACE, mos, map[], fsId.Some?)
        .MapFailure(e => DbusLookup(e));
      Success(Selection(PathToName(pools, nameOf), Listed(found)))
    else
      var pool :- UniqueObject(ActionConstants.POOL_INTERFACE, mos, PoolProps(poolName.value));
      var pools := Search(mos, ActionConstants.POOL_INTERFACE, PoolProps(poolName.value));
      SingleMatchIsPath(mos, ActionConstants.POOL_INTERFACE, PoolProps(poolName.value), pool);
      var props := FsProps(pool.path, fsId);
      var found :- Data.UniqueWrapper(ActionConstants.FILESYSTEM_INTERFACE, mos, props, fsId.Some?)
        .MapFailure(e => DbusLookup(e));
      Success(Selection(PathToName(pools, nameOf), Listed(found)))
  }

  /** The objects a query found, as a list. */
  function Listed(found: Data.Found): (r: Snapshot)
    ensures found.UniqueMatch? ==> r == [found.obj]
    ensures found.AllMatches? ==> r == found.objects
  {
    match found
    case AllMatches(objects) => objects
    case UniqueMatch(o) => [o]
  }

  /** A search with exactly one match consists of that match. */
  lemma SingleMatchIsPath(mos: Snapshot, iface: string, props: Props, o: MObject)
    requires |Search(mos, iface, props)| == 1
    requires o in mos && Matches(o, iface, props)
    ensures Search(mos, iface, props) == [o]
    ensures (set p | p in Search(mos, iface, props) :: p.path) == {o.path}
  {
    assert o in Search(mos, iface, props);
  }

  /** `filesystem_size_quartet`: the size triple, then the limit. */
  function Quartet(v: FsView, format: SizeFormat): (r: string)
    ensures v.sizeLimit.None? ==> r == format.sizeTriple(v.size, v.used) + " / None"
    ensures v.sizeLimit.Some? ==> r == format.sizeTriple(v.size, v.used) + " / " + format.rangeStr(v.sizeLimit.value)
  {
    format.sizeTriple(v.size, v.used) + " / " + (if v.sizeLimit.None? then "None" else format.rangeStr(v.sizeLimit.value))
  }

  /** One row of the table; the pool's name is looked up by the filesystem's `Pool` path. */
  function TableRow(fs: MObject, pathToName: map<string, string>, view: MObject -> FsView,
                    uuidFormatter: string -> string, format: SizeFormat): (r: Result<seq<string>, ActionError>)
    ensures r.Success? <==> PoolPath(fs).Success? && PoolPath(fs).value in pathToName
    ensures r.Success? ==> |r.value| == 5
    ensures r.Success? ==> r.value[0] == pathToName[PoolPath(fs).value] && r.value[1] == view(fs).name
    ensures r.Success? ==> r.value[2] == Quartet(view(fs), format)
    ensures r.Success? ==> r.value[3] == view(fs).devnode && r.value[4] == uuidFormatter(view(fs).uuid)
    ensures r.Failure? ==> r.error.KeyError?
  {
    var path :- PoolPath(fs);
    if path !in pathToName then Failure(KeyError(path))
    else
      var v := view(fs);
      Success([pathToName[path], v.name, Quartet(v, format), v.devnode, uuidFormatter(v.uuid)])
  }

  /**
   * The list comprehension of `Table.display`: the rows in listing order,
   * or the error of the first filesystem whose row cannot be built.
   */
  function TableRows(fss: Snapshot, pathToName: map<string, string>, view: MObject -> FsView,
                     uuidFormatter: string -> string, format: SizeFormat): (r: Result<seq<seq<string>>, ActionError>)
    ensures r.Success? <==> forall i :: 0 <= i < |fss| ==> TableRow(fss[i], pathToName, view, uuidFormatter, format).Success?
    ensures r.Success? ==> |r.value| == |fss|
    ensures r.Success? ==> forall i :: 0 <= i < |fss| ==> r.value[i] == TableRow(fss[i], pathToName, view, uuidFormatter, format).value
    ensures r.Failure? ==> exists i :: 0 <= i < |fss| && TableRow(fss[i], pathToName, view, uuidFormatter, format) == Failure(r.error)
  {
    if |fss| == 0 then Success([])
    else
      var row :- TableRow(fss[0], pathToName, view, uuidFormatter, format);
      var rest :- TableRows(fss[1..], pathToName, view, uuidFormatter, format);
      Success([row] + rest)
  }

  /** The sort key `(entry[0], entry[1])`: pool name, then filesystem name. */
  function PoolFsKey(row: seq<string>): seq<string> {
    if |row| < 2 then row else row[..2]
  }

  function Headings(totalUsedFree: string): seq<string> {
    ["Pool", "Filesystem", totalUsedFree + " / Limit", "Device", "UUID"]
  }

  const ALIGNMENT: seq<Formatting.Alignment> :=
    [Formatting.LEFT, Formatting.LEFT, Formatting.LEFT, Formatting.LEFT, Formatting.LEFT]

  /** Python's order on `(pool, filesystem)` pairs. */
  predicate PairLe(a: seq<string>, b: seq<string>)
    requires |a| >= 2 && |b| >= 2
  {
    Sorting.StrLt(a[0], b[0]) || (a[0] == b[0] && Sorting.StrLe(a[1], b[1]))
  }

  /**
   * `Table.display`: one left-aligned row per filesystem, sorted by pool
   * name and then filesystem name; rows of equal names keep their order.
   */
  function FsTable(fss: Snapshot, pathToName: map<string, string>, view: MObject -> FsView,
                   uuidFormatter: string -> string, format: SizeFormat, totalUsedFree: string)
    : (r: Result<Formatting.Table, ActionError>)
    ensures r.Success? <==> TableRows(fss, pathToName, view, uuidFormatter, format).Success?
    ensures r.Failure? ==> r == Failure(TableRows(fss, pathToName, view, uuidFormatter, format).error)
    ensures r.Success? ==> r.value.headings == Headings(totalUsedFree) && r.value.alignments == ALIGNMENT
    ensures r.Success? ==> Formatting.Rectangular(r.value.rows, 5)
    ensures r.Success? ==> multiset(r.value.rows) == multiset(TableRows(fss, pathToName, view, uuidFormatter, format).value)
    ensures r.Success? ==> forall i, j :: 0 <= i < j < |r.value.rows| ==> PairLe(r.value.rows[i], r.value.rows[j])
    ensures r.Success? ==> forall k :: Sorting.KeyFilter(r.value.rows, PoolFsKey, k)
                                       == Sorting.KeyFilter(TableRows(fss, pathToName, view, uuidFormatter, format).value, PoolFsKey, k)
  {
    var unsorted :- TableRows(fss, pathToName, view, uuidFormatter, format);
    var rows := Sorting.SortBy(unsorted, PoolFsKey);
    RowsOfFive(unsorted, rows);
    SortedByPair(rows);
    assert forall k :: Sorting.KeyFilter(rows, PoolFsKey, k) == Sorting.KeyFilter(unsorted, PoolFsKey, k) by {
      forall k ensures Sorting.KeyFilter(rows, PoolFsKey, k) == Sorting.KeyFilter(unsorted, PoolFsKey, k) {
        Sorting.SortByStable(unsorted, PoolFsKey, k);
      }
    }
    Success(Formatting.Table(Headings(totalUsedFree), rows, ALIGNMENT))
  }

  lemma RowsOfFive(unsorted: seq<seq<string>>, rows: seq<seq<string>>)
    requires forall i :: 0 <= i < |unsorted| ==> |unsorted[i]| == 5
    requires multiset(rows) == multiset(unsorted)
    ensures Formatting.Rectangular(rows, 5)
  {
    forall i | 0 <= i < |rows| ensures |rows[i]| == 5 {
      assert rows[i] in multiset(unsorted);
    }
  }

  /** Rows sorted by the pair key are in (pool, filesystem) order. */
  lemma SortedByPair(rows: seq<seq<string>>)
    requires Sorting.SortedBy(rows, PoolFsKey)
    requires Formatting.Rectangular(rows, 5)
    ensures forall i, j :: 0 <= i < j < |rows| ==> PairLe(rows[i], rows[j])
  {
    forall i, j | 0 <= i < j < |rows| ensures PairLe(rows[i], rows[j]) {
      var a := PoolFsKey(rows[i]);
      var b := PoolFsKey(rows[j]);
      assert a == [rows[i][0], rows[i][1]] && b == [rows[j][0], rows[j][1]];
      assert Sorting.KeyLe(a, b);
      if rows[i][0] == rows[j][0] {
        assert a[1..] == [rows[i][1]] && b[1..] == [rows[j][1]];
        assert Sorting.KeyLe([rows[i][1]], [rows[j][1]]);
        Sorting.StrLeTotal(rows[i][1], rows[i][1]);
      }
    }
  }

  /** The detail view of one filesystem, as printed. */
  datatype Detail = Detail(
    uuid: string,
    name: string,
    pool: string,
    devnode: string,
    created: string,
    origin: Option<string>,
      /** Shown only for a snapshot, that is, when there is an origin. */
    revertScheduled: Option<bool>,
    total: nat,
    used: nat,
    free: int,
    sizeLimit: Option<nat>)

  /**
   * `Detail.display`: the pool's name is looked up first, and then the size
   * library refuses `total - used` when the used size is unknown.
   */
  function DetailOf(fs: MObject, pathToName: map<string, string>, view: MObject -> FsView,
                    uuidFormatter: string -> string): (r: Result<Detail, ActionError>)
    ensures r.Success? <==> PoolPath(fs).Success? && PoolPath(fs).value in pathToName && view(fs).used.Some?
    ensures PoolPath(fs).Failure? ==> r == Failure(PoolPath(fs).error)
    ensures PoolPath(fs).Success? && PoolPath(fs).value !in pathToName ==> r == Failure(KeyError(PoolPath(fs).value))
    ensures PoolPath(fs).Success? && PoolPath(fs).value in pathToName && view(fs).used.None? ==>
      r == Failure(SizeArithmetic("total - used"))
    ensures r.Failure? ==> r.error.KeyError? || r.error.SizeArithmetic?
    ensures r.Success? ==> r.value.pool == pathToName[PoolPath(fs).value] && r.value.name == view(fs).name
    ensures r.Success? ==> r.value.uuid == uuidFormatter(view(fs).uuid)
    ensures r.Success? ==> r.value.free + r.value.used == r.value.total == view(fs).size
    ensures r.Success? ==> r.value.used == view(fs).used.value && r.value.sizeLimit == view(fs).sizeLimit
    ensures r.Success? ==> (r.value.origin.Some? <==> view(fs).origin.Some?)
    ensures r.Success? && r.value.origin.Some? ==> r.value.origin.value == uuidFormatter(view(fs).origin.value)
    ensures r.Success? ==> (r.value.revertScheduled.Some? <==> r.value.origin.Some?)
    ensures r.Success? && r.value.revertScheduled.Some? ==> r.value.revertScheduled.value == view(fs).mergeScheduled
  {
    var v := view(fs);
    var origin := if v.origin.Some? then Some(uuidFormatter(v.origin.value)) else None;
    var path :- PoolPath(fs);
    if path !in pathToName then Failure(KeyError(path))
    else if v.used.None? then Failure(SizeArithmetic("total - used"))
    else
      Success(Detail(uuidFormatter(v.uuid), v.name, pathToName[path], v.devnode, v.created, origin,
                     if origin.Some? then Some(v.mergeScheduled) else None,
                     v.size, v.used.value, v.size - v.used.value, v.sizeLimit))
  }

  /** What `stratis filesystem list` prints: a table or one filesystem's details. */
  datatype Listing = TableListing(table: Formatting.Table) | DetailListing(detail: Detail)

  /**
   * `list_filesystems(uuid_formatter, pool_name=..., fs_id=...)`: a
   * filesystem id is only accepted together with a pool name; the detail
   * view is chosen exactly when an id is given.
   */
  function ListFilesystems(mos: Snapshot, poolName: Option<string>, fsId: Option<Constants.Id>,
                           view: MObject -> FsView, nameOf: MObject -> string, uuidFormatter: string -> string,
                           format: SizeFormat, totalUsedFree: string): (r: Result<Listing, ActionError>)
    requires fsId.None? || poolName.Some?
    ensures r.Success? ==> (r.value.DetailListing? <==> fsId.Some?)
    ensures Select(mos, poolName, fsId, nameOf).Failure? ==> r == Failure(Select(mos, poolName, fsId, nameOf).error)
    ensures fsId.None? && Select(mos, poolName, fsId, nameOf).Success? ==>
      var s := Select(mos, poolName, fsId, nameOf).value;
      r == FsTable(s.filesystems, s.pathToName, view, uuidFormatter, format, totalUsedFree).MapSuccess(t => TableListing(t))
    ensures fsId.Some? && Select(mos, poolName, fsId, nameOf).Success? ==>
      var s := Select(mos, poolName, fsId, nameOf).value;
      r == DetailOf(s.filesystems[0], s.pathToName, view, uuidFormatter).MapSuccess(d => DetailListing(d))
  {
    var s :- Select(mos, poolName, fsId, nameOf);
    if fsId.None? then
      var t :- FsTable(s.filesystems, s.pathToName, view, uuidFormatter, format, totalUsedFree);
      Success(TableListing(t))
    else
      var d :- DetailOf(s.filesystems[0], s.pathToName, view, uuidFormatter);
      Success(DetailListing(d))
  }

  /**
   * Listing the filesystems of one pool never fails on the pool-name
   * lookup: every row names the selected pool.
   */
  lemma PoolListingNamesPool(mos: Snapshot, poolName: string, fsId: Option<Constants.Id>, nameOf: MObject -> string,
                             view: MObject -> FsView, uuidFormatter: string -> string, format: SizeFormat)
    requires Select(mos, Some(poolName), fsId, nameOf).Success?
    ensures var s := Select(mos, Some(poolName), fsId, nameOf).value;
      var pool := UniqueObject(ActionConstants.POOL_INTERFACE, mos, PoolProps(poolName)).value;
      forall fs :: fs in s.filesystems ==>
        TableRow(fs, s.pathToName, view, uuidFormatter, format).Success?
        && TableRow(fs, s.pathToName, view, uuidFormatter, format).value[0] == nameOf(pool)
    ensures var s := Select(mos, Some(poolName), fsId, nameOf).value;
      TableRows(s.filesystems, s.pathToName, view, uuidFormatter, format).Success?
    ensures var s := Select(mos, Some(poolName), fsId, nameOf).value;
      forall fs :: fs in s.filesystems ==> DetailOf(fs, s.pathToName, view, uuidFormatter).Success? || view(fs).used.None?
  {
    var s := Select(mos, Some(poolName), fsId, nameOf).value;
    var pool := UniqueObject(ActionConstants.POOL_INTERFACE, mos, PoolProps(poolName)).value;
    forall fs | fs in s.filesystems
      ensures PoolPath(fs) == Success(pool.path)
    {
      assert Matches(fs, ActionConstants.FILESYSTEM_INTERFACE, FsProps(pool.path, fsId));
    }
  }

  /**
   * Listing every filesystem succeeds exactly when each filesystem's pool
   * is a pool of the snapshot; the table then has one row per filesystem.
   */
  lemma AllFilesystemsListed(mos: Snapshot, nameOf: MObject -> string, view: MObject -> FsView,
                             uuidFormatter: string -> string, format: SizeFormat, totalUsedFree: string)
    ensures var r := ListFilesystems(mos, None, None, view, nameOf, uuidFormatter, format, totalUsedFree);
      r.Success? <==>
        forall fs :: fs in Search(mos, ActionConstants.FILESYSTEM_INTERFACE, map[]) ==>
          PoolPath(fs).Success? && PoolPath(fs).value in PathsOf(Search(mos, ActionConstants.POOL_INTERFACE, map[]))
    ensures var r := ListFilesystems(mos, None, None, view, nameOf, uuidFormatter, format, totalUsedFree);
      r.Success? ==> |r.value.table.rows| == |Search(mos, ActionConstants.FILESYSTEM_INTERFACE, map[])|
  {
    var fss := Search(mos, ActionConstants.FILESYSTEM_INTERFACE, map[]);
    var s := Select(mos, None, None, nameOf).value;
    var rows := TableRows(fss, s.pathToName, view, uuidFormatter, format);
    assert (forall i :: 0 <= i < |fss| ==> TableRow(fss[i], s.pathToName, view, uuidFormatter, format).Success?)
       <==> (forall fs :: fs in fss ==> TableRow(fs, s.pathToName, view, uuidFormatter, format).Success?);
    if rows.Success? {
      var t := FsTable(fss, s.pathToName, view, uuidFormatter, format, totalUsedFree).value;
      assert |t.rows| == |multiset(t.rows)| == |multiset(rows.value)| == |fss|;
    }
  }
}
