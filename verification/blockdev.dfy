/**
 * `_actions/_blockdev.py`: the block-device state names, the listing of a
 * pool's block devices and adding devices to a pool.
 *
 * This file predates the revisioned interface names, so its queries are
 * those of `Data`. `MODev` accessors are the parameter `view`; the
 * justbytes rendering of a byte count and the marker for unknown values
 * (imported from a constants module that is not part of this model) are
 * parameters too.
 */
module Blockdev {
  import opened Wrappers
  import opened ManagedObjects
  import opened ActionErrors
  import StratisdConstants
  import ActionConstants
  import Data
  import Formatting
  import Sorting

  /** The names of the block-device states, indexed by their D-Bus value. */
  const STATES: seq<string> := ["Missing", "Bad", "Spare", "Not-in-use", "In-use"]

  /**
   * `state_val_to_string(val)`: the state's name, or the unknown-value
   * marker for a value past the end of the list. The D-Bus type of `State`
   * is unsigned (`q`), so Python's negative indexing never applies.
   */
  function StateValToString(val: nat, unknownMarker: string): (r: string)
    ensures val < |STATES| ==> r == STATES[val]
    ensures val >= |STATES| ==> r == unknownMarker
  {
    if val < |STATES| then STATES[val] else unknownMarker
  }

  /** The state names are distinct, so a known state is recovered from its name. */
  lemma StateNamesDistinct(a: nat, b: nat, unknownMarker: string)
    requires a < |STATES| && b < |STATES|
    requires StateValToString(a, unknownMarker) == StateValToString(b, unknownMarker)
    ensures a == b
  {
    assert STATES[0] == "Missing" && STATES[1] == "Bad" && STATES[2] == "Spare";
    assert STATES[3] == "Not-in-use" && STATES[4] == "In-use";
    assert STATES[0][0] == 'M' && STATES[1][0] == 'B' && STATES[2][0] == 'S';
    assert STATES[3][0] == 'N' && STATES[4][0] == 'I';
  }

  /** What the `MODev` accessors of one block device return. */
  datatype DevView = DevView(devnode: string, totalPhysicalSize: nat, state: nat)

  /** The listing's renderings: `str(Range(n))` and the unknown-value marker. */
  datatype Rendering = Rendering(rangeStr: nat -> string, unknownMarker: string)

  /** One row: device node, size in bytes (sectors times the sector size), state. */
  function Row(v: DevView, rendering: Rendering): (r: seq<string>)
    ensures |r| == 3 && r[0] == v.devnode
    ensures r[1] == rendering.rangeStr(v.totalPhysicalSize * ActionConstants.SECTOR_SIZE)
    ensures v.state < |STATES| ==> r[2] == STATES[v.state]
    ensures v.state >= |STATES| ==> r[2] == rendering.unknownMarker
  {
    [v.devnode, rendering.rangeStr(v.totalPhysicalSize * ActionConstants.SECTOR_SIZE),
     StateValToString(v.state, rendering.unknownMarker)]
  }

  function Rows(devs: Snapshot, view: MObject -> DevView, rendering: Rendering): (r: seq<seq<string>>)
    ensures |r| == |devs| && forall i :: 0 <= i < |devs| ==> r[i] == Row(view(devs[i]), rendering)
  {
    seq(|devs|, i requires 0 <= i < |devs| => Row(view(devs[i]), rendering))
  }

  /** The sort key `entry[0]`: the device node. */
  function DevnodeKey(row: seq<string>): seq<string> {
    if |row| == 0 then [] else [row[0]]
  }

  const HEADINGS: seq<string> := ["Device Node", "Physical Size", "State"]

  const ALIGNMENT: seq<Formatting.Alignment> := [Formatting.LEFT, Formatting.RIGHT, Formatting.RIGHT]

  /** The block devices whose `Pool` is the given path. */
  function PoolDevs(mos: Snapshot, poolPath: string): Snapshot {
    Search(mos, Data.BLOCKDEV_INTERFACE, map["Pool" := VStr(poolPath)])
  }

  /** The pool named `poolName`, found by a unique-match search. */
  function NamedPool(mos: Snapshot, poolName: string): (r: Result<MObject, ActionError>)
    ensures r.Success? <==> |Search(mos, Data.POOL_INTERFACE, map["Name" := VStr(poolName)])| == 1
    ensures r.Success? ==> r.value in mos && Matches(r.value, Data.POOL_INTERFACE, map["Name" := VStr(poolName)])
    ensures r.Failure? ==> r.error == DbusLookup(Data.LookupError(Data.POOL_INTERFACE, map["Name" := VStr(poolName)]))
  {
    var found :- Data.Pools(mos, map["Name" := VStr(poolName)], true).MapFailure(e => DbusLookup(e));
    Success(found.obj)
  }

  /**
   * `BlockdevActions.list_pool`: one row per block device of the named
   * pool, sorted by device node.
   */
  function ListPool(mos: Snapshot, poolName: string, view: MObject -> DevView, rendering: Rendering)
    : (r: Result<Formatting.Table, ActionError>)
    ensures r.Success? <==> NamedPool(mos, poolName).Success?
    ensures r.Failure? ==> r.error == NamedPool(mos, poolName).error
    ensures r.Success? ==> r.value.headings == HEADINGS && r.value.alignments == ALIGNMENT
    ensures r.Success? ==> Formatting.Rectangular(r.value.rows, 3)
    ensures r.Success? ==> forall i, j :: 0 <= i < j < |r.value.rows| ==> Sorting.StrLe(r.value.rows[i][0], r.value.rows[j][0])
    ensures r.Success? ==>
      multiset(r.value.rows) == multiset(Rows(PoolDevs(mos, NamedPool(mos, poolName).value.path), view, rendering))
    ensures r.Success? ==> forall k :: Sorting.KeyFilter(r.value.rows, DevnodeKey, k)
                                       == Sorting.KeyFilter(Rows(PoolDevs(mos, NamedPool(mos, poolName).value.path), view, rendering), DevnodeKey, k)
  {
    var pool :- NamedPool(mos, poolName);
    var unsorted := Rows(PoolDevs(mos, pool.path), view, rendering);
    var rows := Sorting.SortBy(unsorted, DevnodeKey);
    RowsOfThree(unsorted, rows);
    SortedByDevnode(rows);
    assert forall k :: Sorting.KeyFilter(rows, DevnodeKey, k) == Sorting.KeyFilter(unsorted, DevnodeKey, k) by {
      forall k ensures Sorting.KeyFilter(rows, DevnodeKey, k) == Sorting.KeyFilter(unsorted, DevnodeKey, k) {
        Sorting.SortByStable(unsorted, DevnodeKey, k);
      }
    }
    Success(Formatting.Table(HEADINGS, rows, ALIGNMENT))
  }

  lemma RowsOfThree(unsorted: seq<seq<string>>, rows: seq<seq<string>>)
    requires forall i :: 0 <= i < |unsorted| ==> |unsorted[i]| == 3
    requires multiset(rows) == multiset(unsorted)
    ensures Formatting.Rectangular(rows, 3)
  {
    forall i | 0 <= i < |rows| ensures |rows[i]| == 3 {
      assert rows[i] in multiset(unsorted);
    }
  }

  lemma SortedByDevnode(rows: seq<seq<string>>)
    requires Sorting.SortedBy(rows, DevnodeKey)
    requires Formatting.Rectangular(rows, 3)
    ensures forall i, j :: 0 <= i < j < |rows| ==> Sorting.StrLe(rows[i][0], rows[j][0])
  {
    forall i, j | 0 <= i < j < |rows| ensures Sorting.StrLe(rows[i][0], rows[j][0]) {
      assert Sorting.KeyLe(DevnodeKey(rows[i]), DevnodeKey(rows[j]));
      Sorting.StrLeTotal(rows[i][0], rows[j][0]);
    }
  }

  /**
   * Every block device of the named pool has its row in the listing, and
   * every row is that of a block device of the pool.
   */
  lemma ListPoolRowsAreThePoolsDevs(mos: Snapshot, poolName: string, view: MObject -> DevView, rendering: Rendering,
                                    row: seq<string>)
    requires ListPool(mos, poolName, view, rendering).Success?
    ensures var pool := NamedPool(mos, poolName).value;
      row in ListPool(mos, poolName, view, rendering).value.rows <==>
        exists d :: d in mos && Matches(d, Data.BLOCKDEV_INTERFACE, map["Pool" := VStr(pool.path)]) && row == Row(view(d), rendering)
  {
    var pool := NamedPool(mos, poolName).value;
    var devs := PoolDevs(mos, pool.path);
    var unsorted := Rows(devs, view, rendering);
    assert row in ListPool(mos, poolName, view, rendering).value.rows <==> row in multiset(unsorted);
    RowOfSomeDev(devs, view, rendering, row);
  }

  /** A row is among the rows of `devs` exactly when it is the row of one of them. */
  lemma RowOfSomeDev(devs: Snapshot, view: MObject -> DevView, rendering: Rendering, row: seq<string>)
    ensures row in Rows(devs, view, rendering) <==> exists d :: d in devs && row == Row(view(d), rendering)
  {
    var unsorted := Rows(devs, view, rendering);
    if row in unsorted {
      var i :| 0 <= i < |unsorted| && unsorted[i] == row;
      assert devs[i] in devs;
    }
    if exists d :: d in devs && row == Row(view(d), rendering) {
      var d :| d in devs && row == Row(view(d), rendering);
      var i :| 0 <= i < |devs| && devs[i] == d;
      assert unsorted[i] == row;
    }
  }

  /** The `AddDevs` call: the pool's object path and the arguments. */
  datatype AddDevsCall = AddDevsCall(poolPath: string, force: bool, devices: seq<string>)

  /**
   * `BlockdevActions.add_device`: the pool is found by a unique-match search
   * by name; a non-OK return code of the call is a runtime error.
   */
  function AddDevice(mos: Snapshot, poolName: string, force: bool, devices: seq<string>, returnCode: int, message: string)
    : (r: Result<AddDevsCall, ActionError>)
    ensures NamedPool(mos, poolName).Failure? ==> r == Failure(NamedPool(mos, poolName).error)
    ensures r.Success? <==> NamedPool(mos, poolName).Success? && returnCode == StratisdConstants.OK
    ensures NamedPool(mos, poolName).Success? && returnCode != StratisdConstants.OK ==> r == Failure(Runtime(returnCode, message))
    ensures r.Success? ==> r.value == AddDevsCall(NamedPool(mos, poolName).value.path, force, devices)
  {
    var pool :- NamedPool(mos, poolName);
    if returnCode != StratisdConstants.OK then Failure(Runtime(returnCode, message))
    else Success(AddDevsCall(pool.path, force, devices))
  }
}
