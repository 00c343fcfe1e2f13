/**
 * `report_pool` of `_actions/_report_pool.py`: the block devices of one
 * pool, started or stopped, handed to `lsblk -i`.
 *
 * The started pool is found in a GetManagedObjects snapshot and its block
 * devices through the `MODev.Devnode` accessor, a parameter; a stopped
 * pool is found in the `StoppedPools` property, given as its items in
 * dictionary order. Running `lsblk` is left out: the result is its
 * command line.
 */
module ReportPool {
  import opened Wrappers
  import opened Text
  import opened ManagedObjects
  import opened ActionErrors
  import Constants
  import ActionConstants

  /** The command line of the report. */
  const LSBLK: seq<string> := ["/usr/bin/lsblk", "-i"]

  /** The selection `(type, value)`: a pool UUID or a pool name. */
  type Selection = Constants.IdValue

  /** The D-Bus property and value a started pool is selected by. */
  function SelectionKey(selection: Selection): (r: (string, string))
    ensures selection.UuidValue? ==> r == ("Uuid", UuidHex(selection.uuid))
    ensures selection.NameValue? ==> r == ("Name", selection.name)
  {
    match selection
    case UuidValue(u) => ("Uuid", UuidHex(u))
    case NameValue(n) => ("Name", n)
  }

  /** The devices of a pool: `devs(props={"Pool": pool_object_path}).search(...)`. */
  function PoolDevices(mos: Snapshot, poolPath: string): Snapshot {
    Search(mos, ActionConstants.BLOCKDEV_INTERFACE, map["Pool" := VStr(poolPath)])
  }

  function MapDevnodes(devs: Snapshot, devnode: MObject -> string): (r: seq<string>)
    ensures |r| == |devs|
    ensures forall i :: 0 <= i < |devs| ==> r[i] == devnode(devs[i])
  {
    if |devs| == 0 then [] else [devnode(devs[0])] + MapDevnodes(devs[1..], devnode)
  }

  /** `Default.report_pool`: the devnodes of the uniquely selected pool's devices, in snapshot order. */
  function DefaultReport(mos: Snapshot, selection: Selection, devnode: MObject -> string)
    : (r: Result<seq<string>, ActionError>)
    ensures var (key, value) := SelectionKey(selection);
      r.Success? <==> |Search(mos, ActionConstants.POOL_INTERFACE, map[key := VStr(value)])| == 1
    ensures r.Success? ==> |r.value| >= |LSBLK| && r.value[..|LSBLK|] == LSBLK
    ensures r.Success? ==>
      var (key, value) := SelectionKey(selection);
      var pool := UniqueObject(ActionConstants.POOL_INTERFACE, mos, map[key := VStr(value)]).value;
      r.value[|LSBLK|..] == MapDevnodes(PoolDevices(mos, pool.path), devnode)
  {
    var (key, value) := SelectionKey(selection);
    var pool :- UniqueObject(ActionConstants.POOL_INTERFACE, mos, map[key := VStr(value)]);
    var r := LSBLK + MapDevnodes(PoolDevices(mos, pool.path), devnode);
    assert r[..|LSBLK|] == LSBLK && r[|LSBLK|..] == MapDevnodes(PoolDevices(mos, pool.path), devnode);
    Success(r)
  }

  /** The devices handed on are exactly the block devices whose `Pool` is the selected pool's path. */
  lemma DefaultReportDevices(mos: Snapshot, poolPath: string, o: MObject)
    ensures o in PoolDevices(mos, poolPath) <==>
      (o in mos && ActionConstants.BLOCKDEV_INTERFACE in o.interfaces
       && Property(o, ActionConstants.BLOCKDEV_INTERFACE, "Pool") == Some(VStr(poolPath)))
  {
    var key := map["Pool" := VStr(poolPath)];
    assert "Pool" in key;
  }

  /** The selection function of `Stopped.report_pool`: the key for a UUID, `info["name"]` for a name. */
  predicate StoppedSelects(selection: Selection, key: string, info: map<string, Value>) {
    match selection
    case UuidValue(u) => key == UuidHex(u)
    case NameValue(n) => "name" in info && info["name"] == VStr(n)
  }

  /** It selects the stopped pools that `PoolId.stopped_pools_func` selects for the same id. */
  lemma StoppedSelectsAgrees(selection: Selection, key: string, info: map<string, Value>)
    ensures var idType := if selection.UuidValue? then Constants.UUID else Constants.NAME;
      Constants.MakeId(Constants.PoolKind, idType, selection).Some?
      && (StoppedSelects(selection, key, info)
          <==> Constants.StoppedPoolsFunc(Constants.MakeId(Constants.PoolKind, idType, selection).value, key, info))
  {
  }

  /** The index of the first stopped pool selected, in dictionary order. */
  function FirstSelected(stopped: seq<(string, map<string, Value>)>, selection: Selection): (r: Option<nat>)
    ensures r.None? <==> forall i :: 0 <= i < |stopped| ==> !StoppedSelects(selection, stopped[i].0, stopped[i].1)
    ensures r.Some? ==> r.value < |stopped| && StoppedSelects(selection, stopped[r.value].0, stopped[r.value].1)
    ensures r.Some? ==> forall i :: 0 <= i < r.value ==> !StoppedSelects(selection, stopped[i].0, stopped[i].1)
  {
    if |stopped| == 0 then None
    else if StoppedSelects(selection, stopped[0].0, stopped[0].1) then Some(0)
    else
      var rest := FirstSelected(stopped[1..], selection);
      assert forall i :: 1 <= i < |stopped| ==> stopped[i] == stopped[1..][i - 1];
      if rest.None? then None else Some(rest.value + 1)
  }

  /** `dev["devnode"]` for each entry of the stopped pool's `devs` list. */
  function StoppedDevnodes(devs: seq<Value>): (r: Result<seq<string>, ActionError>)
    ensures r.Success? <==> forall i :: 0 <= i < |devs| ==>
      devs[i].VDict? && "devnode" in devs[i].fields && devs[i].fields["devnode"].VStr?
    ensures r.Success? ==> |r.value| == |devs|
    ensures r.Success? ==> forall i :: 0 <= i < |devs| ==> r.value[i] == devs[i].fields["devnode"].s
  {
    if |devs| == 0 then Success([])
    else
      var d := devs[0];
      if !(d.VDict? && "devnode" in d.fields && d.fields["devnode"].VStr?) then Failure(KeyError("devnode"))
      else
        var rest :- StoppedDevnodes(devs[1..]);
        assert forall i :: 1 <= i < |devs| ==> devs[i] == devs[1..][i - 1];
        Success([d.fields["devnode"].s] + rest)
  }

  /** `Stopped.report_pool`: no selected stopped pool is a not-found error naming the selection. */
  function StoppedReport(stopped: seq<(string, map<string, Value>)>, selection: Selection)
    : (r: Result<seq<string>, ActionError>)
    ensures FirstSelected(stopped, selection).None? ==>
      r == Failure(ResourceNotFound("list", SelectionKey(selection).1))
    ensures r.Success? ==> FirstSelected(stopped, selection).Some?
    ensures r.Success? ==> |r.value| >= |LSBLK| && r.value[..|LSBLK|] == LSBLK
    ensures r.Success? ==>
      var info := stopped[FirstSelected(stopped, selection).value].1;
      "devs" in info && info["devs"].VList?
      && StoppedDevnodes(info["devs"].items) == Success(r.value[|LSBLK|..])
  {
    match FirstSelected(stopped, selection)
    case None => Failure(ResourceNotFound("list", SelectionKey(selection).1))
    case Some(i) =>
      var info := stopped[i].1;
      if !("devs" in info && info["devs"].VList?) then Failure(KeyError("devs"))
      else
        var devnodes :- StoppedDevnodes(info["devs"].items);
        var r := LSBLK + devnodes;
        assert r[..|LSBLK|] == LSBLK && r[|LSBLK|..] == devnodes;
        Success(r)
  }

  /** `report_pool`: the stopped reporter iff the stopped flag is set. */
  function Report(stoppedFlag: bool, mos: Snapshot, stopped: seq<(string, map<string, Value>)>,
                  selection: Selection, devnode: MObject -> string)
    : (r: Result<seq<string>, ActionError>)
    ensures stoppedFlag ==> r == StoppedReport(stopped, selection)
    ensures !stoppedFlag ==> r == DefaultReport(mos, selection, devnode)
  {
    if stoppedFlag then StoppedReport(stopped, selection) else DefaultReport(mos, selection, devnode)
  }
}
