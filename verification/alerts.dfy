/**
 * The pool alerts of `_alerts.py`: four integer enumerations rendered like
 * the error codes, and `PoolAlert.CODE_MAP`, the insertion-ordered
 * dictionary from each alert's string form to the alert, through which the
 * alerts are listed and looked up.
 */
module Alerts {
  import opened Wrappers
  import opened Text
  import ErrorCodes

  /** `_alerts.py` redeclares the same three severity letters as `_error_codes.py`. */
  type Level = ErrorCodes.Level

  /** The four enumerations, in the order `CLASSES` lists them. */
  datatype AlertClass = PoolAllocSpaceAlert | PoolDeviceSizeChangeAlert | PoolEncryptionAlert | PoolMaintenanceAlert

  const CLASSES: seq<AlertClass> :=
    [PoolAllocSpaceAlert, PoolDeviceSizeChangeAlert, PoolEncryptionAlert, PoolMaintenanceAlert]

  const EXPLAIN_VOLUME_KEY_NOT_LOADED: string := "The pool's volume key is not loaded. This may result in an error if the pool's encryption layer needs to be modified. If the pool is encrypted with a key in the kernel keyring then setting that key may resolve the problem."
  const EXPLAIN_VOLUME_KEY_STATUS_UNKNOWN: string := "The pool's volume key may or may not be loaded. If the volume key is not loaded, there may an error if the pool's encryption layer needs to be modified."

  datatype PoolAlert =
    | NO_IPC_REQUESTS | NO_POOL_CHANGES
    | NO_ALLOC_SPACE
    | DEVICE_SIZE_INCREASED | DEVICE_SIZE_DECREASED
    | VOLUME_KEY_NOT_LOADED | VOLUME_KEY_STATUS_UNKNOWN
  {
    function Class(): AlertClass {
      match this
      case NO_IPC_REQUESTS | NO_POOL_CHANGES => PoolMaintenanceAlert
      case NO_ALLOC_SPACE => PoolAllocSpaceAlert
      case DEVICE_SIZE_INCREASED | DEVICE_SIZE_DECREASED => PoolDeviceSizeChangeAlert
      case _ => PoolEncryptionAlert
    }

    /** The integer value of the member within its enumeration. */
    function Value(): nat {
      match this
      case NO_IPC_REQUESTS | NO_ALLOC_SPACE | DEVICE_SIZE_INCREASED | VOLUME_KEY_NOT_LOADED => 1
      case _ => 2
    }

    function Level(): Level {
      match this
      case NO_IPC_REQUESTS | NO_POOL_CHANGES => ErrorCodes.ERROR
      case DEVICE_SIZE_INCREASED => ErrorCodes.INFO
      case _ => ErrorCodes.WARNING
    }

    function Category(): string {
      match Class()
      case PoolMaintenanceAlert => "M"
      case PoolAllocSpaceAlert => "S"
      case PoolDeviceSizeChangeAlert => "DS"
      case PoolEncryptionAlert => "C"
    }

    /** `str(alert)`: the level letter, the category and the zero-padded value. */
    function ToString(): (r: string)
      ensures r == Level().ToString() + Category() + ['0', '0', DigitChar(Value())]
    {
      ErrorCodes.CodeString(Level(), Category(), Value())
    }

    function Explain(): (r: string)
      ensures |r| > 0
    {
      match this
      case NO_IPC_REQUESTS => ErrorCodes.EXPLAIN_NO_IPC_REQUESTS
      case NO_POOL_CHANGES => ErrorCodes.EXPLAIN_NO_POOL_CHANGES
      case NO_ALLOC_SPACE => ErrorCodes.EXPLAIN_NO_ALLOC_SPACE
      case DEVICE_SIZE_INCREASED => ErrorCodes.EXPLAIN_DEVICE_SIZE_INCREASED
      case DEVICE_SIZE_DECREASED => ErrorCodes.EXPLAIN_DEVICE_SIZE_DECREASED
      case VOLUME_KEY_NOT_LOADED => EXPLAIN_VOLUME_KEY_NOT_LOADED
      case VOLUME_KEY_STATUS_UNKNOWN => EXPLAIN_VOLUME_KEY_STATUS_UNKNOWN
    }

    function Summarize(): (r: string)
      ensures |r| > 0
    {
      match this
      case NO_IPC_REQUESTS => "Pool state changes not possible"
      case NO_POOL_CHANGES => "Pool maintenance operations not possible"
      case NO_ALLOC_SPACE => "All devices fully allocated"
      case DEVICE_SIZE_INCREASED => "A device in this pool has increased in size."
      case DEVICE_SIZE_DECREASED => "A device in this pool has decreased in size."
      case VOLUME_KEY_NOT_LOADED => "Volume key not loaded"
      case VOLUME_KEY_STATUS_UNKNOWN => "Volume key status unknown"
    }
  }

  /** The strings the alerts render as. */
  lemma RenderedAs(c: PoolAlert)
    ensures c.ToString() == match c
      case NO_IPC_REQUESTS => "EM001"
      case NO_POOL_CHANGES => "EM002"
      case NO_ALLOC_SPACE => "WS001"
      case DEVICE_SIZE_INCREASED => "IDS001"
      case DEVICE_SIZE_DECREASED => "WDS002"
      case VOLUME_KEY_NOT_LOADED => "WC001"
      case VOLUME_KEY_STATUS_UNKNOWN => "WC002"
  {
    match c
    case NO_IPC_REQUESTS => RenderedAsLiteral(c, "EM001");
    case NO_POOL_CHANGES => RenderedAsLiteral(c, "EM002");
    case NO_ALLOC_SPACE => RenderedAsLiteral(c, "WS001");
    case DEVICE_SIZE_INCREASED => RenderedAsLiteral(c, "IDS001");
    case DEVICE_SIZE_DECREASED => RenderedAsLiteral(c, "WDS002");
    case VOLUME_KEY_NOT_LOADED => RenderedAsLiteral(c, "WC001");
    case VOLUME_KEY_STATUS_UNKNOWN => RenderedAsLiteral(c, "WC002");
  }

  /** The rendering ends in three decimal digits that denote the member's value. */
  lemma ValueDigits(c: PoolAlert)
    ensures var r := c.ToString();
      |r| == 4 + |c.Category()| && AllDigits(r[|r| - 3..]) && DecimalValue(r[|r| - 3..]) == c.Value()
  {
    var r := c.ToString();
    ErrorCodes.PaddedDigit(c.Value());
    assert r[|r| - 3..] == ['0', '0', DigitChar(c.Value())];
  }

  lemma RenderedAsLiteral(c: PoolAlert, expected: string)
    requires expected == c.Level().ToString() + c.Category() + ['0', '0', DigitChar(c.Value())]
    ensures c.ToString() == expected
  {
  }

  /** Distinct alerts render distinctly. */
  lemma ToStringInjective(a: PoolAlert, b: PoolAlert)
    requires a.ToString() == b.ToString()
    ensures a == b
  {
    RenderedAs(a);
    RenderedAs(b);
  }

  /** Distinct alerts have distinct explanations, so `explain` tells every alert apart. */
  lemma ExplainInjective(a: PoolAlert, b: PoolAlert)
    ensures a.Explain() == b.Explain() <==> a == b
  {
  }

  /** Distinct alerts have distinct summaries. */
  lemma SummarizeInjective(a: PoolAlert, b: PoolAlert)
    ensures a.Summarize() == b.Summarize() <==> a == b
  {
  }

  /** The members of one enumeration, in declaration order. */
  function Members(c: AlertClass): (r: seq<PoolAlert>)
    ensures forall i :: 0 <= i < |r| ==> r[i].Class() == c
    ensures forall a: PoolAlert :: a.Class() == c ==> a in r
  {
    match c
    case PoolAllocSpaceAlert => [NO_ALLOC_SPACE]
    case PoolDeviceSizeChangeAlert => [DEVICE_SIZE_INCREASED, DEVICE_SIZE_DECREASED]
    case PoolEncryptionAlert => [VOLUME_KEY_NOT_LOADED, VOLUME_KEY_STATUS_UNKNOWN]
    case PoolMaintenanceAlert => [NO_IPC_REQUESTS, NO_POOL_CHANGES]
  }

  /** `code for c in CLASSES for code in list(c)`. */
  function AllAlerts(): (r: seq<PoolAlert>)
    ensures forall a: PoolAlert :: a in r
    ensures forall i, j :: 0 <= i < j < |r| ==> r[i] != r[j]
  {
    Members(CLASSES[0]) + Members(CLASSES[1]) + Members(CLASSES[2]) + Members(CLASSES[3])
  }

  // ---------------------------------------------------------------------
  // Python dictionaries, which remember the order keys were first inserted

  datatype Dict<V> = Dict(keys: seq<string>, entries: map<string, V>)

  ghost predicate Valid<V>(d: Dict<V>) {
    (forall i, j :: 0 <= i < j < |d.keys| ==> d.keys[i] != d.keys[j])
    && (forall k :: k in d.entries <==> k in d.keys)
  }

  /** `d[k] = v`: a new key goes last, an existing key keeps its place. */
  function Insert<V>(d: Dict<V>, k: string, v: V): (r: Dict<V>)
    requires Valid(d)
    ensures Valid(r)
  {
    if k in d.entries then Dict(d.keys, d.entries[k := v]) else Dict(d.keys + [k], d.entries[k := v])
  }

  /** `dict(pairs)`: the pairs inserted in order, so a later pair overwrites an earlier value. */
  function FromPairs<V>(pairs: seq<(string, V)>): (r: Dict<V>)
    ensures Valid(r)
  {
    if |pairs| == 0 then Dict([], map[])
    else
      var last := pairs[|pairs| - 1];
      Insert(FromPairs(pairs[..|pairs| - 1]), last.0, last.1)
  }

  function KeysOf<V>(pairs: seq<(string, V)>): (r: seq<string>)
    ensures |r| == |pairs| && forall i :: 0 <= i < |pairs| ==> r[i] == pairs[i].0
  {
    seq(|pairs|, i requires 0 <= i < |pairs| => pairs[i].0)
  }

  /** With no key repeated, `dict(pairs)` keeps every pair, in the given order. */
  lemma {:induction false} FromPairsDistinct<V>(pairs: seq<(string, V)>)
    requires forall i, j :: 0 <= i < j < |pairs| ==> pairs[i].0 != pairs[j].0
    ensures FromPairs(pairs).keys == KeysOf(pairs)
    ensures forall i :: 0 <= i < |pairs| ==> FromPairs(pairs).entries[pairs[i].0] == pairs[i].1
  {
    if |pairs| > 0 {
      var n := |pairs| - 1;
      var init := pairs[..n];
      FromPairsDistinct(init);
      var d := FromPairs(init);
      assert pairs[n].0 !in d.entries by {
        assert pairs[n].0 !in KeysOf(init);
      }
      KeysOfSnoc(pairs);
      forall i | 0 <= i < n ensures pairs[i].0 in d.entries && d.entries[pairs[i].0] == pairs[i].1 {
        assert init[i] == pairs[i];
      }
      EntriesExtend(pairs, d.entries);
    }
  }

  /** Adding the last pair's entry keeps the entries of the earlier pairs, whose keys differ from it. */
  lemma EntriesExtend<V>(pairs: seq<(string, V)>, entries: map<string, V>)
    requires |pairs| > 0
    requires forall i :: 0 <= i < |pairs| - 1 ==> pairs[i].0 != pairs[|pairs| - 1].0
    requires forall i :: 0 <= i < |pairs| - 1 ==> pairs[i].0 in entries && entries[pairs[i].0] == pairs[i].1
    ensures var last := pairs[|pairs| - 1];
      forall i :: 0 <= i < |pairs| ==> entries[last.0 := last.1][pairs[i].0] == pairs[i].1
  {
  }

  lemma KeysOfSnoc<V>(pairs: seq<(string, V)>)
    requires |pairs| > 0
    ensures KeysOf(pairs) == KeysOf(pairs[..|pairs| - 1]) + [pairs[|pairs| - 1].0]
  {
  }

  /** The `(str(code), code)` pairs `CODE_MAP` is built from. */
  function Pairs(alerts: seq<PoolAlert>): (r: seq<(string, PoolAlert)>)
    ensures |r| == |alerts| && forall i :: 0 <= i < |r| ==> r[i] == (alerts[i].ToString(), alerts[i])
  {
    seq(|alerts|, i requires 0 <= i < |alerts| => (alerts[i].ToString(), alerts[i]))
  }

  /** `PoolAlert.CODE_MAP`. */
  function CodeMap(): (r: Dict<PoolAlert>)
    ensures Valid(r)
  {
    FromPairs(Pairs(AllAlerts()))
  }

  /** `CODE_MAP` holds every alert under its own string, in `CLASSES` order. */
  lemma CodeMapContents()
    ensures |CodeMap().keys| == |AllAlerts()|
    ensures forall i :: 0 <= i < |AllAlerts()| ==> CodeMap().keys[i] == AllAlerts()[i].ToString()
    ensures forall a: PoolAlert :: a.ToString() in CodeMap().entries && CodeMap().entries[a.ToString()] == a
  {
    DictOfAlerts(AllAlerts());
  }

  /** The dictionary built from distinct alerts keys each by its string, in order. */
  lemma DictOfAlerts(alerts: seq<PoolAlert>)
    requires forall i, j :: 0 <= i < j < |alerts| ==> alerts[i] != alerts[j]
    ensures |FromPairs(Pairs(alerts)).keys| == |alerts|
    ensures forall i :: 0 <= i < |alerts| ==> FromPairs(Pairs(alerts)).keys[i] == alerts[i].ToString()
    ensures forall a :: a in alerts ==> a.ToString() in FromPairs(Pairs(alerts)).entries
    ensures forall a :: a in alerts ==> FromPairs(Pairs(alerts)).entries[a.ToString()] == a
  {
    var pairs := Pairs(alerts);
    PairsDistinct(alerts);
    FromPairsDistinct(pairs);
    forall a | a in alerts
      ensures a.ToString() in FromPairs(pairs).entries && FromPairs(pairs).entries[a.ToString()] == a
    {
      var i :| 0 <= i < |alerts| && alerts[i] == a;
      assert pairs[i].0 == KeysOf(pairs)[i];
    }
  }

  /** Distinct alerts give pairs with distinct keys. */
  lemma PairsDistinct(alerts: seq<PoolAlert>)
    requires forall i, j :: 0 <= i < j < |alerts| ==> alerts[i] != alerts[j]
    ensures forall i, j :: 0 <= i < j < |Pairs(alerts)| ==> Pairs(alerts)[i].0 != Pairs(alerts)[j].0
  {
    var pairs := Pairs(alerts);
    forall i, j | 0 <= i < j < |pairs| ensures pairs[i].0 != pairs[j].0 {
      if pairs[i].0 == pairs[j].0 {
        ToStringInjective(alerts[i], alerts[j]);
      }
    }
  }

  /** `PoolAlert.code_strs()`: the keys of `CODE_MAP`, in insertion order. */
  function CodeStrs(): (r: seq<string>)
    ensures forall i, j :: 0 <= i < j < |r| ==> r[i] != r[j]
  {
    CodeMap().keys
  }

  /** `PoolAlert.codes()`: the values of `CODE_MAP`, in insertion order. */
  function Codes(): (r: seq<PoolAlert>)
    ensures |r| == |CodeStrs()|
  {
    var d := CodeMap();
    seq(|d.keys|, i requires 0 <= i < |d.keys| => d.entries[d.keys[i]])
  }

  /**
   * `codes()` and `code_strs()` correspond pairwise, and together list
   * every alert once, in `CLASSES` order.
   */
  lemma CodesMatchCodeStrs()
    ensures Codes() == AllAlerts()
    ensures forall i :: 0 <= i < |Codes()| ==> CodeStrs()[i] == Codes()[i].ToString()
  {
    CodeMapContents();
  }

  /** `PoolAlert.from_str(s)`: `CODE_MAP.get(s)`. */
  function FromStr(s: string): (r: Option<PoolAlert>)
    ensures r.Some? ==> r.value.ToString() == s
    ensures r.None? <==> forall a: PoolAlert :: a.ToString() != s
  {
    CodeMapContents();
    var d := CodeMap();
    if s in d.entries then EntryUnderOwnString(s); Some(d.entries[s]) else None
  }

  lemma EntryUnderOwnString(s: string)
    requires s in CodeMap().entries
    ensures CodeMap().entries[s].ToString() == s
  {
    CodeMapContents();
    var i :| 0 <= i < |CodeMap().keys| && CodeMap().keys[i] == s;
    assert CodeMap().entries[AllAlerts()[i].ToString()] == AllAlerts()[i];
  }

  /** `PoolAlert.from_str(str(a)) == a` for every alert. */
  lemma FromStrRoundTrip(a: PoolAlert)
    ensures FromStr(a.ToString()) == Some(a)
  {
    var r := FromStr(a.ToString());
    ToStringInjective(r.value, a);
  }
}
