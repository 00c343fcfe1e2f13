/**
 * The pool error codes of `_error_codes.py`: three integer enumerations
 * (maintenance, allocation space, device size change), each rendering its
 * members as a level letter, a category and a three-digit number, and the
 * summary class that lists them and looks a code up by its string form.
 */
module ErrorCodes {
  import opened Wrappers
  import opened Text

  /** The severity letter that starts every code string. */
  datatype Level = ERROR | WARNING | INFO {
    function ToString(): (r: string)
      ensures |r| == 1
    {
      match this
      case ERROR => "E"
      case WARNING => "W"
      case INFO => "I"
    }
  }

  /**
   * The rendering `f"{level}{category}{str(value).zfill(3)}"` shared by
   * every code class here and in the alerts.
   */
  function CodeString(level: Level, category: string, value: nat): (r: string)
    ensures |r| >= 4 + |category|
    ensures value < 10 ==> r == level.ToString() + category + ['0', '0', DigitChar(value)]
  {
    var r := level.ToString() + category + ZFill(NatToDecimal(value), 3);
    if value < 10 then PaddedDigit(value); r else r
  }

  /** `str(d).zfill(3)` for a single digit, and the number it denotes. */
  lemma PaddedDigit(d: nat)
    requires d < 10
    ensures ZFill(NatToDecimal(d), 3) == ['0', '0', DigitChar(d)]
    ensures DecimalValue(['0', '0', DigitChar(d)]) == d
  {
    assert seq(2, _ => '0') + [DigitChar(d)] == ['0', '0', DigitChar(d)];
    var p := ['0', '0', DigitChar(d)];
    assert p[..2] == ['0', '0'] && p[..2][..1] == ['0'] && p[..2][..1][..0] == [];
    assert DecimalValue(['0']) == 0;
    assert DecimalValue(['0', '0']) == 0;
  }

  /** The three enumerations, in the order `PoolErrorCode.CLASSES` lists them. */
  datatype ErrorClass = PoolMaintenanceErrorCode | PoolAllocSpaceErrorCode | PoolDeviceSizeChangeCode

  const CLASSES: seq<ErrorClass> := [PoolMaintenanceErrorCode, PoolAllocSpaceErrorCode, PoolDeviceSizeChangeCode]

  datatype PoolErrorCode =
    | NO_IPC_REQUESTS | NO_POOL_CHANGES
    | NO_ALLOC_SPACE
    | DEVICE_SIZE_INCREASED | DEVICE_SIZE_DECREASED
  {
    function Class(): ErrorClass {
      match this
      case NO_IPC_REQUESTS | NO_POOL_CHANGES => PoolMaintenanceErrorCode
      case NO_ALLOC_SPACE => PoolAllocSpaceErrorCode
      case _ => PoolDeviceSizeChangeCode
    }

    /** The integer value of the member within its enumeration. */
    function Value(): nat {
      match this
      case NO_IPC_REQUESTS | NO_ALLOC_SPACE | DEVICE_SIZE_INCREASED => 1
      case _ => 2
    }

    function Level(): Level {
      match this
      case NO_IPC_REQUESTS | NO_POOL_CHANGES => ERROR
      case DEVICE_SIZE_INCREASED => INFO
      case _ => WARNING
    }

    function Category(): string {
      match Class()
      case PoolMaintenanceErrorCode => "M"
      case PoolAllocSpaceErrorCode => "S"
      case PoolDeviceSizeChangeCode => "DS"
    }

    /** `str(code)`: the level letter, the category and the zero-padded value. */
    function ToString(): (r: string)
      ensures r == Level().ToString() + Category() + ['0', '0', DigitChar(Value())]
    {
      CodeString(Level(), Category(), Value())
    }

    function Explain(): (r: string)
      ensures |r| > 0
    {
      match this
      case NO_IPC_REQUESTS => EXPLAIN_NO_IPC_REQUESTS
      case NO_POOL_CHANGES => EXPLAIN_NO_POOL_CHANGES
      case NO_ALLOC_SPACE => EXPLAIN_NO_ALLOC_SPACE
      case DEVICE_SIZE_INCREASED => EXPLAIN_DEVICE_SIZE_INCREASED
      case DEVICE_SIZE_DECREASED => EXPLAIN_DEVICE_SIZE_DECREASED
    }

    function Summarize(): (r: string)
      ensures |r| > 0
    {
      match this
      case NO_IPC_REQUESTS => "Pool state changes not possible"
      case NO_POOL_CHANGES => "Pool maintenance operations not possible"
      case NO_ALLOC_SPACE => "All devices fully allocated"
      case DEVICE_SIZE_INCREASED => "A device in this pool has increased in size."
      case DEVICE_SIZE_DECREASED => "A device in this pool has decreased in size."
    }
  }

  const EXPLAIN_NO_IPC_REQUESTS: string := "The pool will return an error on any IPC request that could cause a change in the pool state, for example, a request to rename a filesystem. It will still be able to respond to purely informational requests."
  const EXPLAIN_NO_POOL_CHANGES: string := "The pool is unable to manage itself by reacting to events, such as devicemapper events, that might require it to take any maintenance operations."
  const EXPLAIN_NO_ALLOC_SPACE: string := "Every device belonging to the pool has been fully allocated. To increase the allocable space, add additional data devices to the pool."
  const EXPLAIN_DEVICE_SIZE_INCREASED: string := "At least one device belonging to this pool appears to have increased in size."
  const EXPLAIN_DEVICE_SIZE_DECREASED: string := "At least one device belonging to this pool appears to have decreased in size."

  /** The strings the codes render as. */
  lemma Rendering()
    ensures NO_IPC_REQUESTS.ToString() == "EM001" && NO_POOL_CHANGES.ToString() == "EM002"
    ensures NO_ALLOC_SPACE.ToString() == "WS001"
    ensures DEVICE_SIZE_INCREASED.ToString() == "IDS001" && DEVICE_SIZE_DECREASED.ToString() == "WDS002"
  {
    RenderedAs(NO_IPC_REQUESTS);
    RenderedAs(NO_POOL_CHANGES);
    RenderedAs(NO_ALLOC_SPACE);
    RenderedAs(DEVICE_SIZE_INCREASED);
    RenderedAs(DEVICE_SIZE_DECREASED);
  }

  lemma RenderedAs(c: PoolErrorCode)
    ensures c.ToString() == match c
      case NO_IPC_REQUESTS => "EM001"
      case NO_POOL_CHANGES => "EM002"
      case NO_ALLOC_SPACE => "WS001"
      case DEVICE_SIZE_INCREASED => "IDS001"
      case DEVICE_SIZE_DECREASED => "WDS002"
  {
    match c
    case NO_IPC_REQUESTS => RenderedAsLiteral(c, "EM001");
    case NO_POOL_CHANGES => RenderedAsLiteral(c, "EM002");
    case NO_ALLOC_SPACE => RenderedAsLiteral(c, "WS001");
    case DEVICE_SIZE_INCREASED => RenderedAsLiteral(c, "IDS001");
    case DEVICE_SIZE_DECREASED => RenderedAsLiteral(c, "WDS002");
  }

  /** The rendering ends in three decimal digits that denote the member's value. */
  lemma ValueDigits(c: PoolErrorCode)
    ensures var r := c.ToString();
      |r| == 4 + |c.Category()| && AllDigits(r[|r| - 3..]) && DecimalValue(r[|r| - 3..]) == c.Value()
  {
    var r := c.ToString();
    PaddedDigit(c.Value());
    assert r[|r| - 3..] == ['0', '0', DigitChar(c.Value())];
  }

  lemma RenderedAsLiteral(c: PoolErrorCode, expected: string)
    requires expected == c.Level().ToString() + c.Category() + ['0', '0', DigitChar(c.Value())]
    ensures c.ToString() == expected
  {
  }

  /** Distinct codes render distinctly. */
  lemma ToStringInjective(a: PoolErrorCode, b: PoolErrorCode)
    requires a.ToString() == b.ToString()
    ensures a == b
  {
    Rendering();
  }

  /** Distinct codes have distinct explanations, so `explain` tells every code apart. */
  lemma ExplainInjective(a: PoolErrorCode, b: PoolErrorCode)
    ensures a.Explain() == b.Explain() <==> a == b
  {
  }

  /** Distinct codes have distinct summaries. */
  lemma SummarizeInjective(a: PoolErrorCode, b: PoolErrorCode)
    ensures a.Summarize() == b.Summarize() <==> a == b
  {
  }

  /** The members of one enumeration, in declaration order. */
  function Members(c: ErrorClass): (r: seq<PoolErrorCode>)
    ensures forall i :: 0 <= i < |r| ==> r[i].Class() == c
    ensures forall code: PoolErrorCode :: code.Class() == c ==> code in r
  {
    match c
    case PoolMaintenanceErrorCode => [NO_IPC_REQUESTS, NO_POOL_CHANGES]
    case PoolAllocSpaceErrorCode => [NO_ALLOC_SPACE]
    case PoolDeviceSizeChangeCode => [DEVICE_SIZE_INCREASED, DEVICE_SIZE_DECREASED]
  }

  /** `next((code for code in codes if s == str(code)), None)`. */
  function FirstWithString(codes: seq<PoolErrorCode>, s: string): (r: Option<PoolErrorCode>)
    ensures r.Some? ==> r.value in codes && r.value.ToString() == s
    ensures r.None? <==> forall i :: 0 <= i < |codes| ==> codes[i].ToString() != s
  {
    if |codes| == 0 then None
    else if codes[0].ToString() == s then Some(codes[0])
    else FirstWithString(codes[1..], s)
  }

  /** `<class>.from_str(s)`: the member of the enumeration rendering as `s`, else None. */
  function FromStr(c: ErrorClass, s: string): (r: Option<PoolErrorCode>)
    ensures r.Some? ==> r.value.Class() == c && r.value.ToString() == s
    ensures r.None? <==> forall code: PoolErrorCode :: code.Class() == c ==> code.ToString() != s
  {
    FirstWithString(Members(c), s)
  }

  /** `PoolErrorCode.codes()`: every member of every class, classes in `CLASSES` order. */
  function Codes(): (r: seq<PoolErrorCode>)
    ensures forall code: PoolErrorCode :: code in r
    ensures forall i, j :: 0 <= i < j < |r| ==> r[i] != r[j]
    ensures forall i, j :: 0 <= i < j < |r| ==> Index(CLASSES, r[i].Class()) <= Index(CLASSES, r[j].Class())
  {
    Members(CLASSES[0]) + Members(CLASSES[1]) + Members(CLASSES[2])
  }

  function Index(classes: seq<ErrorClass>, c: ErrorClass): nat
    requires c in classes
  {
    if classes[0] == c then 0 else 1 + Index(classes[1..], c)
  }

  /** The first class of `classes` whose `from_str` finds `s`. */
  function FirstClassMatch(classes: seq<ErrorClass>, s: string): (r: Option<PoolErrorCode>)
    ensures r.Some? ==> r.value.Class() in classes && r.value.ToString() == s
    ensures r.None? <==> forall i :: 0 <= i < |classes| ==> FromStr(classes[i], s).None?
  {
    if |classes| == 0 then None
    else
      match FromStr(classes[0], s)
      case Some(code) => Some(code)
      case None => FirstClassMatch(classes[1..], s)
  }

  /**
   * `PoolErrorCode.error_from_str(s)`: the code rendering as `s`. Python
   * raises `StopIteration` when there is none; that is None here.
   */
  function ErrorFromStr(s: string): (r: Option<PoolErrorCode>)
    ensures r.Some? ==> r.value.ToString() == s
    ensures r.None? <==> forall code: PoolErrorCode :: code.ToString() != s
  {
    var r := FirstClassMatch(CLASSES, s);
    if r.None? then NoClassMatch(s); r else r
  }

  lemma NoClassMatch(s: string)
    requires FirstClassMatch(CLASSES, s).None?
    ensures forall code: PoolErrorCode :: code.ToString() != s
  {
    forall code: PoolErrorCode ensures code.ToString() != s {
      assert FromStr(CLASSES[Index(CLASSES, code.Class())], s).None?;
    }
  }

  /** `error_from_str(str(c)) == c` for every code. */
  lemma ErrorFromStrRoundTrip(c: PoolErrorCode)
    ensures ErrorFromStr(c.ToString()) == Some(c)
    ensures FromStr(c.Class(), c.ToString()) == Some(c)
  {
    var r := ErrorFromStr(c.ToString());
    assert r.Some?;
    ToStringInjective(r.value, c);
    var q := FromStr(c.Class(), c.ToString());
    assert q.Some?;
    ToStringInjective(q.value, c);
  }

  /** `PoolErrorCode.explain(s)`: the explanation of the code rendering as `s`. */
  function Explain(s: string): (r: Option<string>)
    ensures r.None? <==> forall code: PoolErrorCode :: code.ToString() != s
    ensures forall code: PoolErrorCode :: code.ToString() == s ==> r == Some(code.Explain())
  {
    match ErrorFromStr(s)
    case None => None
    case Some(code) =>
      ExplainUnique(code, s);
      Some(code.Explain())
  }

  lemma ExplainUnique(found: PoolErrorCode, s: string)
    requires found.ToString() == s
    ensures forall code: PoolErrorCode :: code.ToString() == s ==> code == found
  {
    forall code: PoolErrorCode | code.ToString() == s ensures code == found {
      ToStringInjective(code, found);
    }
  }
}
