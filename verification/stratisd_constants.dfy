/**
 * The daemon's integer enumerations as the client mirrors them
 * (`_stratisd_constants.py`), and `value_to_name`, which renders a value
 * of such an enumeration as its member name.
 */
module StratisdConstants {
  import opened Wrappers
  import opened Text

  /** An `IntEnum` class: its name and its members in definition order. */
  datatype EnumClass = EnumClass(name: string, members: seq<(string, int)>)

  /** `klass(num)`: the index of the first member with value `num`, if any. */
  function Lookup(members: seq<(string, int)>, num: int): (r: Option<nat>)
    ensures r.Some? ==>
      (r.value < |members| && members[r.value].1 == num
       && forall j :: 0 <= j < r.value ==> members[j].1 != num)
    ensures r.None? ==> forall j :: 0 <= j < |members| ==> members[j].1 != num
  {
    if |members| == 0 then None
    else if members[0].1 == num then Some(0)
    else match Lookup(members[1..], num)
      case Some(j) => Some(j + 1)
      case None => None
  }

  /**
   * Python `str(member)` for an `IntEnum` member: since Python 3.11 this is
   * `int.__str__`, the member's value in decimal.
   */
  function MemberString(klass: EnumClass, i: nat): (r: string)
    requires i < |klass.members|
    ensures ParsePyInt(r) == Some(klass.members[i].1)
    ensures '.' !in r && '_' !in r
  {
    ParseIntToString(klass.members[i].1);
    IntToStringChars(klass.members[i].1, '.');
    IntToStringChars(klass.members[i].1, '_');
    IntToString(klass.members[i].1)
  }

  /** The last "."-separated segment of a string: Python `s.rsplit(".")[-1]`. */
  function LastSegment(s: string): string {
    var parts := Split(s, '.');
    parts[|parts| - 1]
  }

  /**
   * `value_to_name(klass)(num, terse_unknown)` as written. A known value
   * renders through `str(klass(num))`, which is the decimal number itself,
   * so the member's name never appears.
   */
  function ValueToName(klass: EnumClass, num: int, terseUnknown: bool): (r: string)
    ensures Lookup(klass.members, num).Some? ==> r == IntToString(num)
    ensures Lookup(klass.members, num).None? ==>
      r == if terseUnknown then "???"
           else "Unknown value (" + IntToString(num) + ") for " + klass.name + " constant"
  {
    match Lookup(klass.members, num)
    case Some(i) =>
      var m := MemberString(klass, i);
      PlainSegment(m);
      ReplaceChar(LastSegment(m), '_', ' ')
    case None =>
      if terseUnknown then "???"
      else "Unknown value (" + IntToString(num) + ") for " + klass.name + " constant"
  }

  /** A string without "." or "_" passes `rsplit(".")[-1].replace("_", " ")` unchanged. */
  lemma PlainSegment(m: string)
    requires '.' !in m && '_' !in m
    ensures ReplaceChar(LastSegment(m), '_', ' ') == m
  {
    assert Split(m, '.') == [m];
  }

  /**
   * `value_to_name` as its documentation intends: a known value renders as
   * its member's name with underscores turned into spaces, i.e. the last
   * segment of "Class.MEMBER" (the pre-3.11 `str` of a member).
   */
  function ValueToNameIntended(klass: EnumClass, num: int, terseUnknown: bool): (r: string)
    ensures Lookup(klass.members, num).None? ==> r == ValueToName(klass, num, terseUnknown)
  {
    match Lookup(klass.members, num)
    case Some(i) => ReplaceChar(LastSegment(klass.name + "." + klass.members[i].0), '_', ' ')
    case None => ValueToName(klass, num, terseUnknown)
  }

  /**
   * For a value of the enumeration whose member names contain no ".", the
   * intended name is the member's name with every "_" replaced by a space;
   * it never contains "_".
   */
  lemma ValueToNameKnown(klass: EnumClass, num: int, terseUnknown: bool)
    requires Lookup(klass.members, num).Some?
    requires '.' !in klass.members[Lookup(klass.members, num).value].0
    ensures var member := klass.members[Lookup(klass.members, num).value].0;
      ValueToNameIntended(klass, num, terseUnknown) == ReplaceChar(member, '_', ' ')
    ensures '_' !in ValueToNameIntended(klass, num, terseUnknown)
  {
    var member := klass.members[Lookup(klass.members, num).value].0;
    assert klass.name + "." + member == klass.name + ['.'] + member;
    SplitLast(klass.name, '.', member);
  }

  /**
   * The two disagree on every known value of the errors enumeration:
   * `ALREADY_EXISTS` prints as "2" where "ALREADY EXISTS" is meant.
   */
  lemma ValueToNameShowsNumber()
    ensures ValueToName(STRATISD_ERRORS, 2, false) == "2"
    ensures ValueToNameIntended(STRATISD_ERRORS, 2, false) == "ALREADY EXISTS"
  {
    TwoIsAlreadyExists();
    assert IntToString(2) == "2";
    AlreadyExistsIntended();
  }

  lemma AlreadyExistsIntended()
    ensures ValueToNameIntended(STRATISD_ERRORS, 2, false) == "ALREADY EXISTS"
  {
    TwoIsAlreadyExists();
    ValueToNameKnown(STRATISD_ERRORS, 2, false);
    AlreadyExistsSpaced(STRATISD_ERRORS.members[2].0);
  }

  lemma AlreadyExistsSpaced(m: string)
    requires m == "ALREADY_EXISTS"
    ensures ReplaceChar(m, '_', ' ') == "ALREADY EXISTS"
  {
    var a, b := "ALREADY", "EXISTS";
    assert m == a + "_" + b;
    ReplaceUnderscore(m, a, b);
  }

  lemma TwoIsAlreadyExists()
    ensures Lookup(STRATISD_ERRORS.members, 2) == Some(2)
    ensures STRATISD_ERRORS.members[2].0 == "ALREADY_EXISTS"
  {
    var members := STRATISD_ERRORS.members;
    assert members[0].1 != 2 && members[1].1 != 2 && members[2].1 == 2;
    assert Lookup(members[2..], 2) == Some(0);
    assert Lookup(members[1..], 2) == Some(1) by { assert members[1..][1..] == members[2..]; }
  }

  lemma ReplaceUnderscore(m: string, a: string, b: string)
    requires '_' !in a && '_' !in b && m == a + "_" + b
    ensures ReplaceChar(m, '_', ' ') == a + " " + b
  {
  }

  const STRATISD_ERRORS: EnumClass := EnumClass("StratisdErrors",
    [("OK", 0), ("ERROR", 1), ("ALREADY_EXISTS", 2), ("BUSY", 3), ("INTERNAL_ERROR", 4), ("NOT_FOUND", 5)])

  const REDUNDANCY_CODES: EnumClass := EnumClass("RedundancyCodes", [("NONE", 0)])

  const BLOCK_DEV_TIERS: EnumClass := EnumClass("BlockDevTiers", [("Data", 0), ("Cache", 1)])

  /** `StratisdErrors.OK`: the return code of a successful daemon method. */
  const OK: int := 0

  /** `BlockDevTiers`. */
  datatype BlockDevTier = Data | Cache {
    function Value(): int {
      match this
      case Data => 0
      case Cache => 1
    }
  }

  /** The tier enumeration agrees with its table, and its values are distinct. */
  lemma BlockDevTierValues()
    ensures Lookup(BLOCK_DEV_TIERS.members, Data.Value()) == Some(0)
    ensures Lookup(BLOCK_DEV_TIERS.members, Cache.Value()) == Some(1)
    ensures Data.Value() != Cache.Value()
  {
    var members := BLOCK_DEV_TIERS.members;
    assert members[0] == ("Data", 0) && members[1] == ("Cache", 1);
    assert Lookup(members, 0) == Some(0);
    assert Lookup(members[1..], 1) == Some(0);
  }

  /** The texts printed for a return code the client does not know. */
  lemma ValueToNameUnknownExamples()
    ensures ValueToName(STRATISD_ERRORS, 6, true) == "???"
    ensures ValueToName(STRATISD_ERRORS, 6, false) == "Unknown value (" + "6" + ") for " + "StratisdErrors" + " constant"
  {
    SixIsUnknown();
    assert IntToString(6) == "6";
  }

  lemma SixIsUnknown()
    ensures Lookup(STRATISD_ERRORS.members, 6).None?
  {
    var members := STRATISD_ERRORS.members;
    assert forall j :: 0 <= j < |members| ==> members[j].1 == j;
  }

  const CLEVIS_KEY_TANG_TRUST_URL: string := "stratis:tang:trust_url"
  const CLEVIS_PIN_TANG: string := "tang"
  const CLEVIS_PIN_TPM2: string := "tpm2"
  const CLEVIS_KEY_THP: string := "thp"
  const CLEVIS_KEY_URL: string := "url"
}
