/**
 * Shared argument parsing of `_parser/_shared.py`: size specifications,
 * natural-number arguments, the reject/default argparse actions and the
 * consistency rules of the Clevis encryption options.
 */
module ParserShared {
  import opened Wrappers
  import opened Text
  import opened Namespace
  import Constants
  import StratisdConstants

  // ---------------------------------------------------------------------
  // Size specifications "<magnitude><units>"

  /** `_unit_map`: the binary unit's power of 1024, `None` where `_unit_map` asserts. */
  function UnitExponent(unit: string): (r: Option<nat>)
    ensures r.Some? <==> unit in {"B", "KiB", "MiB", "GiB", "TiB", "PiB"}
    ensures r.Some? ==> r.value <= 5
  {
    if unit == "B" then Some(0)
    else if unit == "KiB" then Some(1)
    else if unit == "MiB" then Some(2)
    else if unit == "GiB" then Some(3)
    else if unit == "TiB" then Some(4)
    else if unit == "PiB" then Some(5)
    else None
  }

  lemma UnitExponentValues()
    ensures UnitExponent("B") == Some(0) && UnitExponent("KiB") == Some(1)
    ensures UnitExponent("MiB") == Some(2) && UnitExponent("GiB") == Some(3)
    ensures UnitExponent("TiB") == Some(4) && UnitExponent("PiB") == Some(5)
    ensures UnitExponent("KB").None? && UnitExponent("b").None? && UnitExponent("").None?
  {
  }

  /** `1024 ** k`: the number of bytes in the unit of exponent `k`. */
  function Pow1024(k: nat): (p: nat)
    ensures p >= 1
  {
    if k == 0 then 1 else 1024 * Pow1024(k - 1)
  }

  /** The length of the longest prefix of decimal digits. */
  function DigitPrefixLength(s: string): (n: nat)
    ensures n <= |s| && AllDigits(s[..n])
    ensures n < |s| ==> !IsDigit(s[n])
  {
    if |s| == 0 || !IsDigit(s[0]) then 0
    else
      var n := 1 + DigitPrefixLength(s[1..]);
      assert s[..n] == [s[0]] + s[1..][..n - 1];
      n
  }

  /**
   * The regular expression `^(?P<magnitude>[0-9]+)(?P<units>([KMGTP]i)?B)$`
   * searched in `s`: `$` also matches just before a final newline.
   */
  function MatchRange(s: string): (r: Option<(string, string)>)
    ensures r.Some? ==>
      var (magnitude, units) := r.value;
      |magnitude| >= 1 && AllDigits(magnitude) && UnitExponent(units).Some?
      && (s == magnitude + units || s == magnitude + units + "\n")
  {
    var body := if |s| > 0 && s[|s| - 1] == '\n' then s[..|s| - 1] else s;
    var n := DigitPrefixLength(body);
    if n >= 1 && UnitExponent(body[n..]).Some? then
      assert body == body[..n] + body[n..];
      Some((body[..n], body[n..]))
    else None
  }

  /** Every digits-then-unit string, with or without a final newline, matches. */
  lemma MatchRangeComplete(magnitude: string, units: string, newline: bool)
    requires |magnitude| >= 1 && AllDigits(magnitude) && UnitExponent(units).Some?
    ensures MatchRange(magnitude + units + (if newline then "\n" else "")) == Some((magnitude, units))
  {
    var s := magnitude + units + (if newline then "\n" else "");
    var body := magnitude + units;
    assert (if |s| > 0 && s[|s| - 1] == '\n' then s[..|s| - 1] else s) == body;
    assert body[..|magnitude|] == magnitude && body[|magnitude|..] == units;
    DigitPrefixOf(magnitude, units);
  }

  lemma {:induction false} DigitPrefixOf(d: string, u: string)
    requires AllDigits(d) && UnitExponent(u).Some?
    ensures DigitPrefixLength(d + u) == |d|
  {
    if |d| > 0 {
      assert (d + u)[1..] == d[1..] + u;
      DigitPrefixOf(d[1..], u);
    }
  }

  /** The `ArgumentTypeError` `parse_range` raises. */
  const ILL_FORMED_SIZE: string :=
    "Ill-formed size specification: Size must be specified using the format <magnitude><units> where "
    + "<magnitude> is a decimal integer value and <units> is any binary unit specifier in the set "
    + "\"B\", \"KiB\", \"MiB\", \"GiB\", \"TiB\", and \"PiB\"."

  /** `parse_range(values)`: the size in bytes, a whole number. */
  function ParseRange(values: string): (r: Result<nat, string>)
    ensures r.Success? <==> MatchRange(values).Some?
    ensures r.Success? ==>
      var (magnitude, units) := MatchRange(values).value;
      r.value == DecimalValue(magnitude) * Pow1024(UnitExponent(units).value)
    ensures r.Failure? ==> r.error == ILL_FORMED_SIZE
  {
    match MatchRange(values)
    case None => Failure(ILL_FORMED_SIZE)
    case Some((magnitude, units)) => Success(DecimalValue(magnitude) * Pow1024(UnitExponent(units).value))
  }

  /**
   * A size specification is accepted iff it is digits followed by one of the
   * six binary units (optionally followed by one newline), and denotes the
   * magnitude times 1024 to the unit's index.
   */
  lemma ParseRangeExact(magnitude: string, units: string, newline: bool)
    requires |magnitude| >= 1 && AllDigits(magnitude) && UnitExponent(units).Some?
    ensures ParseRange(magnitude + units + (if newline then "\n" else ""))
      == Success(DecimalValue(magnitude) * Pow1024(UnitExponent(units).value))
  {
    MatchRangeComplete(magnitude, units, newline);
  }

  lemma ParseRangeAcceptsLeadingZeros()
    ensures ParseRange("01GiB") == Success(1024 * 1024 * 1024)
  {
    LeadingZeroOne();
    GiBIsPow1024Of3();
    ParseRangeExact("01", "GiB", false);
    assert "01" + "GiB" + "" == "01GiB";
  }

  lemma LeadingZeroOne()
    ensures AllDigits("01") && DecimalValue("01") == 1
  {
    assert "01"[..1] == "0";
  }

  lemma GiBIsPow1024Of3()
    ensures UnitExponent("GiB") == Some(3) && Pow1024(3) == 1024 * 1024 * 1024
  {
  }

  lemma ParseRangeRejectsDecimalUnits()
    ensures ParseRange("2KB").Failure?
  {
    assert DigitPrefixLength("2KB") == 1 by {
      assert "2KB"[1..] == "KB";
      assert DigitPrefixLength("KB") == 0;
    }
    assert "2KB"[1..] == "KB";
  }

  lemma ParseRangeRejectsMissingMagnitude()
    ensures ParseRange("GiB").Failure?
  {
    assert DigitPrefixLength("GiB") == 0;
  }

  // ---------------------------------------------------------------------
  // Natural numbers

  /** `ensure_nat(arg)`: `int(arg)` when that parses and is not negative. */
  function EnsureNat(arg: string): (r: Result<nat, string>)
    ensures r.Success? <==> ParsePyInt(arg).Some? && ParsePyInt(arg).value >= 0
    ensures r.Success? ==> r.value == ParsePyInt(arg).value
    ensures r.Failure? ==> r.error == "Argument " + arg + " is not a natural number."
  {
    match ParsePyInt(arg)
    case None => Failure("Argument " + arg + " is not a natural number.")
    case Some(i) => if i < 0 then Failure("Argument " + arg + " is not a natural number.") else Success(i)
  }

  /** Every natural number's decimal form is accepted as itself; negative numbers are refused. */
  lemma EnsureNatRoundTrip(i: int)
    ensures i >= 0 ==> EnsureNat(IntToString(i)) == Success(i)
    ensures i < 0 ==> EnsureNat(IntToString(i)).Failure?
  {
    ParseIntToString(i);
  }

  lemma EnsureNatAcceptsNegativeZero()
    ensures EnsureNat("-0") == Success(0)
  {
    var t := "-0";
    assert Strip(t) == t by {
      assert t[0] == '-' && t[1] == '0' && |t| == 2;
      StripNoSpace(t);
    }
    assert t[1..] == "0";
    ZeroDigits();
    ParsePyIntNegative(t);
  }

  lemma ZeroDigits()
    ensures UnderscoredDigits("0") && RemoveUnderscores("0") == "0" && DecimalValue("0") == 0
  {
    assert AllDigits("0");
  }

  lemma EnsureNatRejectsNegative()
    ensures EnsureNat("-1").Failure?
  {
    EnsureNatRoundTrip(-1);
    assert IntToString(-1) == "-1";
  }

  lemma EnsureNatRejectsWord()
    ensures EnsureNat("x").Failure?
  {
    LetterRejected("x");
  }

  /** A single letter is no integer. */
  lemma LetterRejected(w: string)
    requires |w| == 1 && 'a' <= w[0] <= 'z'
    ensures EnsureNat(w).Failure?
  {
    StripNoSpace(w);
  }

  // ---------------------------------------------------------------------
  // argparse actions

  /** `RejectAction`: any use of the option is an error. */
  function RejectAction(ns: Namespace, optionString: string): (r: Result<Namespace, string>)
    ensures r.Failure? && r.error == "Option " + optionString + " can not be assigned to or set."
  {
    Failure("Option " + optionString + " can not be assigned to or set.")
  }

  /** `DefaultAction`: stores the value and records that it is not the default. */
  function DefaultAction(ns: Namespace, dest: string, value: Arg): (r: Namespace)
    ensures r.Keys == ns.Keys + {dest, dest + "_default"}
    ensures r[dest] == value && r[dest + "_default"] == ABool(false)
    ensures forall k :: k in ns && k != dest && k != dest + "_default" ==> r[k] == ns[k]
  {
    assert dest + "_default" != dest by { assert |dest + "_default"| != |dest|; }
    ns[dest := value][dest + "_default" := ABool(false)]
  }

  // ---------------------------------------------------------------------
  // Clevis encryption options

  /** The four option values `ClevisEncryptionOptions` takes from the namespace. */
  datatype ClevisOptions = ClevisOptions(clevis: Arg, thumbprint: Arg, tangUrl: Arg, trustUrl: Arg)

  const CLEVIS_ATTRIBUTES: set<string> := {"clevis", "thumbprint", "tang_url", "trust_url"}

  /**
   * `ClevisEncryptionOptions.__init__`: copies the four attributes and
   * deletes them from the namespace; a missing one is an `AttributeError`.
   */
  function TakeClevisOptions(ns: Namespace): (r: Result<(ClevisOptions, Namespace), string>)
    ensures r.Success? <==> CLEVIS_ATTRIBUTES <= ns.Keys
    ensures r.Success? ==>
      r.value.0 == ClevisOptions(ns["clevis"], ns["thumbprint"], ns["tang_url"], ns["trust_url"])
      && r.value.1 == ns - CLEVIS_ATTRIBUTES
  {
    if CLEVIS_ATTRIBUTES <= ns.Keys then
      Success((ClevisOptions(ns["clevis"], ns["thumbprint"], ns["tang_url"], ns["trust_url"]), ns - CLEVIS_ATTRIBUTES))
    else Failure("AttributeError")
  }

  predicate IsTang(a: Arg) {
    a == AClevis(Constants.NBDE) || a == AClevis(Constants.TANG)
  }

  const TANG_WITHOUT_URL: string :=
    "Specified binding with Clevis Tang server, but URL was not specified. Use --tang-url option to specify tang URL."
  const URL_WITHOUT_VERIFICATION: string :=
    "Specified binding with Clevis Tang server, but neither --thumbprint nor --trust-url option was specified."
  const URL_WITHOUT_TANG: string :=
    "Specified --tang-url without specifying Clevis encryption method. Use --clevis=tang to choose Clevis encryption."
  const VERIFICATION_WITHOUT_URL: string :=
    "Specified --trust-url or --thumbprint without specifying tang URL. Use --tang-url to specify URL."

  /** The four rules, in the order `verify` checks them. */
  predicate TangWithoutUrl(o: ClevisOptions) {
    IsTang(o.clevis) && o.tangUrl == ANone
  }

  predicate UrlWithoutVerification(o: ClevisOptions) {
    o.tangUrl != ANone && !Truthy(o.trustUrl) && o.thumbprint == ANone
  }

  predicate UrlWithoutTang(o: ClevisOptions) {
    o.tangUrl != ANone && !IsTang(o.clevis)
  }

  predicate VerificationWithoutUrl(o: ClevisOptions) {
    (Truthy(o.trustUrl) || o.thumbprint != ANone) && o.tangUrl == ANone
  }

  /** The Tang configuration: the URL, and the trust flag or else the thumbprint. */
  function TangConfig(url: Arg, trustUrl: bool, thumbprint: Arg): map<string, Arg> {
    map[StratisdConstants.CLEVIS_KEY_URL := url]
      + if trustUrl then map[StratisdConstants.CLEVIS_KEY_TANG_TRUST_URL := ABool(true)]
        else map[StratisdConstants.CLEVIS_KEY_THP := thumbprint]
  }

  /**
   * `ClevisEncryptionOptions.verify`: the first violated rule is reported
   * (`parser.error`); otherwise the value stored as `namespace.clevis`.
   */
  function Verify(o: ClevisOptions): (r: Result<Option<ClevisInfo>, string>)
    ensures r.Failure? <==>
      TangWithoutUrl(o) || UrlWithoutVerification(o) || UrlWithoutTang(o) || VerificationWithoutUrl(o)
    ensures r.Failure? ==>
      (r.error == if TangWithoutUrl(o) then TANG_WITHOUT_URL
                  else if UrlWithoutVerification(o) then URL_WITHOUT_VERIFICATION
                  else if UrlWithoutTang(o) then URL_WITHOUT_TANG
                  else VERIFICATION_WITHOUT_URL)
    ensures r.Success? && o.clevis == ANone ==> r.value == None
    ensures r.Success? && IsTang(o.clevis) ==>
      o.tangUrl != ANone && (Truthy(o.trustUrl) || o.thumbprint != ANone)
      && r.value == Some(ClevisInfo(StratisdConstants.CLEVIS_PIN_TANG, TangConfig(o.tangUrl, Truthy(o.trustUrl), o.thumbprint)))
    ensures r.Success? && o.clevis != ANone && !IsTang(o.clevis) ==>
      o.tangUrl == ANone && o.thumbprint == ANone && !Truthy(o.trustUrl)
      && r.value == Some(ClevisInfo(StratisdConstants.CLEVIS_PIN_TPM2, map[]))
  {
    if TangWithoutUrl(o) then Failure(TANG_WITHOUT_URL)
    else if UrlWithoutVerification(o) then Failure(URL_WITHOUT_VERIFICATION)
    else if UrlWithoutTang(o) then Failure(URL_WITHOUT_TANG)
    else if VerificationWithoutUrl(o) then Failure(VERIFICATION_WITHOUT_URL)
    else if o.clevis == ANone then Success(None)
    else if IsTang(o.clevis) then
      Success(Some(ClevisInfo(StratisdConstants.CLEVIS_PIN_TANG, TangConfig(o.tangUrl, Truthy(o.trustUrl), o.thumbprint))))
    else Success(Some(ClevisInfo(StratisdConstants.CLEVIS_PIN_TPM2, map[])))
  }

  /** The Tang configuration holds the URL and exactly one of the trust flag and the thumbprint. */
  lemma TangConfigShape(url: Arg, trustUrl: bool, thumbprint: Arg)
    ensures TangConfig(url, trustUrl, thumbprint).Keys ==
      {StratisdConstants.CLEVIS_KEY_URL,
       if trustUrl then StratisdConstants.CLEVIS_KEY_TANG_TRUST_URL else StratisdConstants.CLEVIS_KEY_THP}
    ensures TangConfig(url, trustUrl, thumbprint)[StratisdConstants.CLEVIS_KEY_URL] == url
    ensures trustUrl ==> TangConfig(url, trustUrl, thumbprint)[StratisdConstants.CLEVIS_KEY_TANG_TRUST_URL] == ABool(true)
    ensures !trustUrl ==> TangConfig(url, trustUrl, thumbprint)[StratisdConstants.CLEVIS_KEY_THP] == thumbprint
  {
  }

  /** The combinations the option tests exercise. */
  lemma VerifyRejections()
    ensures Verify(ClevisOptions(AClevis(Constants.TANG), ANone, ANone, ABool(false))).error == TANG_WITHOUT_URL
    ensures Verify(ClevisOptions(AClevis(Constants.TANG), ANone, AStr("http://x"), ABool(false))).error
      == URL_WITHOUT_VERIFICATION
    ensures Verify(ClevisOptions(ANone, ANone, AStr("http://x"), ABool(true))).error == URL_WITHOUT_TANG
    ensures Verify(ClevisOptions(ANone, AStr("print"), ANone, ABool(false))).error == VERIFICATION_WITHOUT_URL
  {
  }

  lemma VerifyTangTrust()
    ensures Verify(ClevisOptions(AClevis(Constants.TANG), ANone, AStr("http://x"), ABool(true)))
      == Success(Some(ClevisInfo("tang", map["url" := AStr("http://x"), "stratis:tang:trust_url" := ABool(true)])))
  {
    var m := TangConfig(AStr("http://x"), true, ANone);
    assert m == map["url" := AStr("http://x"), "stratis:tang:trust_url" := ABool(true)];
  }

  lemma VerifyTangThumbprint()
    ensures Verify(ClevisOptions(AClevis(Constants.NBDE), AStr("print"), AStr("http://x"), ABool(false)))
      == Success(Some(ClevisInfo("tang", map["url" := AStr("http://x"), "thp" := AStr("print")])))
  {
    var m := TangConfig(AStr("http://x"), false, AStr("print"));
    assert m == map["url" := AStr("http://x"), "thp" := AStr("print")];
  }
}
