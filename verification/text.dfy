/**
 * String helpers with the meaning of the Python built-ins the client relies
 * on: decimal and hexadecimal rendering, `int(str)`, `str.split`,
 * `str.join`, `str.rstrip`, `str.replace` and `str.zfill`.
 * Strings are sequences of code points.
 */
module Text {
  import opened Wrappers

  // ---------------------------------------------------------------------
  // Decimal digits

  predicate IsDigit(c: char) {
    '0' <= c <= '9'
  }

  predicate AllDigits(s: string) {
    forall i :: 0 <= i < |s| ==> IsDigit(s[i])
  }

  function DigitValue(c: char): (d: nat)
    requires IsDigit(c)
    ensures d < 10
  {
    (c as int - '0' as int) as nat
  }

  function DigitChar(d: nat): (c: char)
    requires d < 10
    ensures IsDigit(c) && DigitValue(c) == d
  {
    ('0' as int + d) as char
  }

  /** The number a string of decimal digits denotes (most significant first). */
  function DecimalValue(s: string): nat
    requires AllDigits(s)
  {
    if |s| == 0 then 0 else DecimalValue(s[..|s| - 1]) * 10 + DigitValue(s[|s| - 1])
  }

  /** A decimal rendering without superfluous leading zeros. */
  predicate Canonical(s: string) {
    |s| >= 1 && AllDigits(s) && (s[0] == '0' ==> |s| == 1)
  }

  /** Python `str(n)` for a natural number. */
  function NatToDecimal(n: nat): (r: string)
    ensures Canonical(r)
    ensures DecimalValue(r) == n
  {
    if n < 10 then [DigitChar(n)]
    else
      var p := NatToDecimal(n / 10);
      var r := p + [DigitChar(n % 10)];
      assert r[..|r| - 1] == p;
      r
  }

  lemma {:induction false} DecimalValueZero(s: string)
    requires AllDigits(s) && DecimalValue(s) == 0
    ensures forall i :: 0 <= i < |s| ==> s[i] == '0'
  {
    if |s| > 0 {
      DecimalValueZero(s[..|s| - 1]);
      assert forall i :: 0 <= i < |s| - 1 ==> s[i] == s[..|s| - 1][i];
    }
  }

  /** Rendering a canonical digit string's value gives the string back. */
  lemma {:induction false} DecimalRoundTrip(s: string)
    requires Canonical(s)
    ensures NatToDecimal(DecimalValue(s)) == s
  {
    if |s| > 1 {
      var p := s[..|s| - 1];
      assert Canonical(p);
      if DecimalValue(p) == 0 {
        DecimalValueZero(p);
        assert false;
      }
      DecimalRoundTrip(p);
      var c := s[|s| - 1];
      NatToDecimalStep(DecimalValue(p), DigitValue(c));
      assert DigitChar(DigitValue(c)) == c;
      assert s == p + [c];
    }
  }

  /** One more digit on the right of a positive number's rendering. */
  lemma NatToDecimalStep(a: nat, d: nat)
    requires a >= 1 && d < 10
    ensures NatToDecimal(a * 10 + d) == NatToDecimal(a) + [DigitChar(d)]
  {
    DivMod10(a, d);
  }

  lemma DivMod10(a: nat, d: nat)
    requires d < 10
    ensures (a * 10 + d) / 10 == a && (a * 10 + d) % 10 == d
  {
  }

  /** Python `str(i)` for any integer. */
  function IntToString(i: int): (r: string)
    ensures |r| >= 1
    ensures i >= 0 ==> Canonical(r) && DecimalValue(r) == i
    ensures i < 0 ==> r[0] == '-' && Canonical(r[1..]) && DecimalValue(r[1..]) == -i
  {
    if i >= 0 then NatToDecimal(i) else "-" + NatToDecimal(-i)
  }

  lemma NatToDecimalInjective(a: nat, b: nat)
    requires NatToDecimal(a) == NatToDecimal(b)
    ensures a == b
  {
    assert DecimalValue(NatToDecimal(a)) == a;
  }

  /** Python `s.zfill(width)` for a string without a sign. */
  function ZFill(s: string, width: nat): (r: string)
    ensures |r| == if |s| >= width then |s| else width
    ensures r[|r| - |s|..] == s
    ensures forall i :: 0 <= i < |r| - |s| ==> r[i] == '0'
  {
    if |s| >= width then s else seq(width - |s|, _ => '0') + s
  }

  // ---------------------------------------------------------------------
  // Python int(str)

  /**
   * The ASCII characters Python's `str.strip()` and `int()` treat as white
   * space, the four separators U+001C to U+001F among them.
   */
  predicate IsSpace(c: char) {
    c == ' ' || c == '\t' || c == '\n' || c == '\r' || c == '\U{B}' || c == '\U{C}' || '\U{1C}' <= c <= '\U{1F}'
  }

  function LStrip(s: string): (r: string)
    ensures |r| <= |s| && r == s[|s| - |r|..]
    ensures |r| > 0 ==> !IsSpace(r[0])
    ensures forall i :: 0 <= i < |s| - |r| ==> IsSpace(s[i])
  {
    if |s| > 0 && IsSpace(s[0]) then
      var r := LStrip(s[1..]);
      assert r == s[|s| - |r|..];
      assert forall i :: 1 <= i < |s| - |r| ==> s[i] == s[1..][i - 1];
      r
    else s
  }

  function RStrip(s: string): (r: string)
    ensures |r| <= |s| && r == s[..|r|]
    ensures |r| > 0 ==> !IsSpace(r[|r| - 1])
    ensures forall i :: |r| <= i < |s| ==> IsSpace(s[i])
  {
    if |s| > 0 && IsSpace(s[|s| - 1]) then
      var r := RStrip(s[..|s| - 1]);
      assert r == s[..|r|];
      r
    else s
  }

  function Strip(s: string): string {
    RStrip(LStrip(s))
  }

  /**
   * Digits with single underscores between them, as Python integer
   * literals allow: "1_000" but not "_1", "1_" or "1__0".
   */
  predicate UnderscoredDigits(s: string) {
    |s| >= 1 && IsDigit(s[0]) && IsDigit(s[|s| - 1])
    && (forall i :: 0 <= i < |s| ==> IsDigit(s[i]) || s[i] == '_')
    && (forall i :: 0 <= i < |s| - 1 ==> s[i] == '_' ==> s[i + 1] != '_')
  }

  function RemoveUnderscores(s: string): (r: string)
    ensures (forall i :: 0 <= i < |s| ==> IsDigit(s[i]) || s[i] == '_') ==> AllDigits(r)
    ensures AllDigits(s) ==> r == s
  {
    if |s| == 0 then ""
    else (if s[0] == '_' then "" else [s[0]]) + RemoveUnderscores(s[1..])
  }

  /**
   * Python `int(s)` on ASCII text: `None` where Python raises
   * `ValueError`. Surrounding white space is ignored, one sign is allowed,
   * and single underscores may separate the digits.
   */
  function ParsePyInt(s: string): (r: Option<int>)
    ensures r.Some? <==> var t := Strip(s);
      |t| >= 1 && (if t[0] == '-' || t[0] == '+' then UnderscoredDigits(t[1..]) else UnderscoredDigits(t))
    ensures r.Some? ==> var t := Strip(s);
      if t[0] == '-' then r.value == -(DecimalValue(RemoveUnderscores(t[1..])) as int)
      else if t[0] == '+' then r.value == DecimalValue(RemoveUnderscores(t[1..]))
      else r.value == DecimalValue(RemoveUnderscores(t))
  {
    var t := Strip(s);
    if |t| == 0 then None
    else if t[0] == '-' || t[0] == '+' then
      var body := t[1..];
      if UnderscoredDigits(body) then
        var v: int := DecimalValue(RemoveUnderscores(body));
        Some(if t[0] == '-' then -v else v)
      else None
    else if UnderscoredDigits(t) then Some(DecimalValue(RemoveUnderscores(t)))
    else None
  }

  lemma StripNoSpace(s: string)
    requires |s| > 0 && !IsSpace(s[0]) && !IsSpace(s[|s| - 1])
    ensures Strip(s) == s
  {
  }

  /** A stripped string of a minus sign and digits is the negated value of the digits. */
  lemma ParsePyIntNegative(s: string)
    requires Strip(s) == s && |s| >= 1 && s[0] == '-' && UnderscoredDigits(s[1..])
    ensures ParsePyInt(s) == Some(-(DecimalValue(RemoveUnderscores(s[1..])) as int))
  {
  }

  /** `int(str(i)) == i`. */
  lemma {:induction false} ParseIntToString(i: int)
    ensures ParsePyInt(IntToString(i)) == Some(i)
  {
    var s := IntToString(i);
    StripNoSpace(s);
    if i < 0 {
      assert s[1..] == NatToDecimal(-i);
    }
  }

  // ---------------------------------------------------------------------
  // Hexadecimal rendering, as Python's `UUID.hex`

  function Pow16(w: nat): (p: nat)
    ensures p >= 1
  {
    if w == 0 then 1 else 16 * Pow16(w - 1)
  }

  predicate IsHexDigit(c: char) {
    '0' <= c <= '9' || 'a' <= c <= 'f'
  }

  function HexDigitValue(c: char): (d: nat)
    requires IsHexDigit(c)
    ensures d < 16
  {
    if '0' <= c <= '9' then (c as int - '0' as int) as nat else (c as int - 'a' as int + 10) as nat
  }

  function HexDigitChar(d: nat): (c: char)
    requires d < 16
    ensures IsHexDigit(c) && HexDigitValue(c) == d
  {
    if d < 10 then ('0' as int + d) as char else ('a' as int + d - 10) as char
  }

  function HexValue(s: string): nat
    requires forall i :: 0 <= i < |s| ==> IsHexDigit(s[i])
  {
    if |s| == 0 then 0 else HexValue(s[..|s| - 1]) * 16 + HexDigitValue(s[|s| - 1])
  }

  /** `n` in exactly `width` lower-case hex digits, zero padded. */
  function HexFixed(n: nat, width: nat): (r: string)
    requires n < Pow16(width)
    ensures |r| == width
    ensures forall i :: 0 <= i < |r| ==> IsHexDigit(r[i])
    ensures HexValue(r) == n
  {
    if width == 0 then ""
    else
      var p := HexFixed(n / 16, width - 1);
      var r := p + [HexDigitChar(n % 16)];
      assert r[..|r| - 1] == p;
      r
  }

  lemma HexDigitRoundTrip(c: char)
    requires IsHexDigit(c)
    ensures HexDigitChar(HexDigitValue(c)) == c
  {
  }

  lemma DivMod16(a: nat, d: nat)
    requires d < 16
    ensures (a * 16 + d) / 16 == a && (a * 16 + d) % 16 == d
  {
  }

  lemma Bound16(a: nat, d: nat, b: nat)
    requires a < b && d < 16
    ensures a * 16 + d < b * 16
  {
  }

  /** Every string of hex digits is the fixed-width rendering of its value. */
  lemma {:induction false} HexRoundTrip(s: string)
    requires forall i :: 0 <= i < |s| ==> IsHexDigit(s[i])
    ensures HexValue(s) < Pow16(|s|)
    ensures HexFixed(HexValue(s), |s|) == s
  {
    if |s| > 0 {
      var p := s[..|s| - 1];
      var c := s[|s| - 1];
      HexRoundTrip(p);
      var a := HexValue(p);
      var d := HexDigitValue(c);
      assert HexValue(s) == a * 16 + d;
      DivMod16(a, d);
      Bound16(a, d, Pow16(|p|));
      HexDigitRoundTrip(c);
      HexFixedStep(a, d, |p|);
      assert s == p + [c];
    }
  }

  /** One more hex digit on the right of a fixed-width rendering. */
  lemma HexFixedStep(a: nat, d: nat, width: nat)
    requires a < Pow16(width) && d < 16
    ensures a * 16 + d < Pow16(width + 1)
    ensures HexFixed(a * 16 + d, width + 1) == HexFixed(a, width) + [HexDigitChar(d)]
  {
    DivMod16(a, d);
    Bound16(a, d, Pow16(width));
  }

  /** The bound of a 128-bit number, i.e. 16^32. */
  const UUID_LIMIT: nat := 0x1_0000_0000_0000_0000_0000_0000_0000_0000

  lemma {:induction false} Pow16Add(a: nat, b: nat)
    ensures Pow16(a + b) == Pow16(a) * Pow16(b)
  {
    if a > 0 {
      Pow16Add(a - 1, b);
    }
  }

  lemma UuidLimitIsPow16()
    ensures Pow16(32) == UUID_LIMIT
  {
    assert Pow16(2) == 0x100;
    Pow16Add(2, 2);
    Pow16Add(4, 4);
    Pow16Add(8, 8);
    Pow16Add(16, 16);
  }

  /** A UUID as its 128-bit value. */
  type Uuid = n: nat | n < UUID_LIMIT

  /** Python `UUID.hex`: 32 lower-case hexadecimal digits. */
  function UuidHex(u: Uuid): (r: string)
    ensures |r| == 32
    ensures forall i :: 0 <= i < |r| ==> IsHexDigit(r[i])
    ensures HexValue(r) == u
  {
    UuidLimitIsPow16();
    HexFixed(u, 32)
  }

  /** The value of a 32-digit hex string, as Python's `UUID(hex=s)`. */
  function UuidFromHex(s: string): (r: Option<Uuid>)
    ensures r.Some? <==> |s| == 32 && forall i :: 0 <= i < |s| ==> IsHexDigit(s[i])
    ensures r.Some? ==> UuidHex(r.value) == s
  {
    if |s| == 32 && forall i :: 0 <= i < |s| ==> IsHexDigit(s[i]) then
      HexRoundTrip(s);
      UuidLimitIsPow16();
      Some(HexValue(s))
    else None
  }

  /** Python `str(UUID)`: the hex digits in groups of 8-4-4-4-12. */
  function UuidString(u: Uuid): (r: string)
    ensures |r| == 36
  {
    var h := UuidHex(u);
    h[..8] + "-" + h[8..12] + "-" + h[12..16] + "-" + h[16..20] + "-" + h[20..]
  }

  /** Distinct UUIDs have distinct hyphenated renderings: each digit sits at a fixed place. */
  lemma UuidStringInjective(a: Uuid, b: Uuid)
    ensures UuidString(a) == UuidString(b) <==> a == b
  {
    if UuidString(a) == UuidString(b) {
      var ha, hb := UuidHex(a), UuidHex(b);
      forall i | 0 <= i < 32 ensures ha[i] == hb[i] {
        var j := if i < 8 then i else if i < 12 then i + 1 else if i < 16 then i + 2 else if i < 20 then i + 3 else i + 4;
        assert UuidString(a)[j] == ha[i];
        assert UuidString(b)[j] == hb[i];
      }
      UuidHexInjective(a, b);
    }
  }

  /** Distinct UUIDs have distinct hex renderings. */
  lemma UuidHexInjective(a: Uuid, b: Uuid)
    ensures UuidHex(a) == UuidHex(b) <==> a == b
  {
    if UuidHex(a) == UuidHex(b) {
      assert HexValue(UuidHex(a)) == HexValue(UuidHex(b));
    }
  }

  // ---------------------------------------------------------------------
  // Splitting and joining

  /** Python `sep.join(parts)`. */
  function Join(sep: string, parts: seq<string>): (r: string)
    ensures |parts| == 0 ==> r == ""
    ensures |parts| == 1 ==> r == parts[0]
  {
    if |parts| == 0 then ""
    else if |parts| == 1 then parts[0]
    else parts[0] + sep + Join(sep, parts[1..])
  }

  function FirstIndex(s: string, c: char): (i: nat)
    requires c in s
    ensures i < |s| && s[i] == c && c !in s[..i]
  {
    if s[0] == c then 0
    else
      var j := FirstIndex(s[1..], c);
      assert s[1..][..j] == s[1..j + 1];
      1 + j
  }

  /** Python `s.split(c)` for a one-character separator. */
  function Split(s: string, c: char): (r: seq<string>)
    ensures |r| >= 1
    ensures forall i :: 0 <= i < |r| ==> c !in r[i]
    decreases |s|
  {
    if c !in s then [s]
    else
      var i := FirstIndex(s, c);
      [s[..i]] + Split(s[i + 1..], c)
  }

  lemma JoinCons(sep: string, a: string, rest: seq<string>)
    requires |rest| >= 1
    ensures Join(sep, [a] + rest) == a + sep + Join(sep, rest)
  {
    assert ([a] + rest)[1..] == rest;
  }

  /** The first separator in `a + [c] + rest` is the one after `a`. */
  lemma FirstIndexAfter(a: string, c: char, rest: string)
    requires c !in a
    ensures FirstIndex(a + [c] + rest, c) == |a|
  {
    var s := a + [c] + rest;
    assert s[|a|] == c && s[..|a|] == a;
  }

  /** Splitting stops at the first separator: Python `(a + c + rest).split(c) == [a] + rest.split(c)`. */
  lemma SplitCons(a: string, c: char, rest: string)
    requires c !in a
    ensures Split(a + [c] + rest, c) == [a] + Split(rest, c)
  {
    var s := a + [c] + rest;
    FirstIndexAfter(a, c, rest);
    assert s[..|a|] == a && s[|a| + 1..] == rest;
  }

  /** A dotted triple splits into its three components. */
  lemma SplitDotted(a: string, b: string, c: string)
    requires '.' !in a && '.' !in b && '.' !in c
    ensures Split(a + "." + b + "." + c, '.') == [a, b, c]
  {
    SplitCons(b, '.', c);
    assert b + "." + c == b + ['.'] + c;
    assert a + "." + b + "." + c == a + ['.'] + (b + "." + c);
    SplitCons(a, '.', b + "." + c);
  }

  /** Splitting a join restores the pieces when none contains the separator. */
  lemma {:induction false} SplitJoin(parts: seq<string>, c: char)
    requires |parts| >= 1
    requires forall i :: 0 <= i < |parts| ==> c !in parts[i]
    ensures Split(Join([c], parts), c) == parts
  {
    if |parts| > 1 {
      assert parts == [parts[0]] + parts[1..];
      JoinCons([c], parts[0], parts[1..]);
      SplitCons(parts[0], c, Join([c], parts[1..]));
      SplitJoin(parts[1..], c);
    }
  }

  /** The decimal rendering of an integer holds only digits and a leading sign. */
  lemma IntToStringChars(i: int, c: char)
    requires c != '-' && !IsDigit(c)
    ensures c !in IntToString(i)
  {
    var r := IntToString(i);
    if i < 0 {
      assert r == [r[0]] + r[1..];
    }
  }

  /** `(a + c + rest).split(c, 1) == [a, rest]`. */
  lemma SplitOnceCons(a: string, c: char, rest: string)
    requires c !in a
    ensures SplitOnce(a + [c] + rest, c) == [a, rest]
  {
    var s := a + [c] + rest;
    FirstIndexAfter(a, c, rest);
    assert s[..|a|] == a && s[|a| + 1..] == rest;
  }

  /** Joining the pieces of a split with the separator restores the string. */
  lemma {:induction false} JoinSplit(s: string, c: char)
    ensures Join([c], Split(s, c)) == s
    decreases |s|
  {
    if c in s {
      var i := FirstIndex(s, c);
      var rest := Split(s[i + 1..], c);
      assert Split(s, c) == [s[..i]] + rest;
      JoinSplit(s[i + 1..], c);
      JoinCons([c], s[..i], rest);
      assert s == s[..i] + [c] + s[i + 1..];
    }
  }

  /** The last piece of a split is whatever follows the last separator: Python `s.rsplit(c)[-1]`. */
  lemma {:induction false} SplitLast(a: string, c: char, b: string)
    requires c !in b
    ensures var r := Split(a + [c] + b, c); r[|r| - 1] == b
    decreases |a|
  {
    if c !in a {
      SplitCons(a, c, b);
      assert Split(b, c) == [b];
    } else {
      var i := FirstIndex(a, c);
      var tail := a[i + 1..] + [c] + b;
      SplitAtFirst(a, c, b, i);
      SplitLast(a[i + 1..], c, b);
      LastOfCons(a[..i], Split(tail, c));
    }
  }

  /** Splitting `a + [c] + b` at the first separator, which lies inside `a` at `i`. */
  lemma SplitAtFirst(a: string, c: char, b: string, i: nat)
    requires i < |a| && a[i] == c && c !in a[..i]
    ensures Split(a + [c] + b, c) == [a[..i]] + Split(a[i + 1..] + [c] + b, c)
  {
    var tail := a[i + 1..] + [c] + b;
    assert a + [c] + b == a[..i] + [c] + tail by {
      assert a == a[..i] + [c] + a[i + 1..];
    }
    SplitCons(a[..i], c, tail);
  }

  lemma LastOfCons(x: string, rest: seq<string>)
    requires |rest| >= 1
    ensures ([x] + rest)[|rest|] == rest[|rest| - 1]
  {
  }

  /**
   * Python `s.split(" ", 1)` for a one-character separator: the text before
   * the first separator and the rest, or the whole string when there is none.
   */
  function SplitOnce(s: string, c: char): (r: seq<string>)
    ensures c !in s <==> r == [s]
    ensures c in s ==> |r| == 2 && c !in r[0] && s == r[0] + [c] + r[1]
  {
    if c !in s then [s]
    else
      var i := FirstIndex(s, c);
      assert s == s[..i] + [c] + s[i + 1..];
      [s[..i], s[i + 1..]]
  }

  /** Python `s.rstrip("\n")`. */
  function RStripNewlines(s: string): (r: string)
    ensures |r| <= |s| && r == s[..|r|]
    ensures |r| > 0 ==> r[|r| - 1] != '\n'
    ensures forall i :: |r| <= i < |s| ==> s[i] == '\n'
  {
    if |s| > 0 && s[|s| - 1] == '\n' then RStripNewlines(s[..|s| - 1]) else s
  }

  /** Python `s.replace(a, b)` for one-character arguments. */
  function ReplaceChar(s: string, a: char, b: char): (r: string)
    ensures |r| == |s|
    ensures forall i :: 0 <= i < |s| ==> r[i] == (if s[i] == a then b else s[i])
  {
    if |s| == 0 then "" else [if s[0] == a then b else s[0]] + ReplaceChar(s[1..], a, b)
  }

  predicate StartsWith(s: string, prefix: string) {
    |prefix| <= |s| && s[..|prefix|] == prefix
  }
}
