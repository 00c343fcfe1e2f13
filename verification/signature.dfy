/**
 * `_dbus/_signature/_parsing.py`: the grammar of D-Bus type signatures
 * (the "Type System" section of the D-Bus Specification), as the client's
 * parser states it, and a recursive-descent parser for it.
 *
 * A complete type is a single-character code, an array `a` of a complete
 * type, an array of dictionary entries `a{kv}` whose key `k` is any
 * single-character code (the parser admits `v` as a key, where the
 * specification allows only basic types) and whose value `v` is a
 * complete type, or a struct `(...)` of one or more complete types. The
 * alternatives of each choice begin with distinct characters, so the
 * longest-match choice of the original grammar is the one a single
 * character of look-ahead selects.
 */
module Signature {
  import opened Wrappers

  /** The single-character codes: y b n q i u x t d h s o g v. */
  const SIMPLE_CODES: set<char> := {'y', 'b', 'n', 'q', 'i', 'u', 'x', 't', 'd', 'h', 's', 'o', 'g', 'v'}

  datatype SigType =
    | Simple(code: char)
    | Array(element: SigType)
    | DictArray(key: char, value: SigType)
    | Struct(fields: seq<SigType>)
  {
    /** Built only from the productions of the grammar. */
    ghost predicate Valid()
      decreases this
    {
      match this
      case Simple(c) => c in SIMPLE_CODES
      case Array(e) => e.Valid()
      case DictArray(k, v) => k in SIMPLE_CODES && v.Valid()
      case Struct(fs) => |fs| >= 1 && forall i :: 0 <= i < |fs| ==> fs[i].Valid()
    }

    /** The signature text of the type. */
    function Serialize(): (r: string)
      ensures |r| >= 1
      decreases this, 1
    {
      match this
      case Simple(c) => [c]
      case Array(e) => "a" + e.Serialize()
      case DictArray(k, v) => "a{" + [k] + v.Serialize() + "}"
      case Struct(fs) => "(" + SerializeAll(fs) + ")"
    }
  }

  ghost predicate AllValid(ts: seq<SigType>) {
    forall i :: 0 <= i < |ts| ==> ts[i].Valid()
  }

  /** The concatenation of the types' signatures. */
  function SerializeAll(ts: seq<SigType>): (r: string)
    ensures |ts| == 0 <==> |r| == 0
    decreases ts, 0
  {
    if |ts| == 0 then "" else ts[0].Serialize() + SerializeAll(ts[1..])
  }

  /** A complete type's signature begins with a code, `a` or `(`, never with `{`, `}` or `)`. */
  lemma FirstChar(t: SigType)
    requires t.Valid()
    ensures t.Serialize()[0] in SIMPLE_CODES || t.Serialize()[0] == 'a' || t.Serialize()[0] == '('
    ensures t.Serialize()[0] !in {'{', '}', ')'}
  {
    match t
    case Simple(c) =>
    case Array(e) => assert t.Serialize()[0] == 'a';
    case DictArray(k, v) => assert t.Serialize()[0] == 'a';
    case Struct(fs) => assert t.Serialize()[0] == '(';
  }

  /**
   * One complete type at the start of `s`, and the text after it; `None`
   * where no complete type starts there.
   */
  function ParseType(s: string): (r: Option<(SigType, string)>)
    ensures r.Some? ==> r.value.0.Valid() && s == r.value.0.Serialize() + r.value.1
    ensures r.Some? ==> |r.value.1| < |s|
    decreases |s|, 1
  {
    if |s| == 0 then None
    else if s[0] in SIMPLE_CODES then
      assert s == [s[0]] + s[1..];
      Some((Simple(s[0]), s[1..]))
    else if s[0] == 'a' then
      if |s| > 1 && s[1] == '{' then
        if |s| > 2 && s[2] in SIMPLE_CODES then
          match ParseType(s[3..])
          case None => None
          case Some((v, rest)) =>
            if |rest| > 0 && rest[0] == '}' then
              assert s == "a{" + [s[2]] + v.Serialize() + "}" + rest[1..] by {
                assert s == s[..3] + s[3..] && s[..3] == "a{" + [s[2]];
                assert rest == "}" + rest[1..];
              }
              Some((DictArray(s[2], v), rest[1..]))
            else None
        else None
      else
        match ParseType(s[1..])
        case None => None
        case Some((e, rest)) =>
          assert s == "a" + e.Serialize() + rest by {
            assert s == [s[0]] + s[1..];
          }
          Some((Array(e), rest))
    else if s[0] == '(' then
      match ParseFields(s[1..])
      case None => None
      case Some((fs, rest)) =>
        assert s == "(" + SerializeAll(fs) + ")" + rest by {
          assert s == [s[0]] + s[1..];
        }
        Some((Struct(fs), rest))
    else None
  }

  /**
   * The inside of a struct: one or more complete types and the closing
   * `)`, and the text after it.
   */
  function ParseFields(s: string): (r: Option<(seq<SigType>, string)>)
    ensures r.Some? ==> |r.value.0| >= 1 && AllValid(r.value.0)
    ensures r.Some? ==> s == SerializeAll(r.value.0) + ")" + r.value.1
    ensures r.Some? ==> |r.value.1| < |s|
    decreases |s|, 2
  {
    match ParseType(s)
    case None => None
    case Some((t, rest)) =>
      if |rest| > 0 && rest[0] == ')' then
        LastField(s, t, rest);
        Some(([t], rest[1..]))
      else
        match ParseFields(rest)
        case None => None
        case Some((ts, rest2)) =>
          MoreFields(s, t, rest, ts, rest2);
          Some(([t] + ts, rest2))
  }

  lemma LastField(s: string, t: SigType, rest: string)
    requires t.Valid() && s == t.Serialize() + rest && |rest| > 0 && rest[0] == ')'
    ensures AllValid([t]) && s == SerializeAll([t]) + ")" + rest[1..]
  {
    assert [t][1..] == [];
    assert rest == ")" + rest[1..];
  }

  lemma MoreFields(s: string, t: SigType, rest: string, ts: seq<SigType>, rest2: string)
    requires t.Valid() && s == t.Serialize() + rest
    requires AllValid(ts) && rest == SerializeAll(ts) + ")" + rest2
    ensures AllValid([t] + ts) && s == SerializeAll([t] + ts) + ")" + rest2
  {
    assert ([t] + ts)[1..] == ts;
  }

  /** Zero or more complete types that make up all of `s`. */
  function ParseTypes(s: string): (r: Option<seq<SigType>>)
    ensures r.Some? ==> AllValid(r.value) && SerializeAll(r.value) == s
    decreases |s|
  {
    if |s| == 0 then Some([])
    else
      match ParseType(s)
      case None => None
      case Some((t, rest)) =>
        match ParseTypes(rest)
        case None => None
        case Some(ts) =>
          assert ([t] + ts)[1..] == ts;
          Some([t] + ts)
  }

  /**
   * `PARSER.parseString(s, parseAll=True)` on a signature without
   * whitespace: one or more complete types and nothing else.
   */
  function ParseSignature(s: string): (r: Option<seq<SigType>>)
    ensures r.Some? ==> |r.value| >= 1 && AllValid(r.value) && SerializeAll(r.value) == s
  {
    if |s| == 0 then None else ParseTypes(s)
  }

  /** The characters pyparsing skips before every token and at the end (`" \n\t\r"`). */
  const WHITESPACE: set<char> := {' ', '\n', '\t', '\r'}

  function RemoveWhitespace(s: string): (r: string)
    ensures forall i :: 0 <= i < |r| ==> r[i] !in WHITESPACE
    ensures |r| <= |s|
  {
    if |s| == 0 then ""
    else if s[0] in WHITESPACE then RemoveWhitespace(s[1..])
    else [s[0]] + RemoveWhitespace(s[1..])
  }

  /**
   * `PARSER.parseString(s, parseAll=True)`: every token of the grammar is
   * one character and pyparsing skips whitespace before each token and
   * after the last, so whitespace anywhere is ignored.
   */
  function Parse(s: string): (r: Option<seq<SigType>>)
    ensures r.Some? ==> |r.value| >= 1 && AllValid(r.value) && SerializeAll(r.value) == RemoveWhitespace(s)
  {
    ParseSignature(RemoveWhitespace(s))
  }

  lemma {:induction false} RemoveWhitespaceAppend(a: string, b: string)
    ensures RemoveWhitespace(a + b) == RemoveWhitespace(a) + RemoveWhitespace(b)
  {
    if |a| > 0 {
      assert (a + b)[0] == a[0] && (a + b)[1..] == a[1..] + b;
      RemoveWhitespaceAppend(a[1..], b);
    } else {
      assert a + b == b;
    }
  }

  /** Whitespace anywhere in the text does not change the parse. */
  lemma WhitespaceIgnored(a: string, w: char, b: string)
    requires w in WHITESPACE
    ensures Parse(a + [w] + b) == Parse(a + b)
  {
    RemoveWhitespaceAppend(a, [w] + b);
    RemoveWhitespaceAppend([w], b);
    RemoveWhitespaceAppend(a, b);
    assert a + [w] + b == a + ([w] + b);
    assert ([w] + b)[1..] == b;
  }

  /** Text without whitespace is parsed as it stands. */
  lemma {:induction false} NoWhitespaceParsedAsIs(s: string)
    requires forall i :: 0 <= i < |s| ==> s[i] !in WHITESPACE
    ensures Parse(s) == ParseSignature(s)
  {
    KeepsWhitespaceFree(s);
  }

  lemma {:induction false} KeepsWhitespaceFree(s: string)
    requires forall i :: 0 <= i < |s| ==> s[i] !in WHITESPACE
    ensures RemoveWhitespace(s) == s
  {
    if |s| > 0 {
      KeepsWhitespaceFree(s[1..]);
      assert s == [s[0]] + s[1..];
    }
  }

  /** Every complete type is read back from its signature, whatever follows it. */
  lemma {:induction false} ParseTypeComplete(t: SigType, rest: string)
    requires t.Valid()
    ensures ParseType(t.Serialize() + rest) == Some((t, rest))
    decreases t, 1
  {
    match t
    case Simple(c) =>
      var s := t.Serialize() + rest;
      assert s[0] == c && s[1..] == rest;
    case Array(e) =>
      ParseTypeComplete(e, rest);
      ParseArrayStep(e, rest);
    case DictArray(k, v) =>
      ParseTypeComplete(v, "}" + rest);
      ParseDictStep(k, v, rest);
    case Struct(fs) =>
      ParseFieldsComplete(fs, rest);
      ParseStructStep(fs, rest);
  }

  lemma ParseArrayStep(e: SigType, rest: string)
    requires e.Valid()
    requires ParseType(e.Serialize() + rest) == Some((e, rest))
    ensures ParseType(Array(e).Serialize() + rest) == Some((Array(e), rest))
  {
    var s := Array(e).Serialize() + rest;
    FirstChar(e);
    assert s == "a" + (e.Serialize() + rest);
    assert s[1..] == e.Serialize() + rest;
    assert s[1] == e.Serialize()[0];
  }

  lemma ParseDictStep(k: char, v: SigType, rest: string)
    requires k in SIMPLE_CODES && v.Valid()
    requires ParseType(v.Serialize() + ("}" + rest)) == Some((v, "}" + rest))
    ensures ParseType(DictArray(k, v).Serialize() + rest) == Some((DictArray(k, v), rest))
  {
    var inner := v.Serialize() + ("}" + rest);
    assert DictArray(k, v).Serialize() + rest == ['a', '{', k] + inner;
    DictStep(k, inner);
    assert ("}" + rest)[1..] == rest;
  }

  lemma ParseStructStep(fs: seq<SigType>, rest: string)
    requires |fs| >= 1 && AllValid(fs)
    requires ParseFields(SerializeAll(fs) + ")" + rest) == Some((fs, rest))
    ensures ParseType(Struct(fs).Serialize() + rest) == Some((Struct(fs), rest))
  {
    var inner := SerializeAll(fs) + ")" + rest;
    assert Struct(fs).Serialize() + rest == ['('] + inner;
    ParenStep(inner);
  }

  /** The inside of every struct is read back, whatever follows its `)`. */
  lemma {:induction false} ParseFieldsComplete(fs: seq<SigType>, rest: string)
    requires |fs| >= 1 && AllValid(fs)
    ensures ParseFields(SerializeAll(fs) + ")" + rest) == Some((fs, rest))
    decreases fs, 0
  {
    var tail := SerializeAll(fs[1..]) + ")" + rest;
    assert SerializeAll(fs) + ")" + rest == fs[0].Serialize() + tail;
    ParseTypeComplete(fs[0], tail);
    if |fs| == 1 {
      assert fs[1..] == [];
      assert tail == ")" + rest;
      assert [fs[0]] == fs;
    } else {
      FirstChar(fs[1]);
      assert SerializeAll(fs[1..]) == fs[1..][0].Serialize() + SerializeAll(fs[1..][1..]);
      assert tail[0] == fs[1].Serialize()[0];
      ParseFieldsComplete(fs[1..], rest);
      assert [fs[0]] + fs[1..] == fs;
    }
  }

  /** A sequence of complete types is read back from its concatenated signatures. */
  lemma {:induction false} ParseTypesComplete(ts: seq<SigType>)
    requires AllValid(ts)
    ensures ParseTypes(SerializeAll(ts)) == Some(ts)
  {
    if |ts| > 0 {
      ParseTypeComplete(ts[0], SerializeAll(ts[1..]));
      ParseTypesComplete(ts[1..]);
      assert [ts[0]] + ts[1..] == ts;
    }
  }

  /**
   * The parser accepts exactly the non-empty concatenations of complete
   * types, and returns the types they are made of.
   */
  lemma ParseSignatureExact(s: string)
    ensures ParseSignature(s).Some? <==> exists ts :: |ts| >= 1 && AllValid(ts) && SerializeAll(ts) == s
  {
    if exists ts :: |ts| >= 1 && AllValid(ts) && SerializeAll(ts) == s {
      var ts :| |ts| >= 1 && AllValid(ts) && SerializeAll(ts) == s;
      ParseTypesComplete(ts);
    }
  }

  /** Round trip: a non-empty list of complete types parses back to itself. */
  lemma ParseSignatureRoundTrip(ts: seq<SigType>)
    requires |ts| >= 1 && AllValid(ts)
    ensures ParseSignature(SerializeAll(ts)) == Some(ts)
  {
    ParseTypesComplete(ts);
  }

  /** A `(` starts a struct, whose inside follows. */
  lemma ParenStep(inner: string)
    ensures ParseType(['('] + inner) == match ParseFields(inner)
                                        case None => None
                                        case Some((fs, rest)) => Some((Struct(fs), rest))
  {
    var s := ['('] + inner;
    assert s[0] == '(' && s[0] !in SIMPLE_CODES && s[1..] == inner;
  }

  /** `a{` and a code start a dictionary array, whose value follows. */
  lemma DictStep(k: char, inner: string)
    requires k in SIMPLE_CODES
    ensures ParseType(['a', '{', k] + inner) == match ParseType(inner)
                                                case None => None
                                                case Some((v, rest)) =>
                                                  if |rest| > 0 && rest[0] == '}' then Some((DictArray(k, v), rest[1..])) else None
  {
    var s := ['a', '{', k] + inner;
    assert s[0] == 'a' && s[0] !in SIMPLE_CODES && s[1] == '{' && s[2] == k && s[3..] == inner;
  }

  /** A lone `a` and an empty struct are rejected. */
  lemma RejectedIncomplete()
    ensures ParseSignature("a").None?
    ensures ParseSignature("()").None?
  {
    assert "a"[1..] == "";
    assert "()"[1..] == ")";
    assert ParseType(")").None?;
  }

  /** A dictionary entry outside an array is rejected. */
  lemma RejectedBareDictEntry()
    ensures ParseSignature("{}").None?
    ensures ParseSignature("{b}").None?
  {
  }

  /** A dictionary entry without a value is rejected. */
  lemma RejectedDictEntryWithoutValue()
    ensures ParseSignature("a{b}").None?
  {
    assert ParseType("}").None?;
    DictStep('b', "}");
    assert "a{b}" == ['a', '{', 'b'] + "}";
  }

  /** A dictionary entry without a key is rejected. */
  lemma RejectedEmptyDictEntry()
    ensures ParseSignature("a{}").None?
  {
    var s := "a{}";
    assert s[0] == 'a' && s[0] !in SIMPLE_CODES && s[1] == '{' && s[2] !in SIMPLE_CODES;
  }

  /** A dictionary entry with two values is rejected. */
  lemma RejectedDictEntryWithTwoValues()
    ensures ParseSignature("a{byy}").None?
  {
    var inner := "yy}";
    assert inner[0] in SIMPLE_CODES && inner[1..] == "y}";
    assert ParseType(inner) == Some((Simple('y'), "y}"));
    DictStep('b', inner);
    assert "a{byy}" == ['a', '{', 'b'] + inner;
  }

  /** A dictionary entry with a container as key is rejected. */
  lemma RejectedContainerKey()
    ensures ParseSignature("a{ayy}").None?
  {
    var s := "a{ayy}";
    assert s[0] == 'a' && s[0] !in SIMPLE_CODES && s[1] == '{' && s[2] !in SIMPLE_CODES;
  }
}
