/**
 * The table formatting of `_actions/_formatting.py`: property fetching,
 * column widths, cell padding and the lines of a printed table.
 *
 * The cell width (`wcswidth`, or `len` when wcwidth is missing) is a
 * parameter `width`; `Len` is the `len` fallback, under which the widths
 * are character counts. Printing is modelled as the sequence of lines,
 * each ending in a newline.
 */
module Formatting {
  import opened Wrappers
  import opened Text
  import opened ManagedObjects
  import opened ActionErrors

  /** The placeholder for a value the daemon should have supplied but did not. */
  const TABLE_FAILURE_STRING: string := "FAILURE"

  /**
   * `fetch_property(object_type, props, name, to_repr)`: an invalid value
   * gives `None`, a valid one its representation, and a missing property
   * a property-not-found error.
   */
  function FetchProperty<T>(objectType: string, props: map<string, (bool, Value)>, name: string, toRepr: Value -> T)
    : (r: Result<Option<T>, ActionError>)
    ensures r.Failure? <==> name !in props
    ensures r.Failure? ==> r.error == PropertyNotFound(objectType, name)
    ensures name in props && !props[name].0 ==> r == Success(None)
    ensures name in props && props[name].0 ==> r == Success(Some(toRepr(props[name].1)))
  {
    if name !in props then Failure(PropertyNotFound(objectType, name))
    else
      var (success, variant) := props[name];
      if !success then Success(None) else Success(Some(toRepr(variant)))
  }

  /** The `len` fallback of the cell width. */
  function Len(s: string): nat {
    |s|
  }

  /**
   * `_get_column_len(column_width, entry_len, entry_width)`: the number of
   * characters to pad an entry to so that it fills `columnWidth` cells.
   */
  function ColumnLen(columnWidth: int, entryLen: int, entryWidth: int): (r: int)
    ensures r - entryLen == columnWidth - entryWidth
  {
    columnWidth - (entryWidth - entryLen)
  }

  /** With the `len` fallback the character count is the column width. */
  lemma ColumnLenOfLen(columnWidth: int, entry: string)
    ensures ColumnLen(columnWidth, |entry|, Len(entry)) == columnWidth
  {
  }

  /** The alignments `'<'`, `'>'` and `'^'` of Python's format mini-language. */
  datatype Alignment = LEFT | RIGHT | CENTER {
    function ToString(): string {
      match this
      case LEFT => "<"
      case RIGHT => ">"
      case CENTER => "^"
    }
  }

  function Spaces(n: nat): (r: string)
    ensures |r| == n && forall i :: 0 <= i < n ==> r[i] == ' '
  {
    if n == 0 then "" else " " + Spaces(n - 1)
  }

  /** The spaces before the entry when `pad` spaces are added; centring puts the odd one after. */
  function LeftPadding(align: Alignment, pad: nat): (k: nat)
    ensures k <= pad
  {
    match align
    case LEFT => 0
    case RIGHT => pad
    case CENTER => pad / 2
  }

  /**
   * `"{0:{align}{width}}".format(entry, ...)`: the entry padded with spaces
   * to `width` characters, never truncated.
   */
  function Pad(entry: string, align: Alignment, width: int): (r: string)
    ensures |r| == if width > |entry| then width else |entry|
    ensures var k := LeftPadding(align, |r| - |entry|);
      r == Spaces(k) + entry + Spaces(|r| - |entry| - k)
  {
    var pad := if width > |entry| then width - |entry| else 0;
    var k := LeftPadding(align, pad);
    Spaces(k) + entry + Spaces(pad - k)
  }

  /** Padding loses nothing: stripping a padded entry that has no surrounding blanks gives it back. */
  lemma PadStrip(entry: string, align: Alignment, width: int)
    requires |entry| > 0 ==> !IsSpace(entry[0]) && !IsSpace(entry[|entry| - 1])
    ensures Strip(Pad(entry, align, width)) == entry
  {
    var r := Pad(entry, align, width);
    var k := LeftPadding(align, |r| - |entry|);
    PaddedShape(k, entry, |r| - |entry| - k);
    PaddedStrips(r, k, entry);
  }

  /** Where the spaces and the entry sit in a padded entry. */
  lemma PaddedShape(k: nat, entry: string, n: nat)
    ensures var x := Spaces(k) + entry + Spaces(n);
      |x| == k + |entry| + n && x[k..k + |entry|] == entry
    ensures var x := Spaces(k) + entry + Spaces(n);
      forall i :: 0 <= i < |x| && !(k <= i < k + |entry|) ==> x[i] == ' '
  {
    var x := Spaces(k) + entry + Spaces(n);
    assert forall i :: 0 <= i < |entry| ==> x[k + i] == entry[i];
  }

  /** A string that is an entry surrounded by spaces strips to the entry. */
  lemma PaddedStrips(x: string, k: nat, entry: string)
    requires |entry| > 0 ==> !IsSpace(entry[0]) && !IsSpace(entry[|entry| - 1])
    requires k + |entry| <= |x| && x[k..k + |entry|] == entry
    requires forall i :: 0 <= i < |x| && !(k <= i < k + |entry|) ==> x[i] == ' '
    ensures Strip(x) == entry
  {
    var l := LStrip(x);
    var r := RStrip(l);
    if |entry| != 0 {
      assert x[k] == entry[0];
      assert |x| - |l| <= k;
      assert |l| > 0 ==> l[0] == x[|x| - |l|];
      assert |l| == |x| - k;
      assert x[k + |entry| - 1] == entry[|entry| - 1];
      assert l[|entry| - 1] == x[k + |entry| - 1];
      assert |r| >= |entry|;
      assert |r| > 0 ==> r[|r| - 1] == l[|r| - 1] == x[k + |r| - 1];
      assert |r| == |entry|;
      assert r == l[..|entry|] == x[k..k + |entry|];
    }
  }

  /** The two spaces that separate the cells of a row. */
  const SEPARATOR: string := "  "

  /** A table as handed to `print_table`: headings, rows and column alignments. */
  datatype Table = Table(headings: seq<string>, rows: seq<seq<string>>, alignments: seq<Alignment>)

  ghost predicate Rectangular(rows: seq<seq<string>>, columns: nat) {
    forall i :: 0 <= i < |rows| ==> |rows[i]| == columns
  }

  /** `_print_row`: each entry padded to its column, the entries joined by two spaces. */
  function FormatRow(row: seq<string>, width: string -> nat, columnWidths: seq<nat>, alignments: seq<Alignment>)
    : (r: string)
    requires |row| == |columnWidths| == |alignments|
  {
    Join(SEPARATOR, Cells(row, width, columnWidths, alignments))
  }

  /** The padded entries of a row. */
  function Cells(row: seq<string>, width: string -> nat, columnWidths: seq<nat>, alignments: seq<Alignment>)
    : (r: seq<string>)
    requires |row| == |columnWidths| == |alignments|
    ensures |r| == |row|
    ensures forall i :: 0 <= i < |row| ==>
      r[i] == Pad(row[i], alignments[i], ColumnLen(columnWidths[i], |row[i]|, width(row[i])))
  {
    seq(|row|, i requires 0 <= i < |row| =>
      Pad(row[i], alignments[i], ColumnLen(columnWidths[i], |row[i]|, width(row[i]))))
  }

  /** The width of a column: the widest cell in it, 0 for no rows. */
  function ColumnWidth(rows: seq<seq<string>>, column: nat, width: string -> nat): (w: nat)
    requires forall i :: 0 <= i < |rows| ==> column < |rows[i]|
    ensures forall i :: 0 <= i < |rows| ==> width(rows[i][column]) <= w
    ensures |rows| == 0 ==> w == 0
    ensures |rows| > 0 ==> exists i :: 0 <= i < |rows| && width(rows[i][column]) == w
  {
    if |rows| == 0 then 0
    else
      var init := rows[..|rows| - 1];
      var prev := ColumnWidth(init, column, width);
      var here := width(rows[|rows| - 1][column]);
      assert forall i :: 0 <= i < |init| ==> init[i] == rows[i];
      if here > prev then here else prev
  }

  /** The widths of all columns, as `print_table`'s loop accumulates them. */
  method ColumnWidths(rows: seq<seq<string>>, columns: nat, width: string -> nat) returns (widths: seq<nat>)
    requires Rectangular(rows, columns)
    ensures |widths| == columns
    ensures forall c :: 0 <= c < columns ==> widths[c] == ColumnWidth(rows, c, width)
  {
    widths := seq(columns, _ => 0);
    for i := 0 to |rows|
      invariant |widths| == columns
      invariant forall c :: 0 <= c < columns ==> widths[c] == ColumnWidth(rows[..i], c, width)
    {
      assert rows[..i + 1][..i] == rows[..i];
      for c := 0 to columns
        invariant |widths| == columns
        invariant forall d :: 0 <= d < c ==> widths[d] == ColumnWidth(rows[..i + 1], d, width)
        invariant forall d :: c <= d < columns ==> widths[d] == ColumnWidth(rows[..i], d, width)
      {
        var cell := width(rows[i][c]);
        if cell > widths[c] {
          widths := widths[c := cell];
        }
      }
    }
    assert rows[..|rows|] == rows;
  }

  /**
   * `print_table(column_headings, row_entries, alignment)`: the header is
   * inserted at the front of the caller's rows, then each row is printed
   * on its own line, in order. `entries` is the caller's list afterwards.
   */
  method PrintTable(headings: seq<string>, rows: seq<seq<string>>, alignments: seq<Alignment>, width: string -> nat)
    returns (lines: seq<string>, entries: seq<seq<string>>)
    requires |headings| == |alignments|
    requires Rectangular(rows, |headings|)
    ensures entries == [headings] + rows
    ensures |lines| == |rows| + 1
    ensures forall i :: 0 <= i < |lines| ==> |lines[i]| > 0 && lines[i][|lines[i]| - 1] == '\n'
    ensures forall i :: 0 <= i < |lines| ==>
      lines[i] == FormatRow(entries[i], width, TableWidths(entries, |headings|, width), alignments) + "\n"
  {
    entries := [headings] + rows;
    var widths := ColumnWidths(entries, |headings|, width);
    assert widths == TableWidths(entries, |headings|, width);
    lines := [];
    for i := 0 to |entries|
      invariant |lines| == i
      invariant forall j :: 0 <= j < i ==> lines[j] == FormatRow(entries[j], width, widths, alignments) + "\n"
    {
      var line := FormatRow(entries[i], width, widths, alignments) + "\n";
      ghost var before := lines;
      lines := lines + [line];
      assert forall j :: 0 <= j < i ==> lines[j] == before[j];
      assert lines[i] == line;
    }
  }

  /** The column widths of a table, as a function. */
  function TableWidths(rows: seq<seq<string>>, columns: nat, width: string -> nat): (r: seq<nat>)
    requires Rectangular(rows, columns)
    ensures |r| == columns
    ensures forall c :: 0 <= c < columns ==> r[c] == ColumnWidth(rows, c, width)
  {
    seq(columns, c requires 0 <= c < columns => ColumnWidth(rows, c, width))
  }

  function Sum(s: seq<nat>): nat {
    if |s| == 0 then 0 else s[0] + Sum(s[1..])
  }

  /** The length of joined parts: their lengths plus one separator between each two. */
  lemma {:induction false} JoinLength(sep: string, parts: seq<string>)
    requires |parts| > 0
    ensures |Join(sep, parts)| == Sum(seq(|parts|, i requires 0 <= i < |parts| => |parts[i]|)) + |sep| * (|parts| - 1)
  {
    var lens := seq(|parts|, i requires 0 <= i < |parts| => |parts[i]|);
    if |parts| > 1 {
      JoinLength(sep, parts[1..]);
      var restLens := seq(|parts[1..]|, i requires 0 <= i < |parts[1..]| => |parts[1..][i]|);
      assert lens[1..] == restLens;
    } else {
      assert lens[1..] == [];
    }
  }

  /**
   * With the `len` fallback every row is as wide as the table: each cell
   * fills its column exactly, so a row's length is the sum of the column
   * widths plus two characters between each two columns.
   */
  lemma {:induction false} RowLength(row: seq<string>, rows: seq<seq<string>>, index: nat, alignments: seq<Alignment>)
    requires |row| > 0 && |row| == |alignments|
    requires Rectangular(rows, |row|) && index < |rows| && rows[index] == row
    ensures |FormatRow(row, Len, TableWidths(rows, |row|, Len), alignments)|
      == Sum(TableWidths(rows, |row|, Len)) + |SEPARATOR| * (|row| - 1)
  {
    var widths := TableWidths(rows, |row|, Len);
    var cells := Cells(row, Len, widths, alignments);
    forall i | 0 <= i < |row|
      ensures |cells[i]| == widths[i]
    {
      assert Len(rows[index][i]) <= ColumnWidth(rows, i, Len);
    }
    JoinLength(SEPARATOR, cells);
    assert seq(|cells|, i requires 0 <= i < |cells| => |cells[i]|) == widths;
  }
}
