/**
 The injection-safe CSV writer, and a reader for the record grammar of section 2
 of RFC 4180 (text data widened to every character but comma, quote, CR and LF)
 that takes the writer's output apart again.
 */
module Csv {
  import opened Options

  /** A value to export: text (numbers arrive as their printed text), or null/undefined. */
  datatype Cell = Text(text: string) | Missing

  predicate IsTrigger(c: char) {
    c == '=' || c == '+' || c == '-' || c == '@' || c == '\t' || c == '\r'
  }

  predicate IsSpecial(c: char) {
    c == '"' || c == ',' || c == '\n' || c == '\r'
  }

  predicate NeedsQuoting(s: string) {
    exists i :: 0 <= i < |s| && IsSpecial(s[i])
  }

  function Raw(cell: Cell): string {
    if cell.Text? then cell.text else ""
  }

  /** The cell with a leading apostrophe where a spreadsheet would see a formula. */
  function Neutralized(cell: Cell): string {
    if Raw(cell) != "" && IsTrigger(Raw(cell)[0]) then "'" + Raw(cell) else Raw(cell)
  }

  function Doubled(s: string): string {
    if s == "" then ""
    else (if s[0] == '"' then "\"\"" else [s[0]]) + Doubled(s[1..])
  }

  function SafeCell(cell: Cell): string {
    var text := Neutralized(cell);
    if NeedsQuoting(text) then "\"" + Doubled(text) + "\"" else text
  }

  function Joined(cells: seq<Cell>): string {
    if cells == [] then ""
    else if |cells| == 1 then SafeCell(cells[0])
    else SafeCell(cells[0]) + "," + Joined(cells[1..])
  }

  function Row(cells: seq<Cell>): string {
    Joined(cells) + "\r\n"
  }

  function Rows(rows: seq<seq<Cell>>): string {
    if rows == [] then "" else Row(rows[0]) + Rows(rows[1..])
  }

  // ---------- the reader ----------

  /** What is read, and what is left to read. */
  datatype Parsed<+T> = Parsed(item: T, rest: string)

  /** The inside of an escaped field, up to its closing quote. */
  function ReadQuoted(s: string): (r: Option<Parsed<string>>)
    ensures r.Some? ==> |r.value.rest| < |s|
  {
    if s == "" then None
    else if s[0] != '"' then
      var more := ReadQuoted(s[1..]);
      if more.None? then None else Some(Parsed([s[0]] + more.value.item, more.value.rest))
    else if |s| > 1 && s[1] == '"' then
      var more := ReadQuoted(s[2..]);
      if more.None? then None else Some(Parsed("\"" + more.value.item, more.value.rest))
    else Some(Parsed("", s[1..]))
  }

  function ReadPlain(s: string): (r: Parsed<string>)
    ensures |r.rest| <= |s|
  {
    if s == "" || IsSpecial(s[0]) then Parsed("", s)
    else
      var more := ReadPlain(s[1..]);
      Parsed([s[0]] + more.item, more.rest)
  }

  function ReadField(s: string): (r: Option<Parsed<string>>)
    ensures r.Some? ==> |r.value.rest| <= |s|
  {
    if s != "" && s[0] == '"' then ReadQuoted(s[1..]) else Some(ReadPlain(s))
  }

  /** record = field *(COMMA field) CRLF */
  function ReadRecord(s: string): (r: Option<Parsed<seq<string>>>)
    ensures r.Some? ==> |r.value.rest| < |s|
    decreases |s|
  {
    var field := ReadField(s);
    if field.None? then None
    else
      var rest := field.value.rest;
      if |rest| > 0 && rest[0] == ',' then
        var more := ReadRecord(rest[1..]);
        if more.None? then None else Some(Parsed([field.value.item] + more.value.item, more.value.rest))
      else if |rest| > 1 && rest[0] == '\r' && rest[1] == '\n' then Some(Parsed([field.value.item], rest[2..]))
      else None
  }

  function ReadFile(s: string): Option<seq<seq<string>>>
    decreases |s|
  {
    if s == "" then Some([])
    else
      var record := ReadRecord(s);
      if record.None? then None
      else
        var more := ReadFile(record.value.rest);
        if more.None? then None else Some([record.value.item] + more.value)
  }

  // ---------- the round trip ----------

  function Values(cells: seq<Cell>): seq<string> {
    if cells == [] then [] else [Neutralized(cells[0])] + Values(cells[1..])
  }

  /** What a written row carries: a row without cells is a line with one empty field. */
  function RowValues(cells: seq<Cell>): seq<string> {
    if cells == [] then [""] else Values(cells)
  }

  function AllValues(rows: seq<seq<Cell>>): seq<seq<string>> {
    if rows == [] then [] else [RowValues(rows[0])] + AllValues(rows[1..])
  }

  lemma {:induction false} QuotedReads(v: string, rest: string)
    requires rest == "" || rest[0] != '"'
    ensures ReadQuoted(Doubled(v) + "\"" + rest) == Some(Parsed(v, rest))
  {
    var text := Doubled(v) + "\"" + rest;
    if v == "" {
      assert text == "\"" + rest;
      assert text[1..] == rest;
    } else {
      var tail := Doubled(v[1..]) + "\"" + rest;
      QuotedReads(v[1..], rest);
      assert v == [v[0]] + v[1..];
      if v[0] == '"' {
        assert text == "\"\"" + tail;
        assert text[2..] == tail;
      } else {
        assert text == [v[0]] + tail;
        assert text[1..] == tail;
      }
    }
  }

  lemma {:induction false} PlainReads(v: string, rest: string)
    requires !NeedsQuoting(v) && rest != "" && IsSpecial(rest[0])
    ensures ReadPlain(v + rest) == Parsed(v, rest)
  {
    if v == "" {
      assert v + rest == rest;
    } else {
      assert (v + rest)[1..] == v[1..] + rest;
      assert !IsSpecial(v[0]) && v == [v[0]] + v[1..];
      assert !NeedsQuoting(v[1..]) by {
        forall i | 0 <= i < |v| - 1 ensures !IsSpecial(v[1..][i]) {
          assert !IsSpecial(v[i + 1]);
        }
      }
      PlainReads(v[1..], rest);
    }
  }

  /** A written cell reads back as its neutralised value, whatever delimiter follows. */
  lemma CellReads(cell: Cell, rest: string)
    requires rest != "" && (rest[0] == ',' || rest[0] == '\r')
    ensures ReadField(SafeCell(cell) + rest) == Some(Parsed(Neutralized(cell), rest))
  {
    hide Neutralized, ReadQuoted, ReadPlain, Doubled;
    var v := Neutralized(cell);
    if NeedsQuoting(v) {
      QuotedReads(v, rest);
      assert SafeCell(cell) + rest == "\"" + (Doubled(v) + "\"" + rest);
    } else {
      PlainReads(v, rest);
      assert v != "" ==> !IsSpecial(v[0]);
    }
  }

  lemma {:induction false} RowReads(cells: seq<Cell>, rest: string)
    ensures ReadRecord(Row(cells) + rest) == Some(Parsed(RowValues(cells), rest))
  {
    hide SafeCell, Neutralized, ReadField;
    var text := Row(cells) + rest;
    if |cells| == 0 {
      var after := "\r\n" + rest;
      NoCells();
      assert text == after == SafeCell(Missing) + after;
      CellReads(Missing, after);
      assert after[2..] == rest;
    } else if |cells| == 1 {
      var after := "\r\n" + rest;
      assert text == SafeCell(cells[0]) + after;
      CellReads(cells[0], after);
      assert after[2..] == rest;
      assert Values(cells) == [Neutralized(cells[0])];
    } else {
      var after := "," + (Row(cells[1..]) + rest);
      assert text == SafeCell(cells[0]) + after;
      CellReads(cells[0], after);
      assert after[1..] == Row(cells[1..]) + rest;
      RowReads(cells[1..], rest);
    }
  }

  lemma NoCells()
    ensures SafeCell(Missing) == "" && Neutralized(Missing) == ""
  {
  }

  /** Reading what was written returns exactly the neutralised values, row by row. */
  lemma {:induction false} RowsReadBack(rows: seq<seq<Cell>>)
    ensures ReadFile(Rows(rows)) == Some(AllValues(rows))
  {
    hide Row, ReadRecord, RowValues;
    if rows != [] {
      assert Rows(rows) != "" by { RowNotEmpty(rows[0]); }
      RowReads(rows[0], Rows(rows[1..]));
      RowsReadBack(rows[1..]);
    }
  }

  lemma RowNotEmpty(cells: seq<Cell>)
    ensures |Row(cells)| >= 2
  {
  }

  const FORMULA_STARTS: set<char> := {'=', '+', '-', '@', '\t', '\r'}

  /**
   No value read back starts like a formula. It is the raw text as it was,
   unless that starts like a formula, and then it is the raw text behind one
   apostrophe.
   */
  lemma {:induction false} ValuesAreSafe(cells: seq<Cell>)
    ensures |Values(cells)| == |cells|
    ensures forall i :: 0 <= i < |cells| ==>
      var raw, v := Raw(cells[i]), Values(cells)[i];
      && (v == "" || v[0] !in FORMULA_STARTS)
      && (v == raw <==> raw == "" || raw[0] !in FORMULA_STARTS)
      && (v != raw ==> v == "'" + raw)
  {
    if cells != [] {
      ValuesAreSafe(cells[1..]);
    }
  }

  /** A cell is written bare exactly when its value has no comma, quote or line break in it, and in quotes otherwise. */
  lemma QuotedIff(cell: Cell)
    ensures var v := Neutralized(cell);
            && (SafeCell(cell) == v <==> forall i :: 0 <= i < |v| ==> v[i] !in {'"', ',', '\n', '\r'})
            && (SafeCell(cell) != v ==> |SafeCell(cell)| >= |v| + 2 && SafeCell(cell)[0] == '"')
  {
    hide Neutralized, Doubled;
    DoubledLonger(Neutralized(cell));
  }

  lemma {:induction false} DoubledLonger(s: string)
    ensures |Doubled(s)| >= |s|
  {
    if s != "" {
      DoubledLonger(s[1..]);
    }
  }

  /** Two exports with the same text carry the same values. */
  lemma SameTextSameValues(a: seq<seq<Cell>>, b: seq<seq<Cell>>)
    ensures Rows(a) == Rows(b) <==> AllValues(a) == AllValues(b)
  {
    RowsReadBack(a);
    RowsReadBack(b);
    if AllValues(a) == AllValues(b) {
      SameValuesSameText(a, b);
    }
  }

  lemma {:induction false} SameValuesSameText(a: seq<seq<Cell>>, b: seq<seq<Cell>>)
    requires AllValues(a) == AllValues(b)
    ensures Rows(a) == Rows(b)
    decreases |a|
  {
    if a != [] && b != [] {
      assert AllValues(a)[0] == RowValues(a[0]) && AllValues(a)[1..] == AllValues(a[1..]);
      assert AllValues(b)[0] == RowValues(b[0]) && AllValues(b)[1..] == AllValues(b[1..]);
      WrittenSame(a[0]);
      WrittenSame(b[0]);
      SameRow(Written(a[0]), Written(b[0]));
      SameValuesSameText(a[1..], b[1..]);
    }
  }

  /** The row with one empty cell in place of none. */
  function Written(cells: seq<Cell>): seq<Cell> {
    if cells == [] then [Missing] else cells
  }

  lemma WrittenSame(cells: seq<Cell>)
    ensures Values(Written(cells)) == RowValues(cells) && Joined(Written(cells)) == Joined(cells)
  {
    NoCells();
    assert cells == [] ==> Values([Missing]) == [Neutralized(Missing)] + Values([]);
  }

  lemma {:induction false} SameRow(a: seq<Cell>, b: seq<Cell>)
    requires Values(a) == Values(b)
    ensures Joined(a) == Joined(b)
    decreases |a|
  {
    ValuesAreSafe(a);
    ValuesAreSafe(b);
    if a != [] {
      assert Values(a)[0] == Neutralized(a[0]) && Values(a)[1..] == Values(a[1..]);
      assert Values(b)[0] == Neutralized(b[0]) && Values(b)[1..] == Values(b[1..]);
      assert SafeCell(a[0]) == SafeCell(b[0]);
      SameRow(a[1..], b[1..]);
    }
  }
}
