/** The part of an ExcelJS workbook that the leave-form export touches:
    worksheets made of cells addressed by column and row, rows appended at
    the bottom, images registered with the workbook and placed on a sheet. */
module Workbook {
  import Text

  /** A cell address, column and row counted from 1 ("A1" is (1, 1)). */
  datatype Addr = Addr(col: nat, row: nat)

  /** Where an image goes: its top-left corner in cell units, kept in tenths
      (`{ col: 8.8, row: 26.1 }` is (88, 261)), and its size in pixels. */
  datatype Anchor = Anchor(col10: int, row10: int, width: int, height: int)

  datatype Placement = Placement(image: nat, anchor: Anchor)

  datatype Sheet = Sheet(name: string, cells: map<Addr, string>, rowCount: nat, images: seq<Placement>)

  /** An image registered with `wb.addImage`. */
  datatype Media = Media(buffer: seq<int>, extension: string)

  function EmptySheet(name: string): Sheet
  {
    Sheet(name, map[], 0, [])
  }

  /** The letters of column `col` ("A" .. "Z", "AA", ...). */
  function ColumnName(col: nat): (s: string)
    requires col >= 1
    ensures |s| >= 1 && forall i :: 0 <= i < |s| ==> 'A' <= s[i] <= 'Z'
  {
    var letter := (('A' as int) + (col - 1) % 26) as char;
    if col <= 26 then [letter] else ColumnName((col - 1) / 26) + [letter]
  }

  /** The A1 name of an address. */
  function A1(a: Addr): string
    requires a.col >= 1
  {
    ColumnName(a.col) + Text.NatToString(a.row)
  }

  /** `ws.addRow(values)`: value `c` (from 0) goes to column `c + 1` of the
      row below the last one. */
  function AddRow(s: Sheet, values: seq<string>): (t: Sheet)
    ensures t.name == s.name && t.images == s.images && t.rowCount == s.rowCount + 1
  {
    var r := s.rowCount + 1;
    var added := map c | 0 <= c < |values| :: Addr(c + 1, r) := values[c];
    Sheet(s.name, s.cells + added, r, s.images)
  }

  /** `ws.addRows(rows)`. */
  function AddRows(s: Sheet, rows: seq<seq<string>>): (t: Sheet)
    ensures t.name == s.name && t.images == s.images && t.rowCount == s.rowCount + |rows|
    decreases |rows|
  {
    if rows == [] then s else AddRows(AddRow(s, rows[0]), rows[1..])
  }

  /** After `addRows`, value `c` of row `i` sits in column `c + 1` of row
      `rowCount + i + 1`. */
  lemma {:induction false} AddRowsCell(s: Sheet, rows: seq<seq<string>>, i: nat, c: nat)
    requires i < |rows| && c < |rows[i]|
    ensures var a := Addr(c + 1, s.rowCount + i + 1);
      a in AddRows(s, rows).cells && AddRows(s, rows).cells[a] == rows[i][c]
    decreases |rows|
  {
    var s1 := AddRow(s, rows[0]);
    assert AddRows(s, rows) == AddRows(s1, rows[1..]);
    if i > 0 {
      assert rows[1..][i - 1] == rows[i];
      AddRowsCell(s1, rows[1..], i - 1, c);
    } else {
      var a := Addr(c + 1, s.rowCount + 1);
      assert a in s1.cells && s1.cells[a] == rows[0][c];
      AddRowsKeeps(s1, rows[1..], a);
    }
  }

  /** `addRows` leaves every cell outside the new rows as it was, and adds
      cells only in the new rows. */
  lemma {:induction false} AddRowsKeeps(s: Sheet, rows: seq<seq<string>>, a: Addr)
    requires !(s.rowCount < a.row <= s.rowCount + |rows|)
    ensures a in AddRows(s, rows).cells <==> a in s.cells
    ensures a in s.cells ==> AddRows(s, rows).cells[a] == s.cells[a]
    decreases |rows|
  {
    if rows != [] {
      var s1 := AddRow(s, rows[0]);
      assert a !in (map c | 0 <= c < |rows[0]| :: Addr(c + 1, s.rowCount + 1) := rows[0][c]);
      AddRowsKeeps(s1, rows[1..], a);
    }
  }

  /** `ws.getCell(addr).value = v`. */
  function SetCell(s: Sheet, a: Addr, v: string): (t: Sheet)
    ensures t.name == s.name && t.rowCount == s.rowCount && t.images == s.images
    ensures t.cells == s.cells[a := v]
  {
    s.(cells := s.cells[a := v])
  }

  /** `ws.addImage(id, anchor)`. */
  function PlaceImage(s: Sheet, p: Placement): (t: Sheet)
    ensures t.name == s.name && t.rowCount == s.rowCount && t.cells == s.cells
    ensures t.images == s.images + [p]
  {
    s.(images := s.images + [p])
  }

  /** The workbook object: its worksheets, first one first, and its media. */
  class Book {
    var sheets: seq<Sheet>
    var media: seq<Media>

    /** `new ExcelJS.Workbook()`. */
    constructor()
      ensures sheets == [] && media == []
    {
      sheets := [];
      media := [];
    }

    /** `wb.xlsx.load(buffer)`: the worksheets of the template file. */
    method Load(template: seq<Sheet>)
      modifies this
      ensures sheets == template && media == old(media)
    {
      sheets := template;
    }

    /** `wb.addWorksheet(name)`: appends an empty sheet and returns its index. */
    method AddWorksheet(name: string) returns (k: nat)
      modifies this
      ensures sheets == old(sheets) + [EmptySheet(name)] && media == old(media)
      ensures k == |old(sheets)| && k < |sheets|
    {
      k := |sheets|;
      sheets := sheets + [EmptySheet(name)];
    }

    method AddRowsTo(k: nat, rows: seq<seq<string>>)
      requires k < |sheets|
      modifies this
      ensures sheets == old(sheets)[k := AddRows(old(sheets)[k], rows)] && media == old(media)
    {
      sheets := sheets[k := AddRows(sheets[k], rows)];
    }

    method SetCellOf(k: nat, a: Addr, v: string)
      requires k < |sheets|
      modifies this
      ensures sheets == old(sheets)[k := SetCell(old(sheets)[k], a, v)] && media == old(media)
    {
      sheets := sheets[k := SetCell(sheets[k], a, v)];
    }

    /** `wb.addImage(media)`: registers the image and returns its id. */
    method AddImage(m: Media) returns (id: nat)
      modifies this
      ensures media == old(media) + [m] && sheets == old(sheets)
      ensures id == |old(media)|
    {
      id := |media|;
      media := media + [m];
    }

    method PlaceImageOn(k: nat, p: Placement)
      requires k < |sheets|
      modifies this
      ensures sheets == old(sheets)[k := PlaceImage(old(sheets)[k], p)] && media == old(media)
    {
      sheets := sheets[k := PlaceImage(sheets[k], p)];
    }
  }
}
