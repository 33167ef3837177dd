/**
 * The column service's local logic: the column it builds from a `columns`
 * row, the text colour it derives from the background class, and the records
 * it sends (src/services/columnService.ts).
 */
module ColumnService {
  import opened Wrappers
  import opened Lists
  import opened Text
  import opened Entities
  import ColumnModal

  /** A `columns` row; a `null` colour is `None`. */
  datatype ColumnRow = ColumnRow(id: string, title: string, status: string, color: Option<string>, board_id: string, column_order: int)

  /** What `createColumn` is handed: a column without id, with an optional position. */
  datatype NewColumn = NewColumn(title: string, status: string, color: string, columnOrder: Option<int>)

  /** The row `createColumn` inserts. */
  datatype ColumnInsert = ColumnInsert(title: string, status: string, color: string, board_id: string, column_order: int)

  /** `Partial<Column>`, as handed to `updateColumn`. */
  datatype ColumnPatch = ColumnPatch(id: Option<string>, title: Option<string>, status: Option<string>, color: Option<string>, textColor: Option<string>)

  /** The record `updateColumn` sends: title, status and colour only. */
  datatype ColumnUpdate = ColumnUpdate(title: Option<string>, status: Option<string>, color: Option<string>)

  const DefaultBackground := "bg-gray-500"

  /**
   * `color?.split('-')[1] || 'gray'`: the second hyphen-separated piece of the
   * class, or `gray` when the colour is null, has no hyphen, or that piece is empty.
   */
  function ColorName(color: Option<string>): (r: string)
    ensures r != ""
    ensures '-' !in r
    ensures r != "gray" ==> color.Some? && |Split(color.value, '-')| >= 2 && r == Split(color.value, '-')[1]
    ensures color.Some? && |Split(color.value, '-')| >= 2 && Split(color.value, '-')[1] != "" ==> r == Split(color.value, '-')[1]
  {
    if color.Some? then
      var pieces := Split(color.value, '-');
      SplitPieces(color.value, '-');
      if |pieces| >= 2 && pieces[1] != "" then pieces[1] else "gray"
    else "gray"
  }

  /**
   * The derived text class: `text-<piece>-500` for the second hyphen-separated
   * piece of the class when there is a non-empty one, `text-gray-500` otherwise.
   */
  function TextColorFor(color: Option<string>): (r: string)
    ensures color.Some? && |Split(color.value, '-')| >= 2 && Split(color.value, '-')[1] != ""
      ==> r == "text-" + Split(color.value, '-')[1] + "-500"
    ensures !(color.Some? && |Split(color.value, '-')| >= 2 && Split(color.value, '-')[1] != "")
      ==> r == "text-gray-500"
  {
    "text-" + ColorName(color) + "-500"
  }

  /**
   * Any class `<p>-<name>` or `<p>-<name>-<more>` with a hyphen-free prefix
   * yields `text-<name>-500`: `bg-blue-500` gives `text-blue-500`, and
   * `bg-red-300` gives `text-red-500`, the shade being dropped.
   */
  lemma PaletteClassRoundTrip(p: string, name: string, rest: string)
    requires '-' !in p && name != "" && '-' !in name
    requires rest == "" || rest[0] == '-'
    ensures TextColorFor(Some(p + "-" + name + rest)) == "text-" + name + "-500"
  {
    var c := p + "-" + name + rest;
    assert c == p + ['-'] + (name + rest);
    SplitAtSeparator(p, '-', name + rest);
    if rest == "" {
      assert name + rest == name;
      SplitNoSeparator(name, '-');
    } else {
      assert name + rest == name + ['-'] + rest[1..];
      SplitAtSeparator(name, '-', rest[1..]);
    }
    assert Split(c, '-')[1] == name;
  }

  /** A class without a hyphen, and a missing colour, both give gray text. */
  lemma UnhyphenatedIsGray(color: string)
    requires '-' !in color
    ensures TextColorFor(Some(color)) == "text-gray-500"
    ensures TextColorFor(None) == "text-gray-500"
  {
    SplitNoSeparator(color, '-');
  }

  /**
   * A column saved by the column dialog (`bg-[#hex]`, no hyphen in the
   * colour) gets `text-[#hex]-500` from the service, not the dialog's
   * `text-[#hex]`.
   */
  lemma DialogColorReadBack(hex: string)
    requires '-' !in hex
    ensures TextColorFor(Some(ColumnModal.BackgroundClass(hex))) == "text-[" + hex + "]-500"
    ensures TextColorFor(Some(ColumnModal.BackgroundClass(hex))) != ColumnModal.TextClass(hex)
  {
    var rest := "[" + hex + "]";
    var bg := ColumnModal.BackgroundClass(hex);
    assert '-' !in rest;
    assert bg == "bg" + ['-'] + rest;
    SplitAtSeparator("bg", '-', rest);
    SplitNoSeparator(rest, '-');
    assert Split(bg, '-') == ["bg", rest];
    assert ColorName(Some(bg)) == rest;
    assert |TextColorFor(Some(bg))| == |ColumnModal.TextClass(hex)| + 4;
  }

  /** `getColumns`' mapping: a null or empty colour shows as gray, and the text class is derived from the raw colour. */
  function ColumnFromRow(row: ColumnRow): (r: Column)
    ensures r.id == row.id && r.title == row.title && r.status == row.status
    ensures r.color == if row.color.Some? && row.color.value != "" then row.color.value else DefaultBackground
    ensures r.textColor == TextColorFor(row.color)
  {
    Column(row.id, row.title, row.status,
      if row.color.Some? && row.color.value != "" then row.color.value else DefaultBackground,
      TextColorFor(row.color))
  }

  /** A row whose colour is missing displays exactly as one stored with the gray default. */
  lemma MissingColorLooksDefault(row: ColumnRow)
    requires row.color.None?
    ensures ColumnFromRow(row) == ColumnFromRow(row.(color := Some(DefaultBackground)))
  {
    PaletteClassRoundTrip("bg", "gray", "-500");
    assert "bg" + "-" + "gray" + "-500" == DefaultBackground;
    assert ColumnFromRow(row).textColor == "text-" + "gray" + "-500";
  }

  /** `createColumn`'s insert: the column on that board, at its position or 0. */
  function InsertOf(column: NewColumn, boardId: string): (r: ColumnInsert)
    ensures r.title == column.title && r.status == column.status && r.color == column.color && r.board_id == boardId
    ensures r.column_order == if column.columnOrder.Some? then column.columnOrder.value else 0
  {
    ColumnInsert(column.title, column.status, column.color, boardId, column.columnOrder.GetOr(0))
  }

  /** The column `createColumn` and `updateColumn` return for the stored row. */
  function ColumnFromResponse(row: ColumnRow): (r: Column)
    ensures r.id == row.id && r.title == row.title && r.status == row.status
    ensures row.color.Some? ==> r.color == row.color.value
    ensures r.textColor == TextColorFor(row.color)
  {
    Column(row.id, row.title, row.status, row.color.GetOr(""), TextColorFor(row.color))
  }

  /** A created column reads back with the fields it was created with, on its board. */
  lemma CreateRoundTrip(column: NewColumn, boardId: string, id: string)
    ensures var ins := InsertOf(column, boardId);
      var c := ColumnFromResponse(ColumnRow(id, ins.title, ins.status, Some(ins.color), ins.board_id, ins.column_order));
      c == Column(id, column.title, column.status, column.color, TextColorFor(Some(column.color)))
  {
  }

  /** `updateColumn`'s record: the patch's title, status and colour, never its id or text class. */
  function UpdateOf(patch: ColumnPatch): (r: ColumnUpdate)
    ensures r.title == patch.title && r.status == patch.status && r.color == patch.color
  {
    ColumnUpdate(patch.title, patch.status, patch.color)
  }

  /** Two patches that differ only in id and text class send the same update. */
  lemma UpdateIgnoresIdAndTextColor(patch: ColumnPatch, id: Option<string>, textColor: Option<string>)
    ensures UpdateOf(patch.(id := id, textColor := textColor)) == UpdateOf(patch)
  {
  }
}
