/**
 * The column dialog: it creates a column from a title and a colour, or edits
 * or deletes the column it was opened on, writing only the columns atom
 * (src/components/organisms/ColumnModal.tsx).
 */
module ColumnModal {
  import opened Wrappers
  import opened Lists
  import opened Text
  import opened Entities
  import opened Atoms

  const DefaultColor := "#00A3FF"
  const TitleRequired := "Column title is required"
  const StatusTaken := "A column with similar name already exists"

  /**
   * The status key derived from a title: lower-cased, every run of whitespace
   * replaced by one hyphen. The title is not trimmed first.
   */
  function Slug(title: string): (r: string)
    ensures forall i :: 0 <= i < |r| ==> !IsWhitespace(r[i]) && !IsUpperLetter(r[i])
    ensures |r| <= |title|
  {
    var lower := ToLower(title);
    assert forall c :: c in lower ==> !IsUpperLetter(c);
    CollapseWhitespace(lower)
  }

  /** A slug is its own slug, so a status typed as a title keeps its key. */
  lemma SlugIdempotent(title: string)
    ensures Slug(Slug(title)) == Slug(title)
  {
    var s := Slug(title);
    assert ToLower(s) == s;
    CollapseWithoutWhitespace(s);
  }

  /**
   * The slug's value: words without whitespace, separated by single spaces,
   * come out lower-cased and separated by hyphens.
   */
  lemma SlugOfWords(words: seq<string>)
    requires |words| >= 1
    requires forall k :: 0 <= k < |words| ==> words[k] != "" && forall i :: 0 <= i < |words[k]| ==> !IsWhitespace(words[k][i])
    ensures Slug(Join(words, ' ')) == Join(Map(words, ToLower), '-')
  {
    LowerJoin(words, ' ');
    var lower := Map(words, ToLower);
    assert forall k :: 0 <= k < |lower| ==> lower[k] == ToLower(words[k]);
    CollapseJoin(lower, ' ');
  }

  /** A run of whitespace after a word, of any length, becomes one hyphen. */
  lemma SlugOfRun(a: string, w: string, b: string)
    requires forall i :: 0 <= i < |a| ==> !IsWhitespace(a[i])
    requires w != [] && forall i :: 0 <= i < |w| ==> IsWhitespace(w[i])
    requires b == [] || !IsWhitespace(b[0])
    ensures Slug(a + w + b) == ToLower(a) + "-" + Slug(b)
  {
    LowerAppend(a + w, b);
    LowerAppend(a, w);
    assert ToLower(w) == w;
    CollapseRun(ToLower(a), w, ToLower(b));
  }

  /**
   * Leading whitespace is not trimmed but kept as a hyphen: a title typed as
   * " done" gets the status "-done", not "done".
   */
  lemma SlugKeepsLeadingSpace(word: string)
    requires forall i :: 0 <= i < |word| ==> !IsWhitespace(word[i]) && !IsUpperLetter(word[i])
    ensures Slug(" " + word) == "-" + word
  {
    var s := " " + word;
    assert ToLower(s) == s;
    assert s[1..] == word;
    CollapseWithoutWhitespace(word);
  }

  /** The colour field's first value: the column's class without `bg-[` and the first `]`, or the default when that is empty. */
  function InitialColor(column: Option<Column>): (r: string)
    ensures r != ""
    ensures column.None? ==> r == DefaultColor
  {
    if column.None? then DefaultColor
    else
      var stripped := ReplaceFirst(ReplaceFirst(column.value.color, "bg-[", ""), "]", "");
      if stripped == "" then DefaultColor else stripped
  }

  /** The classes a saved colour becomes. */
  function BackgroundClass(color: string): string { "bg-[" + color + "]" }
  function TextClass(color: string): string { "text-[" + color + "]" }

  /** Removing a leading pattern leaves what followed it. */
  lemma ReplaceLeading(pat: string, rest: string)
    ensures ReplaceFirst(pat + rest, pat, "") == rest
  {
    var s := pat + rest;
    assert s[0..] == s;
    assert OccursAt(s, pat, 0);
    assert s[|pat|..] == rest;
  }

  /** Removing the first `]` of a string that has only a trailing one leaves the rest. */
  lemma ReplaceTrailingBracket(color: string)
    requires ']' !in color
    ensures ReplaceFirst(color + "]", "]", "") == color
  {
    var s := color + "]";
    assert OccursAt(s, "]", |color|) by { assert s[|color|..] == "]"; }
    forall j | 0 <= j < |color| ensures !OccursAt(s, "]", j) {
      assert s[j] == color[j];
    }
    assert s[..|color|] == color;
  }

  /** A pattern one of whose characters does not occur in `s` is not found. */
  lemma AbsentChar(s: string, pat: string, k: nat)
    requires k < |pat| && pat[k] !in s
    ensures IndexOf(s, pat).None?
  {
    forall j | 0 <= j <= |s| ensures !OccursAt(s, pat, j) {
      if j + |pat| <= |s| {
        assert s[j + k] in s;
        assert s[j..][k] == s[j + k];
      }
    }
  }

  /**
   * Opening the dialog on a column it saved shows the colour it was saved
   * with, for any non-empty colour without a closing bracket.
   */
  lemma ColorRoundTrip(column: Column, color: string)
    requires column.color == BackgroundClass(color)
    requires color != "" && ']' !in color
    ensures InitialColor(Some(column)) == color
  {
    assert column.color == "bg-[" + (color + "]");
    ReplaceLeading("bg-[", color + "]");
    ReplaceTrailingBracket(color);
  }

  /**
   * A column whose class is not in bracket form (the seeded `bg-blue-500`
   * style) shows its whole class as the colour value, so saving it unchanged
   * stores `bg-[bg-blue-500]`.
   */
  lemma PlainClassShownWhole(column: Column)
    requires column.color != "" && '[' !in column.color && ']' !in column.color
    ensures InitialColor(Some(column)) == column.color
    ensures BackgroundClass(InitialColor(Some(column))) != column.color
  {
    AbsentChar(column.color, "bg-[", 3);
    AbsentChar(column.color, "]", 0);
    assert BackgroundClass(column.color)[3] == '[';
  }

  /** The column `handleSubmit` appends when creating: id and status are both the slug. */
  function CreatedColumn(title: string, color: string): Column {
    var status := Slug(title);
    Column(status, title, status, BackgroundClass(color), TextClass(color))
  }

  predicate StatusInUse(columns: seq<Column>, status: string) {
    exists i :: 0 <= i < |columns| && columns[i].status == status
  }

  /** `prev.map(...)` of an edit: the column with that id takes the new title and colour classes. */
  function EditColumns(columns: seq<Column>, id: string, title: string, color: string): seq<Column> {
    Map(columns, (col: Column) =>
      if col.id == id then col.(title := title, color := BackgroundClass(color), textColor := TextClass(color)) else col)
  }

  /** The columns after `handleSubmit`, or the message it shows instead. */
  function SubmitColumn(columns: seq<Column>, editing: Option<Column>, title: string, color: string): (r: Result<seq<Column>>)
    ensures r == Err(TitleRequired) <==> IsBlank(title)
    ensures r == Err(StatusTaken) <==> !IsBlank(title) && editing.None? && StatusInUse(columns, Slug(title))
    ensures r.Err? ==> r.message == TitleRequired || r.message == StatusTaken
    ensures r.Ok? && editing.None? ==> r.value == columns + [CreatedColumn(title, color)]
    ensures r.Ok? && editing.Some? ==> |r.value| == |columns|
    ensures r.Ok? && editing.Some? ==> forall i :: 0 <= i < |columns| ==>
      r.value[i] == if columns[i].id == editing.value.id
        then columns[i].(title := title, color := BackgroundClass(color), textColor := TextClass(color))
        else columns[i]
  {
    if IsBlank(title) then Err(TitleRequired)
    else if editing.Some? then Ok(EditColumns(columns, editing.value.id, title, color))
    else if StatusInUse(columns, Slug(title)) then Err(StatusTaken)
    else Ok(columns + [CreatedColumn(title, color)])
  }

  predicate StatusesUnique(columns: seq<Column>) {
    forall i, j :: 0 <= i < j < |columns| ==> columns[i].status != columns[j].status
  }

  /** Neither creating nor editing through the dialog can give two columns the same status. */
  lemma SubmitKeepsStatusesUnique(columns: seq<Column>, editing: Option<Column>, title: string, color: string)
    requires StatusesUnique(columns)
    requires SubmitColumn(columns, editing, title, color).Ok?
    ensures StatusesUnique(SubmitColumn(columns, editing, title, color).value)
  {
    var r := SubmitColumn(columns, editing, title, color).value;
    if editing.Some? {
      assert forall i :: 0 <= i < |columns| ==> r[i].status == columns[i].status;
    } else {
      assert !StatusInUse(columns, Slug(title));
      forall i, j | 0 <= i < j < |r| ensures r[i].status != r[j].status {
        if j == |columns| {
          assert r[i] == columns[i];
        } else {
          assert r[i] == columns[i] && r[j] == columns[j];
        }
      }
    }
  }

  /** A created column is found by the status it was given, so tasks with that status show in it. */
  lemma CreatedColumnCarriesSlug(columns: seq<Column>, title: string, color: string)
    requires SubmitColumn(columns, None, title, color).Ok?
    ensures StatusInUse(SubmitColumn(columns, None, title, color).value, Slug(title))
    ensures |SubmitColumn(columns, None, title, color).value| == |columns| + 1
  {
    var r := SubmitColumn(columns, None, title, color).value;
    assert r[|columns|].status == Slug(title);
  }

  /** The dialog's state: the column it was opened on and the two form fields. */
  class ColumnDialog {
    const column: Option<Column>
    var title: string
    var color: string

    /** The fields start from the column being edited, or empty with the default colour. */
    constructor (column: Option<Column>)
      ensures this.column == column
      ensures title == if column.Some? then column.value.title else ""
      ensures color == InitialColor(column)
    {
      this.column := column;
      title := if column.Some? then column.value.title else "";
      color := InitialColor(column);
    }

    /** `handleSubmit`: writes the columns atom on success; returns the error message shown otherwise. */
    method HandleSubmit(store: Store) returns (error: Option<string>)
      modifies store`columns
      ensures var r := SubmitColumn(old(store.columns), column, title, color);
        && (r.Ok? ==> error == None && store.columns == r.value)
        && (r.Err? ==> error == Some(r.message) && store.columns == old(store.columns))
    {
      if IsBlank(title) {
        return Some(TitleRequired);
      }
      var status := if column.Some? && column.value.status != "" then column.value.status else Slug(title);
      if column.Some? {
        store.columns := EditColumns(store.columns, column.value.id, title, color);
      } else {
        if StatusInUse(store.columns, status) {
          return Some(StatusTaken);
        }
        store.columns := store.columns + [Column(status, title, status, BackgroundClass(color), TextClass(color))];
      }
      error := None;
    }

    /** `handleDelete`: drops the column being edited, and leaves its tasks where they are. */
    method HandleDelete(store: Store)
      modifies store`columns
      ensures column.None? ==> store.columns == old(store.columns)
      ensures column.Some? ==> store.columns == RemoveColumnById(old(store.columns), column.value.id)
    {
      if column.None? {
        return;
      }
      store.columns := RemoveColumnById(store.columns, column.value.id);
    }
  }
}
