/** The spreadsheet import dialog of the quiz editor: which files it accepts,
    how each column is bound to an item field, how every cell is checked and
    converted, and the partial items it hands back. Cells arrive as the
    formatted strings the spreadsheet reader produces. */
module SpreadsheetImport {
  import opened Text
  import opened Records
  import opened Validation

  /** The item fields a column can be bound to; NoField is the "none" option. */
  datatype Field =
    | NoField | Question | LetterA | LetterB | LetterC | LetterD
    | McAnswer | IAnswer | TofAnswer | Explanation | Points | Timer

  /** The value placed in an item field: text, or a number for timer and points. */
  datatype Cell = Text(text: string) | Number(num: Num)

  const AllowedFormats: seq<string> := [
    "xlsx", "xlsm", "xlsb", "xls", "csv", "txt", "dif", "sylk", "slk",
    "prn", "numbers", "ods", "fods", "dbf", "wk1", "wk3", "eth"]

  /** `fileName.split(".")` and its last piece. */
  function Extension(fileName: string): string {
    var pieces := Split(fileName, '.');
    pieces[|pieces| - 1]
  }

  /** The extension is the text after the last '.' of the name: a dot-free
      suffix that is either the whole name or preceded by a dot. */
  lemma ExtensionIsAfterLastDot(fileName: string)
    ensures var e := Extension(fileName);
      && '.' !in e && |e| <= |fileName| && e == fileName[|fileName| - |e|..]
      && (|e| < |fileName| ==> fileName[|fileName| - |e| - 1] == '.')
  {
    LastPiece(fileName, '.');
  }

  /** `formats.includes(e)`, element by element. */
  predicate Includes(formats: seq<string>, e: string) {
    |formats| > 0 && (formats[0] == e || Includes(formats[1..], e))
  }

  lemma {:induction false} IncludesIsMembership(formats: seq<string>, e: string)
    ensures Includes(formats, e) <==> e in formats
  {
    if |formats| > 0 {
      IncludesIsMembership(formats[1..], e);
      assert formats == [formats[0]] + formats[1..];
    }
  }

  /** The file input's check: the extension is one of the allowed formats. */
  predicate Accepts(fileName: string) {
    Includes(AllowedFormats, Extension(fileName))
  }

  /** A name with no dot at all is its own extension, so a file called
      just "csv" is accepted. */
  lemma DotlessNameIsItsOwnExtension(fileName: string)
    requires '.' !in fileName
    ensures Extension(fileName) == fileName
    ensures Accepts(fileName) <==> fileName in AllowedFormats
  {
    SplitNoSeparator(fileName, '.');
    IncludesIsMembership(AllowedFormats, fileName);
  }

  /** The extension of "stem.ext" is ext whenever ext has no dot, so a
      spreadsheet named "quiz.xlsx" is accepted whatever its stem. */
  lemma ExtensionAfterDot(stem: string, ext: string)
    requires '.' !in ext
    ensures Extension(stem + "." + ext) == ext
    ensures ext == "xlsx" ==> Accepts(stem + "." + ext)
  {
    var name := stem + "." + ext;
    var e := Extension(name);
    ExtensionIsAfterLastDot(name);
    assert name[|name| - |ext| - 1] == '.';
    assert |e| == |ext|;
    assert e == name[|name| - |ext|..] == ext;
  }

  /** getDefaultValue: what an invalid cell is replaced with. */
  function Default(f: Field): Cell {
    match f
    case McAnswer => Text("a")
    case TofAnswer => Text("TRUE")
    case Timer => Number(Finite(30))
    case Points => Number(Finite(200))
    case _ => Text("")
  }

  /** `Number(s)` used as a condition: neither NaN nor 0. */
  predicate Truthy(n: Num) {
    n.Finite? && n.value != 0
  }

  /** The column validators: question 15-300 characters, explanation at most
      300, choices and typed answers 1-200, none of them only white space;
      timer 10-120; points 50-1000 in steps of 5; answer letters a-d and
      TRUE/FALSE in any case. The "none" column has no verdict. */
  predicate CellOk(f: Field, s: string)
    requires f != NoField
  {
    match f
    case Question => 15 <= |s| <= 300 && !AllWhitespace(s)
    case Explanation => |s| <= 300 && !AllWhitespace(s)
    case LetterA => AnswerTextOk(s)
    case LetterB => AnswerTextOk(s)
    case LetterC => AnswerTextOk(s)
    case LetterD => AnswerTextOk(s)
    case IAnswer => AnswerTextOk(s)
    case Timer => Truthy(NumberOf(s)) && 10 <= NumberOf(s).value <= 120
    case Points => Truthy(NumberOf(s)) && 50 <= NumberOf(s).value <= 1000 && NumberOf(s).value % 5 == 0
    case McAnswer => Lower(s) in ["a", "b", "c", "d"]
    case TofAnswer => Upper(s) in ["TRUE", "FALSE"]
  }

  /** mapData: answer letters lower-cased, TRUE/FALSE upper-cased, timer and
      points read as numbers, other fields kept as typed. */
  function MapData(s: string, f: Field): (r: Cell)
    ensures f == McAnswer ==> r == Text(Lower(s))
    ensures f == TofAnswer ==> r == Text(Upper(s))
    ensures f == Timer || f == Points ==> r == Number(NumberOf(s))
    ensures f !in {McAnswer, TofAnswer, Timer, Points} ==> r == Text(s)
  {
    if f == McAnswer then Text(Lower(s))
    else if f == TofAnswer then Text(Upper(s))
    else if f == Timer || f == Points then Number(NumberOf(s))
    else Text(s)
  }

  /** The value a bound cell contributes: converted when valid, the field's
      default otherwise. */
  function CellValue(f: Field, s: string): (r: Cell)
    requires f != NoField
    ensures CellOk(f, s) ==> r == MapData(s, f)
    ensures !CellOk(f, s) ==> r == Default(f)
  {
    if CellOk(f, s) then MapData(s, f) else Default(f)
  }

  /** The fields bound in a header row. */
  function Bound(hs: seq<Field>): set<Field> {
    set i | 0 <= i < |hs| && hs[i] != NoField :: hs[i]
  }

  /** One spreadsheet row as a partial item: every bound column's value,
      folded left to right so that a later column would win. */
  function MapRow(row: seq<string>, hs: seq<Field>): (r: map<Field, Cell>)
    requires |row| == |hs|
    ensures r.Keys == Bound(hs)
  {
    if |row| == 0 then map[]
    else
      var n := |row| - 1;
      var m := MapRow(row[..n], hs[..n]);
      assert Bound(hs) == Bound(hs[..n]) + (if hs[n] == NoField then {} else {hs[n]}) by {
        forall f | f in Bound(hs) ensures f in Bound(hs[..n]) + (if hs[n] == NoField then {} else {hs[n]}) {
          var i :| 0 <= i < |hs| && hs[i] != NoField && hs[i] == f;
          if i < n {
            assert hs[..n][i] == f;
          }
        }
        forall f | f in Bound(hs[..n]) ensures f in Bound(hs) {
          var i :| 0 <= i < n && hs[..n][i] != NoField && hs[..n][i] == f;
          assert hs[i] == f;
        }
      }
      if hs[n] == NoField then m else m[hs[n] := CellValue(hs[n], row[n])]
  }

  /** No field is bound to two columns. */
  predicate Distinct(hs: seq<Field>) {
    forall i, j :: 0 <= i < j < |hs| && hs[i] == hs[j] ==> hs[i] == NoField
  }

  lemma DistinctPrefix(hs: seq<Field>, n: int)
    requires Distinct(hs) && 0 <= n <= |hs|
    ensures Distinct(hs[..n])
  {
    forall i, j | 0 <= i < j < n && hs[..n][i] == hs[..n][j] ensures hs[..n][i] == NoField {
      assert hs[..n][i] == hs[i] && hs[..n][j] == hs[j];
    }
  }

  /** When no field is bound twice, each bound field of the partial item
      holds exactly its own column's checked value. */
  lemma {:induction false} MapRowReadsColumns(row: seq<string>, hs: seq<Field>)
    requires |row| == |hs| && Distinct(hs)
    ensures forall i :: 0 <= i < |hs| && hs[i] != NoField ==> MapRow(row, hs)[hs[i]] == CellValue(hs[i], row[i])
  {
    if |row| > 0 {
      var n := |row| - 1;
      var m := MapRow(row[..n], hs[..n]);
      assert MapRow(row, hs) == if hs[n] == NoField then m else m[hs[n] := CellValue(hs[n], row[n])];
      DistinctPrefix(hs, n);
      MapRowReadsColumns(row[..n], hs[..n]);
      forall i | 0 <= i < |hs| && hs[i] != NoField
        ensures MapRow(row, hs)[hs[i]] == CellValue(hs[i], row[i])
      {
        if i < n {
          assert hs[..n][i] == hs[i] && row[..n][i] == row[i];
          assert m[hs[i]] == CellValue(hs[i], row[i]);
          assert hs[n] != hs[i];
        }
      }
    }
  }

  /** mapResult: every row of the chosen sheet as a partial item. */
  function MapResult(rows: seq<seq<string>>, hs: seq<Field>): (r: seq<map<Field, Cell>>)
    requires forall k :: 0 <= k < |rows| ==> |rows[k]| == |hs|
    ensures |r| == |rows|
    ensures forall k :: 0 <= k < |rows| ==> r[k] == MapRow(rows[k], hs) && r[k].Keys == Bound(hs)
  {
    seq(|rows|, k requires 0 <= k < |rows| => MapRow(rows[k], hs))
  }

  /** The header options per quiz type, "none" first. */
  function Options(t: QuizType): (r: seq<Field>)
    ensures |r| > 0 && r[0] == NoField
  {
    match t
    case MultipleChoice =>
      [NoField, Question, LetterA, LetterB, LetterC, LetterD, McAnswer, Explanation, Points, Timer]
    case Identification => [NoField, Question, IAnswer, Explanation, Points, Timer]
    case TrueOrFalse => [NoField, Question, TofAnswer, Explanation, Points, Timer]
  }

  /** The filter on a column's options: "none", the column's own field, or
      a field no column of the sheet is bound to. */
  predicate Offered(f: Field, current: Field, hs: seq<Field>) {
    f == NoField || f == current || f !in hs
  }

  /** Choosing an offered option keeps every field bound to at most one column. */
  lemma ChoosingOfferedKeepsDistinct(hs: seq<Field>, index: int, f: Field)
    requires Distinct(hs) && 0 <= index < |hs| && Offered(f, hs[index], hs)
    ensures Distinct(hs[index := f])
  {
    var hs' := hs[index := f];
    forall i, j | 0 <= i < j < |hs'| && hs'[i] == hs'[j]
      ensures hs'[i] == NoField
    {
      if i != index && j != index {
        assert hs[i] == hs[j];
      }
    }
  }

  /** truncate: at most 50 characters shown, with "..." after a cut. */
  function Truncate(s: string): (r: string)
    ensures |s| <= 50 ==> r == s
    ensures |s| > 50 ==> |r| == 53 && r[..50] == s[..50] && r[50..] == "..."
  {
    if |s| > 50 then s[..50] + "..." else s
  }

  /** Sheets of the workbook that hold at least one row, in order. */
  function NonEmptySheets(book: seq<(string, seq<seq<string>>)>): seq<(string, seq<seq<string>>)>
  {
    if |book| == 0 then []
    else
      var rest := NonEmptySheets(book[1..]);
      if |book[0].1| > 0 then [book[0]] + rest else rest
  }

  /** The kept sheets are exactly the workbook's sheets with a row. */
  lemma {:induction false} NonEmptySheetsFilters(book: seq<(string, seq<seq<string>>)>)
    ensures forall k :: 0 <= k < |NonEmptySheets(book)| ==>
      |NonEmptySheets(book)[k].1| > 0 && NonEmptySheets(book)[k] in book
    ensures forall s :: s in book && |s.1| > 0 ==> s in NonEmptySheets(book)
  {
    if |book| > 0 {
      NonEmptySheetsFilters(book[1..]);
      assert book == [book[0]] + book[1..];
    }
  }

  /** Every row of a sheet as wide as its first, as the reader pads them. */
  predicate Rectangular(sheet: seq<seq<string>>) {
    forall j :: 0 <= j < |sheet| ==> |sheet[j]| == |sheet[0]|
  }

  function AllNone(width: nat): (r: seq<Field>)
    ensures |r| == width && Distinct(r)
    ensures forall i :: 0 <= i < width ==> r[i] == NoField
  {
    seq(width, i => NoField)
  }

  /** What the dialog keeps about its sheets: one name and one header row
      per sheet, no empty sheet, rows as wide as the header row, only options
      of the current type, and no field bound to two columns. */
  ghost predicate SheetsOk(kind: QuizType, names: seq<string>, sheets: seq<seq<seq<string>>>, headers: seq<seq<Field>>) {
    && |names| == |sheets| == |headers|
    && forall k :: 0 <= k < |sheets| ==>
         && |sheets[k]| > 0
         && (forall j :: 0 <= j < |sheets[k]| ==> |sheets[k][j]| == |headers[k]|)
         && (forall i :: 0 <= i < |headers[k]| ==> headers[k][i] in Options(kind))
         && Distinct(headers[k])
  }

  function NamesOf(kept: seq<(string, seq<seq<string>>)>): (r: seq<string>)
    ensures |r| == |kept| && forall k :: 0 <= k < |kept| ==> r[k] == kept[k].0
  {
    seq(|kept|, k requires 0 <= k < |kept| => kept[k].0)
  }

  function SheetsOf(kept: seq<(string, seq<seq<string>>)>): (r: seq<seq<seq<string>>>)
    ensures |r| == |kept| && forall k :: 0 <= k < |kept| ==> r[k] == kept[k].1
  {
    seq(|kept|, k requires 0 <= k < |kept| => kept[k].1)
  }

  /** One all-"none" header row per sheet, as wide as its first row. */
  function FreshHeaders(kept: seq<(string, seq<seq<string>>)>): (r: seq<seq<Field>>)
    requires forall k :: 0 <= k < |kept| ==> |kept[k].1| > 0
    ensures |r| == |kept| && forall k :: 0 <= k < |kept| ==> r[k] == AllNone(|kept[k].1[0]|)
  {
    seq(|kept|, k requires 0 <= k < |kept| => AllNone(|kept[k].1[0]|))
  }

  /** The state a freshly read workbook leaves: its non-empty sheets, every
      column bound to "none". */
  lemma LoadedSheetsOk(kind: QuizType, kept: seq<(string, seq<seq<string>>)>)
    requires forall k :: 0 <= k < |kept| ==> |kept[k].1| > 0 && Rectangular(kept[k].1)
    ensures SheetsOk(kind, NamesOf(kept), SheetsOf(kept), FreshHeaders(kept))
  {
  }

  /** The sheets kept from a workbook whose sheets are padded satisfy the invariant. */
  lemma KeptSheetsOk(kind: QuizType, book: seq<(string, seq<seq<string>>)>)
    requires forall k :: 0 <= k < |book| ==> Rectangular(book[k].1)
    ensures var kept := NonEmptySheets(book);
      && (forall k :: 0 <= k < |kept| ==> |kept[k].1| > 0)
      && SheetsOk(kind, NamesOf(kept), SheetsOf(kept), FreshHeaders(kept))
  {
    var kept := NonEmptySheets(book);
    NonEmptySheetsFilters(book);
    assert forall k :: 0 <= k < |kept| ==> |kept[k].1| > 0 && Rectangular(kept[k].1);
    LoadedSheetsOk(kind, kept);
  }

  /** Resetting every header row keeps the invariant under any type. */
  lemma ResetSheetsOk(kind: QuizType, t: QuizType, names: seq<string>, sheets: seq<seq<seq<string>>>, headers: seq<seq<Field>>)
    requires SheetsOk(kind, names, sheets, headers)
    ensures SheetsOk(t, names, sheets, seq(|headers|, k requires 0 <= k < |headers| => AllNone(|headers[k]|)))
  {
  }

  /** Binding one column to an offered option of the current type keeps the invariant. */
  lemma ChooseSheetsOk(kind: QuizType, names: seq<string>, sheets: seq<seq<seq<string>>>, headers: seq<seq<Field>>,
                       sel: int, index: int, f: Field)
    requires SheetsOk(kind, names, sheets, headers)
    requires 0 <= sel < |sheets| && 0 <= index < |headers[sel]|
    requires f in Options(kind) && Offered(f, headers[sel][index], headers[sel])
    ensures SheetsOk(kind, names, sheets, headers[sel := headers[sel][index := f]])
  {
    ChoosingOfferedKeepsDistinct(headers[sel], index, f);
  }

  class ImportDialog {
    var kind: QuizType
    var fileName: string
    var names: seq<string>
    var sheets: seq<seq<seq<string>>>
    /** Per sheet, the field each column is bound to. */
    var headers: seq<seq<Field>>
    var selected: int
    var open: bool
    var toast: string

    ghost predicate Valid()
      reads this
    {
      && SheetsOk(kind, names, sheets, headers)
      && 0 <= selected && (selected < |sheets| || |sheets| == 0)
    }

    /** Whether the dialog can be drawn: a closed dialog draws nothing, and an
        open one reads the header row of the selected sheet, which must exist.
        An open dialog without sheets is the state in which the page's render
        throws. */
    predicate Renders()
      reads this
    {
      !open || 0 <= selected < |headers|
    }

    constructor ()
      ensures Valid() && kind == MultipleChoice && sheets == [] && !open
    {
      kind := MultipleChoice;
      fileName := "";
      names := [];
      sheets := [];
      headers := [];
      selected := 0;
      open := false;
      toast := "";
    }

    /** The file input: an unaccepted extension only shows a toast; an
        accepted file keeps its non-empty sheets, binds every column to
        "none", selects the first sheet and opens the dialog. */
    method ChooseFile(name: string, book: seq<(string, seq<seq<string>>)>)
      requires Valid()
      requires forall k :: 0 <= k < |book| ==> Rectangular(book[k].1)
      modifies this
      ensures Valid() && kind == old(kind)
      ensures !Accepts(name) ==>
        && toast == "Unallowed file format" && sheets == old(sheets) && headers == old(headers)
        && names == old(names) && open == old(open) && fileName == old(fileName) && selected == old(selected)
      ensures Accepts(name) ==>
        var kept := NonEmptySheets(book);
        && fileName == name && open && selected == 0 && toast == old(toast)
        && names == NamesOf(kept) && sheets == SheetsOf(kept) && headers == FreshHeaders(kept)
        && (Renders() <==> kept != [])
    {
      if !Accepts(name) {
        toast := "Unallowed file format";
        return;
      }
      Open(name, book);
    }

    /** Loading an accepted workbook: its non-empty sheets, every column bound
        to "none", the first sheet selected and the dialog open. */
    method Open(name: string, book: seq<(string, seq<seq<string>>)>)
      requires Valid()
      requires forall k :: 0 <= k < |book| ==> Rectangular(book[k].1)
      modifies this
      ensures Valid() && kind == old(kind) && toast == old(toast)
      ensures var kept := NonEmptySheets(book);
        && fileName == name && open && selected == 0
        && names == NamesOf(kept) && sheets == SheetsOf(kept) && headers == FreshHeaders(kept)
      ensures Renders() <==> NonEmptySheets(book) != []
    {
      var kept := NonEmptySheets(book);
      KeptSheetsOk(kind, book);
      fileName := name;
      names := NamesOf(kept);
      sheets := SheetsOf(kept);
      headers := FreshHeaders(kept);
      selected := 0;
      open := true;
    }

    /** The type select: every column of every sheet goes back to "none". */
    method ChangeType(t: QuizType)
      requires Valid()
      modifies this
      ensures Valid() && kind == t
      ensures |headers| == |old(headers)|
      ensures forall k :: 0 <= k < |headers| ==> headers[k] == AllNone(|old(headers)[k]|)
      ensures sheets == old(sheets) && names == old(names) && selected == old(selected) && open == old(open)
      ensures fileName == old(fileName) && toast == old(toast)
    {
      var hs := headers;
      ResetSheetsOk(kind, t, names, sheets, hs);
      headers := seq(|hs|, k requires 0 <= k < |hs| => AllNone(|hs[k]|));
      kind := t;
    }

    /** The worksheet select. */
    method SelectSheet(k: int)
      requires Valid() && 0 <= k < |sheets|
      modifies this
      ensures Valid() && selected == k && Renders()
      ensures sheets == old(sheets) && headers == old(headers) && kind == old(kind)
      ensures names == old(names) && open == old(open) && fileName == old(fileName) && toast == old(toast)
    {
      selected := k;
    }

    /** A column's select: only an offered option of the current type can be
        chosen, and only that column of the selected sheet changes. */
    method ChooseHeader(index: int, f: Field)
      requires Valid() && |sheets| > 0 && 0 <= index < |headers[selected]|
      requires f in Options(kind) && Offered(f, headers[selected][index], headers[selected])
      modifies this
      ensures sheets == old(sheets) && selected == old(selected) && kind == old(kind)
      ensures |old(headers)| == |old(sheets)| && 0 <= index < |old(headers)[selected]|
      ensures headers == old(headers)[selected := old(headers)[selected][index := f]]
      ensures names == old(names) && open == old(open) && fileName == old(fileName) && toast == old(toast)
      ensures Valid()
    {
      ChooseSheetsOk(kind, names, sheets, headers, selected, index, f);
      headers := headers[selected := headers[selected][index := f]];
    }

    /** Replace or Append: the selected sheet as partial items of the current
        type, and the dialog closes. */
    method Import() returns (items: seq<map<Field, Cell>>, t: QuizType)
      requires Valid() && |sheets| > 0
      modifies this
      ensures sheets == old(sheets) && headers == old(headers) && selected == old(selected)
      ensures Valid() && !open && t == old(kind) && kind == old(kind)
      ensures names == old(names) && fileName == old(fileName) && toast == old(toast)
      ensures items == MapResult(sheets[selected], headers[selected])
    {
      items := MapResult(sheets[selected], headers[selected]);
      t := kind;
      open := false;
    }
  }

  /** An imported question or explanation obeys the same rule the server
      applies to it. */
  lemma QuestionRuleMatchesServer(s: string, item: Item)
    requires item.question == s
    ensures CellOk(Question, s) <==> QuestionOk(item)
  {
  }

  /** A points cell the dialog accepts lies in the server's range, but the
      dialog also refuses values the server would take, such as 51. */
  lemma PointsStricterThanServer(s: string)
    ensures CellOk(Points, s) ==> 50 <= NumberOf(s).value <= 1000
    ensures !CellOk(Points, "51")
  {
    assert NumberOf("51") == Finite(51) by {
      assert AllDigits("51");
      assert "51"[..1] == "5";
      assert DigitsValue("5") == 5;
    }
  }

  /** A valid answer-letter cell becomes a letter the server accepts. */
  lemma ImportedLetterIsServerLetter(s: string)
    requires CellOk(McAnswer, s)
    ensures MapData(s, McAnswer).text in ["a", "b", "c", "d"]
  {
  }

  /** A valid TRUE/FALSE cell is stored in upper case. */
  lemma ImportedTruthIsUpperCase(s: string)
    requires CellOk(TofAnswer, s)
    ensures MapData(s, TofAnswer).text == "TRUE" || MapData(s, TofAnswer).text == "FALSE"
  {
  }
}
