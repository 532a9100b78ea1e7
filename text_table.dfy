/** `TextTable`: a grid of text cells under one or two header lines, with a
    colour and an alignment per column and a colour per data line. Every
    operation that changes the shape keeps all header lines, all data lines
    and the per-column lists exactly as wide as the first header line.
    Java's `null` for a colour or a second header line is `None`. */
module TextTable {
  import opened Wrappers
  import opened Text

  /** The exceptions: the explicit `Exception`s of the checks, and the
      `IndexOutOfBoundsException` of a list access out of range. */
  datatype TableError =
    | NoLineCreated
    | NoSuchColumnInLine
    | InvalidColumnIndex(index: int)
    | InvalidHeaderRequest(line: int, column: int)
    | InvalidDataRequest(line: int, column: int)
    | IndexOutOfBounds

  function Blanks(n: nat): (r: seq<string>)
    ensures |r| == n && forall i :: 0 <= i < n ==> r[i] == ""
  {
    seq(n, _ => "")
  }

  /** `list.remove(index)`. */
  function RemoveAt<T>(s: seq<T>, index: nat): (r: seq<T>)
    requires index < |s|
    ensures |r| == |s| - 1
    ensures forall i :: 0 <= i < index ==> r[i] == s[i]
    ensures forall i :: index <= i < |r| ==> r[i] == s[i + 1]
  {
    s[..index] + s[index + 1..]
  }

  /** How many rows `keepOnlyLastRows(n)` and `keepOnlyFirstRows(n)` leave:
      `min(n, rows)`, and none for a negative `n`. */
  function Kept(n: int, rows: nat): (r: nat)
    ensures n < 0 ==> r == 0
    ensures 0 <= n ==> r <= n && r <= rows && (r == n || r == rows)
  {
    if n < 0 then 0 else if n < rows then n else rows
  }

  /** One line of `toCsvString`: every cell in quotes and followed by `;`. */
  function CsvCells(cells: seq<string>): string
  {
    if cells == [] then "" else "\"" + cells[0] + "\";" + CsvCells(cells[1..])
  }

  /** The lines of `toCsvString`, each ended by a line feed. */
  function CsvLines(rows: seq<seq<string>>): string
  {
    if rows == [] then "" else CsvCells(rows[0]) + "\n" + CsvLines(rows[1..])
  }

  function CountChar(s: string, c: char): nat
  {
    if s == [] then 0 else (if s[0] == c then 1 else 0) + CountChar(s[1..], c)
  }

  lemma {:induction false} CountCharAppend(a: string, b: string, c: char)
    ensures CountChar(a + b, c) == CountChar(a, c) + CountChar(b, c)
    decreases |a|
  {
    if a != [] {
      assert (a + b)[1..] == a[1..] + b;
      CountCharAppend(a[1..], b, c);
    } else {
      assert a + b == b;
    }
  }

  predicate NoLineFeed(rows: seq<seq<string>>)
  {
    forall l, k :: 0 <= l < |rows| && 0 <= k < |rows[l]| ==> '\n' !in rows[l][k]
  }

  lemma {:induction false} CsvCellsHaveNoLineFeed(cells: seq<string>)
    requires forall k :: 0 <= k < |cells| ==> '\n' !in cells[k]
    ensures CountChar(CsvCells(cells), '\n') == 0
    decreases |cells|
  {
    if cells != [] {
      CsvCellsHaveNoLineFeed(cells[1..]);
      var quoted := "\"" + cells[0] + "\";";
      CountCharAppend(quoted, CsvCells(cells[1..]), '\n');
      CountCharAppend("\"", cells[0], '\n');
      CountCharAppend("\"" + cells[0], "\";", '\n');
      MissingCharCount(cells[0], '\n');
    }
  }

  lemma {:induction false} MissingCharCount(s: string, c: char)
    requires c !in s
    ensures CountChar(s, c) == 0
    decreases |s|
  {
    if s != [] {
      assert s[0] != c;
      assert forall i :: 0 <= i < |s[1..]| ==> s[1..][i] == s[i + 1];
      MissingCharCount(s[1..], c);
    }
  }

  /** Without line feeds in the cells, `toCsvString` writes one text line
      per table line. */
  lemma {:induction false} CsvLinesCount(rows: seq<seq<string>>)
    requires NoLineFeed(rows)
    ensures CountChar(CsvLines(rows), '\n') == |rows|
    decreases |rows|
  {
    if rows != [] {
      assert NoLineFeed(rows[1..]) by {
        forall l, k | 0 <= l < |rows[1..]| && 0 <= k < |rows[1..][l]|
          ensures '\n' !in rows[1..][l][k]
        {
          assert rows[1..][l] == rows[l + 1];
        }
      }
      CsvLinesCount(rows[1..]);
      CsvCellsHaveNoLineFeed(rows[0]);
      CountCharAppend(CsvCells(rows[0]) + "\n", CsvLines(rows[1..]), '\n');
      CountCharAppend(CsvCells(rows[0]), "\n", '\n');
    }
  }

  lemma CsvLinesAppend(rows: seq<seq<string>>, row: seq<string>)
    ensures CsvLines(rows + [row]) == CsvLines(rows) + CsvCells(row) + "\n"
  {
    if rows != [] {
      assert (rows + [row])[1..] == rows[1..] + [row];
      CsvLinesAppend(rows[1..], row);
    } else {
      assert [] + [row] == [row];
    }
  }

  lemma CsvCellsAppend(cells: seq<string>, cell: string)
    ensures CsvCells(cells + [cell]) == CsvCells(cells) + "\"" + cell + "\";"
  {
    if cells != [] {
      assert (cells + [cell])[1..] == cells[1..] + [cell];
      CsvCellsAppend(cells[1..], cell);
    } else {
      assert [] + [cell] == [cell];
    }
  }

  // ---------------------------------------------------------------------
  // htmlEncodeString
  // ---------------------------------------------------------------------

  /** The replacements `htmlEncodeString` chains, in order, as written. */
  const HtmlReplacements: seq<(char, string)> :=
    [('&', "&amp;"), ('<', "&lt;"), ('Ä', "&Auml;"), ('ä', "&auml;"), ('Ö', "&Ouml;"),
     ('ö', "&ouml;"), ('Ü', "&Uuml;"), ('ü', "&uuml;"), ('ß', "&slig;")]

  /** `htmlEncodeString`, as written: `&` first, then `<` and the German
      letters, where `ß` becomes `&slig;`. */
  function HtmlEncodeString(value: string): string
  {
    ReplaceAll(value, HtmlReplacements)
  }

  /** `htmlEncodeString` encodes every character on its own: no entity it
      writes is escaped again by a later replacement. */
  lemma HtmlEncodeIsCharwise(s: string)
    ensures HtmlEncodeString(s) == EachChar(s, HtmlReplacements)
  {
    NoRescanEntities(HtmlReplacements);
    ReplaceAllCharwise(s, HtmlReplacements);
  }

  /** Replacements into texts of ASCII letters, `&` and `;`, where only the
      first replaces a character such texts contain. */
  lemma NoRescanEntities(pairs: seq<(char, string)>)
    requires pairs != [] && pairs[0].0 == '&'
    requires forall k :: 0 < k < |pairs| ==> pairs[k].0 != '&' && pairs[k].0 != ';' && !IsAsciiLetter(pairs[k].0)
    requires forall j :: 0 <= j < |pairs| ==> forall i :: 0 <= i < |pairs[j].1| ==> pairs[j].1[i] == '&' || pairs[j].1[i] == ';' || IsAsciiLetter(pairs[j].1[i])
    ensures NoRescan(pairs)
  {
  }

  /** The named character references of HTML 4 for the characters
      `htmlEncodeString` escapes. */
  function EntityName(c: char): string
  {
    if c == '&' then "amp"
    else if c == '<' then "lt"
    else if c == 'Ä' then "Auml"
    else if c == 'ä' then "auml"
    else if c == 'Ö' then "Ouml"
    else if c == 'ö' then "ouml"
    else if c == 'Ü' then "Uuml"
    else if c == 'ü' then "uuml"
    else if c == 'ß' then "szlig"
    else ""
  }

  /** One character: its character reference, or itself. */
  function Entity(c: char): string
  {
    if EntityName(c) == "" then [c] else "&" + EntityName(c) + ";"
  }

  /** As written, `ß` is written as `&slig;`, which is no character
      reference of HTML; `&szlig;` is. */
  lemma SharpSNotEncoded()
    ensures HtmlEncodeString("ß") == "&slig;"
    ensures Entity('ß') == "&szlig;"
  {
    HtmlEncodeIsCharwise("ß");
    assert EachChar("ß", HtmlReplacements) == Lookup('ß', HtmlReplacements) + EachChar("", HtmlReplacements);
    SharpSAsWritten();
  }

  lemma SharpSAsWritten()
    ensures Lookup('ß', HtmlReplacements) == "&slig;"
  {
    var pairs := HtmlReplacements;
    assert pairs[0].0 == '&' && pairs[1].0 == '<' && pairs[2].0 == 'Ä' && pairs[3].0 == 'ä' && pairs[4].0 == 'Ö';
    assert pairs[5].0 == 'ö' && pairs[6].0 == 'Ü' && pairs[7].0 == 'ü' && pairs[8].0 == 'ß';
    LookupFirst('ß', pairs, 8);
  }

  /** The replacements with `ß` written as `&szlig;`. */
  const HtmlReplacementsCorrected: seq<(char, string)> :=
    [('&', "&amp;"), ('<', "&lt;"), ('Ä', "&Auml;"), ('ä', "&auml;"), ('Ö', "&Ouml;"),
     ('ö', "&ouml;"), ('Ü', "&Uuml;"), ('ü', "&uuml;"), ('ß', "&szlig;")]

  function HtmlEncodeStringCorrected(value: string): string
  {
    ReplaceAll(value, HtmlReplacementsCorrected)
  }

  lemma LookupCorrected(c: char)
    ensures Lookup(c, HtmlReplacementsCorrected) == Entity(c)
  {
    CorrectedTexts();
    LookupAgrees(c, HtmlReplacementsCorrected, Entity);
    if forall k :: 0 <= k < |HtmlReplacementsCorrected| ==> HtmlReplacementsCorrected[k].0 != c {
      CorrectedTargets(c);
    }
  }

  /** Every corrected replacement text is the character reference. */
  lemma CorrectedTexts()
    ensures forall k :: 0 <= k < |HtmlReplacementsCorrected| ==>
      HtmlReplacementsCorrected[k].1 == Entity(HtmlReplacementsCorrected[k].0)
  {
    var pairs := HtmlReplacementsCorrected;
    assert pairs[0].1 == Entity('&') && pairs[1].1 == Entity('<') && pairs[2].1 == Entity('Ä');
    assert pairs[3].1 == Entity('ä') && pairs[4].1 == Entity('Ö') && pairs[5].1 == Entity('ö');
    assert pairs[6].1 == Entity('Ü') && pairs[7].1 == Entity('ü') && pairs[8].1 == Entity('ß');
  }

  /** The corrected replacements target every character with a reference. */
  lemma CorrectedTargets(c: char)
    requires forall k :: 0 <= k < |HtmlReplacementsCorrected| ==> HtmlReplacementsCorrected[k].0 != c
    ensures EntityName(c) == ""
  {
    var pairs := HtmlReplacementsCorrected;
    assert pairs[0].0 == '&' && pairs[1].0 == '<' && pairs[2].0 == 'Ä' && pairs[3].0 == 'ä' && pairs[4].0 == 'Ö';
    assert pairs[5].0 == 'ö' && pairs[6].0 == 'Ü' && pairs[7].0 == 'ü' && pairs[8].0 == 'ß';
  }

  lemma {:induction false} EachCharEntity(s: string)
    ensures EachChar(s, HtmlReplacementsCorrected) == EntityEach(s)
    decreases |s|
  {
    if s != [] {
      LookupCorrected(s[0]);
      EachCharEntity(s[1..]);
    }
  }

  /** Every character written as its character reference, or as itself. */
  function EntityEach(s: string): string
  {
    if s == [] then "" else Entity(s[0]) + EntityEach(s[1..])
  }

  /** The corrected encoding writes every escaped character as its HTML
      character reference, one character at a time, and leaves every other
      character as it is. */
  lemma HtmlEncodeCorrectedIsCharwise(s: string)
    ensures HtmlEncodeStringCorrected(s) == EntityEach(s)
  {
    NoRescanEntities(HtmlReplacementsCorrected);
    ReplaceAllCharwise(s, HtmlReplacementsCorrected);
    EachCharEntity(s);
  }

  // ---------------------------------------------------------------------
  // convertXlsColor2HtmlColor
  // ---------------------------------------------------------------------

  /** `convertXlsColor2HtmlColor`; `None` is a `null` colour name. */
  function ConvertXlsColor2HtmlColor(xlsColor: Option<string>): string
  {
    match xlsColor
    case None => "white"
    case Some(x) =>
      if EqualsIgnoreCase(x, "VERY_LIGHT_YELLOW") then "yellow"
      else if EqualsIgnoreCase(x, "LIGHT_GREEN") then "lime"
      else if EqualsIgnoreCase(x, "LAVENDER") then "fuchsia"
      else if EqualsIgnoreCase(x, "TAN") then "fuchsia"
      else if EqualsIgnoreCase(x, "TURQUOISE") then "aqua"
      else if EqualsIgnoreCase(x, "YELLOW") then "yellow"
      else if EqualsIgnoreCase(x, "LIGHT_TURQUOISE") then "aqua"
      else if EqualsIgnoreCase(x, "LIGHT_ORANGE") then "red"
      else if EqualsIgnoreCase(x, "ROSE") then "fuchsia"
      else if EqualsIgnoreCase(x, "WOCHENENDE") then "coral"
      else "white"
  }

  const XlsColorNames: seq<string> :=
    ["VERY_LIGHT_YELLOW", "LIGHT_GREEN", "LAVENDER", "TAN", "TURQUOISE", "YELLOW",
     "LIGHT_TURQUOISE", "LIGHT_ORANGE", "ROSE", "WOCHENENDE"]

  /** The result is always one of the HTML colour names used. */
  lemma ConvertColorRange(xlsColor: Option<string>)
    ensures ConvertXlsColor2HtmlColor(xlsColor) in HtmlColorNames
  {
  }

  const HtmlColorNames: set<string> := {"yellow", "lime", "fuchsia", "aqua", "red", "coral", "white"}

  /** Only the listed names map to a colour other than `white`. */
  lemma UnknownColorIsWhite(xlsColor: Option<string>)
    requires xlsColor.Some? ==> forall i :: 0 <= i < |XlsColorNames| ==> !EqualsIgnoreCase(xlsColor.value, XlsColorNames[i])
    ensures ConvertXlsColor2HtmlColor(xlsColor) == "white"
  {
    if xlsColor.Some? {
      var x := xlsColor.value;
      assert !EqualsIgnoreCase(x, XlsColorNames[0]) && !EqualsIgnoreCase(x, XlsColorNames[1]);
      assert !EqualsIgnoreCase(x, XlsColorNames[2]) && !EqualsIgnoreCase(x, XlsColorNames[3]);
      assert !EqualsIgnoreCase(x, XlsColorNames[4]) && !EqualsIgnoreCase(x, XlsColorNames[5]);
      assert !EqualsIgnoreCase(x, XlsColorNames[6]) && !EqualsIgnoreCase(x, XlsColorNames[7]);
      assert !EqualsIgnoreCase(x, XlsColorNames[8]) && !EqualsIgnoreCase(x, XlsColorNames[9]);
    }
  }

  /** Names that differ only in case map to the same colour. */
  lemma ConvertColorIgnoresCase(a: string, b: string)
    requires EqualsIgnoreCase(a, b)
    ensures ConvertXlsColor2HtmlColor(Some(a)) == ConvertXlsColor2HtmlColor(Some(b))
  {
    forall t: string
      ensures EqualsIgnoreCase(a, t) <==> EqualsIgnoreCase(b, t)
    {
      if |a| == |t| {
        assert (forall i :: 0 <= i < |a| ==> ToUpperChar(a[i]) == ToUpperChar(t[i])) <==>
               (forall i :: 0 <= i < |b| ==> ToUpperChar(b[i]) == ToUpperChar(t[i]));
      }
    }
  }

  // ---------------------------------------------------------------------
  // The table object
  // ---------------------------------------------------------------------

  /** A row padded with empty cells up to `width`, one cell at a time. */
  method PadRow(line: seq<string>, width: nat) returns (r: seq<string>)
    ensures |line| <= width ==> r == line + Blanks(width - |line|)
    ensures |line| > width ==> r == line
  {
    r := line;
    while |r| < width
      invariant |line| <= width ==> |r| <= width
      invariant |line| > width ==> r == line
      invariant r == line + Blanks(|r| - |line|)
      decreases width - |r|
    {
      r := r + [""];
    }
  }

  class TextTable {
    /** The header lines: the first names the columns, the optional second
        holds a second name per column. */
    var columnNames: seq<seq<string>>
    var content: seq<seq<string>>
    var columnColors: seq<Option<string>>
    var lineColors: seq<Option<string>>
    var columnRightAligned: seq<bool>
    var currentLineIndex: int
    var currentColumnIndex: int

    /** `getColumnCount`. */
    function GetColumnCount(): nat
      reads this
    {
      if columnNames == [] then 0 else |columnNames[0]|
    }

    /** The shape invariant: one or two header lines, and every header line,
        every data line and the per-column lists as wide as the first header
        line. The line cursor never lies before the last data line. */
    ghost predicate Valid()
      reads this
    {
      && 1 <= |columnNames| <= 2
      && (forall h :: 0 <= h < |columnNames| ==> |columnNames[h]| == GetColumnCount())
      && |columnColors| == GetColumnCount() && |columnRightAligned| == GetColumnCount()
      && (forall l :: 0 <= l < |content| ==> |content[l]| == GetColumnCount())
      && -1 <= currentLineIndex && |content| - 1 <= currentLineIndex
    }

    /** The cursor is at the last data line and every data line has its
        colour, as on a table only extended line by line. */
    ghost predicate Aligned()
      reads this
    {
      currentLineIndex == |content| - 1 && |lineColors| == |content|
    }

    constructor()
      ensures Valid() && Aligned()
      ensures columnNames == [[]] && content == [] && columnColors == [] && lineColors == []
      ensures columnRightAligned == [] && currentLineIndex == -1 && currentColumnIndex == -1
    {
      columnNames := [[]];
      columnColors := [];
      content := [];
      columnRightAligned := [];
      lineColors := [];
      currentLineIndex := -1;
      currentColumnIndex := -1;
    }

    /** `TextTable(String... columnNames)`. */
    constructor WithColumns(names: seq<string>)
      ensures Valid() && Aligned()
      ensures columnNames == [names] && content == [] && columnColors == seq(|names|, _ => None)
      ensures columnRightAligned == seq(|names|, _ => false) && lineColors == []
      ensures currentLineIndex == -1 && currentColumnIndex == -1
    {
      columnNames := [[]];
      columnColors := [];
      content := [];
      columnRightAligned := [];
      lineColors := [];
      currentLineIndex := -1;
      currentColumnIndex := -1;
      new;
      for i := 0 to |names|
        invariant Valid() && Aligned() && |columnNames| == 1 && columnNames[0] == names[..i] && content == []
        invariant columnColors == seq(i, _ => None) && columnRightAligned == seq(i, _ => false)
        invariant lineColors == [] && currentLineIndex == -1 && currentColumnIndex == -1
      {
        AddColumn(names[i], None, false, None);
        assert names[..i + 1] == names[..i] + [names[i]];
      }
      assert names[..|names|] == names;
    }

    function HasData(): bool
      reads this
    {
      currentLineIndex >= 0
    }

    /** `addColumn`: the column is appended to every header line, list and
        data line; a second header line is created by the first column that
        names one and back-filled with `""`. */
    method AddColumn(columnName: string, columnNameLine2: Option<string>, alignRight: bool, color: Option<string>)
      requires Valid()
      modifies this
      ensures Valid() && GetColumnCount() == old(GetColumnCount()) + 1
      ensures columnNames[0] == old(columnNames[0]) + [columnName]
      ensures |columnNames| == if columnNameLine2.Some? then 2 else old(|columnNames|)
      ensures |columnNames| == 2 ==>
        columnNames[1] == (if old(|columnNames|) == 2 then old(columnNames[1]) else Blanks(old(GetColumnCount())))
                          + [if columnNameLine2.Some? then columnNameLine2.value else ""]
      ensures columnColors == old(columnColors) + [color]
      ensures columnRightAligned == old(columnRightAligned) + [alignRight]
      ensures |content| == old(|content|) && forall l :: 0 <= l < |content| ==> content[l] == old(content[l]) + [""]
      ensures lineColors == old(lineColors) && currentLineIndex == old(currentLineIndex)
      ensures currentColumnIndex == old(currentColumnIndex)
    {
      var names := columnNames;
      names := names[0 := names[0] + [columnName]];
      if columnNameLine2.Some? && |names| == 1 {
        names := names + [[]];
      }
      if |names| > 1 {
        var second := names[1];
        while |second| < |names[0]| - 1
          invariant |second| <= |names[0]| - 1
          invariant second == if |columnNames| == 2 then columnNames[1] else Blanks(|second|)
          decreases |names[0]| - |second|
        {
          second := second + [""];
        }
        names := names[1 := second];
      }
      if columnNameLine2.Some? {
        names := names[1 := names[1] + [columnNameLine2.value]];
      } else if |names| > 1 {
        names := names[1 := names[1] + [""]];
      }
      var rows := content;
      for i := 0 to |content|
        invariant |rows| == |content|
        invariant forall l :: 0 <= l < i ==> rows[l] == content[l] + [""]
        invariant forall l :: i <= l < |rows| ==> rows[l] == content[l]
        modifies {}
      {
        var line := PadRow(rows[i], |names[0]|);
        rows := rows[i := line];
      }
      columnNames := names;
      columnColors := columnColors + [color];
      columnRightAligned := columnRightAligned + [alignRight];
      content := rows;
    }

    /** `dropColumn`: the column is removed from every header line, list and
        data line; an index out of range fails before anything changes. */
    method DropColumn(index: int) returns (e: Option<TableError>)
      requires Valid()
      modifies this
      ensures Valid()
      ensures e.Some? <==> !(0 <= index < old(GetColumnCount()))
      ensures e.Some? ==> e == Some(IndexOutOfBounds) && unchanged(this)
      ensures e.None? ==>
        && |columnNames| == old(|columnNames|)
        && (forall h :: 0 <= h < |columnNames| ==> columnNames[h] == RemoveAt(old(columnNames[h]), index))
        && columnColors == RemoveAt(old(columnColors), index)
        && columnRightAligned == RemoveAt(old(columnRightAligned), index)
        && |content| == old(|content|)
        && (forall l :: 0 <= l < |content| ==> content[l] == RemoveAt(old(content[l]), index))
        && lineColors == old(lineColors) && currentLineIndex == old(currentLineIndex)
        && currentColumnIndex == old(currentColumnIndex)
    {
      if !(0 <= index < |columnNames[0]|) {
        return Some(IndexOutOfBounds);
      }
      var rows := content;
      for i := 0 to |content|
        invariant |rows| == |content|
        invariant forall l :: 0 <= l < i ==> rows[l] == RemoveAt(content[l], index)
        invariant forall l :: i <= l < |rows| ==> rows[l] == content[l]
      {
        rows := rows[i := RemoveAt(rows[i], index)];
      }
      columnNames := columnNames[0 := RemoveAt(columnNames[0], index)];
      columnColors := RemoveAt(columnColors, index);
      if |columnNames| > 1 {
        columnNames := columnNames[1 := RemoveAt(columnNames[1], index)];
      }
      columnRightAligned := RemoveAt(columnRightAligned, index);
      content := rows;
      return None;
    }

    /** `setAlignmentForColumn`: only that column's alignment changes. */
    method SetAlignmentForColumn(columnIndex: int, alignRight: bool) returns (e: Option<TableError>)
      requires Valid()
      modifies this`columnRightAligned
      ensures Valid()
      ensures e.Some? <==> !(0 <= columnIndex < GetColumnCount())
      ensures e.Some? ==> e == Some(InvalidColumnIndex(columnIndex)) && columnRightAligned == old(columnRightAligned)
      ensures e.None? ==> columnRightAligned == old(columnRightAligned)[columnIndex := alignRight]
    {
      if columnIndex < 0 || columnIndex >= |columnNames[0]| {
        return Some(InvalidColumnIndex(columnIndex));
      }
      columnRightAligned := columnRightAligned[columnIndex := alignRight];
      return None;
    }

    /** `startNewLine`: a line of `""` cells is appended and the column
        cursor reset. The line cursor is advanced rather than set, so after
        rows were dropped it points past the new line and the padding fails,
        leaving the new line empty. */
    method StartNewLine(color: Option<string>) returns (e: Option<TableError>)
      requires Valid()
      modifies this`content, this`lineColors, this`currentLineIndex, this`currentColumnIndex
      ensures lineColors == old(lineColors) + [color]
      ensures currentLineIndex == old(currentLineIndex) + 1 && currentColumnIndex == 0
      ensures e.Some? <==> old(currentLineIndex) >= old(|content|)
      ensures e.None? ==> Valid() && content == old(content) + [Blanks(GetColumnCount())]
      ensures e.Some? ==> e == Some(IndexOutOfBounds) && content == old(content) + [[]]
      ensures old(Aligned()) ==> e.None? && Aligned()
    {
      content := content + [[]];
      lineColors := lineColors + [color];
      currentLineIndex := currentLineIndex + 1;
      currentColumnIndex := 0;
      if currentLineIndex >= |content| {
        return Some(IndexOutOfBounds);
      }
      var line := PadRow(content[currentLineIndex], |columnNames[0]|);
      assert line == Blanks(|columnNames[0]|);
      content := content[currentLineIndex := line];
      assert content == old(content) + [line];
      return None;
    }

    /** `addValueToCurrentLine`: the value (`""` for `null`) goes to the
        cursor's cell and the column cursor moves on. */
    method AddValueToCurrentLine(value: Option<string>) returns (e: Option<TableError>)
      requires Valid()
      modifies this`content, this`currentColumnIndex
      ensures Valid()
      ensures old(currentLineIndex) == -1 ==> e == Some(NoLineCreated)
      ensures old(currentLineIndex) != -1 && old(currentLineIndex) >= old(|content|) ==> e == Some(IndexOutOfBounds)
      ensures 0 <= old(currentLineIndex) < old(|content|) && old(GetColumnCount()) <= old(currentColumnIndex) ==>
        e == Some(NoSuchColumnInLine)
      ensures e.Some? ==> content == old(content) && currentColumnIndex == old(currentColumnIndex)
      ensures e.None? <==> 0 <= old(currentLineIndex) < old(|content|) && 0 <= old(currentColumnIndex) < old(GetColumnCount())
      ensures e.None? ==>
        && content == old(content)[currentLineIndex := old(content[currentLineIndex])[old(currentColumnIndex) := if value.Some? then value.value else ""]]
        && currentColumnIndex == old(currentColumnIndex) + 1
    {
      if currentLineIndex == -1 {
        return Some(NoLineCreated);
      } else if currentLineIndex >= |content| {
        return Some(IndexOutOfBounds);
      } else if |content[currentLineIndex]| <= currentColumnIndex {
        return Some(NoSuchColumnInLine);
      } else if currentColumnIndex < 0 {
        return Some(IndexOutOfBounds);
      }
      var cell := if value.Some? then value.value else "";
      content := content[currentLineIndex := content[currentLineIndex][currentColumnIndex := cell]];
      currentColumnIndex := currentColumnIndex + 1;
      return None;
    }

    /** `addValueToCurrentLine(int)`: the decimal text of the number. */
    method AddIntValueToCurrentLine(value: int) returns (e: Option<TableError>)
      requires Valid()
      modifies this`content, this`currentColumnIndex
      ensures Valid()
      ensures e.None? <==> 0 <= old(currentLineIndex) < old(|content|) && 0 <= old(currentColumnIndex) < old(GetColumnCount())
      ensures e.None? ==>
        && content == old(content)[currentLineIndex := old(content[currentLineIndex])[old(currentColumnIndex) := IntToString(value)]]
        && currentColumnIndex == old(currentColumnIndex) + 1
      ensures e.Some? ==> content == old(content) && currentColumnIndex == old(currentColumnIndex)
    {
      e := AddValueToCurrentLine(Some(IntToString(value)));
    }

    /** `keepOnlyLastRows`: the first data lines are removed one at a time
        until at most `n` remain; for a negative `n` every line is removed
        and the removal from the empty list then fails. */
    method KeepOnlyLastRows(n: int) returns (e: Option<TableError>)
      requires Valid()
      modifies this`content
      ensures Valid()
      ensures e.Some? <==> n < 0
      ensures e.Some? ==> e == Some(IndexOutOfBounds)
      ensures content == old(content)[old(|content|) - Kept(n, old(|content|))..]
    {
      while |content| > n
        invariant |content| <= old(|content|)
        invariant |content| < old(|content|) ==> |content| >= n
        invariant content == old(content)[old(|content|) - |content|..]
        invariant Valid()
        decreases |content|
      {
        if content == [] {
          return Some(IndexOutOfBounds);
        }
        content := content[1..];
      }
      return None;
    }

    /** `keepOnlyFirstRows`: the last data lines are removed one at a time
        until at most `n` remain; a negative `n` fails as above. */
    method KeepOnlyFirstRows(n: int) returns (e: Option<TableError>)
      requires Valid()
      modifies this`content
      ensures Valid()
      ensures e.Some? <==> n < 0
      ensures e.Some? ==> e == Some(IndexOutOfBounds)
      ensures content == old(content)[..Kept(n, old(|content|))]
    {
      while |content| > n
        invariant |content| <= old(|content|)
        invariant |content| < old(|content|) ==> |content| >= n
        invariant content == old(content)[..|content|]
        invariant Valid()
        decreases |content|
      {
        if content == [] {
          return Some(IndexOutOfBounds);
        }
        content := content[..|content| - 1];
      }
      return None;
    }

    /** `keepOnlyLastRows` with the line colours and the line cursor kept
        in step with the remaining lines. */
    method KeepOnlyLastRowsCorrected(n: int) returns (e: Option<TableError>)
      requires Valid() && Aligned()
      modifies this`content, this`lineColors, this`currentLineIndex
      ensures Valid() && Aligned()
      ensures e.Some? <==> n < 0
      ensures content == old(content)[old(|content|) - Kept(n, old(|content|))..]
      ensures lineColors == old(lineColors)[old(|content|) - Kept(n, old(|content|))..]
    {
      while |content| > n
        invariant |content| <= old(|content|)
        invariant |content| < old(|content|) ==> |content| >= n
        invariant content == old(content)[old(|content|) - |content|..]
        invariant lineColors == old(lineColors)[old(|content|) - |content|..]
        invariant Valid() && Aligned()
        decreases |content|
      {
        if content == [] {
          return Some(IndexOutOfBounds);
        }
        content := content[1..];
        lineColors := lineColors[1..];
        currentLineIndex := currentLineIndex - 1;
      }
      return None;
    }

    /** `keepOnlyFirstRows` with the line colours and the line cursor kept
        in step with the remaining lines. */
    method KeepOnlyFirstRowsCorrected(n: int) returns (e: Option<TableError>)
      requires Valid() && Aligned()
      modifies this`content, this`lineColors, this`currentLineIndex
      ensures Valid() && Aligned()
      ensures e.Some? <==> n < 0
      ensures content == old(content)[..Kept(n, old(|content|))]
      ensures lineColors == old(lineColors)[..Kept(n, old(|content|))]
    {
      while |content| > n
        invariant |content| <= old(|content|)
        invariant |content| < old(|content|) ==> |content| >= n
        invariant content == old(content)[..|content|]
        invariant lineColors == old(lineColors)[..|content|]
        invariant Valid() && Aligned()
        decreases |content|
      {
        if content == [] {
          return Some(IndexOutOfBounds);
        }
        content := content[..|content| - 1];
        lineColors := lineColors[..|lineColors| - 1];
        currentLineIndex := currentLineIndex - 1;
      }
      return None;
    }

    function GetHeaderLineCount(): nat
      reads this
    {
      |columnNames|
    }

    function GetDataLineCount(): nat
      reads this
    {
      |content|
    }

    /** `getHeader`: a request beyond the header lines or their columns
        fails; a negative index is out of bounds. */
    function GetHeader(headerLineIndex: int, columnIndex: int): (r: Result<string, TableError>)
      reads this
      ensures r.Success? <==> 0 <= headerLineIndex < |columnNames| && 0 <= columnIndex < |columnNames[headerLineIndex]|
      ensures r.Success? ==> r.value == columnNames[headerLineIndex][columnIndex]
    {
      if |columnNames| <= headerLineIndex then Failure(InvalidHeaderRequest(headerLineIndex, columnIndex))
      else if headerLineIndex < 0 then Failure(IndexOutOfBounds)
      else if |columnNames[headerLineIndex]| <= columnIndex then Failure(InvalidHeaderRequest(headerLineIndex, columnIndex))
      else if columnIndex < 0 then Failure(IndexOutOfBounds)
      else Success(columnNames[headerLineIndex][columnIndex])
    }

    /** `getData`: as `getHeader`, over the data lines. */
    function GetData(lineIndex: int, columnIndex: int): (r: Result<string, TableError>)
      reads this
      ensures r.Success? <==> 0 <= lineIndex < |content| && 0 <= columnIndex < |content[lineIndex]|
      ensures r.Success? ==> r.value == content[lineIndex][columnIndex]
    {
      if |content| <= lineIndex then Failure(InvalidDataRequest(lineIndex, columnIndex))
      else if lineIndex < 0 then Failure(IndexOutOfBounds)
      else if |content[lineIndex]| <= columnIndex then Failure(InvalidDataRequest(lineIndex, columnIndex))
      else if columnIndex < 0 then Failure(IndexOutOfBounds)
      else Success(content[lineIndex][columnIndex])
    }

    function GetHeaderColor(columnIndex: int): (r: Result<Option<string>, TableError>)
      reads this
      ensures r.Success? <==> 0 <= columnIndex < |columnColors|
      ensures r.Success? ==> r.value == columnColors[columnIndex]
    {
      if 0 <= columnIndex < |columnColors| then Success(columnColors[columnIndex]) else Failure(IndexOutOfBounds)
    }

    function GetLineColor(lineIndex: int): (r: Result<Option<string>, TableError>)
      reads this
      ensures r.Success? <==> 0 <= lineIndex < |lineColors|
      ensures r.Success? ==> r.value == lineColors[lineIndex]
    {
      if 0 <= lineIndex < |lineColors| then Success(lineColors[lineIndex]) else Failure(IndexOutOfBounds)
    }

    /** `getMaxSizeOfColumn`: the length of the longest cell of the column
        over the header lines and the data lines. */
    method GetMaxSizeOfColumn(index: nat) returns (maxSize: nat)
      requires Valid() && index < GetColumnCount()
      ensures forall h :: 0 <= h < |columnNames| ==> |columnNames[h][index]| <= maxSize
      ensures forall l :: 0 <= l < |content| ==> |content[l][index]| <= maxSize
      ensures maxSize == 0
           || (exists h :: 0 <= h < |columnNames| && |columnNames[h][index]| == maxSize)
           || (exists l :: 0 <= l < |content| && |content[l][index]| == maxSize)
    {
      maxSize := 0;
      for h := 0 to |columnNames|
        invariant forall k :: 0 <= k < h ==> |columnNames[k][index]| <= maxSize
        invariant maxSize == 0 || exists k :: 0 <= k < h && |columnNames[k][index]| == maxSize
      {
        if |columnNames[h][index]| > maxSize {
          maxSize := |columnNames[h][index]|;
        }
      }
      for l := 0 to |content|
        invariant forall k :: 0 <= k < |columnNames| ==> |columnNames[k][index]| <= maxSize
        invariant forall k :: 0 <= k < l ==> |content[k][index]| <= maxSize
        invariant maxSize == 0
               || (exists k :: 0 <= k < |columnNames| && |columnNames[k][index]| == maxSize)
               || (exists k :: 0 <= k < l && |content[k][index]| == maxSize)
      {
        if |content[l][index]| > maxSize {
          maxSize := |content[l][index]|;
        }
      }
    }

    /** `toCsvString`: the header lines, then the data lines, each cell in
        quotes and followed by `;`, each line ended by a line feed. */
    method ToCsvString() returns (csvText: string)
      requires Valid()
      ensures csvText == CsvLines(columnNames + content)
    {
      csvText := "";
      for h := 0 to |columnNames|
        invariant csvText == CsvLines(columnNames[..h])
      {
        var line := "";
        for c := 0 to |columnNames[0]|
          invariant line == CsvCells(columnNames[h][..c])
        {
          CsvCellsAppend(columnNames[h][..c], columnNames[h][c]);
          assert columnNames[h][..c + 1] == columnNames[h][..c] + [columnNames[h][c]];
          line := line + "\"" + columnNames[h][c] + "\";";
        }
        assert columnNames[h][..|columnNames[0]|] == columnNames[h];
        CsvLinesAppend(columnNames[..h], columnNames[h]);
        assert columnNames[..h + 1] == columnNames[..h] + [columnNames[h]];
        csvText := csvText + line + "\n";
      }
      assert columnNames[..|columnNames|] == columnNames;
      assert columnNames + content[..0] == columnNames;
      for l := 0 to |content|
        invariant csvText == CsvLines(columnNames + content[..l])
      {
        var line := "";
        for c := 0 to |content[0]|
          invariant line == CsvCells(content[l][..c])
        {
          CsvCellsAppend(content[l][..c], content[l][c]);
          assert content[l][..c + 1] == content[l][..c] + [content[l][c]];
          line := line + "\"" + content[l][c] + "\";";
        }
        assert content[l][..|content[0]|] == content[l];
        CsvLinesAppend(columnNames + content[..l], content[l]);
        assert columnNames + content[..l + 1] == columnNames + content[..l] + [content[l]];
        csvText := csvText + line + "\n";
      }
      assert content[..|content|] == content;
    }
  }

  /** After rows were dropped, `startNewLine` fails as written: a table with
      two lines keeps one, and the next line cannot be started. The corrected
      `keepOnlyLastRows` lets it start. */
  method StaleCursorExample() returns (asWritten: Option<TableError>, corrected: Option<TableError>)
    ensures asWritten == Some(IndexOutOfBounds)
    ensures corrected == None
  {
    var t := new TextTable.WithColumns(["a"]);
    var e := t.StartNewLine(None);
    e := t.StartNewLine(None);
    e := t.KeepOnlyLastRows(1);
    asWritten := t.StartNewLine(None);
    var u := new TextTable.WithColumns(["a"]);
    e := u.StartNewLine(None);
    e := u.StartNewLine(None);
    e := u.KeepOnlyLastRowsCorrected(1);
    corrected := u.StartNewLine(None);
  }
}
