/** `CsvReader`: reads CSV data line by line. A quote character toggles
    between plain and quoted text, as in rules 6 and 7 of section 2 of
    RFC 4180; inside quotes separators and line breaks are data, and a quote
    is written as the escape character followed by the quote (by default the
    quote doubled). The first row read fixes the number of columns. The
    stream is the sequence of its characters; the number of characters read
    is the position in it. */
module CsvReader {
  import opened Wrappers
  import opened Text
  import BasicReader

  const DefaultSeparator := ','
  const DefaultStringQuote := '"'

  /** The exceptions: `IllegalArgumentException` of a configuration,
      `IllegalStateException` of a closed or already used reader,
      `CsvDataException` with its line number, the `IOException` of a quoted
      value left open, the `StringIndexOutOfBoundsException` of a value that
      is a lone quote, and the failure of `parseCsvLine`. */
  datatype CsvError =
    | InvalidSeparator(c: char)
    | InvalidStringQuote(c: char)
    | InvalidEscapeCharacter(c: char)
    | AlreadyClosed
    | SingleReadStarted
    | LineBreakInData(line: int)
    | QuoteInData(line: int)
    | InconsistentColumns(line: int, expected: int, actual: int)
    | UnexpectedEnd
    | ValueOutOfBounds
    | NotOneLine

  /** A value of a row; `None` is the `null` of a padded missing column. */
  type Cell = Option<string>

  /** The reader's settings. Without quoting the quote and escape characters
      keep Java's default `'\0'`. */
  datatype Config = Config(
    separator: char,
    stringQuote: char,
    useStringQuote: bool,
    escape: char,
    lineBreakInDataAllowed: bool,
    escapedStringQuoteInDataAllowed: bool,
    fillMissingTrailingColumnsWithNull: bool)

  /** The settings of a freshly constructed reader. */
  function DefaultConfig(separator: char, stringQuote: Option<char>): (cfg: Config)
    ensures cfg.useStringQuote <==> stringQuote.Some?
    ensures stringQuote.Some? ==> cfg.stringQuote == cfg.escape == stringQuote.value
  {
    match stringQuote
    case Some(q) => Config(separator, q, true, q, true, true, false)
    case None => Config(separator, '\0', false, '\0', true, true, false)
  }

  /** The fields that reading changes: the position (the characters read),
      whether the stream is closed, the lines read, the expected number of
      columns (`-1` until the first row) and whether a single read started. */
  datatype CsvState = CsvState(pos: nat, closed: bool, readLines: int, columns: int, started: bool)

  const Fresh := CsvState(0, false, 0, -1, false)

  predicate IsLineBreak(c: char)
  {
    c == '\r' || c == '\n'
  }

  // ---------------------------------------------------------------------
  // Construction
  // ---------------------------------------------------------------------

  /** The constructor's checks, through `anyCharsAreEqual`. */
  function ConfigError(separator: char, stringQuote: Option<char>): Option<CsvError>
  {
    if BasicReader.HasDuplicates([separator, '\r', '\n']) then Some(InvalidSeparator(separator))
    else if stringQuote.Some? && BasicReader.HasDuplicates([separator, stringQuote.value, '\r', '\n']) then
      Some(InvalidStringQuote(stringQuote.value))
    else None
  }

  /** The check of `setStringQuoteEscapeCharacter`. */
  function EscapeError(cfg: Config, c: char): Option<CsvError>
  {
    if cfg.useStringQuote && BasicReader.HasDuplicates([cfg.separator, cfg.stringQuote, '\r', '\n', c]) then
      Some(InvalidEscapeCharacter(c))
    else None
  }

  // ---------------------------------------------------------------------
  // parseValue
  // ---------------------------------------------------------------------

  /** The quote handling of `parseValue` on a non-empty value: a value with
      a quote in it is trimmed, and an enclosing quote pair is removed with
      every escape-quote pair inside turned into a quote. A value that is a
      single quote makes `substring(1, 0)` fail. */
  function StripQuotes(cfg: Config, raw: string): (r: Result<string, CsvError>)
  {
    if !cfg.useStringQuote then Success(raw)
    else
      var q := cfg.stringQuote;
      var t := if Contains(raw, [q]) then Trim(raw) else raw;
      if t == [] then Failure(ValueOutOfBounds)
      else if t[0] == q && t[|t| - 1] == q then
        if |t| == 1 then Failure(ValueOutOfBounds)
        else Success(Replace(t[1..|t| - 1], [cfg.escape, q], [q]))
      else Success(t)
  }

  /** `replace("\r\n", "\n").replace('\r', '\n')`. */
  function NormaliseLineBreaks(s: string): string
  {
    MapChar(Replace(s, "\r\n", "\n"), '\r', "\n")
  }

  /** `parseValue`. */
  function ParseValue(cfg: Config, raw: string, line: int): (r: Result<string, CsvError>)
    ensures raw == [] ==> r == Success([])
    ensures r.Success? && !cfg.escapedStringQuoteInDataAllowed ==> cfg.stringQuote !in r.value
    ensures r.Failure? && !cfg.useStringQuote ==> r.error == QuoteInData(line)
  {
    var v :- if raw == [] then Success(raw) else StripAndNormalise(cfg, raw);
    if !cfg.escapedStringQuoteInDataAllowed && cfg.stringQuote in v then Failure(QuoteInData(line))
    else Success(v)
  }

  function StripAndNormalise(cfg: Config, raw: string): (r: Result<string, CsvError>)
  {
    var v :- StripQuotes(cfg, raw);
    Success(NormaliseLineBreaks(v))
  }

  // ---------------------------------------------------------------------
  // readNextCsvLine
  // ---------------------------------------------------------------------

  /** The loop variables of `readNextCsvLine`: the position, the previous
      character (`None` for `-1`), whether a quoted text is open, the value
      being collected and the values collected. */
  datatype Scan = Scan(pos: nat, prev: Option<char>, inside: bool, value: string, row: seq<string>)

  /** What one character leads to: the next loop state, or the end of the
      call with the raw row (`None` when nothing was collected) and the
      position reached. */
  datatype StepOutcome =
    | Next(s: Scan)
    | Stop(r: Result<(Option<seq<string>>, nat), CsvError>)

  /** A quote toggles the quoted state unless a distinct escape character
      came just before it. */
  predicate Toggles(cfg: Config, prev: Option<char>)
  {
    cfg.escape != cfg.stringQuote ==> prev != Some(cfg.escape)
  }

  /** At a line break or the end of the data the collected value is added
      if it is not empty or follows a separator. */
  function AddPending(cfg: Config, sc: Scan, line: int): (r: Result<seq<string>, CsvError>)
  {
    if |sc.value| > 0 || sc.prev == Some(cfg.separator) then
      var v :- ParseValue(cfg, sc.value, line);
      Success(sc.row + [v])
    else Success(sc.row)
  }

  /** One pass of the loop of `readNextCsvLine`. */
  function Step(cfg: Config, input: seq<char>, line: int, sc: Scan): (r: StepOutcome)
    requires sc.pos < |input|
    ensures r.Next? ==> r.s.pos == sc.pos + 1
    ensures r.Stop? && r.r.Success? ==> r.r.value.1 == sc.pos + 1 && r.r.value.0.Some?
  {
    var c := input[sc.pos];
    var n := sc.pos + 1;
    if cfg.useStringQuote && c == cfg.stringQuote then
      Next(Scan(n, Some(c), if Toggles(cfg, sc.prev) then !sc.inside else sc.inside, sc.value + [c], sc.row))
    else if !sc.inside then
      if IsLineBreak(c) then
        match AddPending(cfg, sc, line)
        case Failure(e) => Stop(Failure(e))
        case Success(row) =>
          if |row| > 0 then Stop(Success((Some(row), n)))
          else Next(Scan(n, Some(c), false, sc.value, row))
      else if c == cfg.separator then
        match ParseValue(cfg, sc.value, line)
        case Failure(e) => Stop(Failure(e))
        case Success(v) => Next(Scan(n, Some(c), false, "", sc.row + [v]))
      else Next(Scan(n, Some(c), false, sc.value + [c], sc.row))
    else if IsLineBreak(c) && !cfg.lineBreakInDataAllowed then Stop(Failure(LineBreakInData(line)))
    else Next(Scan(n, Some(c), true, sc.value + [c], sc.row))
  }

  /** After the loop: an open quoted text fails, otherwise the pending value
      is added and an empty row means there is no further line. */
  function EndOfData(cfg: Config, line: int, sc: Scan): (r: Result<(Option<seq<string>>, nat), CsvError>)
  {
    if sc.inside then Failure(UnexpectedEnd)
    else
      var row :- AddPending(cfg, sc, line);
      Success((if |row| > 0 then Some(row) else None, sc.pos))
  }

  /** The loop of `readNextCsvLine` from `sc` on. */
  function ScanLine(cfg: Config, input: seq<char>, line: int, sc: Scan): (r: Result<(Option<seq<string>>, nat), CsvError>)
    requires sc.pos <= |input|
    ensures r.Success? ==> sc.pos <= r.value.1 <= |input|
    ensures r.Success? && r.value.0.Some? && r.value.1 == sc.pos ==>
      |sc.row| > 0 || |sc.value| > 0 || sc.prev == Some(cfg.separator)
    decreases |input| - sc.pos, 1
  {
    if sc.pos == |input| then EndOfData(cfg, line, sc)
    else Proceed(cfg, input, line, Step(cfg, input, line, sc))
  }

  /** The loop goes on from the next state or ends with the outcome. */
  function Proceed(cfg: Config, input: seq<char>, line: int, o: StepOutcome): (r: Result<(Option<seq<string>>, nat), CsvError>)
    requires o.Next? ==> o.s.pos <= |input|
    ensures o.Stop? ==> r == o.r
    ensures o.Next? && r.Success? ==> o.s.pos <= r.value.1 <= |input|
    decreases if o.Next? then |input| - o.s.pos else 0, 2
  {
    match o
    case Next(s) => ScanLine(cfg, input, line, s)
    case Stop(r) => r
  }

  function Cells(row: seq<string>): (r: seq<Cell>)
    ensures |r| == |row| && forall i :: 0 <= i < |row| ==> r[i] == Some(row[i])
  {
    seq(|row|, i requires 0 <= i < |row| => Some(row[i]))
  }

  function Nulls(n: nat): (r: seq<Cell>)
    ensures |r| == n && forall i :: 0 <= i < n ==> r[i] == None
  {
    seq(n, _ => None)
  }

  /** The column check on a raw row: once the number of columns is fixed, a
      row of a different width fails, unless it is shorter and missing
      trailing columns are to be filled with `null`. */
  function CompleteRow(columns: int, row: seq<string>, fill: bool, line: int): (r: Result<seq<Cell>, CsvError>)
    ensures r.Success? <==> columns == -1 || columns == |row| || (columns > |row| && fill)
    ensures r.Failure? ==> r.error == InconsistentColumns(line, columns, |row|)
    ensures r.Success? ==> |r.value| == (if columns == -1 then |row| else columns)
    ensures r.Success? ==> r.value[..|row|] == Cells(row) && forall i :: |row| <= i < |r.value| ==> r.value[i] == None
  {
    if columns != -1 && columns != |row| then
      if columns > |row| && fill then Success(Cells(row) + Nulls(columns - |row|))
      else Failure(InconsistentColumns(line, columns, |row|))
    else Success(Cells(row))
  }

  /** `readNextCsvLine`: the next row, or `None` (Java's `null`) once the data
      is used up, which also closes the reader. */
  function NextLine(cfg: Config, input: seq<char>, st: CsvState): (r: Result<(Option<seq<Cell>>, CsvState), CsvError>)
    requires st.pos <= |input|
    ensures r.Success? ==> r.value.1.pos <= |input|
    ensures st.closed ==> r == Failure(AlreadyClosed)
    ensures r.Success? ==> r.value.1.readLines == st.readLines + 1 && r.value.1.started
    ensures r.Success? && r.value.0.Some? ==>
      && r.value.1.pos > st.pos && r.value.1.closed == st.closed
      && r.value.1.columns == |r.value.0.value|
      && (st.columns != -1 ==> r.value.1.columns == st.columns)
    ensures r.Success? && r.value.0.None? ==> r.value.1.closed && r.value.1.columns == st.columns
  {
    if st.closed then Failure(AlreadyClosed)
    else
      var line := st.readLines + 1;
      var scanned :- ScanLine(cfg, input, line, Scan(st.pos, None, false, "", []));
      var st1 := st.(pos := scanned.1, readLines := line, started := true);
      match scanned.0
      case None => Success((None, st1.(closed := true)))
      case Some(row) =>
        var cells :- CompleteRow(st.columns, row, cfg.fillMissingTrailingColumnsWithNull, line);
        Success((Some(cells), st1.(columns := |cells|)))
  }

  /** `NextLine` once the scan of the line has given `res`. */
  lemma NextLineScanned(cfg: Config, input: seq<char>, st: CsvState, res: Result<(Option<seq<string>>, nat), CsvError>)
    requires !st.closed && st.pos <= |input|
    requires ScanLine(cfg, input, st.readLines + 1, Scan(st.pos, None, false, "", [])) == res
    ensures res.Failure? ==> NextLine(cfg, input, st) == Failure(res.error)
    ensures res.Success? && res.value.0.None? ==>
      NextLine(cfg, input, st) == Success((None, st.(pos := res.value.1, readLines := st.readLines + 1, started := true, closed := true)))
    ensures res.Success? && res.value.0.Some? ==>
      NextLine(cfg, input, st) ==
        match CompleteRow(st.columns, res.value.0.value, cfg.fillMissingTrailingColumnsWithNull, st.readLines + 1)
        case Failure(e) => Failure(e)
        case Success(cells) =>
          Success((Some(cells), st.(pos := res.value.1, readLines := st.readLines + 1, started := true, columns := |cells|)))
  {
  }

  /** The loop of `readAll`: every row up to the end of the data. */
  function AllLines(cfg: Config, input: seq<char>, st: CsvState): (r: Result<(seq<seq<Cell>>, CsvState), CsvError>)
    requires st.pos <= |input|
    ensures r.Success? ==> r.value.1.closed
    decreases |input| - st.pos, if st.closed then 0 else 1
  {
    var next :- NextLine(cfg, input, st);
    match next.0
    case None => Success(([], next.1))
    case Some(row) =>
      var rest :- AllLines(cfg, input, next.1);
      Success(([row] + rest.0, rest.1))
  }

  /** `parseCsvLine`: a reader with default settings over `csvLine` must
      produce exactly one row. */
  function ParseLine(separator: char, stringQuote: Option<char>, csvLine: string): (r: Result<seq<Cell>, CsvError>)
  {
    match ConfigError(separator, stringQuote)
    case Some(e) => Failure(e)
    case None =>
      var all :- AllLines(DefaultConfig(separator, stringQuote), csvLine, Fresh);
      if |all.0| != 1 then Failure(NotOneLine) else Success(all.0[0])
  }

  /** `anyCharsAreEqual`: is some character given twice? */
  method AnyCharsAreEqual(values: seq<char>) returns (r: bool)
    ensures r == BasicReader.HasDuplicates(values)
  {
    for i := 0 to |values|
      invariant forall a, b :: 0 <= a < i && a < b < |values| ==> values[a] != values[b]
    {
      for j := i + 1 to |values|
        invariant forall b :: i < b < j ==> values[i] != values[b]
      {
        if values[i] == values[j] {
          return true;
        }
      }
    }
    return false;
  }

  // ---------------------------------------------------------------------
  // What the checks mean
  // ---------------------------------------------------------------------

  lemma DuplicatesOfThree(a: char, b: char, c: char)
    ensures BasicReader.HasDuplicates([a, b, c]) <==> a == b || a == c || b == c
  {
    var s := [a, b, c];
    if a == b { assert s[0] == s[1]; }
    if a == c { assert s[0] == s[2]; }
    if b == c { assert s[1] == s[2]; }
  }

  lemma DuplicatesOfFour(a: char, b: char, c: char, d: char)
    ensures BasicReader.HasDuplicates([a, b, c, d]) <==> a == b || a == c || a == d || b == c || b == d || c == d
  {
    var s := [a, b, c, d];
    if a == b { assert s[0] == s[1]; }
    if a == c { assert s[0] == s[2]; }
    if a == d { assert s[0] == s[3]; }
    if b == c { assert s[1] == s[2]; }
    if b == d { assert s[1] == s[3]; }
    if c == d { assert s[2] == s[3]; }
  }

  lemma DuplicatesOfFive(a: char, b: char, c: char, d: char, e: char)
    ensures BasicReader.HasDuplicates([a, b, c, d, e]) <==>
      BasicReader.HasDuplicates([a, b, c, d]) || e == a || e == b || e == c || e == d
  {
    var s := [a, b, c, d, e];
    if BasicReader.HasDuplicates([a, b, c, d]) {
      var i, j :| 0 <= i < j < 4 && [a, b, c, d][i] == [a, b, c, d][j];
      assert s[i] == s[j];
    }
    if e == a { assert s[0] == s[4]; }
    if e == b { assert s[1] == s[4]; }
    if e == c { assert s[2] == s[4]; }
    if e == d { assert s[3] == s[4]; }
    if BasicReader.HasDuplicates(s) {
      var i, j :| 0 <= i < j < 5 && s[i] == s[j];
      if j < 4 {
        assert [a, b, c, d][i] == [a, b, c, d][j];
      }
    }
  }

  /** A configuration the constructor accepts: the separator is no line
      break, and a quote differs from the separator and from the line
      breaks. */
  predicate ValidConfig(cfg: Config)
  {
    && !IsLineBreak(cfg.separator)
    && (cfg.useStringQuote ==> cfg.stringQuote != cfg.separator && !IsLineBreak(cfg.stringQuote))
  }

  /** The constructor fails exactly on a line-break separator, and on a
      quote equal to the separator or to a line break. */
  lemma ConfigErrorMeans(separator: char, stringQuote: Option<char>)
    ensures ConfigError(separator, stringQuote).None? <==> ValidConfig(DefaultConfig(separator, stringQuote))
    ensures IsLineBreak(separator) ==> ConfigError(separator, stringQuote) == Some(InvalidSeparator(separator))
  {
    DuplicatesOfThree(separator, '\r', '\n');
    if stringQuote.Some? {
      DuplicatesOfFour(separator, stringQuote.value, '\r', '\n');
    }
  }

  /** On an accepted quoting configuration a new escape character is refused
      exactly when it is the separator, the quote or a line break, so the
      quote itself, though it is the default, cannot be set again. */
  lemma EscapeErrorMeans(cfg: Config, c: char)
    requires ValidConfig(cfg) && cfg.useStringQuote
    ensures EscapeError(cfg, c).None? <==> c != cfg.separator && c != cfg.stringQuote && !IsLineBreak(c)
    ensures EscapeError(cfg, c).Some? ==> EscapeError(cfg, c) == Some(InvalidEscapeCharacter(c))
  {
    DuplicatesOfFour(cfg.separator, cfg.stringQuote, '\r', '\n');
    DuplicatesOfFive(cfg.separator, cfg.stringQuote, '\r', '\n', c);
  }

  // ---------------------------------------------------------------------
  // parseValue and quoting
  // ---------------------------------------------------------------------

  /** A value as it is written quoted: every quote is preceded by the
      escape character (by default: doubled). */
  function Escape(cfg: Config, v: string): string
  {
    MapChar(v, cfg.stringQuote, [cfg.escape, cfg.stringQuote])
  }

  function QuotedField(cfg: Config, v: string): string
  {
    [cfg.stringQuote] + Escape(cfg, v) + [cfg.stringQuote]
  }

  /** An escaped value never starts with a bare quote unless the escape is
      the quote itself. */
  lemma EscapeHead(cfg: Config, v: string)
    requires v != []
    ensures Escape(cfg, v) != [] && Escape(cfg, v)[0] == if v[0] == cfg.stringQuote then cfg.escape else v[0]
  {
  }

  /** `parseValue`'s replacement of escape-quote pairs undoes `Escape`. */
  lemma {:induction false} UnescapeEscaped(cfg: Config, v: string)
    ensures Replace(Escape(cfg, v), [cfg.escape, cfg.stringQuote], [cfg.stringQuote]) == v
    decreases |v|
  {
    var q, e := cfg.stringQuote, cfg.escape;
    var target := [e, q];
    if v != [] {
      var rest := Escape(cfg, v[1..]);
      UnescapeEscaped(cfg, v[1..]);
      if v[0] == q {
        assert Escape(cfg, v) == target + rest;
        assert (target + rest)[..2] == target;
        assert (target + rest)[2..] == rest;
      } else {
        assert Escape(cfg, v) == [v[0]] + rest;
        var x := [v[0]] + rest;
        assert !(|x| >= 2 && x[..2] == target) by {
          if |x| >= 2 {
            assert x[..2][0] == v[0] && x[..2][1] == rest[0];
            EscapeHead(cfg, v[1..]);
          }
        }
        assert ([v[0]] + rest)[1..] == rest;
      }
    }
  }

  /** What can be written as a quoted value and read back unchanged: no
      carriage return (which `parseValue` turns into a line feed), no
      trailing escape character when that is not the quote (it would escape
      the closing quote), line feeds only where line breaks in data are
      allowed, and quotes only where they are allowed. */
  predicate Quotable(cfg: Config, v: string)
  {
    && '\r' !in v
    && (cfg.escape != cfg.stringQuote && v != [] ==> v[|v| - 1] != cfg.escape)
    && (cfg.lineBreakInDataAllowed || '\n' !in v)
    && (cfg.escapedStringQuoteInDataAllowed || cfg.stringQuote !in v)
  }

  /** A quoting configuration under which quoted values read back: an
      accepted configuration whose quote is not trimmed away and whose
      escape character is neither the separator nor a line break. */
  predicate QuotingConfig(cfg: Config)
  {
    && ValidConfig(cfg) && cfg.useStringQuote
    && !IsTrimmable(cfg.stringQuote)
    && cfg.escape != cfg.separator && !IsLineBreak(cfg.escape)
  }

  /** `parseValue` turns a quoted value back into the value. */
  lemma ParseQuotedField(cfg: Config, v: string, line: int)
    requires QuotingConfig(cfg) && Quotable(cfg, v)
    ensures ParseValue(cfg, QuotedField(cfg, v), line) == Success(v)
  {
    var q := cfg.stringQuote;
    var raw := QuotedField(cfg, v);
    assert StartsWith(raw, [q]);
    TrimKeeps(raw);
    assert raw[1..|raw| - 1] == Escape(cfg, v);
    UnescapeEscaped(cfg, v);
    assert StripQuotes(cfg, raw) == Success(v);
    ReplaceAbsent(v, "\r\n", "\n");
    MapCharAbsent(v, '\r', "\n");
  }

  /** A parsed non-empty value holds no carriage return: `\r\n` and `\r`
      both become `\n`. */
  lemma ParsedValueHasNoCarriageReturn(cfg: Config, raw: string, line: int)
    requires raw != [] && ParseValue(cfg, raw, line).Success?
    ensures '\r' !in ParseValue(cfg, raw, line).value
  {
    var stripped := StripQuotes(cfg, raw).value;
    MapCharRemoves(Replace(stripped, "\r\n", "\n"), '\r', "\n");
  }

  /** A value that trims to a lone quote makes `parseValue` fail, as
      written: the quote is both its first and its last character. */
  lemma LoneQuoteValueFails(cfg: Config, w: string, line: int)
    requires cfg.useStringQuote && !IsTrimmable(cfg.stringQuote)
    requires forall i :: 0 <= i < |w| ==> IsTrimmable(w[i])
    ensures ParseValue(cfg, w + [cfg.stringQuote], line) == Failure(ValueOutOfBounds)
  {
    var q := cfg.stringQuote;
    var raw := w + [q];
    assert raw[|w|..|w| + 1] == [q];
    ContainsAt(raw, |w|, [q]);
    LoneQuoteTrims(q, w);
    StripLoneQuote(cfg, raw);
    assert raw != [];
  }

  lemma StripLoneQuote(cfg: Config, raw: string)
    requires cfg.useStringQuote && Contains(raw, [cfg.stringQuote]) && Trim(raw) == [cfg.stringQuote]
    ensures StripAndNormalise(cfg, raw) == Failure(ValueOutOfBounds)
  {
  }

  lemma LoneQuoteTrims(q: char, w: string)
    requires !IsTrimmable(q) && forall i :: 0 <= i < |w| ==> IsTrimmable(w[i])
    ensures Trim(w + [q]) == [q]
  {
    var raw := w + [q];
    var t := TrimStart(raw);
    TrimStartSuffix(raw);
    assert forall i :: 0 <= i < |w| ==> IsTrimmable(raw[i]) by {
      forall i | 0 <= i < |w| ensures IsTrimmable(raw[i]) { assert raw[i] == w[i]; }
    }
    assert !IsTrimmable(raw[|w|]);
    assert |t| >= 1;
    assert t[0] == raw[|raw| - |t|];
    assert |t| == 1;
    assert t == raw[|w|..] == [q];
    assert TrimEnd([q]) == [q];
  }

  // ---------------------------------------------------------------------
  // Single steps of the loop
  // ---------------------------------------------------------------------

  /** A quote, when quoting is on, is kept and may toggle the quoted state. */
  lemma StepQuote(cfg: Config, input: seq<char>, line: int, sc: Scan)
    requires sc.pos < |input| && cfg.useStringQuote && input[sc.pos] == cfg.stringQuote
    ensures ScanLine(cfg, input, line, sc) ==
      ScanLine(cfg, input, line, Scan(sc.pos + 1, Some(cfg.stringQuote),
                                      if Toggles(cfg, sc.prev) then !sc.inside else sc.inside,
                                      sc.value + [cfg.stringQuote], sc.row))
  {
  }

  /** Inside quotes any other character is data, a line break only where
      line breaks in data are allowed. */
  lemma StepInside(cfg: Config, input: seq<char>, line: int, sc: Scan)
    requires sc.pos < |input| && sc.inside
    requires !(cfg.useStringQuote && input[sc.pos] == cfg.stringQuote)
    requires !IsLineBreak(input[sc.pos]) || cfg.lineBreakInDataAllowed
    ensures ScanLine(cfg, input, line, sc) ==
      ScanLine(cfg, input, line, Scan(sc.pos + 1, Some(input[sc.pos]), true, sc.value + [input[sc.pos]], sc.row))
  {
  }

  /** Outside quotes a character other than a quote, a line break or the
      separator is added to the value. */
  lemma StepPlain(cfg: Config, input: seq<char>, line: int, sc: Scan)
    requires sc.pos < |input| && !sc.inside
    requires !(cfg.useStringQuote && input[sc.pos] == cfg.stringQuote)
    requires !IsLineBreak(input[sc.pos]) && input[sc.pos] != cfg.separator
    ensures ScanLine(cfg, input, line, sc) ==
      ScanLine(cfg, input, line, Scan(sc.pos + 1, Some(input[sc.pos]), false, sc.value + [input[sc.pos]], sc.row))
  {
  }

  /** Outside quotes the separator ends the value. */
  lemma StepSeparator(cfg: Config, input: seq<char>, line: int, sc: Scan)
    requires sc.pos < |input| && !sc.inside && ValidConfig(cfg)
    requires input[sc.pos] == cfg.separator
    ensures ScanLine(cfg, input, line, sc) ==
      match ParseValue(cfg, sc.value, line)
      case Failure(e) => Failure(e)
      case Success(v) => ScanLine(cfg, input, line, Scan(sc.pos + 1, Some(cfg.separator), false, "", sc.row + [v]))
  {
  }

  /** Outside quotes a line break ends the row unless nothing was
      collected. */
  lemma StepLineBreak(cfg: Config, input: seq<char>, line: int, sc: Scan)
    requires sc.pos < |input| && !sc.inside && ValidConfig(cfg)
    requires IsLineBreak(input[sc.pos])
    ensures ScanLine(cfg, input, line, sc) ==
      match AddPending(cfg, sc, line)
      case Failure(e) => Failure(e)
      case Success(row) =>
        if |row| > 0 then Success((Some(row), sc.pos + 1))
        else ScanLine(cfg, input, line, Scan(sc.pos + 1, Some(input[sc.pos]), false, sc.value, row))
  {
  }

  // ---------------------------------------------------------------------
  // Reading quoted values
  // ---------------------------------------------------------------------

  /** `w` stands in `input` from position `p` on. */
  predicate At(input: seq<char>, p: nat, w: seq<char>)
    decreases |w|
  {
    p + |w| <= |input| && (w == [] || (input[p] == w[0] && At(input, p + 1, w[1..])))
  }

  lemma {:induction false} AtSplit(input: seq<char>, p: nat, a: seq<char>, b: seq<char>)
    requires At(input, p, a + b)
    ensures At(input, p, a) && At(input, p + |a|, b)
    decreases |a|
  {
    if a == [] {
      assert a + b == b;
    } else {
      assert (a + b)[0] == a[0] && (a + b)[1..] == a[1..] + b;
      AtSplit(input, p + 1, a[1..], b);
    }
  }

  lemma AtChar(input: seq<char>, p: nat, c: char, w: seq<char>)
    requires At(input, p, [c] + w)
    ensures p < |input| && input[p] == c && At(input, p + 1, w)
  {
    assert ([c] + w)[0] == c && ([c] + w)[1..] == w;
  }

  /** Inside quotes an escaped value is data up to the closing quote:
      separators and line breaks in it are kept, and a quote after the
      escape character does not end the quoted text. */
  lemma {:induction false} ScanEscaped(cfg: Config, input: seq<char>, line: int, p: nat, prev: Option<char>,
                                       value: string, row: seq<string>, v: string)
    requires QuotingConfig(cfg) && Quotable(cfg, v)
    requires At(input, p, Escape(cfg, v))
    requires p + |Escape(cfg, v)| < |input| && input[p + |Escape(cfg, v)|] == cfg.stringQuote
    requires v == [] ==> Toggles(cfg, prev)
    ensures ScanLine(cfg, input, line, Scan(p, prev, true, value, row)) ==
      ScanLine(cfg, input, line, Scan(p + |Escape(cfg, v)| + 1, Some(cfg.stringQuote), false,
                                      value + Escape(cfg, v) + [cfg.stringQuote], row))
    decreases |v|, 1
  {
    var q := cfg.stringQuote;
    if v == [] {
      assert Escape(cfg, v) == [];
      StepQuote(cfg, input, line, Scan(p, prev, true, value, row));
      assert value + Escape(cfg, v) + [q] == value + [q];
    } else if v[0] != q {
      ScanEscapedChar(cfg, input, line, p, prev, value, row, v);
    } else {
      ScanEscapedQuote(cfg, input, line, p, prev, value, row, v);
    }
  }

  /** A character other than the quote is copied as it is. */
  lemma {:induction false} ScanEscapedChar(cfg: Config, input: seq<char>, line: int, p: nat, prev: Option<char>,
                                           value: string, row: seq<string>, v: string)
    requires QuotingConfig(cfg) && Quotable(cfg, v) && v != [] && v[0] != cfg.stringQuote
    requires At(input, p, Escape(cfg, v))
    requires p + |Escape(cfg, v)| < |input| && input[p + |Escape(cfg, v)|] == cfg.stringQuote
    ensures ScanLine(cfg, input, line, Scan(p, prev, true, value, row)) ==
      ScanLine(cfg, input, line, Scan(p + |Escape(cfg, v)| + 1, Some(cfg.stringQuote), false,
                                      value + Escape(cfg, v) + [cfg.stringQuote], row))
    decreases |v|, 0
  {
    var q := cfg.stringQuote;
    var c := v[0];
    var rest := Escape(cfg, v[1..]);
    assert Quotable(cfg, v[1..]);
    assert Escape(cfg, v) == [c] + rest;
    AtChar(input, p, c, rest);
    assert c != '\r';
    StepInside(cfg, input, line, Scan(p, prev, true, value, row));
    ScanEscaped(cfg, input, line, p + 1, Some(c), value + [c], row, v[1..]);
    AppendStep(value, [c], rest, q);
    assert p + 1 + |rest| + 1 == p + |Escape(cfg, v)| + 1;
    assert Scan(p + 1 + |rest| + 1, Some(q), false, value + [c] + rest + [q], row) ==
           Scan(p + |Escape(cfg, v)| + 1, Some(q), false, value + Escape(cfg, v) + [q], row);
  }

  /** A quote in the value is written as the escape character and a quote,
      which together do not close the quoted text. */
  lemma {:induction false} ScanEscapedQuote(cfg: Config, input: seq<char>, line: int, p: nat, prev: Option<char>,
                                            value: string, row: seq<string>, v: string)
    requires QuotingConfig(cfg) && Quotable(cfg, v) && v != [] && v[0] == cfg.stringQuote
    requires At(input, p, Escape(cfg, v))
    requires p + |Escape(cfg, v)| < |input| && input[p + |Escape(cfg, v)|] == cfg.stringQuote
    ensures ScanLine(cfg, input, line, Scan(p, prev, true, value, row)) ==
      ScanLine(cfg, input, line, Scan(p + |Escape(cfg, v)| + 1, Some(cfg.stringQuote), false,
                                      value + Escape(cfg, v) + [cfg.stringQuote], row))
    decreases |v|, 0
  {
    var q, e := cfg.stringQuote, cfg.escape;
    var rest := Escape(cfg, v[1..]);
    assert Quotable(cfg, v[1..]);
    assert Escape(cfg, v) == [e] + ([q] + rest);
    AtChar(input, p, e, [q] + rest);
    AtChar(input, p + 1, q, rest);
    EscapedPair(cfg, input, line, p, prev, value, row);
    ScanEscaped(cfg, input, line, p + 2, Some(q), value + [e] + [q], row, v[1..]);
    AppendStep(value, [e, q], rest, q);
    assert value + [e] + [q] == value + [e, q];
    assert p + 2 + |rest| + 1 == p + |Escape(cfg, v)| + 1;
    assert Scan(p + 2 + |rest| + 1, Some(q), false, value + [e] + [q] + rest + [q], row) ==
           Scan(p + |Escape(cfg, v)| + 1, Some(q), false, value + Escape(cfg, v) + [q], row);
  }

  /** Inside quotes, the escape character followed by a quote is kept and
      the quoted text stays open. */
  lemma EscapedPair(cfg: Config, input: seq<char>, line: int, p: nat, prev: Option<char>,
                    value: string, row: seq<string>)
    requires QuotingConfig(cfg)
    requires p + 1 < |input| && input[p] == cfg.escape && input[p + 1] == cfg.stringQuote
    ensures ScanLine(cfg, input, line, Scan(p, prev, true, value, row)) ==
      ScanLine(cfg, input, line, Scan(p + 2, Some(cfg.stringQuote), true, value + [cfg.escape] + [cfg.stringQuote], row))
  {
    var q, e := cfg.stringQuote, cfg.escape;
    if e != q {
      StepInside(cfg, input, line, Scan(p, prev, true, value, row));
      StepQuote(cfg, input, line, Scan(p + 1, Some(e), true, value + [e], row));
    } else {
      DoubledQuote(cfg, input, line, p, prev, value, row);
    }
  }

  /** With the quote as its own escape, a doubled quote toggles twice. */
  lemma DoubledQuote(cfg: Config, input: seq<char>, line: int, p: nat, prev: Option<char>,
                     value: string, row: seq<string>)
    requires QuotingConfig(cfg) && cfg.escape == cfg.stringQuote
    requires p + 1 < |input| && input[p] == cfg.stringQuote && input[p + 1] == cfg.stringQuote
    ensures ScanLine(cfg, input, line, Scan(p, prev, true, value, row)) ==
      ScanLine(cfg, input, line, Scan(p + 2, Some(cfg.stringQuote), true, value + [cfg.stringQuote] + [cfg.stringQuote], row))
  {
    var q := cfg.stringQuote;
    StepQuote(cfg, input, line, Scan(p, prev, true, value, row));
    StepQuote(cfg, input, line, Scan(p + 1, Some(q), false, value + [q], row));
  }

  lemma AppendStep(value: string, x: string, rest: string, q: char)
    ensures value + x + rest + [q] == value + (x + rest) + [q]
  {
  }

  /** Outside quotes, a quoted value opens at its quote and closes at its
      closing quote. */
  lemma ScanQuotedField(cfg: Config, input: seq<char>, line: int, p: nat, prev: Option<char>,
                        row: seq<string>, v: string)
    requires QuotingConfig(cfg) && Quotable(cfg, v)
    requires At(input, p, QuotedField(cfg, v))
    requires prev == None || prev == Some(cfg.separator)
    ensures ScanLine(cfg, input, line, Scan(p, prev, false, "", row)) ==
      ScanLine(cfg, input, line, Scan(p + |QuotedField(cfg, v)|, Some(cfg.stringQuote), false, QuotedField(cfg, v), row))
  {
    var q := cfg.stringQuote;
    var s0 := Scan(p, prev, false, "", row);
    var s1 := Scan(p + 1, Some(q), true, [q], row);
    AtSplit(input, p, [q] + Escape(cfg, v), [q]);
    AtChar(input, p, q, Escape(cfg, v));
    AtChar(input, p + 1 + |Escape(cfg, v)|, q, []);
    assert Toggles(cfg, prev);
    assert "" + [q] == [q];
    StepQuote(cfg, input, line, s0);
    assert ScanLine(cfg, input, line, s0) == ScanLine(cfg, input, line, s1);
    ScanEscaped(cfg, input, line, p + 1, Some(q), [q], row, v);
    assert p + 1 + |Escape(cfg, v)| + 1 == p + |QuotedField(cfg, v)|;
    assert Scan(p + 1 + |Escape(cfg, v)| + 1, Some(q), false, [q] + Escape(cfg, v) + [q], row) ==
           Scan(p + |QuotedField(cfg, v)|, Some(q), false, QuotedField(cfg, v), row);
  }

  /** The fields of a line, each quoted, separated by the separator. */
  function QuotedLine(cfg: Config, fields: seq<string>): string
    requires |fields| > 0
    decreases |fields|
  {
    if |fields| == 1 then QuotedField(cfg, fields[0])
    else QuotedField(cfg, fields[0]) + [cfg.separator] + QuotedLine(cfg, fields[1..])
  }

  /** Where a line ends: at the end of the data or at a line feed. */
  predicate EndsLine(input: seq<char>, m: nat)
  {
    m == |input| || (m < |input| && input[m] == '\n')
  }

  /** A quoted line followed by a line feed or the end of the data is read
      as its fields. */
  lemma {:induction false} ScanQuotedLine(cfg: Config, input: seq<char>, line: int, p: nat, prev: Option<char>,
                                          row: seq<string>, fields: seq<string>)
    requires QuotingConfig(cfg) && |fields| > 0 && forall i :: 0 <= i < |fields| ==> Quotable(cfg, fields[i])
    requires At(input, p, QuotedLine(cfg, fields)) && EndsLine(input, p + |QuotedLine(cfg, fields)|)
    requires prev == None || prev == Some(cfg.separator)
    ensures var m := p + |QuotedLine(cfg, fields)|;
      ScanLine(cfg, input, line, Scan(p, prev, false, "", row)) ==
      Success((Some(row + fields), if m == |input| then m else m + 1))
    decreases |fields|
  {
    var f := fields[0];
    var field := QuotedField(cfg, f);
    if |fields| == 1 {
      ScanLastQuotedField(cfg, input, line, p, prev, row, f);
      assert row + fields == row + [f];
    } else {
      var more := QuotedLine(cfg, fields[1..]);
      AtSplit(input, p, field + [cfg.separator], more);
      AtSplit(input, p, field, [cfg.separator]);
      ScanQuotedFieldThenSeparator(cfg, input, line, p, prev, row, f);
      ScanQuotedLine(cfg, input, line, p + |field| + 1, Some(cfg.separator), row + [f], fields[1..]);
      assert row + [f] + fields[1..] == row + fields;
    }
  }

  /** The last quoted field of a line ends the row at the line feed or the
      end of the data. */
  lemma ScanLastQuotedField(cfg: Config, input: seq<char>, line: int, p: nat, prev: Option<char>,
                            row: seq<string>, f: string)
    requires QuotingConfig(cfg) && Quotable(cfg, f)
    requires At(input, p, QuotedField(cfg, f)) && EndsLine(input, p + |QuotedField(cfg, f)|)
    requires prev == None || prev == Some(cfg.separator)
    ensures var m := p + |QuotedField(cfg, f)|;
      ScanLine(cfg, input, line, Scan(p, prev, false, "", row)) ==
      Success((Some(row + [f]), if m == |input| then m else m + 1))
  {
    ScanQuotedField(cfg, input, line, p, prev, row, f);
    QuotedValueEndsLine(cfg, input, line, p + |QuotedField(cfg, f)|, row, f);
  }

  /** A complete quoted value at the end of a line is unquoted into the row. */
  lemma QuotedValueEndsLine(cfg: Config, input: seq<char>, line: int, n: nat, row: seq<string>, f: string)
    requires QuotingConfig(cfg) && Quotable(cfg, f) && EndsLine(input, n)
    ensures ScanLine(cfg, input, line, Scan(n, Some(cfg.stringQuote), false, QuotedField(cfg, f), row)) ==
      Success((Some(row + [f]), if n == |input| then n else n + 1))
  {
    ParseQuotedField(cfg, f, line);
    ValueEndsLine(cfg, input, line, n, Some(cfg.stringQuote), QuotedField(cfg, f), row, f);
  }

  /** A quoted field followed by the separator adds the field to the row. */
  lemma ScanQuotedFieldThenSeparator(cfg: Config, input: seq<char>, line: int, p: nat, prev: Option<char>,
                                     row: seq<string>, f: string)
    requires QuotingConfig(cfg) && Quotable(cfg, f)
    requires At(input, p, QuotedField(cfg, f)) && At(input, p + |QuotedField(cfg, f)|, [cfg.separator])
    requires prev == None || prev == Some(cfg.separator)
    ensures ScanLine(cfg, input, line, Scan(p, prev, false, "", row)) ==
      ScanLine(cfg, input, line, Scan(p + |QuotedField(cfg, f)| + 1, Some(cfg.separator), false, "", row + [f]))
  {
    var n := p + |QuotedField(cfg, f)|;
    ScanQuotedField(cfg, input, line, p, prev, row, f);
    AtChar(input, n, cfg.separator, []);
    QuotedValueThenSeparator(cfg, input, line, n, row, f);
  }

  /** A complete quoted value before the separator is unquoted into the row. */
  lemma QuotedValueThenSeparator(cfg: Config, input: seq<char>, line: int, n: nat, row: seq<string>, f: string)
    requires QuotingConfig(cfg) && Quotable(cfg, f) && n < |input| && input[n] == cfg.separator
    ensures ScanLine(cfg, input, line, Scan(n, Some(cfg.stringQuote), false, QuotedField(cfg, f), row)) ==
      ScanLine(cfg, input, line, Scan(n + 1, Some(cfg.separator), false, "", row + [f]))
  {
    ParseQuotedField(cfg, f, line);
    ValueThenSeparator(cfg, input, line, n, Some(cfg.stringQuote), QuotedField(cfg, f), row, f);
  }

  /** Outside quotes, a value that parses is added to the row at the end of
      the line. */
  lemma ValueEndsLine(cfg: Config, input: seq<char>, line: int, n: nat, prev: Option<char>,
                      value: string, row: seq<string>, v: string)
    requires ValidConfig(cfg) && EndsLine(input, n)
    requires value != [] && ParseValue(cfg, value, line) == Success(v)
    ensures ScanLine(cfg, input, line, Scan(n, prev, false, value, row)) ==
      Success((Some(row + [v]), if n == |input| then n else n + 1))
  {
    var sc := Scan(n, prev, false, value, row);
    assert AddPending(cfg, sc, line) == Success(row + [v]);
    PendingEndsLine(cfg, input, line, sc, row + [v]);
  }

  /** Outside quotes, at a line end a non-empty row with the pending value
      added is the result. */
  lemma PendingEndsLine(cfg: Config, input: seq<char>, line: int, sc: Scan, full: seq<string>)
    requires ValidConfig(cfg) && !sc.inside && EndsLine(input, sc.pos)
    requires AddPending(cfg, sc, line) == Success(full) && |full| > 0
    ensures ScanLine(cfg, input, line, sc) == Success((Some(full), if sc.pos == |input| then sc.pos else sc.pos + 1))
  {
    if sc.pos < |input| {
      StepLineBreak(cfg, input, line, sc);
    }
  }

  /** A separator just before the end of a line adds a trailing empty
      value. */
  lemma TrailingSeparatorAddsEmptyValue(cfg: Config, input: seq<char>, line: int, n: nat, prev: Option<char>,
                                        value: string, row: seq<string>, v: string)
    requires ValidConfig(cfg) && n < |input| && input[n] == cfg.separator && EndsLine(input, n + 1)
    requires ParseValue(cfg, value, line) == Success(v)
    ensures ScanLine(cfg, input, line, Scan(n, prev, false, value, row)) ==
      Success((Some(row + [v, ""]), if n + 1 == |input| then n + 1 else n + 2))
  {
    ValueThenSeparator(cfg, input, line, n, prev, value, row, v);
    var s1 := Scan(n + 1, Some(cfg.separator), false, "", row + [v]);
    assert AddPending(cfg, s1, line) == Success(row + [v] + [""]);
    PendingEndsLine(cfg, input, line, s1, row + [v] + [""]);
    assert row + [v] + [""] == row + [v, ""];
  }

  /** Line breaks with nothing collected are skipped: blank lines yield no
      row. */
  lemma {:induction false} BlankLinesSkipped(cfg: Config, input: seq<char>, line: int, p: nat, k: nat, prev: Option<char>)
    requires ValidConfig(cfg) && p + k <= |input| && prev != Some(cfg.separator)
    requires forall i :: p <= i < p + k ==> IsLineBreak(input[i])
    ensures ScanLine(cfg, input, line, Scan(p, prev, false, "", [])) ==
      ScanLine(cfg, input, line, Scan(p + k, if k == 0 then prev else Some(input[p + k - 1]), false, "", []))
    decreases k
  {
    if k > 0 {
      StepLineBreak(cfg, input, line, Scan(p, prev, false, "", []));
      BlankLinesSkipped(cfg, input, line, p + 1, k - 1, Some(input[p]));
    }
  }

  /** Data that goes on with nothing but line breaks holds no further row. */
  lemma NoMoreRows(cfg: Config, input: seq<char>, line: int, p: nat, prev: Option<char>)
    requires ValidConfig(cfg) && p <= |input| && prev != Some(cfg.separator)
    requires forall i :: p <= i < |input| ==> IsLineBreak(input[i])
    ensures ScanLine(cfg, input, line, Scan(p, prev, false, "", [])) == Success((None, |input|))
  {
    BlankLinesSkipped(cfg, input, line, p, |input| - p, prev);
  }

  /** A quoted value still open when the data ends fails. */
  lemma {:induction false} OpenQuoteFails(cfg: Config, input: seq<char>, line: int, p: nat, prev: Option<char>,
                                          value: string, row: seq<string>)
    requires cfg.useStringQuote && cfg.lineBreakInDataAllowed && p <= |input|
    requires forall i :: p <= i < |input| ==> input[i] != cfg.stringQuote
    ensures ScanLine(cfg, input, line, Scan(p, prev, true, value, row)) == Failure(UnexpectedEnd)
    decreases |input| - p
  {
    if p < |input| {
      StepInside(cfg, input, line, Scan(p, prev, true, value, row));
      OpenQuoteFails(cfg, input, line, p + 1, Some(input[p]), value + [input[p]], row);
    }
  }

  /** Once the data holds only line breaks, `readNextCsvLine` returns
      `null` and closes the reader. */
  lemma NextLineAtEnd(cfg: Config, input: seq<char>, st: CsvState)
    requires ValidConfig(cfg) && st.pos <= |input| && !st.closed
    requires forall i :: st.pos <= i < |input| ==> IsLineBreak(input[i])
    ensures NextLine(cfg, input, st) ==
      Success((None, st.(pos := |input|, readLines := st.readLines + 1, started := true, closed := true)))
  {
    NoMoreRows(cfg, input, st.readLines + 1, st.pos, None);
  }

  /** Every row `readAll` returns has the width fixed by the first row. */
  lemma {:induction false} AllLinesSameWidth(cfg: Config, input: seq<char>, st: CsvState)
    requires st.pos <= |input| && AllLines(cfg, input, st).Success?
    ensures var (rows, last) := AllLines(cfg, input, st).value;
      && (st.columns != -1 ==> last.columns == st.columns)
      && forall i :: 0 <= i < |rows| ==> |rows[i]| == last.columns
    decreases |input| - st.pos, if st.closed then 0 else 1
  {
    var next := NextLine(cfg, input, st).value;
    if next.0.Some? {
      AllLinesSameWidth(cfg, input, next.1);
      var rest := AllLines(cfg, input, next.1).value;
      assert AllLines(cfg, input, st).value == ([next.0.value] + rest.0, rest.1);
    }
  }

  /** `s` stands in itself from every position on. */
  lemma {:induction false} AtRest(s: seq<char>, p: nat)
    requires p <= |s|
    ensures At(s, p, s[p..])
    decreases |s| - p
  {
    if p < |s| {
      AtRest(s, p + 1);
      assert s[p..][1..] == s[p + 1..];
    }
  }

  /** `readNextCsvLine` on a quoted line reads its fields. */
  lemma ReadsQuotedLine(cfg: Config, input: seq<char>, st: CsvState, fields: seq<string>)
    requires QuotingConfig(cfg) && |fields| > 0 && forall i :: 0 <= i < |fields| ==> Quotable(cfg, fields[i])
    requires st.pos <= |input| && !st.closed && (st.columns == -1 || st.columns == |fields|)
    requires At(input, st.pos, QuotedLine(cfg, fields)) && EndsLine(input, st.pos + |QuotedLine(cfg, fields)|)
    ensures var m := st.pos + |QuotedLine(cfg, fields)|;
      NextLine(cfg, input, st) ==
      Success((Some(Cells(fields)), st.(pos := if m == |input| then m else m + 1, readLines := st.readLines + 1,
                                        started := true, columns := |fields|)))
  {
    ScanQuotedLine(cfg, input, st.readLines + 1, st.pos, None, [], fields);
    assert [] + fields == fields;
  }

  /** `parseCsvLine` reads a line of quoted fields back as the fields. */
  lemma ParseQuotedLine(separator: char, q: char, fields: seq<string>)
    requires ValidConfig(DefaultConfig(separator, Some(q))) && !IsTrimmable(q)
    requires |fields| > 0 && forall i :: 0 <= i < |fields| ==> '\r' !in fields[i]
    ensures ParseLine(separator, Some(q), QuotedLine(DefaultConfig(separator, Some(q)), fields)) == Success(Cells(fields))
  {
    var cfg := DefaultConfig(separator, Some(q));
    ConfigErrorMeans(separator, Some(q));
    QuotedLineIsOneRow(cfg, fields);
    var input := QuotedLine(cfg, fields);
    ParseSingleRow(separator, Some(q), input, Cells(fields), CsvState(|input|, false, 1, |fields|, true));
  }

  /** A fresh reader over a quoted line reads its fields, then the end of
      the data. */
  lemma QuotedLineIsOneRow(cfg: Config, fields: seq<string>)
    requires QuotingConfig(cfg) && |fields| > 0 && forall i :: 0 <= i < |fields| ==> Quotable(cfg, fields[i])
    ensures var input := QuotedLine(cfg, fields);
      var st1 := CsvState(|input|, false, 1, |fields|, true);
      && NextLine(cfg, input, Fresh) == Success((Some(Cells(fields)), st1))
      && NextLine(cfg, input, st1) == Success((None, st1.(readLines := 2, closed := true)))
  {
    var input := QuotedLine(cfg, fields);
    AtRest(input, 0);
    assert input[0..] == input;
    ReadsQuotedLine(cfg, input, CsvState(0, false, 0, -1, false), fields);
    NextLineAtEnd(cfg, input, CsvState(|input|, false, 1, |fields|, true));
  }

  /** `parseCsvLine` of data holding one row gives that row. */
  lemma ParseSingleRow(separator: char, stringQuote: Option<char>, csvLine: string, row: seq<Cell>, st1: CsvState)
    requires ConfigError(separator, stringQuote).None?
    requires NextLine(DefaultConfig(separator, stringQuote), csvLine, Fresh) == Success((Some(row), st1))
    requires var next := NextLine(DefaultConfig(separator, stringQuote), csvLine, st1); next.Success? && next.value.0.None?
    ensures ParseLine(separator, stringQuote, csvLine) == Success(row)
  {
    SingleRow(DefaultConfig(separator, stringQuote), csvLine, Fresh, row, st1);
  }

  /** Data with one row followed by the end gives `readAll` that row. */
  lemma SingleRow(cfg: Config, input: seq<char>, st: CsvState, row: seq<Cell>, st1: CsvState)
    requires st.pos <= |input| && NextLine(cfg, input, st) == Success((Some(row), st1))
    requires NextLine(cfg, input, st1).Success? && NextLine(cfg, input, st1).value.0.None?
    ensures AllLines(cfg, input, st) == Success(([row], NextLine(cfg, input, st1).value.1))
  {
    var last := NextLine(cfg, input, st1).value.1;
    assert AllLines(cfg, input, st1) == Success(([], last));
    assert [row] + [] == [row];
  }

  /** Outside quotes, a value that parses is added to the row at the
      separator. */
  lemma ValueThenSeparator(cfg: Config, input: seq<char>, line: int, n: nat, prev: Option<char>,
                           value: string, row: seq<string>, v: string)
    requires ValidConfig(cfg) && n < |input| && input[n] == cfg.separator
    requires ParseValue(cfg, value, line) == Success(v)
    ensures ScanLine(cfg, input, line, Scan(n, prev, false, value, row)) ==
      ScanLine(cfg, input, line, Scan(n + 1, Some(cfg.separator), false, "", row + [v]))
  {
    StepSeparator(cfg, input, line, Scan(n, prev, false, value, row));
  }

  // ---------------------------------------------------------------------
  // The reader object
  // ---------------------------------------------------------------------

  /** The outcome of `readAll` with `rows` read before it. */
  function Prepend(rows: seq<seq<Cell>>, r: Result<(seq<seq<Cell>>, CsvState), CsvError>): Result<(seq<seq<Cell>>, CsvState), CsvError>
  {
    match r
    case Success((rest, s)) => Success((rows + rest, s))
    case Failure(e) => Failure(e)
  }

  lemma PrependTwice(a: seq<seq<Cell>>, b: seq<seq<Cell>>, r: Result<(seq<seq<Cell>>, CsvState), CsvError>)
    ensures Prepend(a, Prepend(b, r)) == Prepend(a + b, r)
  {
    if r.Success? {
      assert a + (b + r.value.0) == a + b + r.value.0;
    }
  }

  lemma PrependNothing(r: Result<(seq<seq<Cell>>, CsvState), CsvError>)
    ensures Prepend([], r) == r
  {
    if r.Success? {
      assert [] + r.value.0 == r.value.0;
    }
  }

  /** When `readNextCsvLine` finds no further row, `readAll` is done. */
  lemma AllLinesEnd(cfg: Config, input: seq<char>, st: CsvState, rows: seq<seq<Cell>>)
    requires st.pos <= |input| && NextLine(cfg, input, st).Success? && NextLine(cfg, input, st).value.0.None?
    ensures Prepend(rows, AllLines(cfg, input, st)) == Success((rows, NextLine(cfg, input, st).value.1))
  {
    assert rows + [] == rows;
  }

  /** A row read by `readNextCsvLine` is the first row of `readAll`. */
  lemma AllLinesStep(cfg: Config, input: seq<char>, st: CsvState)
    requires st.pos <= |input| && NextLine(cfg, input, st).Success? && NextLine(cfg, input, st).value.0.Some?
    ensures var next := NextLine(cfg, input, st).value;
      AllLines(cfg, input, st) == Prepend([next.0.value], AllLines(cfg, input, next.1))
  {
  }

  class CsvReader {
    /** The decoded stream, read front to back. */
    const input: seq<char>
    var separator: char
    var stringQuote: char
    var useStringQuote: bool
    var stringQuoteEscapeCharacter: char
    var lineBreakInDataAllowed: bool
    var escapedStringQuoteInDataAllowed: bool
    var fillMissingTrailingColumnsWithNull: bool
    var singleReadStarted: bool
    var numberOfColumns: int
    var closed: bool
    var readLines: int
    var readCharacters: nat

    function Settings(): Config
      reads this
    {
      Config(separator, stringQuote, useStringQuote, stringQuoteEscapeCharacter,
             lineBreakInDataAllowed, escapedStringQuoteInDataAllowed, fillMissingTrailingColumnsWithNull)
    }

    function State(): CsvState
      reads this
    {
      CsvState(readCharacters, closed, readLines, numberOfColumns, singleReadStarted)
    }

    ghost predicate Valid()
      reads this
    {
      readCharacters <= |input|
    }

    constructor(input: seq<char>, separator: char, stringQuote: Option<char>)
      ensures this.input == input && Settings() == DefaultConfig(separator, stringQuote)
      ensures State() == Fresh && Valid()
    {
      this.input := input;
      this.separator := separator;
      if stringQuote.Some? {
        this.stringQuote := stringQuote.value;
        stringQuoteEscapeCharacter := stringQuote.value;
        useStringQuote := true;
      } else {
        this.stringQuote := '\0';
        stringQuoteEscapeCharacter := '\0';
        useStringQuote := false;
      }
      lineBreakInDataAllowed := true;
      escapedStringQuoteInDataAllowed := true;
      fillMissingTrailingColumnsWithNull := false;
      singleReadStarted := false;
      numberOfColumns := -1;
      closed := false;
      readLines := 0;
      readCharacters := 0;
    }

    /** The main constructor with its checks: a separator or quote the
        configuration refuses is an `IllegalArgumentException`. */
    static method Open(input: seq<char>, separator: char, stringQuote: Option<char>) returns (r: Result<CsvReader, CsvError>)
      ensures r.Failure? <==> ConfigError(separator, stringQuote).Some?
      ensures r.Failure? ==> r.error == ConfigError(separator, stringQuote).value
      ensures r.Success? ==> fresh(r.value) && r.value.input == input && r.value.Valid()
      ensures r.Success? ==> r.value.Settings() == DefaultConfig(separator, stringQuote) && r.value.State() == Fresh
    {
      var bad := AnyCharsAreEqual([separator, '\r', '\n']);
      if bad {
        return Failure(InvalidSeparator(separator));
      }
      if stringQuote.Some? {
        bad := AnyCharsAreEqual([separator, stringQuote.value, '\r', '\n']);
        if bad {
          return Failure(InvalidStringQuote(stringQuote.value));
        }
      }
      var reader := new CsvReader(input, separator, stringQuote);
      return Success(reader);
    }

    function IsFillMissingTrailingColumnsWithNull(): bool
      reads this
    {
      fillMissingTrailingColumnsWithNull
    }

    method SetFillMissingTrailingColumnsWithNull(value: bool)
      modifies this
      ensures Settings() == old(Settings()).(fillMissingTrailingColumnsWithNull := value)
      ensures State() == old(State())
    {
      fillMissingTrailingColumnsWithNull := value;
    }

    function IsLineBreakInDataAllowed(): bool
      reads this
    {
      lineBreakInDataAllowed
    }

    method SetLineBreakInDataAllowed(value: bool)
      modifies this
      ensures Settings() == old(Settings()).(lineBreakInDataAllowed := value)
      ensures State() == old(State())
    {
      lineBreakInDataAllowed := value;
    }

    function IsEscapedStringQuoteInDataAllowed(): bool
      reads this
    {
      escapedStringQuoteInDataAllowed
    }

    method SetEscapedStringQuoteInDataAllowed(value: bool)
      modifies this
      ensures Settings() == old(Settings()).(escapedStringQuoteInDataAllowed := value)
      ensures State() == old(State())
    {
      escapedStringQuoteInDataAllowed := value;
    }

    /** `setStringQuoteEscapeCharacter`: the character is stored before it
        is checked, so a refused one stays in place. */
    method SetStringQuoteEscapeCharacter(c: char) returns (e: Option<CsvError>)
      modifies this
      ensures Settings() == old(Settings()).(escape := c) && State() == old(State())
      ensures e == EscapeError(old(Settings()), c)
    {
      stringQuoteEscapeCharacter := c;
      if useStringQuote {
        var bad := AnyCharsAreEqual([separator, stringQuote, '\r', '\n', stringQuoteEscapeCharacter]);
        if bad {
          return Some(InvalidEscapeCharacter(c));
        }
      }
      return None;
    }

    function GetReadLines(): int
      reads this
    {
      readLines
    }

    function GetReadCharacters(): int
      reads this
    {
      readCharacters
    }

    method Close()
      modifies this`closed
      ensures State() == old(State()).(closed := true) && Settings() == old(Settings())
    {
      closed := true;
    }

    /** `readAll`: every row up to the end of the data, which is only
        possible before a single read; the reader is closed afterwards. */
    method ReadAll() returns (r: Result<seq<seq<Cell>>, CsvError>)
      requires Valid()
      modifies this
      ensures Valid() && Settings() == old(Settings())
      ensures old(singleReadStarted) ==> r == Failure(SingleReadStarted) && State() == old(State())
      ensures !old(singleReadStarted) ==>
        && closed
        && match AllLines(old(Settings()), input, old(State()))
           case Success((rows, s)) => r == Success(rows) && State() == s
           case Failure(e) => r == Failure(e)
    {
      if singleReadStarted {
        return Failure(SingleReadStarted);
      }
      ghost var cfg := Settings();
      ghost var st0 := State();
      var csvValues: seq<seq<Cell>> := [];
      PrependNothing(AllLines(cfg, input, st0));
      while true
        invariant Valid() && Settings() == cfg
        invariant Prepend(csvValues, AllLines(cfg, input, State())) == AllLines(cfg, input, st0)
        decreases |input| - readCharacters, if closed then 0 else 1
      {
        ghost var before := State();
        var lineValues := ReadNextCsvLine();
        if lineValues.Failure? {
          Close();
          return Failure(lineValues.error);
        }
        if lineValues.value.None? {
          AllLinesEnd(cfg, input, before, csvValues);
          Close();
          return Success(csvValues);
        }
        AllLinesStep(cfg, input, before);
        PrependTwice(csvValues, [lineValues.value.value], AllLines(cfg, input, State()));
        csvValues := csvValues + [lineValues.value.value];
      }
    }

    /** `getCsvLineCount`: the number of rows up to the end of the data,
        under the same conditions as `readAll`. */
    method GetCsvLineCount() returns (r: Result<nat, CsvError>)
      requires Valid()
      modifies this
      ensures Valid() && Settings() == old(Settings())
      ensures old(singleReadStarted) ==> r == Failure(SingleReadStarted) && State() == old(State())
      ensures !old(singleReadStarted) ==>
        && closed
        && match AllLines(old(Settings()), input, old(State()))
           case Success((rows, s)) => r == Success(|rows|) && State() == s
           case Failure(e) => r == Failure(e)
    {
      if singleReadStarted {
        return Failure(SingleReadStarted);
      }
      ghost var cfg := Settings();
      ghost var st0 := State();
      ghost var rows: seq<seq<Cell>> := [];
      var csvLineCount := 0;
      PrependNothing(AllLines(cfg, input, st0));
      while true
        invariant Valid() && Settings() == cfg && csvLineCount == |rows|
        invariant Prepend(rows, AllLines(cfg, input, State())) == AllLines(cfg, input, st0)
        decreases |input| - readCharacters, if closed then 0 else 1
      {
        ghost var before := State();
        var lineValues := ReadNextCsvLine();
        if lineValues.Failure? {
          Close();
          return Failure(lineValues.error);
        }
        if lineValues.value.None? {
          AllLinesEnd(cfg, input, before, rows);
          Close();
          return Success(csvLineCount);
        }
        AllLinesStep(cfg, input, before);
        PrependTwice(rows, [lineValues.value.value], AllLines(cfg, input, State()));
        rows := rows + [lineValues.value.value];
        csvLineCount := csvLineCount + 1;
      }
    }

    /** `parseCsvLine`: a reader with default settings over the line must
        read exactly one row. */
    static method ParseCsvLine(separator: char, stringQuote: Option<char>, csvLine: string) returns (r: Result<seq<Cell>, CsvError>)
      ensures r == ParseLine(separator, stringQuote, csvLine)
    {
      var made := Open(csvLine, separator, stringQuote);
      if made.Failure? {
        return Failure(made.error);
      }
      var reader := made.value;
      var fullData := reader.ReadAll();
      reader.Close();
      if fullData.Failure? {
        return Failure(fullData.error);
      }
      if |fullData.value| != 1 {
        return Failure(NotOneLine);
      }
      return Success(fullData.value[0]);
    }

    /** The column check of `readNextCsvLine`, padding a short row with
        `null` one value at a time. */
    method FinishRow(row: seq<string>, line: int) returns (r: Result<seq<Cell>, CsvError>)
      ensures r == CompleteRow(numberOfColumns, row, fillMissingTrailingColumnsWithNull, line)
    {
      var returnList := Cells(row);
      if numberOfColumns != -1 && numberOfColumns != |row| {
        if numberOfColumns > |row| && fillMissingTrailingColumnsWithNull {
          while |returnList| < numberOfColumns
            invariant |row| <= |returnList| <= numberOfColumns
            invariant returnList == Cells(row) + Nulls(|returnList| - |row|)
            decreases numberOfColumns - |returnList|
          {
            returnList := returnList + [None];
          }
        } else {
          return Failure(InconsistentColumns(line, numberOfColumns, |row|));
        }
      }
      return Success(returnList);
    }

    /** `readNextCsvLine`. */
    method ReadNextCsvLine() returns (r: Result<Option<seq<Cell>>, CsvError>)
      requires Valid()
      modifies this
      ensures Valid() && Settings() == old(Settings())
      ensures match NextLine(old(Settings()), input, old(State()))
        case Success((row, s)) => r == Success(row) && State() == s
        case Failure(e) =>
          && r == Failure(e)
          && (old(closed) ==> State() == old(State()))
          && (!old(closed) ==> readLines == old(readLines) + 1 && singleReadStarted && numberOfColumns == old(numberOfColumns))
          && (e == UnexpectedEnd ==> closed)
    {
      if closed {
        return Failure(AlreadyClosed);
      }
      ghost var st0 := State();
      readLines := readLines + 1;
      singleReadStarted := true;
      var line := readLines;
      ghost var cfg := Settings();
      ghost var start := Scan(readCharacters, None, false, "", []);
      var returnList: seq<string> := [];
      var nextValue: string := "";
      var insideString := false;
      var previous: Option<char> := None;
      while readCharacters < |input|
        invariant readCharacters <= |input| && Settings() == cfg && !closed
        invariant readLines == line == old(readLines) + 1 && singleReadStarted && numberOfColumns == old(numberOfColumns)
        invariant ScanLine(cfg, input, line, Scan(readCharacters, previous, insideString, nextValue, returnList))
               == ScanLine(cfg, input, line, start)
        decreases |input| - readCharacters
      {
        var result := ReadCharacter(line, previous, insideString, nextValue, returnList);
        match result {
          case Next(sc) =>
            previous, insideString, nextValue, returnList := sc.prev, sc.inside, sc.value, sc.row;
          case Stop(Failure(e)) =>
            NextLineScanned(cfg, input, st0, Failure(e));
            return Failure(e);
          case Stop(Success((row, p))) =>
            NextLineScanned(cfg, input, st0, Success((row, p)));
            r := EmitRow(row.value, line);
            return;
        }
      }
      NextLineScanned(cfg, input, st0, EndOfData(cfg, line, Scan(readCharacters, previous, insideString, nextValue, returnList)));
      r := FinishData(line, previous, insideString, nextValue, returnList);
    }

    /** A complete row is checked against the number of columns, which it
        then fixes. */
    method EmitRow(row: seq<string>, line: int) returns (r: Result<Option<seq<Cell>>, CsvError>)
      modifies this`numberOfColumns
      ensures match CompleteRow(old(numberOfColumns), row, fillMissingTrailingColumnsWithNull, line)
        case Success(cells) => r == Success(Some(cells)) && numberOfColumns == |cells|
        case Failure(e) => r == Failure(e) && numberOfColumns == old(numberOfColumns)
    {
      var cells := FinishRow(row, line);
      if cells.Failure? {
        return Failure(cells.error);
      }
      numberOfColumns := |cells.value|;
      return Success(Some(cells.value));
    }

    /** After the loop of `readNextCsvLine`: a quoted value left open fails
        and closes the reader, the pending value is added, and an empty row
        closes the reader and gives `null`. */
    method FinishData(line: int, previous: Option<char>, insideString: bool, nextValue: string, returnList: seq<string>)
      returns (r: Result<Option<seq<Cell>>, CsvError>)
      modifies this`numberOfColumns, this`closed
      ensures var end := EndOfData(Settings(), line, Scan(readCharacters, previous, insideString, nextValue, returnList));
        match end
        case Failure(e) => r == Failure(e) && numberOfColumns == old(numberOfColumns) && closed == (e == UnexpectedEnd || old(closed))
        case Success((None, _)) => r == Success(None) && closed && numberOfColumns == old(numberOfColumns)
        case Success((Some(row), _)) =>
          && closed == old(closed)
          && (match CompleteRow(old(numberOfColumns), row, fillMissingTrailingColumnsWithNull, line)
              case Success(cells) => r == Success(Some(cells)) && numberOfColumns == |cells|
              case Failure(e) => r == Failure(e) && numberOfColumns == old(numberOfColumns))
    {
      if insideString {
        Close();
        return Failure(UnexpectedEnd);
      }
      var row := returnList;
      if |nextValue| > 0 || previous == Some(separator) {
        var v := ParseValue(Settings(), nextValue, line);
        if v.Failure? {
          return Failure(v.error);
        }
        row := row + [v.value];
      }
      if |row| > 0 {
        r := EmitRow(row, line);
        return;
      }
      Close();
      return Success(None);
    }

    /** One pass of the loop of `readNextCsvLine`: reads one character and
        says how the loop goes on. */
    method ReadCharacter(line: int, previous: Option<char>, insideString: bool, nextValue: string, returnList: seq<string>)
      returns (o: StepOutcome)
      requires readCharacters < |input|
      modifies this
      ensures readCharacters == old(readCharacters) + 1
      ensures unchanged(this`separator, this`stringQuote, this`useStringQuote, this`stringQuoteEscapeCharacter,
                        this`lineBreakInDataAllowed, this`escapedStringQuoteInDataAllowed,
                        this`fillMissingTrailingColumnsWithNull, this`singleReadStarted, this`numberOfColumns,
                        this`closed, this`readLines)
      ensures o == Step(Settings(), input, line, Scan(old(readCharacters), previous, insideString, nextValue, returnList))
      ensures o.Next? ==> o.s.pos == readCharacters
    {
      var nextChar := input[readCharacters];
      readCharacters := readCharacters + 1;
      var next := Scan(readCharacters, Some(nextChar), insideString, nextValue + [nextChar], returnList);
      if useStringQuote && nextChar == stringQuote {
        var toggle := stringQuoteEscapeCharacter == stringQuote || previous != Some(stringQuoteEscapeCharacter);
        return Next(next.(inside := if toggle then !insideString else insideString));
      } else if !insideString {
        if nextChar == '\r' || nextChar == '\n' {
          var row := returnList;
          if |nextValue| > 0 || previous == Some(separator) {
            var v := ParseValue(Settings(), nextValue, line);
            if v.Failure? {
              return Stop(Failure(v.error));
            }
            row := row + [v.value];
          }
          if |row| > 0 {
            return Stop(Success((Some(row), readCharacters)));
          }
          return Next(next.(value := nextValue, row := row));
        } else if nextChar == separator {
          var v := ParseValue(Settings(), nextValue, line);
          if v.Failure? {
            return Stop(Failure(v.error));
          }
          return Next(next.(value := "", row := returnList + [v.value]));
        } else {
          return Next(next);
        }
      } else if (nextChar == '\r' || nextChar == '\n') && !lineBreakInDataAllowed {
        return Stop(Failure(LineBreakInData(line)));
      } else {
        return Next(next);
      }
    }
  }
}
