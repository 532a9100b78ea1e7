/** `JsonObject` and `JsonArray`: the mutable tree classes, their text
    serialisers and their recursive character-array parsers.

    A nested object or array is held by value: where Java stores a reference
    to a child `JsonObject`, the model stores the child's value. */
module JsonTree {
  import opened Wrappers
  import opened Text
  import opened JsonValues
  import opened JsonScalars

  // ---------------------------------------------------------------------
  // Serialisation (toString(indention, separator, linebreak))
  // ---------------------------------------------------------------------

  datatype Format = Format(indention: string, separator: string, linebreak: string)

  /** The format `toString()` uses without arguments. */
  const DefaultFormat := Format("\t", " ", "\n")

  /** `text.replace("\"", "\\\"")`: keys and strings are written with each
      double quote escaped. */
  function Escape(s: string): string
  {
    Replace(s, "\"", "\\\"")
  }

  /** Reads `\"` back as `"`; every other character stands for itself. */
  function UnescapeQuotes(t: string): string
  {
    if t == [] then []
    else if |t| >= 2 && t[0] == '\\' && t[1] == '"' then ['"'] + UnescapeQuotes(t[2..])
    else [t[0]] + UnescapeQuotes(t[1..])
  }

  /** Escaping touches the double quote and nothing else: it is the character
      map `"` to `\"`, and undoing exactly that map gives the text back. */
  lemma EscapeOnlyQuotes(s: string)
    ensures Escape(s) == MapChar(s, '"', "\\\"")
    ensures UnescapeQuotes(Escape(s)) == s
  {
    ReplaceSingleChar(s, '"', "\\\"");
    UnescapeMapped(s);
  }

  lemma {:induction false} UnescapeMapped(s: string)
    ensures UnescapeQuotes(MapChar(s, '"', "\\\"")) == s
    decreases |s|
  {
    if s != [] {
      var rest := MapChar(s[1..], '"', "\\\"");
      UnescapeMapped(s[1..]);
      MappedNeverStartsWithQuote(s[1..]);
      if s[0] == '"' {
        var t := "\\\"" + rest;
        assert t[2..] == rest;
      } else {
        var t := [s[0]] + rest;
        assert t[1..] == rest;
      }
    }
  }

  lemma MappedNeverStartsWithQuote(s: string)
    ensures var t := MapChar(s, '"', "\\\""); t == [] || t[0] != '"'
  {
  }

  /** `Integer.toString` / `Long.toString`; a floating value is written as the
      text it was read from. */
  function NumberText(n: Num): string
  {
    match n
    case Narrow(i) => IntToString(i)
    case Wide(l) => IntToString(l)
    case Float(t) => t
  }

  /** `parts` joined by `delimiter`. */
  function Join(parts: seq<string>, delimiter: string): string
  {
    if |parts| == 0 then ""
    else if |parts| == 1 then parts[0]
    else Join(parts[..|parts| - 1], delimiter) + delimiter + parts[|parts| - 1]
  }

  /** How a property or array element is written. `addLeadingTab`
      (`TextUtilities.addLeadingTab`) is not part of this model and is a
      parameter. */
  /** The text of a literal or a number, which no format changes. */
  function ScalarText(v: Json): string
    requires v.Null? || v.Bool? || v.Number?
  {
    match v
    case Null => "null"
    case Bool(b) => if b then "true" else "false"
    case Number(n) => NumberText(n)
  }

  function ValueText(v: Json, f: Format, addLeadingTab: string -> string): string
    decreases v, 0
  {
    match v
    case Null => ScalarText(v)
    case Bool(_) => ScalarText(v)
    case Number(_) => ScalarText(v)
    case Str(s) => "\"" + Escape(s) + "\""
    case Obj(ms) => Trim(addLeadingTab(ObjectText(ms, f, addLeadingTab)))
    case Arr(items) => Trim(addLeadingTab(ArrayText(items, f, addLeadingTab)))
  }

  /** One property: line break, indentation, quoted key, `:`, separator, value. */
  function MemberText(m: Member, f: Format, addLeadingTab: string -> string): string
    decreases m, 1
  {
    f.linebreak + f.indention + "\"" + Escape(m.key) + "\":" + f.separator + ValueText(m.value, f, addLeadingTab)
  }

  function MemberTexts(ms: seq<Member>, f: Format, addLeadingTab: string -> string): seq<string>
    decreases ms, 0
  {
    if ms == [] then [] else [MemberText(ms[0], f, addLeadingTab)] + MemberTexts(ms[1..], f, addLeadingTab)
  }

  function ValueTexts(items: seq<Json>, f: Format, addLeadingTab: string -> string): seq<string>
    decreases items, 0
  {
    if items == [] then [] else [ValueText(items[0], f, addLeadingTab)] + ValueTexts(items[1..], f, addLeadingTab)
  }

  /** `JsonObject.toString(indention, separator, linebreak)`. */
  function ObjectText(ms: seq<Member>, f: Format, addLeadingTab: string -> string): string
    decreases ms, 1
  {
    if |ms| == 0 then "{}"
    else "{" + Join(MemberTexts(ms, f, addLeadingTab), ",") + f.linebreak + "}" + f.linebreak
  }

  /** `JsonArray.toString(indention, separator, linebreak)`. */
  function ArrayText(items: seq<Json>, f: Format, addLeadingTab: string -> string): string
    decreases items, 1
  {
    if |items| == 0 then "[]"
    else "[" + f.separator + Join(ValueTexts(items, f, addLeadingTab), "," + f.separator) + f.separator + "]"
  }

  lemma {:induction false} MemberTextsSnoc(ms: seq<Member>, m: Member, f: Format, addLeadingTab: string -> string)
    ensures MemberTexts(ms + [m], f, addLeadingTab) == MemberTexts(ms, f, addLeadingTab) + [MemberText(m, f, addLeadingTab)]
    decreases |ms|
  {
    if ms != [] {
      assert (ms + [m])[1..] == ms[1..] + [m];
      MemberTextsSnoc(ms[1..], m, f, addLeadingTab);
    } else {
      assert ms + [m] == [m];
    }
  }

  lemma {:induction false} ValueTextsSnoc(items: seq<Json>, v: Json, f: Format, addLeadingTab: string -> string)
    ensures ValueTexts(items + [v], f, addLeadingTab) == ValueTexts(items, f, addLeadingTab) + [ValueText(v, f, addLeadingTab)]
    decreases |items|
  {
    if items != [] {
      assert (items + [v])[1..] == items[1..] + [v];
      ValueTextsSnoc(items[1..], v, f, addLeadingTab);
    } else {
      assert items + [v] == [v];
    }
  }

  lemma JoinSnoc(parts: seq<string>, x: string, delimiter: string)
    ensures Join(parts + [x], delimiter) == if parts == [] then x else Join(parts, delimiter) + delimiter + x
  {
    var p := parts + [x];
    assert p[..|p| - 1] == parts;
  }

  /** One more property written by `toString`'s loop. */
  lemma MemberTextsStep(ms: seq<Member>, i: nat, f: Format, addLeadingTab: string -> string)
    requires i < |ms|
    ensures Join(MemberTexts(ms[..i + 1], f, addLeadingTab), ",")
         == if i == 0 then MemberText(ms[i], f, addLeadingTab)
            else Join(MemberTexts(ms[..i], f, addLeadingTab), ",") + "," + MemberText(ms[i], f, addLeadingTab)
  {
    assert ms[..i + 1] == ms[..i] + [ms[i]];
    MemberTextsSnoc(ms[..i], ms[i], f, addLeadingTab);
    JoinSnoc(MemberTexts(ms[..i], f, addLeadingTab), MemberText(ms[i], f, addLeadingTab), ",");
  }

  /** One more element written by `toString`'s loop. */
  lemma ValueTextsStep(items: seq<Json>, i: nat, f: Format, addLeadingTab: string -> string)
    requires i < |items|
    ensures Join(ValueTexts(items[..i + 1], f, addLeadingTab), "," + f.separator)
         == if i == 0 then ValueText(items[i], f, addLeadingTab)
            else Join(ValueTexts(items[..i], f, addLeadingTab), "," + f.separator) + ("," + f.separator) + ValueText(items[i], f, addLeadingTab)
  {
    assert items[..i + 1] == items[..i] + [items[i]];
    ValueTextsSnoc(items[..i], items[i], f, addLeadingTab);
    JoinSnoc(ValueTexts(items[..i], f, addLeadingTab), ValueText(items[i], f, addLeadingTab), "," + f.separator);
  }

  /** An empty object is written as exactly `{}`; any other object starts with
      `{` and ends with line break, `}`, line break. */
  lemma ObjectTextShape(ms: seq<Member>, f: Format, addLeadingTab: string -> string)
    ensures ms == [] ==> ObjectText(ms, f, addLeadingTab) == "{}"
    ensures ms != [] ==>
      var t := ObjectText(ms, f, addLeadingTab);
      StartsWith(t, "{") && EndsWith(t, f.linebreak + "}" + f.linebreak)
  {
    if ms != [] {
      var body := Join(MemberTexts(ms, f, addLeadingTab), ",");
      var t := ObjectText(ms, f, addLeadingTab);
      assert t == "{" + body + (f.linebreak + "}" + f.linebreak);
      assert t[..1] == "{";
      assert t[|t| - |f.linebreak + "}" + f.linebreak|..] == f.linebreak + "}" + f.linebreak;
    }
  }

  /** An empty array is written as exactly `[]`; any other array is `[` and the
      separator, the elements joined by `,` and the separator, then the
      separator and `]`. */
  lemma ArrayTextShape(items: seq<Json>, f: Format, addLeadingTab: string -> string)
    ensures items == [] ==> ArrayText(items, f, addLeadingTab) == "[]"
    ensures items != [] ==>
      var t := ArrayText(items, f, addLeadingTab);
      StartsWith(t, "[" + f.separator) && EndsWith(t, f.separator + "]")
  {
    if items != [] {
      var body := Join(ValueTexts(items, f, addLeadingTab), "," + f.separator);
      var t := ArrayText(items, f, addLeadingTab);
      assert t == ("[" + f.separator) + body + (f.separator + "]");
      assert t[..|"[" + f.separator|] == "[" + f.separator;
      assert t[|t| - |f.separator + "]"|..] == f.separator + "]";
    }
  }

  // ---------------------------------------------------------------------
  // Parsing (parse(char[] jsonData, int startIndex))
  // ---------------------------------------------------------------------

  datatype ParseError =
    | UnexpectedChar(c: char, at: nat)
    | InvalidValue(error: ScalarError)
    | Unclosed

  /** `JsonUtilities.getJsonValue`, with its failure as a parse failure. */
  function Coerce(text: string): (r: Result<Json, ParseError>)
    ensures r.Success? <==> GetJsonValue(text).Success?
    ensures r.Success? ==> r.value == GetJsonValue(text).value
  {
    match GetJsonValue(text)
    case Success(v) => Success(v)
    case Failure(e) => Failure(InvalidValue(e))
  }

  /** The local variables of `JsonObject.parse` between two characters. `None`
      stands for a Java `null` builder or value. */
  datatype ObjectScanState = ObjectScanState(
    prev: char,
    key: Option<string>,
    quoted: Option<string>,
    unquoted: Option<string>,
    keyString: Option<string>,
    value: Option<Json>,
    members: seq<Member>)

  const ObjectStart := ObjectScanState(' ', None, None, None, None, None, [])

  /** The local variables of `JsonArray.parse` between two characters. */
  datatype ArrayScanState = ArrayScanState(
    prev: char,
    quoted: Option<string>,
    unquoted: Option<string>,
    value: Option<Json>,
    items: seq<Json>)

  const ArrayStart := ArrayScanState(' ', None, None, None, [])

  /** Appends to a key or quoted text under construction: after a backslash
      the backslash and the character are both kept. */
  function Extend(text: string, prev: char, c: char): string
  {
    if prev == '\\' then text + ['\\', c] else text + [c]
  }

  /** What one character does to `JsonObject.parse`'s locals, short of the
      recursive descent into a nested object or array. */
  datatype ObjectAction =
    | ObjectNext(next: ObjectScanState)
    | ObjectFail(error: ParseError)
    | ObjectClose(members: seq<Member>)
    | ObjectOpensObject
    | ObjectOpensArray

  function ObjectCharStep(st: ObjectScanState, c: char, index: nat): (r: ObjectAction)
    ensures r.ObjectClose? ==> c == '}'
    ensures r.ObjectOpensObject? ==> c == '{'
    ensures r.ObjectOpensArray? ==> c == '['
  {
    if c == '\\' then
      if st.key.None? && st.quoted.None? then ObjectFail(UnexpectedChar(c, index))
      else ObjectNext(st.(prev := c))
    else if st.key.Some? then
      if c == '"' && st.prev != '\\' then ObjectNext(st.(keyString := st.key, key := None, prev := c))
      else ObjectNext(st.(key := Some(Extend(st.key.value, st.prev, c)), prev := c))
    else if st.quoted.Some? then
      if c == '"' && st.prev != '\\' then ObjectNext(st.(value := Some(Str(st.quoted.value)), quoted := None, prev := c))
      else ObjectNext(st.(quoted := Some(Extend(st.quoted.value, st.prev, c)), prev := c))
    else if IsWhitespace(c) then ObjectNext(st.(prev := c))
    else if c == ':' then
      if st.keyString.None? then ObjectFail(UnexpectedChar(c, index))
      else ObjectNext(st.(prev := c))
    else if c == ',' || c == '}' then
      if st.keyString.Some? && (st.value.Some? || st.unquoted.Some?) then
        var v := if st.unquoted.Some? then Coerce(st.unquoted.value) else Success(st.value.value);
        if v.Failure? then ObjectFail(v.error)
        else
          var ms := AddMember(st.members, st.keyString.value, v.value);
          if c == '}' then ObjectClose(ms)
          else ObjectNext(st.(keyString := None, value := None, unquoted := None, members := ms, prev := c))
      else if c == ',' then ObjectFail(UnexpectedChar(c, index))
      else ObjectClose(st.members)
    else if c == '{' then ObjectOpensObject
    else if c == '[' then ObjectOpensArray
    else if c == ']' then ObjectFail(UnexpectedChar(c, index))
    else if c == '"' then
      if st.keyString.None? then ObjectNext(st.(key := Some(""), prev := c))
      else ObjectNext(st.(quoted := Some(""), prev := c))
    else
      var u := (if st.unquoted.Some? then st.unquoted.value else "") + [c];
      if !IsValidUnfinishedJsonValue(u) then ObjectFail(UnexpectedChar(c, index))
      else ObjectNext(st.(unquoted := Some(u), prev := c))
  }

  /** What `JsonObject.parse` does from `index` on in state `st`: the members
      read and the index of the closing `}`. */
  function ObjectScan(data: seq<char>, index: nat, st: ObjectScanState): (r: Result<(seq<Member>, nat), ParseError>)
    ensures r.Success? ==> index <= r.value.1 < |data| && data[r.value.1] == '}'
    decreases |data| - index, 1
  {
    if index >= |data| then Failure(Unclosed)
    else ObjectResume(data, index, st, ObjectCharStep(st, data[index], index))
  }

  /** How the scan goes on after the character at `index` asked for `action`. */
  function ObjectResume(data: seq<char>, index: nat, st: ObjectScanState, action: ObjectAction): (r: Result<(seq<Member>, nat), ParseError>)
    requires index < |data|
    requires action.ObjectClose? ==> data[index] == '}'
    ensures r.Success? ==> index <= r.value.1 < |data| && data[r.value.1] == '}'
    decreases |data| - index, 0
  {
    match action
    case ObjectNext(next) => ObjectScan(data, index + 1, next)
    case ObjectFail(e) => Failure(e)
    case ObjectClose(ms) => Success((ms, index))
    case ObjectOpensObject =>
      var nested :- ObjectScan(data, index + 1, ObjectStart);
      ObjectScan(data, nested.1 + 1, st.(value := Some(Obj(nested.0)), prev := data[index]))
    case ObjectOpensArray =>
      var nested :- ArrayScan(data, index + 1, ArrayStart);
      ObjectScan(data, nested.1 + 1, st.(value := Some(Arr(nested.0)), prev := data[index]))
  }

  /** What one character does to `JsonArray.parse`'s locals. */
  datatype ArrayAction =
    | ArrayNext(next: ArrayScanState)
    | ArrayFail(error: ParseError)
    | ArrayClose(items: seq<Json>)
    | ArrayOpensObject
    | ArrayOpensArray

  function ArrayCharStep(st: ArrayScanState, c: char, index: nat): (r: ArrayAction)
    ensures r.ArrayClose? ==> c == ']'
    ensures r.ArrayOpensObject? ==> c == '{'
    ensures r.ArrayOpensArray? ==> c == '['
  {
    if c == '\\' then
      if st.quoted.None? then ArrayFail(UnexpectedChar(c, index))
      else ArrayNext(st.(prev := c))
    else if st.quoted.Some? then
      if c == '"' && st.prev != '\\' then ArrayNext(st.(value := Some(Str(st.quoted.value)), quoted := None, prev := c))
      else ArrayNext(st.(quoted := Some(Extend(st.quoted.value, st.prev, c)), prev := c))
    else if IsWhitespace(c) then ArrayNext(st.(prev := c))
    else if c == ':' then ArrayFail(UnexpectedChar(c, index))
    else if c == ',' || c == ']' then
      if st.value.Some? || st.unquoted.Some? then
        var v := if st.unquoted.Some? then Coerce(st.unquoted.value) else Success(st.value.value);
        if v.Failure? then ArrayFail(v.error)
        else
          var items := st.items + [v.value];
          if c == ']' then ArrayClose(items)
          else ArrayNext(st.(value := None, unquoted := None, items := items, prev := c))
      else if c == ',' then ArrayFail(UnexpectedChar(c, index))
      else ArrayClose(st.items)
    else if c == '[' then ArrayOpensArray
    else if c == '{' then ArrayOpensObject
    else if c == '}' then ArrayFail(UnexpectedChar(c, index))
    else if c == '"' then ArrayNext(st.(quoted := Some(""), prev := c))
    else
      var u := (if st.unquoted.Some? then st.unquoted.value else "") + [c];
      if !IsValidUnfinishedJsonValue(u) then ArrayFail(UnexpectedChar(c, index))
      else ArrayNext(st.(unquoted := Some(u), prev := c))
  }

  /** What `JsonArray.parse` does from `index` on in state `st`: the elements
      read and the index of the closing `]`. */
  function ArrayScan(data: seq<char>, index: nat, st: ArrayScanState): (r: Result<(seq<Json>, nat), ParseError>)
    ensures r.Success? ==> index <= r.value.1 < |data| && data[r.value.1] == ']'
    decreases |data| - index, 1
  {
    if index >= |data| then Failure(Unclosed)
    else ArrayResume(data, index, st, ArrayCharStep(st, data[index], index))
  }

  /** How the scan goes on after the character at `index` asked for `action`. */
  function ArrayResume(data: seq<char>, index: nat, st: ArrayScanState, action: ArrayAction): (r: Result<(seq<Json>, nat), ParseError>)
    requires index < |data|
    requires action.ArrayClose? ==> data[index] == ']'
    ensures r.Success? ==> index <= r.value.1 < |data| && data[r.value.1] == ']'
    decreases |data| - index, 0
  {
    match action
    case ArrayNext(next) => ArrayScan(data, index + 1, next)
    case ArrayFail(e) => Failure(e)
    case ArrayClose(items) => Success((items, index))
    case ArrayOpensArray =>
      var nested :- ArrayScan(data, index + 1, ArrayStart);
      ArrayScan(data, nested.1 + 1, st.(value := Some(Arr(nested.0)), prev := data[index]))
    case ArrayOpensObject =>
      var nested :- ObjectScan(data, index + 1, ObjectStart);
      ArrayScan(data, nested.1 + 1, st.(value := Some(Obj(nested.0)), prev := data[index]))
  }


  /** A nested object or array inside an object: the scan resumes after the
      nested value's closing bracket, holding that value. */
  lemma ObjectScanNested(data: seq<char>, index: nat, st: ObjectScanState, end: nat, nested: Json)
    requires index < |data|
    requires match ObjectCharStep(st, data[index], index)
      case ObjectOpensObject => nested.Obj? && ObjectScan(data, index + 1, ObjectStart) == Success((nested.members, end))
      case ObjectOpensArray => nested.Arr? && ArrayScan(data, index + 1, ArrayStart) == Success((nested.items, end))
      case _ => false
    ensures ObjectScan(data, index, st) == ObjectScan(data, end + 1, st.(value := Some(nested), prev := data[index]))
  {
  }


  /** A nested object or array inside an array. */
  lemma ArrayScanNested(data: seq<char>, index: nat, st: ArrayScanState, end: nat, nested: Json)
    requires index < |data|
    requires match ArrayCharStep(st, data[index], index)
      case ArrayOpensObject => nested.Obj? && ObjectScan(data, index + 1, ObjectStart) == Success((nested.members, end))
      case ArrayOpensArray => nested.Arr? && ArrayScan(data, index + 1, ArrayStart) == Success((nested.items, end))
      case _ => false
    ensures ArrayScan(data, index, st) == ArrayScan(data, end + 1, st.(value := Some(nested), prev := data[index]))
  {
  }

  /** Outside a quoted key or value, `JsonObject.parse` fails on a backslash,
      on a `:` with no key read, on a `,` with no key and value pending, on a
      stray `]`, and on unquoted text that cannot start a literal or number. */
  lemma ObjectScanRejects(data: seq<char>, index: nat, st: ObjectScanState)
    requires index < |data| && st.key.None? && st.quoted.None?
    ensures var c := data[index];
      && (c == '\\' ==> ObjectScan(data, index, st) == Failure(UnexpectedChar(c, index)))
      && (c == ':' && st.keyString.None? ==> ObjectScan(data, index, st) == Failure(UnexpectedChar(c, index)))
      && (c == ',' && !(st.keyString.Some? && (st.value.Some? || st.unquoted.Some?)) ==>
            ObjectScan(data, index, st) == Failure(UnexpectedChar(c, index)))
      && (c == ']' ==> ObjectScan(data, index, st) == Failure(UnexpectedChar(c, index)))
      && (!IsWhitespace(c) && c !in "\\:,{}[]\"" &&
          !IsValidUnfinishedJsonValue((if st.unquoted.Some? then st.unquoted.value else "") + [c]) ==>
            ObjectScan(data, index, st) == Failure(UnexpectedChar(c, index)))
  {
  }

  /** Outside a quoted value, `JsonArray.parse` fails on a backslash, on any
      `:`, on a `,` with no value pending, on a stray `}`, and on unquoted text
      that cannot start a literal or number. */
  lemma ArrayScanRejects(data: seq<char>, index: nat, st: ArrayScanState)
    requires index < |data| && st.quoted.None?
    ensures var c := data[index];
      && (c == '\\' ==> ArrayScan(data, index, st) == Failure(UnexpectedChar(c, index)))
      && (c == ':' ==> ArrayScan(data, index, st) == Failure(UnexpectedChar(c, index)))
      && (c == ',' && st.value.None? && st.unquoted.None? ==> ArrayScan(data, index, st) == Failure(UnexpectedChar(c, index)))
      && (c == '}' ==> ArrayScan(data, index, st) == Failure(UnexpectedChar(c, index)))
      && (!IsWhitespace(c) && c !in "\\:,{}[]\"" &&
          !IsValidUnfinishedJsonValue((if st.unquoted.Some? then st.unquoted.value else "") + [c]) ==>
            ArrayScan(data, index, st) == Failure(UnexpectedChar(c, index)))
  {
  }

  /** A value pending at `,` or at the closing bracket is coerced with
      `getJsonValue`; when that fails, so does the parse. */
  lemma ArrayScanCoerces(data: seq<char>, index: nat, st: ArrayScanState)
    requires index < |data| && st.quoted.None? && (data[index] == ',' || data[index] == ']')
    requires st.unquoted.Some?
    ensures GetJsonValue(st.unquoted.value).Failure? ==>
      ArrayScan(data, index, st) == Failure(InvalidValue(GetJsonValue(st.unquoted.value).error))
    ensures GetJsonValue(st.unquoted.value).Success? && data[index] == ']' ==>
      ArrayScan(data, index, st) == Success((st.items + [GetJsonValue(st.unquoted.value).value], index))
  {
  }

  // ---------------------------------------------------------------------
  // Quoted keys and values in the parsers
  // ---------------------------------------------------------------------

  /** `w` stands in `data` from `index` on. */
  predicate At(data: seq<char>, index: nat, w: seq<char>)
    decreases |w|
  {
    index + |w| <= |data| && (w == [] || (data[index] == w[0] && At(data, index + 1, w[1..])))
  }

  lemma {:induction false} AtConcat(data: seq<char>, index: nat, a: seq<char>, b: seq<char>)
    requires At(data, index, a + b)
    ensures At(data, index, a) && At(data, index + |a|, b)
    decreases |a|
  {
    if a == [] {
      assert a + b == b;
    } else {
      assert (a + b)[0] == a[0] && (a + b)[1..] == a[1..] + b;
      AtConcat(data, index + 1, a[1..], b);
    }
  }

  lemma AtHead(data: seq<char>, index: nat, w: seq<char>)
    requires At(data, index, w) && w != []
    ensures index < |data| && data[index] == w[0] && At(data, index + 1, w[1..])
  {
  }

  lemma {:induction false} AtIndex(data: seq<char>, index: nat, w: seq<char>, k: nat)
    requires At(data, index, w) && k < |w|
    ensures data[index + k] == w[k]
    decreases k
  {
    if k > 0 {
      AtIndex(data, index + 1, w[1..], k - 1);
    }
  }

  /** Every text stands in itself, from each position on. */
  lemma {:induction false} AtSuffix(data: seq<char>, index: nat)
    requires index <= |data|
    ensures At(data, index, data[index..])
    decreases |data| - index
  {
    if index < |data| {
      assert data[index..][0] == data[index] && data[index..][1..] == data[index + 1..];
      AtSuffix(data, index + 1);
    }
  }

  /** The quoted-text loop of both parsers from `index`: up to the first `"`
      not preceded by a backslash, a backslash kept together with the
      character after it. The text read and the index of the closing quote. */
  function QuotedScan(data: seq<char>, index: nat, prev: char, text: string): (r: Option<(string, nat)>)
    ensures r.Some? ==> index <= r.value.1 < |data| && data[r.value.1] == '"'
    decreases |data| - index
  {
    if index >= |data| then None
    else if data[index] == '\\' then QuotedScan(data, index + 1, '\\', text)
    else if data[index] == '"' && prev != '\\' then Some((text, index))
    else QuotedScan(data, index + 1, data[index], Extend(text, prev, data[index]))
  }

  /** A quoted key is read by the quoted-text loop; its closing quote makes it
      the pending key. */
  lemma {:induction false} ObjectScanReadsKey(data: seq<char>, index: nat, st: ObjectScanState, t: string, j: nat)
    requires st.key.Some? && QuotedScan(data, index, st.prev, st.key.value) == Some((t, j))
    ensures ObjectScan(data, index, st) == ObjectScan(data, j + 1, st.(keyString := Some(t), key := None, prev := '"'))
    decreases |data| - index
  {
    var c := data[index];
    if c == '\\' {
      ObjectScanReadsKey(data, index + 1, st.(prev := c), t, j);
    } else if c != '"' || st.prev == '\\' {
      ObjectScanReadsKey(data, index + 1, st.(key := Some(Extend(st.key.value, st.prev, c)), prev := c), t, j);
    }
  }

  /** A quoted value inside an object is read by the same loop. */
  lemma {:induction false} ObjectScanReadsQuoted(data: seq<char>, index: nat, st: ObjectScanState, t: string, j: nat)
    requires st.key.None? && st.quoted.Some? && QuotedScan(data, index, st.prev, st.quoted.value) == Some((t, j))
    ensures ObjectScan(data, index, st) == ObjectScan(data, j + 1, st.(value := Some(Str(t)), quoted := None, prev := '"'))
    decreases |data| - index
  {
    var c := data[index];
    if c == '\\' {
      ObjectScanReadsQuoted(data, index + 1, st.(prev := c), t, j);
    } else if c != '"' || st.prev == '\\' {
      ObjectScanReadsQuoted(data, index + 1, st.(quoted := Some(Extend(st.quoted.value, st.prev, c)), prev := c), t, j);
    }
  }

  /** A quoted element of an array is read by the same loop. */
  lemma {:induction false} ArrayScanReadsQuoted(data: seq<char>, index: nat, st: ArrayScanState, t: string, j: nat)
    requires st.quoted.Some? && QuotedScan(data, index, st.prev, st.quoted.value) == Some((t, j))
    ensures ArrayScan(data, index, st) == ArrayScan(data, j + 1, st.(value := Some(Str(t)), quoted := None, prev := '"'))
    decreases |data| - index
  {
    var c := data[index];
    if c == '\\' {
      ArrayScanReadsQuoted(data, index + 1, st.(prev := c), t, j);
    } else if c != '"' || st.prev == '\\' {
      ArrayScanReadsQuoted(data, index + 1, st.(quoted := Some(Extend(st.quoted.value, st.prev, c)), prev := c), t, j);
    }
  }

  predicate NoBackslash(s: string)
  {
    forall i :: 0 <= i < |s| ==> s[i] != '\\'
  }

  /** A text free of backslashes, written with its quotes escaped as
      `toString` writes it and followed by the closing quote, is read back
      still escaped: each `\"` stays two characters. */
  lemma QuotedScanKeepsEscapes(data: seq<char>, index: nat, prev: char, text: string, s: string)
    requires prev != '\\' && NoBackslash(s) && At(data, index, Escape(s) + "\"")
    ensures QuotedScan(data, index, prev, text) == Some((text + Escape(s), index + |Escape(s)|))
  {
    EscapeOnlyQuotes(s);
    QuotedScanKeepsMapped(data, index, prev, text, s);
  }

  lemma {:induction false} QuotedScanKeepsMapped(data: seq<char>, index: nat, prev: char, text: string, s: string)
    requires prev != '\\' && NoBackslash(s)
    requires At(data, index, MapChar(s, '"', "\\\"") + "\"")
    ensures QuotedScan(data, index, prev, text)
         == Some((text + MapChar(s, '"', "\\\""), index + |MapChar(s, '"', "\\\"")|))
    decreases |s|
  {
    var m := MapChar(s, '"', "\\\"");
    if s == [] {
      AtHead(data, index, m + "\"");
      assert text + m == text;
    } else {
      var tail := MapChar(s[1..], '"', "\\\"");
      assert NoBackslash(s[1..]) by {
        forall i | 0 <= i < |s[1..]| ensures s[1..][i] != '\\' { assert s[1..][i] == s[i + 1]; }
      }
      if s[0] == '"' {
        assert m + "\"" == "\\\"" + (tail + "\"");
        AtConcat(data, index, "\\\"", tail + "\"");
        AtHead(data, index, "\\\"");
        AtHead(data, index + 1, "\"");
        QuotedScanKeepsMapped(data, index + 2, '"', text + "\\\"", s[1..]);
        assert text + "\\\"" + tail == text + m;
      } else {
        assert s[0] != '\\';
        assert m + "\"" == [s[0]] + (tail + "\"");
        AtHead(data, index, [s[0]] + (tail + "\""));
        assert ([s[0]] + (tail + "\""))[1..] == tail + "\"";
        QuotedScanKeepsMapped(data, index + 1, s[0], text + [s[0]], s[1..]);
        assert text + [s[0]] + tail == text + m;
      }
    }
  }

  /** A parse method returned what the scan function describes: on success the
      closing index and the collected contents. */
  predicate ParsedAs<T(==)>(spec: Result<(T, nat), ParseError>, r: Result<nat, ParseError>, contents: T)
  {
    match spec
    case Success(p) => r == Success(p.1) && contents == p.0
    case Failure(e) => r == Failure(e)
  }

  // ---------------------------------------------------------------------
  // The classes
  // ---------------------------------------------------------------------

  class JsonObject {
    /** The `LinkedHashMap` of properties, in insertion order. */
    var members: seq<Member>

    ghost predicate Valid()
      reads this
    {
      DistinctKeys(members)
    }

    constructor()
      ensures Valid() && members == []
    {
      members := [];
    }

    /** `add(key, value)` for every value type, `addNullValue(key)` with `Null`. */
    method Add(key: string, v: Json)
      requires Valid()
      modifies this
      ensures Valid()
      ensures members == AddMember(old(members), key, v)
    {
      AddMemberKeepsDistinct(members, key, v);
      var i := IndexOfKey(members, key);
      if i >= 0 {
        var previous := members[i].value;
        if previous.Arr? {
          members := members[i := Member(key, Arr(previous.items + [v]))];
        } else {
          members := members[i := Member(key, Arr([previous, v]))];
        }
      } else {
        members := members + [Member(key, v)];
      }
    }

    method AddNullValue(key: string)
      requires Valid()
      modifies this
      ensures Valid()
      ensures members == AddMember(old(members), key, Null)
    {
      Add(key, Null);
    }

    /** `remove(key)`: the previous value (`Null` when there was none). */
    method Remove(key: string) returns (previous: Json)
      requires Valid()
      modifies this
      ensures Valid()
      ensures previous == Get(old(members), key)
      ensures members == RemoveMember(old(members), key)
    {
      RemoveMemberKeepsDistinct(members, key);
      previous := Get(members, key);
      members := RemoveMember(members, key);
    }

    /** `get(key)`: `null` for a missing key, and otherwise the value of
        the one member that holds it. */
    function GetValue(key: string): (v: Json)
      reads this
      ensures !HasKey(members, key) ==> v == Null
      ensures Valid() ==> forall i :: 0 <= i < |members| && members[i].key == key ==> v == members[i].value
    {
      Get(members, key)
    }

    /** `keySet()`: the keys in insertion order, each key once. */
    function KeySet(): (ks: seq<string>)
      reads this
      ensures forall k :: k in ks <==> HasKey(members, k)
      ensures Valid() ==> forall i, j :: 0 <= i < j < |ks| ==> ks[i] != ks[j]
    {
      Keys(members)
    }

    /** `size()`: one per key. */
    function Size(): (n: nat)
      reads this
      ensures n == |KeySet()|
    {
      |members|
    }

    method ToString(f: Format, addLeadingTab: string -> string) returns (r: string)
      ensures r == ObjectText(members, f, addLeadingTab)
    {
      if |members| > 0 {
        var isFirstKey := true;
        // the properties as appended after the opening `{`
        var body := "";
        var i := 0;
        while i < |members|
          invariant 0 <= i <= |members|
          invariant isFirstKey <==> i == 0
          invariant body == Join(MemberTexts(members[..i], f, addLeadingTab), ",")
        {
          if !isFirstKey {
            body := body + ",";
          }
          // line break, indentation, quoted key, ':', separator and value
          body := body + MemberText(members[i], f, addLeadingTab);
          isFirstKey := false;
          MemberTextsStep(members, i, f, addLeadingTab);
          i := i + 1;
        }
        assert members[..i] == members;
        r := "{" + body + f.linebreak + "}" + f.linebreak;
      } else {
        r := "{}";
      }
    }

    /** `parse(jsonData, startIndex)`: replaces the properties by those read
        and returns the index of the closing `}`. */
    method Parse(data: seq<char>, start: nat) returns (r: Result<nat, ParseError>)
      requires Valid()
      modifies this
      ensures Valid()
      ensures ParsedAs(ObjectScan(data, start, ObjectStart), r, members)
      decreases |data| - start, 1
    {
      members := [];
      var prev := ' ';
      var key: Option<string> := None;
      var quoted: Option<string> := None;
      var unquoted: Option<string> := None;
      var keyString: Option<string> := None;
      var value: Option<Json> := None;
      var index := start;
      while index < |data|
        invariant start <= index
        invariant Valid()
        invariant ObjectScan(data, index, ObjectScanState(prev, key, quoted, unquoted, keyString, value, members))
               == ObjectScan(data, start, ObjectStart)
        decreases |data| - index
      {
        ghost var st := ObjectScanState(prev, key, quoted, unquoted, keyString, value, members);
        var c := data[index];
        ghost var act := ObjectCharStep(st, c, index);
        if c == '\\' {
          if key.None? && quoted.None? {
            assert act == ObjectFail(UnexpectedChar(c, index));
            return Failure(UnexpectedChar(c, index));
          }
        } else if key.Some? {
          if c == '"' && prev != '\\' {
            keyString := key;
            key := None;
          } else {
            key := Some(Extend(key.value, prev, c));
          }
        } else if quoted.Some? {
          if c == '"' && prev != '\\' {
            value := Some(Str(quoted.value));
            quoted := None;
          } else {
            quoted := Some(Extend(quoted.value, prev, c));
          }
        } else if IsWhitespace(c) {
          // whitespace outside keys and values
        } else if c == ':' {
          if keyString.None? {
            assert act == ObjectFail(UnexpectedChar(c, index));
            return Failure(UnexpectedChar(c, index));
          }
        } else if c == ',' || c == '}' {
          if keyString.Some? && (value.Some? || unquoted.Some?) {
            if unquoted.Some? {
              var coerced := Coerce(unquoted.value);
              if coerced.Failure? {
                assert act == ObjectFail(coerced.error);
                return Failure(coerced.error);
              }
              value := Some(coerced.value);
              unquoted := None;
            }
            Add(keyString.value, value.value);
            keyString := None;
            value := None;
          } else if c == ',' {
            assert act == ObjectFail(UnexpectedChar(c, index));
            return Failure(UnexpectedChar(c, index));
          }
          if c == '}' {
            assert act == ObjectClose(members);
            return Success(index);
          }
        } else if c == '{' {
          var nested := ParseNested(data, index, true);
          if nested.Failure? {
            return Failure(nested.error);
          }
          ObjectScanNested(data, index, st, nested.value.1, nested.value.0);
          index := nested.value.1;
          value := Some(nested.value.0);
        } else if c == '[' {
          var nested := ParseNested(data, index, false);
          if nested.Failure? {
            return Failure(nested.error);
          }
          ObjectScanNested(data, index, st, nested.value.1, nested.value.0);
          index := nested.value.1;
          value := Some(nested.value.0);
        } else if c == ']' {
          assert act == ObjectFail(UnexpectedChar(c, index));
          return Failure(UnexpectedChar(c, index));
        } else if c == '"' {
          if keyString.None? {
            key := Some("");
          } else {
            quoted := Some("");
          }
        } else {
          var u := (if unquoted.Some? then unquoted.value else "") + [c];
          if !IsValidUnfinishedJsonValue(u) {
            assert act == ObjectFail(UnexpectedChar(c, index));
            return Failure(UnexpectedChar(c, index));
          }
          unquoted := Some(u);
        }
        if c != '{' && c != '[' {
          assert act == ObjectNext(ObjectScanState(c, key, quoted, unquoted, keyString, value, members));
        }
        prev := c;
        index := index + 1;
      }
      return Failure(Unclosed);
    }
  }

  /** The index of the first element equal to `v` (`List.indexOf`). */
  function FirstIndexOf(items: seq<Json>, v: Json): (i: nat)
    requires v in items
    ensures i < |items| && items[i] == v && v !in items[..i]
  {
    if items[0] == v then 0
    else
      assert items == [items[0]] + items[1..];
      var j := FirstIndexOf(items[1..], v);
      assert items[..j + 1] == [items[0]] + items[1..][..j];
      j + 1
  }

  /** Dropping the element at `k` takes exactly one copy of it out of the multiset. */
  lemma DropAt(items: seq<Json>, k: nat)
    requires k < |items|
    ensures multiset(items[..k] + items[k + 1..]) == multiset(items) - multiset{items[k]}
  {
    assert items == items[..k] + [items[k]] + items[k + 1..];
  }

  /** Dropping index `j` of the tail, then putting the head back, drops index `j + 1`. */
  lemma DropAfterHead(items: seq<Json>, j: nat, rest: seq<Json>)
    requires 0 < |items| && j < |items| - 1
    requires rest == items[1..][..j] + items[1..][j + 1..]
    ensures [items[0]] + rest == items[..j + 1] + items[j + 2..]
  {
    assert items[..j + 1] == [items[0]] + items[1..][..j];
    assert items[j + 2..] == items[1..][j + 1..];
  }

  /**
   * Removes the first element equal to `v` (`List.remove(Object)`); the
   * others keep their order.
   */
  function RemoveFirst(items: seq<Json>, v: Json): (r: seq<Json>)
    ensures v !in items ==> r == items
    ensures v in items ==> r == items[..FirstIndexOf(items, v)] + items[FirstIndexOf(items, v) + 1..]
    ensures v in items ==> |r| == |items| - 1 && multiset(r) == multiset(items) - multiset{v}
  {
    if items == [] then []
    else if items[0] == v then
      assert items == [items[0]] + items[1..];
      DropAt(items, 0);
      items[1..]
    else
      assert items == [items[0]] + items[1..];
      var rest := RemoveFirst(items[1..], v);
      if v in items then
        var j := FirstIndexOf(items[1..], v);
        assert FirstIndexOf(items, v) == j + 1;
        DropAfterHead(items, j, rest);
        DropAt(items, j + 1);
        [items[0]] + rest
      else
        [items[0]] + rest
  }

  class JsonArray {
    /** The `ArrayList` of elements. */
    var items: seq<Json>

    constructor()
      ensures items == []
    {
      items := [];
    }

    /** `add(value)` for every value type, `addNullValue()` with `Null`. */
    method Add(v: Json)
      modifies this
      ensures items == old(items) + [v]
    {
      items := items + [v];
    }

    method AddNullValue()
      modifies this
      ensures items == old(items) + [Null]
    {
      Add(Null);
    }

    /** `remove(value)`: whether an equal element was there to remove. */
    method Remove(v: Json) returns (removed: bool)
      modifies this
      ensures removed <==> v in old(items)
      ensures items == RemoveFirst(old(items), v)
    {
      removed := v in items;
      items := RemoveFirst(items, v);
    }

    /** `get(index)`; `None` where Java throws `IndexOutOfBoundsException`. */
    function Get(index: int): (r: Option<Json>)
      reads this
      ensures r.None? <==> index < 0 || Size() <= index
      ensures r.Some? ==> r.value == items[index]
    {
      if 0 <= index < |items| then Some(items[index]) else None
    }

    function Size(): nat
      reads this
    {
      |items|
    }

    method ToString(f: Format, addLeadingTab: string -> string) returns (r: string)
      ensures r == ArrayText(items, f, addLeadingTab)
    {
      if |items| > 0 {
        var isFirstItem := true;
        var delimiter := "," + f.separator;
        // the elements as appended after the opening `[` and separator
        var body := "";
        var i := 0;
        while i < |items|
          invariant 0 <= i <= |items|
          invariant isFirstItem <==> i == 0
          invariant body == Join(ValueTexts(items[..i], f, addLeadingTab), delimiter)
        {
          if !isFirstItem {
            body := body + delimiter;
          }
          body := body + ValueText(items[i], f, addLeadingTab);
          isFirstItem := false;
          ValueTextsStep(items, i, f, addLeadingTab);
          i := i + 1;
        }
        assert items[..i] == items;
        r := "[" + f.separator + body + f.separator + "]";
      } else {
        r := "[]";
      }
    }

    /** `parse(jsonData, startIndex)`: replaces the elements by those read and
        returns the index of the closing `]`. */
    method Parse(data: seq<char>, start: nat) returns (r: Result<nat, ParseError>)
      modifies this
      ensures ParsedAs(ArrayScan(data, start, ArrayStart), r, items)
      decreases |data| - start, 1
    {
      items := [];
      var prev := ' ';
      var quoted: Option<string> := None;
      var unquoted: Option<string> := None;
      var value: Option<Json> := None;
      var index := start;
      while index < |data|
        invariant start <= index
        invariant ArrayScan(data, index, ArrayScanState(prev, quoted, unquoted, value, items))
               == ArrayScan(data, start, ArrayStart)
        decreases |data| - index
      {
        ghost var st := ArrayScanState(prev, quoted, unquoted, value, items);
        var c := data[index];
        ghost var act := ArrayCharStep(st, c, index);
        if c == '\\' {
          if quoted.None? {
            assert act == ArrayFail(UnexpectedChar(c, index));
            return Failure(UnexpectedChar(c, index));
          }
        } else if quoted.Some? {
          if c == '"' && prev != '\\' {
            value := Some(Str(quoted.value));
            quoted := None;
          } else {
            quoted := Some(Extend(quoted.value, prev, c));
          }
        } else if IsWhitespace(c) {
          // whitespace outside values
        } else if c == ':' {
          assert act == ArrayFail(UnexpectedChar(c, index));
          return Failure(UnexpectedChar(c, index));
        } else if c == ',' || c == ']' {
          if value.Some? || unquoted.Some? {
            if unquoted.Some? {
              var coerced := Coerce(unquoted.value);
              if coerced.Failure? {
                assert act == ArrayFail(coerced.error);
                return Failure(coerced.error);
              }
              value := Some(coerced.value);
              unquoted := None;
            }
            Add(value.value);
            value := None;
          } else if c == ',' {
            assert act == ArrayFail(UnexpectedChar(c, index));
            return Failure(UnexpectedChar(c, index));
          }
          if c == ']' {
            assert act == ArrayClose(items);
            return Success(index);
          }
        } else if c == '[' {
          var nested := ParseNested(data, index, false);
          if nested.Failure? {
            return Failure(nested.error);
          }
          ArrayScanNested(data, index, st, nested.value.1, nested.value.0);
          index := nested.value.1;
          value := Some(nested.value.0);
        } else if c == '{' {
          var nested := ParseNested(data, index, true);
          if nested.Failure? {
            return Failure(nested.error);
          }
          ArrayScanNested(data, index, st, nested.value.1, nested.value.0);
          index := nested.value.1;
          value := Some(nested.value.0);
        } else if c == '}' {
          assert act == ArrayFail(UnexpectedChar(c, index));
          return Failure(UnexpectedChar(c, index));
        } else if c == '"' {
          quoted := Some("");
        } else {
          var u := (if unquoted.Some? then unquoted.value else "") + [c];
          if !IsValidUnfinishedJsonValue(u) {
            assert act == ArrayFail(UnexpectedChar(c, index));
            return Failure(UnexpectedChar(c, index));
          }
          unquoted := Some(u);
        }
        if c != '{' && c != '[' {
          assert act == ArrayNext(ArrayScanState(c, quoted, unquoted, value, items));
        }
        prev := c;
        index := index + 1;
      }
      return Failure(Unclosed);
    }
  }
  /** What the nested `parse` of an object or array opened at `index`
      yields: the value read and the index of its closing bracket. */
  function NestedScan(data: seq<char>, index: nat, opensObject: bool): Result<(Json, nat), ParseError>
  {
    if opensObject then
      match ObjectScan(data, index + 1, ObjectStart)
      case Success(p) => Success((Obj(p.0), p.1))
      case Failure(e) => Failure(e)
    else
      match ArrayScan(data, index + 1, ArrayStart)
      case Success(p) => Success((Arr(p.0), p.1))
      case Failure(e) => Failure(e)
  }

  /** The nested object or array of both `parse` methods: a new `JsonObject`
      or `JsonArray` parses from the character after its bracket. */
  method ParseNested(data: seq<char>, index: nat, opensObject: bool) returns (r: Result<(Json, nat), ParseError>)
    requires index < |data|
    ensures r == NestedScan(data, index, opensObject)
    decreases |data| - index, 0
  {
    if opensObject {
      var nested := new JsonObject();
      var end := nested.Parse(data, index + 1);
      if end.Failure? {
        return Failure(end.error);
      }
      r := Success((Obj(nested.members), end.value));
    } else {
      var nested := new JsonArray();
      var end := nested.Parse(data, index + 1);
      if end.Failure? {
        return Failure(end.error);
      }
      r := Success((Arr(nested.items), end.value));
    }
  }
}
