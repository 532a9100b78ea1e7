/** `JsonReader`: the strict streaming reader. It pulls characters one at a
    time, may push one character back (`reuseChar`), and keeps a stack of the
    containers and property keys that are open. The input stream is a
    sequence of characters and a position in it. */
module JsonReader {
  import opened Wrappers
  import opened Text
  import opened JsonValues
  import opened JsonScalars
  import JsonTree

  /** `JsonReader.JsonToken`. On the stack only the three "open" kinds occur. */
  datatype Token = ObjectOpen | PropertyKey | ObjectClose | ArrayOpen | ArrayClose | SimpleValue

  /** The exceptions the reader raises. `EmptyStack` is the
      `EmptyStackException` of `Stack.peek`/`Stack.pop`. */
  datatype ReadError =
    | PrematureEnd
    | InvalidData(at: nat)
    | EmptyStack
    | NotInitialized
    | AlreadyInitialized
    | NoRootContainer
    | UnexpectedToken(token: Token, at: nat)
    | InvalidReadPosition(at: nat)
    | NumberFormat(text: string)

  /** The reader's fields: characters read so far (`readCharacters`, which is
      also the stream position), `currentChar`, `reuseChar`, `currentObject`
      (`Null` for Java's `null`), the `openJsonItems` stack with its top last,
      and whether the input reader was created. */
  datatype ReaderState = ReaderState(
    pos: nat,
    cur: char,
    reuse: Option<char>,
    current: Json,
    stack: seq<Token>,
    initialized: bool)

  const Fresh := ReaderState(0, ' ', None, Null, [], false)

  /** Every call consumes input or the pushed-back character: twice the input
      left plus one for a pushed-back character shrinks with each token. */
  function Measure(input: seq<char>, st: ReaderState): nat
  {
    2 * (if st.pos <= |input| then |input| - st.pos else 0) + (if st.reuse.Some? then 1 else 0)
  }

  function Top(stack: seq<Token>): Token
    requires |stack| > 0
  {
    stack[|stack| - 1]
  }

  function Pop(stack: seq<Token>): seq<Token>
    requires |stack| > 0
  {
    stack[..|stack| - 1]
  }

  /** A pending property key sits only on top of the stack, directly above
      its object. */
  predicate WellFormedStack(stack: seq<Token>)
  {
    && (forall i :: 0 <= i < |stack| ==> stack[i] in {ObjectOpen, ArrayOpen, PropertyKey})
    && (forall i :: 0 <= i < |stack| - 1 ==> stack[i] != PropertyKey)
    && (|stack| > 0 && Top(stack) == PropertyKey ==> |stack| >= 2 && stack[|stack| - 2] == ObjectOpen)
  }

  // ---------------------------------------------------------------------
  // The character-level helpers
  // ---------------------------------------------------------------------

  /** `readNextNonWhitespace`: the first non-whitespace character from `pos`
      on and the position after it. */
  function SkipWhitespace(input: seq<char>, pos: nat): (r: Result<(char, nat), ReadError>)
    ensures r.Success? ==>
      && pos < r.value.1 <= |input|
      && r.value.0 == input[r.value.1 - 1]
      && !IsWhitespace(r.value.0)
      && (forall j :: pos <= j < r.value.1 - 1 ==> IsWhitespace(input[j]))
    ensures r.Failure? ==> r.error == PrematureEnd && forall j :: pos <= j < |input| ==> IsWhitespace(input[j])
    decreases |input| - pos
  {
    if pos >= |input| then Failure(PrematureEnd)
    else if !IsWhitespace(input[pos]) then Success((input[pos], pos + 1))
    else SkipWhitespace(input, pos + 1)
  }

  /** `readQuotedText` from `pos`, after the opening quote: a backslash makes
      the next character literal and only an unescaped `"` ends the text.
      Running out of input is a premature end. */
  function QuotedText(input: seq<char>, pos: nat, escape: bool, text: string): (r: Result<(string, nat), ReadError>)
    ensures r.Success? ==> pos < r.value.1 <= |input| && input[r.value.1 - 1] == '"'
    decreases |input| - pos
  {
    if pos >= |input| then Failure(PrematureEnd)
    else
      var c := input[pos];
      if c == '"' && !escape then Success((text, pos + 1))
      else if c == '\\' && !escape then QuotedText(input, pos + 1, true, text)
      else QuotedText(input, pos + 1, false, text + [c])
  }

  /** `readUpToNext(end1, end2)` from `pos`: the characters read, the end
      character included, and the position after it. */
  function UpToNext(input: seq<char>, pos: nat, end1: char, end2: char, text: string): (r: Result<(string, nat), ReadError>)
    ensures r.Success? ==>
      && pos < r.value.1 <= |input|
      && |r.value.0| == |text| + (r.value.1 - pos)
      && r.value.0[..|text|] == text
      && r.value.0[|r.value.0| - 1] == input[r.value.1 - 1]
      && (input[r.value.1 - 1] == end1 || input[r.value.1 - 1] == end2)
      && (forall j :: pos <= j < r.value.1 - 1 ==> input[j] != end1 && input[j] != end2)
    decreases |input| - pos
  {
    if pos >= |input| then Failure(PrematureEnd)
    else
      var c := input[pos];
      if c == end1 || c == end2 then Success((text + [c], pos + 1))
      else UpToNext(input, pos + 1, end1, end2, text + [c])
  }

  /** `readSimpleJsonValue`: text outside the literals and the number pattern
      is invalid data at the current character count; text the pattern admits
      but the number constructor refuses raises the constructor's
      `NumberFormatException`, which carries no index. */
  function SimpleValueAt(valueString: string, at: nat): (r: Result<Json, ReadError>)
    ensures r.Success? <==> SimpleJsonValue(valueString).Success?
    ensures r.Success? ==> r.value == SimpleJsonValue(valueString).value
    ensures r.Failure? ==>
      r.error == if NumberPattern(valueString) then NumberFormat(valueString) else InvalidData(at)
  {
    match SimpleJsonValue(valueString)
    case Success(v) => Success(v)
    case Failure(NotAValue(_)) => Failure(InvalidData(at))
    case Failure(BadNumber(t)) => Failure(NumberFormat(t))
  }

  /** Three scalars: a small integer arrives as an `Integer`, an exponent
      without `.` is refused by `new Long`, and a word is invalid data. */
  lemma SimpleValueExamples(at: nat)
    ensures SimpleValueAt("42", at) == Success(Number(Narrow(42)))
    ensures SimpleValueAt("1e5", at) == Failure(NumberFormat("1e5"))
    ensures SimpleValueAt("x", at) == Failure(InvalidData(at))
  {
    SmallIntegerWidths();
    ExponentWithoutDotFails();
    assert "1e5"[..2] == "1e" && "1e"[..1] == "1" && "1"[..0] == [];
    assert "x"[..0] == [];
    assert !NumberPattern("x");
  }

  // ---------------------------------------------------------------------
  // readNextToken
  // ---------------------------------------------------------------------

  /** The first part of `readNextToken`: take the pushed-back character, or
      read the next non-whitespace one, stepping over one `,` (allowed
      directly inside an open object or array) or one `:` (allowed after a
      property key). */
  function FetchChar(input: seq<char>, st: ReaderState): (r: Result<ReaderState, ReadError>)
    requires st.pos <= |input|
    ensures r.Success? ==>
      && r.value.pos <= |input|
      && r.value.reuse.None?
      && Measure(input, r.value) < Measure(input, st)
      && r.value == st.(pos := r.value.pos, cur := r.value.cur, reuse := None)
  {
    if st.reuse.Some? then Success(st.(cur := st.reuse.value, reuse := None))
    else
      var first :- SkipWhitespace(input, st.pos);
      var st1 := st.(cur := first.0, pos := first.1);
      if first.0 == ',' then
        if |st.stack| == 0 then Failure(EmptyStack)
        else if Top(st.stack) != ObjectOpen && Top(st.stack) != ArrayOpen then Failure(InvalidData(first.1))
        else
          var second :- SkipWhitespace(input, first.1);
          Success(st1.(cur := second.0, pos := second.1))
      else if first.0 == ':' then
        if |st.stack| == 0 then Failure(EmptyStack)
        else if Top(st.stack) != PropertyKey then Failure(InvalidData(first.1))
        else
          var second :- SkipWhitespace(input, first.1);
          Success(st1.(cur := second.0, pos := second.1))
      else Success(st1)
  }

  /** `{` or `[`: a pending property key is replaced by the new container. */
  function OpenFrame(stack: seq<Token>, frame: Token): seq<Token>
  {
    (if |stack| > 0 && Top(stack) == PropertyKey then Pop(stack) else stack) + [frame]
  }

  /** The `switch` of `readNextToken` on the current character. */
  function Dispatch(input: seq<char>, st: ReaderState): (r: Result<(Token, ReaderState), ReadError>)
    requires st.pos <= |input| && st.reuse.None? && st.current == Null
    ensures r.Success? ==> r.value.1.pos <= |input| && Measure(input, r.value.1) <= Measure(input, st)
    ensures r.Success? ==> r.value.1.initialized == st.initialized
  {
    match st.cur
    case '{' => Success((ObjectOpen, st.(stack := OpenFrame(st.stack, ObjectOpen))))
    case '[' => Success((ArrayOpen, st.(stack := OpenFrame(st.stack, ArrayOpen))))
    case '}' =>
      if |st.stack| == 0 then Failure(EmptyStack)
      else if Top(st.stack) != ObjectOpen then Failure(InvalidData(st.pos))
      else Success((ObjectClose, st.(stack := Pop(st.stack))))
    case ']' =>
      if |st.stack| == 0 then Failure(EmptyStack)
      else if Top(st.stack) != ArrayOpen then Failure(InvalidData(st.pos))
      else Success((ArrayClose, st.(stack := Pop(st.stack))))
    case '"' => QuotedToken(input, st)
    case _ => UnquotedToken(input, st)
  }

  /** A quoted text: the value of a pending key, a new property key directly
      inside an object, or an array element. */
  function QuotedToken(input: seq<char>, st: ReaderState): (r: Result<(Token, ReaderState), ReadError>)
    requires st.pos <= |input| && st.reuse.None?
    ensures r.Success? ==> r.value.1.pos <= |input| && Measure(input, r.value.1) <= Measure(input, st)
    ensures r.Success? ==> r.value.1.initialized == st.initialized
  {
    var quoted :- QuotedText(input, st.pos, false, "");
    var st1 := st.(current := Str(quoted.0), pos := quoted.1);
    if |st.stack| == 0 then Failure(EmptyStack)
    else if Top(st.stack) == PropertyKey then Success((SimpleValue, st1.(stack := Pop(st.stack))))
    else if Top(st.stack) == ObjectOpen then Success((PropertyKey, st1.(stack := st.stack + [PropertyKey])))
    else Success((SimpleValue, st1))
  }

  /** An unquoted value, read up to the next `,` or the closer of the
      enclosing container (`}` after a key, `]` otherwise). */
  function UnquotedToken(input: seq<char>, st: ReaderState): (r: Result<(Token, ReaderState), ReadError>)
    requires st.pos <= |input| && st.reuse.None?
    ensures r.Success? ==> r.value.1.pos <= |input| && Measure(input, r.value.1) <= Measure(input, st)
    ensures r.Success? ==> r.value.1.initialized == st.initialized
  {
    if |st.stack| == 0 then Failure(EmptyStack)
    else
      var closer := if Top(st.stack) == PropertyKey then '}' else ']';
      var raw :- UpToNext(input, st.pos, ',', closer, "");
      ValueToken(st.(pos := raw.1), raw.0, closer)
  }

  /** The raw text read, its end character included: the current character
      and the trimmed text before the end character make the value, and a
      closer is pushed back to be read as the next token. */
  function ValueToken(st: ReaderState, raw: string, closer: char): (r: Result<(Token, ReaderState), ReadError>)
    requires |raw| > 0 && |st.stack| > 0 && 0 < st.pos && st.reuse.None?
    ensures r.Success? ==> r.value.1.pos == st.pos && r.value.1.initialized == st.initialized
    ensures r.Success? ==> (r.value.1.reuse.Some? <==> raw[|raw| - 1] == closer)
  {
    var v :- SimpleValueAt([st.cur] + Trim(raw[..|raw| - 1]), st.pos);
    var reuse := if raw[|raw| - 1] == closer then Some(closer) else None;
    var stack := if Top(st.stack) == PropertyKey then Pop(st.stack) else st.stack;
    Success((SimpleValue, st.(current := v, reuse := reuse, stack := stack)))
  }

  /** `readNextToken`. */
  function NextToken(input: seq<char>, st: ReaderState): (r: Result<(Token, ReaderState), ReadError>)
    requires st.pos <= |input|
    ensures r.Success? ==> r.value.1.pos <= |input| && Measure(input, r.value.1) < Measure(input, st)
    ensures r.Success? ==> r.value.1.initialized
  {
    var st1 :- FetchChar(input, st.(initialized := true));
    Dispatch(input, st1.(current := Null))
  }

  // ---------------------------------------------------------------------
  // readJsonObject, readJsonArray, readNextJsonItem, read
  // ---------------------------------------------------------------------

  /** The value that follows a property key or sits in an array, given the
      token that starts it; `None` for a token that cannot start a value. */
  function ValueAfter(input: seq<char>, st: ReaderState, token: Token): (r: Option<Result<(Json, ReaderState), ReadError>>)
    requires st.pos <= |input|
    ensures r.Some? && r.value.Success? ==> r.value.value.1.pos <= |input| && Measure(input, r.value.value.1) <= Measure(input, st)
    decreases Measure(input, st), 2
  {
    match token
    case ArrayOpen =>
      Some(var a :- ReadArray(input, st); Success((Arr(a.0), a.1)))
    case ObjectOpen =>
      Some(var o :- ReadObject(input, st); Success((Obj(o.0), o.1)))
    case SimpleValue => Some(Success((st.current, st)))
    case _ => None
  }

  /** `readJsonObject`: the properties of the object whose `{` is current. */
  function ReadObject(input: seq<char>, st: ReaderState): (r: Result<(seq<Member>, ReaderState), ReadError>)
    requires st.pos <= |input|
    ensures r.Success? ==> r.value.1.pos <= |input| && Measure(input, r.value.1) < Measure(input, st)
    decreases Measure(input, st), 1
  {
    if st.cur != '{' then Failure(InvalidReadPosition(st.pos))
    else
      var first :- NextToken(input, st);
      ObjectLoop(input, first.1, first.0, [])
  }

  /** The `while` loop of `readJsonObject`, with the token just read. */
  function ObjectLoop(input: seq<char>, st: ReaderState, token: Token, members: seq<Member>): (r: Result<(seq<Member>, ReaderState), ReadError>)
    requires st.pos <= |input|
    ensures r.Success? ==> r.value.1.pos <= |input| && Measure(input, r.value.1) <= Measure(input, st)
    decreases Measure(input, st), 3
  {
    if token == ObjectClose then Success((members, st))
    else if token == PropertyKey && st.current.Str? then
      var key := st.current.s;
      var next :- NextToken(input, st);
      match ValueAfter(input, next.1, next.0)
      case None => Failure(UnexpectedToken(next.0, next.1.pos))
      case Some(value) =>
        var v :- value;
        var after :- NextToken(input, v.1);
        ObjectLoop(input, after.1, after.0, AddMember(members, key, v.0))
    else Failure(UnexpectedToken(token, st.pos))
  }

  /** `readJsonArray`: the elements of the array whose `[` is current. */
  function ReadArray(input: seq<char>, st: ReaderState): (r: Result<(seq<Json>, ReaderState), ReadError>)
    requires st.pos <= |input|
    ensures r.Success? ==> r.value.1.pos <= |input| && Measure(input, r.value.1) < Measure(input, st)
    decreases Measure(input, st), 1
  {
    if st.cur != '[' then Failure(InvalidReadPosition(st.pos))
    else
      var first :- NextToken(input, st);
      if first.0 in {ArrayClose, ObjectOpen, ArrayOpen, SimpleValue} then ArrayLoop(input, first.1, first.0, [])
      else Failure(UnexpectedToken(first.0, first.1.pos))
  }

  /** The `while` loop of `readJsonArray`; a token that cannot start a value
      is passed over. */
  function ArrayLoop(input: seq<char>, st: ReaderState, token: Token, items: seq<Json>): (r: Result<(seq<Json>, ReaderState), ReadError>)
    requires st.pos <= |input|
    ensures r.Success? ==> r.value.1.pos <= |input| && Measure(input, r.value.1) <= Measure(input, st)
    decreases Measure(input, st), 3
  {
    if token == ArrayClose then Success((items, st))
    else
      match ValueAfter(input, st, token)
      case None =>
        var next :- NextToken(input, st);
        ArrayLoop(input, next.1, next.0, items)
      case Some(value) =>
        var v :- value;
        var next :- NextToken(input, v.1);
        ArrayLoop(input, next.1, next.0, items + [v.0])
  }

  /** `readNextJsonItem`: `true` with the item as current object, or `false`
      at a container's end, which is left to be read again. */
  function NextItem(input: seq<char>, st: ReaderState): (r: Result<(bool, ReaderState), ReadError>)
    requires st.pos <= |input|
    ensures r.Success? ==> r.value.1.pos <= |input|
  {
    if !st.initialized then Failure(NotInitialized)
    else
      var t :- NextToken(input, st);
      var st1 := t.1;
      match t.0
      case ObjectOpen =>
        var o :- ReadObject(input, st1);
        Success((true, o.1.(current := Obj(o.0))))
      case ArrayOpen =>
        var a :- ReadArray(input, st1);
        Success((true, a.1.(current := Arr(a.0))))
      case SimpleValue => Success((true, st1))
      case ObjectClose => Success((false, st1.(reuse := Some(st1.cur), stack := st1.stack + [ObjectOpen])))
      case ArrayClose => Success((false, st1.(reuse := Some(st1.cur), stack := st1.stack + [ArrayOpen])))
      case PropertyKey => Failure(InvalidData(st1.pos))
  }

  /** `read`: the whole document, which must be an object or an array, read
      as the first action on the reader. */
  function ReadDocument(input: seq<char>, st: ReaderState): (r: Result<(Json, ReaderState), ReadError>)
    requires st.pos <= |input|
    ensures r.Success? ==> r.value.0.Obj? || r.value.0.Arr?
  {
    if st.initialized then Failure(AlreadyInitialized)
    else
      var t :- NextToken(input, st);
      if t.0 == ObjectOpen then
        var o :- ReadObject(input, t.1);
        Success((Obj(o.0), o.1))
      else if t.0 == ArrayOpen then
        var a :- ReadArray(input, t.1);
        Success((Arr(a.0), a.1))
      else Failure(NoRootContainer)
  }

  // ---------------------------------------------------------------------
  // Properties of the token stream
  // ---------------------------------------------------------------------

  /** How a token leaves the stack of open items: an opening bracket
      replaces a pending key and is pushed, a closing bracket pops its own
      opener, a quoted text directly in an object becomes a pending key, and a
      value consumes a pending key. Only a value read unquoted pushes back a
      character, the closer of its container. */
  ghost predicate StackEffect(stack: seq<Token>, token: Token, s: ReaderState)
  {
    && (token == ObjectOpen ==> s.stack == OpenFrame(stack, ObjectOpen))
    && (token == ArrayOpen ==> s.stack == OpenFrame(stack, ArrayOpen))
    && (token == Token.ObjectClose ==> |stack| > 0 && Top(stack) == ObjectOpen && s.stack == Pop(stack))
    && (token == Token.ArrayClose ==> |stack| > 0 && Top(stack) == ArrayOpen && s.stack == Pop(stack))
    && (token == PropertyKey ==> |stack| > 0 && Top(stack) == ObjectOpen && s.stack == stack + [PropertyKey] && s.current.Str?)
    && (token == SimpleValue ==> |stack| > 0 && s.stack == if Top(stack) == PropertyKey then Pop(stack) else stack)
    && (s.reuse.Some? ==> token == SimpleValue && s.reuse.value == if Top(stack) == PropertyKey then '}' else ']')
  }

  lemma ValueTokenStack(st: ReaderState, raw: string, closer: char)
    requires |raw| > 0 && |st.stack| > 0 && 0 < st.pos && st.reuse.None?
    requires closer == if Top(st.stack) == PropertyKey then '}' else ']'
    requires ValueToken(st, raw, closer).Success?
    ensures StackEffect(st.stack, ValueToken(st, raw, closer).value.0, ValueToken(st, raw, closer).value.1)
  {
  }

  lemma QuotedTokenStack(input: seq<char>, st: ReaderState)
    requires st.pos <= |input| && st.reuse.None? && QuotedToken(input, st).Success?
    ensures StackEffect(st.stack, QuotedToken(input, st).value.0, QuotedToken(input, st).value.1)
  {
  }

  lemma UnquotedTokenStack(input: seq<char>, st: ReaderState)
    requires st.pos <= |input| && st.reuse.None? && UnquotedToken(input, st).Success?
    ensures StackEffect(st.stack, UnquotedToken(input, st).value.0, UnquotedToken(input, st).value.1)
  {
    var closer := if Top(st.stack) == PropertyKey then '}' else ']';
    var raw := UpToNext(input, st.pos, ',', closer, "").value;
    ValueTokenStack(st.(pos := raw.1), raw.0, closer);
  }

  lemma DispatchStack(input: seq<char>, st: ReaderState)
    requires st.pos <= |input| && st.reuse.None? && st.current == Null && Dispatch(input, st).Success?
    ensures StackEffect(st.stack, Dispatch(input, st).value.0, Dispatch(input, st).value.1)
  {
    if st.cur == '"' {
      QuotedTokenStack(input, st);
    } else if st.cur !in "{}[]" {
      UnquotedTokenStack(input, st);
    }
  }

  /** Every token of `readNextToken` has its `StackEffect`. */
  lemma NextTokenStack(input: seq<char>, st: ReaderState)
    requires st.pos <= |input| && NextToken(input, st).Success?
    ensures StackEffect(st.stack, NextToken(input, st).value.0, NextToken(input, st).value.1)
  {
    var st1 := FetchChar(input, st.(initialized := true)).value;
    DispatchStack(input, st1.(current := Null));
  }

  /** The stack effect of a token keeps the stack well formed: a pending key
      is only ever on top, directly above its object. */
  lemma StackEffectKeepsWellFormed(stack: seq<Token>, token: Token, s: ReaderState)
    requires WellFormedStack(stack) && StackEffect(stack, token, s)
    ensures WellFormedStack(s.stack)
  {
    if |stack| > 0 {
      var below := Pop(stack);
      assert forall i :: 0 <= i < |below| ==> below[i] == stack[i];
      if token == ObjectOpen || token == ArrayOpen {
        var base := if Top(stack) == PropertyKey then below else stack;
        assert forall i :: 0 <= i < |base| ==> base[i] == stack[i];
        assert s.stack == base + [if token == ObjectOpen then ObjectOpen else ArrayOpen];
      } else if token == PropertyKey {
        assert forall i :: 0 <= i < |stack| ==> s.stack[i] == stack[i];
      }
    }
  }

  /** Reading a token keeps the stack well formed. */
  lemma NextTokenKeepsStackWellFormed(input: seq<char>, st: ReaderState)
    requires st.pos <= |input| && WellFormedStack(st.stack) && NextToken(input, st).Success?
    ensures WellFormedStack(NextToken(input, st).value.1.stack)
  {
    NextTokenStack(input, st);
    StackEffectKeepsWellFormed(st.stack, NextToken(input, st).value.0, NextToken(input, st).value.1);
  }

  /** A `,` is only allowed directly inside an object or an array: after a
      pending key, or with nothing open, it is an error. */
  lemma CommaNeedsOpenContainer(input: seq<char>, st: ReaderState, p: nat)
    requires st.pos <= |input| && st.reuse.None? && SkipWhitespace(input, st.pos) == Success((',', p))
    ensures |st.stack| == 0 ==> NextToken(input, st) == Failure(EmptyStack)
    ensures |st.stack| > 0 && Top(st.stack) != ObjectOpen && Top(st.stack) != ArrayOpen ==>
      NextToken(input, st) == Failure(InvalidData(p))
  {
  }

  /** A `:` is only allowed after a property key. */
  lemma ColonNeedsPropertyKey(input: seq<char>, st: ReaderState, p: nat)
    requires st.pos <= |input| && st.reuse.None? && SkipWhitespace(input, st.pos) == Success((':', p))
    ensures |st.stack| == 0 ==> NextToken(input, st) == Failure(EmptyStack)
    ensures |st.stack| > 0 && Top(st.stack) != PropertyKey ==> NextToken(input, st) == Failure(InvalidData(p))
  {
  }

  /** A closing bracket always pops the opener of its own kind: a mismatched
      or unopened one is an error. */
  lemma CloseNeedsItsOpener(input: seq<char>, st: ReaderState)
    requires st.pos <= |input| && st.reuse == Some('}')
    ensures |st.stack| == 0 ==> NextToken(input, st) == Failure(EmptyStack)
    ensures |st.stack| > 0 && Top(st.stack) != ObjectOpen ==> NextToken(input, st) == Failure(InvalidData(st.pos))
    ensures |st.stack| > 0 && Top(st.stack) == ObjectOpen ==>
      NextToken(input, st) == Success((Token.ObjectClose, st.(cur := '}', reuse := None, current := Null, initialized := true, stack := Pop(st.stack))))
  {
  }

  /** When `readNextJsonItem` meets the end of a container it puts the end
      back: the next token read is that same end, with the same state. */
  lemma NextItemCloseReplays(input: seq<char>, st: ReaderState)
    requires st.pos <= |input| && NextItem(input, st).Success? && !NextItem(input, st).value.0
    ensures NextToken(input, NextItem(input, st).value.1) == NextToken(input, st)
  {
    var (token, s) := NextToken(input, st).value;
    var st1 := FetchChar(input, st.(initialized := true)).value;
    assert Dispatch(input, st1.(current := Null)) == Success((token, s));
    if token == Token.ObjectClose {
      assert st1.cur == '}';
      assert s == st1.(current := Null, stack := Pop(st1.stack));
      assert s.stack + [ObjectOpen] == st1.stack;
    } else {
      assert token == Token.ArrayClose;
      assert st1.cur == ']';
      assert s == st1.(current := Null, stack := Pop(st1.stack));
      assert s.stack + [ArrayOpen] == st1.stack;
    }
  }

  /** Reading a whole object, with its `{` already on the stack above
      `below`, leaves exactly `below`: every nested container and every
      property key opened inside it is closed again. */
  lemma {:induction false} ReadObjectBalanced(input: seq<char>, st: ReaderState, below: seq<Token>)
    requires st.pos <= |input| && st.stack == below + [ObjectOpen]
    requires ReadObject(input, st).Success?
    ensures ReadObject(input, st).value.1.stack == below
    decreases Measure(input, st), 2
  {
    ObjectLoopBalanced(input, st, below, []);
  }

  /** The object loop from the token read in state `prev`, whose stack is
      `below` and the object's `{`. */
  lemma {:induction false} ObjectLoopBalanced(input: seq<char>, prev: ReaderState, below: seq<Token>, ms: seq<Member>)
    requires prev.pos <= |input| && prev.stack == below + [ObjectOpen]
    requires NextToken(input, prev).Success?
    requires ObjectLoop(input, NextToken(input, prev).value.1, NextToken(input, prev).value.0, ms).Success?
    ensures ObjectLoop(input, NextToken(input, prev).value.1, NextToken(input, prev).value.0, ms).value.1.stack == below
    decreases Measure(input, prev), 1
  {
    var (token, st) := NextToken(input, prev).value;
    NextTokenStack(input, prev);
    assert Pop(prev.stack) == below;
    if token != Token.ObjectClose {
      assert token == PropertyKey && st.current.Str?;
      assert st.stack == below + [ObjectOpen, PropertyKey];
      var next := NextToken(input, st).value;
      NextTokenStack(input, st);
      assert Pop(st.stack) == below + [ObjectOpen];
      var v := ValueAfter(input, next.1, next.0).value.value;
      ValueBalanced(input, next.1, next.0, below + [ObjectOpen]);
      ObjectLoopBalanced(input, v.1, below, AddMember(ms, st.current.s, v.0));
    }
  }

  /** A value started by `token`: an object or array leaves its opener's
      stack without the opener, a simple value leaves the stack as it is. */
  lemma {:induction false} ValueBalanced(input: seq<char>, st: ReaderState, token: Token, outer: seq<Token>)
    requires st.pos <= |input|
    requires token == ObjectOpen ==> st.stack == outer + [ObjectOpen]
    requires token == ArrayOpen ==> st.stack == outer + [ArrayOpen]
    requires token == SimpleValue ==> st.stack == outer
    requires ValueAfter(input, st, token).Some? && ValueAfter(input, st, token).value.Success?
    ensures ValueAfter(input, st, token).value.value.1.stack == outer
    decreases Measure(input, st), 3
  {
    if token == ObjectOpen {
      ReadObjectBalanced(input, st, outer);
    } else if token == ArrayOpen {
      ReadArrayBalanced(input, st, outer);
    }
  }

  /** Reading a whole array, with its `[` already on the stack above `below`,
      leaves exactly `below`. */
  lemma {:induction false} ReadArrayBalanced(input: seq<char>, st: ReaderState, below: seq<Token>)
    requires st.pos <= |input| && st.stack == below + [ArrayOpen]
    requires ReadArray(input, st).Success?
    ensures ReadArray(input, st).value.1.stack == below
    decreases Measure(input, st), 2
  {
    ArrayLoopBalanced(input, st, below, []);
  }

  /** The array loop from the token read in state `prev`, whose stack is
      `below` and the array's `[`. */
  lemma {:induction false} ArrayLoopBalanced(input: seq<char>, prev: ReaderState, below: seq<Token>, items: seq<Json>)
    requires prev.pos <= |input| && prev.stack == below + [ArrayOpen]
    requires NextToken(input, prev).Success?
    requires ArrayLoop(input, NextToken(input, prev).value.1, NextToken(input, prev).value.0, items).Success?
    ensures ArrayLoop(input, NextToken(input, prev).value.1, NextToken(input, prev).value.0, items).value.1.stack == below
    decreases Measure(input, prev), 1
  {
    var (token, st) := NextToken(input, prev).value;
    NextTokenStack(input, prev);
    assert Pop(prev.stack) == below;
    if token != Token.ArrayClose {
      match ValueAfter(input, st, token)
      case None =>
        assert false;
      case Some(value) =>
        var v := value.value;
        ValueBalanced(input, st, token, below + [ArrayOpen]);
        ArrayLoopBalanced(input, v.1, below, items + [v.0]);
    }
  }

  /** A document read by `read` from an empty stack leaves the stack empty. */
  lemma ReadDocumentBalanced(input: seq<char>, st: ReaderState)
    requires st.pos <= |input| && st.stack == [] && ReadDocument(input, st).Success?
    ensures ReadDocument(input, st).value.1.stack == []
  {
    var (token, s) := NextToken(input, st).value;
    NextTokenStack(input, st);
    if token == ObjectOpen {
      ReadObjectBalanced(input, s, []);
    } else {
      ReadArrayBalanced(input, s, []);
    }
  }

  /** The properties read into one object have distinct keys: a repeated key
      is merged into the first one's slot. */
  lemma {:induction false} ObjectLoopDistinct(input: seq<char>, st: ReaderState, token: Token, ms: seq<Member>)
    requires st.pos <= |input| && DistinctKeys(ms) && ObjectLoop(input, st, token, ms).Success?
    ensures DistinctKeys(ObjectLoop(input, st, token, ms).value.0)
    decreases Measure(input, st)
  {
    if token != Token.ObjectClose {
      var next := NextToken(input, st).value;
      var v := ValueAfter(input, next.1, next.0).value.value;
      var after := NextToken(input, v.1).value;
      AddMemberKeepsDistinct(ms, st.current.s, v.0);
      ObjectLoopDistinct(input, after.1, after.0, AddMember(ms, st.current.s, v.0));
    }
  }

  lemma ReadObjectDistinct(input: seq<char>, st: ReaderState)
    requires st.pos <= |input| && ReadObject(input, st).Success?
    ensures DistinctKeys(ReadObject(input, st).value.0)
  {
    var first := NextToken(input, st).value;
    ObjectLoopDistinct(input, first.1, first.0, []);
  }

  /** The text a quoted value must hold to be read back as `t`: every quote
      and backslash preceded by a backslash. */
  function EscapeQuoted(t: string): (e: string)
    ensures |e| >= |t|
  {
    if t == [] then []
    else (if t[0] == '"' || t[0] == '\\' then ['\\', t[0]] else [t[0]]) + EscapeQuoted(t[1..])
  }

  /** `readQuotedText` inverts `EscapeQuoted`: it returns the original text
      and stops just after the closing quote. */
  lemma {:induction false} QuotedTextUnescapes(input: seq<char>, pos: nat, t: string, text: string)
    requires pos + |EscapeQuoted(t)| < |input|
    requires input[pos..pos + |EscapeQuoted(t)| + 1] == EscapeQuoted(t) + ['"']
    ensures QuotedText(input, pos, false, text) == Success((text + t, pos + |EscapeQuoted(t)| + 1))
    decreases |t|
  {
    if t == [] {
      SliceAt(input, pos, EscapeQuoted(t) + ['"'], 0);
      assert text + t == text;
    } else {
      var next := QuotedTextPeel(input, pos, t, text);
      QuotedTextUnescapes(input, next, t[1..], text + [t[0]]);
      ConsTail(text, t);
    }
  }

  /** The first character of `t`, as escaped, read from `pos`: what is left
      is the rest of `t`, escaped, from `next`. */
  lemma QuotedTextPeel(input: seq<char>, pos: nat, t: string, text: string) returns (next: nat)
    requires t != [] && pos + |EscapeQuoted(t)| < |input|
    requires input[pos..pos + |EscapeQuoted(t)| + 1] == EscapeQuoted(t) + ['"']
    ensures next + |EscapeQuoted(t[1..])| == pos + |EscapeQuoted(t)|
    ensures input[next..next + |EscapeQuoted(t[1..])| + 1] == EscapeQuoted(t[1..]) + ['"']
    ensures QuotedText(input, pos, false, text) == QuotedText(input, next, false, text + [t[0]])
  {
    var e := EscapeQuoted(t);
    var w := e + ['"'];
    var head := if t[0] == '"' || t[0] == '\\' then ['\\', t[0]] else [t[0]];
    var rest := EscapeQuoted(t[1..]);
    assert e == head + rest;
    assert w == head + (rest + ['"']);
    next := pos + |head|;
    SliceDrop(input, pos, w, |head|);
    assert w[|head|..] == rest + ['"'];
    SliceAt(input, pos, w, 0);
    if |head| == 2 {
      SliceAt(input, pos, w, 1);
      QuotedTextStep(input, pos, text, true);
    } else {
      QuotedTextStep(input, pos, text, false);
    }
  }

  /** One character of quoted text, or a backslash and the character it
      makes literal. */
  lemma QuotedTextStep(input: seq<char>, pos: nat, text: string, escaped: bool)
    requires pos + (if escaped then 1 else 0) < |input|
    requires if escaped then input[pos] == '\\' else input[pos] != '"' && input[pos] != '\\'
    ensures var c := if escaped then input[pos + 1] else input[pos];
      var next := if escaped then pos + 2 else pos + 1;
      QuotedText(input, pos, false, text) == QuotedText(input, next, false, text + [c])
  {
  }

  lemma ConsTail(text: string, t: string)
    requires t != []
    ensures text + [t[0]] + t[1..] == text + t
  {
    assert t == [t[0]] + t[1..];
  }

  lemma SliceAt(input: seq<char>, pos: nat, w: seq<char>, k: nat)
    requires pos + |w| <= |input| && input[pos..pos + |w|] == w && k < |w|
    ensures input[pos + k] == w[k]
  {
    assert input[pos..pos + |w|][k] == input[pos + k];
  }

  lemma SliceDrop(input: seq<char>, pos: nat, w: seq<char>, k: nat)
    requires pos + |w| <= |input| && input[pos..pos + |w|] == w && k <= |w|
    ensures input[pos + k..pos + |w|] == w[k..]
  {
    assert input[pos + k..pos + |w|] == input[pos..pos + |w|][k..];
  }

  /** The document of `ReadDocumentExample` and the states its tokens
      leave the reader in. */
  const ExampleInput := "{\"a\":\"b\"}"
  const ExampleOpened := ReaderState(1, '{', None, Null, [ObjectOpen], true)
  const ExampleKeyRead := ReaderState(4, '"', None, Str("a"), [ObjectOpen, PropertyKey], true)
  const ExampleValueRead := ReaderState(8, '"', None, Str("b"), [ObjectOpen], true)
  const ExampleClosed := ReaderState(9, '}', None, Null, [], true)

  lemma ExampleOpenToken()
    ensures NextToken(ExampleInput, Fresh) == Success((ObjectOpen, ExampleOpened))
  {
    assert SkipWhitespace(ExampleInput, 0) == Success(('{', 1));
    assert FetchChar(ExampleInput, Fresh.(initialized := true)) == Success(ReaderState(1, '{', None, Null, [], true));
    assert OpenFrame([], ObjectOpen) == [ObjectOpen];
  }

  lemma ExampleKeyToken()
    ensures NextToken(ExampleInput, ExampleOpened) == Success((PropertyKey, ExampleKeyRead))
  {
    assert SkipWhitespace(ExampleInput, 1) == Success(('"', 2));
    assert QuotedText(ExampleInput, 3, false, "a") == Success(("a", 4));
    assert "" + ['a'] == "a";
    assert QuotedText(ExampleInput, 2, false, "") == Success(("a", 4));
    assert [ObjectOpen] + [PropertyKey] == [ObjectOpen, PropertyKey];
  }

  lemma ExampleValueToken()
    ensures NextToken(ExampleInput, ExampleKeyRead) == Success((SimpleValue, ExampleValueRead))
  {
    assert SkipWhitespace(ExampleInput, 4) == Success((':', 5));
    assert SkipWhitespace(ExampleInput, 5) == Success(('"', 6));
    assert QuotedText(ExampleInput, 7, false, "b") == Success(("b", 8));
    assert "" + ['b'] == "b";
    assert QuotedText(ExampleInput, 6, false, "") == Success(("b", 8));
    assert Pop([ObjectOpen, PropertyKey]) == [ObjectOpen];
  }

  lemma ExampleCloseToken()
    ensures NextToken(ExampleInput, ExampleValueRead) == Success((Token.ObjectClose, ExampleClosed))
  {
    assert SkipWhitespace(ExampleInput, 8) == Success(('}', 9));
  }

  /** A small document read by `read`: one property with a quoted key and
      a quoted value, and every item closed at the end. */
  lemma ReadDocumentExample()
    ensures ReadDocument(ExampleInput, Fresh) == Success((Obj([Member("a", Str("b"))]), ExampleClosed))
  {
    ExampleOpenToken();
    ExampleKeyToken();
    ExampleValueToken();
    ExampleCloseToken();
    assert AddMember([], "a", Str("b")) == [Member("a", Str("b"))];
    assert ValueAfter(ExampleInput, ExampleValueRead, SimpleValue) == Some(Success((Str("b"), ExampleValueRead)));
    assert ObjectLoop(ExampleInput, ExampleKeyRead, PropertyKey, []) == Success(([Member("a", Str("b"))], ExampleClosed));
  }

  // ---------------------------------------------------------------------
  // End of input inside a quoted text or an unquoted value, as written
  // ---------------------------------------------------------------------

  /** What `inputReader.read()` yields once cast to `char`: past the end the
      reader returns -1, which the cast turns into U+FFFF. */
  function CastRead(input: seq<char>, pos: nat): (c: char)
    ensures pos >= |input| ==> c as int == -1 % 0x1_0000
  {
    if pos < |input| then input[pos] else '\U{FFFF}'
  }

  /** The loop of `readQuotedText` as written, run for at most `fuel`
      characters: `None` means it is still reading. Its exit test compares
      the cast character with -1 and can never succeed. */
  function QuotedTextAsWritten(input: seq<char>, pos: nat, escape: bool, text: string, fuel: nat): Option<Result<(string, nat), ReadError>>
    decreases fuel
  {
    if fuel == 0 then None
    else
      var nextChar := CastRead(input, pos);
      if nextChar == '"' && !escape then Some(Success((text, pos + 1)))
      else if nextChar == '\\' && !escape then QuotedTextAsWritten(input, pos + 1, true, text, fuel - 1)
      else QuotedTextAsWritten(input, pos + 1, false, text + [nextChar], fuel - 1)
  }

  /** At the end of the input the loop as written never stops: however many
      characters it is allowed, it has not returned and has not thrown. */
  lemma {:induction false} QuotedTextAsWrittenHangs(input: seq<char>, pos: nat, escape: bool, text: string, fuel: nat)
    requires pos >= |input|
    ensures QuotedTextAsWritten(input, pos, escape, text, fuel) == None
    decreases fuel
  {
    if fuel > 0 {
      QuotedTextAsWrittenHangs(input, pos + 1, false, text + ['\U{FFFF}'], fuel - 1);
    }
  }

  /** Where the closing quote is present, the loop as written and `QuotedText`
      agree. */
  lemma {:induction false} QuotedTextAsWrittenAgrees(input: seq<char>, pos: nat, escape: bool, text: string, fuel: nat)
    requires QuotedText(input, pos, escape, text).Success? && fuel >= |input| - pos
    ensures QuotedTextAsWritten(input, pos, escape, text, fuel) == Some(QuotedText(input, pos, escape, text))
    decreases |input| - pos
  {
    var c := input[pos];
    if !(c == '"' && !escape) {
      if c == '\\' && !escape {
        QuotedTextAsWrittenAgrees(input, pos + 1, true, text, fuel - 1);
      } else {
        QuotedTextAsWrittenAgrees(input, pos + 1, false, text + [c], fuel - 1);
      }
    }
  }

  /** The corrected `readQuotedText` reports the premature end. */
  lemma QuotedTextPrematureEnd(input: seq<char>, pos: nat, escape: bool, text: string)
    requires forall j :: pos <= j < |input| ==> input[j] != '"'
    ensures QuotedText(input, pos, escape, text) == Failure(PrematureEnd)
    decreases |input| - pos
  {
  }

  /** The loop of `readUpToNext` as written, run for at most `fuel` characters. */
  function UpToNextAsWritten(input: seq<char>, pos: nat, end1: char, end2: char, text: string, fuel: nat): Option<Result<(string, nat), ReadError>>
    decreases fuel
  {
    if fuel == 0 then None
    else
      var nextChar := CastRead(input, pos);
      if nextChar == end1 || nextChar == end2 then Some(Success((text + [nextChar], pos + 1)))
      else UpToNextAsWritten(input, pos + 1, end1, end2, text + [nextChar], fuel - 1)
  }

  /** At the end of the input the loop as written never stops either. */
  lemma {:induction false} UpToNextAsWrittenHangs(input: seq<char>, pos: nat, end1: char, end2: char, text: string, fuel: nat)
    requires pos >= |input| && end1 != '\U{FFFF}' && end2 != '\U{FFFF}'
    ensures UpToNextAsWritten(input, pos, end1, end2, text, fuel) == None
    decreases fuel
  {
    if fuel > 0 {
      UpToNextAsWrittenHangs(input, pos + 1, end1, end2, text + ['\U{FFFF}'], fuel - 1);
    }
  }

  /** Where an end character is present, the loop as written and `UpToNext`
      agree. */
  lemma {:induction false} UpToNextAsWrittenAgrees(input: seq<char>, pos: nat, end1: char, end2: char, text: string, fuel: nat)
    requires UpToNext(input, pos, end1, end2, text).Success? && fuel >= |input| - pos
    ensures UpToNextAsWritten(input, pos, end1, end2, text, fuel) == Some(UpToNext(input, pos, end1, end2, text))
    decreases |input| - pos
  {
    var c := input[pos];
    if !(c == end1 || c == end2) {
      UpToNextAsWrittenAgrees(input, pos + 1, end1, end2, text + [c], fuel - 1);
    }
  }

  /** The corrected `readUpToNext` reports the premature end. */
  lemma UpToNextPrematureEnd(input: seq<char>, pos: nat, end1: char, end2: char, text: string)
    requires forall j :: pos <= j < |input| ==> input[j] != end1 && input[j] != end2
    ensures UpToNext(input, pos, end1, end2, text) == Failure(PrematureEnd)
    decreases |input| - pos
  {
  }

  /** An object whose last value is never closed: the reader as written is
      stuck in `readUpToNext`, the corrected reader fails. */
  lemma UnclosedValueExample()
    ensures var input := "{\"a\":1";
      && NextToken(input, ExampleKeyRead.(pos := 5, cur := ':')).Failure?
      && forall fuel: nat :: UpToNextAsWritten(input, 6, ',', '}', "", fuel) == None
  {
    var input := "{\"a\":1";
    var st := ExampleKeyRead.(pos := 5, cur := ':');
    assert SkipWhitespace(input, 5) == Success(('1', 6));
    assert UpToNext(input, 6, ',', '}', "") == Failure(PrematureEnd);
    forall fuel: nat ensures UpToNextAsWritten(input, 6, ',', '}', "", fuel) == None {
      UpToNextAsWrittenHangs(input, 6, ',', '}', "", fuel);
    }
  }

  // ---------------------------------------------------------------------
  // The reader object
  // ---------------------------------------------------------------------

  /** A method's result and new state agree with the specification's:
      the value and the state on success, the exception on failure. */
  predicate Outcome<T(==)>(spec: Result<(T, ReaderState), ReadError>, r: Result<T, ReadError>, now: ReaderState)
  {
    match spec
    case Success((v, s)) => r == Success(v) && now == s
    case Failure(e) => r == Failure(e)
  }

  class JsonReader {
    /** The decoded stream, read front to back. */
    const input: seq<char>
    var pos: nat
    var cur: char
    var reuse: Option<char>
    var current: Json
    var stack: seq<Token>
    var initialized: bool

    function State(): ReaderState
      reads this
    {
      ReaderState(pos, cur, reuse, current, stack, initialized)
    }

    ghost predicate Valid()
      reads this
    {
      pos <= |input|
    }

    constructor(input: seq<char>)
      ensures this.input == input && State() == Fresh && Valid()
    {
      this.input := input;
      pos := 0;
      cur := ' ';
      reuse := None;
      current := Null;
      stack := [];
      initialized := false;
    }

    method ReadNextNonWhitespace() returns (r: Result<char, ReadError>)
      requires Valid()
      modifies this
      ensures Valid()
      ensures match SkipWhitespace(input, old(pos))
        case Success((c, p)) => r == Success(c) && State() == old(State()).(pos := p, cur := c)
        case Failure(e) => r == Failure(e)
    {
      while pos < |input|
        invariant old(pos) <= pos <= |input|
        invariant SkipWhitespace(input, pos) == SkipWhitespace(input, old(pos))
        invariant State() == old(State()).(pos := pos, cur := cur)
        decreases |input| - pos
      {
        cur := input[pos];
        pos := pos + 1;
        if !IsWhitespace(cur) {
          return Success(cur);
        }
      }
      return Failure(PrematureEnd);
    }

    method ReadQuotedText() returns (r: Result<string, ReadError>)
      requires Valid()
      modifies this
      ensures Valid()
      ensures match QuotedText(input, old(pos), false, "")
        case Success((t, p)) => r == Success(t) && State() == old(State()).(pos := p)
        case Failure(e) => r == Failure(e)
    {
      var returnValue := "";
      var escapeNextChar := false;
      while pos < |input|
        invariant old(pos) <= pos <= |input|
        invariant QuotedText(input, pos, escapeNextChar, returnValue) == QuotedText(input, old(pos), false, "")
        invariant State() == old(State()).(pos := pos)
        decreases |input| - pos
      {
        var nextChar := input[pos];
        pos := pos + 1;
        if nextChar == '"' && !escapeNextChar {
          return Success(returnValue);
        } else if nextChar == '\\' && !escapeNextChar {
          escapeNextChar := true;
        } else {
          returnValue := returnValue + [nextChar];
          escapeNextChar := false;
        }
      }
      return Failure(PrematureEnd);
    }

    method ReadUpToNext(end1: char, end2: char) returns (r: Result<string, ReadError>)
      requires Valid()
      modifies this
      ensures Valid()
      ensures match UpToNext(input, old(pos), end1, end2, "")
        case Success((t, p)) => r == Success(t) && State() == old(State()).(pos := p)
        case Failure(e) => r == Failure(e)
    {
      var returnValue := "";
      while pos < |input|
        invariant old(pos) <= pos <= |input|
        invariant UpToNext(input, pos, end1, end2, returnValue) == UpToNext(input, old(pos), end1, end2, "")
        invariant State() == old(State()).(pos := pos)
        decreases |input| - pos
      {
        var nextChar := input[pos];
        pos := pos + 1;
        returnValue := returnValue + [nextChar];
        if nextChar == end1 || nextChar == end2 {
          return Success(returnValue);
        }
      }
      return Failure(PrematureEnd);
    }
  
    /** `readNextToken`: set up the reader, fetch the character, then switch on it. */
    method ReadNextToken() returns (r: Result<Token, ReadError>)
      requires Valid()
      modifies this
      ensures Valid()
      ensures Outcome(NextToken(input, old(State())), r, State())
    {
      initialized := true;
      var fetched := TakeNextChar();
      if fetched.Failure? {
        return Failure(fetched.error);
      }
      current := Null;
      r := SwitchOnChar();
    }

    /** The first half of `readNextToken`: the pushed-back character, or the
        next non-whitespace one past a `,` or `:` the stack allows. */
    method TakeNextChar() returns (r: Result<char, ReadError>)
      requires Valid()
      modifies this
      ensures Valid()
      ensures match FetchChar(input, old(State()))
        case Success(s) => r == Success(s.cur) && State() == s
        case Failure(e) => r == Failure(e)
    {
      if reuse.Some? {
        cur := reuse.value;
        reuse := None;
        return Success(cur);
      }
      var c :- ReadNextNonWhitespace();
      if c == ',' {
        if |stack| == 0 {
          return Failure(EmptyStack);
        } else if Top(stack) != ObjectOpen && Top(stack) != ArrayOpen {
          return Failure(InvalidData(pos));
        } else {
          c :- ReadNextNonWhitespace();
        }
      } else if c == ':' {
        if |stack| == 0 {
          return Failure(EmptyStack);
        } else if Top(stack) != PropertyKey {
          return Failure(InvalidData(pos));
        } else {
          c :- ReadNextNonWhitespace();
        }
      }
      return Success(c);
    }

    /** The `switch` of `readNextToken` on the current character. */
    method SwitchOnChar() returns (r: Result<Token, ReadError>)
      requires Valid() && reuse.None? && current == Null
      modifies this
      ensures Valid()
      ensures Outcome(Dispatch(input, old(State())), r, State())
    {
      match cur
      case '{' =>
        stack := OpenFrame(stack, ObjectOpen);
        return Success(ObjectOpen);
      case '}' =>
        if |stack| == 0 {
          return Failure(EmptyStack);
        }
        var popped := Top(stack);
        stack := Pop(stack);
        if popped != ObjectOpen {
          return Failure(InvalidData(pos));
        }
        return Success(Token.ObjectClose);
      case '[' =>
        stack := OpenFrame(stack, ArrayOpen);
        return Success(ArrayOpen);
      case ']' =>
        if |stack| == 0 {
          return Failure(EmptyStack);
        }
        var popped := Top(stack);
        stack := Pop(stack);
        if popped != ArrayOpen {
          return Failure(InvalidData(pos));
        }
        return Success(Token.ArrayClose);
      case '"' =>
        r := SwitchQuoted();
      case _ =>
        r := SwitchUnquoted();
    }

    method SwitchQuoted() returns (r: Result<Token, ReadError>)
      requires Valid() && reuse.None?
      modifies this
      ensures Valid()
      ensures Outcome(QuotedToken(input, old(State())), r, State())
    {
      var text :- ReadQuotedText();
      current := Str(text);
      if |stack| == 0 {
        return Failure(EmptyStack);
      } else if Top(stack) == PropertyKey {
        stack := Pop(stack);
        return Success(SimpleValue);
      } else if Top(stack) == ObjectOpen {
        stack := stack + [PropertyKey];
        return Success(PropertyKey);
      } else {
        return Success(SimpleValue);
      }
    }

    method SwitchUnquoted() returns (r: Result<Token, ReadError>)
      requires Valid() && reuse.None?
      modifies this
      ensures Valid()
      ensures Outcome(UnquotedToken(input, old(State())), r, State())
    {
      if |stack| == 0 {
        return Failure(EmptyStack);
      }
      var closer := if Top(stack) == PropertyKey then '}' else ']';
      var rawValueString :- ReadUpToNext(',', closer);
      r := StoreSimpleValue(rawValueString, closer);
    }

    /** Convert the raw text `readUpToNext` returned and pop a pending key. */
    method StoreSimpleValue(rawValueString: string, closer: char) returns (r: Result<Token, ReadError>)
      requires Valid() && reuse.None? && |rawValueString| > 0 && |stack| > 0 && 0 < pos
      modifies this
      ensures Valid()
      ensures Outcome(ValueToken(old(State()), rawValueString, closer), r, State())
    {
      var v :- SimpleValueAt([cur] + Trim(rawValueString[..|rawValueString| - 1]), pos);
      current := v;
      if rawValueString[|rawValueString| - 1] == closer {
        reuse := Some(closer);
      }
      if Top(stack) == PropertyKey {
        stack := Pop(stack);
      }
      return Success(SimpleValue);
    }

    /** `readJsonObject`, with the object's `{` as current character. */
    method ReadJsonObject() returns (r: Result<JsonTree.JsonObject, ReadError>)
      requires Valid()
      modifies this
      ensures Valid()
      ensures ReadObject(input, old(State())).Failure? ==> r == Failure(ReadObject(input, old(State())).error)
      ensures ReadObject(input, old(State())).Success? ==>
        && r.Success? && fresh(r.value) && r.value.Valid()
        && (r.value.members, State()) == ReadObject(input, old(State())).value
      decreases Measure(input, State()), 1
    {
      if cur != '{' {
        return Failure(InvalidReadPosition(pos));
      }
      var returnObject := new JsonTree.JsonObject();
      var nextToken :- ReadNextToken();
      while nextToken != Token.ObjectClose
        invariant Valid() && fresh(returnObject) && returnObject.Valid()
        invariant Measure(input, State()) < Measure(input, old(State()))
        invariant ObjectLoop(input, State(), nextToken, returnObject.members) == ReadObject(input, old(State()))
        decreases Measure(input, State())
      {
        nextToken :- ReadObjectProperty(nextToken, returnObject);
      }
      return Success(returnObject);
    }

    /** `readJsonArray`, with the array's `[` as current character. */
    method ReadJsonArray() returns (r: Result<JsonTree.JsonArray, ReadError>)
      requires Valid()
      modifies this
      ensures Valid()
      ensures ReadArray(input, old(State())).Failure? ==> r == Failure(ReadArray(input, old(State())).error)
      ensures ReadArray(input, old(State())).Success? ==>
        && r.Success? && fresh(r.value)
        && (r.value.items, State()) == ReadArray(input, old(State())).value
      decreases Measure(input, State()), 1
    {
      if cur != '[' {
        return Failure(InvalidReadPosition(pos));
      }
      var nextToken :- ReadNextToken();
      if !(nextToken in {Token.ArrayClose, ObjectOpen, ArrayOpen, SimpleValue}) {
        return Failure(UnexpectedToken(nextToken, pos));
      }
      var returnArray := new JsonTree.JsonArray();
      while nextToken != Token.ArrayClose
        invariant Valid() && fresh(returnArray)
        invariant Measure(input, State()) < Measure(input, old(State()))
        invariant ArrayLoop(input, State(), nextToken, returnArray.items) == ReadArray(input, old(State()))
        decreases Measure(input, State())
      {
        nextToken :- ReadArrayElement(nextToken, returnArray);
      }
      return Success(returnArray);
    }

    /** `readNextJsonItem`: the next item of an already started document. */
    method ReadNextJsonItem() returns (r: Result<bool, ReadError>)
      requires Valid()
      modifies this
      ensures Valid()
      ensures Outcome(NextItem(input, old(State())), r, State())
    {
      if !initialized {
        return Failure(NotInitialized);
      }
      var nextToken :- ReadNextToken();
      if nextToken == ObjectOpen {
        var value :- ReadJsonObject();
        current := Obj(value.members);
        return Success(true);
      } else if nextToken == ArrayOpen {
        var value :- ReadJsonArray();
        current := Arr(value.items);
        return Success(true);
      } else if nextToken == SimpleValue {
        return Success(true);
      } else if nextToken == Token.ObjectClose {
        reuse := Some(cur);
        stack := stack + [ObjectOpen];
        return Success(false);
      } else if nextToken == Token.ArrayClose {
        reuse := Some(cur);
        stack := stack + [ArrayOpen];
        return Success(false);
      } else {
        return Failure(InvalidData(pos));
      }
    }

    /** `read`: the whole document at once, as the first action. */
    method Read() returns (r: Result<Json, ReadError>)
      requires Valid()
      modifies this
      ensures Valid()
      ensures Outcome(ReadDocument(input, old(State())), r, State())
    {
      if initialized {
        return Failure(AlreadyInitialized);
      }
      var nextToken :- ReadNextToken();
      if nextToken == ObjectOpen {
        var value :- ReadJsonObject();
        return Success(Obj(value.members));
      } else if nextToken == ArrayOpen {
        var value :- ReadJsonArray();
        return Success(Arr(value.items));
      } else {
        return Failure(NoRootContainer);
      }
    }

    /** One pass of the loop of `readJsonObject`: a property key, the value
        the next token starts, added under the key, then the token after it. */
    method ReadObjectProperty(token: Token, returnObject: JsonTree.JsonObject) returns (r: Result<Token, ReadError>)
      requires Valid() && token != Token.ObjectClose && returnObject.Valid()
      modifies this, returnObject
      ensures Valid() && returnObject.Valid()
      ensures r.Success? ==> Measure(input, State()) < Measure(input, old(State()))
      ensures r.Failure? ==> ObjectLoop(input, old(State()), token, old(returnObject.members)) == Failure(r.error)
      ensures r.Success? ==>
        ObjectLoop(input, old(State()), token, old(returnObject.members)) == ObjectLoop(input, State(), r.value, returnObject.members)
      decreases Measure(input, State()), 2
    {
      if !(token == PropertyKey && current.Str?) {
        return Failure(UnexpectedToken(token, pos));
      }
      var propertyKey := current.s;
      var nextToken :- ReadNextToken();
      if nextToken == ArrayOpen {
        var value :- ReadJsonArray();
        returnObject.Add(propertyKey, Arr(value.items));
      } else if nextToken == ObjectOpen {
        var value :- ReadJsonObject();
        returnObject.Add(propertyKey, Obj(value.members));
      } else if nextToken == SimpleValue {
        returnObject.Add(propertyKey, current);
      } else {
        return Failure(UnexpectedToken(nextToken, pos));
      }
      r := ReadNextToken();
    }

    /** One pass of the loop of `readJsonArray`: the element `token` starts
        is added, then the next token is read. */
    method ReadArrayElement(token: Token, returnArray: JsonTree.JsonArray) returns (r: Result<Token, ReadError>)
      requires Valid() && token != Token.ArrayClose
      modifies this, returnArray
      ensures Valid()
      ensures r.Success? ==> Measure(input, State()) < Measure(input, old(State()))
      ensures r.Failure? ==> ArrayLoop(input, old(State()), token, old(returnArray.items)) == Failure(r.error)
      ensures r.Success? ==> ArrayLoop(input, old(State()), token, old(returnArray.items)) == ArrayLoop(input, State(), r.value, returnArray.items)
      decreases Measure(input, State()), 2
    {
      if token == ArrayOpen {
        var value :- ReadJsonArray();
        returnArray.Add(Arr(value.items));
      } else if token == ObjectOpen {
        var value :- ReadJsonObject();
        returnArray.Add(Obj(value.members));
      } else if token == SimpleValue {
        returnArray.Add(current);
      }
      r := ReadNextToken();
    }
  }
}
