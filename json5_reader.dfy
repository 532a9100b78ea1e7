/** `Json5Reader`: the lenient streaming reader. It reads its tokens
    through the `BasicReader` scanner and keeps the stack of open items and
    the current value of the reader it extends. Beyond strict JSON it takes
    single-quoted texts, unquoted identifier keys, trailing and repeated
    commas, line and block comments, hexadecimal integers, `Infinity` and
    `NaN`. */
module Json5Reader {
  import opened Wrappers
  import opened Text
  import opened JsonValues
  import opened JsonScalars
  import opened BasicReader
  import JR = JsonReader

  type Token = JR.Token

  /** The exceptions the reader raises. `EmptyStack` is the
      `EmptyStackException` of `Stack.peek`/`Stack.pop`; `NumberFormat` is the
      `NumberFormatException` of a number constructor. */
  datatype Json5Error =
    | Scan(e: ScanError)
    | EmptyStack
    | InvalidData(at: int)
    | InvalidIdentifier(at: int)
    | NumberFormat(text: string)

  /** The scanner's fields, the `openJsonItems` stack with its top last, and
      `currentObject` (`Null` for Java's `null`). */
  datatype Json5State = Json5State(scan: ScanState, stack: seq<Token>, current: Json)

  predicate Ready(input: seq<char>, st: Json5State)
  {
    InBounds(input, st.scan)
  }

  function Lift<T>(r: Result<T, ScanError>): (l: Result<T, Json5Error>)
    ensures r.Success? <==> l.Success?
    ensures r.Success? ==> l.value == r.value
    ensures r.Failure? ==> l.error == Scan(r.error)
  {
    match r
    case Success(v) => Success(v)
    case Failure(e) => Failure(Scan(e))
  }

  /** `Stack.peek`. */
  function Peek(stack: seq<Token>): (r: Result<Token, Json5Error>)
    ensures r.Failure? <==> stack == []
    ensures r.Success? ==> r.value == JR.Top(stack)
    ensures r.Failure? ==> r.error == EmptyStack
  {
    if stack == [] then Failure(EmptyStack) else Success(JR.Top(stack))
  }

  // ---------------------------------------------------------------------
  // readJsonIdentifier and readSimpleJsonValue
  // ---------------------------------------------------------------------

  predicate IsIdentifierStart(c: char)
  {
    IsAsciiLetter(c) || c == '_' || c == '$'
  }

  predicate IsIdentifierPart(c: char)
  {
    IsIdentifierStart(c) || IsDigit(c)
  }

  /** `Pattern.matches("[A-Za-z_$]+[A-Za-z_$0-9]*", s)`: the first part
      takes at least the first character, and every character it can take the
      second part can take too, so the pattern asks for a first character out
      of the first class and the rest out of the second. */
  predicate IsIdentifier(s: string)
  {
    |s| > 0 && IsIdentifierStart(s[0]) && forall i :: 1 <= i < |s| ==> IsIdentifierPart(s[i])
  }

  /** `readJsonIdentifier`. */
  function Identifier(text: string, at: int): (r: Result<string, Json5Error>)
    ensures r.Success? <==> IsIdentifier(text)
    ensures r.Success? ==> r.value == text
    ensures r.Failure? ==> r.error == InvalidIdentifier(at)
  {
    if IsIdentifier(text) then Success(text) else Failure(InvalidIdentifier(at))
  }

  /** `readSimpleJsonValue`: text outside the literals and the two number
      patterns is invalid data at the current count; a number constructor
      that refuses the text raises its own exception. */
  function ScalarAt(text: string, at: int): (r: Result<Json, Json5Error>)
    ensures r.Success? <==> Json5SimpleValue(text).Success?
    ensures r.Success? ==> r.value == Json5SimpleValue(text).value
    ensures Json5SimpleValue(text) == Failure(NotAValue(text)) ==> r == Failure(InvalidData(at))
  {
    match Json5SimpleValue(text)
    case Success(v) => Success(v)
    case Failure(NotAValue(_)) => Failure(InvalidData(at))
    case Failure(BadNumber(t)) => Failure(NumberFormat(t))
  }

  // ---------------------------------------------------------------------
  // readNextToken
  // ---------------------------------------------------------------------

  /** `}` or `]`: the popped frame must be the matching open one. */
  function CloseToken(st: Json5State, open: Token, close: Token): (r: Result<(Token, Json5State), Json5Error>)
  {
    if st.stack == [] then Failure(EmptyStack)
    else if JR.Top(st.stack) != open then Failure(InvalidData(st.scan.count))
    else Success((close, st.(stack := JR.Pop(st.stack))))
  }

  /** The character after a quoted value that ends a property: a `}` is
      pushed back for the next call, a `,` is consumed, anything else fails. */
  function AfterPropertyValue(s: ScanState): (r: Result<ScanState, Json5Error>)
  {
    if s.cur == '}' then Success(Reuse(s))
    else if s.cur != ',' then Failure(InvalidData(s.count))
    else Success(s)
  }

  /** A text in `quote`s: an array element, a property key (which must be
      followed by `:`), or the value of a pending key. */
  function QuotedToken(input: seq<char>, st: Json5State, quote: char): (r: Result<(Token, Json5State), Json5Error>)
    requires Ready(input, st)
    ensures r.Success? ==> Ready(input, r.value.1) && Measure(input, r.value.1.scan) <= Measure(input, st.scan)
  {
    var top :- Peek(st.stack);
    if top == JR.ArrayOpen then
      var quoted :- Lift(QuotedText(input, st.scan, quote, Some('\\')));
      Success((JR.SimpleValue, st.(scan := quoted.1, current := Str(quoted.0))))
    else if top == JR.ObjectOpen then
      var quoted :- Lift(QuotedText(input, st.scan, quote, Some('\\')));
      var s2 :- Lift(NonWhitespace(input, quoted.1));
      if s2.cur != ':' then Failure(InvalidData(s2.count))
      else Success((JR.PropertyKey, st.(scan := s2, stack := st.stack + [JR.PropertyKey], current := Str(quoted.0))))
    else if top == JR.PropertyKey then
      var quoted :- Lift(QuotedText(input, st.scan, quote, Some('\\')));
      var s2 :- Lift(NonWhitespace(input, quoted.1));
      var s3 :- AfterPropertyValue(s2);
      Success((JR.SimpleValue, st.(scan := s3, stack := JR.Pop(st.stack), current := Str(quoted.0))))
    else Failure(InvalidData(st.scan.count))
  }

  /** The loop of a block comment: read a character; a `/` ends the
      comment, anything else is followed by a read up to and including the
      next `*`. */
  function BlockComment(input: seq<char>, s: ScanState): (r: Result<ScanState, ScanError>)
    requires InBounds(input, s)
    ensures r.Success? ==> InBounds(input, r.value) && Measure(input, r.value) < Measure(input, s)
    decreases Measure(input, s)
  {
    var s1 :- NextChar(input, s);
    if s1.cur == '/' then Success(s1)
    else
      var upTo :- UpToNext(input, s1, true, None, ['*']);
      BlockComment(input, upTo.1)
  }

  /** After a `/`: `//` skips up to the line end, which is pushed back;
      a star after the slash starts a block comment; anything else fails. */
  function Comment(input: seq<char>, st: Json5State): (r: Result<Json5State, Json5Error>)
    requires Ready(input, st)
    ensures r.Success? ==>
      && Ready(input, r.value)
      && Measure(input, r.value.scan) < Measure(input, st.scan)
      && r.value == st.(scan := r.value.scan)
  {
    var s1 :- Lift(NextChar(input, st.scan));
    if s1.cur == '/' then
      var line :- Lift(UpToNext(input, s1, false, None, ['\n']));
      Success(st.(scan := line.1))
    else if s1.cur == '*' then
      var s2 :- Lift(BlockComment(input, s1));
      Success(st.(scan := s2))
    else Failure(InvalidData(s1.count))
  }

  /** An unquoted text: a key read up to `:` directly inside an object, else
      a value read up to `,` or the enclosing container's closer. */
  function UnquotedToken(input: seq<char>, st: Json5State): (r: Result<(Token, Json5State), Json5Error>)
    requires Ready(input, st)
    ensures r.Success? ==> Ready(input, r.value.1) && Measure(input, r.value.1.scan) <= Measure(input, st.scan)
  {
    var top :- Peek(st.stack);
    if top == JR.ObjectOpen then UnquotedKey(input, st)
    else if top == JR.PropertyKey then
      UnquotedValue(input, st.(stack := JR.Pop(st.stack)), '}')
    else if top == JR.ArrayOpen then
      UnquotedValue(input, st, ']')
    else Failure(InvalidData(st.scan.count))
  }

  /** An unquoted key up to `:`, which is read again and consumed. */
  function UnquotedKey(input: seq<char>, st: Json5State): (r: Result<(Token, Json5State), Json5Error>)
    requires Ready(input, st)
    ensures r.Success? ==> Ready(input, r.value.1) && Measure(input, r.value.1.scan) <= Measure(input, st.scan)
  {
    var raw :- Lift(UpToNext(input, st.scan, false, None, [':']));
    var key :- Identifier(Trim(raw.0), raw.1.count);
    var s2 := NextChar(input, raw.1).value;  // the pushed-back `:`
    Success((JR.PropertyKey, st.(scan := s2, stack := st.stack + [JR.PropertyKey], current := Str(key))))
  }

  /** An unquoted value up to `,` or `closer`; the end character is read
      again, and a closer is pushed back for the next call. */
  function UnquotedValue(input: seq<char>, st: Json5State, closer: char): (r: Result<(Token, Json5State), Json5Error>)
    requires Ready(input, st)
    ensures r.Success? ==> Ready(input, r.value.1) && Measure(input, r.value.1.scan) <= Measure(input, st.scan)
  {
    var raw :- Lift(UpToNext(input, st.scan, false, None, [',', closer]));
    var v :- ScalarAt(Trim(raw.0), raw.1.count);
    var s2 :- Lift(NonWhitespace(input, raw.1));
    Success((JR.SimpleValue, st.(scan := if s2.cur == closer then Reuse(s2) else s2, current := v)))
  }

  /** `readNextToken`: read the next non-whitespace character and switch on
      it. */
  function NextToken(input: seq<char>, st: Json5State): (r: Result<(Token, Json5State), Json5Error>)
    requires Ready(input, st)
    ensures r.Success? ==> Ready(input, r.value.1) && Measure(input, r.value.1.scan) < Measure(input, st.scan)
    decreases Measure(input, st.scan), 1
  {
    var s1 :- Lift(NonWhitespace(input, st.scan));
    Switch(input, st.(scan := s1, current := Null))
  }

  /** The `switch` of `readNextToken` on the character just read. A `,` and
      a comment are passed over by reading the next token. */
  function Switch(input: seq<char>, st: Json5State): (r: Result<(Token, Json5State), Json5Error>)
    requires Ready(input, st)
    ensures r.Success? ==> Ready(input, r.value.1) && Measure(input, r.value.1.scan) <= Measure(input, st.scan)
    decreases Measure(input, st.scan) + 1, 0
  {
    match st.scan.cur
    case '{' => Success((JR.ObjectOpen, st.(stack := JR.OpenFrame(st.stack, JR.ObjectOpen))))
    case '[' => Success((JR.ArrayOpen, st.(stack := JR.OpenFrame(st.stack, JR.ArrayOpen))))
    case '}' => CloseToken(st, JR.ObjectOpen, JR.ObjectClose)
    case ']' => CloseToken(st, JR.ArrayOpen, JR.ArrayClose)
    case '"' => QuotedToken(input, st, '"')
    case '\'' => QuotedToken(input, st, '\'')
    case ',' => NextToken(input, st)
    case '/' =>
      var st2 :- Comment(input, st);
      NextToken(input, st2)
    case _ => UnquotedToken(input, st)
  }

  // ---------------------------------------------------------------------
  // Properties of the token stream
  // ---------------------------------------------------------------------

  /** `readNextToken` switches on the first non-whitespace character, with
      the current object cleared. */
  lemma NextTokenSwitches(input: seq<char>, st: Json5State, w: seq<char>, c: char, rest: seq<char>)
    returns (st1: Json5State)
    requires Ready(input, st) && Pending(input, st.scan) == w + [c] + rest
    requires AllWhitespace(w) && !IsWhitespace(c)
    ensures Ready(input, st1) && st1.scan.cur == c && st1.scan.reuse.None? && Pending(input, st1.scan) == rest
    ensures st1.scan.count == st.scan.count + |w| + 1
    ensures st1 == st.(scan := st1.scan, current := Null)
    ensures NextToken(input, st) == Switch(input, st1)
  {
    NonWhitespaceFindsFirst(input, st.scan, w, c, rest);
    st1 := st.(scan := NonWhitespace(input, st.scan).value, current := Null);
  }

  /** `{` and `[` push their open frame in place of a pending key, as in the
      strict reader; `}` and `]` succeed exactly when they pop the matching
      open frame. */
  lemma BracketsFollowStackRules(input: seq<char>, st: Json5State, w: seq<char>, c: char, rest: seq<char>)
    requires Ready(input, st) && Pending(input, st.scan) == w + [c] + rest
    requires AllWhitespace(w) && c in "{[}]"
    ensures var r := NextToken(input, st);
      var open := if c == '{' || c == '}' then JR.ObjectOpen else JR.ArrayOpen;
      && (c == '{' || c == '[' ==>
            r.Success? && r.value.0 == open && r.value.1.stack == JR.OpenFrame(st.stack, open))
      && (c == '}' || c == ']' ==>
            && (r.Success? <==> st.stack != [] && JR.Top(st.stack) == open)
            && (r.Success? ==>
                  r.value.0 == (if c == '}' then JR.ObjectClose else JR.ArrayClose) && r.value.1.stack == JR.Pop(st.stack))
            && (st.stack == [] ==> r == Failure(EmptyStack)))
      && (r.Success? ==> Pending(input, r.value.1.scan) == rest && r.value.1.current == Null)
  {
    var st1 := NextTokenSwitches(input, st, w, c, rest);
  }

  /** A `,` is passed over: the token is the one after it. Trailing and
      repeated commas are therefore accepted. */
  lemma CommaIsPassedOver(input: seq<char>, st: Json5State, w: seq<char>, rest: seq<char>)
    returns (st1: Json5State)
    requires Ready(input, st) && Pending(input, st.scan) == w + [','] + rest && AllWhitespace(w)
    ensures Ready(input, st1) && Pending(input, st1.scan) == rest && st1.stack == st.stack
    ensures NextToken(input, st) == NextToken(input, st1)
  {
    st1 := NextTokenSwitches(input, st, w, ',', rest);
  }

  /** A trailing comma before the closer of an open array or object is
      accepted and the container is closed. */
  lemma TrailingCommaAccepted(input: seq<char>, st: Json5State, w: seq<char>, w2: seq<char>, c: char, rest: seq<char>)
    requires Ready(input, st) && Pending(input, st.scan) == w + [','] + (w2 + [c] + rest)
    requires AllWhitespace(w) && AllWhitespace(w2)
    requires (c == '}' && st.stack != [] && JR.Top(st.stack) == JR.ObjectOpen)
          || (c == ']' && st.stack != [] && JR.Top(st.stack) == JR.ArrayOpen)
    ensures var r := NextToken(input, st);
      && r.Success?
      && r.value.0 == (if c == '}' then JR.ObjectClose else JR.ArrayClose)
      && r.value.1.stack == JR.Pop(st.stack)
      && Pending(input, r.value.1.scan) == rest
  {
    var st1 := CommaIsPassedOver(input, st, w, w2 + [c] + rest);
    BracketsFollowStackRules(input, st1, w2, c, rest);
  }

  /** Outside every container only `{`, `[`, a `,` or a comment can be read;
      any other character fails for want of an open item. */
  lemma TopLevelNeedsContainer(input: seq<char>, st: Json5State, w: seq<char>, c: char, rest: seq<char>)
    requires Ready(input, st) && Pending(input, st.scan) == w + [c] + rest
    requires AllWhitespace(w) && !IsWhitespace(c) && st.stack == []
    requires c !in "{[,/"
    ensures NextToken(input, st) == Failure(EmptyStack)
  {
    var st1 := NextTokenSwitches(input, st, w, c, rest);
  }

  // ---------------------------------------------------------------------
  // Quoted texts
  // ---------------------------------------------------------------------

  /** A quoted text directly inside an object is a key: it must be followed
      by `:`, and pushes a key frame. */
  lemma QuotedKeyNeedsColon(input: seq<char>, st: Json5State, q: char, t: string, w: seq<char>, c: char, rest: seq<char>)
    requires Ready(input, st) && st.scan.cur == q && (q == '"' || q == '\'')
    requires st.stack != [] && JR.Top(st.stack) == JR.ObjectOpen
    requires Pending(input, st.scan) == Escaped(t, Some('\\'), [q]) + [q] + (w + [c] + rest)
    requires AllWhitespace(w) && !IsWhitespace(c)
    ensures var r := QuotedToken(input, st, q);
      && (r.Success? <==> c == ':')
      && (r.Success? ==>
            && r.value.0 == JR.PropertyKey
            && r.value.1.stack == st.stack + [JR.PropertyKey]
            && r.value.1.current == Str(t)
            && Pending(input, r.value.1.scan) == rest)
      && (r.Failure? ==> r.error.InvalidData?)
  {
    QuotedTextRoundTrip(input, st.scan, q, Some('\\'), t, w + [c] + rest);
    var s1 := QuotedText(input, st.scan, q, Some('\\')).value.1;
    NonWhitespaceFindsFirst(input, s1, w, c, rest);
  }

  /** A quoted text after a key is its value: the key frame is popped, and
      the text must be followed by `,`, which is consumed, or by `}`, which is
      pushed back. */
  lemma QuotedValueEndsProperty(input: seq<char>, st: Json5State, q: char, t: string, w: seq<char>, c: char, rest: seq<char>)
    requires Ready(input, st) && st.scan.cur == q && (q == '"' || q == '\'')
    requires st.stack != [] && JR.Top(st.stack) == JR.PropertyKey
    requires Pending(input, st.scan) == Escaped(t, Some('\\'), [q]) + [q] + (w + [c] + rest)
    requires AllWhitespace(w) && !IsWhitespace(c)
    ensures var r := QuotedToken(input, st, q);
      && (r.Success? <==> c == ',' || c == '}')
      && (r.Success? ==>
            && r.value.0 == JR.SimpleValue
            && r.value.1.stack == JR.Pop(st.stack)
            && r.value.1.current == Str(t)
            && Pending(input, r.value.1.scan) == if c == '}' then [c] + rest else rest)
      && (r.Failure? ==> r.error.InvalidData?)
  {
    QuotedTextRoundTrip(input, st.scan, q, Some('\\'), t, w + [c] + rest);
    var s1 := QuotedText(input, st.scan, q, Some('\\')).value.1;
    NonWhitespaceFindsFirst(input, s1, w, c, rest);
  }

  /** A quoted text in an array is an element; nothing after it is read. */
  lemma QuotedElement(input: seq<char>, st: Json5State, q: char, t: string, rest: seq<char>)
    requires Ready(input, st) && st.scan.cur == q && (q == '"' || q == '\'')
    requires st.stack != [] && JR.Top(st.stack) == JR.ArrayOpen
    requires Pending(input, st.scan) == Escaped(t, Some('\\'), [q]) + [q] + rest
    ensures var r := QuotedToken(input, st, q);
      && r.Success? && r.value.0 == JR.SimpleValue
      && r.value.1.stack == st.stack && r.value.1.current == Str(t)
      && Pending(input, r.value.1.scan) == rest
  {
    QuotedTextRoundTrip(input, st.scan, q, Some('\\'), t, rest);
  }

  // ---------------------------------------------------------------------
  // Comments
  // ---------------------------------------------------------------------

  /** `//` skips the rest of the line; the line end is left to be read. */
  lemma LineCommentSkipped(input: seq<char>, st: Json5State, line: string, rest: seq<char>)
    requires Ready(input, st) && Pending(input, st.scan) == ['/'] + (line + ['\n'] + rest)
    requires forall i :: 0 <= i < |line| ==> line[i] != '\n'
    ensures var r := Comment(input, st);
      r.Success? && r.value.stack == st.stack && Pending(input, r.value.scan) == ['\n'] + rest
  {
    var s1 := ReadsHead(input, st.scan, '/', line + ['\n'] + rest);
    assert !HasDuplicates(['\n']);
    UpToNextStopsAtFirstEnd(input, s1, false, ['\n'], line, '\n', rest);
  }

  /** A `/` followed by anything but `/` or a star is invalid data. */
  lemma LoneSlashFails(input: seq<char>, st: Json5State, x: char, rest: seq<char>)
    requires Ready(input, st) && Pending(input, st.scan) == [x] + rest && x != '/' && x != '*'
    ensures Comment(input, st) == Failure(InvalidData(st.scan.count + 1))
  {
    var s1 := ReadsHead(input, st.scan, x, rest);
  }

  /** A comment body without stars, not starting with `/`, is read up to and
      including the first star. */
  lemma BlockCommentBody(input: seq<char>, s: ScanState, body: string, tail: seq<char>) returns (s3: ScanState)
    requires InBounds(input, s) && Pending(input, s) == body + ['*'] + tail
    requires body != [] && body[0] != '/' && forall i :: 0 <= i < |body| ==> body[i] != '*'
    ensures InBounds(input, s3) && Pending(input, s3) == tail
    ensures BlockComment(input, s) == BlockComment(input, s3)
  {
    assert body + ['*'] + tail == [body[0]] + (body[1..] + ['*'] + tail);
    var s2 := ReadsHead(input, s, body[0], body[1..] + ['*'] + tail);
    assert !HasDuplicates(['*']);
    UpToNextStopsAtFirstEnd(input, s2, true, ['*'], body[1..], '*', tail);
    s3 := UpToNext(input, s2, true, None, ['*']).value.1;
  }

  /** A block comment whose body has no star and does not start with `/`
      ends at the first star-slash. */
  lemma BlockCommentSkipped(input: seq<char>, st: Json5State, body: string, rest: seq<char>)
    requires Ready(input, st) && Pending(input, st.scan) == ['*'] + (body + ['*'] + (['/'] + rest))
    requires body != [] && body[0] != '/' && forall i :: 0 <= i < |body| ==> body[i] != '*'
    ensures var r := Comment(input, st);
      r.Success? && r.value.stack == st.stack && Pending(input, r.value.scan) == rest
  {
    var s1 := ReadsHead(input, st.scan, '*', body + ['*'] + (['/'] + rest));
    var s3 := BlockCommentBody(input, s1, body, ['/'] + rest);
    var s4 := ReadsHead(input, s3, '/', rest);
  }

  /** As written, a star read where the closing `/` is expected starts a new
      read up to the next star: a star directly before the closing star-slash
      makes the comment run past its end, and with no star left the input
      runs out. */
  lemma StarBeforeCommentEndOverruns(input: seq<char>, s: ScanState, rest: seq<char>)
    requires InBounds(input, s) && Pending(input, s) == ['*'] + (['/'] + rest)
    requires forall i :: 0 <= i < |rest| ==> rest[i] != '*'
    ensures BlockComment(input, s) == Failure(PrematureEnd)
  {
    var s1 := ReadsHead(input, s, '*', ['/'] + rest);
    assert !HasDuplicates(['*']);
    assert Pending(input, s1) == ['/'] + rest;
    assert forall j :: 0 <= j < |Pending(input, s1)| ==> Pending(input, s1)[j] !in ['*'];
    UpToLoopNoEnd(input, s1, true, ['*'], [s1.cur]);
  }

  /** The empty block comment is not recognised: after it the reader looks
      for a further star. */
  lemma EmptyBlockCommentOverruns(input: seq<char>, st: Json5State, rest: seq<char>)
    requires Ready(input, st) && Pending(input, st.scan) == ['*'] + (['*'] + (['/'] + rest))
    requires forall i :: 0 <= i < |rest| ==> rest[i] != '*'
    ensures Comment(input, st) == Failure(Scan(PrematureEnd))
  {
    var s1 := ReadsHead(input, st.scan, '*', ['*'] + (['/'] + rest));
    StarBeforeCommentEndOverruns(input, s1, rest);
  }

  /** A comment body closed by two stars and a slash overruns the same way. */
  lemma DoubleStarCommentOverruns(input: seq<char>, st: Json5State, body: string, rest: seq<char>)
    requires Ready(input, st) && Pending(input, st.scan) == ['*'] + (body + ['*'] + (['*'] + (['/'] + rest)))
    requires body != [] && body[0] != '/' && forall i :: 0 <= i < |body| ==> body[i] != '*'
    requires forall i :: 0 <= i < |rest| ==> rest[i] != '*'
    ensures Comment(input, st) == Failure(Scan(PrematureEnd))
  {
    var s1 := ReadsHead(input, st.scan, '*', body + ['*'] + (['*'] + (['/'] + rest)));
    var s3 := BlockCommentBody(input, s1, body, ['*'] + (['/'] + rest));
    StarBeforeCommentEndOverruns(input, s3, rest);
  }

  /** As written, a slash right after the opening slash-star closes the
      comment at once. */
  lemma SlashStarSlashIsComment(input: seq<char>, st: Json5State, rest: seq<char>)
    requires Ready(input, st) && Pending(input, st.scan) == ['*'] + (['/'] + rest)
    ensures var r := Comment(input, st);
      r.Success? && r.value.stack == st.stack && Pending(input, r.value.scan) == rest
  {
    var s1 := ReadsHead(input, st.scan, '*', ['/'] + rest);
    var s2 := ReadsHead(input, s1, '/', rest);
  }

  /** No star-slash pair anywhere in `t`. */
  predicate NoCommentEnd(t: seq<char>)
  {
    forall i :: 0 <= i < |t| - 1 ==> !(t[i] == '*' && t[i + 1] == '/')
  }

  /** The block-comment loop as evidently intended: read characters until a
      `/` directly after a star of the body; `star` says whether the
      character read last was such a star. */
  function BlockCommentIntended(input: seq<char>, s: ScanState, star: bool): (r: Result<ScanState, ScanError>)
    requires InBounds(input, s)
    ensures r.Success? ==> InBounds(input, r.value) && r.value.cur == '/' && Measure(input, r.value) < Measure(input, s)
    ensures r.Failure? ==> r.error == PrematureEnd
    decreases Measure(input, s)
  {
    var s1 :- NextChar(input, s);
    if star && s1.cur == '/' then Success(s1)
    else BlockCommentIntended(input, s1, s1.cur == '*')
  }

  /** The intended loop ends right after the first star-slash of the body,
      whatever the body holds. */
  lemma {:induction false} BlockCommentIntendedEndsAtFirstClose(input: seq<char>, s: ScanState, star: bool, body: string, rest: seq<char>)
    requires InBounds(input, s) && Pending(input, s) == body + ['*'] + (['/'] + rest)
    requires NoCommentEnd(body + ['*'])
    requires star ==> (body + ['*'])[0] != '/'
    ensures var r := BlockCommentIntended(input, s, star);
      r.Success? && Pending(input, r.value) == rest
    decreases |body|
  {
    if body == [] {
      var s1 := ReadsHead(input, s, '*', ['/'] + rest);
      var s2 := ReadsHead(input, s1, '/', rest);
      assert BlockCommentIntended(input, s1, true) == Success(s2);
    } else {
      var tail := body[1..] + ['*'] + (['/'] + rest);
      assert body + ['*'] + (['/'] + rest) == [body[0]] + tail;
      var s1 := ReadsHead(input, s, body[0], tail);
      assert body + ['*'] == [body[0]] + (body[1..] + ['*']);
      assert NoCommentEnd(body[1..] + ['*']) by {
        forall i | 0 <= i < |body[1..] + ['*']| - 1
          ensures !((body[1..] + ['*'])[i] == '*' && (body[1..] + ['*'])[i + 1] == '/')
        {
          assert (body[1..] + ['*'])[i] == (body + ['*'])[i + 1];
          assert (body[1..] + ['*'])[i + 1] == (body + ['*'])[i + 2];
        }
      }
      assert body[0] == '*' ==> (body[1..] + ['*'])[0] != '/' by {
        assert (body + ['*'])[0] == body[0];
        assert (body + ['*'])[1] == (body[1..] + ['*'])[0];
      }
      BlockCommentIntendedEndsAtFirstClose(input, s1, body[0] == '*', body[1..], rest);
    }
  }

  /** The star-slash that makes the loop as written overrun
      (StarBeforeCommentEndOverruns) closes the comment in the intended loop,
      so the empty comment and a body ending in a star are read to their end. */
  lemma StarBeforeCommentEndClosesWhenIntended(input: seq<char>, s: ScanState, rest: seq<char>)
    requires InBounds(input, s) && Pending(input, s) == ['*'] + (['/'] + rest)
    ensures var r := BlockCommentIntended(input, s, false);
      r.Success? && Pending(input, r.value) == rest
  {
    assert Pending(input, s) == [] + ['*'] + (['/'] + rest);
    BlockCommentIntendedEndsAtFirstClose(input, s, false, [], rest);
  }

  // ---------------------------------------------------------------------
  // Unquoted keys and values
  // ---------------------------------------------------------------------

  /** Directly inside an object an unquoted text is a key: it is read up to
      `:`, trimmed, and must be an identifier; the `:` is consumed. */
  lemma UnquotedKeyRead(input: seq<char>, st: Json5State, t: string, rest: seq<char>)
    requires Ready(input, st) && st.stack != [] && JR.Top(st.stack) == JR.ObjectOpen
    requires Pending(input, st.scan) == t + [':'] + rest
    requires forall i :: 0 <= i < |t| ==> t[i] != ':'
    ensures var key := Trim([st.scan.cur] + t);
      var r := UnquotedToken(input, st);
      && (r.Success? <==> IsIdentifier(key))
      && (r.Success? ==>
            && r.value.0 == JR.PropertyKey
            && r.value.1.stack == st.stack + [JR.PropertyKey]
            && r.value.1.current == Str(key)
            && Pending(input, r.value.1.scan) == rest)
      && (r.Failure? ==> r.error == InvalidIdentifier(st.scan.count + |t|))
  {
    assert UnquotedToken(input, st) == UnquotedKey(input, st);
    var s2 := UnquotedKeyText(input, st, t, rest);
  }

  lemma UnquotedKeyText(input: seq<char>, st: Json5State, t: string, rest: seq<char>) returns (s2: ScanState)
    requires Ready(input, st)
    requires Pending(input, st.scan) == t + [':'] + rest
    requires forall i :: 0 <= i < |t| ==> t[i] != ':'
    ensures InBounds(input, s2) && Pending(input, s2) == rest
    ensures var key := Trim([st.scan.cur] + t);
      UnquotedKey(input, st) ==
        if IsIdentifier(key) then
          Success((JR.PropertyKey, st.(scan := s2, stack := st.stack + [JR.PropertyKey], current := Str(key))))
        else Failure(InvalidIdentifier(st.scan.count + |t|))
  {
    assert !HasDuplicates([':']);
    UpToNextStopsAtFirstEnd(input, st.scan, false, [':'], t, ':', rest);
    var raw := UpToNext(input, st.scan, false, None, [':']).value;
    assert raw.0 == [st.scan.cur] + t && raw.1.count == st.scan.count + |t|;
    s2 := ReadsHead(input, raw.1, ':', rest);
  }

  /** An unquoted value is read up to `,` or `closer`, trimmed and coerced;
      a `,` is consumed and a closer pushed back. */
  lemma UnquotedValueText(input: seq<char>, st: Json5State, closer: char, t: string, e: char, rest: seq<char>)
      returns (s3: ScanState)
    requires Ready(input, st) && closer != ',' && !IsWhitespace(closer)
    requires Pending(input, st.scan) == t + [e] + rest && (e == ',' || e == closer)
    requires forall i :: 0 <= i < |t| ==> t[i] != ',' && t[i] != closer
    ensures InBounds(input, s3) && Pending(input, s3) == if e == closer then [e] + rest else rest
    ensures var v := Json5SimpleValue(Trim([st.scan.cur] + t));
      v.Success? ==> UnquotedValue(input, st, closer) == Success((JR.SimpleValue, st.(scan := s3, current := v.value)))
    ensures Json5SimpleValue(Trim([st.scan.cur] + t)).Failure? ==> UnquotedValue(input, st, closer).Failure?
  {
    var ends := [',', closer];
    assert !HasDuplicates(ends);
    UpToNextStopsAtFirstEnd(input, st.scan, false, ends, t, e, rest);
    var raw := UpToNext(input, st.scan, false, None, ends).value;
    assert raw.0 == [st.scan.cur] + t;
    assert Pending(input, raw.1) == [] + [e] + rest;
    NonWhitespaceFindsFirst(input, raw.1, [], e, rest);
    var s2 := NonWhitespace(input, raw.1).value;
    s3 := if e == closer then Reuse(s2) else s2;
  }

  /** After a key or in an array, an unquoted text is a value, read up to
      `,` or the container's closer; the key frame is popped. */
  lemma UnquotedValueRead(input: seq<char>, st: Json5State, t: string, e: char, rest: seq<char>)
    requires Ready(input, st) && st.stack != []
    requires JR.Top(st.stack) == JR.PropertyKey || JR.Top(st.stack) == JR.ArrayOpen
    requires var closer := if JR.Top(st.stack) == JR.PropertyKey then '}' else ']';
      && Pending(input, st.scan) == t + [e] + rest
      && (e == ',' || e == closer)
      && forall i :: 0 <= i < |t| ==> t[i] != ',' && t[i] != closer
    ensures var closer := if JR.Top(st.stack) == JR.PropertyKey then '}' else ']';
      var v := Json5SimpleValue(Trim([st.scan.cur] + t));
      var r := UnquotedToken(input, st);
      && (r.Success? <==> v.Success?)
      && (r.Success? ==>
            && r.value.0 == JR.SimpleValue
            && r.value.1.current == v.value
            && r.value.1.stack == (if JR.Top(st.stack) == JR.PropertyKey then JR.Pop(st.stack) else st.stack)
            && Pending(input, r.value.1.scan) == if e == closer then [e] + rest else rest)
  {
    if JR.Top(st.stack) == JR.PropertyKey {
      var inner := st.(stack := JR.Pop(st.stack));
      assert UnquotedToken(input, st) == UnquotedValue(input, inner, '}');
      var s3 := UnquotedValueText(input, inner, '}', t, e, rest);
    } else {
      assert UnquotedToken(input, st) == UnquotedValue(input, st, ']');
      var s3 := UnquotedValueText(input, st, ']', t, e, rest);
    }
  }

  // ---------------------------------------------------------------------
  // The stack of open items
  // ---------------------------------------------------------------------

  /** How a token leaves the stack: as in the strict reader, an opening
      bracket replaces a pending key and is pushed, a closing bracket pops its
      own opener, a key is pushed directly above its object, and a value
      consumes a pending key. */
  predicate StackStep(stack: seq<Token>, token: Token, after: seq<Token>)
  {
    match token
    case ObjectOpen => after == JR.OpenFrame(stack, JR.ObjectOpen)
    case ArrayOpen => after == JR.OpenFrame(stack, JR.ArrayOpen)
    case ObjectClose => stack != [] && JR.Top(stack) == JR.ObjectOpen && after == JR.Pop(stack)
    case ArrayClose => stack != [] && JR.Top(stack) == JR.ArrayOpen && after == JR.Pop(stack)
    case PropertyKey => stack != [] && JR.Top(stack) == JR.ObjectOpen && after == stack + [JR.PropertyKey]
    case SimpleValue => stack != [] && after == if JR.Top(stack) == JR.PropertyKey then JR.Pop(stack) else stack
  }

  lemma QuotedTokenStep(input: seq<char>, st: Json5State, quote: char)
    requires Ready(input, st) && QuotedToken(input, st, quote).Success?
    ensures StackStep(st.stack, QuotedToken(input, st, quote).value.0, QuotedToken(input, st, quote).value.1.stack)
  {
  }

  lemma UnquotedTokenStep(input: seq<char>, st: Json5State)
    requires Ready(input, st) && UnquotedToken(input, st).Success?
    ensures StackStep(st.stack, UnquotedToken(input, st).value.0, UnquotedToken(input, st).value.1.stack)
  {
    var top := JR.Top(st.stack);
    if top == JR.ObjectOpen {
      assert UnquotedToken(input, st) == UnquotedKey(input, st);
    } else if top == JR.PropertyKey {
      assert UnquotedToken(input, st) == UnquotedValue(input, st.(stack := JR.Pop(st.stack)), '}');
    } else {
      assert UnquotedToken(input, st) == UnquotedValue(input, st, ']');
    }
  }

  /** Every token of `readNextToken` has its `StackStep`: commas and comments
      leave the stack alone. */
  lemma {:induction false} NextTokenStep(input: seq<char>, st: Json5State)
    requires Ready(input, st) && NextToken(input, st).Success?
    ensures StackStep(st.stack, NextToken(input, st).value.0, NextToken(input, st).value.1.stack)
    decreases Measure(input, st.scan), 1
  {
    var s1 := NonWhitespace(input, st.scan).value;
    SwitchStep(input, st.(scan := s1, current := Null));
  }

  lemma {:induction false} SwitchStep(input: seq<char>, st: Json5State)
    requires Ready(input, st) && Switch(input, st).Success?
    ensures StackStep(st.stack, Switch(input, st).value.0, Switch(input, st).value.1.stack)
    decreases Measure(input, st.scan) + 1, 0
  {
    match st.scan.cur
    case '{' =>
    case '[' =>
    case '}' =>
    case ']' =>
    case '"' => QuotedTokenStep(input, st, '"');
    case '\'' => QuotedTokenStep(input, st, '\'');
    case ',' => NextTokenStep(input, st);
    case '/' =>
      var st2 := Comment(input, st).value;
      NextTokenStep(input, st2);
    case _ => UnquotedTokenStep(input, st);
  }

  /** A stack step keeps the stack well formed: a pending key is only ever
      on top, directly above its object. */
  lemma StackStepKeepsWellFormed(stack: seq<Token>, token: Token, after: seq<Token>)
    requires JR.WellFormedStack(stack) && StackStep(stack, token, after)
    ensures JR.WellFormedStack(after)
  {
    if stack != [] {
      var below := JR.Pop(stack);
      assert forall i :: 0 <= i < |below| ==> below[i] == stack[i];
      if token == JR.ObjectOpen || token == JR.ArrayOpen {
        var base := if JR.Top(stack) == JR.PropertyKey then below else stack;
        assert forall i :: 0 <= i < |base| ==> base[i] == stack[i];
        assert after == base + [token];
      } else if token == JR.PropertyKey {
        assert forall i :: 0 <= i < |stack| ==> after[i] == stack[i];
      }
    }
  }

  /** Reading a token keeps the stack well formed. */
  lemma NextTokenKeepsStackWellFormed(input: seq<char>, st: Json5State)
    requires Ready(input, st) && JR.WellFormedStack(st.stack) && NextToken(input, st).Success?
    ensures JR.WellFormedStack(NextToken(input, st).value.1.stack)
  {
    NextTokenStep(input, st);
    StackStepKeepsWellFormed(st.stack, NextToken(input, st).value.0, NextToken(input, st).value.1.stack);
  }

  // ---------------------------------------------------------------------
  // The reader object
  // ---------------------------------------------------------------------

  /** The reader: its scanner, the stack of open items and the current
      value. Each method does what the function of the same name above
      computes from the state on entry. */
  class Json5Reader {
    const reader: BasicReader
    var openJsonItems: seq<Token>
    var currentObject: Json

    function State(): Json5State
      reads this, reader
    {
      Json5State(reader.State(), openJsonItems, currentObject)
    }

    ghost predicate Valid()
      reads this, reader
    {
      reader.Valid()
    }

    /** The method's result and the reader's new state are those of `spec`;
        after an exception the state is not specified. */
    ghost predicate Yields(spec: Result<(Token, Json5State), Json5Error>, r: Result<Token, Json5Error>)
      reads this, reader
    {
      match spec
      case Success((t, st)) => r == Success(t) && State() == st
      case Failure(e) => r == Failure(e)
    }

    constructor(input: seq<char>)
      ensures fresh(reader) && reader.input == input
      ensures State() == Json5State(Initial, [], Null) && Valid()
    {
      reader := new BasicReader(input);
      openJsonItems := [];
      currentObject := Null;
    }

    /** `readNextToken`. */
    method ReadNextToken() returns (r: Result<Token, Json5Error>)
      requires Valid()
      modifies this, reader
      ensures Valid()
      ensures Yields(NextToken(reader.input, old(State())), r)
      decreases Measure(reader.input, reader.State())
    {
      currentObject := Null;
      var c := reader.ReadNextNonWhitespace();
      if c.Failure? {
        return Failure(Scan(c.error));
      }
      assert NextToken(reader.input, old(State())) == Switch(reader.input, State());
      match c.value
      case '{' =>
        openJsonItems := JR.OpenFrame(openJsonItems, JR.ObjectOpen);
        return Success(JR.ObjectOpen);
      case '[' =>
        openJsonItems := JR.OpenFrame(openJsonItems, JR.ArrayOpen);
        return Success(JR.ArrayOpen);
      case '}' =>
        r := CloseItem(JR.ObjectOpen, JR.ObjectClose);
      case ']' =>
        r := CloseItem(JR.ArrayOpen, JR.ArrayClose);
      case '"' =>
        r := ReadQuotedToken('"');
      case '\'' =>
        r := ReadQuotedToken('\'');
      case ',' =>
        r := ReadNextToken();
      case '/' =>
        var skipped := SkipComment();
        if skipped.Some? {
          return Failure(skipped.value);
        }
        r := ReadNextToken();
      case _ =>
        r := ReadUnquotedToken();
    }

    /** `}` or `]`: pop the stack and compare with the opener. */
    method CloseItem(open: Token, close: Token) returns (r: Result<Token, Json5Error>)
      requires Valid()
      modifies this
      ensures Valid()
      ensures Yields(CloseToken(old(State()), open, close), r)
    {
      if openJsonItems == [] {
        return Failure(EmptyStack);
      }
      var top := JR.Top(openJsonItems);
      openJsonItems := JR.Pop(openJsonItems);
      if top != open {
        return Failure(InvalidData(reader.GetReadCharacters()));
      }
      return Success(close);
    }

    /** The two quote cases of `readNextToken`. */
    method ReadQuotedToken(quote: char) returns (r: Result<Token, Json5Error>)
      requires Valid()
      modifies this, reader
      ensures Valid()
      ensures Yields(QuotedToken(reader.input, old(State()), quote), r)
    {
      if openJsonItems == [] {
        return Failure(EmptyStack);
      }
      var top := JR.Top(openJsonItems);
      if top == JR.ArrayOpen {
        var text := reader.ReadQuotedText(quote, Some('\\'));
        if text.Failure? {
          return Failure(Scan(text.error));
        }
        currentObject := Str(text.value);
        return Success(JR.SimpleValue);
      } else if top == JR.ObjectOpen {
        var text := reader.ReadQuotedText(quote, Some('\\'));
        if text.Failure? {
          return Failure(Scan(text.error));
        }
        currentObject := Str(text.value);
        var c := reader.ReadNextNonWhitespace();
        if c.Failure? {
          return Failure(Scan(c.error));
        }
        if c.value != ':' {
          return Failure(InvalidData(reader.GetReadCharacters()));
        }
        openJsonItems := openJsonItems + [JR.PropertyKey];
        return Success(JR.PropertyKey);
      } else if top == JR.PropertyKey {
        var text := reader.ReadQuotedText(quote, Some('\\'));
        if text.Failure? {
          return Failure(Scan(text.error));
        }
        currentObject := Str(text.value);
        openJsonItems := JR.Pop(openJsonItems);
        var c := reader.ReadNextNonWhitespace();
        if c.Failure? {
          return Failure(Scan(c.error));
        }
        if c.value == '}' {
          reader.ReuseCurrentChar();
        } else if c.value != ',' {
          return Failure(InvalidData(reader.GetReadCharacters()));
        }
        return Success(JR.SimpleValue);
      } else {
        return Failure(InvalidData(reader.GetReadCharacters()));
      }
    }

    /** The `/` case of `readNextToken`, up to the recursive call. */
    method SkipComment() returns (e: Option<Json5Error>)
      requires Valid()
      modifies reader
      ensures Valid()
      ensures match Comment(reader.input, old(State()))
        case Success(st) => e.None? && State() == st
        case Failure(err) => e == Some(err)
    {
      var c := reader.ReadNextCharacter();
      if c.Failure? {
        return Some(Scan(c.error));
      }
      if c.value == '/' {
        var line := reader.ReadUpToNext(false, None, ['\n']);
        if line.Failure? {
          return Some(Scan(line.error));
        }
        return None;
      } else if c.value == '*' {
        var block := SkipBlockComment();
        if block.Some? {
          return Some(Scan(block.value));
        }
        return None;
      } else {
        return Some(InvalidData(reader.GetReadCharacters()));
      }
    }

    /** The loop that skips a block comment. */
    method SkipBlockComment() returns (e: Option<ScanError>)
      requires Valid()
      modifies reader
      ensures Valid()
      ensures match BlockComment(reader.input, old(reader.State()))
        case Success(s) => e.None? && reader.State() == s
        case Failure(err) => e == Some(err)
    {
      while true
        invariant Valid()
        invariant BlockComment(reader.input, reader.State()) == BlockComment(reader.input, old(reader.State()))
        decreases Measure(reader.input, reader.State())
      {
        var c := reader.ReadNextCharacter();
        if c.Failure? {
          return Some(c.error);
        }
        if c.value == '/' {
          return None;
        }
        var upTo := reader.ReadUpToNext(true, None, ['*']);
        if upTo.Failure? {
          return Some(upTo.error);
        }
      }
    }

    /** The default case of `readNextToken`. */
    method ReadUnquotedToken() returns (r: Result<Token, Json5Error>)
      requires Valid()
      modifies this, reader
      ensures Valid()
      ensures Yields(UnquotedToken(reader.input, old(State())), r)
    {
      if openJsonItems == [] {
        return Failure(EmptyStack);
      }
      var top := JR.Top(openJsonItems);
      if top == JR.ObjectOpen {
        r := ReadUnquotedKey();
      } else if top == JR.PropertyKey {
        openJsonItems := JR.Pop(openJsonItems);
        r := ReadUnquotedValue('}');
      } else if top == JR.ArrayOpen {
        r := ReadUnquotedValue(']');
      } else {
        return Failure(InvalidData(reader.GetReadCharacters()));
      }
    }

    method ReadUnquotedKey() returns (r: Result<Token, Json5Error>)
      requires Valid()
      modifies this, reader
      ensures Valid()
      ensures Yields(UnquotedKey(reader.input, old(State())), r)
    {
      var raw := reader.ReadUpToNext(false, None, [':']);
      if raw.Failure? {
        return Failure(Scan(raw.error));
      }
      var key := Identifier(Trim(raw.value), reader.GetReadCharacters());
      if key.Failure? {
        return Failure(key.error);
      }
      currentObject := Str(key.value);
      var colon := reader.ReadNextCharacter();
      openJsonItems := openJsonItems + [JR.PropertyKey];
      return Success(JR.PropertyKey);
    }

    method ReadUnquotedValue(closer: char) returns (r: Result<Token, Json5Error>)
      requires Valid()
      modifies this, reader
      ensures Valid()
      ensures Yields(UnquotedValue(reader.input, old(State()), closer), r)
    {
      var raw := reader.ReadUpToNext(false, None, [',', closer]);
      if raw.Failure? {
        return Failure(Scan(raw.error));
      }
      var value := ScalarAt(Trim(raw.value), reader.GetReadCharacters());
      if value.Failure? {
        return Failure(value.error);
      }
      currentObject := value.value;
      var c := reader.ReadNextNonWhitespace();
      if c.Failure? {
        return Failure(Scan(c.error));
      }
      if c.value == closer {
        reader.ReuseCurrentChar();
      }
      return Success(JR.SimpleValue);
    }
  }
}
