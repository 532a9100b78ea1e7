/** `BasicReader`: the character scanner under the lenient reader. It pulls
    one character at a time from the decoded stream, can push the current
    character back once (`reuseCurrentChar`), and counts the characters it
    has handed out. The stream is a sequence of characters and a position. */
module BasicReader {
  import opened Wrappers
  import opened Text

  datatype ScanError =
    | PrematureEnd              // "Premature end of data"
    | InvalidLimitCharacters    // two end characters are equal
    | InvalidEscapeCharacters   // the escape character is an end character
    | InvalidQuotedTextStart    // the current character is not the quote

  /** The scanner's fields: the stream position, `currentChar`, `reuseChar`
      and `readCharacters`. The counter is a `long` that pushing back may
      take below its starting value, so it is an `int`. */
  datatype ScanState = ScanState(pos: nat, cur: char, reuse: Option<char>, count: int)

  /** A fresh scanner: Java's default `char` is U+0000. */
  const Initial := ScanState(0, '\0', None, 0)

  predicate InBounds(input: seq<char>, s: ScanState)
  {
    s.pos <= |input|
  }

  /** The characters the scanner will hand out next: the pushed-back one,
      then the rest of the stream. */
  function Pending(input: seq<char>, s: ScanState): seq<char>
    requires InBounds(input, s)
  {
    (if s.reuse.Some? then [s.reuse.value] else []) + input[s.pos..]
  }

  /** Every successful read shortens the pending characters by one. */
  function Measure(input: seq<char>, s: ScanState): nat
  {
    (if s.pos <= |input| then |input| - s.pos else 0) + (if s.reuse.Some? then 1 else 0)
  }

  lemma MeasureIsPendingLength(input: seq<char>, s: ScanState)
    requires InBounds(input, s)
    ensures Measure(input, s) == |Pending(input, s)|
  {
  }

  /** `Utilities.anyCharsAreEqual`: some two of the characters are equal. */
  predicate HasDuplicates(cs: seq<char>)
  {
    exists i, j :: 0 <= i < j < |cs| && cs[i] == cs[j]
  }

  // ---------------------------------------------------------------------
  // readNextCharacter and reuseCurrentChar
  // ---------------------------------------------------------------------

  /** `readNextCharacter`: the pushed-back character if there is one, else
      the next one of the stream. */
  function NextChar(input: seq<char>, s: ScanState): (r: Result<ScanState, ScanError>)
    requires InBounds(input, s)
    ensures r.Failure? <==> Pending(input, s) == []
    ensures r.Failure? ==> r.error == PrematureEnd
    ensures r.Success? ==>
      && InBounds(input, r.value)
      && r.value.reuse.None?
      && r.value.cur == Pending(input, s)[0]
      && Pending(input, r.value) == Pending(input, s)[1..]
      && r.value.count == s.count + 1
      && Measure(input, r.value) < Measure(input, s)
  {
    if s.reuse.Some? then Success(s.(cur := s.reuse.value, reuse := None, count := s.count + 1))
    else if s.pos < |input| then
      assert input[s.pos..][1..] == input[s.pos + 1..];
      Success(s.(pos := s.pos + 1, cur := input[s.pos], count := s.count + 1))
    else Failure(PrematureEnd)
  }

  /** `reuseCurrentChar`. */
  function Reuse(s: ScanState): ScanState
  {
    s.(reuse := Some(s.cur), count := s.count - 1)
  }

  /** Pushing back and reading again hands out the same character and
      restores the counter. */
  lemma ReuseThenRead(input: seq<char>, s: ScanState)
    requires InBounds(input, s)
    ensures NextChar(input, Reuse(s)) == Success(s.(reuse := None))
  {
  }

  /** A character pushed back right after it was read is pending again: the
      read is undone. */
  lemma ReadThenReuse(input: seq<char>, s: ScanState)
    requires InBounds(input, s) && s.reuse.None? && Pending(input, s) != []
    ensures var s1 := NextChar(input, s).value;
      && Pending(input, Reuse(s1)) == Pending(input, s)
      && Reuse(s1).count == s.count
  {
    var p := Pending(input, s);
    assert [p[0]] + p[1..] == p;
  }

  // ---------------------------------------------------------------------
  // readNextNonWhitespace
  // ---------------------------------------------------------------------

  /** `readNextNonWhitespace`: read one character, then keep reading while
      the current one is whitespace. */
  function NonWhitespace(input: seq<char>, s: ScanState): (r: Result<ScanState, ScanError>)
    requires InBounds(input, s)
    ensures r.Success? ==>
      && InBounds(input, r.value)
      && r.value.reuse.None?
      && !IsWhitespace(r.value.cur)
      && Measure(input, r.value) < Measure(input, s)
    decreases Measure(input, s)
  {
    var s1 :- NextChar(input, s);
    if IsWhitespace(s1.cur) then NonWhitespace(input, s1) else Success(s1)
  }

  predicate AllWhitespace(w: seq<char>)
  {
    forall i :: 0 <= i < |w| ==> IsWhitespace(w[i])
  }

  /** The result is the first non-whitespace pending character; only the
      whitespace before it is consumed, and each character read counts. */
  lemma {:induction false} NonWhitespaceFindsFirst(input: seq<char>, s: ScanState, w: seq<char>, c: char, rest: seq<char>)
    requires InBounds(input, s) && Pending(input, s) == w + [c] + rest
    requires AllWhitespace(w) && !IsWhitespace(c)
    ensures var r := NonWhitespace(input, s);
      && r.Success? && r.value.cur == c && Pending(input, r.value) == rest
      && r.value.count == s.count + |w| + 1
    decreases |w|
  {
    if w == [] {
      assert w + [c] + rest == [c] + rest;
      var s1 := ReadsHead(input, s, c, rest);
    } else {
      assert w + [c] + rest == [w[0]] + (w[1..] + [c] + rest);
      var s1 := ReadsHead(input, s, w[0], w[1..] + [c] + rest);
      NonWhitespaceFindsFirst(input, s1, w[1..], c, rest);
    }
  }

  /** Only whitespace left: the read runs out of data. */
  lemma {:induction false} NonWhitespaceAllBlank(input: seq<char>, s: ScanState)
    requires InBounds(input, s)
    requires forall j :: 0 <= j < |Pending(input, s)| ==> IsWhitespace(Pending(input, s)[j])
    ensures NonWhitespace(input, s) == Failure(PrematureEnd)
    decreases Measure(input, s)
  {
    var p := Pending(input, s);
    if p != [] {
      var s1 := ReadsHead(input, s, p[0], p[1..]);
      NonWhitespaceAllBlank(input, s1);
    }
  }

  // ---------------------------------------------------------------------
  // readUpToNext
  // ---------------------------------------------------------------------

  /** After an escape character, the escape character itself, a line feed
      or an end character is kept; any other character is dropped with it. */
  predicate KeptAfterEscape(c: char, escape: Option<char>, ends: seq<char>)
  {
    escape == Some(c) || c == '\n' || c in ends
  }

  /** The loop of `readUpToNext`, from scanner state `s` with the text
      collected so far and whether the next character is escaped. */
  function UpToLoop(input: seq<char>, s: ScanState, inclusive: bool, escape: Option<char>, ends: seq<char>,
                    escaped: bool, text: string): (r: Result<(string, ScanState), ScanError>)
    requires InBounds(input, s)
    ensures r.Success? ==>
      && InBounds(input, r.value.1)
      && |text| <= |r.value.0|
      && r.value.0[..|text|] == text
      && (inclusive ==>
            && r.value.1.reuse.None?
            && r.value.1.cur in ends
            && |r.value.0| > |text|
            && r.value.0[|r.value.0| - 1] == r.value.1.cur)
      && (!inclusive ==> r.value.1.reuse.Some? && r.value.1.reuse.value in ends)
      && Measure(input, r.value.1) < Measure(input, s) + (if inclusive then 0 else 1)
    decreases Measure(input, s)
  {
    var s1 :- NextChar(input, s);
    var c := s1.cur;
    if !escaped then
      if escape == Some(c) then UpToLoop(input, s1, inclusive, escape, ends, true, text)
      else if c in ends then
        if inclusive then Success((text + [c], s1)) else Success((text, Reuse(s1)))
      else UpToLoop(input, s1, inclusive, escape, ends, false, text + [c])
    else if KeptAfterEscape(c, escape, ends) then
      UpToLoop(input, s1, inclusive, escape, ends, false, text + [c])
    else UpToLoop(input, s1, inclusive, escape, ends, false, text)
  }

  /** `readUpToNext(includeLimitChars, escapeCharacter, endChars)`: the
      current character followed by what is read up to the first unescaped
      end character, which is appended or pushed back. */
  function UpToNext(input: seq<char>, s: ScanState, inclusive: bool, escape: Option<char>, ends: seq<char>)
    : (r: Result<(string, ScanState), ScanError>)
    requires InBounds(input, s)
    ensures HasDuplicates(ends) ==> r == Failure(InvalidLimitCharacters)
    ensures !HasDuplicates(ends) && escape.Some? && escape.value in ends ==> r == Failure(InvalidEscapeCharacters)
    ensures r.Success? ==>
      && InBounds(input, r.value.1)
      && |r.value.0| >= 1 && r.value.0[0] == s.cur
      && (inclusive ==>
            && r.value.1.reuse.None?
            && r.value.1.cur in ends
            && |r.value.0| >= 2
            && r.value.0[|r.value.0| - 1] == r.value.1.cur)
      && (!inclusive ==> r.value.1.reuse.Some? && r.value.1.reuse.value in ends)
      && Measure(input, r.value.1) < Measure(input, s) + (if inclusive then 0 else 1)
  {
    if HasDuplicates(ends) then Failure(InvalidLimitCharacters)
    else if escape.Some? && escape.value in ends then Failure(InvalidEscapeCharacters)
    else UpToLoop(input, s, inclusive, escape, ends, false, [s.cur])
  }

  /** The text as a writer would escape it for `readUpToNext`: the escape
      character goes before each end character and before itself. Without an
      escape character the text is taken as it is. */
  function Escaped(t: string, escape: Option<char>, ends: seq<char>): string
  {
    if t == [] then [] else EscapeChar(t[0], escape, ends) + Escaped(t[1..], escape, ends)
  }

  function EscapeChar(x: char, escape: Option<char>, ends: seq<char>): (r: string)
    ensures r == [x] <==> !(escape.Some? && (x == escape.value || x in ends))
    ensures r != [x] ==> r == [escape.value, x]
  {
    if escape.Some? && (x == escape.value || x in ends) then [escape.value, x] else [x]
  }

  /** The escape and end characters `readUpToNext` accepts. */
  predicate ValidLimits(escape: Option<char>, ends: seq<char>)
  {
    !HasDuplicates(ends) && !(escape.Some? && escape.value in ends)
  }

  /** Text that needs no escaping: no end character in it. */
  predicate Unescapable(t: string, escape: Option<char>, ends: seq<char>)
  {
    escape.None? ==> forall i :: 0 <= i < |t| ==> t[i] !in ends
  }

  /** The state `readUpToNext` stops in, after reading `read` characters of
      which the last is the end character `e`. */
  predicate StopsAt(input: seq<char>, s: ScanState, inclusive: bool, e: char, rest: seq<char>, read: nat, s1: ScanState)
    requires InBounds(input, s) && InBounds(input, s1)
  {
    if inclusive then s1.reuse.None? && s1.cur == e && Pending(input, s1) == rest && s1.count == s.count + read
    else s1.reuse == Some(e) && Pending(input, s1) == [e] + rest && s1.count == s.count + read - 1
  }

  /** One step of the loop over an escaped text: the first character of
      the text, escaped or not, is read and kept. */
  lemma UpToLoopPeel(input: seq<char>, s: ScanState, inclusive: bool, escape: Option<char>, ends: seq<char>,
                     t: string, e: char, rest: seq<char>, text: string) returns (next: ScanState)
    requires InBounds(input, s) && ValidLimits(escape, ends) && t != []
    requires Unescapable(t, escape, ends)
    requires Pending(input, s) == Escaped(t, escape, ends) + [e] + rest
    ensures InBounds(input, next) && Unescapable(t[1..], escape, ends)
    ensures Pending(input, next) == Escaped(t[1..], escape, ends) + [e] + rest
    ensures next.count + |Escaped(t[1..], escape, ends)| == s.count + |Escaped(t, escape, ends)|
    ensures UpToLoop(input, s, inclusive, escape, ends, false, text)
         == UpToLoop(input, next, inclusive, escape, ends, false, text + [t[0]])
  {
    EscapedStep(t, escape, ends);
    var x := t[0];
    var tail := Escaped(t[1..], escape, ends) + [e] + rest;
    assert Escaped(t, escape, ends) + [e] + rest == EscapeChar(x, escape, ends) + tail;
    if escape.Some? && (x == escape.value || x in ends) {
      next := PeelEscaped(input, s, inclusive, escape.value, ends, x, tail, text);
    } else {
      next := PeelPlain(input, s, inclusive, escape, ends, x, tail, text);
    }
  }

  /** Escaping splits at the first character. */
  lemma EscapedStep(t: string, escape: Option<char>, ends: seq<char>)
    requires t != [] && Unescapable(t, escape, ends)
    ensures Escaped(t, escape, ends) == EscapeChar(t[0], escape, ends) + Escaped(t[1..], escape, ends)
    ensures Unescapable(t[1..], escape, ends)
    ensures escape.None? ==> t[0] !in ends
  {
    if escape.None? {
      assert t[0] !in ends;
      forall i | 0 <= i < |t[1..]| ensures t[1..][i] !in ends { assert t[1..][i] == t[i + 1]; }
    }
  }

  /** A character that is neither the escape nor an end character costs one
      read and is kept. */
  lemma PeelPlain(input: seq<char>, s: ScanState, inclusive: bool, escape: Option<char>, ends: seq<char>,
                  x: char, tail: seq<char>, text: string) returns (next: ScanState)
    requires InBounds(input, s) && Pending(input, s) == EscapeChar(x, escape, ends) + tail
    requires escape != Some(x) && x !in ends
    ensures InBounds(input, next) && Pending(input, next) == tail && next.count == s.count + 1
    ensures UpToLoop(input, s, inclusive, escape, ends, false, text)
         == UpToLoop(input, next, inclusive, escape, ends, false, text + [x])
  {
    next := ReadsHead(input, s, x, tail);
  }

  /** An escaped character costs two reads and is kept. */
  lemma PeelEscaped(input: seq<char>, s: ScanState, inclusive: bool, escape: char, ends: seq<char>,
                    x: char, tail: seq<char>, text: string) returns (next: ScanState)
    requires InBounds(input, s) && Pending(input, s) == EscapeChar(x, Some(escape), ends) + tail
    requires x == escape || x in ends
    ensures InBounds(input, next) && Pending(input, next) == tail && next.count == s.count + 2
    ensures UpToLoop(input, s, inclusive, Some(escape), ends, false, text)
         == UpToLoop(input, next, inclusive, Some(escape), ends, false, text + [x])
  {
    assert EscapeChar(x, Some(escape), ends) + tail == [escape] + ([x] + tail);
    var s1 := ReadsHead(input, s, escape, [x] + tail);
    next := ReadsHead(input, s1, x, tail);
    assert KeptAfterEscape(x, Some(escape), ends);
  }

  /** An escape followed by a character that is neither the escape, a line
      feed nor an end character: both are read and neither is kept. */
  lemma UpToLoopDropsEscaped(input: seq<char>, s: ScanState, inclusive: bool, escape: char, ends: seq<char>,
                             c: char, rest: seq<char>, text: string) returns (next: ScanState)
    requires InBounds(input, s) && Pending(input, s) == [escape, c] + rest
    requires !KeptAfterEscape(c, Some(escape), ends)
    ensures InBounds(input, next) && Pending(input, next) == rest && next.count == s.count + 2
    ensures UpToLoop(input, s, inclusive, Some(escape), ends, false, text)
         == UpToLoop(input, next, inclusive, Some(escape), ends, false, text)
  {
    assert [escape, c] + rest == [escape] + ([c] + rest);
    var s1 := ReadsHead(input, s, escape, [c] + rest);
    next := ReadsHead(input, s1, c, rest);
  }

  /** Reading when `a` is pending first hands out `a`. */
  lemma ReadsHead(input: seq<char>, s: ScanState, a: char, tail: seq<char>) returns (s1: ScanState)
    requires InBounds(input, s) && Pending(input, s) == [a] + tail
    ensures NextChar(input, s) == Success(s1)
    ensures InBounds(input, s1) && s1.cur == a && s1.reuse.None? && Pending(input, s1) == tail && s1.count == s.count + 1
  {
    s1 := NextChar(input, s).value;
    assert ([a] + tail)[1..] == tail;
  }

  /** The loop reads an escaped text back: the text unescaped, then the end
      character kept or pushed back. */
  lemma {:induction false} UpToLoopReadsEscaped(input: seq<char>, s: ScanState, inclusive: bool, escape: Option<char>,
                                                  ends: seq<char>, t: string, e: char, rest: seq<char>, text: string)
    requires InBounds(input, s) && ValidLimits(escape, ends) && e in ends
    requires Unescapable(t, escape, ends)
    requires Pending(input, s) == Escaped(t, escape, ends) + [e] + rest
    ensures var r := UpToLoop(input, s, inclusive, escape, ends, false, text);
      && r.Success?
      && r.value.0 == text + t + (if inclusive then [e] else [])
      && StopsAt(input, s, inclusive, e, rest, |Escaped(t, escape, ends)| + 1, r.value.1)
    decreases |t|
  {
    if t == [] {
      assert Pending(input, s) == [e] + rest;
      LoopReadsEnd(input, s, inclusive, escape, ends, e, rest, text);
      assert text + t == text;
    } else {
      var next := UpToLoopPeel(input, s, inclusive, escape, ends, t, e, rest, text);
      UpToLoopReadsEscaped(input, next, inclusive, escape, ends, t[1..], e, rest, text + [t[0]]);
      assert text + [t[0]] + t[1..] == text + t;
    }
  }

  /** An unescaped end character stops the loop. */
  lemma LoopReadsEnd(input: seq<char>, s: ScanState, inclusive: bool, escape: Option<char>,
                     ends: seq<char>, e: char, rest: seq<char>, text: string)
    requires InBounds(input, s) && ValidLimits(escape, ends) && e in ends
    requires Pending(input, s) == [e] + rest
    ensures var r := UpToLoop(input, s, inclusive, escape, ends, false, text);
      && r.Success?
      && r.value.0 == text + (if inclusive then [e] else [])
      && StopsAt(input, s, inclusive, e, rest, 1, r.value.1)
  {
    var s1 := ReadsHead(input, s, e, rest);
    assert escape != Some(e);
    if !inclusive {
      assert Pending(input, Reuse(s1)) == [e] + Pending(input, s1);
    }
  }

  /** `readUpToNext` over an escaped text followed by an end character
      returns the current character and the text unescaped. */
  lemma UpToNextReadsEscaped(input: seq<char>, s: ScanState, inclusive: bool, escape: Option<char>,
                             ends: seq<char>, t: string, e: char, rest: seq<char>)
    requires InBounds(input, s) && ValidLimits(escape, ends) && e in ends
    requires Unescapable(t, escape, ends)
    requires Pending(input, s) == Escaped(t, escape, ends) + [e] + rest
    ensures var r := UpToNext(input, s, inclusive, escape, ends);
      && r.Success?
      && r.value.0 == [s.cur] + t + (if inclusive then [e] else [])
      && StopsAt(input, s, inclusive, e, rest, |Escaped(t, escape, ends)| + 1, r.value.1)
  {
    UpToLoopReadsEscaped(input, s, inclusive, escape, ends, t, e, rest, [s.cur]);
  }

  /** Without an escape character a text is written as it is. */
  lemma {:induction false} EscapedWithoutEscape(t: string, ends: seq<char>)
    ensures Escaped(t, None, ends) == t
  {
    if t != [] {
      EscapedWithoutEscape(t[1..], ends);
      assert [t[0]] + t[1..] == t;
    }
  }

  /** Without an escape character the read stops at the first end character:
      what lies before it, none of it an end character, is returned after
      the current character. */
  lemma UpToNextStopsAtFirstEnd(input: seq<char>, s: ScanState, inclusive: bool, ends: seq<char>,
                                t: string, e: char, rest: seq<char>)
    requires InBounds(input, s) && !HasDuplicates(ends) && e in ends
    requires forall i :: 0 <= i < |t| ==> t[i] !in ends
    requires Pending(input, s) == t + [e] + rest
    ensures var r := UpToNext(input, s, inclusive, None, ends);
      && r.Success?
      && r.value.0 == [s.cur] + t + (if inclusive then [e] else [])
      && StopsAt(input, s, inclusive, e, rest, |t| + 1, r.value.1)
  {
    EscapedWithoutEscape(t, ends);
    UpToNextReadsEscaped(input, s, inclusive, None, ends, t, e, rest);
  }

  /** Without an escape character and with no end character left, the read
      runs out of data. */
  lemma {:induction false} UpToLoopNoEnd(input: seq<char>, s: ScanState, inclusive: bool, ends: seq<char>, text: string)
    requires InBounds(input, s)
    requires forall j :: 0 <= j < |Pending(input, s)| ==> Pending(input, s)[j] !in ends
    ensures UpToLoop(input, s, inclusive, None, ends, false, text) == Failure(PrematureEnd)
    decreases Measure(input, s)
  {
    var p := Pending(input, s);
    if p != [] {
      var s1 := ReadsHead(input, s, p[0], p[1..]);
      UpToLoopNoEnd(input, s1, inclusive, ends, text + [p[0]]);
    }
  }

  // ---------------------------------------------------------------------
  // readQuotedText
  // ---------------------------------------------------------------------

  /** `readQuotedText(quoteChar, escapeCharacter)`: the current character
      must be the quote; the result is what lies strictly between it and the
      next unescaped quote. */
  function QuotedText(input: seq<char>, s: ScanState, quote: char, escape: Option<char>)
    : (r: Result<(string, ScanState), ScanError>)
    requires InBounds(input, s)
    ensures s.cur != quote ==> r == Failure(InvalidQuotedTextStart)
    ensures s.cur == quote && escape == Some(quote) ==> r == Failure(InvalidEscapeCharacters)
    ensures r.Success? ==> InBounds(input, r.value.1) && r.value.1.reuse.None? && r.value.1.cur == quote
  {
    if s.cur != quote then Failure(InvalidQuotedTextStart)
    else
      var (text, s1) :- UpToNext(input, s, true, escape, [quote]);
      Success((text[1..|text| - 1], s1))
  }

  /** A quoted text written with its quotes and escape characters doubled up
      as `Escaped` puts them reads back as the original text. */
  lemma QuotedTextRoundTrip(input: seq<char>, s: ScanState, quote: char, escape: Option<char>,
                            t: string, rest: seq<char>)
    requires InBounds(input, s) && s.cur == quote && escape != Some(quote)
    requires Unescapable(t, escape, [quote])
    requires Pending(input, s) == Escaped(t, escape, [quote]) + [quote] + rest
    ensures var r := QuotedText(input, s, quote, escape);
      && r.Success? && r.value.0 == t
      && Pending(input, r.value.1) == rest
      && r.value.1.count == s.count + |Escaped(t, escape, [quote])| + 1
  {
    assert !HasDuplicates([quote]);
    UpToNextReadsEscaped(input, s, true, escape, [quote], t, quote, rest);
    var text := [s.cur] + t + [quote];
    assert text[1..|text| - 1] == t;
  }

  // ---------------------------------------------------------------------
  // The scanner object
  // ---------------------------------------------------------------------

  class BasicReader {
    /** The decoded stream, read front to back. */
    const input: seq<char>
    var pos: nat
    var currentChar: char
    var reuseChar: Option<char>
    var readCharacters: int

    function State(): ScanState
      reads this
    {
      ScanState(pos, currentChar, reuseChar, readCharacters)
    }

    ghost predicate Valid()
      reads this
    {
      pos <= |input|
    }

    constructor(input: seq<char>)
      ensures this.input == input && State() == Initial && Valid()
    {
      this.input := input;
      pos := 0;
      currentChar := '\0';
      reuseChar := None;
      readCharacters := 0;
    }

    /** `getReadCharacters`. */
    function GetReadCharacters(): int
      reads this
    {
      readCharacters
    }

    method ReuseCurrentChar()
      modifies this
      ensures State() == Reuse(old(State()))
    {
      reuseChar := Some(currentChar);
      readCharacters := readCharacters - 1;
    }

    method ReadNextCharacter() returns (r: Result<char, ScanError>)
      requires Valid()
      modifies this
      ensures Valid()
      ensures match NextChar(input, old(State()))
        case Success(s) => r == Success(s.cur) && State() == s
        case Failure(e) => r == Failure(e) && State() == old(State())
    {
      if reuseChar.Some? {
        currentChar := reuseChar.value;
        reuseChar := None;
        readCharacters := readCharacters + 1;
        return Success(currentChar);
      } else if pos < |input| {
        currentChar := input[pos];
        pos := pos + 1;
        readCharacters := readCharacters + 1;
        return Success(currentChar);
      } else {
        return Failure(PrematureEnd);
      }
    }

    method ReadNextNonWhitespace() returns (r: Result<char, ScanError>)
      requires Valid()
      modifies this
      ensures Valid()
      ensures match NonWhitespace(input, old(State()))
        case Success(s) => r == Success(s.cur) && State() == s
        case Failure(e) => r == Failure(e)
    {
      var c := ReadNextCharacter();
      if c.Failure? {
        return Failure(c.error);
      }
      while IsWhitespace(currentChar)
        invariant Valid()
        invariant NonWhitespace(input, old(State()))
               == if IsWhitespace(currentChar) then NonWhitespace(input, State()) else Success(State())
        decreases Measure(input, State())
      {
        c := ReadNextCharacter();
        if c.Failure? {
          return Failure(c.error);
        }
      }
      return Success(currentChar);
    }

    method ReadUpToNext(includeLimitChars: bool, escapeCharacter: Option<char>, endChars: seq<char>)
      returns (r: Result<string, ScanError>)
      requires Valid()
      modifies this
      ensures Valid()
      ensures match UpToNext(input, old(State()), includeLimitChars, escapeCharacter, endChars)
        case Success((t, s)) => r == Success(t) && State() == s
        case Failure(e) => r == Failure(e)
    {
      if HasDuplicates(endChars) {
        return Failure(InvalidLimitCharacters);
      } else if escapeCharacter.Some? && escapeCharacter.value in endChars {
        return Failure(InvalidEscapeCharacters);
      }
      var returnValue := [currentChar];
      var escapeNextCharacter := false;
      while true
        invariant Valid()
        invariant UpToLoop(input, State(), includeLimitChars, escapeCharacter, endChars, escapeNextCharacter, returnValue)
               == UpToNext(input, old(State()), includeLimitChars, escapeCharacter, endChars)
        decreases Measure(input, State())
      {
        var c := ReadNextCharacter();
        if c.Failure? {
          return Failure(c.error);
        }
        if !escapeNextCharacter {
          if escapeCharacter == Some(currentChar) {
            escapeNextCharacter := true;
          } else if currentChar in endChars {
            if includeLimitChars {
              returnValue := returnValue + [currentChar];
            } else {
              ReuseCurrentChar();
            }
            return Success(returnValue);
          } else {
            returnValue := returnValue + [currentChar];
          }
        } else {
          if KeptAfterEscape(currentChar, escapeCharacter, endChars) {
            returnValue := returnValue + [currentChar];
          }
          escapeNextCharacter := false;
        }
      }
    }

    method ReadQuotedText(quoteChar: char, escapeCharacter: Option<char>) returns (r: Result<string, ScanError>)
      requires Valid()
      modifies this
      ensures Valid()
      ensures match QuotedText(input, old(State()), quoteChar, escapeCharacter)
        case Success((t, s)) => r == Success(t) && State() == s
        case Failure(e) => r == Failure(e)
    {
      if currentChar != quoteChar {
        return Failure(InvalidQuotedTextStart);
      }
      var returnValue := ReadUpToNext(true, escapeCharacter, [quoteChar]);
      if returnValue.Failure? {
        return Failure(returnValue.error);
      }
      var text := returnValue.value;
      return Success(text[1..|text| - 1]);
    }
  }
}
