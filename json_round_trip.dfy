/** Writing a `JsonObject` with `toString` and reading the text back with
    `JsonUtilities.parseJsonData`. For an object whose values are literals,
    numbers and strings, the parser gives back the object as it was written
    except for two things: a string or key keeps the backslash `toString`
    put before each of its double quotes, and an `Integer` comes back as a
    `Long`. So exactly the objects without double quotes in their texts and
    without `Integer` values come back unchanged. */
module JsonRoundTrip {
  import opened Wrappers
  import opened Text
  import opened JsonValues
  import opened JsonScalars
  import opened JsonTree
  import opened JsonUtilities
  import JsonReader
  import JsonWriter

  // ---------------------------------------------------------------------
  // The objects covered
  // ---------------------------------------------------------------------

  /** A value `toString` writes without nesting, which the parser can take
      back: a literal, a 64-bit integer, a decimal text `new Double` accepts,
      or a string without backslashes. */
  predicate Flat(v: Json)
  {
    match v
    case Null => true
    case Bool(_) => true
    case Number(n) =>
      (match n
       case Narrow(i) => MinLong <= i <= MaxLong
       case Wide(l) => MinLong <= l <= MaxLong
       case Float(t) => NumberPattern(t) && '.' in t && DoubleSyntax(t))
    case Str(s) => NoBackslash(s)
    case Obj(_) => false
    case Arr(_) => false
  }

  predicate FlatMembers(ms: seq<Member>)
  {
    forall i :: 0 <= i < |ms| ==> NoBackslash(ms[i].key) && Flat(ms[i].value)
  }

  predicate Blank(w: string)
  {
    forall i :: 0 <= i < |w| ==> IsWhitespace(w[i])
  }

  /** Indentation, separator and line break that the parser skips. */
  predicate BlankFormat(f: Format)
  {
    Blank(f.indention) && Blank(f.separator) && Blank(f.linebreak)
  }

  /** What the parser gives back for a flat value: a string with its quotes
      still escaped, an `Integer` as a `Long`, anything else as it was. */
  function ReadBack(v: Json): Json
  {
    match v
    case Str(s) => Str(Escape(s))
    case Number(Narrow(i)) => Number(Wide(i))
    case _ => v
  }

  function ReadBackMembers(ms: seq<Member>): (r: seq<Member>)
    ensures |r| == |ms|
    ensures forall i :: 0 <= i < |ms| ==> r[i] == Member(Escape(ms[i].key), ReadBack(ms[i].value))
  {
    if ms == [] then [] else [Member(Escape(ms[0].key), ReadBack(ms[0].value))] + ReadBackMembers(ms[1..])
  }

  // ---------------------------------------------------------------------
  // The writer's text, read from the front
  // ---------------------------------------------------------------------

  /** The properties `toString` writes, as the parser meets them: each one
      after the `,` that ends the one before. */
  function Chain(ms: seq<Member>, f: Format, tab: string -> string): string
    requires ms != []
  {
    MemberText(ms[0], f, tab) + (if |ms| == 1 then "" else "," + Chain(ms[1..], f, tab))
  }

  lemma {:induction false} ChainSnoc(ms: seq<Member>, m: Member, f: Format, tab: string -> string)
    requires ms != []
    ensures Chain(ms + [m], f, tab) == Chain(ms, f, tab) + "," + MemberText(m, f, tab)
    decreases |ms|
  {
    var p := ms + [m];
    assert p[0] == ms[0];
    if |ms| == 1 {
      assert p[1..] == [m];
    } else {
      assert p[1..] == ms[1..] + [m];
      ChainSnoc(ms[1..], m, f, tab);
    }
  }

  /** The `,`-joined properties are the chain. */
  lemma {:induction false} JoinIsChain(ms: seq<Member>, f: Format, tab: string -> string)
    requires ms != []
    ensures Join(MemberTexts(ms, f, tab), ",") == Chain(ms, f, tab)
    decreases |ms|
  {
    var n := |ms|;
    if n == 1 {
      assert MemberTexts(ms, f, tab) == [MemberText(ms[0], f, tab)] by {
        assert ms[1..] == [];
      }
    } else {
      var init := ms[..n - 1];
      assert ms == init + [ms[n - 1]];
      MemberTextsSnoc(init, ms[n - 1], f, tab);
      var parts := MemberTexts(ms, f, tab);
      assert parts[..|parts| - 1] == MemberTexts(init, f, tab);
      JoinIsChain(init, f, tab);
      ChainSnoc(init, ms[n - 1], f, tab);
    }
  }

  // ---------------------------------------------------------------------
  // Unquoted texts
  // ---------------------------------------------------------------------

  /** A character the object parser adds to an unquoted value. */
  predicate Bare(c: char)
  {
    !IsWhitespace(c) && c != '\\' && c != ':' && c != ',' && c != '{' && c != '}' && c != '[' && c != ']' && c != '"'
  }

  /** The text of a flat value other than a string: every character is bare,
      every prefix passes the validation, and `getJsonValue` reads it as the
      value read back. */
  predicate UnquotedReadsAs(u: string, w: Json)
  {
    && u != []
    && (forall k :: 0 <= k < |u| ==> Bare(u[k]))
    && (forall k :: 1 <= k <= |u| ==> IsValidUnfinishedJsonValue(u[..k]))
    && GetJsonValue(u) == Success(w)
  }

  lemma {:induction false} PatternRunDigits(p: string, d: string)
    requires PatternRun(p) == Start || PatternRun(p) == AfterSign || PatternRun(p) == IntDigits
    requires d != [] && forall i :: 0 <= i < |d| ==> IsDigit(d[i])
    ensures PatternRun(p + d) == IntDigits
    decreases |d|
  {
    var s := p + d;
    var init := d[..|d| - 1];
    assert s[..|s| - 1] == p + init;
    assert s[|s| - 1] == d[|d| - 1];
    if init != [] {
      PatternRunDigits(p, init);
    } else {
      assert p + init == p;
    }
  }

  /** `Long.toString` writes text of the number pattern. */
  lemma {:induction false} IntTextMatches(i: int)
    ensures NumberPattern(IntToString(i)) && '.' !in IntToString(i)
  {
    var d := NatToString(if i < 0 then -i else i);
    if i < 0 {
      assert "-"[..0] == [];
      assert PatternRun("-") == AfterSign;
      PatternRunDigits("-", d);
      assert IntToString(i) == "-" + d;
    } else {
      assert PatternRun("") == Start;
      PatternRunDigits("", d);
      assert "" + d == d;
    }
  }

  /** A text of the number pattern is made of bare characters, and each of its
      prefixes passes the validation. */
  lemma {:induction false} NumberTextIsUnquoted(u: string)
    requires NumberPattern(u)
    ensures forall k :: 0 <= k < |u| ==> Bare(u[k])
    ensures forall k :: 1 <= k <= |u| ==> IsValidUnfinishedJsonValue(u[..k])
  {
    NumberPatternAlphabet(u);
    forall k | 1 <= k <= |u| ensures IsValidUnfinishedJsonValue(u[..k]) {
      NumberPatternPrefixClosed(u, k);
    }
  }

  /** A word of lower-case letters is made of bare characters, and each of
      its prefixes is a prefix of the word. */
  lemma {:induction false} WordIsUnquoted(u: string)
    requires u != [] && forall k :: 0 <= k < |u| ==> 'a' <= u[k] <= 'z'
    ensures forall k :: 0 <= k < |u| ==> Bare(u[k])
    ensures forall k :: 1 <= k <= |u| ==> IsLiteralPrefix(u[..k], u)
  {
    forall k | 1 <= k <= |u| ensures IsLiteralPrefix(u[..k], u) {
      assert EqualsIgnoreCase(u[..k], u[..k]);
    }
  }

  /** A literal is written as itself and read back in any case. */
  lemma {:induction false} LiteralIsUnquoted(u: string, w: Json)
    requires (u == "null" && w == Null) || (u == "true" && w == Bool(true)) || (u == "false" && w == Bool(false))
    ensures UnquotedReadsAs(u, w)
  {
    WordIsUnquoted(u);
    GetJsonValueLiterals(u);
    assert EqualsIgnoreCase(u, u);
  }

  lemma {:induction false} FlatUnquoted(v: Json)
    requires Flat(v) && !v.Str?
    ensures UnquotedReadsAs(ScalarText(v), ReadBack(v))
  {
    var u := ScalarText(v);
    match v
    case Null => LiteralIsUnquoted(u, Null);
    case Bool(b) => LiteralIsUnquoted(u, v);
    case Number(n) =>
      match n {
        case Narrow(i) =>
          IntTextMatches(i);
          NumberTextIsUnquoted(u);
          ParseLongOfToString(i);
        case Wide(l) =>
          IntTextMatches(l);
          NumberTextIsUnquoted(u);
          ParseLongOfToString(l);
        case Float(t) =>
          NumberTextIsUnquoted(u);
      }
  }

  // ---------------------------------------------------------------------
  // The object scan over the pieces of a property
  // ---------------------------------------------------------------------

  /** The object scan from `index` in state `st` gives `r`. */
  predicate ScansTo(data: seq<char>, index: nat, st: ObjectScanState, r: Result<(seq<Member>, nat), ParseError>)
  {
    ObjectScan(data, index, st) == r
  }

  /** The object scan from `index` in state `st` ends as the one from `j` in
      state `st2` does. */
  ghost predicate Continues(data: seq<char>, index: nat, st: ObjectScanState, j: nat, st2: ObjectScanState)
  {
    forall r :: ScansTo(data, j, st2, r) ==> ScansTo(data, index, st, r)
  }

  /** No key, quoted text or value is under way. */
  predicate Clean(st: ObjectScanState)
  {
    st.key.None? && st.quoted.None? && st.unquoted.None? && st.keyString.None? && st.value.None?
  }

  /** A key has been read and the value `w` is pending: quoted and done, or
      unquoted text that `getJsonValue` reads as `w`. */
  predicate Pending(st: ObjectScanState, w: Json)
  {
    && st.key.None? && st.quoted.None? && st.keyString.Some?
    && (if st.unquoted.Some? then Coerce(st.unquoted.value) == Success(w) else st.value == Some(w))
  }

  /** A `"` outside keys and quoted texts opens the key, or the value once a
      key has been read. */
  lemma {:induction false} OpenQuoteStep(st: ObjectScanState, index: nat)
    requires st.key.None? && st.quoted.None?
    ensures ObjectCharStep(st, '"', index)
         == if st.keyString.None? then ObjectNext(st.(key := Some(""), prev := '"')) else ObjectNext(st.(quoted := Some(""), prev := '"'))
  {
  }

  /** A `"` at `index`, outside keys and quoted texts. */
  lemma {:induction false} OpenQuote(data: seq<char>, index: nat, st: ObjectScanState)
    requires st.key.None? && st.quoted.None? && index < |data| && data[index] == '"'
    ensures st.keyString.None? ==> Continues(data, index, st, index + 1, st.(key := Some(""), prev := '"'))
    ensures st.keyString.Some? ==> Continues(data, index, st, index + 1, st.(quoted := Some(""), prev := '"'))
  {
    OpenQuoteStep(st, index);
    if st.keyString.None? {
      ObjectScanStep(data, index, st, st.(key := Some(""), prev := '"'));
    } else {
      ObjectScanStep(data, index, st, st.(quoted := Some(""), prev := '"'));
    }
  }

  /** The `:` after a key that has been read. */
  lemma {:induction false} ColonStep(data: seq<char>, index: nat, st: ObjectScanState)
    requires st.key.None? && st.quoted.None? && st.keyString.Some? && index < |data| && data[index] == ':'
    ensures Continues(data, index, st, index + 1, st.(prev := ':'))
  {
    assert ObjectCharStep(st, ':', index) == ObjectNext(st.(prev := ':'));
    ObjectScanStep(data, index, st, st.(prev := ':'));
  }

  /** A whitespace character outside keys and quoted texts. */
  lemma {:induction false} BlankStep(data: seq<char>, index: nat, st: ObjectScanState)
    requires st.key.None? && st.quoted.None? && index < |data| && IsWhitespace(data[index])
    ensures Continues(data, index, st, index + 1, st.(prev := data[index]))
  {
    assert ObjectCharStep(st, data[index], index) == ObjectNext(st.(prev := data[index]));
    ObjectScanStep(data, index, st, st.(prev := data[index]));
  }

  /** One character that leaves the parser inside the object. */
  lemma {:induction false} ObjectScanStep(data: seq<char>, index: nat, st: ObjectScanState, next: ObjectScanState)
    requires index < |data| && ObjectCharStep(st, data[index], index) == ObjectNext(next)
    ensures Continues(data, index, st, index + 1, next)
  {
    assert ObjectScan(data, index, st) == ObjectScan(data, index + 1, next);
  }

  /** A scan that continues as another one ends as that one does. */
  lemma {:induction false} ContinuesThen(data: seq<char>, index: nat, st: ObjectScanState, j: nat, st2: ObjectScanState,
                      r: Result<(seq<Member>, nat), ParseError>)
    requires Continues(data, index, st, j, st2) && ObjectScan(data, j, st2) == r
    ensures ObjectScan(data, index, st) == r
  {
    assert ScansTo(data, j, st2, r);
  }

  /** Whitespace outside keys and quoted values changes nothing but the
      previous character. */
  lemma {:induction false} SkipBlank(data: seq<char>, index: nat, st: ObjectScanState, w: string) returns (st2: ObjectScanState)
    requires st.key.None? && st.quoted.None? && Blank(w) && At(data, index, w)
    ensures st2 == st.(prev := st2.prev)
    ensures Continues(data, index, st, index + |w|, st2)
    decreases |w|
  {
    if w == [] {
      st2 := st;
    } else {
      AtHead(data, index, w);
      var c := w[0];
      assert IsWhitespace(c);
      assert Blank(w[1..]) by {
        forall i | 0 <= i < |w[1..]| ensures IsWhitespace(w[1..][i]) { assert w[1..][i] == w[i + 1]; }
      }
      assert index + 1 + |w[1..]| == index + |w|;
      BlankStep(data, index, st);
      st2 := SkipBlank(data, index + 1, st.(prev := c), w[1..]);
    }
  }

  /** The quoted-text loop reads a key. */
  lemma {:induction false} KeyScan(data: seq<char>, index: nat, st: ObjectScanState, t: string, j: nat)
    requires st.key.Some? && QuotedScan(data, index, st.prev, st.key.value) == Some((t, j))
    ensures Continues(data, index, st, j + 1, st.(keyString := Some(t), key := None, prev := '"'))
  {
    ObjectScanReadsKey(data, index, st, t, j);
  }

  /** The quoted-text loop reads a quoted value. */
  lemma {:induction false} QuotedValueScan(data: seq<char>, index: nat, st: ObjectScanState, t: string, j: nat)
    requires st.key.None? && st.quoted.Some? && QuotedScan(data, index, st.prev, st.quoted.value) == Some((t, j))
    ensures Continues(data, index, st, j + 1, st.(value := Some(Str(t)), quoted := None, prev := '"'))
  {
    ObjectScanReadsQuoted(data, index, st, t, j);
  }

  /** The rest of a quoted key after its opening quote. */
  lemma {:induction false} ReadKeyBody(data: seq<char>, index: nat, st: ObjectScanState, key: string)
    requires st.key == Some("") && st.prev == '"' && NoBackslash(key) && At(data, index, Escape(key) + "\"")
    ensures Continues(data, index, st, index + |Escape(key)| + 1,
                      st.(keyString := Some(Escape(key)), key := None, prev := '"'))
  {
    var e := Escape(key);
    assert "" + e == e;
    QuotedScanKeepsEscapes(data, index, '"', "", key);
    KeyScan(data, index, st, e, index + |e|);
  }

  /** A quoted key, escaped as `toString` writes it. */
  lemma {:induction false} ReadKey(data: seq<char>, index: nat, st: ObjectScanState, key: string)
    requires Clean(st) && NoBackslash(key) && At(data, index, "\"" + Escape(key) + "\"")
    ensures Continues(data, index, st, index + |Escape(key)| + 2, st.(keyString := Some(Escape(key)), prev := '"'))
  {
    var e := Escape(key);
    var w := ['"'] + (e + "\"");
    assert "\"" + e + "\"" == w;
    AtHead(data, index, w);
    assert w[0] == '"' && w[1..] == e + "\"";
    var inKey := st.(key := Some(""), prev := '"');
    assert inKey.(keyString := Some(e), key := None, prev := '"') == st.(keyString := Some(e), prev := '"');
    assert index + 1 + |e| + 1 == index + |e| + 2;
    OpenQuote(data, index, st);
    ReadKeyBody(data, index + 1, inKey, key);
  }

  /** A quoted key, escaped as `toString` writes it, and the `:` after it. */
  lemma {:induction false} ReadKeyColon(data: seq<char>, index: nat, st: ObjectScanState, key: string) returns (s3: ObjectScanState)
    requires Clean(st) && NoBackslash(key) && At(data, index, "\"" + Escape(key) + "\":")
    ensures s3 == st.(keyString := Some(Escape(key)), prev := ':')
    ensures Continues(data, index, st, index + |Escape(key)| + 3, s3)
  {
    var e := Escape(key);
    assert "\"" + e + "\":" == ("\"" + e + "\"") + ":";
    AtConcat(data, index, "\"" + e + "\"", ":");
    var i2 := index + |e| + 2;
    assert |"\"" + e + "\""| == |e| + 2;
    AtHead(data, i2, ":");
    var s2 := st.(keyString := Some(e), prev := '"');
    s3 := s2.(prev := ':');
    assert i2 + 1 == index + |e| + 3;
    ReadKey(data, index, st, key);
    ColonStep(data, i2, s2);
  }

  /** The line break and indentation, the key and the `:`. */
  lemma {:induction false} ReadLeadKey(data: seq<char>, index: nat, st: ObjectScanState, lead: string, key: string)
    returns (s3: ObjectScanState)
    requires Clean(st) && Blank(lead) && NoBackslash(key) && At(data, index, lead + "\"" + Escape(key) + "\":")
    ensures s3 == st.(keyString := Some(Escape(key)), prev := ':')
    ensures Continues(data, index, st, index + |lead| + |Escape(key)| + 3, s3)
  {
    var e := Escape(key);
    var q := "\"" + e + "\":";
    assert lead + "\"" + e + "\":" == lead + q;
    AtConcat(data, index, lead, q);
    var s1 := SkipBlank(data, index, st, lead);
    s3 := ReadKeyColon(data, index + |lead|, s1, key);
  }

  /** Everything of a property before its value: the line break and
      indentation, the key, the `:` and the separator. */
  lemma {:induction false} ReadKeyPart(data: seq<char>, index: nat, st: ObjectScanState, lead: string, key: string, sep: string)
    returns (s4: ObjectScanState)
    requires Clean(st) && Blank(lead) && Blank(sep) && NoBackslash(key)
    requires At(data, index, lead + "\"" + Escape(key) + "\":" + sep)
    ensures s4 == st.(keyString := Some(Escape(key)), prev := s4.prev)
    ensures Continues(data, index, st, index + |lead| + |Escape(key)| + 3 + |sep|, s4)
  {
    var e := Escape(key);
    var i3 := index + |lead| + |e| + 3;
    assert |lead + "\"" + e + "\":"| == |lead| + |e| + 3;
    AtConcat(data, index, lead + "\"" + e + "\":", sep);
    var s3 := ReadLeadKey(data, index, st, lead, key);
    s4 := SkipBlank(data, i3, s3, sep);
  }

  /** The rest of a quoted value after its opening quote. */
  lemma {:induction false} ReadQuotedBody(data: seq<char>, index: nat, st: ObjectScanState, s: string)
    requires st.key.None? && st.quoted == Some("") && st.prev == '"' && NoBackslash(s) && At(data, index, Escape(s) + "\"")
    ensures Continues(data, index, st, index + |Escape(s)| + 1,
                      st.(value := Some(Str(Escape(s))), quoted := None, prev := '"'))
  {
    var e := Escape(s);
    assert "" + e == e;
    QuotedScanKeepsEscapes(data, index, '"', "", s);
    QuotedValueScan(data, index, st, e, index + |e|);
  }

  /** A quoted string value, escaped as `toString` writes it. */
  lemma {:induction false} ReadQuotedValue(data: seq<char>, index: nat, st: ObjectScanState, s: string) returns (st2: ObjectScanState)
    requires st.key.None? && st.quoted.None? && st.unquoted.None? && st.keyString.Some?
    requires NoBackslash(s) && At(data, index, "\"" + Escape(s) + "\"")
    ensures st2 == st.(value := Some(Str(Escape(s))), prev := '"')
    ensures Continues(data, index, st, index + |Escape(s)| + 2, st2)
  {
    var e := Escape(s);
    var w := ['"'] + (e + "\"");
    assert "\"" + e + "\"" == w;
    AtHead(data, index, w);
    assert w[0] == '"' && w[1..] == e + "\"";
    var inValue := st.(quoted := Some(""), prev := '"');
    st2 := inValue.(value := Some(Str(e)), quoted := None, prev := '"');
    assert index + 1 + |e| + 1 == index + |e| + 2;
    OpenQuote(data, index, st);
    ReadQuotedBody(data, index + 1, inValue, s);
  }

  /** Unquoted text is collected character by character while each prefix
      passes the validation. */
  lemma {:induction false} ReadUnquoted(data: seq<char>, index: nat, st: ObjectScanState, acc: string, u: string)
    returns (st2: ObjectScanState)
    requires st.key.None? && st.quoted.None? && (if acc == [] then st.unquoted.None? else st.unquoted == Some(acc))
    requires u != [] && At(data, index, u)
    requires forall k :: 0 <= k < |u| ==> Bare(u[k])
    requires forall k :: 1 <= k <= |u| ==> IsValidUnfinishedJsonValue(acc + u[..k])
    ensures st2 == st.(unquoted := Some(acc + u), prev := st2.prev)
    ensures Continues(data, index, st, index + |u|, st2)
    decreases |u|
  {
    AtHead(data, index, u);
    var c := u[0];
    assert Bare(c);
    var acc1 := acc + [c];
    assert acc1 == acc + u[..1];
    assert (if st.unquoted.Some? then st.unquoted.value else "") + [c] == acc1;
    var st1 := st.(unquoted := Some(acc1), prev := c);
    assert ObjectCharStep(st, data[index], index) == ObjectNext(st1);
    if |u| == 1 {
      st2 := st1;
      assert acc + u == acc1;
      ObjectScanStep(data, index, st, st1);
    } else {
      var tail := u[1..];
      forall k | 0 <= k < |tail| ensures Bare(tail[k]) { assert tail[k] == u[k + 1]; }
      forall k | 1 <= k <= |tail| ensures IsValidUnfinishedJsonValue(acc1 + tail[..k]) {
        assert acc1 + tail[..k] == acc + u[..k + 1];
      }
      assert acc1 + tail == acc + u;
      assert index + 1 + |tail| == index + |u|;
      ObjectScanStep(data, index, st, st1);
      st2 := ReadUnquoted(data, index + 1, st1, acc1, tail);
    }
  }

  /** The text of a flat value other than a string. */
  lemma {:induction false} ReadUnquotedValue(data: seq<char>, index: nat, st: ObjectScanState, u: string, w: Json)
    returns (st2: ObjectScanState)
    requires st.key.None? && st.quoted.None? && st.unquoted.None? && st.value.None? && st.keyString.Some?
    requires UnquotedReadsAs(u, w) && At(data, index, u)
    ensures Pending(st2, w)
    ensures st2.keyString == st.keyString && st2.members == st.members
    ensures Continues(data, index, st, index + |u|, st2)
  {
    forall k | 1 <= k <= |u| ensures IsValidUnfinishedJsonValue("" + u[..k]) {
      assert "" + u[..k] == u[..k];
    }
    assert "" + u == u;
    st2 := ReadUnquoted(data, index, st, "", u);
  }

  /** A string value; afterwards it is pending. */
  lemma {:induction false} ReadStrValue(data: seq<char>, index: nat, st: ObjectScanState, v: Json, f: Format, tab: string -> string)
    returns (st2: ObjectScanState)
    requires st.key.None? && st.quoted.None? && st.unquoted.None? && st.value.None? && st.keyString.Some?
    requires v.Str? && Flat(v) && At(data, index, ValueText(v, f, tab))
    ensures Pending(st2, ReadBack(v))
    ensures st2.keyString == st.keyString && st2.members == st.members
    ensures Continues(data, index, st, index + |ValueText(v, f, tab)|, st2)
  {
    assert ValueText(v, f, tab) == "\"" + Escape(v.s) + "\"";
    st2 := ReadQuotedValue(data, index, st, v.s);
    assert index + |Escape(v.s)| + 2 == index + |ValueText(v, f, tab)|;
  }

  /** A flat value other than a string; afterwards it is pending. */
  lemma {:induction false} ReadBareValue(data: seq<char>, index: nat, st: ObjectScanState, v: Json, u: string)
    returns (st2: ObjectScanState)
    requires st.key.None? && st.quoted.None? && st.unquoted.None? && st.value.None? && st.keyString.Some?
    requires !v.Str? && Flat(v) && u == ScalarText(v) && At(data, index, u)
    ensures Pending(st2, ReadBack(v))
    ensures st2.keyString == st.keyString && st2.members == st.members
    ensures Continues(data, index, st, index + |u|, st2)
  {
    FlatUnquoted(v);
    st2 := ReadUnquotedValue(data, index, st, u, ReadBack(v));
  }

  /** A flat value; afterwards it is pending. */
  lemma {:induction false} ReadValue(data: seq<char>, index: nat, st: ObjectScanState, v: Json, f: Format, tab: string -> string)
    returns (st2: ObjectScanState)
    requires st.key.None? && st.quoted.None? && st.unquoted.None? && st.value.None? && st.keyString.Some?
    requires Flat(v) && At(data, index, ValueText(v, f, tab))
    ensures Pending(st2, ReadBack(v))
    ensures st2.keyString == st.keyString && st2.members == st.members
    ensures Continues(data, index, st, index + |ValueText(v, f, tab)|, st2)
  {
    if v.Str? {
      st2 := ReadStrValue(data, index, st, v, f, tab);
    } else {
      assert ValueText(v, f, tab) == ScalarText(v);
      st2 := ReadBareValue(data, index, st, v, ValueText(v, f, tab));
    }
  }

  /** A whole property; afterwards its value is pending. */
  lemma {:induction false} ReadProperty(data: seq<char>, index: nat, st: ObjectScanState, m: Member, f: Format, tab: string -> string)
    returns (st2: ObjectScanState)
    requires Clean(st) && BlankFormat(f) && NoBackslash(m.key) && Flat(m.value)
    requires At(data, index, MemberText(m, f, tab))
    ensures Pending(st2, ReadBack(m.value)) && st2.keyString == Some(Escape(m.key)) && st2.members == st.members
    ensures Continues(data, index, st, index + |MemberText(m, f, tab)|, st2)
  {
    var lead := f.linebreak + f.indention;
    var e := Escape(m.key);
    var vt := ValueText(m.value, f, tab);
    BlankConcat(f.linebreak, f.indention);
    PropertySplit(data, index, lead, e, f.separator, vt);
    var s4 := ReadKeyPart(data, index, st, lead, m.key, f.separator);
    st2 := ReadValue(data, index + |lead| + |e| + 3 + |f.separator|, s4, m.value, f, tab);
  }

  lemma {:induction false} BlankConcat(a: string, b: string)
    requires Blank(a) && Blank(b)
    ensures Blank(a + b)
  {
    forall i | 0 <= i < |a + b| ensures IsWhitespace((a + b)[i]) {
      if i < |a| { assert (a + b)[i] == a[i]; } else { assert (a + b)[i] == b[i - |a|]; }
    }
  }

  /** The text of a property: what comes before its value, and the value. */
  lemma {:induction false} PropertySplit(data: seq<char>, index: nat, lead: string, e: string, sep: string, vt: string)
    requires At(data, index, lead + "\"" + e + "\":" + sep + vt)
    ensures At(data, index, lead + "\"" + e + "\":" + sep)
    ensures At(data, index + |lead| + |e| + 3 + |sep|, vt)
    ensures index + |lead| + |e| + 3 + |sep| + |vt| == index + |lead + "\"" + e + "\":" + sep + vt|
  {
    AtConcat(data, index, lead + "\"" + e + "\":" + sep, vt);
  }

  /** The `}` after a pending value adds it as the last property. */
  lemma {:induction false} EndLast(data: seq<char>, index: nat, st: ObjectScanState, w: Json)
    requires Pending(st, w) && index < |data| && data[index] == '}'
    ensures ObjectScan(data, index, st) == Success((AddMember(st.members, st.keyString.value, w), index))
  {
  }

  /** The `,` after a pending value adds it as a property and starts the next. */
  lemma {:induction false} EndComma(data: seq<char>, index: nat, st: ObjectScanState, w: Json)
    requires Pending(st, w) && index < |data| && data[index] == ','
    ensures Continues(data, index, st, index + 1, ObjectStart.(members := AddMember(st.members, st.keyString.value, w), prev := ','))
  {
    assert ObjectCharStep(st, data[index], index)
        == ObjectNext(ObjectStart.(members := AddMember(st.members, st.keyString.value, w), prev := ','));
    ObjectScanStep(data, index, st, ObjectStart.(members := AddMember(st.members, st.keyString.value, w), prev := ','));
  }

  /** The key at position `|done|` differs from every earlier one. */
  lemma {:induction false} FreshKey(done: seq<Member>, m: Member, rest: seq<Member>)
    requires DistinctKeys(done + [m] + rest)
    ensures !HasKey(done, m.key) && DistinctKeys(done + [m]) && DistinctKeys((done + [m]) + rest)
  {
    var all := done + [m] + rest;
    assert all[|done|] == m;
    forall i | 0 <= i < |done| ensures done[i].key != m.key { assert all[i] == done[i]; }
    var d := done + [m];
    forall i, j | 0 <= i < j < |d| ensures d[i].key != d[j].key { assert all[i] == d[i] && all[j] == d[j]; }
    assert (done + [m]) + rest == all;
  }

  /** The line break and the `}` after the pending value `w`. */
  lemma {:induction false} EndObject(data: seq<char>, index: nat, st: ObjectScanState, w: Json, lb: string)
    requires Pending(st, w) && Blank(lb) && At(data, index, lb + "}")
    ensures ObjectScan(data, index, st) == Success((AddMember(st.members, st.keyString.value, w), index + |lb|))
  {
    AtConcat(data, index, lb, "}");
    AtHead(data, index + |lb|, "}");
    var st2 := SkipBlank(data, index, st, lb);
    EndLast(data, index + |lb|, st2, w);
    ContinuesThen(data, index, st, index + |lb|, st2, Success((AddMember(st.members, st.keyString.value, w), index + |lb|)));
  }

  /** The last property, the line break and the closing `}`. */
  lemma {:induction false} ReadLast(data: seq<char>, index: nat, st: ObjectScanState, m: Member, f: Format, tab: string -> string)
    requires Clean(st) && BlankFormat(f) && NoBackslash(m.key) && Flat(m.value)
    requires At(data, index, MemberText(m, f, tab)) && At(data, index + |MemberText(m, f, tab)|, f.linebreak + "}")
    ensures ObjectScan(data, index, st)
         == Success((AddMember(st.members, Escape(m.key), ReadBack(m.value)), index + |MemberText(m, f, tab)| + |f.linebreak|))
  {
    var i1 := index + |MemberText(m, f, tab)|;
    var st1 := ReadProperty(data, index, st, m, f, tab);
    EndObject(data, i1, st1, ReadBack(m.value), f.linebreak);
    ContinuesThen(data, index, st, i1, st1, Success((AddMember(st1.members, st1.keyString.value, ReadBack(m.value)), i1 + |f.linebreak|)));
  }

  /** The state after the `,` that ends the property `m`. */
  function AfterComma(st: ObjectScanState, m: Member): ObjectScanState
  {
    ObjectStart.(members := AddMember(st.members, Escape(m.key), ReadBack(m.value)), prev := ',')
  }

  /** A property that is not the last, and the `,` after it. */
  lemma {:induction false} ReadNext(data: seq<char>, index: nat, st: ObjectScanState, m: Member, f: Format, tab: string -> string)
    requires Clean(st) && BlankFormat(f) && NoBackslash(m.key) && Flat(m.value)
    requires At(data, index, MemberText(m, f, tab)) && At(data, index + |MemberText(m, f, tab)|, ",")
    ensures Continues(data, index, st, index + |MemberText(m, f, tab)| + 1, AfterComma(st, m))
  {
    var mt := MemberText(m, f, tab);
    AtHead(data, index + |mt|, ",");
    var st1 := ReadProperty(data, index, st, m, f, tab);
    EndComma(data, index + |mt|, st1, ReadBack(m.value));
  }

  /** A key that differs from all earlier and later ones is appended. */
  lemma {:induction false} AppendFresh(done: seq<Member>, m: Member, tail: seq<Member>)
    requires DistinctKeys(done + ([m] + tail))
    ensures AddMember(done, m.key, m.value) + tail == done + ([m] + tail)
    ensures DistinctKeys(AddMember(done, m.key, m.value) + tail)
  {
    assert done + ([m] + tail) == done + [m] + tail;
    FreshKey(done, m, tail);
    assert IndexOfKey(done, m.key) == -1;
    assert AddMember(done, m.key, m.value) == done + [m];
  }

  /** Reading the first of the remaining properties appends it. */
  lemma {:induction false} AddFirst(done: seq<Member>, rest: seq<Member>)
    requires rest != [] && DistinctKeys(done + ReadBackMembers(rest))
    ensures var ms := AddMember(done, Escape(rest[0].key), ReadBack(rest[0].value));
      && ms + ReadBackMembers(rest[1..]) == done + ReadBackMembers(rest)
      && DistinctKeys(ms + ReadBackMembers(rest[1..]))
  {
    var m' := Member(Escape(rest[0].key), ReadBack(rest[0].value));
    var tail := ReadBackMembers(rest[1..]);
    assert ReadBackMembers(rest) == [m'] + tail;
    AppendFresh(done, m', tail);
  }

  lemma {:induction false} FlatTail(rest: seq<Member>)
    requires rest != [] && FlatMembers(rest)
    ensures NoBackslash(rest[0].key) && Flat(rest[0].value) && FlatMembers(rest[1..])
  {
    forall i | 0 <= i < |rest[1..]| ensures NoBackslash(rest[1..][i].key) && Flat(rest[1..][i].value) {
      assert rest[1..][i] == rest[i + 1];
    }
  }

  /** A chain of several properties is its first property, a `,` and the
      chain of the others. */
  lemma {:induction false} ChainSplit(data: seq<char>, index: nat, rest: seq<Member>, f: Format, tab: string -> string)
    requires |rest| > 1 && At(data, index, Chain(rest, f, tab))
    ensures var k := index + |MemberText(rest[0], f, tab)| + 1;
      && At(data, index, MemberText(rest[0], f, tab))
      && At(data, index + |MemberText(rest[0], f, tab)|, ",")
      && At(data, k, Chain(rest[1..], f, tab))
      && k + |Chain(rest[1..], f, tab)| == index + |Chain(rest, f, tab)|
  {
    var mt := MemberText(rest[0], f, tab);
    var c1 := Chain(rest[1..], f, tab);
    assert Chain(rest, f, tab) == mt + ("," + c1);
    AtComma(data, index, mt, c1);
  }

  /** Text `a`, a `,` and text `b`. */
  lemma {:induction false} AtComma(data: seq<char>, index: nat, a: string, b: string)
    requires At(data, index, a + ("," + b))
    ensures At(data, index, a) && At(data, index + |a|, ",") && At(data, index + |a| + 1, b)
    ensures index + |a| + 1 + |b| == index + |a + ("," + b)|
  {
    AtConcat(data, index, a, "," + b);
    AtConcat(data, index + |a|, ",", b);
  }

  /** What the first property and its `,` leave for the rest of the chain. */
  lemma {:induction false} ChainFacts(st: ObjectScanState, rest: seq<Member>)
    requires |rest| > 1 && FlatMembers(rest)
    requires DistinctKeys(st.members + ReadBackMembers(rest))
    ensures var next := AfterComma(st, rest[0]);
      && Clean(next) && FlatMembers(rest[1..]) && NoBackslash(rest[0].key) && Flat(rest[0].value)
      && DistinctKeys(next.members + ReadBackMembers(rest[1..]))
      && next.members + ReadBackMembers(rest[1..]) == st.members + ReadBackMembers(rest)
  {
    AddFirst(st.members, rest);
    FlatTail(rest);
  }

  /** A chain of one property is that property, read as the last one. */
  lemma {:induction false} ChainLast(st: ObjectScanState, rest: seq<Member>, f: Format, tab: string -> string)
    requires |rest| == 1 && FlatMembers(rest)
    requires DistinctKeys(st.members + ReadBackMembers(rest))
    ensures Chain(rest, f, tab) == MemberText(rest[0], f, tab)
    ensures NoBackslash(rest[0].key) && Flat(rest[0].value)
    ensures AddMember(st.members, Escape(rest[0].key), ReadBack(rest[0].value)) == st.members + ReadBackMembers(rest)
  {
    var m := rest[0];
    var ms := AddMember(st.members, Escape(m.key), ReadBack(m.value));
    AddFirst(st.members, rest);
    FlatTail(rest);
    assert Chain(rest, f, tab) == MemberText(m, f, tab) + "";
    assert ReadBackMembers(rest[1..]) == [];
    assert ms + [] == ms;
  }

  /** After a property that is not the last and its `,`, the scan goes on
      as it does from the next property. */
  lemma {:induction false} ReadNextThen(data: seq<char>, index: nat, st: ObjectScanState, m: Member, f: Format, tab: string -> string,
                     r: Result<(seq<Member>, nat), ParseError>)
    requires Clean(st) && BlankFormat(f) && NoBackslash(m.key) && Flat(m.value)
    requires At(data, index, MemberText(m, f, tab)) && At(data, index + |MemberText(m, f, tab)|, ",")
    requires ObjectScan(data, index + |MemberText(m, f, tab)| + 1, AfterComma(st, m)) == r
    ensures ObjectScan(data, index, st) == r
  {
    ReadNext(data, index, st, m, f, tab);
    assert ScansTo(data, index + |MemberText(m, f, tab)| + 1, AfterComma(st, m), r);
  }

  /** The properties from `rest[0]` on, each ended by `,`, the last one by
      the line break and `}`. */
  lemma {:induction false} ReadChain(data: seq<char>, index: nat, st: ObjectScanState, rest: seq<Member>,
                                     f: Format, tab: string -> string)
    requires Clean(st) && BlankFormat(f) && rest != [] && FlatMembers(rest)
    requires DistinctKeys(st.members + ReadBackMembers(rest))
    requires At(data, index, Chain(rest, f, tab)) && At(data, index + |Chain(rest, f, tab)|, f.linebreak + "}")
    ensures ObjectScan(data, index, st)
         == Success((st.members + ReadBackMembers(rest), index + |Chain(rest, f, tab)| + |f.linebreak|))
    decreases |rest|
  {
    if |rest| == 1 {
      ChainLast(st, rest, f, tab);
      ReadLast(data, index, st, rest[0], f, tab);
    } else {
      var next := AfterComma(st, rest[0]);
      var k := index + |MemberText(rest[0], f, tab)| + 1;
      ChainSplit(data, index, rest, f, tab);
      ChainFacts(st, rest);
      ReadChain(data, k, next, rest[1..], f, tab);
      ReadNext(data, index, st, rest[0], f, tab);
      ContinuesThen(data, index, st, k, next,
                    Success((st.members + ReadBackMembers(rest), index + |Chain(rest, f, tab)| + |f.linebreak|)));
    }
  }

  // ---------------------------------------------------------------------
  // The round trip
  // ---------------------------------------------------------------------

  /** Escaping is one-to-one, so distinct keys stay distinct. */
  lemma {:induction false} ReadBackKeepsDistinct(ms: seq<Member>)
    requires DistinctKeys(ms)
    ensures DistinctKeys(ReadBackMembers(ms))
  {
    var r := ReadBackMembers(ms);
    forall i, j | 0 <= i < j < |r| ensures r[i].key != r[j].key {
      EscapeOnlyQuotes(ms[i].key);
      EscapeOnlyQuotes(ms[j].key);
    }
  }

  /** Blank text up to the end. */
  lemma {:induction false} BlankTail(s: string, k: nat, w: string)
    requires At(s, k, w) && Blank(w) && k + |w| == |s|
    ensures forall j :: k <= j < |s| ==> IsWhitespace(s[j])
  {
    forall j | k <= j < |s| ensures IsWhitespace(s[j]) {
      AtIndex(s, k, w, j - k);
    }
  }

  /** A concatenation holds both of its parts. */
  lemma {:induction false} AtParts(a: string, b: string)
    ensures At(a + b, 0, a) && At(a + b, |a|, b)
  {
    AtSuffix(a + b, 0);
    assert (a + b)[0..] == a + b;
    AtConcat(a + b, 0, a, b);
  }

  /** The text of a non-empty object: `{`, the chain of its properties, the
      line break, `}` and the line break again. */
  lemma {:induction false} DocumentShape(ms: seq<Member>, f: Format, tab: string -> string)
    requires ms != [] && BlankFormat(f)
    ensures var s := ObjectText(ms, f, tab);
            var c := Chain(ms, f, tab);
      && |s| > 0 && s[0] == '{'
      && At(s, 1, c) && At(s, 1 + |c|, f.linebreak + "}")
      && 1 + |c| + |f.linebreak| < |s|
      && forall j :: 1 + |c| + |f.linebreak| < j < |s| ==> IsWhitespace(s[j])
  {
    JoinIsChain(ms, f, tab);
    DocumentFrame(ObjectText(ms, f, tab), Chain(ms, f, tab), f.linebreak);
  }

  /** `{`, a text `c`, the blank line break `lb`, `}` and `lb` again. */
  lemma {:induction false} DocumentFrame(s: string, c: string, lb: string)
    requires s == "{" + c + lb + "}" + lb && Blank(lb)
    ensures && |s| > 0 && s[0] == '{'
            && At(s, 1, c) && At(s, 1 + |c|, lb + "}")
            && 1 + |c| + |lb| < |s|
            && forall j :: 1 + |c| + |lb| < j < |s| ==> IsWhitespace(s[j])
  {
    var head := "{" + (c + (lb + "}"));
    assert s == head + lb;
    assert |head| == 1 + |c| + |lb| + 1;
    DocumentHead(s, head, c, lb);
    DocumentTail(s, head, lb, 1 + |c| + |lb|);
  }

  lemma {:induction false} DocumentHead(s: string, head: string, c: string, lb: string)
    requires head == "{" + (c + (lb + "}")) && s == head + lb
    ensures |s| > 0 && s[0] == '{' && At(s, 1, c) && At(s, 1 + |c|, lb + "}")
  {
    AtParts(head, lb);
    AtConcat(s, 0, "{", c + (lb + "}"));
    AtConcat(s, 1, c, lb + "}");
  }

  lemma {:induction false} DocumentTail(s: string, head: string, lb: string, e: nat)
    requires s == head + lb && Blank(lb) && e + 1 == |head|
    ensures e < |s| && forall j :: e < j < |s| ==> IsWhitespace(s[j])
  {
    AtParts(head, lb);
    BlankTail(s, |head|, lb);
  }

  /** `parseJsonData(toString(...))` on an object of flat values, written with
      blank indentation, separator and line break: the properties come back
      in order, each key and string with its quotes still escaped and each
      `Integer` as a `Long`. */
  lemma {:induction false} ObjectTextReadsBack(ms: seq<Member>, f: Format, tab: string -> string)
    requires DistinctKeys(ms) && FlatMembers(ms) && BlankFormat(f)
    ensures ParseDocument(ObjectText(ms, f, tab)) == Success(ReadBackMembers(ms))
  {
    if ms == [] {
      EmptyObjectReadsBack(f, tab);
    } else {
      PropertiesReadBack(ms, f, tab);
    }
  }

  /** `{}` reads back as no properties. */
  lemma {:induction false} EmptyObjectReadsBack(f: Format, tab: string -> string)
    ensures ParseDocument(ObjectText([], f, tab)) == Success([])
  {
    var s := ObjectText([], f, tab);
    assert s == "{}";
    assert ObjectScan(s, 1, ObjectStart) == Success(([], 1));
    FramedParseDocument(s, 0, 1, []);
  }

  /** At least one property: the chain of properties read from just after
      `{`, then the frame. */
  lemma {:induction false} PropertiesReadBack(ms: seq<Member>, f: Format, tab: string -> string)
    requires ms != [] && DistinctKeys(ms) && FlatMembers(ms) && BlankFormat(f)
    ensures ParseDocument(ObjectText(ms, f, tab)) == Success(ReadBackMembers(ms))
  {
    var s := ObjectText(ms, f, tab);
    var c := Chain(ms, f, tab);
    DocumentShape(ms, f, tab);
    ReadBackKeepsDistinct(ms);
    assert ObjectStart.members + ReadBackMembers(ms) == ReadBackMembers(ms);
    var e := 1 + |c| + |f.linebreak|;
    ReadChain(s, 1, ObjectStart, ms, f, tab);
    FramedObject(s, e, ReadBackMembers(ms));
  }

  /** A document that starts with `{`, whose object scan from just after it
      ends at `e`, followed only by whitespace. */
  lemma {:induction false} FramedObject(s: string, e: nat, r: seq<Member>)
    requires 0 < e < |s| && s[0] == '{' && forall j :: e < j < |s| ==> IsWhitespace(s[j])
    requires ObjectScan(s, 1, ObjectStart) == Success((r, e))
    ensures ParseDocument(s) == Success(r)
  {
    FramedParseDocument(s, 0, e, r);
  }

  /** Escaping leaves a text alone exactly when it holds no double quote. */
  lemma {:induction false} EscapeIdentity(s: string)
    ensures Escape(s) == s <==> '"' !in s
    decreases |s|
  {
    EscapeOnlyQuotes(s);
    MapIdentity(s);
  }

  lemma {:induction false} MapIdentity(s: string)
    ensures MapChar(s, '"', "\\\"") == s <==> '"' !in s
    decreases |s|
  {
    if s != [] {
      MapIdentity(s[1..]);
      assert s == [s[0]] + s[1..];
      var tail := MapChar(s[1..], '"', "\\\"");
      if s[0] == '"' {
        assert MapChar(s, '"', "\\\"")[0] == '\\';
      } else {
        assert MapChar(s, '"', "\\\"") == [s[0]] + tail;
        assert '"' in s <==> '"' in s[1..];
        if tail != s[1..] {
          assert ([s[0]] + tail)[1..] == tail;
        }
      }
    }
  }

  /** What comes back equals what was written exactly when no key or string
      holds a double quote and no value is an `Integer`. */
  lemma {:induction false} ReadBackIdentity(ms: seq<Member>)
    ensures ReadBackMembers(ms) == ms <==>
      forall i :: 0 <= i < |ms| ==>
        && '"' !in ms[i].key
        && (ms[i].value.Str? ==> '"' !in ms[i].value.s)
        && !(ms[i].value.Number? && ms[i].value.n.Narrow?)
  {
    var r := ReadBackMembers(ms);
    if r == ms {
      forall i | 0 <= i < |ms|
        ensures '"' !in ms[i].key && (ms[i].value.Str? ==> '"' !in ms[i].value.s)
        ensures !(ms[i].value.Number? && ms[i].value.n.Narrow?)
      {
        assert r[i] == ms[i];
        EscapeIdentity(ms[i].key);
        if ms[i].value.Str? { EscapeIdentity(ms[i].value.s); }
      }
    } else {
      var i :| 0 <= i < |ms| && r[i] != ms[i];
      EscapeIdentity(ms[i].key);
      if ms[i].value.Str? { EscapeIdentity(ms[i].value.s); }
    }
  }

  /** Hence the round trip `parseJsonData(toString(o)) == o` holds for flat
      objects whose texts hold no double quote and no backslash and that hold
      no `Integer`. */
  lemma {:induction false} ObjectTextRoundTrips(ms: seq<Member>, f: Format, tab: string -> string)
    requires DistinctKeys(ms) && FlatMembers(ms) && BlankFormat(f)
    requires forall i :: 0 <= i < |ms| ==>
      && '"' !in ms[i].key
      && (ms[i].value.Str? ==> '"' !in ms[i].value.s)
      && !(ms[i].value.Number? && ms[i].value.n.Narrow?)
    ensures ParseDocument(ObjectText(ms, f, tab)) == Success(ms)
  {
    ObjectTextReadsBack(ms, f, tab);
    ReadBackIdentity(ms);
  }

  // ---------------------------------------------------------------------
  // An escaped double quote
  // ---------------------------------------------------------------------

  /** The string `a"b` is written as `"a\"b"` and read back as `a\"b`. */
  lemma {:induction false} QuoteReadBackWithBackslash(tab: string -> string)
    ensures ParseDocument(ObjectText([Member("k", Str("a\"b"))], Format("", "", ""), tab))
         == Success([Member("k", Str("a\\\"b"))])
  {
    var ms := [Member("k", Str("a\"b"))];
    assert Escape("k") == "k" by { EscapeIdentity("k"); }
    assert Escape("a\"b") == "a\\\"b" by {
      EscapeOnlyQuotes("a\"b");
      assert "a\"b"[1..] == "\"b" && "\"b"[1..] == "b" && "b"[1..] == [];
    }
    assert NoBackslash("a\"b");
    assert FlatMembers(ms);
    assert BlankFormat(Format("", "", ""));
    ObjectTextReadsBack(ms, Format("", "", ""), tab);
    assert ReadBackMembers(ms) == [Member("k", Str("a\\\"b"))];
  }

  /** Read as the strict reader reads quoted text, where a backslash makes the
      next character literal and is dropped, the escaping `toString` uses gives
      every text without a backslash back. */
  lemma {:induction false} IntendedUnescapeReadsBack(s: string, rest: string)
    requires NoBackslash(s)
    ensures JsonReader.QuotedText(Escape(s) + "\"" + rest, 0, false, "") == Success((s, |Escape(s)| + 1))
  {
    JsonWriter.EscapeAgreesWithoutBackslash(s);
    JsonWriter.EscapeBothReadsBack(s, rest);
  }
}
