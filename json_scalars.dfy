/** The scalar rules shared by the tree parsers and the readers: validation of
    an unquoted value while it is being scanned, and its coercion into a
    literal or a number. */
module JsonScalars {
  import opened Wrappers
  import opened Text
  import opened JsonValues

  datatype ScalarError =
    | BadNumber(text: string)   // the number constructor rejects the text
    | NotAValue(text: string)   // neither a literal nor the number pattern

  // ---------------------------------------------------------------------
  // The pattern [+|-]?[0-9]*(\.[0-9]*)?([e|E][+|-]?[0-9]*)?
  //
  // Both character classes contain '|': [+|-] is {'+', '|', '-'} and
  // [e|E] is {'e', '|', 'E'}. The regular expression is compiled here into
  // a deterministic automaton. A leading '|' may be the optional sign or,
  // with empty integer and fraction parts, the exponent marker; the state
  // AfterBar keeps both readings. Every part of the pattern may stop
  // anywhere, so every live state accepts.
  // ---------------------------------------------------------------------

  datatype PatternState =
    | Start        // nothing read
    | AfterSign    // '+' or '-' read as the sign
    | AfterBar     // a leading '|': a sign, or an exponent marker
    | IntDigits    // inside [0-9]*
    | Fraction     // after '.' and inside its digits
    | ExpMark      // after the exponent marker
    | ExpSign      // after the exponent's sign
    | ExpDigits    // inside the exponent's digits
    | Dead         // no way to complete a match

  predicate IsSignChar(c: char) { c == '+' || c == '|' || c == '-' }

  predicate IsExponentChar(c: char) { c == 'e' || c == '|' || c == 'E' }

  function PatternStep(q: PatternState, c: char): PatternState
  {
    match q
    case Start =>
      if c == '+' || c == '-' then AfterSign
      else if c == '|' then AfterBar
      else if IsDigit(c) then IntDigits
      else if c == '.' then Fraction
      else if IsExponentChar(c) then ExpMark
      else Dead
    case AfterSign =>
      if IsDigit(c) then IntDigits
      else if c == '.' then Fraction
      else if IsExponentChar(c) then ExpMark
      else Dead
    case AfterBar =>
      // as a sign: digits, '.', or an exponent marker follow;
      // as an exponent marker: an exponent sign or digits follow
      if IsDigit(c) then IntDigits
      else if c == '.' then Fraction
      else if IsExponentChar(c) then ExpMark
      else if c == '+' || c == '-' then ExpSign
      else Dead
    case IntDigits =>
      if IsDigit(c) then IntDigits
      else if c == '.' then Fraction
      else if IsExponentChar(c) then ExpMark
      else Dead
    case Fraction =>
      if IsDigit(c) then Fraction
      else if IsExponentChar(c) then ExpMark
      else Dead
    case ExpMark =>
      if IsSignChar(c) then ExpSign
      else if IsDigit(c) then ExpDigits
      else Dead
    case ExpSign =>
      if IsDigit(c) then ExpDigits else Dead
    case ExpDigits =>
      if IsDigit(c) then ExpDigits else Dead
    case Dead => Dead
  }

  function PatternRun(s: string): PatternState
  {
    if s == [] then Start else PatternStep(PatternRun(s[..|s| - 1]), s[|s| - 1])
  }

  /** `Pattern.matches("[+|-]?[0-9]*(\\.[0-9]*)?([e|E][+|-]?[0-9]*)?", s)`. */
  predicate NumberPattern(s: string)
  {
    PatternRun(s) != Dead
  }

  /** Only the pattern's alphabet can occur in a matching string. */
  lemma {:induction false} NumberPatternAlphabet(s: string)
    requires NumberPattern(s)
    ensures forall i :: 0 <= i < |s| ==> IsDigit(s[i]) || IsSignChar(s[i]) || IsExponentChar(s[i]) || s[i] == '.'
  {
    if s != [] {
      var p := s[..|s| - 1];
      assert PatternRun(s) == PatternStep(PatternRun(p), s[|s| - 1]);
      assert PatternRun(p) != Dead;
      NumberPatternAlphabet(p);
      assert forall i :: 0 <= i < |p| ==> s[i] == p[i];
    }
  }

  /** Every prefix of a matching string matches. */
  lemma {:induction false} NumberPatternPrefixClosed(s: string, n: nat)
    requires n <= |s| && NumberPattern(s)
    ensures NumberPattern(s[..n])
    decreases |s| - n
  {
    if n < |s| {
      var p := s[..|s| - 1];
      assert PatternRun(s) == PatternStep(PatternRun(p), s[|s| - 1]);
      assert PatternRun(p) != Dead;
      NumberPatternPrefixClosed(p, n);
      assert p[..n] == s[..n];
    } else {
      assert s[..n] == s;
    }
  }

  // ---------------------------------------------------------------------
  // JsonUtilities.isValidUnfinishedJsonValue
  // ---------------------------------------------------------------------

  /** `value` is a non-empty, case-insensitive prefix of `word`. */
  predicate IsLiteralPrefix(value: string, word: string)
  {
    1 <= |value| <= |word| && EqualsIgnoreCase(value, word[..|value|])
  }

  predicate IsValidUnfinishedJsonValue(value: string)
  {
    || IsLiteralPrefix(value, "true")
    || IsLiteralPrefix(value, "false")
    || IsLiteralPrefix(value, "null")
    || NumberPattern(value)
  }

  /** The validation accepts exactly the strings that some continuation could
      still turn into a literal or a number: it is closed under prefixes
      (the empty string included). */
  lemma ValidUnfinishedPrefixClosed(value: string, n: nat)
    requires n <= |value| && IsValidUnfinishedJsonValue(value)
    ensures IsValidUnfinishedJsonValue(value[..n])
  {
    if NumberPattern(value) {
      NumberPatternPrefixClosed(value, n);
    } else if n == 0 {
      assert value[..0] == [];
      assert PatternRun([]) == Start;
    } else {
      var p := value[..n];
      assert forall i :: 0 <= i < n ==> p[i] == value[i];
      if IsLiteralPrefix(value, "true") {
        assert IsLiteralPrefix(p, "true");
      } else if IsLiteralPrefix(value, "false") {
        assert IsLiteralPrefix(p, "false");
      } else {
        assert IsLiteralPrefix(p, "null");
      }
    }
  }

  // ---------------------------------------------------------------------
  // Number constructors: new Long(text), new Integer(text), new Double(text)
  // ---------------------------------------------------------------------

  predicate AllDigits(s: string)
  {
    forall i :: 0 <= i < |s| ==> IsDigit(s[i])
  }

  /** The value of a string of decimal digits. */
  function DigitsValue(s: string): (n: nat)
    requires AllDigits(s)
  {
    if s == [] then 0 else DigitsValue(s[..|s| - 1]) * 10 + (s[|s| - 1] as int - '0' as int)
  }

  /** `Long.parseLong`: an optional '+' or '-', at least one digit, and a value
      inside the signed 64-bit range. */
  function ParseLong(s: string): (r: Option<int>)
    ensures r.Some? ==> MinLong <= r.value <= MaxLong
  {
    if s == [] then None
    else
      var negative := s[0] == '-';
      var digits := if s[0] == '+' || s[0] == '-' then s[1..] else s;
      if digits == [] || !AllDigits(digits) then None
      else
        var magnitude: int := DigitsValue(digits);
        var v := if negative then -magnitude else magnitude;
        if MinLong <= v <= MaxLong then Some(v) else None
  }

  lemma {:induction false} DigitsValueOfNat(n: nat)
    ensures AllDigits(NatToString(n)) && DigitsValue(NatToString(n)) == n
  {
    var s := NatToString(n);
    if n >= 10 {
      DigitsValueOfNat(n / 10);
      var p := NatToString(n / 10);
      assert s == p + [DigitChar(n % 10)];
      assert s[..|s| - 1] == p;
    }
  }

  /** Reading back what `Long.toString` writes gives the same number. */
  lemma ParseLongOfToString(n: int)
    requires MinLong <= n <= MaxLong
    ensures ParseLong(IntToString(n)) == Some(n)
  {
    var s := IntToString(n);
    if n < 0 {
      var d := NatToString(-n);
      DigitsValueOfNat(-n);
      assert s == "-" + d && s[0] == '-' && s[1..] == d;
      assert ParseLong(s) == Some(n);
    } else {
      var d := NatToString(n);
      DigitsValueOfNat(n);
      assert s == d && IsDigit(s[0]);
      assert ParseLong(s) == Some(n);
    }
  }

  /** The syntax `Double.valueOf` accepts, over the characters the number
      pattern lets through: an optional sign, digits with an optional '.' and
      optional fraction digits (or '.' and at least one digit), and an optional
      exponent with at least one digit. */
  datatype DoubleState = D0 | DSign | DInt | DDotOnly | DFrac | DExp | DExpSign | DExpDigits | DDead

  function DoubleStep(q: DoubleState, c: char): DoubleState
  {
    match q
    case D0 => if c == '+' || c == '-' then DSign else if IsDigit(c) then DInt else if c == '.' then DDotOnly else DDead
    case DSign => if IsDigit(c) then DInt else if c == '.' then DDotOnly else DDead
    case DInt => if IsDigit(c) then DInt else if c == '.' then DFrac else if c == 'e' || c == 'E' then DExp else DDead
    case DDotOnly => if IsDigit(c) then DFrac else DDead
    case DFrac => if IsDigit(c) then DFrac else if c == 'e' || c == 'E' then DExp else DDead
    case DExp => if c == '+' || c == '-' then DExpSign else if IsDigit(c) then DExpDigits else DDead
    case DExpSign => if IsDigit(c) then DExpDigits else DDead
    case DExpDigits => if IsDigit(c) then DExpDigits else DDead
    case DDead => DDead
  }

  function DoubleRun(s: string): DoubleState
  {
    if s == [] then D0 else DoubleStep(DoubleRun(s[..|s| - 1]), s[|s| - 1])
  }

  predicate DoubleSyntax(s: string)
  {
    var q := DoubleRun(s);
    q == DInt || q == DFrac || q == DExpDigits
  }

  /** `new Double(text)`: the value is kept as its text. */
  function ParseDouble(text: string): Result<Num, ScalarError>
  {
    if DoubleSyntax(text) then Success(Float(text)) else Failure(BadNumber(text))
  }

  // ---------------------------------------------------------------------
  // JsonUtilities.getJsonValue
  // ---------------------------------------------------------------------

  /** One of the three literals, in any letter case. */
  predicate IsLiteral(value: string)
  {
    EqualsIgnoreCase(value, "true") || EqualsIgnoreCase(value, "false") || EqualsIgnoreCase(value, "null")
  }

  /** No literal matches the number pattern: each starts with a letter outside
      the pattern's alphabet. */
  lemma NumbersAreNotLiterals(value: string)
    ensures NumberPattern(value) ==> !IsLiteral(value)
  {
    if NumberPattern(value) && |value| > 0 {
      NumberPatternAlphabet(value);
      var c := value[0];
      assert IsDigit(c) || IsSignChar(c) || IsExponentChar(c) || c == '.';
      assert ToUpperChar(c) != 'T' && ToUpperChar(c) != 'F' && ToUpperChar(c) != 'N';
    }
  }

  /** Coerces the unquoted text collected by the tree parsers. Integers are
      always `Long` here. */
  function GetJsonValue(value: string): (r: Result<Json, ScalarError>)
    ensures r.Success? ==> IsValidUnfinishedJsonValue(value)
    ensures r.Success? && r.value.Number? ==>
      && NumberPattern(value)
      && (r.value.n.Float? <==> '.' in value)
      && (r.value.n.Wide? <==> '.' !in value)
      && (r.value.n.Wide? ==> ParseLong(value) == Some(r.value.n.l))
    ensures r.Success? ==> r.value.Null? || r.value.Bool? || r.value.Number?
    ensures NumberPattern(value) && '.' !in value && ParseLong(value).Some? ==>
      r == Success(Number(Wide(ParseLong(value).value)))
    ensures NumberPattern(value) && '.' !in value && ParseLong(value).None? ==> r == Failure(BadNumber(value))
    ensures NumberPattern(value) && '.' in value ==>
      r == if DoubleSyntax(value) then Success(Number(Float(value))) else Failure(BadNumber(value))
    ensures !IsLiteral(value) && !NumberPattern(value) ==> r == Failure(NotAValue(value))
  {
    NumbersAreNotLiterals(value);
    if EqualsIgnoreCase(value, "true") then
      assert IsLiteralPrefix(value, "true");
      Success(Bool(true))
    else if EqualsIgnoreCase(value, "false") then
      assert IsLiteralPrefix(value, "false");
      Success(Bool(false))
    else if EqualsIgnoreCase(value, "null") then
      assert IsLiteralPrefix(value, "null");
      Success(Null)
    else if NumberPattern(value) then
      if '.' in value then
        var d :- ParseDouble(value);
        Success(Number(d))
      else
        match ParseLong(value)
        case Some(n) => Success(Number(Wide(n)))
        case None => Failure(BadNumber(value))
    else Failure(NotAValue(value))
  }

  /** The literals are recognised in any letter case. */
  lemma GetJsonValueLiterals(value: string)
    ensures EqualsIgnoreCase(value, "true") ==> GetJsonValue(value) == Success(Bool(true))
    ensures EqualsIgnoreCase(value, "false") ==> GetJsonValue(value) == Success(Bool(false))
    ensures EqualsIgnoreCase(value, "null") ==> GetJsonValue(value) == Success(Null)
  {
    if EqualsIgnoreCase(value, "null") {
      assert ToUpperChar(value[0]) == 'N';
    }
  }

  /** Text outside the literals and the number pattern is rejected. */
  lemma GetJsonValueRejects(value: string)
    requires !EqualsIgnoreCase(value, "true") && !EqualsIgnoreCase(value, "false") && !EqualsIgnoreCase(value, "null")
    requires !NumberPattern(value)
    ensures GetJsonValue(value) == Failure(NotAValue(value))
  {
  }

  /** An exponent without '.' matches the pattern but is handed to the 64-bit
      integer constructor, which refuses it. */
  lemma ExponentWithoutDotFails()
    ensures NumberPattern("1e5")
    ensures GetJsonValue("1e5") == Failure(BadNumber("1e5"))
  {
    assert "1e5"[..2] == "1e";
    assert "1e"[..1] == "1";
    assert "1"[..0] == [];
  }

  // ---------------------------------------------------------------------
  // JsonReader.readSimpleJsonValue (strict reader) and the number split
  // ---------------------------------------------------------------------

  /** An integer becomes `Integer` inside the signed 32-bit range and `Long`
      outside it. */
  function NarrowOrWide(n: int): (r: Num)
    ensures r.Narrow? <==> MinInt <= n <= MaxInt
    ensures r.Narrow? ==> r.i == n
    ensures r.Wide? ==> r.l == n
  {
    if MinInt <= n <= MaxInt then Narrow(n) else Wide(n)
  }

  /** The decimal part of both readers' scalar coercion. */
  function DecimalValue(value: string): (r: Result<Json, ScalarError>)
    requires NumberPattern(value)
    ensures r.Success? ==> r.value.Number?
    ensures r.Success? ==> (r.value.n.Float? <==> '.' in value)
    ensures r.Success? && !r.value.n.Float? ==>
      ParseLong(value).Some? && r.value.n == NarrowOrWide(ParseLong(value).value)
    ensures '.' !in value && ParseLong(value).Some? ==> r == Success(Number(NarrowOrWide(ParseLong(value).value)))
    ensures '.' in value && DoubleSyntax(value) ==> r == Success(Number(Float(value)))
    ensures r.Failure? <==> ('.' in value && !DoubleSyntax(value)) || ('.' !in value && ParseLong(value).None?)
    ensures r.Failure? ==> r.error == BadNumber(value)
  {
    if '.' in value then
      var d :- ParseDouble(value);
      Success(Number(d))
    else
      match ParseLong(value)
      case Some(n) => Success(Number(NarrowOrWide(n)))
      case None => Failure(BadNumber(value))
  }

  /** `JsonReader.readSimpleJsonValue`: the literals in any letter case, then
      the number pattern, with integers narrowed inside the 32-bit range. */
  function SimpleJsonValue(value: string): (r: Result<Json, ScalarError>)
    ensures r.Success? ==> r.value.Null? || r.value.Bool? || r.value.Number?
    ensures r.Success? ==> IsValidUnfinishedJsonValue(value)
    ensures EqualsIgnoreCase(value, "null") ==> r == Success(Null)
    ensures EqualsIgnoreCase(value, "true") ==> r == Success(Bool(true))
    ensures EqualsIgnoreCase(value, "false") ==> r == Success(Bool(false))
    ensures NumberPattern(value) && '.' !in value && ParseLong(value).Some? ==>
      r == Success(Number(NarrowOrWide(ParseLong(value).value)))
    ensures NumberPattern(value) && '.' in value && DoubleSyntax(value) ==> r == Success(Number(Float(value)))
    ensures NumberPattern(value) && r.Failure? ==> r.error == BadNumber(value)
    ensures !IsLiteral(value) && !NumberPattern(value) ==> r == Failure(NotAValue(value))
  {
    NumbersAreNotLiterals(value);
    if EqualsIgnoreCase(value, "null") then
      assert IsLiteralPrefix(value, "null");
      Success(Null)
    else if EqualsIgnoreCase(value, "true") then
      assert IsLiteralPrefix(value, "true");
      Success(Bool(true))
    else if EqualsIgnoreCase(value, "false") then
      assert IsLiteralPrefix(value, "false");
      Success(Bool(false))
    else if NumberPattern(value) then DecimalValue(value)
    else Failure(NotAValue(value))
  }

  /** The strict reader and the tree parser agree on everything except the
      width of integers: the reader narrows those inside the 32-bit range. */
  lemma SimpleValueAgreesWithGetJsonValue(value: string)
    ensures SimpleJsonValue(value).Success? <==> GetJsonValue(value).Success?
    ensures GetJsonValue(value).Success? ==>
      var a := SimpleJsonValue(value).value;
      var b := GetJsonValue(value).value;
      if b.Number? && b.n.Wide? then a == Number(NarrowOrWide(b.n.l)) else a == b
  {
    GetJsonValueLiterals(value);
    if !EqualsIgnoreCase(value, "null") && !EqualsIgnoreCase(value, "true") && !EqualsIgnoreCase(value, "false") {
      if NumberPattern(value) && '.' !in value {
        assert SimpleJsonValue(value) == DecimalValue(value);
      }
    }
  }

  /** A small integer: the tree parsers read it as a `Long`, the readers as an
      `Integer`. */
  lemma SmallIntegerWidths()
    ensures GetJsonValue("42") == Success(Number(Wide(42)))
    ensures SimpleJsonValue("42") == Success(Number(Narrow(42)))
  {
    assert "42"[..1] == "4" && "4"[..0] == [];
    assert NumberPattern("42");
    assert AllDigits("42") && "42"[..1] == "4";
    assert DigitsValue("42") == 42;
    assert ParseLong("42") == Some(42);
  }

  // ---------------------------------------------------------------------
  // Json5Reader.readSimpleJsonValue
  // ---------------------------------------------------------------------

  function HexDigitValue(c: char): (d: nat)
    requires IsHexDigit(c)
    ensures d < 16
  {
    if IsDigit(c) then c as int - '0' as int
    else if 'a' <= c <= 'f' then c as int - 'a' as int + 10
    else c as int - 'A' as int + 10
  }

  predicate AllHexDigits(s: string)
  {
    forall i :: 0 <= i < |s| ==> IsHexDigit(s[i])
  }

  function HexValue(s: string): nat
    requires AllHexDigits(s)
  {
    if s == [] then 0 else HexValue(s[..|s| - 1]) * 16 + HexDigitValue(s[|s| - 1])
  }

  /** `Pattern.matches("0(x|X)[0-9A-Fa-f]+", s)`. */
  predicate HexPattern(s: string)
  {
    |s| >= 3 && s[0] == '0' && (s[1] == 'x' || s[1] == 'X') && AllHexDigits(s[2..])
  }

  /** A hexadecimal literal. `Long.parseLong(digits, 16)` fails above the 64-bit
      range; inside the 32-bit range the text, prefix included, is handed to
      `new Integer`, which refuses it, so only values beyond 32 bits succeed. */
  function HexLiteral(s: string): (r: Result<Json, ScalarError>)
    requires HexPattern(s)
    ensures r.Success? <==> MaxInt < HexValue(s[2..]) <= MaxLong
    ensures r.Success? ==> r == Success(Number(Wide(HexValue(s[2..]))))
  {
    var v := HexValue(s[2..]);
    if v > MaxLong then Failure(BadNumber(s))
    else if MinInt <= v <= MaxInt then Failure(BadNumber(s))
    else Success(Number(Wide(v)))
  }

  function Json5SimpleValue(value: string): (r: Result<Json, ScalarError>)
    ensures r.Success? ==> r.value.Null? || r.value.Bool? || r.value.Number?
    ensures !Json5Extra(value) ==> r == SimpleJsonValue(value)
  {
    if EqualsIgnoreCase(value, "null") then Success(Null)
    else if EqualsIgnoreCase(value, "true") then Success(Bool(true))
    else if EqualsIgnoreCase(value, "false") then Success(Bool(false))
    else if EqualsIgnoreCase(value, "Infinity") then Success(Number(Float("Infinity")))
    else if EqualsIgnoreCase(value, "-Infinity") then Success(Number(Float("-Infinity")))
    else if EqualsIgnoreCase(value, "NaN") then Success(Number(Float("NaN")))
    else if EqualsIgnoreCase(value, "-NaN") then Success(Number(Float("NaN")))
    else if HexPattern(value) then HexLiteral(value)
    else if NumberPattern(value) then DecimalValue(value)
    else Failure(NotAValue(value))
  }

  /** The lenient dialect accepts every scalar the strict reader accepts, with
      the same value. */
  lemma Json5ExtendsStrictScalars(value: string)
    requires SimpleJsonValue(value).Success?
    ensures Json5SimpleValue(value) == SimpleJsonValue(value)
  {
    if !EqualsIgnoreCase(value, "null") && !EqualsIgnoreCase(value, "true") && !EqualsIgnoreCase(value, "false") {
      assert NumberPattern(value);
      NumberPatternAlphabet(value);
      if |value| >= 2 {
        assert ToUpperChar(value[1]) != 'I' && ToUpperChar(value[1]) != 'N' && value[1] != 'x' && value[1] != 'X';
      }
      if |value| >= 1 {
        assert ToUpperChar(value[0]) != 'I' && ToUpperChar(value[0]) != 'N';
      }
      assert !EqualsIgnoreCase(value, "Infinity") && !EqualsIgnoreCase(value, "-Infinity");
      assert !EqualsIgnoreCase(value, "NaN") && !EqualsIgnoreCase(value, "-NaN");
      assert !HexPattern(value);
    }
  }

  /** The texts only the lenient dialect gives a meaning to: the infinities,
      `NaN` and hexadecimal literals. */
  predicate Json5Extra(value: string)
  {
    || EqualsIgnoreCase(value, "Infinity") || EqualsIgnoreCase(value, "-Infinity")
    || EqualsIgnoreCase(value, "NaN") || EqualsIgnoreCase(value, "-NaN")
    || HexPattern(value)
  }

  /** Outside those texts the lenient reader is the strict one, failures
      included; on those texts the strict reader fails. */
  lemma {:induction false} Json5DiffersOnlyOnExtras(value: string)
    ensures !Json5Extra(value) ==> Json5SimpleValue(value) == SimpleJsonValue(value)
    ensures Json5Extra(value) ==> SimpleJsonValue(value).Failure?
  {
    if Json5Extra(value) {
      assert |value| >= 3;
      assert !EqualsIgnoreCase(value, "null") && !EqualsIgnoreCase(value, "true") && !EqualsIgnoreCase(value, "false") by {
        assert ToUpperChar(value[0]) != 'N' || ToUpperChar(value[1]) != 'U';
        assert ToUpperChar(value[0]) != 'T' && ToUpperChar(value[0]) != 'F';
      }
      var u := ToUpperChar(value[1]);
      assert u == 'N' || u == 'A' || u == 'I' || u == 'X';
      if NumberPattern(value) {
        NumberPatternAlphabet(value);
        assert false;
      }
    }
  }

  /** A hexadecimal literal inside the 32-bit range is refused. */
  lemma SmallHexLiteralFails()
    ensures Json5SimpleValue("0x1F").Failure?
  {
    var a := "0x1F";
    assert ToUpperChar(a[0]) == '0';
    assert a[2..] == "1F";
    assert "1F"[..1] == "1";
    assert HexValue("1F") == 31;
  }

  /** A hexadecimal literal beyond 32 bits becomes a wide integer. */
  lemma LargeHexLiteralIsWide()
    ensures Json5SimpleValue("0x100000000") == Success(Number(Wide(0x1_0000_0000)))
  {
    var b := "0x100000000";
    assert ToUpperChar(b[0]) == '0';
    var d := "100000000";
    assert b[2..] == d;
    HexOneThenZeros(d, 8);
  }

  /** "1" followed by `k` zeros is 16 to the power `k`. */
  lemma {:induction false} HexOneThenZeros(d: string, k: nat)
    requires |d| == k + 1 && d[0] == '1' && forall i :: 1 <= i < |d| ==> d[i] == '0'
    ensures AllHexDigits(d) && HexValue(d) == Pow16(k)
  {
    if k > 0 {
      HexOneThenZeros(d[..k], k - 1);
    }
  }

  function Pow16(k: nat): nat
  {
    if k == 0 then 1 else 16 * Pow16(k - 1)
  }
}
