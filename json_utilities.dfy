/** `JsonUtilities.parseJsonData`: a whole document is one JSON object,
    optionally surrounded by whitespace. The scalar helpers of the same class
    (`isValidUnfinishedJsonValue`, `getJsonValue`) live in `JsonScalars`. */
module JsonUtilities {
  import opened Wrappers
  import opened Text
  import opened JsonValues
  import opened JsonScalars
  import opened JsonTree

  /** The first index at or after `i` that does not hold whitespace, or `|s|`. */
  function FirstNonWhitespace(s: string, i: nat): (k: nat)
    requires i <= |s|
    ensures i <= k <= |s|
    ensures forall j :: i <= j < k ==> IsWhitespace(s[j])
    ensures k < |s| ==> !IsWhitespace(s[k])
    decreases |s| - i
  {
    if i == |s| || !IsWhitespace(s[i]) then i else FirstNonWhitespace(s, i + 1)
  }

  /** What `parseJsonData` makes of a document: the properties of its one
      object. An empty or all-whitespace document reaches `parse` past its
      end and fails as unclosed. */
  function ParseDocument(s: string): Result<seq<Member>, ParseError>
  {
    var k := FirstNonWhitespace(s, 0);
    if k < |s| && s[k] != '{' then Failure(UnexpectedChar(s[k], k))
    else
      var scanned :- ObjectScan(s, k + 1, ObjectStart);
      AfterObject(s, scanned.0, scanned.1)
  }

  /** After the object's closing `}` at `e` only whitespace may follow. */
  function AfterObject(s: string, members: seq<Member>, e: nat): Result<seq<Member>, ParseError>
    requires e < |s|
  {
    var t := FirstNonWhitespace(s, e + 1);
    if t < |s| then Failure(UnexpectedChar(s[t], t)) else Success(members)
  }

  /** How `parseJsonData` reports a failure: rethrown, or `null` as result. */
  function Failed(throwOnError: bool, e: ParseError): (r: Result<JsonObject?, ParseError>)
    ensures throwOnError ==> r == Failure(e)
    ensures !throwOnError ==> r == Success(null)
  {
    if throwOnError then Failure(e) else Success(null)
  }

  /** `parseJsonData(jsonDataString, throwExceptionOnError)`. */
  method ParseJsonData(data: string, throwOnError: bool) returns (r: Result<JsonObject?, ParseError>)
    ensures match ParseDocument(data)
      case Success(ms) => r.Success? && r.value != null && fresh(r.value) && r.value.members == ms && r.value.Valid()
      case Failure(e) => r == Failed(throwOnError, e)
  {
    var startIndex := 0;
    while startIndex < |data|
      invariant startIndex <= |data|
      invariant FirstNonWhitespace(data, startIndex) == FirstNonWhitespace(data, 0)
      decreases |data| - startIndex
    {
      if IsWhitespace(data[startIndex]) {
        // skipped
      } else if data[startIndex] == '{' {
        break;
      } else {
        return Failed(throwOnError, UnexpectedChar(data[startIndex], startIndex));
      }
      startIndex := startIndex + 1;
    }
    var jsonObject := new JsonObject();
    var parsed := jsonObject.Parse(data, startIndex + 1);
    if parsed.Failure? {
      return Failed(throwOnError, parsed.error);
    }
    var endIndexOfObject := parsed.value + 1;
    if endIndexOfObject < |data| {
      for index := endIndexOfObject to |data|
        invariant FirstNonWhitespace(data, index) == FirstNonWhitespace(data, endIndexOfObject)
      {
        if !IsWhitespace(data[index]) {
          return Failed(throwOnError, UnexpectedChar(data[index], index));
        }
      }
    }
    return Success(jsonObject);
  }

  /** `s` is whitespace, an object opened at `k` and closed at `e` holding
      `ms`, then whitespace. */
  ghost predicate Framed(s: string, k: nat, e: nat, ms: seq<Member>)
  {
    && k < e < |s|
    && (forall j :: 0 <= j < k ==> IsWhitespace(s[j]))
    && s[k] == '{'
    && ObjectScan(s, k + 1, ObjectStart) == Success((ms, e))
    && (forall j :: e < j < |s| ==> IsWhitespace(s[j]))
  }

  /** An accepted document is framed by whitespace around its one object. */
  lemma ParseDocumentFramed(s: string)
    requires ParseDocument(s).Success?
    ensures exists k: nat, e: nat :: Framed(s, k, e, ParseDocument(s).value)
  {
    var k := FirstNonWhitespace(s, 0);
    var scanned := ObjectScan(s, k + 1, ObjectStart).value;
    var t := FirstNonWhitespace(s, scanned.1 + 1);
    assert Framed(s, k, scanned.1, scanned.0);
  }

  /** A document framed by whitespace around one object is accepted. */
  lemma FramedParseDocument(s: string, k: nat, e: nat, ms: seq<Member>)
    requires Framed(s, k, e, ms)
    ensures ParseDocument(s) == Success(ms)
  {
    assert FirstNonWhitespace(s, 0) == k by {
      assert !IsWhitespace(s[k]);
    }
    assert FirstNonWhitespace(s, e + 1) == |s|;
  }

  /** Leading whitespace is skipped, and the first other character must be `{`. */
  lemma ParseDocumentNeedsBrace(s: string, k: nat)
    requires k < |s| && (forall j :: 0 <= j < k ==> IsWhitespace(s[j]))
    requires !IsWhitespace(s[k]) && s[k] != '{'
    ensures ParseDocument(s) == Failure(UnexpectedChar(s[k], k))
  {
    assert FirstNonWhitespace(s, 0) == k;
  }

  /** Anything but whitespace after the object's closing `}` is rejected. */
  lemma ParseDocumentRejectsTrailing(s: string, k: nat, members: seq<Member>, e: nat, t: nat)
    requires k < |s| && (forall j :: 0 <= j < k ==> IsWhitespace(s[j])) && s[k] == '{'
    requires ObjectScan(s, k + 1, ObjectStart) == Success((members, e))
    requires e < t < |s| && !IsWhitespace(s[t]) && (forall j :: e < j < t ==> IsWhitespace(s[j]))
    ensures ParseDocument(s) == Failure(UnexpectedChar(s[t], t))
  {
    FirstNonWhitespaceIs(s, 0, k);
    FirstNonWhitespaceIs(s, e + 1, t);
    assert AfterObject(s, members, e) == Failure(UnexpectedChar(s[t], t));
  }

  lemma FirstNonWhitespaceIs(s: string, i: nat, k: nat)
    requires i <= k < |s| && !IsWhitespace(s[k]) && forall j :: i <= j < k ==> IsWhitespace(s[j])
    ensures FirstNonWhitespace(s, i) == k
  {
  }

  /** A document with no non-whitespace character is an unclosed object. */
  lemma ParseDocumentBlank(s: string)
    requires forall j :: 0 <= j < |s| ==> IsWhitespace(s[j])
    ensures ParseDocument(s) == Failure(Unclosed)
  {
    assert FirstNonWhitespace(s, 0) == |s|;
  }

  /** A small document read end to end: whitespace around the object, a
      quoted key and a quoted value. */
  lemma ParseDocumentExample()
    ensures ParseDocument(" {\"a\":\"b\"} ") == Success([Member("a", Str("b"))])
  {
    var s := " {\"a\":\"b\"} ";
    var inKey := ObjectStart.(key := Some(""), prev := '"');
    var keyRead := inKey.(key := Some("a"), prev := 'a');
    var keyDone := keyRead.(keyString := Some("a"), key := None, prev := '"');
    var colon := keyDone.(prev := ':');
    var inValue := colon.(quoted := Some(""), prev := '"');
    var valueRead := inValue.(quoted := Some("b"), prev := 'b');
    var valueDone := valueRead.(value := Some(Str("b")), quoted := None, prev := '"');
    assert Extend("", '"', 'a') == "a" && Extend("", '"', 'b') == "b";
    assert AddMember([], "a", Str("b")) == [Member("a", Str("b"))];
    assert s[9] == '}' && s[8] == '"' && s[7] == 'b' && s[3] == 'a';
    assert ObjectScan(s, 9, valueDone) == Success(([Member("a", Str("b"))], 9));
    assert ObjectScan(s, 8, valueRead) == ObjectScan(s, 9, valueDone);
    assert ObjectScan(s, 7, inValue) == ObjectScan(s, 8, valueRead);
    assert ObjectScan(s, 6, colon) == ObjectScan(s, 7, inValue);
    assert ObjectScan(s, 5, keyDone) == ObjectScan(s, 6, colon);
    assert ObjectScan(s, 4, keyRead) == ObjectScan(s, 5, keyDone);
    assert ObjectScan(s, 3, inKey) == ObjectScan(s, 4, keyRead);
    assert ObjectScan(s, 2, ObjectStart) == ObjectScan(s, 3, inKey);
    assert FirstNonWhitespace(s, 0) == 1;
    assert FirstNonWhitespace(s, 10) == 11;
  }
}
