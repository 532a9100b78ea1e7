/** `JsonWriter`: the streaming writer. A stack of frames records what is open
    (an array or object, empty or not, or a property waiting for its value);
    every call checks the frame on top, rejects a call that does not fit it and
    otherwise appends its text to the output. The output stream is the string
    `out`; the `BufferedWriter` becoming non-null on the first write is the
    flag `writerOpen`, the stream not yet closed is `streamOpen`. */
module JsonWriter {
  import opened Wrappers
  import opened Text
  import opened JsonValues
  import JsonTree
  import JsonReader

  // ---------------------------------------------------------------------
  // Frames, layout and state
  // ---------------------------------------------------------------------

  /** `JsonStackItem`: `Array` and `Object` are containers that already hold
      an item; `ObjectValue` is a property whose name is written and whose
      value is due. */
  datatype Frame = ArrayEmpty | Array | ObjectEmpty | Object | ObjectValue

  /** The enum constant's name, as `toString()` gives it. */
  function FrameName(f: Frame): string
  {
    match f
    case ArrayEmpty => "Array_Empty"
    case Array => "Array"
    case ObjectEmpty => "Object_Empty"
    case Object => "Object"
    case ObjectValue => "Object_Value"
  }

  datatype Container = ObjectContainer | ArrayContainer

  function Opener(c: Container): char
  {
    if c == ObjectContainer then '{' else '['
  }

  function Closer(c: Container): char
  {
    if c == ObjectContainer then '}' else ']'
  }

  function EmptyFrame(c: Container): Frame
  {
    if c == ObjectContainer then ObjectEmpty else ArrayEmpty
  }

  function FilledFrame(c: Container): Frame
  {
    if c == ObjectContainer then Object else Array
  }

  predicate IsContainerFrame(f: Frame)
  {
    f != ObjectValue
  }

  /** The three format strings. */
  datatype Layout = Layout(linebreak: string, indention: string, separator: string)

  const Pretty := Layout("\n", "\t", " ")
  const Ugly := Layout("", "", "")

  datatype WriterState = WriterState(out: string, stack: seq<Frame>, layout: Layout, writerOpen: bool, streamOpen: bool)

  /** A writer just constructed on an open stream. */
  const Fresh := WriterState("", [], Pretty, false, true)

  /** What a rejected call was trying to do, as its exception message says. */
  datatype Action =
    | Opening(c: Container)
    | OpeningProperty
    | AddingPropertyValue
    | Closing(c: Container)
    | AddingArrayValue

  datatype WriteError =
    | EmptyStack
    | NotMatching(action: Action, found: Frame)
    | AlreadyClosed
    | NullItem
    | StillOpen(frames: string)

  /** The value kinds `addSimpleJsonObjectPropertyValue` and
      `addSimpleJsonArrayValue` tell apart. A date arrives already formatted;
      any other object is written as its `toString()` text. */
  datatype Simple =
    | NullValue
    | BooleanValue(b: bool)
    | DateValue(formatted: string)
    | NumberValue(n: Num)
    | TextValue(text: string)

  /** How a simple value is written: texts quoted with `"` escaped, dates
      quoted as formatted. */
  function SimpleText(v: Simple): string
  {
    match v
    case NullValue => "null"
    case BooleanValue(b) => if b then "true" else "false"
    case DateValue(formatted) => "\"" + formatted + "\""
    case NumberValue(n) => JsonTree.NumberText(n)
    case TextValue(t) => "\"" + JsonTree.Escape(t) + "\""
  }

  /** A scalar of the tree as the simple value `add` hands on. */
  function AsSimple(v: Json): Simple
    requires !v.Obj? && !v.Arr?
  {
    match v
    case Null => NullValue
    case Bool(b) => BooleanValue(b)
    case Number(n) => NumberValue(n)
    case Str(s) => TextValue(s)
  }

  function Top(stack: seq<Frame>): Frame
    requires stack != []
  {
    stack[|stack| - 1]
  }

  function Below(stack: seq<Frame>): seq<Frame>
    requires stack != []
  {
    stack[..|stack| - 1]
  }

  function Push(s: WriterState, f: Frame): WriterState
  {
    s.(stack := s.stack + [f])
  }

  function Pop(s: WriterState): WriterState
    requires s.stack != []
  {
    s.(stack := Below(s.stack))
  }

  /** `write(text, indent)` on an open writer: the indentation is repeated
      once per open frame. */
  function Append(s: WriterState, text: string, indent: bool): (r: WriterState)
    ensures r.out == if indent then s.out + Repeat(s.layout.indention, |s.stack|) + text else s.out + text
    ensures r.stack == s.stack && r.layout == s.layout && r.streamOpen == s.streamOpen && r.writerOpen
  {
    s.(out := if indent then s.out + Repeat(s.layout.indention, |s.stack|) + text else s.out + text, writerOpen := true)
  }

  /** What is written before a property or an item: the line break, behind a
      `,` unless it is the container's first. */
  function Separator(first: bool, l: Layout): string
  {
    if first then l.linebreak else "," + l.linebreak
  }

  /** A property's name as `openJsonObjectProperty` writes it. */
  function NameText(name: string): string
  {
    "\"" + JsonTree.Escape(name) + "\":"
  }

  /** Reachable stacks: the bottom frame is a container, an `ObjectValue`
      sits only on a non-empty object, and only an array holding items or a
      value-pending property has a container above it. */
  predicate Allowed(below: Frame, above: Frame)
  {
    match below
    case Array => IsContainerFrame(above)
    case Object => above == ObjectValue
    case ObjectValue => IsContainerFrame(above)
    case ArrayEmpty => false
    case ObjectEmpty => false
  }

  /** Each frame fits the one beneath it, and the bottom one is a container. */
  predicate WellFormed(stack: seq<Frame>)
    decreases |stack|
  {
    stack == [] ||
      (WellFormed(Below(stack)) &&
       if |stack| == 1 then IsContainerFrame(Top(stack)) else Allowed(Top(Below(stack)), Top(stack)))
  }

  /** Nothing is open before the first write, and the stack is well formed. */
  predicate ValidState(s: WriterState)
  {
    (!s.writerOpen ==> s.stack == []) && WellFormed(s.stack)
  }

  // ---------------------------------------------------------------------
  // One call at a time
  // ---------------------------------------------------------------------

  /** `openJsonObject` / `openJsonArray`. Before the first write the container
      is the root; afterwards it must go into an array or be the value of a
      property: an array becomes non-empty, a pending property stays beneath
      the new container. */
  function AfterOpen(s: WriterState, c: Container): (r: Result<WriterState, WriteError>)
    ensures r.Success? <==>
      if s.writerOpen then s.stack != [] && Top(s.stack) in {ArrayEmpty, Array, ObjectValue} else s.streamOpen
    ensures r.Success? ==> r.value.writerOpen && r.value.layout == s.layout && r.value.streamOpen == s.streamOpen
    ensures r.Success? && !s.writerOpen ==> r.value.stack == s.stack + [EmptyFrame(c)]
    ensures r.Success? && s.writerOpen ==>
      r.value.stack == Below(s.stack) + [if Top(s.stack) == ObjectValue then ObjectValue else Array, EmptyFrame(c)]
    ensures r.Failure? && s.writerOpen ==>
      r.error == if s.stack == [] then EmptyStack else NotMatching(Opening(c), Top(s.stack))
  {
    if !s.writerOpen then
      if !s.streamOpen then Failure(AlreadyClosed)
      else Success(Push(Append(s, [Opener(c)], true), EmptyFrame(c)))
    else if s.stack == [] then Failure(EmptyStack)
    else
      var latest := Top(s.stack);
      if latest != ArrayEmpty && latest != Array && latest != ObjectValue then Failure(NotMatching(Opening(c), latest))
      else
        var popped := Pop(s);
        var separated := Append(popped, Separator(latest != Array, s.layout), false);
        var parent := Push(separated, if latest == ObjectValue then ObjectValue else Array);
        Success(Push(Append(parent, [Opener(c)], true), EmptyFrame(c)))
  }

  /** `openJsonObjectProperty(name)`: only on an object frame, which becomes
      non-empty, with a value-pending frame above it. */
  function AfterProperty(s: WriterState, name: string): (r: Result<WriterState, WriteError>)
    ensures r.Success? <==> s.stack != [] && Top(s.stack) in {ObjectEmpty, Object}
    ensures r.Success? ==> r.value.stack == Below(s.stack) + [Object, ObjectValue]
    ensures r.Failure? ==> r.error == if s.stack == [] then EmptyStack else NotMatching(OpeningProperty, Top(s.stack))
  {
    if s.stack == [] then Failure(EmptyStack)
    else
      var latest := Top(s.stack);
      if latest != ObjectEmpty && latest != Object then Failure(NotMatching(OpeningProperty, latest))
      else
        var popped := Pop(s);
        var separated := Append(popped, Separator(latest != Object, s.layout), false);
        var named := Append(Push(separated, Object), NameText(name), true);
        Success(Push(named, ObjectValue))
  }

  /** `addSimpleJsonObjectPropertyValue(value)`: only on a value-pending
      frame, which it pops. */
  function AfterPropertyValue(s: WriterState, v: Simple): (r: Result<WriterState, WriteError>)
    ensures r.Success? <==> s.stack != [] && Top(s.stack) == ObjectValue
    ensures r.Success? ==> r.value.stack == Below(s.stack)
    ensures r.Failure? ==> r.error == if s.stack == [] then EmptyStack else NotMatching(AddingPropertyValue, Top(s.stack))
  {
    if s.stack == [] then Failure(EmptyStack)
    else if Top(s.stack) != ObjectValue then Failure(NotMatching(AddingPropertyValue, Top(s.stack)))
    else Success(Append(Pop(s), s.layout.separator + SimpleText(v), false))
  }

  /** `addSimpleJsonArrayValue(value)`: only on an array frame, which becomes
      non-empty. */
  function AfterArrayValue(s: WriterState, v: Simple): (r: Result<WriterState, WriteError>)
    ensures r.Success? <==> s.stack != [] && Top(s.stack) in {ArrayEmpty, Array}
    ensures r.Success? ==> r.value.stack == Below(s.stack) + [Array]
    ensures r.Failure? ==> r.error == if s.stack == [] then EmptyStack else NotMatching(AddingArrayValue, Top(s.stack))
  {
    if s.stack == [] then Failure(EmptyStack)
    else
      var latest := Top(s.stack);
      if latest != ArrayEmpty && latest != Array then Failure(NotMatching(AddingArrayValue, latest))
      else
        var separated := Append(Pop(s), Separator(latest != Array, s.layout), false);
        Success(Append(Push(separated, Array), SimpleText(v), true))
  }

  /** The stack once a container's frame is popped: a value-pending frame
      directly beneath goes too, its value being complete. */
  function Settle(stack: seq<Frame>): (r: seq<Frame>)
    requires stack != []
    ensures r == Below(stack) || (Below(stack) != [] && Top(Below(stack)) == ObjectValue && r == Below(Below(stack)))
    ensures |r| < |stack|
  {
    var rest := Below(stack);
    if rest != [] && Top(rest) == ObjectValue then Below(rest) else rest
  }

  /** `closeJsonObject` / `closeJsonArray`: only on that container's frame. */
  function AfterClose(s: WriterState, c: Container): (r: Result<WriterState, WriteError>)
    ensures r.Success? <==> s.stack != [] && Top(s.stack) in {EmptyFrame(c), FilledFrame(c)}
    ensures r.Success? ==> r.value.stack == Settle(s.stack)
    ensures r.Failure? ==> r.error == if s.stack == [] then EmptyStack else NotMatching(Closing(c), Top(s.stack))
  {
    if s.stack == [] then Failure(EmptyStack)
    else
      var latest := Top(s.stack);
      if latest != EmptyFrame(c) && latest != FilledFrame(c) then Failure(NotMatching(Closing(c), latest))
      else
        var popped := Pop(s);
        var closed :=
          if latest == EmptyFrame(c) then Append(popped, [Closer(c)], false)
          else Append(Append(popped, s.layout.linebreak, false), [Closer(c)], true);
        Success(closed.(stack := Settle(s.stack)))
  }

  /** The frames still open, from the top down, as `close()` names them. */
  function OpenFramesText(stack: seq<Frame>): string
  {
    if stack == [] then "" else "/" + FrameName(Top(stack)) + OpenFramesText(Below(stack))
  }

  /** `close()`: a final line break if anything was written; the writer is
      closed either way and the stack emptied, and it fails naming every
      frame that was still open. */
  function AfterCloseWriter(s: WriterState): (r: (WriterState, Result<(), WriteError>))
    ensures r.0.stack == [] && !r.0.writerOpen && !r.0.streamOpen
    ensures r.1.Success? <==> s.stack == []
  {
    var written := if s.writerOpen then s.out + s.layout.linebreak else s.out;
    var shut := s.(out := written, stack := [], writerOpen := false, streamOpen := false);
    if s.stack == [] then (shut, Success(())) else (shut, Failure(StillOpen(OpenFramesText(s.stack))))
  }

  // ---------------------------------------------------------------------
  // Invariant and rules across calls
  // ---------------------------------------------------------------------

  /** The calls of the writer's push interface. */
  datatype Call =
    | OpenCall(c: Container)
    | PropertyCall(name: string)
    | PropertyValueCall(v: Simple)
    | ArrayValueCall(v: Simple)
    | CloseCall(c: Container)

  function Step(s: WriterState, call: Call): Result<WriterState, WriteError>
  {
    match call
    case OpenCall(c) => AfterOpen(s, c)
    case PropertyCall(name) => AfterProperty(s, name)
    case PropertyValueCall(v) => AfterPropertyValue(s, v)
    case ArrayValueCall(v) => AfterArrayValue(s, v)
    case CloseCall(c) => AfterClose(s, c)
  }

  lemma {:induction false} WellFormedPrefix(stack: seq<Frame>, n: nat)
    requires WellFormed(stack) && n <= |stack|
    ensures WellFormed(stack[..n])
    decreases |stack| - n
  {
    if n < |stack| {
      WellFormedPrefix(Below(stack), n);
      assert Below(stack)[..n] == stack[..n];
    } else {
      assert stack[..n] == stack;
    }
  }

  lemma WellFormedPush(stack: seq<Frame>, f: Frame)
    requires WellFormed(stack)
    requires if stack == [] then IsContainerFrame(f) else Allowed(Top(stack), f)
    ensures WellFormed(stack + [f])
  {
    assert Below(stack + [f]) == stack;
  }

  /** Every accepted call keeps the stack well formed, and nothing is open
      before the first write. */
  lemma StepKeepsValid(s: WriterState, call: Call)
    requires ValidState(s)
    ensures Step(s, call).Success? ==> ValidState(Step(s, call).value)
  {
    if Step(s, call).Success? {
      match call
      case OpenCall(c) => OpenKeepsValid(s, c);
      case PropertyCall(name) => PropertyKeepsValid(s, name);
      case PropertyValueCall(v) => PropertyValueKeepsValid(s, v);
      case ArrayValueCall(v) => ArrayValueKeepsValid(s, v);
      case CloseCall(c) => CloseKeepsValid(s, c);
    }
  }

  lemma OpenKeepsValid(s: WriterState, c: Container)
    requires ValidState(s) && AfterOpen(s, c).Success?
    ensures ValidState(AfterOpen(s, c).value)
  {
    if s.writerOpen {
      var rest, top := Below(s.stack), Top(s.stack);
      assert WellFormed(rest) && (rest != [] ==> Allowed(Top(rest), top));
      var parent := if top == ObjectValue then ObjectValue else Array;
      WellFormedPush(rest, parent);
      WellFormedPush(rest + [parent], EmptyFrame(c));
    } else {
      WellFormedPush([], EmptyFrame(c));
    }
  }

  lemma PropertyKeepsValid(s: WriterState, name: string)
    requires ValidState(s) && AfterProperty(s, name).Success?
    ensures ValidState(AfterProperty(s, name).value)
  {
    var rest, top := Below(s.stack), Top(s.stack);
    assert WellFormed(rest) && (rest != [] ==> Allowed(Top(rest), top));
    WellFormedPush(rest, Object);
    WellFormedPush(rest + [Object], ObjectValue);
  }

  lemma PropertyValueKeepsValid(s: WriterState, v: Simple)
    requires ValidState(s) && AfterPropertyValue(s, v).Success?
    ensures ValidState(AfterPropertyValue(s, v).value)
  {
    assert WellFormed(Below(s.stack));
  }

  lemma ArrayValueKeepsValid(s: WriterState, v: Simple)
    requires ValidState(s) && AfterArrayValue(s, v).Success?
    ensures ValidState(AfterArrayValue(s, v).value)
  {
    var rest, top := Below(s.stack), Top(s.stack);
    assert WellFormed(rest) && (rest != [] ==> Allowed(Top(rest), top));
    WellFormedPush(rest, Array);
  }

  lemma CloseKeepsValid(s: WriterState, c: Container)
    requires ValidState(s) && AfterClose(s, c).Success?
    ensures ValidState(AfterClose(s, c).value)
  {
    var rest := Below(s.stack);
    assert WellFormed(rest);
    if rest != [] {
      assert WellFormed(Below(rest));
    }
  }

  /** An accepted close, written out: the closing bracket, on a line of its
      own at its opening bracket's depth if the container holds anything. */
  lemma ClosedState(s: WriterState, c: Container)
    requires ValidState(s) && s.stack != [] && Top(s.stack) in {EmptyFrame(c), FilledFrame(c)}
    ensures AfterClose(s, c) == Success(s.(out := if Top(s.stack) == EmptyFrame(c) then s.out + [Closer(c)]
                                                  else s.out + s.layout.linebreak + Repeat(s.layout.indention, |s.stack| - 1) + [Closer(c)],
                                           stack := Settle(s.stack), writerOpen := true))
    ensures ValidState(AfterClose(s, c).value)
  {
    StepKeepsValid(s, CloseCall(c));
  }

  /** The output only grows: no call takes back what was written. */
  lemma StepAppendsOnly(s: WriterState, call: Call)
    ensures Step(s, call).Success? ==> StartsWith(Step(s, call).value.out, s.out)
    ensures Step(s, call).Success? ==> Step(s, call).value.layout == s.layout
  {
    var r := Step(s, call);
    if r.Success? {
      assert r.value.out[..|s.out|] == s.out;
    }
  }

  /** A rejected call names the frame it found on top. */
  lemma StepRejectionNamesTop(s: WriterState, call: Call)
    requires s.writerOpen && s.stack != [] && Step(s, call).Failure?
    ensures Step(s, call).error.NotMatching? && Step(s, call).error.found == Top(s.stack)
  {
  }

  /** The first open call on a fresh writer writes the opening bracket and
      pushes exactly one empty frame. */
  lemma FirstOpen(c: Container)
    ensures AfterOpen(Fresh, c) == Success(Fresh.(out := [Opener(c)], stack := [EmptyFrame(c)], writerOpen := true))
  {
    var written := Append(Fresh, [Opener(c)], true);
    assert Repeat(Fresh.layout.indention, 0) == "";
    assert written.out == [Opener(c)];
    assert written.stack + [EmptyFrame(c)] == [EmptyFrame(c)];
  }

  /** The comma rule, for properties: a property written into an object that
      already holds one writes what it would write into an empty object,
      behind a `,`. */
  lemma CommaBeforeProperty(s: WriterState, name: string)
    requires s.stack != [] && Top(s.stack) == Object
    ensures
      var first := AfterProperty(s.(stack := Below(s.stack) + [ObjectEmpty]), name);
      var next := AfterProperty(s, name);
      && first.Success? && next.Success? && next.value.stack == first.value.stack
      && next.value.out == s.out + "," + first.value.out[|s.out|..]
  {
    var empty := s.(stack := Below(s.stack) + [ObjectEmpty]);
    assert Below(empty.stack) == Below(s.stack);
    PropertyOutput(empty, name);
    PropertyOutput(s, name);
    CommaShift(s.out, s.layout.linebreak, Repeat(s.layout.indention, |s.stack|), NameText(name));
  }

  lemma PropertyOutput(s: WriterState, name: string)
    requires s.stack != [] && Top(s.stack) in {ObjectEmpty, Object}
    ensures AfterProperty(s, name).Success?
    ensures AfterProperty(s, name).value.out
         == s.out + Separator(Top(s.stack) != Object, s.layout) + Repeat(s.layout.indention, |s.stack|) + NameText(name)
  {
    var separated := Append(Pop(s), Separator(Top(s.stack) != Object, s.layout), false);
    assert |Push(separated, Object).stack| == |s.stack|;
  }

  /** The comma rule, for simple array values. */
  lemma CommaBeforeArrayValue(s: WriterState, v: Simple)
    requires s.stack != [] && Top(s.stack) == Array
    ensures
      var first := AfterArrayValue(s.(stack := Below(s.stack) + [ArrayEmpty]), v);
      var next := AfterArrayValue(s, v);
      && first.Success? && next.Success? && next.value.stack == first.value.stack
      && next.value.out == s.out + "," + first.value.out[|s.out|..]
  {
    var empty := s.(stack := Below(s.stack) + [ArrayEmpty]);
    assert Below(empty.stack) == Below(s.stack);
    ArrayValueOutput(empty, v);
    ArrayValueOutput(s, v);
    CommaShift(s.out, s.layout.linebreak, Repeat(s.layout.indention, |s.stack|), SimpleText(v));
  }

  lemma ArrayValueOutput(s: WriterState, v: Simple)
    requires s.stack != [] && Top(s.stack) in {ArrayEmpty, Array}
    ensures AfterArrayValue(s, v).Success?
    ensures AfterArrayValue(s, v).value.out
         == s.out + Separator(Top(s.stack) != Array, s.layout) + Repeat(s.layout.indention, |s.stack|) + SimpleText(v)
  {
  }

  /** The comma rule, for containers nested in an array. */
  lemma CommaBeforeNestedContainer(s: WriterState, c: Container)
    requires s.writerOpen && s.stack != [] && Top(s.stack) == Array
    ensures
      var first := AfterOpen(s.(stack := Below(s.stack) + [ArrayEmpty]), c);
      var next := AfterOpen(s, c);
      && first.Success? && next.Success? && next.value.stack == first.value.stack
      && next.value.out == s.out + "," + first.value.out[|s.out|..]
  {
    var empty := s.(stack := Below(s.stack) + [ArrayEmpty]);
    assert Below(empty.stack) == Below(s.stack);
    NestedOpen(empty, c);
    NestedOpen(s, c);
    CommaShift(s.out, s.layout.linebreak, Repeat(s.layout.indention, |s.stack|), [Opener(c)]);
  }

  lemma {:induction false} SlashCount(stack: seq<Frame>)
    ensures Count(OpenFramesText(stack), '/') == |stack|
  {
    if stack != [] {
      var name := FrameName(Top(stack));
      FrameNameHasNoSlash(Top(stack));
      SlashCount(Below(stack));
      assert OpenFramesText(stack) == "/" + (name + OpenFramesText(Below(stack)));
      CountAppend(name, OpenFramesText(Below(stack)), '/');
    }
  }

  lemma FrameNameHasNoSlash(f: Frame)
    ensures Count(FrameName(f), '/') == 0
  {
    NoSlash(FrameName(f));
  }

  function Count(s: string, c: char): nat
  {
    if s == [] then 0 else (if s[0] == c then 1 else 0) + Count(s[1..], c)
  }

  lemma CountAppend(a: string, b: string, c: char)
    ensures Count(a + b, c) == Count(a, c) + Count(b, c)
  {
    if a == [] {
      assert a + b == b;
    } else {
      assert (a + b)[1..] == a[1..] + b;
      CountAppend(a[1..], b, c);
    }
  }

  lemma {:induction false} NoSlash(s: string)
    requires forall i :: 0 <= i < |s| ==> s[i] != '/'
    ensures Count(s, '/') == 0
  {
    if s != [] {
      NoSlash(s[1..]);
    }
  }

  /** `close()` fails exactly when frames are open and names each of them:
      the message holds one `/` per open frame, the top frame first. */
  lemma CloseNamesOpenFrames(s: WriterState)
    requires s.stack != []
    ensures AfterCloseWriter(s).1 == Failure(StillOpen(OpenFramesText(s.stack)))
    ensures StartsWith(OpenFramesText(s.stack), "/" + FrameName(Top(s.stack)))
    ensures Count(OpenFramesText(s.stack), '/') == |s.stack|
  {
    SlashCount(s.stack);
    var t := "/" + FrameName(Top(s.stack));
    assert OpenFramesText(s.stack)[..|t|] == t;
  }

  /** `close()` writes one line break if anything was written, and nothing
      when the writer never wrote or was closed before; closing again
      succeeds and changes nothing. */
  lemma CloseWritesFinalLinebreak(s: WriterState)
    ensures AfterCloseWriter(s).0.out == if s.writerOpen then s.out + s.layout.linebreak else s.out
    ensures var closed := AfterCloseWriter(s).0; AfterCloseWriter(closed) == (closed, Success(()))
  {
  }

  /** After `close()` nothing more can be written: a root open finds the
      stream closed, every other call an empty stack. */
  lemma ClosedRejectsEverything(s: WriterState, call: Call)
    ensures var closed := AfterCloseWriter(s).0;
      Step(closed, call) == Failure(if call.OpenCall? then AlreadyClosed else EmptyStack)
  {
  }

  /** Opening an object and closing it as an array is rejected: the empty
      object frame is found instead. */
  lemma CloseArrayAfterOpenObjectRejected()
    ensures var root := AfterOpen(Fresh, ObjectContainer).value;
      AfterClose(root, ArrayContainer) == Failure(NotMatching(Closing(ArrayContainer), ObjectEmpty))
  {
  }

  /** Once the root container is closed, a second root is rejected. */
  lemma SecondRootRejected(c: Container, d: Container)
    ensures var root := AfterOpen(Fresh, c).value;
      var closed := AfterClose(root, c).value;
      closed.stack == [] && closed.out == [Opener(c), Closer(c)] && AfterOpen(closed, d) == Failure(EmptyStack)
  {
  }

  // ---------------------------------------------------------------------
  // add(JsonItem): what writing a whole tree produces
  // ---------------------------------------------------------------------

  /** The text `add` writes for a container after its opening bracket, the
      bracket itself written at indentation `depth`: each property or item on
      its own line one level deeper, then the closing bracket back at `depth`.
      An empty container is closed at once. */
  function BodyText(v: Json, depth: nat, l: Layout): string
    requires v.Obj? || v.Arr?
    decreases v, 1
  {
    match v
    case Obj(ms) =>
      if ms == [] then "}" else PropertiesText(ms, depth + 1, l) + l.linebreak + Repeat(l.indention, depth) + "}"
    case Arr(items) =>
      if items == [] then "]" else ItemsText(items, depth + 1, l) + l.linebreak + Repeat(l.indention, depth) + "]"
  }

  /** The properties of an object whose frame is at `depth`, separated by `,`. */
  function PropertiesText(ms: seq<Member>, depth: nat, l: Layout): string
    decreases ms, 0
  {
    if ms == [] then ""
    else PropertiesText(ms[..|ms| - 1], depth, l) + PropertyText(ms[|ms| - 1], depth, l, |ms| == 1)
  }

  /** One property: a `,` unless it is the first, a line break, the quoted
      name at `depth`, `:` and the value. */
  function PropertyText(m: Member, depth: nat, l: Layout, first: bool): string
    decreases m, 3
  {
    Separator(first, l) + Repeat(l.indention, depth) + NameText(m.key) + PropertyValueText(m.value, depth + 1, l)
  }

  /** A property's value with its value-pending frame at `depth`: a simple
      value behind the separator, a container on a line of its own. */
  function PropertyValueText(v: Json, depth: nat, l: Layout): string
    decreases v, 2
  {
    if v.Obj? || v.Arr? then
      l.linebreak + Repeat(l.indention, depth) + [Opener(ContainerOf(v))] + BodyText(v, depth, l)
    else l.separator + SimpleText(AsSimple(v))
  }

  /** The items of an array whose frame is at `depth`, separated by `,`. */
  function ItemsText(items: seq<Json>, depth: nat, l: Layout): string
    decreases items, 0
  {
    if items == [] then ""
    else ItemsText(items[..|items| - 1], depth, l) + ItemText(items[|items| - 1], depth, l, |items| == 1)
  }

  /** One item: a `,` unless it is the first, a line break, then the value at
      `depth`. */
  function ItemText(v: Json, depth: nat, l: Layout, first: bool): string
    decreases v, 2
  {
    Separator(first, l) + Repeat(l.indention, depth)
      + if v.Obj? || v.Arr? then [Opener(ContainerOf(v))] + BodyText(v, depth, l) else SimpleText(AsSimple(v))
  }

  function ContainerOf(v: Json): Container
  {
    if v.Obj? then ObjectContainer else ArrayContainer
  }

  /** `add(item)`: `null` is rejected; otherwise the container is opened as
      `openJsonObject` / `openJsonArray` would, which is the one call that can
      be rejected, its whole body written and its frame closed again. */
  function AfterAdd(s: WriterState, item: Option<Json>): (r: Result<WriterState, WriteError>)
    requires item.Some? ==> item.value.Obj? || item.value.Arr?
    ensures item.None? ==> r == Failure(NullItem)
    ensures item.Some? ==> (r.Success? <==> AfterOpen(s, ContainerOf(item.value)).Success?)
    ensures r.Failure? && item.Some? ==> r == AfterOpen(s, ContainerOf(item.value))
  {
    match item
    case None => Failure(NullItem)
    case Some(v) =>
      match AfterOpen(s, ContainerOf(v))
      case Failure(e) => Failure(e)
      case Success(root) => Success(Filled(root, v))
  }

  /** An opened container once `add` has written its body and closed it. */
  function Filled(root: WriterState, v: Json): WriterState
    requires root.stack != [] && (v.Obj? || v.Arr?)
  {
    root.(out := root.out + BodyText(v, |root.stack| - 1, root.layout), stack := Settle(root.stack))
  }

  /** Writing a tree leaves the stack as one accepted call would: an array
      parent becomes non-empty, a value-pending property is completed, and a
      root leaves nothing open. */
  lemma AddLeavesStack(s: WriterState, v: Json)
    requires ValidState(s) && (v.Obj? || v.Arr?) && AfterAdd(s, Some(v)).Success?
    ensures var after := AfterAdd(s, Some(v)).value.stack;
      if !s.writerOpen then after == []
      else if Top(s.stack) == ObjectValue then after == Below(s.stack)
      else after == Below(s.stack) + [Array]
  {
  }

  /** A root container is written as its opening bracket and its body, and
      leaves nothing open. */
  lemma AddRoot(s: WriterState, v: Json)
    requires !s.writerOpen && s.streamOpen && s.stack == [] && (v.Obj? || v.Arr?)
    ensures AfterAdd(s, Some(v)) == Success(s.(out := s.out + [Opener(ContainerOf(v))] + BodyText(v, 0, s.layout), writerOpen := true))
  {
    var root := AfterOpen(s, ContainerOf(v)).value;
    assert Repeat(s.layout.indention, 0) == "";
    assert root == s.(out := s.out + [Opener(ContainerOf(v))], stack := [EmptyFrame(ContainerOf(v))], writerOpen := true);
    assert Settle(root.stack) == [];
    assert AfterAdd(s, Some(v)) == Success(Filled(root, v));
  }

  /** A small document written after `setUglify(true)`, piece by piece as
      the writer's calls produce it. */
  lemma AddExample()
    ensures var doc := Obj([Member("a", Arr([Number(Narrow(1)), Str("x")]))]);
      var written := AfterAdd(Fresh.(layout := Ugly), Some(doc));
      && written.Success? && written.value.stack == []
      && AfterCloseWriter(written.value).0.out == "{" + "\"a\":" + "[" + "1" + ",\"x\"" + "]" + "}"
  {
    var m := Member("a", Arr([Number(Narrow(1)), Str("x")]));
    AddRoot(Fresh.(layout := Ugly), Obj([m]));
    ExampleUglyBody();
    Assembled("{", "\"a\":", "[", "1", ",\"x\"", "]", "}");
  }

  lemma Assembled(a: string, b: string, c: string, d: string, e: string, f: string, g: string)
    ensures "" + [a[0]] + (b + (c + (d + e) + f) + g) + "" == a + b + c + d + e + f + g
    requires |a| == 1
  {
    assert [a[0]] == a;
  }

  lemma ExampleUglyBody()
    ensures BodyText(Obj([Member("a", Arr([Number(Narrow(1)), Str("x")]))]), 0, Ugly) == "\"a\":" + ("[" + ("1" + ",\"x\"") + "]") + "}"
  {
    var m := Member("a", Arr([Number(Narrow(1)), Str("x")]));
    PropertiesTextOne(m, 1, Ugly);
    ExampleUglyProperty();
    UglyObjectBody([m], 0);
  }

  /** In the uglified layout a non-empty object's body is its properties and
      the closing brace. */
  lemma UglyObjectBody(ms: seq<Member>, depth: nat)
    requires ms != []
    ensures BodyText(Obj(ms), depth, Ugly) == PropertiesText(ms, depth + 1, Ugly) + "}"
  {
    RepeatLength("", depth);
  }

  lemma ExampleUglyProperty()
    ensures PropertyText(Member("a", Arr([Number(Narrow(1)), Str("x")])), 1, Ugly, true) == "\"a\":" + ("[" + ("1" + ",\"x\"") + "]")
  {
    assert JsonTree.Escape("a") == "a" by {
      JsonTree.EscapeOnlyQuotes("a");
    }
    ExampleUglyValue();
    assert Repeat("", 1) == "";
    UglyLead(NameText("a"), PropertyValueText(Arr([Number(Narrow(1)), Str("x")]), 2, Ugly));
  }

  /** In the uglified layout nothing stands before a first property. */
  lemma UglyLead(a: string, b: string)
    ensures Separator(true, Ugly) + Repeat("", 1) + a + b == a + b
  {
    assert Repeat("", 1) == "";
  }

  lemma ExampleUglyValue()
    ensures PropertyValueText(Arr([Number(Narrow(1)), Str("x")]), 2, Ugly) == "[" + ("1" + ",\"x\"") + "]"
  {
    ExampleUglyItems();
    UglyArrayValue([Number(Narrow(1)), Str("x")], 2);
  }

  /** In the uglified layout a non-empty array value is its items in brackets. */
  lemma UglyArrayValue(items: seq<Json>, depth: nat)
    requires items != []
    ensures PropertyValueText(Arr(items), depth, Ugly) == "[" + ItemsText(items, depth + 1, Ugly) + "]"
  {
    RepeatLength("", depth);
  }

  lemma ExampleUglyItems()
    ensures ItemsText([Number(Narrow(1)), Str("x")], 3, Ugly) == "1" + ",\"x\""
  {
    assert JsonTree.Escape("x") == "x" by {
      JsonTree.EscapeOnlyQuotes("x");
    }
    assert IntToString(1) == "1";
    assert Repeat("", 3) == "";
    ItemsTextTwo(Number(Narrow(1)), Str("x"), 3, Ugly);
  }

  /** Indentation: each item on its own line, one indentation deeper than
      its array's brackets, and an empty object written as `{}`. */
  lemma AddIndentExample()
    ensures var doc := Arr([Number(Narrow(1)), Obj([])]);
      var written := AfterAdd(Fresh, Some(doc));
      && written.Success? && written.value.stack == []
      && AfterCloseWriter(written.value).0.out == "[" + "\n\t1" + ",\n\t{}" + "\n]" + "\n"
  {
    AddRoot(Fresh, Arr([Number(Narrow(1)), Obj([])]));
    ExampleIndentBody();
    Wrapped("[", "\n\t1", ",\n\t{}", "\n]", "\n");
  }

  lemma Wrapped(a: string, b: string, c: string, d: string, e: string)
    ensures "" + a + (b + c + d) + e == a + b + c + d + e
  {
    assert "" + a == a;
  }

  lemma ExampleIndentBody()
    ensures BodyText(Arr([Number(Narrow(1)), Obj([])]), 0, Pretty) == "\n\t1" + ",\n\t{}" + "\n]"
  {
    assert IntToString(1) == "1";
    assert Repeat("\t", 1) == "\t" && Repeat("\t", 0) == "";
    ItemsTextTwo(Number(Narrow(1)), Obj([]), 1, Pretty);
    assert ItemText(Number(Narrow(1)), 1, Pretty, true) == "\n\t1";
    assert ItemText(Obj([]), 1, Pretty, false) == ",\n\t{}";
  }

  lemma ItemsTextTwo(a: Json, b: Json, depth: nat, l: Layout)
    ensures ItemsText([a, b], depth, l) == ItemText(a, depth, l, true) + ItemText(b, depth, l, false)
  {
    assert [a, b][..1] == [a] && [a][..0] == [] && [a, b][1] == b;
    assert ItemsText([a], depth, l) == "" + ItemText(a, depth, l, true);
    assert "" + ItemText(a, depth, l, true) == ItemText(a, depth, l, true);
  }

  lemma PropertiesTextOne(m: Member, depth: nat, l: Layout)
    ensures PropertiesText([m], depth, l) == PropertyText(m, depth, l, true)
  {
    assert [m][..0] == [];
  }

  // ---------------------------------------------------------------------
  // closeAllOpenJsonItems, as written and as intended
  // ---------------------------------------------------------------------

  /** `closeAllOpenJsonItems` as written: it pops the top frame itself and
      then calls the close method, which pops the next frame. The state comes
      back with the outcome, since a rejection leaves the first pop done. */
  function CloseAllAsWritten(s: WriterState): (r: (WriterState, Result<(), WriteError>))
    decreases |s.stack|
  {
    if s.stack == [] then (s, Success(()))
    else
      var popped := Pop(s);
      match Top(s.stack)
      case ObjectValue => CloseAllAsWritten(popped)
      case _ =>
        var c := if Top(s.stack) in {Array, ArrayEmpty} then ArrayContainer else ObjectContainer;
        var closed := AfterClose(popped, c);
        if closed.Failure? then (popped, Failure(closed.error)) else CloseAllAsWritten(closed.value)
  }

  /** A root array just opened cannot be closed that way: the frame is gone
      before `closeJsonArray` looks for it, and nothing is written. */
  lemma CloseAllAsWrittenFails()
    ensures var root := AfterOpen(Fresh, ArrayContainer).value;
      CloseAllAsWritten(root) == (root.(stack := []), Failure(EmptyStack))
  {
    FirstOpen(ArrayContainer);
  }

  /** A nested array is closed by one bracket only: the outer array's frame is
      taken for the inner one's. */
  lemma CloseAllAsWrittenDropsBracket()
    ensures var root := AfterOpen(Fresh, ArrayContainer).value;
      var nested := AfterOpen(root, ArrayContainer).value;
      var all := CloseAllAsWritten(nested);
      all.1.Success? && all.0.stack == [] && all.0.out == "[\n\t[\n]"
  {
    FirstOpen(ArrayContainer);
    assert Repeat("\t", 1) == "\t" && Repeat("\t", 0) == "";
  }

  /** What `closeAllOpenJsonItems` is meant to do: close the frame on top
      with the close method that matches it, until nothing is open. */
  function CloseAllIntended(s: WriterState): (r: Result<WriterState, WriteError>)
    decreases |s.stack|
  {
    if s.stack == [] then Success(s)
    else
      match Top(s.stack)
      case ObjectValue => CloseAllIntended(Pop(s))
      case _ =>
        var c := if Top(s.stack) in {Array, ArrayEmpty} then ArrayContainer else ObjectContainer;
        var closed :- AfterClose(s, c);
        CloseAllIntended(closed)
  }

  /** From every reachable state the intended version closes everything. */
  lemma {:induction false} CloseAllIntendedEmpties(s: WriterState)
    requires ValidState(s)
    ensures CloseAllIntended(s).Success? && CloseAllIntended(s).value.stack == []
    ensures StartsWith(CloseAllIntended(s).value.out, s.out)
    decreases |s.stack|
  {
    if s.stack != [] {
      var top := Top(s.stack);
      if top == ObjectValue {
        WellFormedPrefix(s.stack, |s.stack| - 1);
        CloseAllIntendedEmpties(Pop(s));
        assert CloseAllIntended(s) == CloseAllIntended(Pop(s));
      } else {
        var closed := CloseIntendedStep(s);
        CloseAllIntendedEmpties(closed);
        PrefixTransitive(s.out, closed.out, CloseAllIntended(s).value.out);
      }
    }
  }

  /** One container closed by the intended version: accepted, still a
      reachable state, and only appending. */
  lemma CloseIntendedStep(s: WriterState) returns (closed: WriterState)
    requires ValidState(s) && s.stack != [] && Top(s.stack) != ObjectValue
    ensures ValidState(closed) && |closed.stack| < |s.stack| && StartsWith(closed.out, s.out)
    ensures CloseAllIntended(s) == CloseAllIntended(closed)
  {
    var top := Top(s.stack);
    var c := if top in {Array, ArrayEmpty} then ArrayContainer else ObjectContainer;
    assert top in {EmptyFrame(c), FilledFrame(c)};
    var r := AfterClose(s, c);
    assert r.Success?;
    closed := r.value;
    StepKeepsValid(s, CloseCall(c));
    StepAppendsOnly(s, CloseCall(c));
  }

  lemma PrefixTransitive(a: string, b: string, c: string)
    requires StartsWith(b, a) && StartsWith(c, b)
    ensures StartsWith(c, a)
  {
    assert c[..|a|] == c[..|b|][..|a|];
  }

  /** The intended version closes the nested arrays of the example above with
      both brackets. */
  lemma CloseAllIntendedExample()
    ensures var root := AfterOpen(Fresh, ArrayContainer).value;
      var nested := AfterOpen(root, ArrayContainer).value;
      var all := CloseAllIntended(nested);
      all.Success? && all.value.stack == [] && all.value.out == "[\n\t[]\n]"
  {
    FirstOpen(ArrayContainer);
    assert Repeat("\t", 1) == "\t" && Repeat("\t", 0) == "";
    var root := AfterOpen(Fresh, ArrayContainer).value;
    var nested := AfterOpen(root, ArrayContainer).value;
    assert nested.out == "[\n\t[" && nested.stack == [Array, ArrayEmpty];
    var inner := AfterClose(nested, ArrayContainer).value;
    assert inner.out == "[\n\t[]" && inner.stack == [Array];
    assert CloseAllIntended(nested) == CloseAllIntended(inner);
    var outer := AfterClose(inner, ArrayContainer).value;
    assert outer.out == "[\n\t[]\n]" && outer.stack == [];
    assert CloseAllIntended(inner) == CloseAllIntended(outer);
  }

  // ---------------------------------------------------------------------
  // Escaping, against what JsonReader reads back
  // ---------------------------------------------------------------------

  /** A text containing a backslash is not read back: `\` written as it
      stands ends the string early or escapes its closing quote. */
  lemma EscapeLosesBackslash()
    ensures JsonTree.Escape("\\") == "\\"
    ensures JsonReader.QuotedText(JsonTree.Escape("\\") + "\"", 0, false, "") == Failure(JsonReader.PrematureEnd)
  {
    assert JsonTree.Escape("\\") == "\\" by {
      JsonTree.EscapeOnlyQuotes("\\");
    }
    var input := "\\" + "\"";
    assert input[0] == '\\' && input[1] == '"' && |input| == 2;
    assert JsonReader.QuotedText(input, 2, false, "\"") == Failure(JsonReader.PrematureEnd);
    assert JsonReader.QuotedText(input, 1, true, "") == JsonReader.QuotedText(input, 2, false, "\"");
    assert JsonReader.QuotedText(input, 0, false, "") == JsonReader.QuotedText(input, 1, true, "");
  }

  /** Escaping `"` and the backslash itself, as section 7 of RFC 8259 asks. */
  function EscapeBoth(t: string): string
  {
    JsonReader.EscapeQuoted(t)
  }

  /** Every text escaped that way is read back by `readQuotedText` exactly. */
  lemma EscapeBothReadsBack(t: string, rest: string)
    ensures JsonReader.QuotedText(EscapeBoth(t) + "\"" + rest, 0, false, "") == Success((t, |EscapeBoth(t)| + 1))
  {
    var input := EscapeBoth(t) + "\"" + rest;
    assert input[0..|EscapeBoth(t)| + 1] == EscapeBoth(t) + "\"";
    JsonReader.QuotedTextUnescapes(input, 0, t, "");
    assert "" + t == t;
  }

  /** Without a backslash the source's escaping and the intended one agree, so
      such texts do round-trip. */
  lemma EscapeAgreesWithoutBackslash(t: string)
    requires forall i :: 0 <= i < |t| ==> t[i] != '\\'
    ensures JsonTree.Escape(t) == EscapeBoth(t)
  {
    JsonTree.EscapeOnlyQuotes(t);
    MapMatchesEscapeQuoted(t);
  }

  lemma {:induction false} MapMatchesEscapeQuoted(t: string)
    requires forall i :: 0 <= i < |t| ==> t[i] != '\\'
    ensures MapChar(t, '"', "\\\"") == JsonReader.EscapeQuoted(t)
    decreases |t|
  {
    if t != [] {
      MapMatchesEscapeQuoted(t[1..]);
    }
  }

  // ---------------------------------------------------------------------
  // One property or item of add's loops
  // ---------------------------------------------------------------------

  lemma Regroup2(o: string, a: string, b: string)
    ensures o + a + b == o + (a + b)
  {
  }

  lemma Regroup3(o: string, a: string, b: string, c: string)
    ensures o + a + b + c == o + (a + b + c)
  {
  }

  /** Text written behind a `,` is the text written without it, shifted. */
  lemma CommaShift(o: string, a: string, b: string, c: string)
    ensures o + ("," + a) + b + c == o + "," + (o + a + b + c)[|o|..]
  {
    assert (o + a + b + c)[|o|..] == a + b + c;
  }

  lemma Regroup4(o: string, a: string, b: string, c: string, d: string)
    ensures o + a + b + c + d == o + (a + b + c + d)
  {
  }

  /** A container opened inside another: the separator, then the bracket on
      a new line at the depth of the frame it goes in. */
  lemma NestedOpen(s: WriterState, c: Container)
    requires s.writerOpen && s.stack != [] && Top(s.stack) in {ArrayEmpty, Array, ObjectValue}
    ensures AfterOpen(s, c) == Success(s.(out := s.out + Separator(Top(s.stack) != Array, s.layout)
                                                  + Repeat(s.layout.indention, |s.stack|) + [Opener(c)],
                                           stack := Below(s.stack) + [if Top(s.stack) == ObjectValue then ObjectValue else Array, EmptyFrame(c)]))
  {
    var latest := Top(s.stack);
    var separated := Append(Pop(s), Separator(latest != Array, s.layout), false);
    var parent := Push(separated, if latest == ObjectValue then ObjectValue else Array);
    assert |parent.stack| == |s.stack|;
  }

  /** `add` on a nested container: the opening bracket on its own line, the
      body, and the frame it went into completed. */
  lemma NestedAdd(s: WriterState, v: Json)
    requires s.writerOpen && s.stack != [] && Top(s.stack) in {ArrayEmpty, Array, ObjectValue} && (v.Obj? || v.Arr?)
    ensures AfterAdd(s, Some(v)) == Success(s.(out := s.out + Separator(Top(s.stack) != Array, s.layout)
                                                       + Repeat(s.layout.indention, |s.stack|) + [Opener(ContainerOf(v))]
                                                       + BodyText(v, |s.stack|, s.layout),
                                                stack := if Top(s.stack) == ObjectValue then Below(s.stack) else Below(s.stack) + [Array]))
  {
    NestedOpen(s, ContainerOf(v));
    var root := AfterOpen(s, ContainerOf(v)).value;
    AddOpened(s, v, root);
    var parent := Below(s.stack) + [if Top(s.stack) == ObjectValue then ObjectValue else Array];
    assert Below(root.stack) == parent && |root.stack| - 1 == |s.stack|;
    assert Below(parent) == Below(s.stack);
  }

  /** `openJsonObjectProperty` inside `add`: the name on a new line. */
  lemma NamedProperty(st: WriterState, key: string, first: bool)
    requires st.writerOpen && st.stack != [] && Top(st.stack) == (if first then ObjectEmpty else Object)
    ensures AfterProperty(st, key) == Success(st.(out := st.out + Separator(first, st.layout)
                                                         + Repeat(st.layout.indention, |st.stack|) + NameText(key),
                                                  stack := Below(st.stack) + [Object, ObjectValue]))
  {
    var separated := Append(Pop(st), Separator(first, st.layout), false);
    var named := Append(Push(separated, Object), NameText(key), true);
    assert |Push(separated, Object).stack| == |st.stack|;
    assert Push(named, ObjectValue).stack == Below(st.stack) + [Object, ObjectValue];
  }

  /** `addSimpleJsonObjectPropertyValue` inside `add`. */
  lemma SimplePropertyValue(named: WriterState, v: Simple)
    requires named.stack != [] && Top(named.stack) == ObjectValue && named.writerOpen
    ensures AfterPropertyValue(named, v) == Success(named.(out := named.out + (named.layout.separator + SimpleText(v)), stack := Below(named.stack)))
  {
  }

  /** `addSimpleJsonArrayValue` inside `add`. */
  lemma SimpleArrayValue(st: WriterState, v: Simple, first: bool)
    requires st.writerOpen && st.stack != [] && Top(st.stack) == (if first then ArrayEmpty else Array)
    ensures AfterArrayValue(st, v) == Success(st.(out := st.out + Separator(first, st.layout)
                                                         + Repeat(st.layout.indention, |st.stack|) + SimpleText(v),
                                                  stack := Below(st.stack) + [Array]))
  {
    var separated := Append(Pop(st), Separator(first, st.layout), false);
    assert |Push(separated, Array).stack| == |st.stack|;
    assert Push(separated, Array).stack == Below(st.stack) + [Array];
  }

  /** A nested container as a property's value. */
  lemma NestedPropertyValue(named: WriterState, v: Json)
    requires named.writerOpen && named.stack != [] && Top(named.stack) == ObjectValue && (v.Obj? || v.Arr?)
    ensures AfterAdd(named, Some(v)) == Success(named.(out := named.out + PropertyValueText(v, |named.stack|, named.layout), stack := Below(named.stack)))
  {
    var l := named.layout;
    NestedAdd(named, v);
    Regroup4(named.out, l.linebreak, Repeat(l.indention, |named.stack|), [Opener(ContainerOf(v))], BodyText(v, |named.stack|, l));
  }

  /** A nested container as an array element. */
  lemma NestedItem(st: WriterState, v: Json, first: bool)
    requires st.writerOpen && st.stack != [] && Top(st.stack) == (if first then ArrayEmpty else Array) && (v.Obj? || v.Arr?)
    ensures AfterAdd(st, Some(v)) == Success(st.(out := st.out + ItemText(v, |st.stack|, st.layout, first), stack := Below(st.stack) + [Array]))
  {
    var l := st.layout;
    NestedAdd(st, v);
    var opener := [Opener(ContainerOf(v))];
    var body := BodyText(v, |st.stack|, l);
    Regroup2(st.out + Separator(first, l) + Repeat(l.indention, |st.stack|), opener, body);
    Regroup3(st.out, Separator(first, l), Repeat(l.indention, |st.stack|), opener + body);
  }

  /** The text of one property: its head, as `openJsonObjectProperty` writes
      it, and its value. */
  lemma PropertyTextSplit(out: string, m: Member, depth: nat, l: Layout, first: bool)
    ensures out + Separator(first, l) + Repeat(l.indention, depth) + NameText(m.key) + PropertyValueText(m.value, depth + 1, l)
         == out + PropertyText(m, depth, l, first)
  {
    Regroup4(out, Separator(first, l), Repeat(l.indention, depth), NameText(m.key), PropertyValueText(m.value, depth + 1, l));
  }

  /** A property's name, then its value: together the text of the property. */
  lemma PropertyWritten(st: WriterState, mid: WriterState, fin: WriterState, m: Member, first: bool)
    requires st.stack != []
    requires mid == st.(out := st.out + Separator(first, st.layout) + Repeat(st.layout.indention, |st.stack|) + NameText(m.key),
                        stack := Below(st.stack) + [Object, ObjectValue])
    requires fin == mid.(out := mid.out + PropertyValueText(m.value, |mid.stack|, mid.layout), stack := Below(mid.stack))
    ensures fin == st.(out := st.out + PropertyText(m, |st.stack|, st.layout, first), stack := Below(st.stack) + [Object])
  {
    PropertyTextSplit(st.out, m, |st.stack|, st.layout, first);
    assert Below(mid.stack) == Below(st.stack) + [Object] && |mid.stack| == |st.stack| + 1;
  }

  /** The text of one simple element. */
  lemma ItemTextSplit(out: string, v: Json, depth: nat, l: Layout, first: bool)
    requires !v.Obj? && !v.Arr?
    ensures out + Separator(first, l) + Repeat(l.indention, depth) + SimpleText(AsSimple(v))
         == out + ItemText(v, depth, l, first)
  {
    Regroup3(out, Separator(first, l), Repeat(l.indention, depth), SimpleText(AsSimple(v)));
  }

  /** How `closeJsonObject` ends `add` on an object: an empty one is closed
      at once, a filled one on its own line. */
  lemma ObjectClosed(root: WriterState, ms: seq<Member>, st: WriterState)
    requires root.writerOpen && root.stack != [] && Top(root.stack) == ObjectEmpty
    requires st == root.(out := root.out + PropertiesText(ms, |root.stack|, root.layout),
                         stack := Below(root.stack) + [if ms == [] then ObjectEmpty else Object])
    ensures AfterClose(st, ObjectContainer)
         == Success(root.(out := root.out + BodyText(Obj(ms), |root.stack| - 1, root.layout), stack := Settle(root.stack)))
  {
    var l := root.layout;
    assert Below(st.stack) == Below(root.stack);
    if ms == [] {
      assert st.out == root.out;
    } else {
      Regroup4(root.out, PropertiesText(ms, |root.stack|, l), l.linebreak, Repeat(l.indention, |root.stack| - 1), "}");
    }
  }

  /** How `closeJsonArray` ends `add` on an array. */
  lemma ArrayClosed(root: WriterState, items: seq<Json>, st: WriterState)
    requires root.writerOpen && root.stack != [] && Top(root.stack) == ArrayEmpty
    requires st == root.(out := root.out + ItemsText(items, |root.stack|, root.layout),
                         stack := Below(root.stack) + [if items == [] then ArrayEmpty else Array])
    ensures AfterClose(st, ArrayContainer)
         == Success(root.(out := root.out + BodyText(Arr(items), |root.stack| - 1, root.layout), stack := Settle(root.stack)))
  {
    var l := root.layout;
    assert Below(st.stack) == Below(root.stack);
    if items == [] {
      assert st.out == root.out;
    } else {
      Regroup4(root.out, ItemsText(items, |root.stack|, l), l.linebreak, Repeat(l.indention, |root.stack| - 1), "]");
    }
  }

  /** One pass of `add`'s loop over an object's properties keeps the text
      written so far equal to the rendering of the properties seen. */
  lemma PropertiesLoopStep(root: WriterState, prev: WriterState, next: WriterState, ms: seq<Member>, i: nat)
    requires root.stack != [] && i < |ms|
    requires prev == root.(out := root.out + PropertiesText(ms[..i], |root.stack|, root.layout),
                           stack := Below(root.stack) + [if i == 0 then ObjectEmpty else Object])
    requires next == prev.(out := prev.out + PropertyText(ms[i], |prev.stack|, prev.layout, i == 0),
                           stack := Below(prev.stack) + [Object])
    ensures next == root.(out := root.out + PropertiesText(ms[..i + 1], |root.stack|, root.layout),
                          stack := Below(root.stack) + [Object])
  {
    var d, l := |root.stack|, root.layout;
    var pre := ms[..i + 1];
    assert pre[..i] == ms[..i] && pre[i] == ms[i];
    assert PropertiesText(pre, d, l) == PropertiesText(ms[..i], d, l) + PropertyText(ms[i], d, l, i == 0);
    assert Below(prev.stack) == Below(root.stack) && |prev.stack| == d;
    Regroup2(root.out, PropertiesText(ms[..i], d, l), PropertyText(ms[i], d, l, i == 0));
  }

  /** One pass of `add`'s loop over an array's items. */
  lemma ItemsLoopStep(root: WriterState, prev: WriterState, next: WriterState, items: seq<Json>, i: nat)
    requires root.stack != [] && i < |items|
    requires prev == root.(out := root.out + ItemsText(items[..i], |root.stack|, root.layout),
                           stack := Below(root.stack) + [if i == 0 then ArrayEmpty else Array])
    requires next == prev.(out := prev.out + ItemText(items[i], |prev.stack|, prev.layout, i == 0),
                           stack := Below(prev.stack) + [Array])
    ensures next == root.(out := root.out + ItemsText(items[..i + 1], |root.stack|, root.layout),
                          stack := Below(root.stack) + [Array])
  {
    var d, l := |root.stack|, root.layout;
    var pre := items[..i + 1];
    assert pre[..i] == items[..i] && pre[i] == items[i];
    assert ItemsText(pre, d, l) == ItemsText(items[..i], d, l) + ItemText(items[i], d, l, i == 0);
    assert Below(prev.stack) == Below(root.stack) && |prev.stack| == d;
    Regroup2(root.out, ItemsText(items[..i], d, l), ItemText(items[i], d, l, i == 0));
  }

  /** `add` once its root or nested container is open. */
  lemma AddOpened(s: WriterState, v: Json, root: WriterState)
    requires v.Obj? || v.Arr?
    requires AfterOpen(s, ContainerOf(v)) == Success(root)
    ensures AfterAdd(s, Some(v)) == Success(root.(out := root.out + BodyText(v, |root.stack| - 1, root.layout), stack := Settle(root.stack)))
  {
    assert AfterAdd(s, Some(v)) == Success(Filled(root, v));
  }

  /** A method did what its specification function says: on success the new
      state is the function's, on rejection nothing changed. */
  predicate Done(spec: Result<WriterState, WriteError>, r: Result<(), WriteError>, before: WriterState, after: WriterState)
  {
    if spec.Success? then r == Success(()) && after == spec.value else r == Failure(spec.error) && after == before
  }

  // ---------------------------------------------------------------------
  // The writer object
  // ---------------------------------------------------------------------

  class JsonWriter {
    /** Everything written to the output stream so far. */
    var out: string
    /** `openJsonStackItems`, top at the end. */
    var stack: seq<Frame>
    var linebreak: string
    var indention: string
    var separator: string
    /** `outputWriter != null`: something was written and `close()` not yet called. */
    var writerOpen: bool
    /** `outputStream != null`: `close()` not yet called. */
    var streamOpen: bool

    function State(): WriterState
      reads this
    {
      WriterState(out, stack, Layout(linebreak, indention, separator), writerOpen, streamOpen)
    }

    ghost predicate Valid()
      reads this
    {
      ValidState(State())
    }

    /** `JsonWriter(outputStream, encoding)`; the encoding is not modelled. */
    constructor()
      ensures State() == Fresh && Valid()
    {
      out := "";
      stack := [];
      linebreak := "\n";
      indention := "\t";
      separator := " ";
      writerOpen := false;
      streamOpen := true;
    }

    /** `setIndentation(String)`. */
    method SetIndentation(indentation: string)
      requires Valid()
      modifies this
      ensures Valid()
      ensures State() == old(State()).(layout := old(State()).layout.(indention := indentation))
    {
      indention := indentation;
    }

    /** `setIndentation(char)`. */
    method SetIndentationCharacter(c: char)
      requires Valid()
      modifies this
      ensures Valid()
      ensures State() == old(State()).(layout := old(State()).layout.(indention := [c]))
    {
      indention := [c];
    }

    /** `setUglify(value)`: all three format strings empty, or back to the
        defaults. */
    method SetUglify(value: bool)
      requires Valid()
      modifies this
      ensures Valid()
      ensures State() == old(State()).(layout := if value then Ugly else Pretty)
    {
      if value {
        linebreak := "";
        indention := "";
        separator := "";
      } else {
        linebreak := "\n";
        indention := "\t";
        separator := " ";
      }
    }

    /** `write(text, indent)`. Its closed-stream check is made by the open
        methods, the only calls that can write with no writer open. */
    method Write(text: string, indent: bool)
      modifies this
      ensures State() == Append(old(State()), text, indent)
    {
      writerOpen := true;
      out := if indent then out + Repeat(indention, |stack|) + text else out + text;
    }

    /** `openJsonObject` / `openJsonArray`. */
    method OpenContainer(c: Container) returns (r: Result<(), WriteError>)
      requires Valid()
      modifies this
      ensures Valid()
      ensures Done(AfterOpen(old(State()), c), r, old(State()), State())
    {
      StepKeepsValid(State(), OpenCall(c));
      if !writerOpen {
        if !streamOpen {
          return Failure(AlreadyClosed);
        }
        Write([Opener(c)], true);
        stack := stack + [EmptyFrame(c)];
        return Success(());
      }
      if stack == [] {
        return Failure(EmptyStack);
      }
      var latest := stack[|stack| - 1];
      stack := stack[..|stack| - 1];
      if latest != ArrayEmpty && latest != Array && latest != ObjectValue {
        stack := stack + [latest];
        assert stack == old(stack);
        return Failure(NotMatching(Opening(c), latest));
      }
      if latest == Array {
        Write("," + linebreak, false);
      } else if latest == ArrayEmpty {
        Write(linebreak, false);
      } else {
        stack := stack + [ObjectValue];
        Write(linebreak, false);
      }
      if latest != ObjectValue {
        stack := stack + [Array];
      }
      Write([Opener(c)], true);
      stack := stack + [EmptyFrame(c)];
      r := Success(());
    }

    method OpenJsonObject() returns (r: Result<(), WriteError>)
      requires Valid()
      modifies this
      ensures Valid()
      ensures Done(AfterOpen(old(State()), ObjectContainer), r, old(State()), State())
    {
      r := OpenContainer(ObjectContainer);
    }

    method OpenJsonArray() returns (r: Result<(), WriteError>)
      requires Valid()
      modifies this
      ensures Valid()
      ensures Done(AfterOpen(old(State()), ArrayContainer), r, old(State()), State())
    {
      r := OpenContainer(ArrayContainer);
    }

    /** `openJsonObjectProperty(propertyName)`. */
    method OpenJsonObjectProperty(name: string) returns (r: Result<(), WriteError>)
      requires Valid()
      modifies this
      ensures Valid()
      ensures Done(AfterProperty(old(State()), name), r, old(State()), State())
    {
      StepKeepsValid(State(), PropertyCall(name));
      if stack == [] {
        return Failure(EmptyStack);
      }
      var latest := stack[|stack| - 1];
      stack := stack[..|stack| - 1];
      if latest != ObjectEmpty && latest != Object {
        stack := stack + [latest];
        assert stack == old(stack);
        return Failure(NotMatching(OpeningProperty, latest));
      }
      if latest == Object {
        Write("," + linebreak, false);
      } else {
        Write(linebreak, false);
      }
      stack := stack + [Object];
      Write(NameText(name), true);
      stack := stack + [ObjectValue];
      r := Success(());
    }

    /** `addSimpleJsonObjectPropertyValue(propertyValue)`. */
    method AddSimpleJsonObjectPropertyValue(v: Simple) returns (r: Result<(), WriteError>)
      requires Valid()
      modifies this
      ensures Valid()
      ensures Done(AfterPropertyValue(old(State()), v), r, old(State()), State())
    {
      StepKeepsValid(State(), PropertyValueCall(v));
      if stack == [] {
        return Failure(EmptyStack);
      }
      var latest := stack[|stack| - 1];
      stack := stack[..|stack| - 1];
      if latest != ObjectValue {
        stack := stack + [latest];
        assert stack == old(stack);
        return Failure(NotMatching(AddingPropertyValue, latest));
      }
      Write(separator + SimpleText(v), false);
      r := Success(());
    }

    /** `addSimpleJsonArrayValue(arrayValue)`. */
    method AddSimpleJsonArrayValue(v: Simple) returns (r: Result<(), WriteError>)
      requires Valid()
      modifies this
      ensures Valid()
      ensures Done(AfterArrayValue(old(State()), v), r, old(State()), State())
    {
      StepKeepsValid(State(), ArrayValueCall(v));
      if stack == [] {
        return Failure(EmptyStack);
      }
      var latest := stack[|stack| - 1];
      stack := stack[..|stack| - 1];
      if latest != ArrayEmpty && latest != Array {
        stack := stack + [latest];
        assert stack == old(stack);
        return Failure(NotMatching(AddingArrayValue, latest));
      }
      if latest == Array {
        Write("," + linebreak, false);
      } else {
        Write(linebreak, false);
      }
      stack := stack + [Array];
      Write(SimpleText(v), true);
      r := Success(());
    }

    /** The accepted part of `closeJsonObject` / `closeJsonArray`, once the
        container's frame is popped: the bracket, on a line of its own if the
        container holds anything, then a completed property's frame is
        popped too. */
    method WriteCloser(c: Container, filled: bool, ghost s0: WriterState)
      requires ValidState(s0) && s0.stack != []
      requires Top(s0.stack) == if filled then FilledFrame(c) else EmptyFrame(c)
      requires State() == s0.(stack := Below(s0.stack))
      modifies this
      ensures State() == AfterClose(s0, c).value
    {
      ClosedState(s0, c);
      ghost var t := AfterClose(s0, c).value;
      assert |stack| == |s0.stack| - 1;
      if filled {
        Write(linebreak, false);
        Write([Closer(c)], true);
      } else {
        Write([Closer(c)], false);
      }
      assert out == t.out && writerOpen;
      if |stack| > 0 && stack[|stack| - 1] == ObjectValue {
        stack := stack[..|stack| - 1];
      }
      assert stack == t.stack;
    }

    /** `closeJsonObject`. */
    method CloseJsonObject() returns (r: Result<(), WriteError>)
      requires Valid()
      modifies this
      ensures Valid()
      ensures Done(AfterClose(old(State()), ObjectContainer), r, old(State()), State())
    {
      ghost var s0 := State();
      if stack == [] {
        return Failure(EmptyStack);
      }
      var latest := stack[|stack| - 1];
      stack := stack[..|stack| - 1];
      if latest != ObjectEmpty && latest != Object {
        stack := stack + [latest];
        assert stack == old(stack);
        return Failure(NotMatching(Closing(ObjectContainer), latest));
      }
      WriteCloser(ObjectContainer, latest == Object, s0);
      ClosedState(s0, ObjectContainer);
      r := Success(());
    }

    /** `closeJsonArray`. */
    method CloseJsonArray() returns (r: Result<(), WriteError>)
      requires Valid()
      modifies this
      ensures Valid()
      ensures Done(AfterClose(old(State()), ArrayContainer), r, old(State()), State())
    {
      ghost var s0 := State();
      if stack == [] {
        return Failure(EmptyStack);
      }
      var latest := stack[|stack| - 1];
      stack := stack[..|stack| - 1];
      if latest != ArrayEmpty && latest != Array {
        stack := stack + [latest];
        assert stack == old(stack);
        return Failure(NotMatching(Closing(ArrayContainer), latest));
      }
      WriteCloser(ArrayContainer, latest == Array, s0);
      ClosedState(s0, ArrayContainer);
      r := Success(());
    }

    /** `add(jsonItem)`: `None` is the `null` item. */
    method Add(item: Option<Json>) returns (r: Result<(), WriteError>)
      requires Valid()
      requires item.Some? ==> item.value.Obj? || item.value.Arr?
      modifies this
      ensures Valid()
      ensures Done(AfterAdd(old(State()), item), r, old(State()), State())
    {
      if item.None? {
        return Failure(NullItem);
      }
      r := AddTree(item.value);
    }

    /** `add` on an object or array: open it, walk its properties or
        elements, writing nested containers by recursion, then close it. */
    method AddTree(v: Json) returns (r: Result<(), WriteError>)
      requires Valid() && (v.Obj? || v.Arr?)
      modifies this
      ensures Valid()
      ensures Done(AfterAdd(old(State()), Some(v)), r, old(State()), State())
      decreases v, 1
    {
      if v.Obj? {
        r := AddObject(v);
      } else {
        r := AddArray(v);
      }
    }

    method AddObject(v: Json) returns (r: Result<(), WriteError>)
      requires Valid() && v.Obj?
      modifies this
      ensures Valid()
      ensures Done(AfterAdd(old(State()), Some(v)), r, old(State()), State())
      decreases v, 0
    {
      r := OpenJsonObject();
      if r.Failure? {
        return;
      }
      ghost var root := State();
      AddOpened(old(State()), v, root);
      WriteProperties(v.members);
      ObjectClosed(root, v.members, State());
      r := CloseJsonObject();
    }

    method AddArray(v: Json) returns (r: Result<(), WriteError>)
      requires Valid() && v.Arr?
      modifies this
      ensures Valid()
      ensures Done(AfterAdd(old(State()), Some(v)), r, old(State()), State())
      decreases v, 0
    {
      r := OpenJsonArray();
      if r.Failure? {
        return;
      }
      ghost var root := State();
      AddOpened(old(State()), v, root);
      WriteItems(v.items);
      ArrayClosed(root, v.items, State());
      r := CloseJsonArray();
    }

    /** `add`'s loop over an object's entries. */
    method WriteProperties(ms: seq<Member>)
      requires Valid() && writerOpen && stack != [] && Top(stack) == ObjectEmpty
      modifies this
      ensures Valid()
      ensures State() == old(State()).(out := old(out) + PropertiesText(ms, |old(stack)|, old(State()).layout),
                                       stack := Below(old(stack)) + [if ms == [] then ObjectEmpty else Object])
      decreases ms, 3
    {
      ghost var root := State();
      for i := 0 to |ms|
        invariant Valid()
        invariant State() == root.(out := root.out + PropertiesText(ms[..i], |root.stack|, root.layout),
                                   stack := Below(root.stack) + [if i == 0 then ObjectEmpty else Object])
      {
        ghost var prev := State();
        WriteProperty(ms[i], i == 0);
        PropertiesLoopStep(root, prev, State(), ms, i);
      }
      assert ms[..|ms|] == ms;
    }

    /** `add`'s loop over an array's items. */
    method WriteItems(items: seq<Json>)
      requires Valid() && writerOpen && stack != [] && Top(stack) == ArrayEmpty
      modifies this
      ensures Valid()
      ensures State() == old(State()).(out := old(out) + ItemsText(items, |old(stack)|, old(State()).layout),
                                       stack := Below(old(stack)) + [if items == [] then ArrayEmpty else Array])
      decreases items, 3
    {
      ghost var root := State();
      for i := 0 to |items|
        invariant Valid()
        invariant State() == root.(out := root.out + ItemsText(items[..i], |root.stack|, root.layout),
                                   stack := Below(root.stack) + [if i == 0 then ArrayEmpty else Array])
      {
        ghost var prev := State();
        WriteItem(items[i], i == 0);
        ItemsLoopStep(root, prev, State(), items, i);
      }
      assert items[..|items|] == items;
    }

    /** One pass of `add`'s loop over an object's entries: the property is
        opened, then its value written, by recursion if it is a container. */
    method WriteProperty(m: Member, ghost first: bool)
      requires Valid() && writerOpen && stack != [] && Top(stack) == (if first then ObjectEmpty else Object)
      modifies this
      ensures Valid()
      ensures State() == old(State()).(out := old(out) + PropertyText(m, |old(stack)|, old(State()).layout, first),
                                       stack := Below(old(stack)) + [Object])
      decreases m, 0
    {
      ghost var st := State();
      NamedProperty(st, m.key, first);
      var named := OpenJsonObjectProperty(m.key);
      ghost var mid := State();
      WritePropertyValue(m.value);
      PropertyWritten(st, mid, State(), m, first);
    }

    /** The value of a property `add` writes: a nested container, or a simple
        value behind the separator. */
    method WritePropertyValue(v: Json)
      requires Valid() && writerOpen && stack != [] && Top(stack) == ObjectValue
      modifies this
      ensures Valid()
      ensures State() == old(State()).(out := old(out) + PropertyValueText(v, |old(stack)|, old(State()).layout),
                                       stack := Below(old(stack)))
      decreases v, 3
    {
      if v.Obj? || v.Arr? {
        NestedPropertyValue(State(), v);
        var nested := AddTree(v);
      } else {
        SimplePropertyValue(State(), AsSimple(v));
        var valued := AddSimpleJsonObjectPropertyValue(AsSimple(v));
      }
    }

    /** One pass of `add`'s loop over an array's items. */
    method WriteItem(e: Json, ghost first: bool)
      requires Valid() && writerOpen && stack != [] && Top(stack) == (if first then ArrayEmpty else Array)
      modifies this
      ensures Valid()
      ensures State() == old(State()).(out := old(out) + ItemText(e, |old(stack)|, old(State()).layout, first),
                                       stack := Below(old(stack)) + [Array])
      decreases e, 2
    {
      if e.Obj? || e.Arr? {
        NestedItem(State(), e, first);
        var nested := AddTree(e);
      } else {
        SimpleArrayValue(State(), AsSimple(e), first);
        ItemTextSplit(old(out), e, |old(stack)|, old(State()).layout, first);
        var valued := AddSimpleJsonArrayValue(AsSimple(e));
      }
    }

    /** `closeAllOpenJsonItems`, as written: it pops each frame before calling
        the close method that pops again. */
    method CloseAllOpenJsonItems() returns (r: Result<(), WriteError>)
      requires Valid()
      modifies this
      ensures Valid()
      ensures (State(), r) == CloseAllAsWritten(old(State()))
    {
      while stack != []
        invariant Valid()
        invariant CloseAllAsWritten(State()) == CloseAllAsWritten(old(State()))
        decreases |stack|
      {
        var openJsonItem := stack[|stack| - 1];
        WellFormedPrefix(stack, |stack| - 1);
        stack := stack[..|stack| - 1];
        ghost var popped := |stack|;
        if openJsonItem == Array || openJsonItem == ArrayEmpty {
          r := CloseJsonArray();
          if r.Failure? {
            return;
          }
          assert |stack| < popped;
        } else if openJsonItem == Object || openJsonItem == ObjectEmpty {
          r := CloseJsonObject();
          if r.Failure? {
            return;
          }
          assert |stack| < popped;
        }
      }
      r := Success(());
    }

    /** `close()`. */
    method Close() returns (r: Result<(), WriteError>)
      modifies this
      ensures Valid()
      ensures (State(), r) == AfterCloseWriter(old(State()))
    {
      if writerOpen {
        out := out + linebreak;
      }
      writerOpen := false;
      streamOpen := false;
      if stack != [] {
        var jsonItemsStackString := PopAllFrames();
        return Failure(StillOpen(jsonItemsStackString));
      }
      r := Success(());
    }
    /** The loop of `close()` that empties the stack, naming each frame from
        the top down. */
    method PopAllFrames() returns (text: string)
      modifies this
      ensures State() == old(State()).(stack := [])
      ensures text == OpenFramesText(old(stack))
    {
      text := "";
      while stack != []
        invariant State() == old(State()).(stack := stack)
        invariant text + OpenFramesText(stack) == OpenFramesText(old(stack))
        decreases |stack|
      {
        ghost var rest := OpenFramesText(Below(stack));
        assert OpenFramesText(stack) == "/" + FrameName(Top(stack)) + rest;
        Regroup3(text, "/", FrameName(Top(stack)), rest);
        text := text + "/" + FrameName(stack[|stack| - 1]);
        stack := stack[..|stack| - 1];
      }
      assert text + "" == text;
    }
  }
}
