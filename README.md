# A verified model of `java-utilities-no-dependencies`

This project is a Dafny model of the sequential core of the Java utility library `de.soderer.utilities`. It covers the following parts:

- **The JSON value model.** `JsonObject` is an insertion-ordered table with a duplicate-key promotion rule. `JsonArray` is an append-only list. Both have a text serialiser and a recursive character-array parser. They share the scalar rules of `JsonUtilities`.
- **The strict streaming reader `JsonReader`.** It is a token state machine with a one-character pushback and a stack of open items.
- **The writer `JsonWriter`.** It is the mirror-image stack machine. Its output stream is a string field that `write` appends to.
- **The scanner `BasicReader` and the lenient reader `Json5Reader`.** The lenient reader accepts single quotes, identifier keys, trailing commas, comments and hexadecimal literals.
- **The CSV line reader `CsvReader`.** It is a quote-toggling state machine in the style of section 2 of RFC 4180. Its first row fixes the column count.
- **The `TextTable` grid.** A list-of-lists table whose operations keep every row and every per-column list at the same width.
- **Small pure helpers:**
  - `DbUtilities`: vendor names, JDBC URLs, type names, SQL quoting, product-name detection and the table-pattern rewrite.
  - Both copies of `DbColumnType`.
  - `ServerAccessData`: file names of the form `\\entry:path`.
  - The in-memory table of `SecureDataStore`.

## How the model is organised

Each source file, or each group of closely related files, is one module:

| module | file | source |
|---|---|---|
| `Wrappers`, `Text` | `wrappers.dfy`, `text.dfy` | `Option`/`Result`, and the `String`/`Character` operations the code relies on |
| `JsonValues`, `JsonScalars`, `JsonTree` | `json_values.dfy`, `json_scalars.dfy`, `json_tree.dfy` | `JsonObject`, `JsonArray`, the scalar rules of `JsonUtilities` and the reader |
| `JsonUtilities` | `json_utilities.dfy` | `parseJsonData` |
| `JsonRoundTrip` | `json_round_trip.dfy` | `JsonObject.toString` read back by `parseJsonData` |
| `JsonReader` | `json_reader.dfy` | `JsonReader` |
| `JsonWriter` | `json_writer.dfy` | `JsonWriter` |
| `BasicReader`, `Json5Reader` | `basic_reader.dfy`, `json5_reader.dfy` | `BasicReader`, `Json5Reader` |
| `CsvReader` | `csv_reader.dfy` | `CsvReader` |
| `TextTable` | `text_table.dfy` | `TextTable` |
| `SecureDataStore`, `ServerAccessData` | `secure_data_store.dfy`, `server_access_data.dfy` | those classes |
| `DbColumnType`, `DbColumnTypeCompact` | `db_column_type.dfy`, `db_column_type_compact.dfy` | the two copies of `DbColumnType` |
| `DbUtilities` | `db_utilities.dfy` | `DbUtilities` |

How the Java constructs are modelled:

- **Mutating classes.** A Java class whose methods change its fields is a Dafny `class` with those fields. The stream classes work this way.
  - Each such class has a pure step function over a state datatype. The step function says what one call does.
  - Every method is proved to do exactly what its step function says (`ensures Outcome(NextToken(input, old(State())), r, State())` and the like).
  - The properties the library promises are lemmas about those functions.
- **Pure code.** Pure Java code is a set of functions and lemmas.
- **Errors.** A Java exception is the `Failure` of a `Result`. Java's `null` is `None` or an explicit `Null` value.
- **Input and output.** Input streams are a `seq<char>` with a position. Output streams are a string that only grows.
- **Numbers.** A number is a narrow (32-bit) integer, a wide (64-bit) integer, or a floating value kept as its text. The signed 32-bit and 64-bit ranges are checked explicitly.
- **Case folding.** Case-insensitive comparisons and the case conversions fold ASCII letters only. Java's `equalsIgnoreCase` also folds `ſ` with `s`, `ı` with `i` and the Kelvin sign with `k`, and its `toUpperCase` and `toLowerCase` follow the locale. "## Left out" names each member where this makes the model read a text differently from Java.

The following behaviours of the code are modelled as written, not as fixed:

- **`Json5Reader` block comments overrun.** The comment loop reads up to the next star after every character that is not a slash. So `/**/` and a comment ending in `**/` run on into the data.
- **Small hexadecimal literals fail.** A hexadecimal literal inside the 32-bit range is handed to `new Integer("0x..")`, which refuses it.
- **Exponents without a dot fail.** A number with an exponent but no `.` matches the number pattern. It is then handed to the 64-bit integer constructor, which refuses it.
- **`closeAllOpenJsonItems` pops each frame twice.** The method pops a frame itself, then calls a close method that pops again.
- **`[+|-]` and `[e|E]` match `|` literally.** The number pattern's character classes include a literal `|`, so `|` can stand as a sign or as an exponent marker.

`JsonReader.readQuotedText` and `readUpToNext` never see the end of the input. They compare `(char) read()` with `-1`, and that comparison is never equal. The model of those readers reports the intended premature end instead. The as-written loop is modelled beside it (see Findings).

## Model

Source paths are relative to the repository root. The repository holds two copies of the package, under `java-utilities-no-dependencies/src/` and under `src/`; each row cites the copy it models.

| member | source | states |
|---|---|---|
| JsonValues.IndexOfKey | java-utilities-no-dependencies/src/de/soderer/utilities/json/JsonObject.java:10 | The position of a key in insertion order, or -1 exactly when the key is absent |
| JsonValues.Promote | java-utilities-no-dependencies/src/de/soderer/utilities/json/JsonObject.java:37-82 | The value a repeated key ends up with is always an array whose last element is the value just added |
| JsonValues.AddAbsentKey | java-utilities-no-dependencies/src/de/soderer/utilities/json/JsonObject.java:83-85 | A new key is appended with its value as given; the size grows by one and earlier members are untouched |
| JsonValues.AddPresentKey | java-utilities-no-dependencies/src/de/soderer/utilities/json/JsonObject.java:37-82 | A present key keeps its size and position; a non-array value becomes a two-element array (old value, then new), an array grows by one |
| JsonValues.RepeatedAddNeverNests | java-utilities-no-dependencies/src/de/soderer/utilities/json/JsonObject.java:39-52 | Adding several values under one key gives a flat array of them, even when the first value was itself an array, and the key keeps its place |
| JsonValues.AddAllPromotes | java-utilities-no-dependencies/src/de/soderer/utilities/json/JsonObject.java:36-86 | A run of additions under a present key is the accumulated promotion of that key's slot |
| JsonValues.AddMemberKeepsDistinct | java-utilities-no-dependencies/src/de/soderer/utilities/json/JsonObject.java:36-86 | `add` keeps the keys distinct |
| JsonValues.RemoveMemberKeepsDistinct | java-utilities-no-dependencies/src/de/soderer/utilities/json/JsonObject.java:88-90 | `remove` keeps the keys distinct |
| JsonValues.RemoveProperties | java-utilities-no-dependencies/src/de/soderer/utilities/json/JsonObject.java:88-94 | `remove(key)` yields the previous value; afterwards `get(key)` is null and every other key keeps its value and relative order |
| JsonValues.AddAtIndex | java-utilities-no-dependencies/src/de/soderer/utilities/json/JsonObject.java:37-82 | With distinct keys the member holding the key is the one `add` promotes in place |
| JsonScalars.ValidUnfinishedPrefixClosed | java-utilities-no-dependencies/src/de/soderer/utilities/json/JsonUtilities.java:51-63 | Every prefix of an accepted unfinished value is accepted, so every case-insensitive prefix of the literals and the empty string pass |
| JsonScalars.NumberPatternPrefixClosed | java-utilities-no-dependencies/src/de/soderer/utilities/json/JsonUtilities.java:58 | Every prefix of a text matching the number pattern matches it |
| JsonScalars.NumberPatternAlphabet | java-utilities-no-dependencies/src/de/soderer/utilities/json/JsonUtilities.java:58 | Only digits, signs, `|`, exponent letters and `.` occur in a text matching the number pattern |
| JsonScalars.ParseLong | java-utilities-no-dependencies/src/de/soderer/utilities/json/JsonUtilities.java:76 | `new Long(text)` succeeds only with a value in the signed 64-bit range |
| JsonScalars.ParseLongOfToString | java-utilities-no-dependencies/src/de/soderer/utilities/json/JsonUtilities.java:76 | Reading back the decimal text of a 64-bit number gives that number |
| JsonScalars.GetJsonValue | java-utilities-no-dependencies/src/de/soderer/utilities/json/JsonUtilities.java:65-81 | Number-pattern text without `.` is the wide integer `new Long` gives, or fails with that text when the constructor refuses it; with `.` it is floating when `new Double` accepts it and fails otherwise; text outside the literals and the pattern is not a value; every accepted text is also a valid unfinished value |
| JsonScalars.GetJsonValueLiterals | java-utilities-no-dependencies/src/de/soderer/utilities/json/JsonUtilities.java:66-71 | `true`, `false` and `null` in any letter case give Boolean true, false and null |
| JsonScalars.GetJsonValueRejects | java-utilities-no-dependencies/src/de/soderer/utilities/json/JsonUtilities.java:78-80 | Text outside the literals and the number pattern fails |
| JsonScalars.NumbersAreNotLiterals | java-utilities-no-dependencies/src/de/soderer/utilities/json/JsonUtilities.java:66-79 | No text of the number pattern is one of the literals, so the literal tests never hide a number |
| JsonScalars.ExponentWithoutDotFails | java-utilities-no-dependencies/src/de/soderer/utilities/json/JsonUtilities.java:72-77 | `1e5` matches the pattern but fails, being handed to the 64-bit integer constructor |
| JsonScalars.DecimalValue | java-utilities-no-dependencies/src/de/soderer/utilities/json/JsonUtilities.java:72-77 | Text with `.` is floating exactly when `new Double` accepts it; other text is the integer `Long.parseLong` gives, narrow inside the 32-bit range; the call fails, with the text, exactly when the constructor in question refuses it |
| JsonScalars.NarrowOrWide | java-utilities-no-dependencies/src/de/soderer/utilities/json/JsonReader.java:302-307 | An integer is narrow exactly inside the signed 32-bit range and wide outside it, with its value |
| JsonScalars.SimpleJsonValue | java-utilities-no-dependencies/src/de/soderer/utilities/json/JsonReader.java:291-312 | The three literals in any letter case give null and the booleans; number-pattern text gives the integer or floating value the constructors accept, and otherwise fails with the text; any other text is not a value; only valid unfinished values are accepted |
| JsonScalars.SimpleValueAgreesWithGetJsonValue | java-utilities-no-dependencies/src/de/soderer/utilities/json/JsonReader.java:291-312 | The reader and the tree parser accept the same scalars with the same value, except that the reader narrows integers inside the 32-bit range |
| JsonScalars.SmallIntegerWidths | java-utilities-no-dependencies/src/de/soderer/utilities/json/JsonUtilities.java:72-77 | `42` is a `Long` for the tree parsers and an `Integer` for the streaming reader |
| JsonScalars.HexLiteral | src/de/soderer/utilities/json/Json5Reader.java:169-175 | A hexadecimal literal succeeds exactly beyond the 32-bit range and up to the 64-bit limit, as a wide integer of its hexadecimal value |
| JsonScalars.Json5SimpleValue | src/de/soderer/utilities/json/Json5Reader.java:154-190 | A lenient scalar is null, a boolean or a number; outside the infinities, `NaN` and hexadecimal literals the result, failures included, is the strict reader's |
| JsonScalars.Json5ExtendsStrictScalars | src/de/soderer/utilities/json/Json5Reader.java:176-186 | Every scalar the strict reader accepts, the lenient dialect accepts with the same value |
| JsonScalars.Json5DiffersOnlyOnExtras | src/de/soderer/utilities/json/Json5Reader.java:154-190 | Outside the infinities, `NaN` and hexadecimal literals the lenient and the strict reader give the same result, failures included; on those texts the strict reader fails. With Json5ExtendsStrictScalars this makes acceptance an if-and-only-if outside those texts |
| JsonScalars.SmallHexLiteralFails | src/de/soderer/utilities/json/Json5Reader.java:171-172 | `0x1F` fails, being handed to `new Integer` |
| JsonScalars.LargeHexLiteralIsWide | src/de/soderer/utilities/json/Json5Reader.java:170-174 | `0x100000000` is the wide integer 2^32 |
| JsonTree.EscapeOnlyQuotes | java-utilities-no-dependencies/src/de/soderer/utilities/json/JsonObject.java:123-135 | Keys and string values are written with every `"` replaced by `\"` and nothing else changed; undoing that map gives the text back |
| JsonTree.QuotedScanKeepsEscapes | java-utilities-no-dependencies/src/de/soderer/utilities/json/JsonObject.java:183-192 | A quoted text without backslashes, written as `toString` escapes it, is read up to its closing quote with each `\"` kept as two characters |
| JsonTree.QuotedScanKeepsMapped | java-utilities-no-dependencies/src/de/soderer/utilities/json/JsonObject.java:183-192 | The same, by induction on the text, for the quote-mapped form |
| JsonTree.ObjectTextShape | java-utilities-no-dependencies/src/de/soderer/utilities/json/JsonObject.java:109-151 | An empty object is written `{}`; any other starts with `{` and ends with line break, `}`, line break |
| JsonTree.ArrayTextShape | java-utilities-no-dependencies/src/de/soderer/utilities/json/JsonArray.java:62-97 | An empty array is written `[]`; any other is `[`, separator, the elements joined by `,` and separator, then separator and `]` |
| JsonTree.MemberTextsStep | java-utilities-no-dependencies/src/de/soderer/utilities/json/JsonObject.java:114-142 | One more pass of the object's write loop adds `,` and the next property's text |
| JsonTree.ValueTextsStep | java-utilities-no-dependencies/src/de/soderer/utilities/json/JsonArray.java:68-89 | One more pass of the array's write loop adds `,`, the separator and the next element's text |
| JsonTree.Coerce | java-utilities-no-dependencies/src/de/soderer/utilities/json/JsonArray.java:136 | The parsers coerce unquoted text exactly as `getJsonValue` does, its failure being a parse failure |
| JsonTree.ObjectScan | java-utilities-no-dependencies/src/de/soderer/utilities/json/JsonObject.java:154-264 | A successful object scan ends at the index of a `}` |
| JsonTree.ArrayScan | java-utilities-no-dependencies/src/de/soderer/utilities/json/JsonArray.java:100-191 | A successful array scan ends at the index of a `]` |
| JsonTree.ObjectScanNested | java-utilities-no-dependencies/src/de/soderer/utilities/json/JsonObject.java:231-238 | A nested object or array resumes the scan after its own closing bracket, holding the nested value |
| JsonTree.ArrayScanNested | java-utilities-no-dependencies/src/de/soderer/utilities/json/JsonArray.java:162-169 | The same for values nested in an array |
| JsonTree.ObjectScanRejects | java-utilities-no-dependencies/src/de/soderer/utilities/json/JsonObject.java:168-255 | The object parser fails on a backslash outside quotes, a `:` with no key, a `,` with nothing pending, a stray `]`, and unquoted text that cannot start a literal or number |
| JsonTree.ArrayScanRejects | java-utilities-no-dependencies/src/de/soderer/utilities/json/JsonArray.java:112-181 | The array parser fails on a backslash outside quotes, any `:`, a `,` with no value before it, a stray `}`, and unquoted text that cannot start a literal or number |
| JsonTree.ArrayScanCoerces | java-utilities-no-dependencies/src/de/soderer/utilities/json/JsonArray.java:132-161 | A value pending at `,` or `]` is coerced by `getJsonValue` and appended; when coercion fails so does the parse |
| JsonTree.JsonObject.constructor | java-utilities-no-dependencies/src/de/soderer/utilities/json/JsonObject.java:10 | A new object has no properties |
| JsonTree.JsonObject.Add | java-utilities-no-dependencies/src/de/soderer/utilities/json/JsonObject.java:12-86 | The properties become those of the promotion rule of `add`, with distinct keys kept |
| JsonTree.JsonObject.AddNullValue | java-utilities-no-dependencies/src/de/soderer/utilities/json/JsonObject.java:32-34 | `addNullValue(key)` is `add` of an explicit null |
| JsonTree.JsonObject.Remove | java-utilities-no-dependencies/src/de/soderer/utilities/json/JsonObject.java:88-90 | The previous value is returned and the key's member removed |
| JsonTree.JsonObject.GetValue | java-utilities-no-dependencies/src/de/soderer/utilities/json/JsonObject.java:92-94 | `get` gives `null` for a missing key, and otherwise the value of the one member that holds the key |
| JsonTree.JsonObject.KeySet | java-utilities-no-dependencies/src/de/soderer/utilities/json/JsonObject.java:96-98 | The keys listed are exactly the keys present, and each occurs once |
| JsonTree.JsonObject.Size | java-utilities-no-dependencies/src/de/soderer/utilities/json/JsonObject.java:100-102 | The size is the number of keys |
| JsonTree.JsonObject.ToString | java-utilities-no-dependencies/src/de/soderer/utilities/json/JsonObject.java:109-152 | The loop writes exactly the object text whose shape `ObjectTextShape` states |
| JsonTree.JsonObject.Parse | java-utilities-no-dependencies/src/de/soderer/utilities/json/JsonObject.java:154-264 | The loop over the characters returns what the object scan gives: the properties read and the index of the closing `}`, or its failure |
| JsonTree.RemoveFirst | java-utilities-no-dependencies/src/de/soderer/utilities/json/JsonArray.java:40-42 | `List.remove(Object)` removes the first occurrence of a present element: the result is the elements before it followed by those after it, in their order, with one copy fewer in the multiset; a list without the element is left unchanged |
| JsonTree.JsonArray.constructor | java-utilities-no-dependencies/src/de/soderer/utilities/json/JsonArray.java:10 | A new array has no elements |
| JsonTree.JsonArray.Add | java-utilities-no-dependencies/src/de/soderer/utilities/json/JsonArray.java:12-38 | `add` appends exactly one element at the end |
| JsonTree.JsonArray.AddNullValue | java-utilities-no-dependencies/src/de/soderer/utilities/json/JsonArray.java:32-34 | `addNullValue` appends an explicit null element |
| JsonTree.JsonArray.Remove | java-utilities-no-dependencies/src/de/soderer/utilities/json/JsonArray.java:40-42 | The result says whether an equal element was present; the elements become `RemoveFirst` of the old ones, so its first occurrence goes and the others keep their order |
| JsonTree.JsonArray.Get | java-utilities-no-dependencies/src/de/soderer/utilities/json/JsonArray.java:44-46 | The element at the index; `None`, where Java throws, exactly for an index below 0 or not below the size |
| JsonTree.JsonArray.Size | java-utilities-no-dependencies/src/de/soderer/utilities/json/JsonArray.java:48-50 | No contract: the number of elements, used by the contract of `Get` |
| JsonTree.JsonArray.ToString | java-utilities-no-dependencies/src/de/soderer/utilities/json/JsonArray.java:62-98 | The loop writes exactly the array text whose shape `ArrayTextShape` states |
| JsonTree.JsonArray.Parse | java-utilities-no-dependencies/src/de/soderer/utilities/json/JsonArray.java:100-191 | The loop returns what the array scan gives: the elements read and the index of the closing `]`, or its failure |
| JsonTree.ParseNested | java-utilities-no-dependencies/src/de/soderer/utilities/json/JsonArray.java:162-169 | A nested `JsonObject` or `JsonArray` parses from the character after its bracket |
| JsonUtilities.FirstNonWhitespace | java-utilities-no-dependencies/src/de/soderer/utilities/json/JsonUtilities.java:21-29 | The first index from which the character is not whitespace, all before it being whitespace |
| JsonUtilities.Failed | java-utilities-no-dependencies/src/de/soderer/utilities/json/JsonUtilities.java:42-47 | A failure is rethrown when asked to, and gives null otherwise |
| JsonUtilities.ParseJsonData | java-utilities-no-dependencies/src/de/soderer/utilities/json/JsonUtilities.java:17-49 | `parseJsonData` gives the document's object, or the failure rethrown, or null when failures are not thrown |
| JsonUtilities.ParseDocument | java-utilities-no-dependencies/src/de/soderer/utilities/json/JsonUtilities.java:17-39 | No contract: it follows the source's skip of leading whitespace, the `{` test, the object parse and the trailing-whitespace test. ParseDocumentFramed, FramedParseDocument, ParseDocumentNeedsBrace, ParseDocumentRejectsTrailing and ParseDocumentBlank state what it accepts and how it fails |
| JsonUtilities.ParseDocumentFramed | java-utilities-no-dependencies/src/de/soderer/utilities/json/JsonUtilities.java:21-39 | An accepted document is whitespace, one object, whitespace |
| JsonUtilities.FramedParseDocument | java-utilities-no-dependencies/src/de/soderer/utilities/json/JsonUtilities.java:21-39 | An object framed by whitespace is accepted with the object's properties |
| JsonUtilities.ParseDocumentNeedsBrace | java-utilities-no-dependencies/src/de/soderer/utilities/json/JsonUtilities.java:21-28 | The first non-whitespace character must be `{`; any other fails at its index |
| JsonRoundTrip.FlatUnquoted | java-utilities-no-dependencies/src/de/soderer/utilities/json/JsonObject.java:127-139 | A literal or a number written by `toString` is unquoted text that passes the validation at every prefix and that `getJsonValue` reads as the value, an `Integer` as a `Long` |
| JsonRoundTrip.ReadProperty | java-utilities-no-dependencies/src/de/soderer/utilities/json/JsonObject.java:165-257 | The parser reads one property as `toString` writes it: the line break and indentation are skipped, the key is read still escaped, and the value is pending afterwards |
| JsonRoundTrip.ReadChain | java-utilities-no-dependencies/src/de/soderer/utilities/json/JsonObject.java:165-230 | The properties as `toString` writes them, each ended by `,` and the last by the line break and `}`, are read in order, each key and string still escaped, and the scan ends at that `}` |
| JsonRoundTrip.ObjectTextReadsBack | java-utilities-no-dependencies/src/de/soderer/utilities/json/JsonObject.java:109-264 | `parseJsonData` of `toString` of an object with distinct keys, flat values and blank formatting gives the properties in order, each `"` still escaped and each `Integer` as a `Long` |
| JsonRoundTrip.ReadBackIdentity | java-utilities-no-dependencies/src/de/soderer/utilities/json/JsonObject.java:123-135 | What is read back equals what was written exactly when no key or string holds `"` and no value is an `Integer` |
| JsonRoundTrip.ObjectTextRoundTrips | java-utilities-no-dependencies/src/de/soderer/utilities/json/JsonUtilities.java:17-49 | Hence `parseJsonData(toString(o))` is `o` for such objects |
| JsonRoundTrip.QuoteReadBackWithBackslash | java-utilities-no-dependencies/src/de/soderer/utilities/json/JsonObject.java:187-189 | The string `a"b`, written by `toString` as `"a\"b"` under the key `k`, is read back as the string `a\"b`, not `a"b` |
| JsonRoundTrip.IntendedUnescapeReadsBack | java-utilities-no-dependencies/src/de/soderer/utilities/json/JsonReader.java:256-273 | Read with the rule that drops the backslash and keeps the next character, the escaping `toString` uses gives back every text without a backslash |
| JsonUtilities.ParseDocumentRejectsTrailing | java-utilities-no-dependencies/src/de/soderer/utilities/json/JsonUtilities.java:32-39 | The first non-whitespace character after the closing `}` fails at its index |
| JsonUtilities.ParseDocumentBlank | java-utilities-no-dependencies/src/de/soderer/utilities/json/JsonUtilities.java:21-32 | A document of whitespace only fails as an unclosed object |
| JsonUtilities.ParseDocumentExample | java-utilities-no-dependencies/src/de/soderer/utilities/json/JsonUtilities.java:17-49 | ` {"a":"b"} ` is read as the object with the one property `a` = `"b"` |
| JsonReader.SkipWhitespace | java-utilities-no-dependencies/src/de/soderer/utilities/json/JsonReader.java:244-254 | `readNextNonWhitespace` gives the first non-whitespace character, consuming only whitespace before it, and fails when only whitespace is left |
| JsonReader.QuotedText | java-utilities-no-dependencies/src/de/soderer/utilities/json/JsonReader.java:256-273 | Quoted text stops right after an unescaped `"` |
| JsonReader.UpToNext | java-utilities-no-dependencies/src/de/soderer/utilities/json/JsonReader.java:275-289 | The text read ends with the first of the two end characters, and the position is right after it |
| JsonReader.SimpleValueAt | java-utilities-no-dependencies/src/de/soderer/utilities/json/JsonReader.java:291-312 | `readSimpleJsonValue` succeeds exactly when the scalar rules do, with their value; a pattern text the number constructors refuse fails with their number-format error, any other refused text with invalid data at the current character count |
| JsonReader.SimpleValueExamples | java-utilities-no-dependencies/src/de/soderer/utilities/json/JsonReader.java:291-312 | `42` is read as an `Integer`, `1e5` fails with the number-format error, and `x` is invalid data at the current count |
| JsonReader.NextToken | java-utilities-no-dependencies/src/de/soderer/utilities/json/JsonReader.java:54-135 | Every token consumes input and leaves the reader initialised |
| JsonReader.NextTokenStack | java-utilities-no-dependencies/src/de/soderer/utilities/json/JsonReader.java:81-134 | Every token has its stack effect: openers push (replacing a pending key), closers pop their opener, a key pushes a key frame, a value after a key pops it |
| JsonReader.StackEffectKeepsWellFormed | java-utilities-no-dependencies/src/de/soderer/utilities/json/JsonReader.java:81-134 | Those effects keep the stack well formed: a key frame is only ever on top, directly above its object |
| JsonReader.NextTokenKeepsStackWellFormed | java-utilities-no-dependencies/src/de/soderer/utilities/json/JsonReader.java:54-135 | Reading a token keeps the stack well formed |
| JsonReader.CommaNeedsOpenContainer | java-utilities-no-dependencies/src/de/soderer/utilities/json/JsonReader.java:65-70 | A `,` is accepted only with an open object or array on top; else it fails |
| JsonReader.ColonNeedsPropertyKey | java-utilities-no-dependencies/src/de/soderer/utilities/json/JsonReader.java:71-77 | A `:` is accepted only with a property key on top; else it fails |
| JsonReader.CloseNeedsItsOpener | java-utilities-no-dependencies/src/de/soderer/utilities/json/JsonReader.java:88-105 | A closing bracket pops and fails unless the popped frame is the opener of its kind |
| JsonReader.ValueToken | java-utilities-no-dependencies/src/de/soderer/utilities/json/JsonReader.java:117-133 | An unquoted value ending in the container's closer pushes the closer back; one ending in `,` consumes it |
| JsonReader.NextItemCloseReplays | java-utilities-no-dependencies/src/de/soderer/utilities/json/JsonReader.java:152-159 | After `readNextJsonItem` meets a container's end, the next token read is that same end in the same state |
| JsonReader.NextItem | java-utilities-no-dependencies/src/de/soderer/utilities/json/JsonReader.java:137-163 | `readNextJsonItem` stays inside the input |
| JsonReader.ReadDocument | java-utilities-no-dependencies/src/de/soderer/utilities/json/JsonReader.java:172-187 | `read` gives an object or an array |
| JsonReader.ReadObjectBalanced | java-utilities-no-dependencies/src/de/soderer/utilities/json/JsonReader.java:189-215 | Reading an object leaves the stack it found below its `{` |
| JsonReader.ReadArrayBalanced | java-utilities-no-dependencies/src/de/soderer/utilities/json/JsonReader.java:217-242 | Reading an array leaves the stack it found below its `[` |
| JsonReader.ValueBalanced | java-utilities-no-dependencies/src/de/soderer/utilities/json/JsonReader.java:199-204 | A property's value leaves the stack as it was outside the key |
| JsonReader.ReadDocumentBalanced | java-utilities-no-dependencies/src/de/soderer/utilities/json/JsonReader.java:172-187 | A whole document read from an empty stack leaves it empty |
| JsonReader.ReadObjectDistinct | java-utilities-no-dependencies/src/de/soderer/utilities/json/JsonReader.java:189-215 | The properties of an object read have distinct keys, a repeated key being promoted in its first slot |
| JsonReader.QuotedTextUnescapes | java-utilities-no-dependencies/src/de/soderer/utilities/json/JsonReader.java:256-273 | Reading a text with every `"` and `\` preceded by a backslash, followed by `"`, gives the text back and stops right after the quote |
| JsonReader.ReadDocumentExample | java-utilities-no-dependencies/src/de/soderer/utilities/json/JsonReader.java:172-187 | `{"a":"b"}` is read as one property with every item closed |
| JsonReader.CastRead | java-utilities-no-dependencies/src/de/soderer/utilities/json/JsonReader.java:260-261 | Past the end `(char) read()` is U+FFFF, never -1 |
| JsonReader.QuotedTextAsWrittenHangs | java-utilities-no-dependencies/src/de/soderer/utilities/json/JsonReader.java:260-272 | At the end of the input the quoted-text loop as written never stops with the premature-end error, however long it runs; it keeps appending U+FFFF |
| JsonReader.QuotedTextAsWrittenAgrees | java-utilities-no-dependencies/src/de/soderer/utilities/json/JsonReader.java:260-272 | With the closing quote present, the loop as written and the corrected one agree |
| JsonReader.QuotedTextPrematureEnd | java-utilities-no-dependencies/src/de/soderer/utilities/json/JsonReader.java:272 | The corrected quoted-text read reports the premature end |
| JsonReader.UpToNextAsWrittenHangs | java-utilities-no-dependencies/src/de/soderer/utilities/json/JsonReader.java:278-288 | At the end of the input the `readUpToNext` loop as written never stops with the premature-end error; it keeps appending U+FFFF |
| JsonReader.UpToNextAsWrittenAgrees | java-utilities-no-dependencies/src/de/soderer/utilities/json/JsonReader.java:278-288 | With an end character present, the loop as written and the corrected one agree |
| JsonReader.UpToNextPrematureEnd | java-utilities-no-dependencies/src/de/soderer/utilities/json/JsonReader.java:288 | The corrected `readUpToNext` reports the premature end |
| JsonReader.UnclosedValueExample | java-utilities-no-dependencies/src/de/soderer/utilities/json/JsonReader.java:117-125 | On `{"a":1` the reader as written is stuck, the corrected one fails |
| JsonReader.JsonReader.constructor | java-utilities-no-dependencies/src/de/soderer/utilities/json/JsonReader.java:41-48 | A new reader is uninitialised, with an empty stack and nothing read |
| JsonReader.JsonReader.ReadNextNonWhitespace | java-utilities-no-dependencies/src/de/soderer/utilities/json/JsonReader.java:244-254 | The loop does what `SkipWhitespace` says |
| JsonReader.JsonReader.ReadQuotedText | java-utilities-no-dependencies/src/de/soderer/utilities/json/JsonReader.java:256-273 | The loop does what the corrected `QuotedText` says |
| JsonReader.JsonReader.ReadUpToNext | java-utilities-no-dependencies/src/de/soderer/utilities/json/JsonReader.java:275-289 | The loop does what the corrected `UpToNext` says |
| JsonReader.JsonReader.ReadNextToken | java-utilities-no-dependencies/src/de/soderer/utilities/json/JsonReader.java:54-135 | The result and the new state are those of `NextToken` |
| JsonReader.JsonReader.ReadJsonObject | java-utilities-no-dependencies/src/de/soderer/utilities/json/JsonReader.java:189-215 | The object and the new state are those of `ReadObject` |
| JsonReader.JsonReader.ReadJsonArray | java-utilities-no-dependencies/src/de/soderer/utilities/json/JsonReader.java:217-242 | The array and the new state are those of `ReadArray` |
| JsonReader.JsonReader.ReadNextJsonItem | java-utilities-no-dependencies/src/de/soderer/utilities/json/JsonReader.java:137-163 | The result and the new state are those of `NextItem` |
| JsonReader.JsonReader.Read | java-utilities-no-dependencies/src/de/soderer/utilities/json/JsonReader.java:172-187 | The result and the new state are those of `ReadDocument` |
| JsonWriter.Append | java-utilities-no-dependencies/src/de/soderer/utilities/json/JsonWriter.java:316-325 | `write` appends the text, after the indentation repeated once per open frame when asked to |
| JsonWriter.AfterOpen | java-utilities-no-dependencies/src/de/soderer/utilities/json/JsonWriter.java:72-99 | Opening succeeds first on a fresh writer, later only inside an array or on a value-pending frame; an array parent becomes non-empty, a value frame stays beneath |
| JsonWriter.AfterProperty | java-utilities-no-dependencies/src/de/soderer/utilities/json/JsonWriter.java:101-116 | A property name only on an object frame, which becomes non-empty, with a value-pending frame above; else a failure naming the top frame |
| JsonWriter.AfterPropertyValue | java-utilities-no-dependencies/src/de/soderer/utilities/json/JsonWriter.java:118-136 | A simple property value only on a value-pending frame, which it pops |
| JsonWriter.AfterArrayValue | java-utilities-no-dependencies/src/de/soderer/utilities/json/JsonWriter.java:184-210 | A simple array value only on an array frame, which becomes non-empty |
| JsonWriter.Settle | java-utilities-no-dependencies/src/de/soderer/utilities/json/JsonWriter.java:150-152 | Closing a container also pops a value-pending frame directly beneath it |
| JsonWriter.AfterClose | java-utilities-no-dependencies/src/de/soderer/utilities/json/JsonWriter.java:138-153 | Closing succeeds only on that container's frame, which is popped with a value frame beneath |
| JsonWriter.AfterCloseWriter | java-utilities-no-dependencies/src/de/soderer/utilities/json/JsonWriter.java:297-314 | `close` empties the stack and shuts the writer; it fails exactly when frames were open |
| JsonWriter.Step | java-utilities-no-dependencies/src/de/soderer/utilities/json/JsonWriter.java:72-227 | No contract: it sends each writer call to its rule (AfterOpen, AfterProperty, AfterPropertyValue, AfterArrayValue, AfterClose). StepKeepsValid, StepAppendsOnly and StepRejectionNamesTop state its properties over all calls |
| JsonWriter.StepKeepsValid | java-utilities-no-dependencies/src/de/soderer/utilities/json/JsonWriter.java:72-227 | Every accepted call keeps the stack well formed |
| JsonWriter.ClosedState | java-utilities-no-dependencies/src/de/soderer/utilities/json/JsonWriter.java:138-153 | An accepted close writes the bracket at once for an empty container, else on its own line at the opener's depth |
| JsonWriter.StepAppendsOnly | java-utilities-no-dependencies/src/de/soderer/utilities/json/JsonWriter.java:72-227 | No call takes back output, and no call changes the layout |
| JsonWriter.StepRejectionNamesTop | java-utilities-no-dependencies/src/de/soderer/utilities/json/JsonWriter.java:77-80 | A rejected call names the frame it found on top and leaves the state unchanged |
| JsonWriter.FirstOpen | java-utilities-no-dependencies/src/de/soderer/utilities/json/JsonWriter.java:73-75 | The first open on a fresh writer writes the bracket and pushes exactly one empty frame |
| JsonWriter.CommaBeforeProperty | java-utilities-no-dependencies/src/de/soderer/utilities/json/JsonWriter.java:107-111 | A property is written behind `,` exactly when its object already holds one |
| JsonWriter.CommaBeforeArrayValue | java-utilities-no-dependencies/src/de/soderer/utilities/json/JsonWriter.java:190-194 | A simple array value is written behind `,` exactly when its array is non-empty |
| JsonWriter.CommaBeforeNestedContainer | java-utilities-no-dependencies/src/de/soderer/utilities/json/JsonWriter.java:82-89 | A nested container is written behind `,` exactly when its array is non-empty |
| JsonWriter.CloseNamesOpenFrames | java-utilities-no-dependencies/src/de/soderer/utilities/json/JsonWriter.java:307-313 | `close` fails naming each open frame, one `/` per frame, top first |
| JsonWriter.CloseWritesFinalLinebreak | java-utilities-no-dependencies/src/de/soderer/utilities/json/JsonWriter.java:298-300 | `close` writes one line break if anything was written; closing again changes nothing |
| JsonWriter.ClosedRejectsEverything | java-utilities-no-dependencies/src/de/soderer/utilities/json/JsonWriter.java:317-320 | After `close` a root open finds the stream closed and every other call an empty stack |
| JsonWriter.CloseArrayAfterOpenObjectRejected | java-utilities-no-dependencies/src/de/soderer/utilities/json/JsonWriter.java:212-216 | Closing an opened object as an array fails, naming the empty object frame |
| JsonWriter.SecondRootRejected | java-utilities-no-dependencies/src/de/soderer/utilities/json/JsonWriter.java:76-80 | Once the root is closed a second root is rejected |
| JsonWriter.AfterAdd | java-utilities-no-dependencies/src/de/soderer/utilities/json/JsonWriter.java:229-261 | `add(null)` fails; otherwise `add` fails exactly when opening the container does |
| JsonWriter.AddLeavesStack | java-utilities-no-dependencies/src/de/soderer/utilities/json/JsonWriter.java:229-261 | `add` leaves the stack as the open would have before the item; a root leaves nothing open |
| JsonWriter.AddRoot | java-utilities-no-dependencies/src/de/soderer/utilities/json/JsonWriter.java:229-261 | A root is written as its bracket and its body text |
| JsonWriter.AddExample | java-utilities-no-dependencies/src/de/soderer/utilities/json/JsonWriter.java:60-63 | After `setUglify(true)`, `{"a":[1,"x"]}` is written exactly so |
| JsonWriter.AddIndentExample | java-utilities-no-dependencies/src/de/soderer/utilities/json/JsonWriter.java:229-261 | With the default layout `[1, {}]` is written with each item on its own indented line and `{}` for the empty object |
| JsonWriter.CloseAllAsWrittenFails | java-utilities-no-dependencies/src/de/soderer/utilities/json/JsonWriter.java:263-279 | Closing a root array that way fails on an empty stack and writes nothing |
| JsonWriter.CloseAllAsWrittenDropsBracket | java-utilities-no-dependencies/src/de/soderer/utilities/json/JsonWriter.java:263-279 | Nested arrays are closed with one bracket only |
| JsonWriter.CloseAllIntendedEmpties | java-utilities-no-dependencies/src/de/soderer/utilities/json/JsonWriter.java:263-279 | Closing each frame once closes everything from every reachable state, only appending |
| JsonWriter.CloseAllIntendedExample | java-utilities-no-dependencies/src/de/soderer/utilities/json/JsonWriter.java:263-279 | The intended version closes the nested arrays with both brackets |
| JsonWriter.EscapeLosesBackslash | java-utilities-no-dependencies/src/de/soderer/utilities/json/JsonWriter.java:113 | A value `\` is written unescaped and is not read back by `readQuotedText` |
| JsonWriter.EscapeBothReadsBack | java-utilities-no-dependencies/src/de/soderer/utilities/json/JsonReader.java:256-273 | Text with `"` and `\` both escaped is read back exactly |
| JsonWriter.EscapeAgreesWithoutBackslash | java-utilities-no-dependencies/src/de/soderer/utilities/json/JsonWriter.java:133 | Without a backslash both escapings agree, so such texts do round-trip |
| JsonWriter.JsonWriter.constructor | java-utilities-no-dependencies/src/de/soderer/utilities/json/JsonWriter.java:43-50 | A new writer has written nothing, has an empty stack and the default layout |
| JsonWriter.JsonWriter.SetIndentation | java-utilities-no-dependencies/src/de/soderer/utilities/json/JsonWriter.java:52-54 | Only the indentation changes |
| JsonWriter.JsonWriter.SetIndentationCharacter | java-utilities-no-dependencies/src/de/soderer/utilities/json/JsonWriter.java:56-58 | The indentation becomes the one character |
| JsonWriter.JsonWriter.SetUglify | java-utilities-no-dependencies/src/de/soderer/utilities/json/JsonWriter.java:60-70 | All three format strings empty, or back to the defaults |
| JsonWriter.JsonWriter.Write | java-utilities-no-dependencies/src/de/soderer/utilities/json/JsonWriter.java:316-325 | The new state is `Append` of the old |
| JsonWriter.JsonWriter.OpenJsonObject | java-utilities-no-dependencies/src/de/soderer/utilities/json/JsonWriter.java:72-99 | Result and new state are those of `AfterOpen`; a rejection leaves the state unchanged |
| JsonWriter.JsonWriter.OpenJsonArray | java-utilities-no-dependencies/src/de/soderer/utilities/json/JsonWriter.java:155-182 | The same for arrays |
| JsonWriter.JsonWriter.OpenJsonObjectProperty | java-utilities-no-dependencies/src/de/soderer/utilities/json/JsonWriter.java:101-116 | Result and new state are those of `AfterProperty` |
| JsonWriter.JsonWriter.AddSimpleJsonObjectPropertyValue | java-utilities-no-dependencies/src/de/soderer/utilities/json/JsonWriter.java:118-136 | Result and new state are those of `AfterPropertyValue` |
| JsonWriter.JsonWriter.AddSimpleJsonArrayValue | java-utilities-no-dependencies/src/de/soderer/utilities/json/JsonWriter.java:184-210 | Result and new state are those of `AfterArrayValue` |
| JsonWriter.JsonWriter.CloseJsonObject | java-utilities-no-dependencies/src/de/soderer/utilities/json/JsonWriter.java:138-153 | Result and new state are those of `AfterClose` for objects |
| JsonWriter.JsonWriter.CloseJsonArray | java-utilities-no-dependencies/src/de/soderer/utilities/json/JsonWriter.java:212-227 | Result and new state are those of `AfterClose` for arrays |
| JsonWriter.JsonWriter.Add | java-utilities-no-dependencies/src/de/soderer/utilities/json/JsonWriter.java:229-261 | Result and new state are those of `AfterAdd` |
| JsonWriter.JsonWriter.WriteProperties | java-utilities-no-dependencies/src/de/soderer/utilities/json/JsonWriter.java:235-245 | The loop over an object's properties writes exactly their text |
| JsonWriter.JsonWriter.WriteItems | java-utilities-no-dependencies/src/de/soderer/utilities/json/JsonWriter.java:250-258 | The loop over an array's items writes exactly their text |
| JsonWriter.JsonWriter.CloseAllOpenJsonItems | java-utilities-no-dependencies/src/de/soderer/utilities/json/JsonWriter.java:263-279 | The loop does what `CloseAllAsWritten` says |
| JsonWriter.JsonWriter.Close | java-utilities-no-dependencies/src/de/soderer/utilities/json/JsonWriter.java:297-314 | Result and new state are those of `AfterCloseWriter` |
| BasicReader.NextChar | src/de/soderer/utilities/BasicReader.java:45-65 | The pushed-back character if any, else the next one, counting one; fails with premature end exactly when nothing is pending |
| BasicReader.ReuseThenRead | src/de/soderer/utilities/BasicReader.java:40-55 | After `reuseCurrentChar` the next read gives the same character and the counter is back where it was |
| BasicReader.ReadThenReuse | src/de/soderer/utilities/BasicReader.java:40-65 | A character pushed back right after it was read is pending again |
| BasicReader.NonWhitespace | src/de/soderer/utilities/BasicReader.java:67-73 | `readNextNonWhitespace` ends on a non-whitespace character |
| BasicReader.NonWhitespaceFindsFirst | src/de/soderer/utilities/BasicReader.java:67-73 | It is the first non-whitespace pending character; only whitespace before it is consumed and each read counts |
| BasicReader.NonWhitespaceAllBlank | src/de/soderer/utilities/BasicReader.java:67-73 | With only whitespace left it fails with premature end |
| BasicReader.UpToNext | src/de/soderer/utilities/BasicReader.java:75-118 | Duplicate end characters fail, then an escape equal to an end character; a result starts with the current character, and the end character found is appended or pushed back |
| BasicReader.UpToLoop | src/de/soderer/utilities/BasicReader.java:83-117 | The loop of `readUpToNext`: a success keeps the text read so far as a prefix and never moves back in the input. With `includeLimitChars` it moves forward and ends on an end character, which is the last character appended, with none pushed back; without it the end character found is pushed back |
| BasicReader.EscapeChar | src/de/soderer/utilities/BasicReader.java:103-115 | A character stays as it is exactly when no escape is needed, that is, when there is no escape character or the character is neither the escape nor an end character; otherwise the escape is written before it |
| BasicReader.UpToNextReadsEscaped | src/de/soderer/utilities/BasicReader.java:83-117 | A text written with the escape before every escape and end character, then an end character, is read back as the current character and the text |
| BasicReader.UpToLoopReadsEscaped | src/de/soderer/utilities/BasicReader.java:83-117 | The loop appends an escaped text, followed by an end character, to the text so far as the unescaped text (with the end character when it is kept), and stops at that end character, keeping it or pushing it back |
| BasicReader.UpToLoopDropsEscaped | src/de/soderer/utilities/BasicReader.java:103-115 | After an escape, a character that is neither the escape, a line feed nor an end character is read and dropped together with the escape; the read goes on as from after both |
| BasicReader.UpToNextStopsAtFirstEnd | src/de/soderer/utilities/BasicReader.java:85-101 | Without an escape the read stops at the first end character, appending it or pushing it back |
| BasicReader.EscapedWithoutEscape | src/de/soderer/utilities/BasicReader.java:88 | Without an escape character nothing is escaped |
| BasicReader.UpToLoopNoEnd | src/de/soderer/utilities/BasicReader.java:85-86 | Without an end character left the read fails with premature end |
| BasicReader.QuotedText | src/de/soderer/utilities/BasicReader.java:120-127 | Fails unless the current character is the quote, and when the escape equals the quote; ends on the closing quote |
| BasicReader.QuotedTextRoundTrip | src/de/soderer/utilities/BasicReader.java:120-127 | A text in quotes with its quotes and escapes escaped is read back as the text strictly between the quotes |
| BasicReader.BasicReader.constructor | src/de/soderer/utilities/BasicReader.java:27-38 | A new reader has read nothing and pushed nothing back |
| BasicReader.BasicReader.ReuseCurrentChar | src/de/soderer/utilities/BasicReader.java:40-43 | The current character is pushed back and the counter decreased |
| BasicReader.BasicReader.ReadNextCharacter | src/de/soderer/utilities/BasicReader.java:45-65 | Result and new state are those of `NextChar` |
| BasicReader.BasicReader.ReadNextNonWhitespace | src/de/soderer/utilities/BasicReader.java:67-73 | Result and new state are those of `NonWhitespace` |
| BasicReader.BasicReader.ReadUpToNext | src/de/soderer/utilities/BasicReader.java:75-118 | Result and new state are those of `UpToNext` |
| BasicReader.BasicReader.ReadQuotedText | src/de/soderer/utilities/BasicReader.java:120-127 | Result and new state are those of `QuotedText` |
| Json5Reader.Identifier | src/de/soderer/utilities/json/Json5Reader.java:201-207 | Accepted exactly when the text is an identifier, returned unchanged |
| Json5Reader.ScalarAt | src/de/soderer/utilities/json/Json5Reader.java:154-190 | Succeeds exactly as the lenient scalar rules do |
| Json5Reader.NextToken | src/de/soderer/utilities/json/Json5Reader.java:36-152 | A token read leaves the reader ready and strictly less input left; the recursion past `,` and comments therefore ends. What each token does is stated by NextTokenSwitches and the lemmas below |
| Json5Reader.NextTokenSwitches | src/de/soderer/utilities/json/Json5Reader.java:36-38 | The switch is on the first non-whitespace character, with the current object cleared |
| Json5Reader.BracketsFollowStackRules | src/de/soderer/utilities/json/Json5Reader.java:39-62 | `{` and `[` push (replacing a pending key); `}` and `]` pop and fail unless they pop their opener |
| Json5Reader.CommaIsPassedOver | src/de/soderer/utilities/json/Json5Reader.java:113-114 | A `,` is passed over: the token is the one after it |
| Json5Reader.TrailingCommaAccepted | src/de/soderer/utilities/json/Json5Reader.java:113-114 | A trailing comma before the closer is accepted and the container closed |
| Json5Reader.TopLevelNeedsContainer | src/de/soderer/utilities/json/Json5Reader.java:63-149 | Outside every container, a first character other than `{`, `[`, `,` or the `/` of a comment fails for want of an open item |
| Json5Reader.QuotedKeyNeedsColon | src/de/soderer/utilities/json/Json5Reader.java:67-74 | A quoted text in an object is a key and must be followed by `:`; it pushes a key frame |
| Json5Reader.QuotedValueEndsProperty | src/de/soderer/utilities/json/Json5Reader.java:75-84 | A quoted value after a key pops the key frame and must be followed by `,` or `}`; a `}` is pushed back |
| Json5Reader.QuotedElement | src/de/soderer/utilities/json/Json5Reader.java:64-66 | A quoted text in an array is an element |
| Json5Reader.LineCommentSkipped | src/de/soderer/utilities/json/Json5Reader.java:117-118 | `//` skips the rest of the line |
| Json5Reader.LoneSlashFails | src/de/soderer/utilities/json/Json5Reader.java:123-124 | A `/` followed by anything but `/` or a star fails |
| Json5Reader.BlockCommentSkipped | src/de/soderer/utilities/json/Json5Reader.java:119-122 | A block comment without a star inside ends at the first star-slash |
| Json5Reader.StarBeforeCommentEndOverruns | src/de/soderer/utilities/json/Json5Reader.java:119-122 | A star right before the comment's end makes the loop read on to a further star |
| Json5Reader.EmptyBlockCommentOverruns | src/de/soderer/utilities/json/Json5Reader.java:119-122 | The empty block comment overruns the data |
| Json5Reader.BlockCommentIntended | src/de/soderer/utilities/json/Json5Reader.java:119-122 | The block-comment loop as evidently intended: on success it has just read the closing `/`, and it fails only with the premature-end error |
| Json5Reader.BlockCommentIntendedEndsAtFirstClose | src/de/soderer/utilities/json/Json5Reader.java:119-122 | The intended loop ends right after the first star-slash of the comment, whatever stars the body holds |
| Json5Reader.StarBeforeCommentEndClosesWhenIntended | src/de/soderer/utilities/json/Json5Reader.java:119-122 | The input on which the loop as written overruns (`StarBeforeCommentEndOverruns`) is read to the end of the comment by the intended loop |
| Json5Reader.DoubleStarCommentOverruns | src/de/soderer/utilities/json/Json5Reader.java:119-122 | A comment ending in two stars and a slash overruns the same way |
| Json5Reader.SlashStarSlashIsComment | src/de/soderer/utilities/json/Json5Reader.java:119-122 | A slash right after the opening slash-star closes the comment |
| Json5Reader.UnquotedKeyRead | src/de/soderer/utilities/json/Json5Reader.java:128-132 | In an object an unquoted text is a key read up to `:`, trimmed, and must be an identifier |
| Json5Reader.UnquotedValueText | src/de/soderer/utilities/json/Json5Reader.java:133-147 | An unquoted value is read up to `,` or the closer, trimmed and coerced; a `,` is consumed, a closer pushed back |
| Json5Reader.UnquotedValueRead | src/de/soderer/utilities/json/Json5Reader.java:133-147 | After a key or in an array an unquoted text is a value; the key frame is popped |
| Json5Reader.NextTokenStep | src/de/soderer/utilities/json/Json5Reader.java:36-152 | Every token has its stack step; commas and comments leave the stack alone |
| Json5Reader.StackStepKeepsWellFormed | src/de/soderer/utilities/json/Json5Reader.java:36-152 | Those steps keep the stack well formed |
| Json5Reader.NextTokenKeepsStackWellFormed | src/de/soderer/utilities/json/Json5Reader.java:36-152 | Reading a token keeps the stack well formed |
| Json5Reader.Json5Reader.constructor | src/de/soderer/utilities/json/Json5Reader.java:27-34 | A new reader has an empty stack and no current object |
| Json5Reader.Json5Reader.ReadNextToken | src/de/soderer/utilities/json/Json5Reader.java:36-152 | Result and new state are those of `NextToken` |
| Json5Reader.Json5Reader.SkipBlockComment | src/de/soderer/utilities/json/Json5Reader.java:120-122 | The loop does what `BlockComment` says |
| CsvReader.DefaultConfig | java-utilities-no-dependencies/src/de/soderer/utilities/CsvReader.java:199-209 | Quoting is on exactly with a quote, and the escape starts as the quote |
| CsvReader.AnyCharsAreEqual | java-utilities-no-dependencies/src/de/soderer/utilities/CsvReader.java:552-561 | True exactly when some two of the characters are equal |
| CsvReader.DuplicatesOfFour | java-utilities-no-dependencies/src/de/soderer/utilities/CsvReader.java:552-561 | Four characters have a duplicate exactly when some pair is equal |
| CsvReader.ConfigErrorMeans | java-utilities-no-dependencies/src/de/soderer/utilities/CsvReader.java:215-219 | Construction fails exactly on a line-break separator, and on a quote equal to the separator or a line break |
| CsvReader.EscapeErrorMeans | java-utilities-no-dependencies/src/de/soderer/utilities/CsvReader.java:248-253 | An escape character is refused exactly when it equals the separator, the quote or a line break |
| CsvReader.CompleteRow | java-utilities-no-dependencies/src/de/soderer/utilities/CsvReader.java:303-315 | A row is accepted when no width is fixed, at the width, or shorter with null filling on, then padded to the width; else it fails naming the line and both widths |
| CsvReader.UnescapeEscaped | java-utilities-no-dependencies/src/de/soderer/utilities/CsvReader.java:407 | Replacing escape and quote by a quote undoes escaping |
| CsvReader.ParseValue | java-utilities-no-dependencies/src/de/soderer/utilities/CsvReader.java:396-418 | An empty value is kept as empty; where quotes in data are not allowed, a parsed value holds no quote; without quoting, the only failure is a quote in the data. ParseQuotedField, ParsedValueHasNoCarriageReturn and LoneQuoteValueFails state the rest |
| CsvReader.ParseQuotedField | java-utilities-no-dependencies/src/de/soderer/utilities/CsvReader.java:396-418 | `parseValue` turns a quoted, escaped value back into the value |
| CsvReader.ParsedValueHasNoCarriageReturn | java-utilities-no-dependencies/src/de/soderer/utilities/CsvReader.java:410 | A parsed value holds no carriage return |
| CsvReader.LoneQuoteValueFails | java-utilities-no-dependencies/src/de/soderer/utilities/CsvReader.java:402-406 | A value trimming to one quote fails in `parseValue` |
| CsvReader.Step | java-utilities-no-dependencies/src/de/soderer/utilities/CsvReader.java:286-331 | One pass of the loop moves one character on, or ends the line after it |
| CsvReader.StepQuote | java-utilities-no-dependencies/src/de/soderer/utilities/CsvReader.java:288-296 | A quote is kept and toggles the quoted state, unless a distinct escape came just before it |
| CsvReader.StepInside | java-utilities-no-dependencies/src/de/soderer/utilities/CsvReader.java:323-329 | Inside quotes other characters, the separator included, are data; a line break only where allowed |
| CsvReader.StepPlain | java-utilities-no-dependencies/src/de/soderer/utilities/CsvReader.java:320-322 | Outside quotes other characters are added to the value |
| CsvReader.StepSeparator | java-utilities-no-dependencies/src/de/soderer/utilities/CsvReader.java:317-319 | Outside quotes the separator ends the value |
| CsvReader.StepLineBreak | java-utilities-no-dependencies/src/de/soderer/utilities/CsvReader.java:298-316 | Outside quotes a line break ends the row unless nothing was collected |
| CsvReader.EscapedPair | java-utilities-no-dependencies/src/de/soderer/utilities/CsvReader.java:288-292 | Inside quotes a distinct escape followed by a quote keeps the quoted text open |
| CsvReader.DoubledQuote | java-utilities-no-dependencies/src/de/soderer/utilities/CsvReader.java:293-295 | With the quote as its own escape a doubled quote toggles twice |
| CsvReader.ScanQuotedField | java-utilities-no-dependencies/src/de/soderer/utilities/CsvReader.java:288-329 | A quoted, escaped value opens at its quote and closes at its closing quote, whatever it holds |
| CsvReader.ScanQuotedLine | java-utilities-no-dependencies/src/de/soderer/utilities/CsvReader.java:280-358 | A line of quoted fields before a line feed or the end is read as those fields |
| CsvReader.TrailingSeparatorAddsEmptyValue | java-utilities-no-dependencies/src/de/soderer/utilities/CsvReader.java:299-301 | A separator right before the line end adds an empty value |
| CsvReader.BlankLinesSkipped | java-utilities-no-dependencies/src/de/soderer/utilities/CsvReader.java:298-303 | Line breaks with nothing collected yield no row |
| CsvReader.NoMoreRows | java-utilities-no-dependencies/src/de/soderer/utilities/CsvReader.java:338-357 | Data with only line breaks left holds no further row |
| CsvReader.OpenQuoteFails | java-utilities-no-dependencies/src/de/soderer/utilities/CsvReader.java:334-336 | A quoted value open at the end of the data fails |
| CsvReader.NextLine | java-utilities-no-dependencies/src/de/soderer/utilities/CsvReader.java:264-359 | A closed reader fails; a read counts one line and marks a single read as started |
| CsvReader.NextLineAtEnd | java-utilities-no-dependencies/src/de/soderer/utilities/CsvReader.java:354-357 | With only line breaks left `readNextCsvLine` gives null and closes the reader |
| CsvReader.AllLines | java-utilities-no-dependencies/src/de/soderer/utilities/CsvReader.java:370-385 | `readAll` ends with the reader closed |
| CsvReader.AllLinesSameWidth | java-utilities-no-dependencies/src/de/soderer/utilities/CsvReader.java:303-315 | Every row `readAll` returns has the width of the first |
| CsvReader.AllLinesStep | java-utilities-no-dependencies/src/de/soderer/utilities/CsvReader.java:378-380 | The row `readNextCsvLine` gives is the first row of `readAll` |
| CsvReader.SingleRow | java-utilities-no-dependencies/src/de/soderer/utilities/CsvReader.java:370-385 | Data with one row followed by the end gives `readAll` exactly that row |
| CsvReader.ReadsQuotedLine | java-utilities-no-dependencies/src/de/soderer/utilities/CsvReader.java:264-359 | `readNextCsvLine` on a quoted line gives its fields |
| CsvReader.QuotedLineIsOneRow | java-utilities-no-dependencies/src/de/soderer/utilities/CsvReader.java:370-385 | A fresh reader over a quoted line reads its fields, then the end |
| CsvReader.ParseLine | java-utilities-no-dependencies/src/de/soderer/utilities/CsvReader.java:526-543 | No contract: it follows the source's constructor checks, `readAll`, and the test for exactly one row. ParseQuotedLine and ParseSingleRow state what it returns |
| CsvReader.ParseQuotedLine | java-utilities-no-dependencies/src/de/soderer/utilities/CsvReader.java:526-543 | `parseCsvLine` reads a line of quoted fields back as the fields |
| CsvReader.ParseSingleRow | java-utilities-no-dependencies/src/de/soderer/utilities/CsvReader.java:526-543 | Data with one row gives that row |
| CsvReader.CsvReader.Open | java-utilities-no-dependencies/src/de/soderer/utilities/CsvReader.java:199-220 | Construction fails exactly as `ConfigError` says; else a fresh reader with the default settings |
| CsvReader.CsvReader.SetFillMissingTrailingColumnsWithNull | java-utilities-no-dependencies/src/de/soderer/utilities/CsvReader.java:237-239 | Only that setting changes |
| CsvReader.CsvReader.SetLineBreakInDataAllowed | java-utilities-no-dependencies/src/de/soderer/utilities/CsvReader.java:464-466 | Only that setting changes |
| CsvReader.CsvReader.SetEscapedStringQuoteInDataAllowed | java-utilities-no-dependencies/src/de/soderer/utilities/CsvReader.java:483-485 | Only that setting changes |
| CsvReader.CsvReader.SetStringQuoteEscapeCharacter | java-utilities-no-dependencies/src/de/soderer/utilities/CsvReader.java:248-253 | The character is stored before the check, and the result is `EscapeError` |
| CsvReader.CsvReader.Close | java-utilities-no-dependencies/src/de/soderer/utilities/CsvReader.java:424-429 | The reader is closed and nothing else changes |
| CsvReader.CsvReader.ReadNextCsvLine | java-utilities-no-dependencies/src/de/soderer/utilities/CsvReader.java:264-359 | Result and new state are those of `NextLine` |
| CsvReader.CsvReader.ReadAll | java-utilities-no-dependencies/src/de/soderer/utilities/CsvReader.java:370-385 | Fails after a single read; else the rows of `AllLines`, the reader closed |
| CsvReader.CsvReader.GetCsvLineCount | java-utilities-no-dependencies/src/de/soderer/utilities/CsvReader.java:497-511 | Fails after a single read; else the number of rows of `AllLines` |
| CsvReader.CsvReader.ParseCsvLine | java-utilities-no-dependencies/src/de/soderer/utilities/CsvReader.java:526-543 | The result is `ParseLine`: the one row of the data, failing on any other number of rows |
| CsvReader.CsvReader.FinishRow | java-utilities-no-dependencies/src/de/soderer/utilities/CsvReader.java:303-313 | The padding loop gives `CompleteRow` |
| TextTable.Kept | src/de/soderer/utilities/TextTable.java:472-482 | For a non-negative n the rows left are min(n, rows): at most n and at most rows, and equal to one of them; for a negative n none |
| TextTable.CsvLinesCount | src/de/soderer/utilities/TextTable.java:209-233 | Without line feeds in the cells `toCsvString` writes one text line per table line |
| TextTable.HtmlEncodeString | src/de/soderer/utilities/TextTable.java:518-521 | No contract: it follows the source's chain of `replace` calls, in order. HtmlEncodeIsCharwise states that the chain encodes each character on its own, and SharpSNotEncoded states what it writes for `ß` |
| TextTable.HtmlEncodeIsCharwise | src/de/soderer/utilities/TextTable.java:518-521 | `htmlEncodeString` encodes every character on its own: no entity it writes is escaped again |
| TextTable.SharpSNotEncoded | src/de/soderer/utilities/TextTable.java:520 | `ß` is written `&slig;`, not the reference `&szlig;` |
| TextTable.HtmlEncodeCorrectedIsCharwise | src/de/soderer/utilities/TextTable.java:518-521 | The corrected chain writes each character's reference, or the character itself |
| TextTable.ConvertXlsColor2HtmlColor | src/de/soderer/utilities/TextTable.java:374-399 | No contract: it follows the source's `if`-chain of `equalsIgnoreCase` tests, in order. ConvertColorRange, UnknownColorIsWhite and ConvertColorIgnoresCase state its properties |
| TextTable.ConvertColorRange | src/de/soderer/utilities/TextTable.java:374-399 | The colour is always one of the HTML names used |
| TextTable.UnknownColorIsWhite | src/de/soderer/utilities/TextTable.java:396-398 | Only the listed colour names map to anything but `white` |
| TextTable.ConvertColorIgnoresCase | src/de/soderer/utilities/TextTable.java:374-395 | Names differing only in case map to the same colour |
| TextTable.PadRow | src/de/soderer/utilities/TextTable.java:122-124 | A row is padded with empty cells up to the width |
| TextTable.TextTable.constructor | src/de/soderer/utilities/TextTable.java:25-34 | One empty header line, no data, cursors at -1 |
| TextTable.TextTable.HasData | src/de/soderer/utilities/TextTable.java:44-46 | No contract: true exactly when the line cursor is at a line (`currentLineIndex >= 0`), as in the source |
| TextTable.TextTable.GetColumnCount | src/de/soderer/utilities/TextTable.java:488-490 | No contract: the width of the first header line. Valid() holds every header line, data line and per-column list to this width, and the AddColumn and DropColumn contracts state how it changes |
| TextTable.TextTable.GetHeaderLineCount | src/de/soderer/utilities/TextTable.java:484-486 | No contract: the number of header lines, which Valid() keeps at one or two |
| TextTable.TextTable.GetDataLineCount | src/de/soderer/utilities/TextTable.java:492-494 | No contract: the number of data lines, which StartNewLine and the keepOnly contracts change |
| TextTable.TextTable.WithColumns | src/de/soderer/utilities/TextTable.java:36-42 | One header line of the names, a colour and an alignment per column |
| TextTable.TextTable.AddColumn | src/de/soderer/utilities/TextTable.java:48-85 | One more column in every list and row; a second header line is created once and back-filled with `""` |
| TextTable.TextTable.DropColumn | src/de/soderer/utilities/TextTable.java:87-101 | The column goes from every header line, list and row; an index out of range fails |
| TextTable.TextTable.SetAlignmentForColumn | src/de/soderer/utilities/TextTable.java:103-109 | Indices outside the columns fail; only that column's alignment changes |
| TextTable.TextTable.StartNewLine | src/de/soderer/utilities/TextTable.java:111-125 | A row of `""` cells is appended with its colour and the column cursor reset; the line cursor is advanced rather than set, so after rows were dropped the padding fails and the new row stays empty |
| TextTable.TextTable.AddValueToCurrentLine | src/de/soderer/utilities/TextTable.java:131-143 | Fails before any line and past the last column; stores null as `""` and moves the cursor by one |
| TextTable.TextTable.AddIntValueToCurrentLine | src/de/soderer/utilities/TextTable.java:127-129 | The decimal text of the number is stored |
| TextTable.TextTable.KeepOnlyLastRows | src/de/soderer/utilities/TextTable.java:472-476 | The last min(n, rows) rows are kept; a negative n empties the rows and then fails |
| TextTable.TextTable.KeepOnlyFirstRows | src/de/soderer/utilities/TextTable.java:478-482 | The first min(n, rows) rows are kept; a negative n fails likewise |
| TextTable.TextTable.KeepOnlyLastRowsCorrected | src/de/soderer/utilities/TextTable.java:472-476 | The same rows are kept, with the line colours and the line cursor in step |
| TextTable.TextTable.KeepOnlyFirstRowsCorrected | src/de/soderer/utilities/TextTable.java:478-482 | The same, for the first rows |
| TextTable.TextTable.GetHeader | src/de/soderer/utilities/TextTable.java:496-501 | The header cell, failing outside the header lines or their columns |
| TextTable.TextTable.GetData | src/de/soderer/utilities/TextTable.java:511-516 | The data cell, failing outside the data lines or their columns |
| TextTable.TextTable.GetHeaderColor | src/de/soderer/utilities/TextTable.java:503-505 | The column's colour, failing outside the columns |
| TextTable.TextTable.GetLineColor | src/de/soderer/utilities/TextTable.java:507-509 | The line's colour, failing outside the lines |
| TextTable.TextTable.GetMaxSizeOfColumn | src/de/soderer/utilities/TextTable.java:363-372 | The length of the longest cell of the column over header lines and rows |
| TextTable.TextTable.ToCsvString | src/de/soderer/utilities/TextTable.java:209-233 | Header lines then data lines, each cell quoted and followed by `;`, each line ended by a line feed |
| TextTable.StaleCursorExample | src/de/soderer/utilities/TextTable.java:472-476 | After rows were dropped, the next `startNewLine` fails as written, and it succeeds after the corrected `keepOnlyLastRows` |
| SecureDataStore.AddThenGet | src/de/soderer/utilities/SecureDataStore.java:142-167 | After adding, the value is found under its class and name and every other entry is unchanged |
| SecureDataStore.AddOverwrites | src/de/soderer/utilities/SecureDataStore.java:162-167 | Re-adding a name for the same class overwrites the earlier value |
| SecureDataStore.RemovedNameMeans | src/de/soderer/utilities/SecureDataStore.java:173-177 | After removing a name no class holds it and other names are untouched |
| SecureDataStore.SecureDataStore.constructor | src/de/soderer/utilities/SecureDataStore.java:37 | A new store is empty |
| SecureDataStore.SecureDataStore.GetEntryNames | src/de/soderer/utilities/SecureDataStore.java:134-140 | The names filed under the class; none for a class with no table |
| SecureDataStore.SecureDataStore.GetEntryOfClass | src/de/soderer/utilities/SecureDataStore.java:142-149 | The entry of that class and name, null for a class or name not filed |
| SecureDataStore.SecureDataStore.GetEntry | src/de/soderer/utilities/SecureDataStore.java:151-160 | Null exactly when no class holds the name; otherwise an entry of that name from some class |
| SecureDataStore.SecureDataStore.AddEntry | src/de/soderer/utilities/SecureDataStore.java:162-167 | The value is filed under its class name and name; a null value fails and changes nothing |
| SecureDataStore.SecureDataStore.RemoveEntry | src/de/soderer/utilities/SecureDataStore.java:169-171 | The name leaves the class's table; a class never added fails |
| SecureDataStore.SecureDataStore.RemoveEntriesByEntryName | src/de/soderer/utilities/SecureDataStore.java:173-177 | The name leaves every class's table |
| SecureDataStore.SecureDataStore.RemoveEntriesByEntryClass | src/de/soderer/utilities/SecureDataStore.java:179-181 | Exactly that class's table goes |
| ServerAccessData.WithDefaults | src/de/soderer/utilities/ServerAccessData.java:16-18 | Port 22 and no host key check, the other fields as given |
| ServerAccessData.ParseFilestringToServerEntryName | src/de/soderer/utilities/ServerAccessData.java:53-59 | Succeeds exactly for a non-blank name with the prelude and a `:` |
| ServerAccessData.ParseFilestringToFilePath | src/de/soderer/utilities/ServerAccessData.java:61-67 | Succeeds for the same names, giving text after the last `:` |
| ServerAccessData.ParsedPartsRebuild | src/de/soderer/utilities/ServerAccessData.java:53-67 | Prelude, entry name, `:` and path put together are the name |
| ServerAccessData.BuiltNameParses | src/de/soderer/utilities/ServerAccessData.java:53-67 | An entry name and a colon-free path written as a file name parse back into themselves |
| DbColumnType.GetSimpleDataType | src/de/soderer/utilities/DbColumnType.java:48-65 | Each class holds exactly for the lower-case names its rule accepts and no earlier rule took: dates and times first, then `clob`/`longtext`, then strings, then `blob`/`bytea`, then names containing `int`, and everything else a double |
| DbColumnType.ClassificationIgnoresCase | src/de/soderer/utilities/DbColumnType.java:49 | The upper-case spelling of a name is classified as the name |
| DbColumnType.Dimensions | src/de/soderer/utilities/DbColumnType.java:66-70 | Nothing exactly for dates, blobs and clobs; `(size)` for strings; `(precision, scale)` for integers and doubles |
| DbColumnType.ToString | src/de/soderer/utilities/DbColumnType.java:66-74 | The type name, then its dimensions, then ` nullable` or ` not nullable` and ` autoIncrement` when set |
| DbColumnTypeCompact.GetSimpleDataType | java-utilities-no-dependencies/src/de/soderer/utilities/DbColumnType.java:42-51 | Dates and times, then `varchar` and `clob` as strings, and every other name a number |
| DbColumnTypeCompact.AgreesWithFull | java-utilities-no-dependencies/src/de/soderer/utilities/DbColumnType.java:42-51 | Both copies agree on dates; this copy's strings are strings or character objects in the other |
| DbUtilities.DefaultPort | src/de/soderer/utilities/DbUtilities.java:48-54 | The server vendors have a positive default port, the embedded ones 0 |
| DbUtilities.GetDbVendorByName | src/de/soderer/utilities/DbUtilities.java:56-74 | No contract: it follows the source's `if`-chain of `equalsIgnoreCase` tests, failing on `null`. VendorByNameMeans and UnknownVendorFails state which names it accepts |
| DbUtilities.VendorByNameMeans | src/de/soderer/utilities/DbUtilities.java:56-74 | A name in any case is accepted as a vendor exactly when its lower-case form is one of that vendor's names, the aliases included |
| DbUtilities.UnknownVendorFails | src/de/soderer/utilities/DbUtilities.java:71-73 | Every other name, and null, fails |
| DbUtilities.GenerateUrlConnectionString | src/de/soderer/utilities/DbUtilities.java:93-131 | No contract: it follows the source's `if`-chain over the vendors. UrlFailsOnlyWithoutVendor, DefaultPortSubstituted, OracleServiceName, HsqlFileUrl, HsqlMemoryUrl, HsqlDefaultPortOmitted and HsqlHostGetsScheme state its cases |
| DbUtilities.UrlFailsOnlyWithoutVendor | src/de/soderer/utilities/DbUtilities.java:93-131 | Only a missing vendor fails |
| DbUtilities.DefaultPortSubstituted | src/de/soderer/utilities/DbUtilities.java:94-110 | For the server vendors a port of 0 or less gives the URL of the default port |
| DbUtilities.OracleServiceName | src/de/soderer/utilities/DbUtilities.java:95-100 | An Oracle name starting with `/` follows the port directly, any other after a `:` |
| DbUtilities.HsqlFileUrl | src/de/soderer/utilities/DbUtilities.java:112-114 | After `~` is replaced, a name starting with `/` gives a file URL ending `;shutdown=true` |
| DbUtilities.HsqlMemoryUrl | src/de/soderer/utilities/DbUtilities.java:125-126 | A blank host gives a memory URL |
| DbUtilities.HsqlDefaultPortOmitted | src/de/soderer/utilities/DbUtilities.java:119-124 | Port 443 for https, port 80 for http, or a port of 0 or less is left out |
| DbUtilities.HsqlHostGetsScheme | src/de/soderer/utilities/DbUtilities.java:116-118 | A host not starting with `http` gets `http://` |
| DbUtilities.GetSqlSafeString | src/de/soderer/utilities/DbUtilities.java:1765-1771 | No contract: `null` stays `null`, and otherwise it is the source's `replace("'", "''")`. SqlSafeStringRoundTrip states that the result reads back |
| DbUtilities.SqlSafeStringRoundTrip | src/de/soderer/utilities/DbUtilities.java:1765-1771 | The doubled text is a literal body that reads back as the original; no apostrophe in it can end the literal |
| DbUtilities.GetDataType | src/de/soderer/utilities/DbUtilities.java:2097-2164 | Succeeds exactly for a known vendor other than Firebird; binary objects are `BLOB` where the vendor says so, dates start with `TIMESTAMP` |
| DbUtilities.GetDbVendor | src/de/soderer/utilities/DbUtilities.java:843-868 | No contract: it follows the source's metadata and `null` tests and its `if`-chain over the lower-case product name. ProductNameClassified, DetectedKeyOccurs and FirstKeyInMeans state what it detects |
| DbUtilities.ProductNameClassified | src/de/soderer/utilities/DbUtilities.java:847-864 | The product name is classified by the first key of the list it contains in lower case, and fails when it contains none |
| DbUtilities.DetectedKeyOccurs | src/de/soderer/utilities/DbUtilities.java:847-864 | The detected vendor's key occurs in the name and no earlier key does |
| DbUtilities.FirstKeyInMeans | src/de/soderer/utilities/DbUtilities.java:847-864 | The first key in list order that occurs, or none when none occurs |
| DbUtilities.SplitPatterns | src/de/soderer/utilities/DbUtilities.java:1877 | There is one part more than there are separators in the text, no part contains a separator, and the parts joined with the text's separators in order give the text back |
| DbUtilities.OracleTableQuery | src/de/soderer/utilities/DbUtilities.java:1876-1887 | The base query, one condition per non-blank pattern in order, then the ordering |
| DbUtilities.GlobAsLike | src/de/soderer/utilities/DbUtilities.java:1879 | A backslash-free shell pattern and its rewrite as a `LIKE` pattern match the same texts |
| DbUtilities.LikePattern | src/de/soderer/utilities/DbUtilities.java:1879 | No contract: it follows the source's trim, `toUpperCase` and chain of four `replace` calls. GlobAsLike and LikePatternMatchesGlob state what the result matches |
| DbUtilities.LikePatternMatchesGlob | src/de/soderer/utilities/DbUtilities.java:1879 | The rewrite of the trimmed, upper-case pattern matches what that text matches as a shell pattern |
| DbUtilities.PatternCondition | src/de/soderer/utilities/DbUtilities.java:1880-1884 | No contract: `NOT LIKE` on the rest for a leading `!`, else `LIKE`, both with `ESCAPE`. NegatedPattern states the negated case |
| DbUtilities.NegatedPattern | src/de/soderer/utilities/DbUtilities.java:1880-1884 | A leading `!` gives a `NOT LIKE` condition on the rest |

## Left out

- Stream plumbing is not modelled: `BufferedReader`, `InputStreamReader`, charset decoding, `flush`, `closeQuietly`. Input is a character sequence and output a string.
- The check for a byte order mark at the start of UTF-8 CSV data is not modelled. The reader counts every character.
- The encoding parameters of the constructors are accepted but have no effect.
- Floating-point values are not parsed or printed. A floating number is kept as its text, and `Infinity` and `NaN` are tags.
- Dates are not formatted. The writer's ISO 8601 date values are not modelled.
- `TextUtilities.addLeadingTab` is not part of this model. It is a parameter of the serialisers.
- `Utilities.isNotBlank` is not part of this model. It is taken to mean "not blank after trimming".
- `System.getProperty("user.home")` is a parameter of the URL builder.
- The JDBC work of `DbUtilities` is not modelled: connections, statements, queries and metadata. It is foreign I/O. Product-name detection starts from the product name the metadata returns.
- `SecureDataStore.save` and `load` are not modelled. They are encryption over files.
- `TextTable.toString`, `setNumericColumnsRightALigned`, `toCsvStringWithMetaData`, `loadCsvWithMetadataFile` and the HTML output are not modelled. They depend on helpers that are not part of this model.
- `TextDialog`, `SimpleCredentialsData` and the XML conversion in `JsonUtilities` are not modelled. They are UI, a plain record and a DOM bridge.
- The protected no-argument constructor of `ServerAccessData` is not modelled. It is only for subclasses.
- `JsonObject` and `JsonArray` hold nested values by value. Aliasing between nested Java objects is not modelled.
- `SecureDataStore.SecureDataStore.GetEntry`: the order of a `HashMap` is left open. The contract says only that some class holding the name supplies the entry.
- The key order that JsonTree.JsonObject.ToString and JsonWriter.JsonWriter.WriteProperties follow is `keySet()` order. For the `LinkedHashMap` in use that is insertion order, and the model writes the properties in insertion order.
- The round trip `parseJsonData(toString(o)) == o` is proved only for objects whose values are literals, numbers and strings, written with blank indentation, separator and line break (JsonRoundTrip.ObjectTextReadsBack, JsonRoundTrip.ObjectTextRoundTrips). Nested objects and arrays are left out: their text goes through `TextUtilities.addLeadingTab`, which is not part of this model. So are top-level arrays and formats that are not blank.
- JsonRoundTrip.ObjectTextRoundTrips: the round trip does not hold as written for a key or string with `"` (see Findings), for an `Integer` (it comes back as a `Long`) or for a string with `\` (the writer does not escape it). The lemma therefore excludes those values.
- JsonScalars.GetJsonValue: `equalsIgnoreCase` is modelled on ASCII letters only. Java also folds `ſ` with `s` and `ı` with `i`, so it reads `falſe` as `false` where the model reports `NotAValue`. JsonTree.Coerce, which uses it, inherits this.
- JsonScalars.IsValidUnfinishedJsonValue: the same ASCII-only `equalsIgnoreCase` in the prefix tests, so Java accepts `falſ` as an unfinished `false` while the model rejects it. The tree parsers therefore refuse unquoted text that Java reads as a literal. JsonScalars.ValidUnfinishedPrefixClosed is stated for the ASCII folding.
- JsonScalars.SimpleJsonValue: the same ASCII-only folding of the three literals, so Java's `readSimpleJsonValue` reads `falſe` as `false` and the model does not. JsonReader.SimpleValueAt inherits this.
- JsonScalars.Json5SimpleValue: the same ASCII-only folding of the literals, the infinities and `NaN`, so Java reads `ınfınıty` as infinity and the model does not. Json5Reader.ScalarAt inherits this.
- DbUtilities.GetDbVendor: `toLowerCase` is modelled on ASCII letters only. Java's conversion also maps other letters and follows the default locale, so in a Turkish locale `SQLITE` becomes `sqlıte` and matches no vendor.
- DbUtilities.LikePattern: `toUpperCase` is modelled on ASCII letters only. Java's also maps other letters and turns `ß` into `SS`, which changes the length.
- DbUtilities.HsqlHost: the lower-casing of the host name is modelled on ASCII letters only, so the locale effects above are not captured.
- DbColumnType.GetSimpleDataType: the lower-casing of the type name is modelled on ASCII letters only. In a Turkish locale Java lower-cases `INTEGER` to `ınteger`, which does not contain `int`, so Java classifies it differently from the model.
- DbColumnTypeCompact.GetSimpleDataType: the same ASCII-only lower-casing as in the other copy.
- DbUtilities.VendorByNameMeans: `equalsIgnoreCase` is modelled on ASCII letters only. Java's also folds `ı`, `ſ` and the Kelvin sign, so Java matches `fırebird` to Firebird where the model does not.
- TextTable.ConvertXlsColor2HtmlColor: the same ASCII-only `equalsIgnoreCase`, so Java reads `lıght_green` as `lime` and the model as `white`.
- TextTable.TextTable.GetMaxSizeOfColumn: it counts characters (`|s|`). Java's `length()` counts UTF-16 units, so a character outside the Basic Multilingual Plane counts twice in Java. The character counters of `BasicReader`, `JsonReader` and `CsvReader` count characters in the same way.
- TextTable.TextTable.AddColumn: a column name is a string; Java also accepts `null` there, which the model does not represent.
- SecureDataStore.SecureDataStore.AddEntry: an entry name is a string. Java's `HashMap` also accepts a `null` name, and `getEntry(null)` finds that entry through the null-safe `StringUtilities.equals`; the model does not represent a `null` name.
- JsonTree.RemoveFirst: elements are compared by structural equality. `JsonObject` and `JsonArray` do not override `equals`, so Java removes a nested container only when it is the same instance; `remove(new JsonObject())` keeps an empty object that the model removes. JsonTree.JsonArray.Remove inherits this.
- JsonReader.Outcome and Json5Reader.Json5Reader.Yields: after a failure only the error is stated. The reader's state is left open, although Java has already changed it by then (for example the frame popped before a mismatched closer is reported).
- Several modelled methods have some of their work split into helper methods with their own contracts: `JsonWriter` `add` and `readNextToken`, `Json5Reader.readNextToken`, and `CsvReader.readNextCsvLine`. A helper method names the part of the Java method it covers.
- DbUtilities.OracleTableQuery: only the Oracle branch of `getAvailableTables` is modelled. The other branches are not: the MySQL and PostgreSQL branches do not upper-case the pattern, the MySQL branch writes no `ESCAPE` clause, the Derby branch writes `{ESCAPE '\'}`, and the SQLite, Derby, Firebird and HSQL branches query other tables and columns.
- SecureDataStore.SecureDataStore.GetEntryNames: it returns the names as a set value. Java returns the live `keySet()` view of the class's table, so entries added later show through it and removing a name from it removes the entry from the store. That aliasing is not modelled.
- DbUtilities.SplitPatterns: Java's `String.split` drops trailing empty parts, and the model keeps them, so there the model has more parts than Java. The blank check discards them either way, so the query is the same.
- DbUtilities.GetDataType: the contract states when the call succeeds, the `BLOB` and `TIMESTAMP` cases only. It does not list the type name for every vendor and class.
- JsonReader.NextItem: the contract states only that the position stays inside the input. What `readNextJsonItem` yields is stated by `NextItemCloseReplays` and by the spec functions it is defined with.
- CsvReader.AllLines: the contract states only that the reader ends closed. The rows are stated by `AllLinesStep`, `AllLinesSameWidth` and `SingleRow`.

## Findings

| source | as written | input that shows it | evidently intended | confidence | as-written member | corrected member |
|---|---|---|---|---|---|---|
| java-utilities-no-dependencies/src/de/soderer/utilities/json/JsonObject.java:187-189 | Inside a quoted key or string, a backslash is kept together with the character after it, while `toString` writes each `"` as `\"` (JsonObject.java:123,135) | The object with key `k` and string `a"b`, written as `{"k":"a\"b"}` | Drop the backslash and keep the next character, so that the string comes back as `a"b` | not executed | JsonRoundTrip.QuoteReadBackWithBackslash | JsonRoundTrip.IntendedUnescapeReadsBack |
| java-utilities-no-dependencies/src/de/soderer/utilities/json/JsonReader.java:260 | `(char) inputReader.read()` is compared with -1. The cast turns -1 into U+FFFF, so at the end of the input the loops in `readQuotedText` and `readUpToNext` never stop with the premature-end error. They keep appending U+FFFF until the memory runs out | `{"a":1` with no closing brace | Fail with "premature end of data" | not executed | JsonReader.QuotedTextAsWrittenHangs | JsonReader.QuotedTextPrematureEnd |
| java-utilities-no-dependencies/src/de/soderer/utilities/json/JsonReader.java:278 | The same cast in `readUpToNext`: no premature-end error, U+FFFF appended until the memory runs out | `{"a":1` | Fail with "premature end of data" | not executed | JsonReader.UpToNextAsWrittenHangs | JsonReader.UpToNextPrematureEnd |
| java-utilities-no-dependencies/src/de/soderer/utilities/json/JsonWriter.java:263-279 | `closeAllOpenJsonItems` pops a frame, then calls a close method that pops again | An open array nested in an open array | Close every open frame once, writing each bracket | not executed | JsonWriter.CloseAllAsWrittenDropsBracket | JsonWriter.CloseAllIntendedEmpties |
| java-utilities-no-dependencies/src/de/soderer/utilities/json/JsonWriter.java:133 | Only `"` is escaped in string values, so a backslash is written as it stands | The string value `\` | Escape the backslash too, so that the reader gets the text back | not executed | JsonWriter.EscapeLosesBackslash | JsonWriter.EscapeBothReadsBack |
| src/de/soderer/utilities/json/Json5Reader.java:119-122 | Each character other than `/` is followed by `readUpToNext(true, null, '*')`, which takes that character as the start of its text and reads on to the next star (BasicReader.java:82-99). When that character is the star of the closing star-slash, the `/` is swallowed and the read goes on to a further star | `/**/`, or `/* x **/`, with no star after it | End the comment at the first star-slash | not executed | Json5Reader.EmptyBlockCommentOverruns | Json5Reader.BlockCommentIntendedEndsAtFirstClose |
| src/de/soderer/utilities/TextTable.java:520 | `ß` becomes `&slig;` | `htmlEncodeString("ß")` | `&szlig;` | not executed | TextTable.SharpSNotEncoded | TextTable.HtmlEncodeCorrectedIsCharwise |
| src/de/soderer/utilities/TextTable.java:472-482 | `keepOnly*Rows` drop rows but not their colours, and do not move the line cursor | Two lines, `keepOnlyLastRows(1)`, then the next `startNewLine()`, which fails at `content.get(currentLineIndex)` (TextTable.java:122) | Keep the colours and the cursor in step with the remaining rows | not executed | TextTable.StaleCursorExample | TextTable.TextTable.KeepOnlyLastRowsCorrected |
