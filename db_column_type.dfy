/** `DbColumnType` (the `src/` copy): a column's declared type name with its
    size, precision, scale and flags, and the coarse type class derived
    from the name. */
module DbColumnType {
  import opened Text

  datatype SimpleDataType = String | Date | Integer | Double | Blob | Clob

  /** The immutable record; the getters are its fields. */
  datatype DbColumnType = DbColumnType(
    typeName: string,
    characterByteSize: int,
    numericPrecision: int,
    numericScale: int,
    nullable: bool,
    autoIncrement: bool)

  /** The rules of `getSimpleDataType`, over the lower-case type name. */
  predicate DateName(n: string) { StartsWith(n, "date") || StartsWith(n, "time") }
  predicate ClobName(n: string) { n == "clob" || n == "longtext" }
  predicate StringName(n: string) { StartsWith(n, "varchar") || Contains(n, "text") || StartsWith(n, "character") }
  predicate BlobName(n: string) { n == "blob" || n == "bytea" }

  /** `getSimpleDataType`: a decision list over the lower-case type name;
      each class holds exactly for the names its rule accepts and no earlier
      rule took. */
  function GetSimpleDataType(typeName: string): (r: SimpleDataType)
    ensures var n := ToLower(typeName);
      && (r == Date <==> DateName(n))
      && (r == Clob <==> !DateName(n) && ClobName(n))
      && (r == String <==> !DateName(n) && !ClobName(n) && StringName(n))
      && (r == Blob <==> !DateName(n) && !ClobName(n) && !StringName(n) && BlobName(n))
      && (r == Integer <==> !DateName(n) && !ClobName(n) && !StringName(n) && !BlobName(n) && Contains(n, "int"))
      && (r == Double <==> !DateName(n) && !ClobName(n) && !StringName(n) && !BlobName(n) && !Contains(n, "int"))
  {
    var n := ToLower(typeName);
    if StartsWith(n, "date") || StartsWith(n, "time") then Date
    else if n == "clob" || n == "longtext" then Clob
    else if StartsWith(n, "varchar") || Contains(n, "text") || StartsWith(n, "character") then String
    else if n == "blob" || n == "bytea" then Blob
    else if Contains(n, "int") then Integer
    else Double
  }

  lemma {:induction false} LowerOfUpper(s: string)
    ensures ToLower(ToUpper(s)) == ToLower(s)
    decreases |s|
  {
    if s != [] {
      LowerOfUpper(s[1..]);
      assert ToUpper(s)[1..] == ToUpper(s[1..]);
    }
  }

  /** The classification ignores case: the upper-case spelling of a type
      name is classified as the name itself. */
  lemma ClassificationIgnoresCase(typeName: string)
    ensures GetSimpleDataType(ToUpper(typeName)) == GetSimpleDataType(typeName)
  {
    LowerOfUpper(typeName);
  }

  /** The dimensions `toString` writes: the size for strings, precision and
      scale for numbers, nothing for the other classes. */
  function Dimensions(c: DbColumnType): (r: string)
    ensures r == "" <==> GetSimpleDataType(c.typeName) in {Date, Blob, Clob}
    ensures r != "" ==> r[0] == '(' && r[|r| - 1] == ')'
    ensures GetSimpleDataType(c.typeName) == String ==> r == "(" + IntToString(c.characterByteSize) + ")"
    ensures GetSimpleDataType(c.typeName) in {Integer, Double} ==>
      r == "(" + IntToString(c.numericPrecision) + ", " + IntToString(c.numericScale) + ")"
  {
    var t := GetSimpleDataType(c.typeName);
    (if t == String then "(" + IntToString(c.characterByteSize) + ")" else "")
    + (if t == Integer || t == Double then "(" + IntToString(c.numericPrecision) + ", " + IntToString(c.numericScale) + ")" else "")
  }

  /** The flags `toString` ends with. */
  function Flags(nullable: bool, autoIncrement: bool): string
  {
    (if nullable then " nullable" else " not nullable") + (if autoIncrement then " autoIncrement" else "")
  }

  /** `toString`. */
  function ToString(c: DbColumnType): (r: string)
    ensures StartsWith(r, c.typeName)
    ensures EndsWith(r, Flags(c.nullable, c.autoIncrement))
    ensures r == c.typeName + Dimensions(c) + Flags(c.nullable, c.autoIncrement)
  {
    var r := c.typeName + Dimensions(c) + Flags(c.nullable, c.autoIncrement);
    assert r[..|c.typeName|] == c.typeName;
    assert r[|r| - |Flags(c.nullable, c.autoIncrement)|..] == Flags(c.nullable, c.autoIncrement);
    r
  }
}
