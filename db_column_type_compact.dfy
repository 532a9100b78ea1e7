/** The `DbColumnType` of the dependency-free copy: three type classes and
    no auto-increment flag. */
module DbColumnTypeCompact {
  import opened Text
  import Full = DbColumnType

  datatype SimpleDataType = String | Date | Number

  /** The immutable record; the getters are its fields. */
  datatype DbColumnType = DbColumnType(
    typeName: string,
    characterLength: int,
    numericPrecision: int,
    numericScale: int,
    nullable: bool)

  /** `getSimpleDataType`: dates and times, then variable-length strings and
      character large objects, and every other name is a number. */
  function GetSimpleDataType(typeName: string): (r: SimpleDataType)
    ensures var n := ToLower(typeName);
      && (r == Date <==> StartsWith(n, "date") || StartsWith(n, "time"))
      && (r == String <==> !StartsWith(n, "date") && !StartsWith(n, "time")
                           && (StartsWith(n, "varchar") || EqualsIgnoreCase(typeName, "clob")))
  {
    var n := ToLower(typeName);
    if StartsWith(n, "date") || StartsWith(n, "time") then Date
    else if StartsWith(n, "varchar") || EqualsIgnoreCase(typeName, "clob") then String
    else Number
  }

  lemma {:induction false} EqualsIgnoreCaseLower(a: string, b: string)
    requires forall i :: 0 <= i < |b| ==> 'a' <= b[i] <= 'z'
    ensures EqualsIgnoreCase(a, b) <==> ToLower(a) == b
    decreases |a|
  {
    if |a| == |b| && a != [] {
      EqualsIgnoreCaseLower(a[1..], b[1..]);
      assert EqualsIgnoreCase(a, b) <==> ToUpperChar(a[0]) == ToUpperChar(b[0]) && EqualsIgnoreCase(a[1..], b[1..]);
      assert ToLower(a) == b <==> ToLowerChar(a[0]) == b[0] && ToLower(a[1..]) == b[1..];
    }
  }

  /** Both copies agree on dates, and every name this copy calls a string
      is a string or a character large object in the other. */
  lemma AgreesWithFull(typeName: string)
    ensures GetSimpleDataType(typeName) == Date <==> Full.GetSimpleDataType(typeName) == Full.Date
    ensures GetSimpleDataType(typeName) == String ==> Full.GetSimpleDataType(typeName) in {Full.String, Full.Clob}
  {
    EqualsIgnoreCaseLower(typeName, "clob");
  }
}
