/** `ServerAccessData`: an SSH server's connection data, and the split of
    a file name of the form `\\entry:path` into the server entry's name and
    the path on that server. */
module ServerAccessData {
  import opened Wrappers
  import opened Text

  /** `PRELUDE`: two backslashes. */
  const Prelude: string := "\\\\"

  datatype ServerAccessData = ServerAccessData(
    hostname: string,
    port: int,
    username: string,
    keyFile: string,
    password: string,
    checkHostKey: bool)

  /** The four-argument constructor: port 22 and no host key check. */
  function WithDefaults(hostname: string, username: string, keyFile: string, password: string): (r: ServerAccessData)
    ensures r.port == 22 && !r.checkHostKey
    ensures r.hostname == hostname && r.username == username && r.keyFile == keyFile && r.password == password
  {
    ServerAccessData(hostname, 22, username, keyFile, password, false)
  }

  /** The check both parsers make; `None` is a `null` name. */
  predicate IsServerFileName(fileName: Option<string>)
  {
    fileName.Some? && !IsBlank(fileName.value) && StartsWith(fileName.value, Prelude) && ':' in fileName.value
  }

  lemma ColonAfterPrelude(s: string)
    requires StartsWith(s, Prelude) && ':' in s
    ensures |Prelude| <= LastIndexOf(s, ':') < |s|
  {
    var i :| 0 <= i < |s| && s[i] == ':';
    assert s[..2] == Prelude;
    assert s[0] == '\\' && s[1] == '\\';
  }

  /** `parseFilestringToServerEntryName`: the text between the prelude and
      the last colon. */
  function ParseFilestringToServerEntryName(fileName: Option<string>): (r: Result<string, string>)
    ensures r.Success? <==> IsServerFileName(fileName)
  {
    if IsServerFileName(fileName) then
      ColonAfterPrelude(fileName.value);
      Success(fileName.value[|Prelude|..LastIndexOf(fileName.value, ':')])
    else Failure("Invalid SSH-filename")
  }

  /** `parseFilestringToFilePath`: the text after the last colon. */
  function ParseFilestringToFilePath(fileName: Option<string>): (r: Result<string, string>)
    ensures r.Success? <==> IsServerFileName(fileName)
    ensures r.Success? ==> ':' !in r.value
  {
    if IsServerFileName(fileName) then
      ColonAfterPrelude(fileName.value);
      var i := LastIndexOf(fileName.value, ':');
      var path := fileName.value[i + 1..];
      assert forall k :: 0 <= k < |path| ==> path[k] == fileName.value[i + 1 + k];
      Success(path)
    else Failure("Invalid SSH-filename")
  }

  /** For a valid name, prelude, entry name, colon and path put back
      together are the name. */
  lemma ParsedPartsRebuild(fileName: Option<string>)
    requires IsServerFileName(fileName)
    ensures Prelude + ParseFilestringToServerEntryName(fileName).value + ":"
            + ParseFilestringToFilePath(fileName).value == fileName.value
  {
    var s := fileName.value;
    ColonAfterPrelude(s);
    var i := LastIndexOf(s, ':');
    assert s == s[..2] + s[2..i] + [s[i]] + s[i + 1..];
  }

  /** An entry name and a path without a colon, written as a server file
      name, parse back into themselves. */
  lemma BuiltNameParses(entry: string, path: string)
    requires ':' !in path
    ensures var s := Prelude + entry + ":" + path;
      && ParseFilestringToServerEntryName(Some(s)) == Success(entry)
      && ParseFilestringToFilePath(Some(s)) == Success(path)
  {
    var s := Prelude + entry + ":" + path;
    var i := |Prelude| + |entry|;
    assert s[i] == ':';
    assert !IsTrimmable(s[0]);
    assert s[..|Prelude|] == Prelude;
    assert forall k :: i < k < |s| ==> s[k] == path[k - i - 1];
    LastColon(s, i);
    assert s[|Prelude|..i] == entry;
    assert s[i + 1..] == path;
  }

  lemma LastColon(s: string, i: nat)
    requires i < |s| && s[i] == ':' && forall k :: i < k < |s| ==> s[k] != ':'
    ensures LastIndexOf(s, ':') == i
  {
  }
}
