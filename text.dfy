/** The parts of `java.lang.String` and `java.lang.Character` that the
    utilities rely on, over Dafny strings (sequences of UTF-16 code units are
    modelled as `seq<char>`). Case mapping is modelled for ASCII letters only. */
module Text {

  /** `Character.isWhitespace`: the Unicode space, line and paragraph
      separators except the non-breaking ones, plus U+0009..U+000D and
      U+001C..U+001F. */
  predicate IsWhitespace(c: char)
  {
    || ('\U{0009}' <= c <= '\U{000D}')
    || ('\U{001C}' <= c <= '\U{0020}')
    || c == '\U{1680}'
    || ('\U{2000}' <= c <= '\U{2006}')
    || ('\U{2008}' <= c <= '\U{200A}')
    || c == '\U{2028}' || c == '\U{2029}' || c == '\U{205F}' || c == '\U{3000}'
  }

  /** The characters `String.trim` removes: every code unit up to U+0020. */
  predicate IsTrimmable(c: char)
  {
    c <= ' '
  }

  predicate IsDigit(c: char)
  {
    '0' <= c <= '9'
  }

  predicate IsHexDigit(c: char)
  {
    IsDigit(c) || 'a' <= c <= 'f' || 'A' <= c <= 'F'
  }

  predicate IsAsciiLetter(c: char)
  {
    'a' <= c <= 'z' || 'A' <= c <= 'Z'
  }

  function ToLowerChar(c: char): char
  {
    if 'A' <= c <= 'Z' then (c as int + 32) as char else c
  }

  function ToUpperChar(c: char): char
  {
    if 'a' <= c <= 'z' then (c as int - 32) as char else c
  }

  function ToLower(s: string): (r: string)
    ensures |r| == |s|
    ensures forall i :: 0 <= i < |s| ==> r[i] == ToLowerChar(s[i])
  {
    if s == [] then [] else [ToLowerChar(s[0])] + ToLower(s[1..])
  }

  function ToUpper(s: string): (r: string)
    ensures |r| == |s|
    ensures forall i :: 0 <= i < |s| ==> r[i] == ToUpperChar(s[i])
  {
    if s == [] then [] else [ToUpperChar(s[0])] + ToUpper(s[1..])
  }

  /** `String.equalsIgnoreCase`. */
  predicate EqualsIgnoreCase(a: string, b: string)
  {
    |a| == |b| && forall i :: 0 <= i < |a| ==> ToUpperChar(a[i]) == ToUpperChar(b[i])
  }

  predicate StartsWith(s: string, prefix: string)
  {
    |prefix| <= |s| && s[..|prefix|] == prefix
  }

  predicate EndsWith(s: string, suffix: string)
  {
    |suffix| <= |s| && s[|s| - |suffix|..] == suffix
  }

  /** `String.contains`. */
  predicate Contains(s: string, part: string)
  {
    StartsWith(s, part) || (s != [] && Contains(s[1..], part))
  }

  /** `String.lastIndexOf(c)`: the largest index holding `c`, or -1. */
  function LastIndexOf(s: string, c: char): (r: int)
    ensures -1 <= r < |s|
    ensures r >= 0 ==> s[r] == c
    ensures forall i :: r < i < |s| ==> s[i] != c
  {
    if s == [] then -1
    else if s[|s| - 1] == c then |s| - 1
    else LastIndexOf(s[..|s| - 1], c)
  }

  /** `String.trim`. */
  function Trim(s: string): (r: string)
  {
    TrimEnd(TrimStart(s))
  }

  function TrimStart(s: string): (r: string)
    ensures |r| <= |s|
    ensures r == [] || !IsTrimmable(r[0])
    ensures forall i :: 0 <= i < |s| - |r| ==> IsTrimmable(s[i])
  {
    if s != [] && IsTrimmable(s[0]) then TrimStart(s[1..]) else s
  }

  function TrimEnd(s: string): (r: string)
    ensures |r| <= |s|
    ensures r == [] || !IsTrimmable(r[|r| - 1])
    ensures forall i :: |r| <= i < |s| ==> IsTrimmable(s[i])
  {
    if s != [] && IsTrimmable(s[|s| - 1]) then TrimEnd(s[..|s| - 1]) else s
  }

  /** `Utilities.isBlank`: the trimmed text is empty. */
  predicate IsBlank(s: string)
  {
    forall i :: 0 <= i < |s| ==> IsTrimmable(s[i])
  }

  /** `String.replace(target, replacement)`: every non-overlapping occurrence of
      `target`, scanning from the left, is replaced. */
  function Replace(s: string, target: string, replacement: string): (r: string)
    requires |target| > 0
    decreases |s|
  {
    if |s| < |target| then s
    else if s[..|target|] == target then replacement + Replace(s[|target|..], target, replacement)
    else [s[0]] + Replace(s[1..], target, replacement)
  }

  /** `Utilities.repeat(text, n)`. */
  function Repeat(s: string, n: nat): string
  {
    if n == 0 then "" else s + Repeat(s, n - 1)
  }

  /** `n` copies of `s` are `n` times as long as `s`. */
  lemma {:induction false} RepeatLength(s: string, n: nat)
    ensures |Repeat(s, n)| == |s| * n
  {
    if n > 0 {
      RepeatLength(s, n - 1);
    }
  }

  /** Copies of `s` split anywhere into copies: deeper indentation extends
      shallower indentation. */
  lemma {:induction false} RepeatAdd(s: string, m: nat, n: nat)
    ensures Repeat(s, m + n) == Repeat(s, m) + Repeat(s, n)
  {
    if m > 0 {
      RepeatAdd(s, m - 1, n);
    }
  }

  function DigitChar(d: nat): char
    requires d < 10
  {
    (d + '0' as int) as char
  }

  /** Decimal text of a natural number, as `Long.toString` writes it. */
  function NatToString(n: nat): (r: string)
    ensures |r| > 0
    ensures forall i :: 0 <= i < |r| ==> IsDigit(r[i])
  {
    if n < 10 then [DigitChar(n)] else NatToString(n / 10) + [DigitChar(n % 10)]
  }

  /** `Integer.toString` / `Long.toString`. */
  function IntToString(i: int): string
  {
    if i < 0 then "-" + NatToString(-i) else NatToString(i)
  }

  /** Replacing a single character is the same as mapping every character. */
  function MapChar(s: string, c: char, replacement: string): (r: string)
  {
    if s == [] then "" else (if s[0] == c then replacement else [s[0]]) + MapChar(s[1..], c, replacement)
  }

  lemma {:induction false} ReplaceSingleChar(s: string, c: char, replacement: string)
    ensures Replace(s, [c], replacement) == MapChar(s, c, replacement)
    decreases |s|
  {
    if s != [] {
      ReplaceSingleChar(s[1..], c, replacement);
    }
  }

  lemma MapCharAppend(a: string, b: string, c: char, replacement: string)
    ensures MapChar(a + b, c, replacement) == MapChar(a, c, replacement) + MapChar(b, c, replacement)
  {
    if a != [] {
      assert (a + b)[1..] == a[1..] + b;
      MapCharAppend(a[1..], b, c, replacement);
    } else {
      assert a + b == b;
    }
  }

  lemma MapCharAbsent(s: string, c: char, replacement: string)
    requires forall i :: 0 <= i < |s| ==> s[i] != c
    ensures MapChar(s, c, replacement) == s
  {
  }

  /** Replacing a text whose first character does not occur changes
      nothing. */
  lemma {:induction false} ReplaceAbsent(s: string, target: string, replacement: string)
    requires |target| > 0 && forall i :: 0 <= i < |s| ==> s[i] != target[0]
    ensures Replace(s, target, replacement) == s
    decreases |s|
  {
    if |s| >= |target| {
      assert s[..|target|][0] == s[0];
      ReplaceAbsent(s[1..], target, replacement);
    }
  }

  /** Mapping a character to a text without it removes every occurrence. */
  lemma {:induction false} MapCharRemoves(s: string, c: char, replacement: string)
    requires c !in replacement
    ensures c !in MapChar(s, c, replacement)
    decreases |s|
  {
    if s != [] {
      MapCharRemoves(s[1..], c, replacement);
    }
  }

  /** What `TrimStart` keeps is a suffix of the text. */
  lemma {:induction false} TrimStartSuffix(s: string)
    ensures TrimStart(s) == s[|s| - |TrimStart(s)|..]
    decreases |s|
  {
    if s != [] && IsTrimmable(s[0]) {
      TrimStartSuffix(s[1..]);
      assert s[1..][|s[1..]| - |TrimStart(s[1..])|..] == s[|s| - |TrimStart(s)|..];
    }
  }

  /** A text that starts and ends with a character `trim` keeps is its own
      trimmed form. */
  lemma TrimKeeps(s: string)
    requires s != [] && !IsTrimmable(s[0]) && !IsTrimmable(s[|s| - 1])
    ensures Trim(s) == s
  {
  }

  /** A text contains every part found at some index. */
  lemma {:induction false} ContainsAt(s: string, i: nat, part: string)
    requires i + |part| <= |s| && s[i..i + |part|] == part
    ensures Contains(s, part)
    decreases i
  {
    if i > 0 {
      assert s[1..][i - 1..i - 1 + |part|] == part;
      ContainsAt(s[1..], i - 1, part);
    } else {
      assert s[..|part|] == part;
    }
  }

  /** A chain of `String.replace` calls, each replacing one character by a
      text, applied from the first pair to the last. */
  function ReplaceAll(s: string, pairs: seq<(char, string)>): string
    decreases |pairs|
  {
    if pairs == [] then s else ReplaceAll(Replace(s, [pairs[0].0], pairs[0].1), pairs[1..])
  }

  /** The chain with every replacement mapping characters. */
  function MapAll(s: string, pairs: seq<(char, string)>): string
    decreases |pairs|
  {
    if pairs == [] then s else MapAll(MapChar(s, pairs[0].0, pairs[0].1), pairs[1..])
  }

  /** The text the first pair for `c` replaces it by, or `c` itself. */
  function Lookup(c: char, pairs: seq<(char, string)>): string
  {
    if pairs == [] then [c] else if pairs[0].0 == c then pairs[0].1 else Lookup(c, pairs[1..])
  }

  /** Every character replaced on its own, by `Lookup`. */
  function EachChar(s: string, pairs: seq<(char, string)>): string
  {
    if s == [] then "" else Lookup(s[0], pairs) + EachChar(s[1..], pairs)
  }

  /** No replacement text holds a character a later replacement targets. */
  predicate NoRescan(pairs: seq<(char, string)>)
  {
    forall j, k :: 0 <= j < k < |pairs| ==> pairs[k].0 !in pairs[j].1
  }

  lemma {:induction false} ReplaceAllIsMapAll(s: string, pairs: seq<(char, string)>)
    ensures ReplaceAll(s, pairs) == MapAll(s, pairs)
    decreases |pairs|
  {
    if pairs != [] {
      ReplaceSingleChar(s, pairs[0].0, pairs[0].1);
      ReplaceAllIsMapAll(MapChar(s, pairs[0].0, pairs[0].1), pairs[1..]);
    }
  }

  lemma {:induction false} MapAllAppend(a: string, b: string, pairs: seq<(char, string)>)
    ensures MapAll(a + b, pairs) == MapAll(a, pairs) + MapAll(b, pairs)
    decreases |pairs|
  {
    if pairs != [] {
      MapCharAppend(a, b, pairs[0].0, pairs[0].1);
      MapAllAppend(MapChar(a, pairs[0].0, pairs[0].1), MapChar(b, pairs[0].0, pairs[0].1), pairs[1..]);
    }
  }

  lemma {:induction false} MapAllAbsent(s: string, pairs: seq<(char, string)>)
    requires forall k :: 0 <= k < |pairs| ==> pairs[k].0 !in s
    ensures MapAll(s, pairs) == s
    decreases |pairs|
  {
    if pairs != [] {
      MapCharAbsent(s, pairs[0].0, pairs[0].1);
      MapAllAbsent(s, pairs[1..]);
    }
  }

  lemma {:induction false} MapAllOne(c: char, pairs: seq<(char, string)>)
    requires NoRescan(pairs)
    ensures MapAll([c], pairs) == Lookup(c, pairs)
    decreases |pairs|
  {
    if pairs != [] {
      assert MapChar([c], pairs[0].0, pairs[0].1) == if pairs[0].0 == c then pairs[0].1 else [c];
      if pairs[0].0 == c {
        MapAllAbsent(pairs[0].1, pairs[1..]);
      } else {
        MapAllOne(c, pairs[1..]);
      }
    }
  }

  /** Without rescanning, the chain replaces every character on its own. */
  lemma {:induction false} MapAllCharwise(s: string, pairs: seq<(char, string)>)
    requires NoRescan(pairs)
    ensures MapAll(s, pairs) == EachChar(s, pairs)
    decreases |s|
  {
    if s != [] {
      assert s == [s[0]] + s[1..];
      MapAllAppend([s[0]], s[1..], pairs);
      MapAllOne(s[0], pairs);
      MapAllCharwise(s[1..], pairs);
      assert EachChar(s, pairs) == Lookup(s[0], pairs) + EachChar(s[1..], pairs);
    } else {
      MapAllAbsent(s, pairs);
    }
  }

  lemma ReplaceAllCharwise(s: string, pairs: seq<(char, string)>)
    requires NoRescan(pairs)
    ensures ReplaceAll(s, pairs) == EachChar(s, pairs)
  {
    ReplaceAllIsMapAll(s, pairs);
    MapAllCharwise(s, pairs);
  }

  /** The first pair for `c` decides its replacement. */
  lemma {:induction false} LookupFirst(c: char, pairs: seq<(char, string)>, k: nat)
    requires k < |pairs| && pairs[k].0 == c
    requires forall j :: 0 <= j < k ==> pairs[j].0 != c
    ensures Lookup(c, pairs) == pairs[k].1
    decreases k
  {
    if k > 0 {
      LookupFirst(c, pairs[1..], k - 1);
    }
  }

  /** Pairs that agree with `f` look a character up as `f` does, or keep
      it. */
  lemma {:induction false} LookupAgrees(c: char, pairs: seq<(char, string)>, f: char -> string)
    requires forall k :: 0 <= k < |pairs| ==> pairs[k].1 == f(pairs[k].0)
    ensures Lookup(c, pairs) == if exists k :: 0 <= k < |pairs| && pairs[k].0 == c then f(c) else [c]
    decreases |pairs|
  {
    if pairs != [] {
      LookupAgrees(c, pairs[1..], f);
      if pairs[0].0 != c {
        if exists k :: 0 <= k < |pairs| && pairs[k].0 == c {
          var k :| 0 <= k < |pairs| && pairs[k].0 == c;
          assert pairs[1..][k - 1].0 == c;
        }
      }
    }
  }

  /** A character no pair targets is kept. */
  lemma {:induction false} LookupAbsent(c: char, pairs: seq<(char, string)>)
    requires forall j :: 0 <= j < |pairs| ==> pairs[j].0 != c
    ensures Lookup(c, pairs) == [c]
    decreases |pairs|
  {
    if pairs != [] {
      LookupAbsent(c, pairs[1..]);
    }
  }
}
