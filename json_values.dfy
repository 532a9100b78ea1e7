/** The JSON value model shared by the tree classes, the readers and the
    writer. A `JsonObject` is an insertion-ordered table (`LinkedHashMap`), so
    an object value is a sequence of members with distinct keys. */
module JsonValues {

  /** The numeric kinds the readers distinguish: `Integer`, `Long` and
      `Double`. A floating value is kept as the text it was read from. */
  datatype Num = Narrow(i: int) | Wide(l: int) | Float(text: string)

  datatype Json =
    | Null
    | Bool(b: bool)
    | Number(n: Num)
    | Str(s: string)
    | Arr(items: seq<Json>)
    | Obj(members: seq<Member>)

  datatype Member = Member(key: string, value: Json)

  const MinInt: int := -0x8000_0000
  const MaxInt: int := 0x7FFF_FFFF
  const MinLong: int := -0x8000_0000_0000_0000
  const MaxLong: int := 0x7FFF_FFFF_FFFF_FFFF

  function Keys(ms: seq<Member>): (ks: seq<string>)
    ensures |ks| == |ms|
    ensures forall i :: 0 <= i < |ms| ==> ks[i] == ms[i].key
  {
    if ms == [] then [] else [ms[0].key] + Keys(ms[1..])
  }

  predicate DistinctKeys(ms: seq<Member>)
  {
    forall i, j :: 0 <= i < j < |ms| ==> ms[i].key != ms[j].key
  }

  predicate HasKey(ms: seq<Member>, key: string)
  {
    exists i :: 0 <= i < |ms| && ms[i].key == key
  }

  /** The position of `key` in insertion order, or -1. */
  function IndexOfKey(ms: seq<Member>, key: string): (r: int)
    ensures -1 <= r < |ms|
    ensures r >= 0 ==> ms[r].key == key
    ensures r == -1 <==> !HasKey(ms, key)
    ensures forall i :: 0 <= i < r ==> ms[i].key != key
  {
    if ms == [] then -1
    else if ms[0].key == key then 0
    else
      var k := IndexOfKey(ms[1..], key);
      assert forall i :: 1 <= i < |ms| ==> ms[i] == ms[1..][i - 1];
      if k == -1 then -1 else k + 1
  }

  /** `JsonObject.get`: Java returns `null` both for a missing key and for a
      stored null. */
  function Get(ms: seq<Member>, key: string): Json
  {
    var i := IndexOfKey(ms, key);
    if i == -1 then Null else ms[i].value
  }

  /** The value a duplicate key ends up with: an array stays an array and
      grows by one element, anything else becomes a two-element array. */
  function Promote(previous: Json, v: Json): (r: Json)
    ensures r.Arr? && |r.items| >= 1 && r.items[|r.items| - 1] == v
  {
    if previous.Arr? then Arr(previous.items + [v]) else Arr([previous, v])
  }

  /** `JsonObject.add(key, value)` on the member list. */
  function AddMember(ms: seq<Member>, key: string, v: Json): seq<Member>
  {
    var i := IndexOfKey(ms, key);
    if i == -1 then ms + [Member(key, v)]
    else ms[i := Member(key, Promote(ms[i].value, v))]
  }

  /** `JsonObject.remove(key)` on the member list. */
  function RemoveMember(ms: seq<Member>, key: string): seq<Member>
  {
    var i := IndexOfKey(ms, key);
    if i == -1 then ms else ms[..i] + ms[i + 1..]
  }

  lemma AddMemberKeepsDistinct(ms: seq<Member>, key: string, v: Json)
    requires DistinctKeys(ms)
    ensures DistinctKeys(AddMember(ms, key, v))
  {
  }

  lemma RemoveMemberKeepsDistinct(ms: seq<Member>, key: string)
    requires DistinctKeys(ms)
    ensures DistinctKeys(RemoveMember(ms, key))
  {
    var i := IndexOfKey(ms, key);
    if i != -1 {
      var r := ms[..i] + ms[i + 1..];
      forall a, b | 0 <= a < b < |r| ensures r[a].key != r[b].key {
        var a' := if a < i then a else a + 1;
        var b' := if b < i then b else b + 1;
        assert r[a] == ms[a'] && r[b] == ms[b'];
      }
    }
  }

  /** A key not yet present is appended with its value as given: the size grows
      by one and the earlier members are untouched. */
  lemma AddAbsentKey(ms: seq<Member>, key: string, v: Json)
    requires DistinctKeys(ms) && !HasKey(ms, key)
    ensures var r := AddMember(ms, key, v);
      |r| == |ms| + 1 && r[..|ms|] == ms && r[|ms|] == Member(key, v) && Get(r, key) == v
  {
    var r := AddMember(ms, key, v);
    assert IndexOfKey(r, key) == |ms| by {
      assert r[|ms|].key == key;
      assert HasKey(r, key);
    }
  }

  /** A key already present keeps its size and position; its value is promoted
      (a fresh two-element array, or an existing array extended by one). */
  lemma AddPresentKey(ms: seq<Member>, key: string, v: Json)
    requires DistinctKeys(ms) && HasKey(ms, key)
    ensures var r := AddMember(ms, key, v);
      && |r| == |ms|
      && Keys(r) == Keys(ms)
      && Get(r, key) == Promote(Get(ms, key), v)
      && (forall k :: k != key ==> Get(r, k) == Get(ms, k))
  {
    var i := IndexOfKey(ms, key);
    var m := Member(key, Promote(ms[i].value, v));
    var r := ms[i := m];
    KeysUpdate(ms, i, m);
    forall k | k != key ensures Get(r, k) == Get(ms, k) {
      IndexOfKeyUpdate(ms, i, m, k);
    }
    IndexOfKeyUpdate(ms, i, m, key);
  }

  /** Replacing a member by one with the same key leaves the keys alone. */
  lemma KeysUpdate(ms: seq<Member>, i: nat, m: Member)
    requires i < |ms| && ms[i].key == m.key
    ensures Keys(ms[i := m]) == Keys(ms)
  {
    var r := ms[i := m];
    assert forall j :: 0 <= j < |ms| ==> Keys(r)[j] == Keys(ms)[j];
  }

  /** ... and every key's position. */
  lemma IndexOfKeyUpdate(ms: seq<Member>, i: nat, m: Member, k: string)
    requires i < |ms| && ms[i].key == m.key
    ensures IndexOfKey(ms[i := m], k) == IndexOfKey(ms, k)
  {
    var r := ms[i := m];
    assert forall j :: 0 <= j < |ms| ==> r[j].key == ms[j].key;
    var a, b := IndexOfKey(ms, k), IndexOfKey(r, k);
    if a == -1 {
      assert !HasKey(r, k);
    } else {
      assert r[a].key == k;
      assert HasKey(r, k);
      assert b != -1 && ms[b].key == k;
    }
  }

  /** Adding a sequence of values under one key, one `add` call after another. */
  function AddAll(ms: seq<Member>, key: string, vs: seq<Json>): seq<Member>
    decreases |vs|
  {
    if vs == [] then ms else AddAll(AddMember(ms, key, vs[0]), key, vs[1..])
  }

  /** Repeated insertions under one key never nest arrays: the slot holds the
      values in insertion order, appended to the first value when that was
      itself an array. The key stays where it was first inserted. */
  lemma RepeatedAddNeverNests(ms: seq<Member>, key: string, vs: seq<Json>)
    requires DistinctKeys(ms) && !HasKey(ms, key) && |vs| >= 2
    ensures var r := AddAll(ms, key, vs);
      && DistinctKeys(r)
      && |r| == |ms| + 1
      && r[..|ms|] == ms
      && r[|ms|].key == key
      && Get(r, key) == (if vs[0].Arr? then Arr(vs[0].items + vs[1..]) else Arr(vs))
  {
    var m1 := AddMember(ms, key, vs[0]);
    AddAbsentKey(ms, key, vs[0]);
    AddMemberKeepsDistinct(ms, key, vs[0]);
    AddAllPromotes(m1, |ms|, key, vs[1..]);
    var r := m1[|ms| := Member(key, Accumulated(vs[0], vs[1..]))];
    UpdateKeepsDistinct(m1, |ms|, Accumulated(vs[0], vs[1..]));
    assert r[|ms|].key == key;
    assert IndexOfKey(r, key) == |ms| by {
      assert HasKey(r, key);
    }
    if !vs[0].Arr? {
      assert [vs[0]] + vs[1..] == vs;
    }
  }

  /** With distinct keys, the member holding `key` is the one `add` promotes. */
  lemma AddAtIndex(ms: seq<Member>, i: nat, key: string, v: Json)
    requires DistinctKeys(ms) && i < |ms| && ms[i].key == key
    ensures AddMember(ms, key, v) == ms[i := Member(key, Promote(ms[i].value, v))]
  {
    assert HasKey(ms, key);
  }

  /** The value a slot holds after `vs` were added to it one by one. */
  function Accumulated(first: Json, vs: seq<Json>): Json
  {
    if vs == [] then first
    else if first.Arr? then Arr(first.items + vs)
    else Arr([first] + vs)
  }

  lemma UpdateKeepsDistinct(ms: seq<Member>, i: nat, v: Json)
    requires DistinctKeys(ms) && i < |ms|
    ensures DistinctKeys(ms[i := Member(ms[i].key, v)])
  {
    var m := ms[i := Member(ms[i].key, v)];
    assert forall j :: 0 <= j < |ms| ==> m[j].key == ms[j].key;
  }

  lemma AccumulatedStep(first: Json, vs: seq<Json>)
    requires vs != []
    ensures Accumulated(first, vs) == Accumulated(Promote(first, vs[0]), vs[1..])
  {
    var tail := vs[1..];
    if tail == [] {
      assert vs == [vs[0]];
      assert [first] + vs == [first, vs[0]];
    } else if first.Arr? {
      assert first.items + [vs[0]] + tail == first.items + vs;
    } else {
      assert [first, vs[0]] + tail == [first] + vs;
    }
  }

  lemma {:induction false} AddAllPromotes(ms: seq<Member>, i: nat, key: string, vs: seq<Json>)
    requires DistinctKeys(ms) && i < |ms| && ms[i].key == key
    ensures AddAll(ms, key, vs) == ms[i := Member(key, Accumulated(ms[i].value, vs))]
    decreases |vs|
  {
    if vs != [] {
      var p := Promote(ms[i].value, vs[0]);
      var m1 := ms[i := Member(key, p)];
      AddAtIndex(ms, i, key, vs[0]);
      UpdateKeepsDistinct(ms, i, p);
      AddAllPromotes(m1, i, key, vs[1..]);
      AccumulatedStep(ms[i].value, vs);
      assert m1[i := Member(key, Accumulated(p, vs[1..]))] == ms[i := Member(key, Accumulated(p, vs[1..]))];
    }
  }

  /** `remove(key)` yields the previous value; afterwards `get(key)` is null and
      every other key keeps its value and relative order. */
  lemma RemoveProperties(ms: seq<Member>, key: string)
    requires DistinctKeys(ms)
    ensures var r := RemoveMember(ms, key);
      && Get(r, key) == Null
      && !HasKey(r, key)
      && |r| == (if HasKey(ms, key) then |ms| - 1 else |ms|)
      && (forall k :: k != key ==> Get(r, k) == Get(ms, k))
      && (HasKey(ms, key) ==> r == ms[..IndexOfKey(ms, key)] + ms[IndexOfKey(ms, key) + 1..])
      && (!HasKey(ms, key) ==> r == ms)
  {
    var r := RemoveMember(ms, key);
    RemoveMemberKeepsDistinct(ms, key);
    forall k | k != key ensures Get(r, k) == Get(ms, k) {
      RemoveKeepsOther(ms, key, k);
    }
  }

  lemma RemoveKeepsOther(ms: seq<Member>, key: string, k: string)
    requires DistinctKeys(ms) && k != key
    ensures Get(RemoveMember(ms, key), k) == Get(ms, k)
  {
    var i := IndexOfKey(ms, key);
    var r := RemoveMember(ms, key);
    if i != -1 {
      assert forall j :: 0 <= j < |r| ==> r[j] == (if j < i then ms[j] else ms[j + 1]);
      var a := IndexOfKey(ms, k);
      if a == -1 {
        assert !HasKey(r, k);
      } else {
        var b := if a < i then a else a - 1;
        assert r[b].key == k;
        assert HasKey(r, k);
        var b' := IndexOfKey(r, k);
        assert b' == b;
      }
    }
  }
}
