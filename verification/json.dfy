/** The JSON values the toolkit builds and sends. An object is a list of
    members in insertion order, as a Python `dict` keeps them. Floating
    point numbers are kept as their literal text and never computed
    with. */
module Json {
  import opened Wrappers

  datatype Json =
    | JNull
    | JBool(b: bool)
    | JInt(i: int)
    | JFloat(literal: string)
    | JString(s: string)
    | JArray(items: seq<Json>)
    | JObject(members: Members)

  type Members = seq<(string, Json)>

  /** The keys of a list of entries, in order. */
  function Keys<V>(m: seq<(string, V)>): (ks: seq<string>)
    ensures |ks| == |m|
    ensures forall i :: 0 <= i < |m| ==> ks[i] == m[i].0
  {
    if |m| == 0 then [] else [m[0].0] + Keys(m[1..])
  }

  /** The object with the given keys and values, pairwise. */
  function Object(keys: seq<string>, values: seq<Json>): (m: Members)
    requires |keys| == |values|
    ensures Keys(m) == keys
    ensures forall i :: 0 <= i < |m| ==> m[i] == (keys[i], values[i])
    ensures (forall i, j :: 0 <= i < j < |keys| ==> keys[i] != keys[j]) ==> UniqueKeys(m)
  {
    seq(|keys|, i requires 0 <= i < |keys| => (keys[i], values[i]))
  }

  /** No key occurs twice, as in any Python `dict`. */
  predicate UniqueKeys(m: Members) {
    forall i, j :: 0 <= i < j < |m| ==> m[i].0 != m[j].0
  }

  /** `obj.get(key)`: the value stored under the first occurrence of
      `key`, if any. */
  function Get(m: Members, key: string): Option<Json> {
    if |m| == 0 then None
    else if m[0].0 == key then Some(m[0].1)
    else Get(m[1..], key)
  }

  /** `get` finds a value exactly when the key is present, and the value
      it finds is stored under that key. */
  lemma {:induction false} GetFound(m: Members, key: string)
    ensures Get(m, key).Some? <==> key in Keys(m)
    ensures Get(m, key).Some? ==> exists i :: 0 <= i < |m| && m[i] == (key, Get(m, key).value)
  {
    if |m| > 0 {
      assert Keys(m) == [m[0].0] + Keys(m[1..]);
      if m[0].0 != key {
        GetFound(m[1..], key);
        if Get(m, key).Some? {
          var i :| 0 <= i < |m[1..]| && m[1..][i] == (key, Get(m, key).value);
          assert m[i + 1] == (key, Get(m, key).value);
        }
      }
    }
  }

  /** In an object with unique keys, `Get` finds the value at the key's
      position. */
  lemma GetAt(m: Members, i: int)
    requires UniqueKeys(m)
    requires 0 <= i < |m|
    ensures Get(m, m[i].0) == Some(m[i].1)
  {
    if i > 0 {
      assert m[0].0 != m[i].0;
      assert m[1..][i - 1] == m[i];
      GetAt(m[1..], i - 1);
    }
  }

  /** Keys paired with optional values, position by position. */
  function Candidates(keys: seq<string>, values: seq<Option<Json>>): (es: seq<(string, Option<Json>)>)
    requires |keys| == |values|
    ensures Keys(es) == keys
    ensures forall i :: 0 <= i < |es| ==> es[i] == (keys[i], values[i])
  {
    seq(|keys|, i requires 0 <= i < |keys| => (keys[i], values[i]))
  }

  /** No string occurs twice. */
  predicate Distinct(ks: seq<string>) {
    forall i, j :: 0 <= i < j < |ks| ==> ks[i] != ks[j]
  }

  /** The object holding the entries whose value is present, in order:
      Python's "set the key only if the argument was given". */
  function Present(es: seq<(string, Option<Json>)>): (m: Members)
    ensures |m| <= |es|
    ensures forall k :: k in Keys(m) ==> k in Keys(es)
  {
    if |es| == 0 then []
    else
      var rest := Present(es[1..]);
      assert Keys(es) == [es[0].0] + Keys(es[1..]);
      if es[0].1.Some? then
        assert Keys([(es[0].0, es[0].1.value)] + rest) == [es[0].0] + Keys(rest);
        [(es[0].0, es[0].1.value)] + rest
      else rest
  }

  /** With distinct keys, each entry's key finds exactly its own optional
      value: present when given, absent when not. */
  lemma {:induction false} PresentGet(es: seq<(string, Option<Json>)>, i: int)
    requires Distinct(Keys(es))
    requires 0 <= i < |es|
    ensures Get(Present(es), es[i].0) == es[i].1
  {
    var rest := Present(es[1..]);
    assert Distinct(Keys(es[1..])) by {
      forall a, b | 0 <= a < b < |es| - 1
        ensures Keys(es[1..])[a] != Keys(es[1..])[b]
      {
        assert Keys(es)[a + 1] != Keys(es)[b + 1];
      }
    }
    if i == 0 {
      if es[0].1.None? {
        HeadNotInTail(es);
        GetFound(rest, es[0].0);
      }
    } else {
      assert Keys(es)[0] != Keys(es)[i];
      assert es[1..][i - 1] == es[i];
      PresentGet(es[1..], i - 1);
    }
  }

  /** With distinct keys, the first key occurs nowhere after it. */
  lemma {:induction false} HeadNotInTail(es: seq<(string, Option<Json>)>)
    requires Distinct(Keys(es)) && |es| > 0
    ensures es[0].0 !in Keys(es[1..])
  {
    var tail := Keys(es[1..]);
    forall j | 0 <= j < |tail|
      ensures tail[j] != es[0].0
    {
      assert tail[j] == es[j + 1].0 == Keys(es)[j + 1];
      assert Keys(es)[0] != Keys(es)[j + 1];
    }
  }

  /** With distinct keys, no key of the object is repeated. */
  lemma {:induction false} PresentUnique(es: seq<(string, Option<Json>)>)
    requires Distinct(Keys(es))
    ensures UniqueKeys(Present(es))
  {
    if |es| > 0 {
      var rest := Present(es[1..]);
      assert Distinct(Keys(es[1..])) by {
        forall a, b | 0 <= a < b < |es| - 1
          ensures Keys(es[1..])[a] != Keys(es[1..])[b]
        {
          assert Keys(es)[a + 1] != Keys(es)[b + 1];
        }
      }
      PresentUnique(es[1..]);
      if es[0].1.Some? {
        var m := Present(es);
        HeadNotInTail(es);
        forall a, b | 0 <= a < b < |m|
          ensures m[a].0 != m[b].0
        {
          if a == 0 {
            assert m[b].0 == Keys(rest)[b - 1];
          } else {
            assert m[a] == rest[a - 1] && m[b] == rest[b - 1];
          }
        }
      }
    }
  }
}
