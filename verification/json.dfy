/** A parsed JSON value, as `json.load` hands it to the song-file code, with the
    parts of Python's dict/list/str protocol that code relies on. */
module Json {
  import opened Wrappers
  import opened Text

  /** JSON values; an object keeps its members in insertion order, as a Python dict does. */
  datatype Json =
    | JNull
    | JBool(b: bool)
    | JNum(n: real)
    | JStr(s: string)
    | JArr(items: seq<Json>)
    | JObj(members: seq<(string, Json)>)

  /** A Python dict with string keys. Keys are assumed distinct, as `json.load` produces them. */
  type JsonObject = seq<(string, Json)>

  /** `k in d` for a dict. */
  predicate HasKey(d: JsonObject, k: string) {
    exists i :: 0 <= i < |d| && d[i].0 == k
  }

  /** `d.get(k)`: the value stored under `k`, if any. */
  function Get(d: JsonObject, k: string): (r: Option<Json>)
    ensures r.Some? <==> HasKey(d, k)
    ensures r.Some? ==> exists i :: 0 <= i < |d| && d[i] == (k, r.value)
  {
    if |d| == 0 then None
    else if d[0].0 == k then Some(d[0].1)
    else
      var r := Get(d[1..], k);
      assert forall i :: 0 < i < |d| ==> d[i] == d[1..][i - 1];
      r
  }

  /** Looking up a key finds the first member that carries it. */
  lemma {:induction false} GetFirst(d: JsonObject, i: nat, k: string)
    requires i < |d| && d[i].0 == k
    requires forall j :: 0 <= j < i ==> d[j].0 != k
    ensures Get(d, k) == Some(d[i].1)
  {
    if i > 0 {
      GetFirst(d[1..], i - 1, k);
    }
  }

  /** `d[k] = v` on a copy of `d` (what `{**d, k: v}` builds): an existing key keeps
      its position and takes the new value, a new key is appended. */
  function Put(d: JsonObject, k: string, v: Json): (r: JsonObject)
    ensures Get(r, k) == Some(v)
    ensures forall k' :: k' != k ==> Get(r, k') == Get(d, k')
    ensures forall k' :: HasKey(r, k') <==> HasKey(d, k') || k' == k
  {
    if |d| == 0 then [(k, v)]
    else if d[0].0 == k then
      var r := [(k, v)] + d[1..];
      assert forall k' :: HasKey(r, k') <==> Get(r, k').Some?;
      r
    else
      var r := [d[0]] + Put(d[1..], k, v);
      assert forall k' :: Get(r, k') == (if d[0].0 == k' then Some(d[0].1) else Get(Put(d[1..], k, v), k'));
      assert forall k' :: HasKey(r, k') <==> Get(r, k').Some?;
      assert forall k' :: HasKey(d, k') <==> Get(d, k').Some?;
      r
  }

  /** Python's `key in container` for a string key: a dict tests its keys, a list
      tests for an equal string element, a string tests for a substring; on
      anything else the operator raises `TypeError` (`None` here). */
  function PyContains(container: Json, key: string): Option<bool> {
    match container
    case JObj(m) => Some(HasKey(m, key))
    case JArr(items) => Some(JStr(key) in items)
    case JStr(s) => Some(Contains(s, key))
    case _ => None
  }

  /** The values `for x in v` visits: list elements, dict keys, or the one-character
      strings of a string; `None` where iteration raises `TypeError`. */
  function PyIter(v: Json): Option<seq<Json>> {
    match v
    case JArr(items) => Some(items)
    case JObj(m) => Some(seq(|m|, i requires 0 <= i < |m| => JStr(m[i].0)))
    case JStr(s) => Some(seq(|s|, i requires 0 <= i < |s| => JStr([s[i]])))
    case _ => None
  }

  /** `v[key]` for a string key: only a dict can be subscripted with a string;
      `None` where Python raises `KeyError` or `TypeError`. */
  function PySubscript(v: Json, key: string): Option<Json> {
    match v
    case JObj(m) => Get(m, key)
    case _ => None
  }
}
