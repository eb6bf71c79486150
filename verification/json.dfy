/** JSON values as `json.load` hands them to the validator, and the two Python
    operations the validator applies to them: `key in value` and `value[key]`. */
module Json {
  import opened Wrappers
  import Text

  /** A JSON document. An object lists its members in document order; the
      object `json.load` returns holds each key once (the last duplicate in
      the text wins), so a member list here is read as having distinct keys,
      and `Lookup` may take the first match. Numbers are integers here: the validator only
      asks whether a value is a string, so fractional numbers behave the same. */
  datatype Json =
    | JNull
    | JBool(b: bool)
    | JNumber(n: int)
    | JString(str: string)
    | JArray(items: seq<Json>)
    | JObject(members: seq<(string, Json)>)

  /** The value stored under `key`, if any. */
  function Lookup(members: seq<(string, Json)>, key: string): (r: Option<Json>)
    ensures r.None? <==> forall i :: 0 <= i < |members| ==> members[i].0 != key
    ensures r.Some? ==> exists i :: 0 <= i < |members| && members[i] == (key, r.value)
    decreases |members|
  {
    if |members| == 0 then None
    else if members[0].0 == key then Some(members[0].1)
    else
      var r := Lookup(members[1..], key);
      assert forall i :: 1 <= i < |members| ==> members[i] == members[1..][i - 1];
      r
  }

  /** Python's `key in value`: a key test on a dict, a substring test on a str,
      an element test on a list. On a number, a boolean or `None` Python raises
      `TypeError`, modelled as `None`. */
  function In(key: string, v: Json): (r: Option<bool>)
    ensures r.None? <==> v.JNull? || v.JBool? || v.JNumber?
    ensures v.JObject? ==> (r == Some(true) <==> exists i :: 0 <= i < |v.members| && v.members[i].0 == key)
    ensures v.JString? ==> (r == Some(true) <==> exists k :: 0 <= k <= |v.str| - |key| && Text.OccursAt(v.str, key, k))
    ensures v.JArray? ==> (r == Some(true) <==> exists i :: 0 <= i < |v.items| && v.items[i] == JString(key))
  {
    match v
    case JObject(members) => Some(Lookup(members, key).Some?)
    case JString(s) => Some(Text.Contains(s, key))
    case JArray(items) => Some(JString(key) in items)
    case _ => None
  }

  /** Python's `value[key]` with a string key: defined on a dict holding the key;
      a `KeyError` or `TypeError` otherwise, modelled as `None`. */
  function Index(v: Json, key: string): (r: Option<Json>)
    ensures r.Some? <==> v.JObject? && exists i :: 0 <= i < |v.members| && v.members[i].0 == key
    ensures r.Some? ==> exists i :: 0 <= i < |v.members| && v.members[i] == (key, r.value)
  {
    match v
    case JObject(members) => Lookup(members, key)
    case _ => None
  }
}
