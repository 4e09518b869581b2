/** Parsed JSON documents and the handful of Python operations the
    loader and the validator apply to them. Only key shapes matter to the
    modelled code, so every scalar is a string or an integer. */
module Json {
  import opened Outcomes

  datatype Json =
    | JStr(s: string)
    | JInt(i: int)
    | JArr(items: seq<Json>)
    | JObj(fields: map<string, Json>)

  /** Python truthiness of a JSON value. */
  predicate Truthy(v: Json) {
    match v
    case JStr(s) => s != ""
    case JInt(i) => i != 0
    case JArr(xs) => xs != []
    case JObj(m) => m != map[]
  }

  /** `len(v)`: an integer has no length. */
  function Len(v: Json): (r: Py<nat>)
    ensures r.Raise? <==> v.JInt?
    ensures r == Ok(0) <==> v in {JStr(""), JArr([]), JObj(map[])}
  {
    match v
    case JStr(s) => Ok(|s|)
    case JInt(_) => Raise(TypeError)
    case JArr(xs) => Ok(|xs|)
    case JObj(m) => Ok(|m|)
  }

  /** `set(v.keys())`: only a mapping has keys. */
  function Keys(v: Json): (r: Py<set<string>>)
    ensures r.Ok? <==> v.JObj?
    ensures r.Ok? ==> r.value == v.fields.Keys
    ensures r.Raise? ==> r.error == AttributeError
  {
    if v.JObj? then Ok(v.fields.Keys) else Raise(AttributeError)
  }

  /** `v[key]` with a string key: a list, a string or an integer cannot be
      subscripted by a string. */
  function Index(v: Json, key: string): (r: Py<Json>)
    ensures r.Ok? <==> v.JObj? && key in v.fields
    ensures r.Ok? ==> r.value == v.fields[key]
    ensures r == Raise(KeyError) <==> v.JObj? && key !in v.fields
  {
    match v
    case JObj(m) => if key in m then Ok(m[key]) else Raise(KeyError)
    case _ => Raise(TypeError)
  }

  /** `v[0]`: JSON mapping keys are strings, so a mapping has no key 0. */
  function First(v: Json): (r: Py<Json>)
    ensures r.Ok? <==> (v.JArr? && |v.items| > 0) || (v.JStr? && |v.s| > 0)
    ensures r.Ok? && v.JArr? ==> r.value == v.items[0]
    ensures r.Ok? && v.JStr? ==> r.value == JStr(v.s[..1])
  {
    match v
    case JArr(xs) => if |xs| > 0 then Ok(xs[0]) else Raise(IndexError)
    case JStr(s) => if |s| > 0 then Ok(JStr(s[..1])) else Raise(IndexError)
    case JObj(_) => Raise(KeyError)
    case JInt(_) => Raise(TypeError)
  }

  /** What `for x in v` produces. A list yields its elements; a mapping
      yields its key strings and a string its one-character strings. Every
      consumer in the validator fails on the first string it is given, in
      the same way whatever the string holds, so only their number is kept. */
  datatype Iteration = Items(items: seq<Json>) | Strings(count: nat)

  /** `iter(v)` for a value that is iterable. */
  function Members(v: Json): (r: Iteration)
    requires !v.JInt?
    ensures v.JArr? <==> r.Items?
    ensures v.JArr? ==> r == Items(v.items)
    ensures r.Strings? ==> Len(v) == Ok(r.count)
  {
    match v
    case JArr(xs) => Items(xs)
    case JObj(m) => Strings(|m|)
    case JStr(s) => Strings(|s|)
  }

  /** `iter(v)`: an integer is not iterable. */
  function Iterate(v: Json): (r: Py<Iteration>)
    ensures r.Raise? <==> v.JInt?
    ensures r.Ok? ==> r.value == Members(v)
  {
    if v.JInt? then Raise(TypeError) else Ok(Members(v))
  }

  /** Two maps with the same keys and the same value at each key are equal. */
  lemma MapExt<K, V>(a: map<K, V>, b: map<K, V>)
    requires a.Keys == b.Keys && forall k :: k in a ==> a[k] == b[k]
    ensures a == b
  {
  }

  /** JSON values for a list of Python strings. */
  function Strs(names: seq<string>): (r: seq<Json>)
    ensures |r| == |names|
    ensures forall i :: 0 <= i < |names| ==> r[i] == JStr(names[i])
  {
    seq(|names|, i requires 0 <= i < |names| => JStr(names[i]))
  }
}
