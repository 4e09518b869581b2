/** `AttrDict.from_nested_dict`: the merged tree rebuilt so that every
    nested mapping is an `AttrDict`. An `AttrDict` uses itself as its
    attribute dictionary, so `t.key` and `t[key]` are one lookup. */
module AttrTree {
  import opened Outcomes
  import opened Json

  /** An `AttrDict` node, or a value passed through as it is (lists keep
      their plain mappings inside). */
  datatype Attr = Leaf(value: Json) | Node(children: map<string, Attr>)

  /** Every mapping has been rebuilt as a node: no leaf holds a mapping. */
  predicate Wrapped(t: Attr) {
    match t
    case Leaf(v) => !v.JObj?
    case Node(c) => forall k :: k in c ==> Wrapped(c[k])
  }

  /** The plain value a tree compares equal to (`AttrDict` is a `dict`). */
  function ToJson(t: Attr): (r: Json) {
    match t
    case Leaf(v) => v
    case Node(c) => JObj(map k | k in c :: ToJson(c[k]))
  }


  /** `AttrDict.from_nested_dict(data)`. */
  function FromNestedDict(v: Json): (t: Attr)
    ensures !v.JObj? ==> t == Leaf(v)
    ensures v.JObj? ==> t.Node? && t.children.Keys == v.fields.Keys
    ensures Wrapped(t)
    ensures ToJson(t) == v
  {
    match v
    case JObj(m) =>
      var c := map k | k in m :: FromNestedDict(m[k]);
      MapExt(map k | k in c :: ToJson(c[k]), m);
      Node(c)
    case _ => Leaf(v)
  }

  /** Rebuilding the plain value of a wrapped tree gives the same tree, so
      `FromNestedDict` and `ToJson` are inverse. */
  lemma {:induction false} FromNestedDictOfToJson(t: Attr)
    requires Wrapped(t)
    ensures FromNestedDict(ToJson(t)) == t
  {
    match t
    case Leaf(v) =>
    case Node(c) =>
      var m := map k | k in c :: ToJson(c[k]);
      forall k | k in c ensures FromNestedDict(m[k]) == c[k] {
        FromNestedDictOfToJson(c[k]);
      }
      MapExt(map k | k in m :: FromNestedDict(m[k]), c);
  }

  /** `t[key]`, which is also `t.key`. */
  function Select(t: Attr, key: string): (r: Option<Attr>) {
    if t.Node? && key in t.children then Some(t.children[key]) else None
  }

  /** `t.p0.p1...`, None where a step finds no such key. */
  function SelectPath(t: Attr, path: seq<string>): (r: Option<Attr>) {
    if |path| == 0 then Some(t)
    else match Select(t, path[0])
      case None => None
      case Some(c) => SelectPath(c, path[1..])
  }

  /** `v[p0][p1]...` on the plain value. */
  function JsonPath(v: Json, path: seq<string>): (r: Option<Json>) {
    if |path| == 0 then Some(v)
    else if v.JObj? && path[0] in v.fields then JsonPath(v.fields[path[0]], path[1..])
    else None
  }

  /** Every path reads the same through the rebuilt tree as through the
      plain mapping it came from. */
  lemma {:induction false} PathAgrees(v: Json, path: seq<string>)
    ensures SelectPath(FromNestedDict(v), path)
            == (match JsonPath(v, path) case None => None case Some(x) => Some(FromNestedDict(x)))
  {
    if |path| > 0 && v.JObj? && path[0] in v.fields {
      PathAgrees(v.fields[path[0]], path[1..]);
    }
  }
}
