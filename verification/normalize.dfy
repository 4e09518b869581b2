/** `parse_contents`: a validated document reshaped into a `{class: data}`
    fragment. A list of mappings becomes a mapping of lists; an `Origin`
    document loses its root key. */
module Normalize {
  import opened Outcomes
  import opened Json

  /** The keys that appear in some mapping element. */
  function AllKeys(xs: seq<Json>): (r: set<string>)
    ensures forall i, k :: 0 <= i < |xs| && xs[i].JObj? && k in xs[i].fields ==> k in r
  {
    if |xs| == 0 then {}
    else
      var rest := AllKeys(xs[1..]);
      assert forall i :: 1 <= i < |xs| ==> xs[i] == xs[1..][i - 1];
      (if xs[0].JObj? then xs[0].fields.Keys else {}) + rest
  }

  /** Every collected key comes from some mapping element. */
  lemma {:induction false} AllKeysWitness(xs: seq<Json>, k: string)
    requires k in AllKeys(xs)
    ensures exists i :: 0 <= i < |xs| && xs[i].JObj? && k in xs[i].fields
  {
    if !(xs[0].JObj? && k in xs[0].fields) {
      AllKeysWitness(xs[1..], k);
      var i :| 0 <= i < |xs[1..]| && xs[1..][i].JObj? && k in xs[1..][i].fields;
      assert xs[i + 1] == xs[1..][i];
    }
  }

  /** The values under `k`, in element order, of the elements that have `k`:
      the list `tmpdict[k]` ends up holding. */
  function Column(xs: seq<Json>, k: string): (r: seq<Json>)
    ensures |r| <= |xs|
  {
    if |xs| == 0 then []
    else
      assert forall i :: 1 <= i < |xs| ==> xs[i] == xs[1..][i - 1];
      (if xs[0].JObj? && k in xs[0].fields then [xs[0].fields[k]] else []) + Column(xs[1..], k)
  }

  /** `tmpdict`: each key of any element mapped to its column. */
  function Transpose(xs: seq<Json>): (r: map<string, Json>)
    ensures forall i, k :: 0 <= i < |xs| && xs[i].JObj? && k in xs[i].fields ==> k in r
    ensures forall k :: k in r ==> r[k].JArr? && |r[k].items| <= |xs|
  {
    map k | k in AllKeys(xs) :: JArr(Column(xs, k))
  }

  /** A key of the transposed mapping is exactly a key of some mapping
      element. */
  lemma TransposeKeys(xs: seq<Json>, k: string)
    ensures k in Transpose(xs) <==> exists i :: 0 <= i < |xs| && xs[i].JObj? && k in xs[i].fields
  {
    if k in Transpose(xs) {
      AllKeysWitness(xs, k);
    }
  }

  /** An element of a multi-element list that the pair comprehension
      cannot walk without raising: an integer is not iterable, and the
      characters of a non-empty string cannot subscript it. */
  predicate ElementRaises(x: Json) {
    x.JInt? || (x.JStr? && x.s != "")
  }

  /** A non-empty list nested in a multi-element list would be walked
      element by element and subscripted by them, keying the transposed
      mapping by integers; the string-keyed tree cannot hold that. */
  predicate Transposable(contents: Json) {
    contents.JArr? && |contents.items| > 1 ==>
      forall i :: 0 <= i < |contents.items| ==> !(contents.items[i].JArr? && contents.items[i].items != [])
  }

  /** `parse_contents(contents, cls_name)`. */
  function ParseContents(contents: Json, cls: string): (r: Py<map<string, Json>>)
    requires Transposable(contents)
    ensures r.Ok? ==> r.value.Keys == {cls}
    ensures contents.JArr? && |contents.items| > 1 && (forall i :: 0 <= i < |contents.items| ==> contents.items[i].JObj?)
            ==> r.Ok? && r.value[cls].JObj? && r.value[cls].fields.Keys == AllKeys(contents.items)
  {
    var n :- Len(contents);
    if n > 1 then
      match contents
      case JArr(xs) =>
        if exists i :: 0 <= i < |xs| && ElementRaises(xs[i]) then Raise(TypeError)
        else Ok(map[cls := JObj(Transpose(xs))])
      case _ => Raise(TypeError)
    else if n == 1 then
      var origin :- Index(contents, "Origin");
      if Truthy(origin) then Ok(map[cls := origin])
      else
        var study :- Index(contents, "Study");
        if Truthy(study) then Ok(map[cls := study])
        else Ok(map[cls := contents])
    else Raise(UnboundLocalError)
  }

  /** Every element is a mapping with key set `keys`. */
  ghost predicate Uniform(xs: seq<Json>, keys: set<string>) {
    forall i :: 0 <= i < |xs| ==> xs[i].JObj? && xs[i].fields.Keys == keys
  }

  /** A key that no element has gets an empty column. */
  lemma {:induction false} ColumnAbsent(xs: seq<Json>, k: string)
    requires forall i :: 0 <= i < |xs| ==> !(xs[i].JObj? && k in xs[i].fields)
    ensures Column(xs, k) == []
  {
    if |xs| > 0 {
      assert forall i :: 0 <= i < |xs[1..]| ==> xs[1..][i] == xs[i + 1];
      ColumnAbsent(xs[1..], k);
    }
  }

  /** On uniform elements every column has one entry per element, in
      element order. */
  lemma {:induction false} UniformColumn(xs: seq<Json>, keys: set<string>, k: string)
    requires Uniform(xs, keys) && k in keys
    ensures |Column(xs, k)| == |xs|
    ensures forall i :: 0 <= i < |xs| ==> Column(xs, k)[i] == xs[i].fields[k]
  {
    if |xs| > 0 {
      assert Uniform(xs[1..], keys) by {
        forall i | 0 <= i < |xs[1..]| ensures xs[1..][i].JObj? && xs[1..][i].fields.Keys == keys {
          assert xs[1..][i] == xs[i + 1];
        }
      }
      UniformColumn(xs[1..], keys, k);
      assert Column(xs, k) == [xs[0].fields[k]] + Column(xs[1..], k);
    }
  }

  /** A multi-element list of uniform mappings transposes into one list per
      key, each as long as the document, whose i-th entry is the i-th
      element's value. */
  lemma TransposeUniform(xs: seq<Json>, keys: set<string>)
    requires |xs| > 0 && Uniform(xs, keys)
    ensures Transpose(xs).Keys == keys
    ensures forall k :: k in keys ==>
      && Transpose(xs)[k].JArr? && |Transpose(xs)[k].items| == |xs|
      && forall i :: 0 <= i < |xs| ==> Transpose(xs)[k].items[i] == xs[i].fields[k]
  {
    assert AllKeys(xs) == keys by {
      forall k | k in AllKeys(xs) ensures k in keys { AllKeysWitness(xs, k); }
      forall k | k in keys ensures k in AllKeys(xs) { assert xs[0].JObj? && k in xs[0].fields; }
    }
    forall k | k in keys
      ensures |Column(xs, k)| == |xs| && forall i :: 0 <= i < |xs| ==> Column(xs, k)[i] == xs[i].fields[k]
    {
      UniformColumn(xs, keys, k);
    }
  }

  /** `parse_contents` on a list of more than one mapping, all with key
      set `keys`: one class entry whose lists have one value per element,
      in element order. */
  lemma ParseUniformList(xs: seq<Json>, keys: set<string>, cls: string)
    requires |xs| > 1 && Uniform(xs, keys)
    ensures Transposable(JArr(xs))
    ensures var r := ParseContents(JArr(xs), cls);
      && r.Ok? && r.value.Keys == {cls} && r.value[cls].JObj?
      && r.value[cls].fields.Keys == keys
      && forall k :: k in keys ==>
           && r.value[cls].fields[k].JArr? && |r.value[cls].fields[k].items| == |xs|
           && forall i :: 0 <= i < |xs| ==> r.value[cls].fields[k].items[i] == xs[i].fields[k]
  {
    TransposeUniform(xs, keys);
    assert !exists i :: 0 <= i < |xs| && ElementRaises(xs[i]);
    assert ParseContents(JArr(xs), cls) == Ok(map[cls := JObj(Transpose(xs))]);
  }

  /** The i-th row of a transposed mapping. */
  function Row(t: map<string, Json>, i: nat): (r: Json)
    requires forall k :: k in t ==> t[k].JArr? && i < |t[k].items|
  {
    JObj(map k | k in t :: t[k].items[i])
  }

  /** Reading the rows back out of the transposed mapping of uniform
      elements recovers the document. */
  lemma TransposeRoundTrip(xs: seq<Json>, keys: set<string>)
    requires |xs| > 0 && Uniform(xs, keys)
    ensures forall k :: k in Transpose(xs) ==> Transpose(xs)[k].JArr? && |Transpose(xs)[k].items| == |xs|
    ensures forall i :: 0 <= i < |xs| ==> Row(Transpose(xs), i) == xs[i]
  {
    TransposeUniform(xs, keys);
    forall i | 0 <= i < |xs| ensures Row(Transpose(xs), i) == xs[i] {
      RowOfTranspose(xs, keys, i);
    }
  }

  lemma RowOfTranspose(xs: seq<Json>, keys: set<string>, i: nat)
    requires |xs| > 0 && Uniform(xs, keys) && i < |xs|
    ensures forall k :: k in Transpose(xs) ==> Transpose(xs)[k].JArr? && i < |Transpose(xs)[k].items|
    ensures Row(Transpose(xs), i) == xs[i]
  {
    var t := Transpose(xs);
    var m := xs[i].fields;
    assert t.Keys == m.Keys by { TransposeUniform(xs, keys); }
    forall k | k in t ensures t[k].JArr? && i < |t[k].items| && t[k].items[i] == m[k] {
      CellOfTranspose(xs, keys, i, k);
    }
    RowOfColumns(t, m, i);
  }

  /** A mapping of lists whose i-th entries are the values of `m` has `m`
      as its i-th row. */
  lemma RowOfColumns(t: map<string, Json>, m: map<string, Json>, i: nat)
    requires t.Keys == m.Keys
    requires forall k :: k in t ==> t[k].JArr? && i < |t[k].items| && t[k].items[i] == m[k]
    ensures Row(t, i) == JObj(m)
  {
    MapExt(map k | k in t :: t[k].items[i], m);
  }

  /** The entry of the transposed mapping under `k` at position `i`. */
  lemma CellOfTranspose(xs: seq<Json>, keys: set<string>, i: nat, k: string)
    requires Uniform(xs, keys) && i < |xs| && k in keys
    ensures k in Transpose(xs) && Transpose(xs)[k].JArr? && i < |Transpose(xs)[k].items|
    ensures Transpose(xs)[k].items[i] == xs[i].fields[k]
  {
    UniformColumn(xs, keys, k);
  }


  /** An `Origin` document with a non-empty value is stripped of its root. */
  lemma OriginStripped(origin: Json, cls: string)
    requires Truthy(origin)
    ensures ParseContents(JObj(map["Origin" := origin]), cls) == Ok(map[cls := origin])
  {
  }

  /** `contents['Origin']` is read first, so a `Study` document, or an
      `Origin` document whose value is empty, raises KeyError. */
  lemma SingletonKeyErrors(key: string, value: Json, cls: string)
    requires key != "Origin" || !Truthy(value)
    ensures ParseContents(JObj(map[key := value]), cls) == Raise(KeyError)
  {
  }
}
