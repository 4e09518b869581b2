/** `update(d, u)`: the recursive deep merge that folds every fragment into
    the aggregate tree. Mappings are merged key by key; any other value in
    `u` overwrites. */
module Merge {
  import opened Outcomes
  import opened Json

  /** `d.get(k, {})` */
  function GetOrEmpty(d: map<string, Json>, k: string): (r: Json) {
    if k in d then d[k] else JObj(map[])
  }

  /** `update(dv, u)` runs to the end: each mapping in `u` lands on a
      mapping of `dv`, or on a missing key, all the way down. A
      non-mapping `dv` survives only an empty `u`, for which the loop body
      never runs. */
  predicate CanUpdate(dv: Json, u: map<string, Json>)
    decreases JObj(u)
  {
    if dv.JObj? then forall k :: k in u && u[k].JObj? ==> CanUpdate(GetOrEmpty(dv.fields, k), u[k].fields)
    else u == map[]
  }

  /** `update(dv, u)` can raise `e` for some iteration order of the
      mappings in `u`. On a non-mapping `dv` the first item decides: a
      mapping item evaluates `dv.get(k, {})` first and raises
      AttributeError, any other item reaches the item assignment and raises
      TypeError. On a mapping `dv`, the first nested call that raises
      decides. */
  predicate FailsWith(dv: Json, u: map<string, Json>, e: PyError)
    decreases JObj(u)
  {
    if dv.JObj? then exists k | k in u && u[k].JObj? :: FailsWith(GetOrEmpty(dv.fields, k), u[k].fields, e)
    else
      || (e == AttributeError && exists k | k in u :: u[k].JObj?)
      || (e == TypeError && exists k | k in u :: !u[k].JObj?)
  }

  /** `update` raises exactly when it cannot run to the end, and then only
      AttributeError or TypeError. */
  lemma {:induction false} FailureKinds(dv: Json, u: map<string, Json>, e: PyError)
    decreases JObj(u)
    ensures !CanUpdate(dv, u) <==> FailsWith(dv, u, TypeError) || FailsWith(dv, u, AttributeError)
    ensures FailsWith(dv, u, e) ==> e == TypeError || e == AttributeError
  {
    if dv.JObj? {
      forall k | k in u && u[k].JObj?
        ensures !CanUpdate(GetOrEmpty(dv.fields, k), u[k].fields)
                <==> FailsWith(GetOrEmpty(dv.fields, k), u[k].fields, TypeError)
                     || FailsWith(GetOrEmpty(dv.fields, k), u[k].fields, AttributeError)
        ensures FailsWith(GetOrEmpty(dv.fields, k), u[k].fields, e) ==> e == TypeError || e == AttributeError
      {
        FailureKinds(GetOrEmpty(dv.fields, k), u[k].fields, e);
      }
    } else if u != map[] {
      var k :| k in u;
    }
  }

  /** `update(d, u)` on a mapping, when it does not raise. */
  function Merge(d: map<string, Json>, u: map<string, Json>): (r: map<string, Json>)
    requires CanUpdate(JObj(d), u)
    decreases JObj(u)
    ensures r.Keys == d.Keys + u.Keys
    ensures forall k :: k in d && k !in u ==> r[k] == d[k]
  {
    map k | k in d.Keys + u.Keys ::
      if k !in u then d[k]
      else if !u[k].JObj? then u[k]
      else
        var dk := GetOrEmpty(d, k);
        if dk.JObj? then JObj(Merge(dk.fields, u[k].fields)) else dk
  }

  /** `update(d, u)`. */
  function Update(d: map<string, Json>, u: map<string, Json>): (r: Py<map<string, Json>>)
    ensures r.Ok? <==> CanUpdate(JObj(d), u)
    ensures r.Raise? ==> (r.error == TypeError || r.error == AttributeError) && FailsWith(JObj(d), u, r.error)
    ensures r.Ok? ==> r.value.Keys == d.Keys + u.Keys
    ensures r.Ok? ==> forall k :: k in d && k !in u ==> r.value[k] == d[k]
    ensures r.Ok? ==> forall k :: k in u && !u[k].JObj? ==> r.value[k] == u[k]
    ensures r.Ok? ==> forall k :: k in u && u[k].JObj? && k !in d ==> r.value[k] == JObj(Merge(map[], u[k].fields))
    ensures r.Ok? ==> forall k :: k in u && u[k].JObj? && k in d && d[k].JObj? ==>
              && r.value[k].JObj?
              && r.value[k].fields.Keys == d[k].fields.Keys + u[k].fields.Keys
              && forall j :: j in d[k].fields && j !in u[k].fields ==> r.value[k].fields[j] == d[k].fields[j]
  {
    if CanUpdate(JObj(d), u) then
      var r := Merge(d, u);
      assert forall k :: k in u && u[k].JObj? && k in d && d[k].JObj? ==> r[k] == JObj(Merge(d[k].fields, u[k].fields));
      Ok(r)
    else
      FailureKinds(JObj(d), u, TypeError);
      FailureKinds(JObj(d), u, AttributeError);
      Raise(if FailsWith(JObj(d), u, TypeError) then TypeError else AttributeError)
  }


  /** Merging into an empty mapping never raises and copies the source. */
  lemma {:induction false} MergeIntoEmpty(u: map<string, Json>)
    decreases JObj(u)
    ensures CanUpdate(JObj(map[]), u)
    ensures Merge(map[], u) == u
  {
    forall k | k in u && u[k].JObj? ensures CanUpdate(JObj(map[]), u[k].fields) && Merge(map[], u[k].fields) == u[k].fields {
      MergeIntoEmpty(u[k].fields);
    }
    var r := Merge(map[], u);
    forall k | k in r ensures r[k] == u[k] {
      if u[k].JObj? {
        assert r[k] == JObj(Merge(map[], u[k].fields));
      }
    }
    MapExt(r, u);
  }

  /** Fragments with disjoint key sets merge into their plain union. */
  lemma MergeDisjoint(d: map<string, Json>, u: map<string, Json>)
    requires d.Keys !! u.Keys
    ensures CanUpdate(JObj(d), u)
    ensures Merge(d, u) == d + u
  {
    forall k | k in u && u[k].JObj? ensures CanUpdate(GetOrEmpty(d, k), u[k].fields) && Merge(map[], u[k].fields) == u[k].fields {
      MergeIntoEmpty(u[k].fields);
    }
    var r := Merge(d, u);
    forall k | k in r ensures r[k] == (d + u)[k] {
      if k in u && u[k].JObj? {
        assert r[k] == JObj(Merge(map[], u[k].fields));
      }
    }
    MapExt(r, d + u);
  }

  /** Merging the same source a second time changes nothing, and cannot
      raise once the first merge did not. */
  lemma {:induction false} MergeIdempotent(d: map<string, Json>, u: map<string, Json>)
    requires CanUpdate(JObj(d), u)
    decreases JObj(u)
    ensures CanUpdate(JObj(Merge(d, u)), u)
    ensures Merge(Merge(d, u), u) == Merge(d, u)
  {
    var r := Merge(d, u);
    forall k | k in u && u[k].JObj?
      ensures CanUpdate(GetOrEmpty(r, k), u[k].fields)
      ensures r[k].JObj? ==> Merge(r[k].fields, u[k].fields) == r[k].fields
    {
      var dk := GetOrEmpty(d, k);
      if dk.JObj? {
        MergeIdempotent(dk.fields, u[k].fields);
      }
    }
    var rr := Merge(r, u);
    forall k | k in rr ensures rr[k] == r[k] { }
    MapExt(rr, r);
  }

  /** `update` is idempotent. */
  lemma UpdateIdempotent(d: map<string, Json>, u: map<string, Json>)
    requires Update(d, u).Ok?
    ensures Update(Update(d, u).value, u) == Update(d, u)
  {
    MergeIdempotent(d, u);
  }

  /** Two fragments naming different classes of one family, merged in turn
      into an empty tree, keep both classes unchanged. */
  lemma DistinctClassesKept(family: string, cls1: string, data1: Json, cls2: string, data2: Json)
    requires cls1 != cls2
    ensures var first := Update(map[], map[family := JObj(map[cls1 := data1])]);
      && first.Ok?
      && Update(first.value, map[family := JObj(map[cls2 := data2])])
         == Ok(map[family := JObj(map[cls1 := data1, cls2 := data2])])
  {
    var f1 := map[family := JObj(map[cls1 := data1])];
    var f2 := map[family := JObj(map[cls2 := data2])];
    MergeIntoEmpty(f1);
    var m1 := map[cls1 := data1];
    var m2 := map[cls2 := data2];
    MergeDisjoint(m1, m2);
    assert CanUpdate(JObj(f1), f2);
    var r := Merge(f1, f2);
    assert r[family] == JObj(Merge(m1, m2));
    assert m1 + m2 == map[cls1 := data1, cls2 := data2];
    MapExt(r, map[family := JObj(map[cls1 := data1, cls2 := data2])]);
  }

  /** A mapping landing on a string: the nested call evaluates
      `"x".get("C", {})` before any assignment, and raises AttributeError. */
  lemma MappingOnLeafRaisesAttributeError()
    ensures Update(map["F" := JStr("x")], map["F" := JObj(map["C" := JObj(map[])])]) == Raise(AttributeError)
  {
    var d, inner := map["F" := JStr("x")], map["C" := JObj(map[])];
    var u := map["F" := JObj(inner)];
    assert "C" in inner && inner["C"].JObj?;
    assert FailsWith(JStr("x"), inner, AttributeError);
    assert !FailsWith(JStr("x"), inner, TypeError);
    assert "F" in u && u["F"].JObj? && GetOrEmpty(d, "F") == JStr("x");
    assert !FailsWith(JObj(d), u, TypeError);
  }

  /** A plain value landing on a string reaches the item assignment
      `"x"["C"] = 1`, which raises TypeError. */
  lemma ValueOnLeafRaisesTypeError()
    ensures Update(map["F" := JStr("x")], map["F" := JObj(map["C" := JInt(1)])]) == Raise(TypeError)
  {
    var d, inner := map["F" := JStr("x")], map["C" := JInt(1)];
    var u := map["F" := JObj(inner)];
    assert "C" in inner && !inner["C"].JObj?;
    assert FailsWith(JStr("x"), inner, TypeError);
    assert "F" in u && u["F"].JObj? && GetOrEmpty(d, "F") == JStr("x");
    assert FailsWith(JObj(d), u, TypeError);
  }
}
