/** The directory branch of `load_svds`, from the directory listing on:
    filter by the fixed file names, validate, name, normalise, merge, then
    set `Contains` and rebuild the tree as `AttrDict`s. Reading and parsing
    the files is outside the model: their parsed contents come in as
    `files`, and the order Python's set yields the read set in comes in as
    `order`. */
module Loader {
  import opened Outcomes
  import opened Json
  import opened Validation
  import opened ClassNames
  import opened Normalize
  import opened Merge
  import opened AttrTree

  /** `order` lists the read set, `listing ∩ fileNames`, once each. */
  ghost predicate ReadOrder(order: seq<string>, listing: set<string>, fileNames: set<string>) {
    && (forall f :: f in order <==> f in listing && f in fileNames)
    && (forall i, j :: 0 <= i < j < |order| ==> order[i] != order[j])
  }

  /** The contents of the files in `order` that the validator accepts, in
      processing order. */
  ghost function AcceptedContents(order: seq<string>, files: map<string, Json>, rules: RuleSet): (r: seq<Json>)
    requires forall f :: f in order ==> f in files
    ensures |r| <= |order|
    ensures forall i :: 0 <= i < |r| ==> Accepted(r[i], rules)
  {
    if |order| == 0 then []
    else (if Accepted(files[order[0]], rules) then [files[order[0]]] else []) + AcceptedContents(order[1..], files, rules)
  }

  /** The accepted contents are the accepted documents among the files
      in `order`. */
  lemma {:induction false} AcceptedFrom(order: seq<string>, files: map<string, Json>, rules: RuleSet)
    requires forall f :: f in order ==> f in files
    ensures forall x :: x in AcceptedContents(order, files, rules) <==>
              exists i :: 0 <= i < |order| && files[order[i]] == x && Accepted(x, rules)
  {
    if |order| > 0 {
      AcceptedFrom(order[1..], files, rules);
      assert forall i :: 1 <= i < |order| ==> order[i] == order[1..][i - 1];
      forall x | exists i :: 0 <= i < |order| && files[order[i]] == x && Accepted(x, rules)
        ensures x in AcceptedContents(order, files, rules)
      {
        var i :| 0 <= i < |order| && files[order[i]] == x && Accepted(x, rules);
        if i > 0 {
          assert files[order[1..][i - 1]] == x;
        }
      }
    }
  }

  /** Lines 74-101: a document contributes exactly when its file is both
      listed and a fixed file name, and the validator accepts it. */
  lemma OnlyReadFilesContribute(listing: set<string>, files: map<string, Json>, order: seq<string>, rules: RuleSet)
    requires ReadOrder(order, listing, rules.fileNames)
    requires forall f :: f in listing && f in rules.fileNames ==> f in files
    ensures forall x :: x in AcceptedContents(order, files, rules) <==>
              exists f :: f in listing && f in rules.fileNames && f in files && files[f] == x && Accepted(x, rules)
  {
    AcceptedFrom(order, files, rules);
    forall x | exists f :: f in listing && f in rules.fileNames && f in files && files[f] == x && Accepted(x, rules)
      ensures x in AcceptedContents(order, files, rules)
    {
      var f :| f in listing && f in rules.fileNames && f in files && files[f] == x && Accepted(x, rules);
      assert f in order;
      var i :| 0 <= i < |order| && order[i] == f;
    }
  }

  /** Lines 85-101: each file of the read set is validated in turn; a file
      the validator raises on aborts the load, a rejected one is dropped. */
  function ValidatedContents(order: seq<string>, files: map<string, Json>, rules: RuleSet): (r: Py<seq<Json>>)
    requires forall f :: f in order ==> f in files
    ensures r.Ok? ==> r.value == AcceptedContents(order, files, rules)
    ensures r.Raise? <==> exists i :: 0 <= i < |order| && Validate(files[order[i]], rules).Raise?
  {
    if |order| == 0 then Ok([])
    else
      var verdict :- Validate(files[order[0]], rules);
      var rest :- ValidatedContents(order[1..], files, rules);
      assert forall i :: 1 <= i < |order| ==> order[i] == order[1..][i - 1];
      Ok((if verdict.valid then [files[order[0]]] else []) + rest)
  }

  /** The class `classes[i]` of every family `families[i]` is a key of that
      family's mapping in `tree`. */
  ghost predicate Addressable(tree: map<string, Json>, families: seq<string>, classes: seq<string>)
    requires |families| == |classes|
  {
    forall i :: 0 <= i < |families| ==> Holds(tree, families[i], classes[i])
  }

  /** `tree[family]` is a mapping with the key `cls`. */
  predicate Holds(tree: map<string, Json>, family: string, cls: string) {
    family in tree && tree[family].JObj? && cls in tree[family].fields
  }

  /** Merging one fragment `{family: {cls: …}}` makes `family`/`cls`
      addressable and keeps every entry that already was. */
  lemma MergeStep(tree: map<string, Json>, family: string, fragment: map<string, Json>, cls: string)
    requires cls in fragment
    requires Update(tree, map[family := JObj(fragment)]).Ok?
    ensures var merged := Update(tree, map[family := JObj(fragment)]).value;
      && Holds(merged, family, cls)
      && forall f, c :: Holds(tree, f, c) ==> Holds(merged, f, c)
  {
    var u := map[family := JObj(fragment)];
    assert CanUpdate(GetOrEmpty(tree, family), fragment);
    if family !in tree {
      assert Update(tree, u).value[family] == JObj(Merge.Merge(map[], fragment));
    }
  }

  /** Lines 108-110 for one document: `parse_contents` turns it into
      `{class: data}` and `update` merges that under its family name. */
  function Absorb(tree: map<string, Json>, content: Json, family: string, cls: string): (r: Py<map<string, Json>>)
    requires Transposable(content)
    ensures r.Ok? ==> forall f :: f in r.value <==> f in tree || f == family
    ensures r.Ok? ==> Holds(r.value, family, cls)
    ensures r.Ok? ==> forall f, c :: Holds(tree, f, c) ==> Holds(r.value, f, c)
  {
    var fragment :- ParseContents(content, cls);
    var merged :- Update(tree, map[family := JObj(fragment)]);
    MergeStep(tree, family, fragment, cls);
    Ok(merged)
  }

  /** Lines 108-110: the documents absorbed in order. */
  function MergeFragments(tree: map<string, Json>, contents: seq<Json>, families: seq<string>, classes: seq<string>)
    : (r: Py<map<string, Json>>)
    requires |contents| == |families| == |classes|
    requires forall i :: 0 <= i < |contents| ==> Transposable(contents[i])
    decreases |contents|
    ensures r.Ok? ==> forall f :: f in r.value <==> f in tree || f in families
    ensures r.Ok? ==> Addressable(r.value, families, classes)
    ensures r.Ok? ==> forall f, c :: Holds(tree, f, c) ==> Holds(r.value, f, c)
  {
    if |contents| == 0 then Ok(tree)
    else
      var merged :- Absorb(tree, contents[0], families[0], classes[0]);
      var r :- MergeFragments(merged, contents[1..], families[1..], classes[1..]);
      assert forall i :: 1 <= i < |families| ==> families[i] == families[1..][i - 1] && classes[i] == classes[1..][i - 1];
      assert forall f :: f in families <==> f == families[0] || f in families[1..];
      Ok(r)
  }

  /** Absorbing a document whose family/class is not yet in the tree puts
      its `parse_contents` data there unchanged: an empty slot merges into
      a plain copy. */
  lemma AbsorbSets(tree: map<string, Json>, content: Json, family: string, cls: string)
    requires Transposable(content)
    requires Absorb(tree, content, family, cls).Ok?
    requires !Holds(tree, family, cls)
    ensures ParseContents(content, cls).Ok?
    ensures Absorb(tree, content, family, cls).value[family].fields[cls] == ParseContents(content, cls).value[cls]
  {
    var fragment := ParseContents(content, cls).value;
    var data := fragment[cls];
    assert CanUpdate(GetOrEmpty(tree, family), fragment);
    var dk := GetOrEmpty(tree, family);
    var inner := Merge.Merge(dk.fields, fragment);
    assert Update(tree, map[family := JObj(fragment)]).value[family] == JObj(inner);
    if data.JObj? {
      MergeIntoEmpty(data.fields);
      assert inner[cls] == JObj(Merge.Merge(map[], data.fields));
    }
  }

  /** Absorbing a document leaves every other family/class as it was:
      present with the same data, or absent. */
  lemma AbsorbOthers(tree: map<string, Json>, content: Json, family: string, cls: string, f: string, c: string)
    requires Transposable(content)
    requires Absorb(tree, content, family, cls).Ok?
    requires f != family || c != cls
    ensures var r := Absorb(tree, content, family, cls).value;
      && (Holds(r, f, c) <==> Holds(tree, f, c))
      && (Holds(tree, f, c) ==> r[f].fields[c] == tree[f].fields[c])
  {
    var fragment := ParseContents(content, cls).value;
    if f == family {
      assert CanUpdate(GetOrEmpty(tree, family), fragment);
      var dk := GetOrEmpty(tree, family);
      assert Update(tree, map[family := JObj(fragment)]).value[family] == JObj(Merge.Merge(dk.fields, fragment));
    }
  }

  /** One step of the fold: the first document is absorbed, then the
      rest are folded into the result. */
  lemma FoldStep(tree: map<string, Json>, contents: seq<Json>, families: seq<string>, classes: seq<string>)
    requires |contents| == |families| == |classes| > 0
    requires forall i :: 0 <= i < |contents| ==> Transposable(contents[i])
    requires MergeFragments(tree, contents, families, classes).Ok?
    ensures Absorb(tree, contents[0], families[0], classes[0]).Ok?
    ensures forall i :: 0 <= i < |contents| - 1 ==> Transposable(contents[1..][i])
    ensures MergeFragments(Absorb(tree, contents[0], families[0], classes[0]).value, contents[1..], families[1..], classes[1..])
            == MergeFragments(tree, contents, families, classes)
  {
    assert forall i :: 0 <= i < |contents| - 1 ==> contents[1..][i] == contents[i + 1];
  }

  /** A fold over documents none of which names `f`/`c` leaves that entry
      as it was. */
  lemma {:induction false} FoldOthers(tree: map<string, Json>, contents: seq<Json>, families: seq<string>,
                                      classes: seq<string>, f: string, c: string)
    requires |contents| == |families| == |classes|
    requires forall i :: 0 <= i < |contents| ==> Transposable(contents[i])
    requires MergeFragments(tree, contents, families, classes).Ok?
    requires forall j :: 0 <= j < |families| ==> families[j] != f || classes[j] != c
    decreases |contents|
    ensures var r := MergeFragments(tree, contents, families, classes).value;
      && (Holds(r, f, c) <==> Holds(tree, f, c))
      && (Holds(tree, f, c) ==> r[f].fields[c] == tree[f].fields[c])
  {
    if |contents| > 0 {
      FoldStep(tree, contents, families, classes);
      var merged := Absorb(tree, contents[0], families[0], classes[0]).value;
      AbsorbOthers(tree, contents[0], families[0], classes[0], f, c);
      FoldOthers(merged, contents[1..], families[1..], classes[1..], f, c);
    }
  }

  /** Lines 108-110: after the fold, the entry of a document whose
      family/class no other document shares holds that document's
      `parse_contents` data. */
  lemma {:induction false} FoldData(tree: map<string, Json>, contents: seq<Json>, families: seq<string>,
                                    classes: seq<string>, i: nat)
    requires |contents| == |families| == |classes|
    requires forall j :: 0 <= j < |contents| ==> Transposable(contents[j])
    requires MergeFragments(tree, contents, families, classes).Ok?
    requires i < |contents| && !Holds(tree, families[i], classes[i])
    requires forall j :: 0 <= j < |families| && j != i ==> families[j] != families[i] || classes[j] != classes[i]
    decreases |contents|
    ensures ParseContents(contents[i], classes[i]).Ok?
    ensures MergeFragments(tree, contents, families, classes).value[families[i]].fields[classes[i]]
            == ParseContents(contents[i], classes[i]).value[classes[i]]
  {
    FoldStep(tree, contents, families, classes);
    var merged := Absorb(tree, contents[0], families[0], classes[0]).value;
    if i == 0 {
      AbsorbSets(tree, contents[0], families[0], classes[0]);
      FoldOthers(merged, contents[1..], families[1..], classes[1..], families[0], classes[0]);
    } else {
      AbsorbOthers(tree, contents[0], families[0], classes[0], families[i], classes[i]);
      FoldData(merged, contents[1..], families[1..], classes[1..], i - 1);
    }
  }

  /** `tree` has room for `family.cls`: the family is absent, or is a
      mapping without `cls`. */
  predicate Room(tree: map<string, Json>, family: string, cls: string) {
    family !in tree || (tree[family].JObj? && cls !in tree[family].fields)
  }

  /** No two documents name the same family/class pair. */
  predicate DistinctPairs(families: seq<string>, classes: seq<string>) {
    && |families| == |classes|
    && forall i, j | 0 <= i < j < |families| :: families[i] != families[j] || classes[i] != classes[j]
  }

  /** Absorbing into a tree with room for the pair completes exactly when
      `parse_contents` does: the fragment's one key lands on an empty slot,
      and `update` into `{}` never raises. */
  lemma AbsorbOutcome(tree: map<string, Json>, content: Json, family: string, cls: string)
    requires Transposable(content)
    requires Room(tree, family, cls)
    ensures Absorb(tree, content, family, cls).Ok? <==> ParseContents(content, cls).Ok?
  {
    if ParseContents(content, cls).Ok? {
      var fragment := ParseContents(content, cls).value;
      var g := GetOrEmpty(tree, family);
      forall k | k in fragment && fragment[k].JObj?
        ensures CanUpdate(GetOrEmpty(g.fields, k), fragment[k].fields)
      {
        MergeIntoEmpty(fragment[k].fields);
      }
      assert CanUpdate(JObj(tree), map[family := JObj(fragment)]);
    }
  }

  /** Absorbing one pair leaves room for every other pair that had it. */
  lemma AbsorbKeepsRoom(tree: map<string, Json>, content: Json, family: string, cls: string, f: string, c: string)
    requires Transposable(content)
    requires Room(tree, f, c)
    requires f != family || c != cls
    ensures Absorb(tree, content, family, cls).Ok? ==> Room(Absorb(tree, content, family, cls).value, f, c)
  {
    if Absorb(tree, content, family, cls).Ok? && f == family {
      var fragment := ParseContents(content, cls).value;
      var g := GetOrEmpty(tree, f);
      assert CanUpdate(g, fragment);
      assert Absorb(tree, content, family, cls).value[f] == JObj(Merge.Merge(g.fields, fragment));
    }
  }

  /** A fold that completes ran every `parse_contents` call without a
      raise: the first raise aborts the load, whatever the other
      documents hold. */
  lemma {:induction false} FoldParses(tree: map<string, Json>, contents: seq<Json>, families: seq<string>,
                                      classes: seq<string>)
    requires |contents| == |families| == |classes|
    requires forall i :: 0 <= i < |contents| ==> Transposable(contents[i])
    decreases |contents|
    ensures MergeFragments(tree, contents, families, classes).Ok? ==>
              forall i :: 0 <= i < |contents| ==> ParseContents(contents[i], classes[i]).Ok?
  {
    if |contents| > 0 && MergeFragments(tree, contents, families, classes).Ok? {
      FoldStep(tree, contents, families, classes);
      FoldParses(Absorb(tree, contents[0], families[0], classes[0]).value, contents[1..], families[1..], classes[1..]);
      assert forall i :: 1 <= i < |contents| ==> contents[i] == contents[1..][i - 1] && classes[i] == classes[1..][i - 1];
    }
  }

  /** Lines 108-110: when the tree has room for every pair and no two
      documents name the same pair, the fold completes exactly when every
      `parse_contents` call does. */
  lemma {:induction false} FoldOutcome(tree: map<string, Json>, contents: seq<Json>, families: seq<string>,
                                       classes: seq<string>)
    requires |contents| == |families| == |classes|
    requires forall i :: 0 <= i < |contents| ==> Transposable(contents[i])
    requires forall i :: 0 <= i < |contents| ==> Room(tree, families[i], classes[i])
    requires DistinctPairs(families, classes)
    decreases |contents|
    ensures MergeFragments(tree, contents, families, classes).Ok? <==>
              forall i :: 0 <= i < |contents| ==> ParseContents(contents[i], classes[i]).Ok?
  {
    FoldParses(tree, contents, families, classes);
    if |contents| > 0 && forall i :: 0 <= i < |contents| ==> ParseContents(contents[i], classes[i]).Ok? {
      AbsorbOutcome(tree, contents[0], families[0], classes[0]);
      var merged := Absorb(tree, contents[0], families[0], classes[0]).value;
      forall i | 0 <= i < |contents| - 1
        ensures Room(merged, families[1..][i], classes[1..][i])
      {
        assert families[1..][i] == families[i + 1] && classes[1..][i] == classes[i + 1];
        AbsorbKeepsRoom(tree, contents[0], families[0], classes[0], families[i + 1], classes[i + 1]);
      }
      assert forall i :: 0 <= i < |contents| - 1 ==> contents[1..][i] == contents[i + 1] && classes[1..][i] == classes[i + 1];
      FoldOutcome(merged, contents[1..], families[1..], classes[1..]);
    }
  }

  /** The `Contains` entry: the family and the class names, in order. */
  function ContainsEntry(families: seq<string>, classes: seq<string>): (r: Json) {
    JObj(map["Family" := JArr(Strs(families)), "Class" := JArr(Strs(classes))])
  }

  /** The rebuilt `Contains` entry holds the two name lists as plain leaves. */
  lemma ContainsWrapped(families: seq<string>, classes: seq<string>)
    ensures FromNestedDict(ContainsEntry(families, classes))
            == Node(map["Family" := Leaf(JArr(Strs(families))), "Class" := Leaf(JArr(Strs(classes)))])
  {
  }

  /** The family and class names of the accepted files. */
  ghost function AcceptedNames(order: seq<string>, files: map<string, Json>, rules: RuleSet): (r: Py<(seq<string>, seq<string>)>)
    requires forall f :: f in order ==> f in files
  {
    GetValidatedClassnames(AcceptedContents(order, files, rules))
  }

  /** A document the validator accepts is either the `Origin` mapping or a
      list of mappings, so `parse_contents` can transpose it. */
  lemma AcceptedTransposable(content: Json, rules: RuleSet)
    requires Accepted(content, rules)
    ensures Transposable(content)
  {
  }

  /** Setting `Contains` keeps every other family's classes addressable. */
  lemma SetContainsKeeps(tree: map<string, Json>, families: seq<string>, classes: seq<string>)
    requires |families| == |classes|
    requires Addressable(tree, families, classes)
    ensures forall i :: 0 <= i < |families| && families[i] != "Contains" ==>
              Holds(tree["Contains" := ContainsEntry(families, classes)], families[i], classes[i])
  {
  }

  /** Lines 104-111 on the accepted documents: name them, merge them, and
      record the names under `Contains`. */
  function Assemble(contents: seq<Json>): (r: Py<map<string, Json>>)
    requires forall i :: 0 <= i < |contents| ==> Transposable(contents[i])
    ensures r.Ok? ==> GetValidatedClassnames(contents).Ok?
    ensures r.Ok? ==> var names := GetValidatedClassnames(contents).value;
      && (forall f :: f in r.value <==> f == "Contains" || f in names.0)
      && r.value["Contains"] == ContainsEntry(names.0, names.1)
      && forall i :: 0 <= i < |names.0| && names.0[i] != "Contains" ==> Holds(r.value, names.0[i], names.1[i])
  {
    var names :- GetValidatedClassnames(contents);
    var tree :- MergeFragments(map[], contents, names.0, names.1);
    SetContainsKeeps(tree, names.0, names.1);
    Ok(tree["Contains" := ContainsEntry(names.0, names.1)])
  }

  /** Lines 104-111: a document whose family is not `Contains` and whose
      family/class pair no other document shares has its `parse_contents`
      data under `family.cls`. */
  lemma AssembleData(contents: seq<Json>, i: nat)
    requires forall j :: 0 <= j < |contents| ==> Transposable(contents[j])
    ensures Assemble(contents).Ok? ==>
      var names := GetValidatedClassnames(contents).value;
      i < |contents| && names.0[i] != "Contains"
      && (forall j :: 0 <= j < |contents| && j != i ==> names.0[j] != names.0[i] || names.1[j] != names.1[i])
      ==> && ParseContents(contents[i], names.1[i]).Ok?
          && Assemble(contents).value[names.0[i]].fields[names.1[i]] == ParseContents(contents[i], names.1[i]).value[names.1[i]]
  {
    if Assemble(contents).Ok? {
      var names := GetValidatedClassnames(contents).value;
      if i < |contents| && names.0[i] != "Contains"
         && forall j :: 0 <= j < |contents| && j != i ==> names.0[j] != names.0[i] || names.1[j] != names.1[i]
      {
        FoldData(map[], contents, names.0, names.1, i);
      }
    }
  }

  /** Lines 104-111: assembling completes only if naming and every
      `parse_contents` call do, and when no two documents share a
      family/class pair, that is also enough. */
  lemma AssembleOutcome(contents: seq<Json>)
    requires forall j :: 0 <= j < |contents| ==> Transposable(contents[j])
    ensures Assemble(contents).Ok? ==>
      && GetValidatedClassnames(contents).Ok?
      && forall i :: 0 <= i < |contents| ==> ParseContents(contents[i], GetValidatedClassnames(contents).value.1[i]).Ok?
    ensures GetValidatedClassnames(contents).Ok? ==>
      var names := GetValidatedClassnames(contents).value;
      DistinctPairs(names.0, names.1)
      && (forall i :: 0 <= i < |contents| ==> ParseContents(contents[i], names.1[i]).Ok?)
      ==> Assemble(contents).Ok?
  {
    if GetValidatedClassnames(contents).Ok? {
      var names := GetValidatedClassnames(contents).value;
      FoldParses(map[], contents, names.0, names.1);
      if DistinctPairs(names.0, names.1) {
        FoldOutcome(map[], contents, names.0, names.1);
      }
    }
  }

  /** The aggregate mapping before it is rebuilt as `AttrDict`s. */
  function LoadTree(files: map<string, Json>, order: seq<string>, rules: RuleSet): (r: Py<map<string, Json>>)
    requires forall f :: f in order ==> f in files
    ensures r.Ok? ==> AcceptedNames(order, files, rules).Ok?
    ensures r.Ok? ==> var names := AcceptedNames(order, files, rules).value;
      && |names.0| == |names.1| == |AcceptedContents(order, files, rules)|
      && (forall f :: f in r.value <==> f == "Contains" || f in names.0)
      && r.value["Contains"] == ContainsEntry(names.0, names.1)
      && forall i :: 0 <= i < |names.0| && names.0[i] != "Contains" ==> Holds(r.value, names.0[i], names.1[i])
    ensures (exists i :: 0 <= i < |order| && Validate(files[order[i]], rules).Raise?) ==> r.Raise?
  {
    var contents :- ValidatedContents(order, files, rules);
    forall i | 0 <= i < |contents| ensures Transposable(contents[i]) {
      AcceptedTransposable(contents[i], rules);
    }
    Assemble(contents)
  }

  /** A class the plain tree holds is reachable as `tree.family.cls` on the
      rebuilt one. */
  lemma ClassReachable(tree: map<string, Json>, family: string, cls: string)
    requires Holds(tree, family, cls)
    ensures SelectPath(FromNestedDict(JObj(tree)), [family, cls]).Some?
  {
    PathAgrees(JObj(tree), [family, cls]);
    assert JsonPath(JObj(tree), [family, cls]) == JsonPath(tree[family], [cls]);
    assert JsonPath(tree[family], [cls]) == JsonPath(tree[family].fields[cls], []);
  }

  /** The directory branch of `load_svds`. */
  function LoadDirectory(listing: set<string>, files: map<string, Json>, order: seq<string>, rules: RuleSet)
    : (r: Py<Attr>)
    requires ReadOrder(order, listing, rules.fileNames)
    requires forall f :: f in listing && f in rules.fileNames ==> f in files
    ensures r.Ok? ==> AcceptedNames(order, files, rules).Ok?
    ensures r.Ok? ==> var names := AcceptedNames(order, files, rules).value;
      && r.value.Node?
      && (forall f :: f in r.value.children <==> f == "Contains" || f in names.0)
      && Select(r.value, "Contains") == Some(Node(map["Family" := Leaf(JArr(Strs(names.0))),
                                                      "Class" := Leaf(JArr(Strs(names.1)))]))
      && forall i :: 0 <= i < |names.0| && names.0[i] != "Contains" ==>
           SelectPath(r.value, [names.0[i], names.1[i]]).Some?
    ensures (exists i :: 0 <= i < |order| && Validate(files[order[i]], rules).Raise?) ==> r.Raise?
  {
    var tree :- LoadTree(files, order, rules);
    var t := FromNestedDict(JObj(tree));
    ghost var names := AcceptedNames(order, files, rules).value;
    assert t.children["Contains"] == FromNestedDict(tree["Contains"]);
    ContainsWrapped(names.0, names.1);
    forall i | 0 <= i < |names.0| && names.0[i] != "Contains"
      ensures SelectPath(t, [names.0[i], names.1[i]]).Some?
    {
      ClassReachable(tree, names.0[i], names.1[i]);
    }
    Ok(t)
  }

  /** The directory branch completes exactly when validation and the
      assembly of the accepted documents do. */
  lemma LoadThroughAssemble(listing: set<string>, files: map<string, Json>, order: seq<string>, rules: RuleSet)
    requires ReadOrder(order, listing, rules.fileNames)
    requires forall f :: f in listing && f in rules.fileNames ==> f in files
    ensures forall j :: 0 <= j < |AcceptedContents(order, files, rules)| ==> Transposable(AcceptedContents(order, files, rules)[j])
    ensures LoadDirectory(listing, files, order, rules).Ok? <==>
              ValidatedContents(order, files, rules).Ok? && Assemble(AcceptedContents(order, files, rules)).Ok?
  {
    var contents := AcceptedContents(order, files, rules);
    forall j | 0 <= j < |contents| ensures Transposable(contents[j]) {
      AcceptedTransposable(contents[j], rules);
    }
  }

  /** The directory branch completes only if no validation raises, the
      accepted documents can be named and each one's `parse_contents`
      completes; when no two accepted documents share a family/class pair,
      that is also enough. */
  lemma LoadOutcome(listing: set<string>, files: map<string, Json>, order: seq<string>, rules: RuleSet)
    requires ReadOrder(order, listing, rules.fileNames)
    requires forall f :: f in listing && f in rules.fileNames ==> f in files
    ensures LoadDirectory(listing, files, order, rules).Ok? ==>
      && (forall i :: 0 <= i < |order| ==> Validate(files[order[i]], rules).Ok?)
      && AcceptedNames(order, files, rules).Ok?
      && var contents := AcceptedContents(order, files, rules);
         forall i :: 0 <= i < |contents| ==>
           Transposable(contents[i]) && ParseContents(contents[i], AcceptedNames(order, files, rules).value.1[i]).Ok?
    ensures (forall i :: 0 <= i < |order| ==> Validate(files[order[i]], rules).Ok?)
            && AcceptedNames(order, files, rules).Ok? ==>
      var contents := AcceptedContents(order, files, rules);
      var names := AcceptedNames(order, files, rules).value;
      DistinctPairs(names.0, names.1)
      && (forall i :: 0 <= i < |contents| ==> Transposable(contents[i]) && ParseContents(contents[i], names.1[i]).Ok?)
      ==> LoadDirectory(listing, files, order, rules).Ok?
  {
    LoadThroughAssemble(listing, files, order, rules);
    AssembleOutcome(AcceptedContents(order, files, rules));
  }

  /** `svds.Family.Class` is the document's `parse_contents` data, rebuilt
      as `AttrDict`s (the usage promised at iop_svds.py:25-33), for a
      document whose family is not `Contains` and whose family/class pair
      no other accepted document shares. */
  lemma ClassData(listing: set<string>, files: map<string, Json>, order: seq<string>, rules: RuleSet, i: nat)
    requires ReadOrder(order, listing, rules.fileNames)
    requires forall f :: f in listing && f in rules.fileNames ==> f in files
    ensures LoadDirectory(listing, files, order, rules).Ok? ==>
      var contents := AcceptedContents(order, files, rules);
      var names := AcceptedNames(order, files, rules).value;
      i < |contents| && names.0[i] != "Contains"
      && (forall j :: 0 <= j < |contents| && j != i ==> names.0[j] != names.0[i] || names.1[j] != names.1[i])
      ==> && Transposable(contents[i])
          && ParseContents(contents[i], names.1[i]).Ok?
          && SelectPath(LoadDirectory(listing, files, order, rules).value, [names.0[i], names.1[i]])
             == Some(FromNestedDict(ParseContents(contents[i], names.1[i]).value[names.1[i]]))
  {
    if LoadDirectory(listing, files, order, rules).Ok? {
      var contents := AcceptedContents(order, files, rules);
      var names := AcceptedNames(order, files, rules).value;
      if i < |contents| && names.0[i] != "Contains"
         && forall j :: 0 <= j < |contents| && j != i ==> names.0[j] != names.0[i] || names.1[j] != names.1[i]
      {
        var f, c := names.0[i], names.1[i];
        forall j | 0 <= j < |contents| ensures Transposable(contents[j]) {
          AcceptedTransposable(contents[j], rules);
        }
        var tree := LoadTree(files, order, rules).value;
        assert tree == Assemble(contents).value;
        AssembleData(contents, i);
        PathAgrees(JObj(tree), [f, c]);
        assert JsonPath(JObj(tree), [f, c]) == JsonPath(tree[f], [c]);
        assert JsonPath(tree[f], [c]) == JsonPath(tree[f].fields[c], []);
      }
    }
  }
}
