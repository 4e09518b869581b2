/** The SVDS validator: `SVDSValidator.load_content` and `is_svds` with the
    checks they run, over an already parsed JSON document. The four rule
    documents are passed in as a `RuleSet`; log lines are dropped except the
    missing-field sets, which are returned. */
module Validation {
  import opened Outcomes
  import opened Json

  /** The rule documents, read once and never changed. */
  datatype RuleSet = RuleSet(
    fileNames: set<string>,                // fixed_file_names
    classNames: set<string>,               // fixed_class_names: full "Family::Class" strings
    originRules: set<string>,              // fixed_origin_rules
    classRules: map<string, set<string>>)  // the Required names of each class in svds_class_rules

  const TagRequired: set<string> := {"Tag", "Required"}
  const TagRequiredOptional: set<string> := {"Tag", "Required", "Optional"}

  /** The fields of a validator once `load_content` has run. */
  datatype Validator = Validator(content: Json, singleton: bool) {
    predicate Loaded() {
      !content.JInt? && (singleton <==> Len(content) == Ok(1))
    }
  }

  /** The document has exactly one top-level entry: one key, one element or
      one character. */
  ghost predicate OneEntry(v: Json) {
    || (v.JObj? && exists k :: k in v.fields && v.fields.Keys == {k})
    || (v.JArr? && exists x :: x in v.items && v.items == [x])
    || (v.JStr? && exists c :: c in v.s && v.s == [c])
  }

  lemma OneKey<V>(m: map<string, V>)
    ensures |m| == 1 <==> exists k :: k in m && m.Keys == {k}
  {
    if |m| == 1 {
      var k :| k in m;
      assert |m.Keys - {k}| == 0;
      assert m.Keys == {k};
    }
  }

  /** `load_content`: `len` raises on an integer document. */
  function LoadContent(content: Json): (r: Py<Validator>)
    ensures r.Raise? <==> content.JInt?
    ensures r.Ok? ==> r.value.content == content && r.value.Loaded()
    ensures r.Ok? ==> (r.value.singleton <==> OneEntry(content))
  {
    var n :- Len(content);
    if content.JObj? then OneKey(content.fields); Ok(Validator(content, n == 1))
    else if content.JArr? then
      assert |content.items| == 1 ==> content.items == [content.items[0]];
      Ok(Validator(content, n == 1))
    else
      assert |content.s| == 1 ==> content.s == [content.s[0]];
      Ok(Validator(content, n == 1))
  }

  /*** Generators ***/

  /** `all(g)` for a generator `g` of lazily evaluated tests, resumed at
      position `pos`: the answer and the position `g` is left at. `all`
      stops after the first false test, and a test that raises propagates. */
  function AllFrom(tests: seq<Py<bool>>, pos: nat): (r: Py<(bool, nat)>)
    requires pos <= |tests|
    decreases |tests| - pos
    ensures r.Ok? && r.value.0 ==>
      r.value.1 == |tests| && forall i :: pos <= i < |tests| ==> tests[i] == Ok(true)
    ensures r.Ok? && !r.value.0 ==>
      && pos < r.value.1 <= |tests|
      && tests[r.value.1 - 1] == Ok(false)
      && forall i :: pos <= i < r.value.1 - 1 ==> tests[i] == Ok(true)
    ensures r.Raise? ==>
      exists j :: pos <= j < |tests| && tests[j] == Raise(r.error) && forall i :: pos <= i < j ==> tests[i] == Ok(true)
  {
    if pos == |tests| then Ok((true, pos))
    else match tests[pos]
      case Raise(e) => Raise(e)
      case Ok(b) => if b then AllFrom(tests, pos + 1) else Ok((false, pos + 1))
  }

  /** `any(g)` for a fresh generator resumed at `pos`: stops at the first
      true test. */
  function AnyFrom(tests: seq<Py<bool>>, pos: nat): (r: Py<bool>)
    requires pos <= |tests|
    decreases |tests| - pos
    ensures r == Ok(false) ==> forall i :: pos <= i < |tests| ==> tests[i] == Ok(false)
    ensures r == Ok(true) ==>
      exists j :: pos <= j < |tests| && tests[j] == Ok(true) && forall i :: pos <= i < j ==> tests[i] == Ok(false)
    ensures r.Raise? ==>
      exists j :: pos <= j < |tests| && tests[j] == Raise(r.error) && forall i :: pos <= i < j ==> tests[i] == Ok(false)
  {
    if pos == |tests| then Ok(false)
    else match tests[pos]
      case Raise(e) => Raise(e)
      case Ok(b) => if b then Ok(true) else AnyFrom(tests, pos + 1)
  }

  /*** _is_uniform_main_keys ***/

  /** `set(name.keys()) == shape` for one iterated element. */
  function ShapeTest(x: Json, shape: set<string>): (r: Py<bool>) {
    var ks :- Keys(x);
    Ok(ks == shape)
  }

  /** The generator `(set(name.keys()) == shape for name in self.content)`. */
  function ShapeTests(it: Iteration, shape: set<string>): (r: seq<Py<bool>>) {
    match it
    case Items(xs) => seq(|xs|, i requires 0 <= i < |xs| => ShapeTest(xs[i], shape))
    case Strings(n) => seq(n, _ => Raise(AttributeError))
  }

  /** Every iterated element is a mapping whose key set is `shape`. */
  ghost predicate AllShaped(it: Iteration, shape: set<string>) {
    match it
    case Items(xs) => forall i :: 0 <= i < |xs| ==> xs[i].JObj? && xs[i].fields.Keys == shape
    case Strings(n) => n == 0
  }

  /** What the generator's tests say about the elements. */
  lemma ShapeTestsMeaning(it: Iteration, shape: set<string>)
    ensures var tests := ShapeTests(it, shape);
      (forall i :: 0 <= i < |tests| ==> tests[i] == Ok(true)) <==> AllShaped(it, shape)
    ensures var tests := ShapeTests(it, shape);
      forall i :: 0 <= i < |tests| && tests[i] == Ok(false) ==> !AllShaped(it, shape)
  {
    var tests := ShapeTests(it, shape);
    if it.Items? {
      if forall i :: 0 <= i < |tests| ==> tests[i] == Ok(true) {
        forall i | 0 <= i < |it.items| ensures it.items[i].JObj? && it.items[i].fields.Keys == shape {
          assert tests[i] == ShapeTest(it.items[i], shape);
        }
      }
    } else if it.count > 0 {
      assert tests[0] == Raise(AttributeError);
    }
  }

  /** The outcome of the key-shape check and the `optional_stored` flag it
      leaves; `None` when the flag is never assigned. */
  datatype KeyShape = KeyShape(uniform: bool, optionalStored: Option<bool>)

  /** `_is_uniform_main_keys` as intended: every `all` runs on a fresh
      generator. The {Tag, Required} shape is tried first, so an empty
      document leaves `optional_stored` false. */
  function UniformMainKeys(it: Iteration): (r: Py<KeyShape>)
    ensures r.Ok? ==> (r.value.uniform <==> AllShaped(it, TagRequired) || AllShaped(it, TagRequiredOptional))
    ensures r.Ok? ==> (r.value.optionalStored == Some(false) <==> AllShaped(it, TagRequired))
    ensures r.Ok? ==> (r.value.optionalStored == Some(true) <==> AllShaped(it, TagRequiredOptional) && !AllShaped(it, TagRequired))
    ensures r.Ok? ==> (r.value.optionalStored.Some? <==> r.value.uniform)
    ensures AllShaped(it, TagRequired) || AllShaped(it, TagRequiredOptional) ==> r.Ok?
    ensures r.Raise? ==> r.error == AttributeError
  {
    ShapeTestsMeaning(it, TagRequired);
    ShapeTestsMeaning(it, TagRequiredOptional);
    var withoutOptional :- AllFrom(ShapeTests(it, TagRequired), 0);
    if withoutOptional.0 then Ok(KeyShape(true, Some(false)))
    else
      var withOptional :- AllFrom(ShapeTests(it, TagRequiredOptional), 0);
      if withOptional.0 then Ok(KeyShape(true, Some(true))) else Ok(KeyShape(false, None))
  }

  /** `_is_uniform_main_keys` as written: `cond1` and `cond2` are generator
      objects, so the `all` calls at lines 59 and 62 resume where the
      earlier calls left them instead of starting over. */
  function UniformMainKeysAsWritten(it: Iteration): (r: Py<KeyShape>) {
    var cond1 := ShapeTests(it, TagRequiredOptional);
    var cond2 := ShapeTests(it, TagRequired);
    var line52 :- AllFrom(cond2, 0);
    if line52.0 then ResumedChecks(cond1, 0, cond2, line52.1, Some(false))
    else
      var line55 :- AllFrom(cond1, 0);
      ResumedChecks(cond1, line55.1, cond2, line52.1, if line55.0 then Some(true) else None)
  }

  /** Lines 59 and 62: `any([all(cond1), all(cond2)])` twice, on generators
      left at `pos1` and `pos2`; the second answer is returned. */
  function ResumedChecks(cond1: seq<Py<bool>>, pos1: nat, cond2: seq<Py<bool>>, pos2: nat,
                         flag: Option<bool>): (r: Py<KeyShape>)
    requires pos1 <= |cond1| && pos2 <= |cond2|
  {
    var all1 :- AllFrom(cond1, pos1);
    var all2 :- AllFrom(cond2, pos2);
    var again1 :- AllFrom(cond1, all1.1);
    var again2 :- AllFrom(cond2, all2.1);
    Ok(KeyShape(again1.0 || again2.0, flag))
  }

  /*** _is_a_valid_class ***/

  /** `x['Tag']['Class']`, or None where the lookup raises. */
  function TagClass(x: Json): (r: Option<Json>)
    ensures r.Some? <==> x.JObj? && "Tag" in x.fields && x.fields["Tag"].JObj? && "Class" in x.fields["Tag"].fields
    ensures r.Some? ==> r.value == x.fields["Tag"].fields["Class"]
  {
    match Index(x, "Tag")
    case Raise(_) => None
    case Ok(tag) =>
      match Index(tag, "Class")
      case Raise(_) => None
      case Ok(c) => Some(c)
  }

  /** `cond1` of `_is_a_valid_class` with the `Tag.Class` it stores: the
      value every element shares, or None. The bare `except` turns every
      failed lookup into None. */
  function SharedClass(content: Json, singleton: bool): (r: Option<Json>) {
    if singleton then TagClass(content)
    else match First(content)
      case Raise(_) => None
      case Ok(first) =>
        match TagClass(first)
        case None => None
        case Some(c) =>
          match content
          case JArr(xs) => if forall i | 0 <= i < |xs| :: TagClass(xs[i]) == Some(c) then Some(c) else None
          case _ => None
  }

  /** Every element of a list document carries `Tag.Class == s`. */
  ghost predicate ClassOfAll(content: Json, s: string) {
    content.JArr? && |content.items| > 0 &&
    forall i :: 0 <= i < |content.items| ==> TagClass(content.items[i]) == Some(JStr(s))
  }

  /** `_is_a_valid_class`: the class string when the document's shared
      `Tag.Class` is a listed class name, else None. Membership is decided on
      the full "Family::Class" string. */
  function ValidClass(content: Json, singleton: bool, classNames: set<string>): (r: Option<string>)
    ensures r.Some? ==> r.value in classNames
    ensures r.Some? && !singleton ==> ClassOfAll(content, r.value)
    ensures r.Some? && singleton ==> TagClass(content) == Some(JStr(r.value))
    ensures forall s :: !singleton && s in classNames && ClassOfAll(content, s) ==> r == Some(s)
    ensures singleton && TagClass(content).Some? && TagClass(content).value.JStr? && TagClass(content).value.s in classNames
            ==> r == Some(TagClass(content).value.s)
  {
    match SharedClass(content, singleton)
    case Some(JStr(s)) => if s in classNames then Some(s) else None
    case _ => None
  }

  /*** _is_the_class_valid ***/

  /** `set(elem['Required'].keys())`, or None where it raises. */
  function RequiredKeys(x: Json): (r: Option<set<string>>) {
    if x.JObj? && "Required" in x.fields && x.fields["Required"].JObj?
    then Some(x.fields["Required"].fields.Keys) else None
  }

  /** The test at line 126 (`subset` false) or line 142 (`subset` true) on
      one element; `rule` is None when `this_class_rules` was never bound. */
  function RequiredTest(x: Json, rule: Option<set<string>>, subset: bool): (r: Py<bool>) {
    var required :- Index(x, "Required");
    var ks :- Keys(required);
    if rule.None? then Raise(NameError)
    else Ok(if subset then ks <= rule.value else ks == rule.value)
  }

  /** The generator of those tests over the document; a string element
      cannot be subscripted by 'Required'. */
  function RequiredTests(it: Iteration, rule: Option<set<string>>, subset: bool): (r: seq<Py<bool>>) {
    match it
    case Items(xs) => seq(|xs|, i requires 0 <= i < |xs| => RequiredTest(xs[i], rule, subset))
    case Strings(n) => seq(n, _ => Raise(TypeError))
  }

  /** Every element of a list document has a `Required` mapping whose key
      set is exactly `rule`. */
  ghost predicate FieldsMatch(content: Json, rule: set<string>) {
    content.JArr? && forall i :: 0 <= i < |content.items| ==> RequiredKeys(content.items[i]) == Some(rule)
  }

  /** What the line-126 tests say about a document, once the rule is bound. */
  lemma RequiredTestsMeaning(content: Json, rule: Option<set<string>>)
    requires !content.JInt?
    ensures var tests := RequiredTests(Members(content), rule, false);
      rule.Some? ==>
        (content.JArr? && (forall i :: 0 <= i < |tests| ==> tests[i] == Ok(true)) <==> FieldsMatch(content, rule.value))
  {
    var tests := RequiredTests(Members(content), rule, false);
    if rule.Some? && content.JArr? && forall i :: 0 <= i < |tests| ==> tests[i] == Ok(true) {
      forall i | 0 <= i < |content.items| ensures RequiredKeys(content.items[i]) == Some(rule.value) {
        assert tests[i] == RequiredTest(content.items[i], rule, false);
      }
    }
  }

  /** Lines 131-138: the rule's Required names that the first element lacks. */
  function MissingRequired(content: Json, singleton: bool, rule: Option<set<string>>): (r: Py<set<string>>) {
    if rule.None? then Raise(UnboundLocalError)
    else
      var holder :- if singleton then Ok(content) else First(content);
      var required :- Index(holder, "Required");
      var ks :- Keys(required);
      Ok(rule.value - ks)
  }

  /** The verdict of `_is_the_class_valid` and the missing-field set it logs. */
  datatype FieldCheck = FieldCheck(valid: bool, missing: Option<set<string>>)

  /** `_is_the_class_valid`, given the `optional_stored` flag (None when it
      was never assigned). */
  function ClassContent(content: Json, singleton: bool, optionalStored: Option<bool>, rules: RuleSet): (r: Py<FieldCheck>)
    ensures ValidClass(content, singleton, rules.classNames).None? ==> r == Ok(FieldCheck(false, None))
    ensures var c := ValidClass(content, singleton, rules.classNames);
      r.Ok? ==> (r.value.valid <==> c.Some? && c.value in rules.classRules && FieldsMatch(content, rules.classRules[c.value]))
    ensures var c := ValidClass(content, singleton, rules.classNames);
      c.Some? && c.value in rules.classRules && FieldsMatch(content, rules.classRules[c.value]) && optionalStored.Some?
      ==> r == Ok(FieldCheck(true, None))
    ensures var c := ValidClass(content, singleton, rules.classNames);
      r.Ok? && c.Some? && !r.value.valid ==>
        && content.JArr? && |content.items| > 0
        && c.value in rules.classRules && RequiredKeys(content.items[0]).Some?
        && r.value.missing == Some(rules.classRules[c.value] - RequiredKeys(content.items[0]).value)
    ensures r.Ok? && r.value.valid ==> r.value.missing.None?
    ensures optionalStored.None? ==> r.Raise? || r == Ok(FieldCheck(false, None))
  {
    match ValidClass(content, singleton, rules.classNames)
    case None => Ok(FieldCheck(false, None))
    case Some(cls) =>
      var rule := if cls in rules.classRules then Some(rules.classRules[cls]) else None;
      var it := Members(content);
      RequiredTestsMeaning(content, rule);
      var cond1 :- AllFrom(RequiredTests(it, rule, false), 0);
      var missing :- if cond1.0 then Ok(None) else
        var m :- MissingRequired(content, singleton, rule); Ok(Some(m));
      var cond2 :- match optionalStored
        case None => Raise(AttributeError)
        case Some(stored) => if stored then AnyFrom(RequiredTests(it, rule, true), 0) else Ok(true);
      Ok(FieldCheck(cond1.0 && cond2, missing))
  }

  /*** _is_origin_valid and is_svds ***/

  /** The verdict of `is_svds` and the missing-name set it logs, if any. */
  datatype Verdict = Verdict(valid: bool, missing: Option<set<string>>)

  /** `_is_origin_valid` on the value under 'Origin'. */
  function OriginValid(origin: Json, originRules: set<string>): (r: Py<Verdict>)
    ensures r.Ok? <==> origin.JObj?
    ensures r.Ok? ==> (r.value.valid <==> origin.fields.Keys == originRules)
    ensures r.Ok? && !r.value.valid ==> r.value.missing == Some(originRules - origin.fields.Keys)
    ensures r.Ok? && r.value.valid ==> r.value.missing.None?
  {
    var ks :- Keys(origin);
    if ks == originRules then Ok(Verdict(true, None))
    else Ok(Verdict(false, Some(originRules - ks)))
  }

  /*** What the validator accepts ***/

  /** An `Origin` document: one key, 'Origin', holding a mapping whose key
      set is exactly the origin rules. */
  ghost predicate OriginAccepted(content: Json, originRules: set<string>) {
    && content.JObj? && content.fields.Keys == {"Origin"}
    && content.fields["Origin"].JObj? && content.fields["Origin"].fields.Keys == originRules
  }

  /** A list document of at least two mappings that all have the key set
      {Tag, Required} or all {Tag, Required, Optional}, all carry the same
      listed `Tag.Class` that has a class rule, and whose `Required`
      mappings all have exactly the rule's names. */
  ghost predicate ListAccepted(content: Json, rules: RuleSet) {
    && content.JArr? && |content.items| >= 2
    && (AllShaped(Items(content.items), TagRequired) || AllShaped(Items(content.items), TagRequiredOptional))
    && exists s :: s in rules.classNames && s in rules.classRules
                   && ClassOfAll(content, s) && FieldsMatch(content, rules.classRules[s])
  }

  /** The documents the validator accepts. */
  ghost predicate Accepted(content: Json, rules: RuleSet) {
    OriginAccepted(content, rules.originRules) || ListAccepted(content, rules)
  }

  /*** The key-shape finding ***/

  /** Whenever the intended check finds the document uniform, the
      as-written check returns the same outcome and flag. */
  lemma AsWrittenAgreesWhenUniform(it: Iteration)
    ensures UniformMainKeys(it).Ok? && UniformMainKeys(it).value.uniform
            ==> UniformMainKeysAsWritten(it) == UniformMainKeys(it)
  {
  }

  /** The as-written check completes only where the intended one does, and
      leaves the same `optional_stored`; its answer differs only when that
      flag stays unset. */
  lemma AsWrittenSameFlag(it: Iteration)
    requires UniformMainKeysAsWritten(it).Ok?
    ensures UniformMainKeys(it).Ok?
    ensures UniformMainKeysAsWritten(it).value.optionalStored == UniformMainKeys(it).value.optionalStored
    ensures UniformMainKeysAsWritten(it).value.uniform != UniformMainKeys(it).value.uniform
            ==> UniformMainKeys(it).value.optionalStored.None?
  {
    var cond1 := ShapeTests(it, TagRequiredOptional);
    var cond2 := ShapeTests(it, TagRequired);
    var line52 := AllFrom(cond2, 0);
    assert line52.Ok?;
    if !line52.value.0 {
      assert AllFrom(cond1, 0).Ok?;
    }
  }

  /*** is_svds ***/

  /** Lines 41-45 with the intended key-shape check: all three checks run,
      in order, and the verdict is their conjunction. */
  function ListChecks(v: Validator, rules: RuleSet): (r: Py<Verdict>)
    requires v.Loaded()
    ensures !v.singleton ==> ((r.Ok? && r.value.valid) <==> ListAccepted(v.content, rules))
  {
    var shape :- UniformMainKeys(Members(v.content));
    var cls := ValidClass(v.content, v.singleton, rules.classNames);
    var fields :- ClassContent(v.content, v.singleton, shape.optionalStored, rules);
    Ok(Verdict(shape.uniform && cls.Some? && fields.valid, fields.missing))
  }

  /** Lines 41-45 as written, with the resumed key-shape generators. A
      wrong key-shape answer never reaches the verdict: with
      `optional_stored` unset, line 140 raises or the class check has
      already failed. So whenever these checks complete they agree with
      the intended ones, and they complete on every list those accept. */
  function ListChecksAsWritten(v: Validator, rules: RuleSet): (r: Py<Verdict>)
    requires v.Loaded()
    ensures r.Ok? ==> r == ListChecks(v, rules)
    ensures ListChecks(v, rules).Ok? && ListChecks(v, rules).value.valid ==> r == ListChecks(v, rules)
  {
    var it := Members(v.content);
    AsWrittenAgreesWhenUniform(it);
    var shape :- UniformMainKeysAsWritten(it);
    AsWrittenSameFlag(it);
    var cls := ValidClass(v.content, v.singleton, rules.classNames);
    var fields :- ClassContent(v.content, v.singleton, shape.optionalStored, rules);
    Ok(Verdict(shape.uniform && cls.Some? && fields.valid, fields.missing))
  }

  /** `is_svds`: only a one-key mapping whose key is 'Origin' is
      special-cased; everything else goes through the list checks as
      written. It accepts exactly the documents `Accepted` describes. */
  function IsSvds(v: Validator, rules: RuleSet): (r: Py<Verdict>)
    requires v.Loaded()
    ensures (r.Ok? && r.value.valid) <==> Accepted(v.content, rules)
  {
    if v.singleton then
      match v.content
      case JObj(m) =>
        if "Origin" in m then OneKey(m); OriginValid(m["Origin"], rules.originRules)
        else ListChecksAsWritten(v, rules)
      case _ => Raise(AttributeError)
    else ListChecksAsWritten(v, rules)
  }

  /** `load_content(content)` followed by `is_svds()`. */
  function Validate(content: Json, rules: RuleSet): (r: Py<Verdict>)
    ensures (r.Ok? && r.value.valid) <==> Accepted(content, rules)
    ensures content.JInt? ==> r == Raise(TypeError)
  {
    var v :- LoadContent(content);
    IsSvds(v, rules)
  }
}
