/** What the validator accepts, rejects and raises on, stated over whole
    documents, and the inputs that exhibit the key-shape finding. */
module ValidationFacts {
  import opened Outcomes
  import opened Json
  import opened Validation

  /** An `Origin` document is judged by its key set against the origin
      rules alone: no other check runs and no other rule is read. */
  lemma OriginBranch(content: Json, rules: RuleSet)
    requires content.JObj? && content.fields.Keys == {"Origin"}
    ensures var origin := content.fields["Origin"]; var r := Validate(content, rules);
      && (r.Ok? <==> origin.JObj?)
      && (r.Ok? ==> r.value == if origin.fields.Keys == rules.originRules then Verdict(true, None)
                               else Verdict(false, Some(rules.originRules - origin.fields.Keys)))
  {
  }

  /** The verdict on an `Origin` document does not depend on the class
      names, the class rules or the file names. */
  lemma OriginIgnoresOtherRules(content: Json, rules: RuleSet, other: RuleSet)
    requires content.JObj? && content.fields.Keys == {"Origin"}
    requires other.originRules == rules.originRules
    ensures Validate(content, other) == Validate(content, rules)
  {
  }

  /** A mapping document other than an `Origin` singleton (a `Study`
      singleton, or a lone SVDS object with its two or three keys) is
      iterated as though it were a list, and `.keys()` on its first key
      string raises. */
  lemma MappingDocumentRaises(content: Json, rules: RuleSet)
    requires content.JObj? && |content.fields| > 0
    requires |content.fields| == 1 ==> "Origin" !in content.fields
    ensures Validate(content, rules) == Raise(AttributeError)
  {
  }

  /** A one-element list document is a singleton, and `.keys()` on a list
      raises before any check runs. */
  lemma SingletonListRaises(x: Json, rules: RuleSet)
    ensures Validate(JArr([x]), rules) == Raise(AttributeError)
  {
  }

  /** On a list whose every element has a `Required` mapping, both
      `Required` generators run to the end without raising. */
  lemma RequiredChecksComplete(content: Json, rules: RuleSet, s: string, stored: bool)
    requires content.JArr? && |content.items| >= 2
    requires s in rules.classNames && s in rules.classRules && ClassOfAll(content, s)
    requires forall i :: 0 <= i < |content.items| ==> RequiredKeys(content.items[i]).Some?
    ensures ClassContent(content, false, Some(stored), rules).Ok?
  {
  }

  /** A well-shaped list of a described class whose elements' `Required`
      key sets do not all match the rule is rejected, and the diagnostic is
      the rule's names missing from the first element. */
  lemma MismatchedRequiredRejected(content: Json, rules: RuleSet, s: string)
    requires content.JArr? && |content.items| >= 2
    requires AllShaped(Items(content.items), TagRequired) || AllShaped(Items(content.items), TagRequiredOptional)
    requires s in rules.classNames && s in rules.classRules && ClassOfAll(content, s)
    requires forall i :: 0 <= i < |content.items| ==> RequiredKeys(content.items[i]).Some?
    requires exists i :: 0 <= i < |content.items| && RequiredKeys(content.items[i]) != Some(rules.classRules[s])
    ensures Validate(content, rules)
            == Ok(Verdict(false, Some(rules.classRules[s] - RequiredKeys(content.items[0]).value)))
  {
    assert ValidClass(content, false, rules.classNames) == Some(s);
    var shape := UniformMainKeys(Items(content.items));
    assert shape.Ok? && shape.value.uniform && shape.value.optionalStored.Some?;
    AsWrittenAgreesWhenUniform(Items(content.items));
    RequiredChecksComplete(content, rules, s, shape.value.optionalStored.value);
  }

  /** The subset test of line 142 never changes the verdict: whenever it
      completes, the result is the one a document without `Optional` gets. */
  lemma OptionalTestNeverDecides(content: Json, singleton: bool, rules: RuleSet)
    ensures ClassContent(content, singleton, Some(true), rules).Ok? ==>
            ClassContent(content, singleton, Some(true), rules) == ClassContent(content, singleton, Some(false), rules)
  {
  }

  /*** The key-shape finding ***/

  /** Two mappings that only have a `Tag` key: the as-written check lets
      them through, the intended check does not. */
  lemma AsWrittenPassesMismatchedPair()
    ensures var x := JObj(map["Tag" := JInt(0)]);
      && UniformMainKeysAsWritten(Items([x, x])) == Ok(KeyShape(true, None))
      && UniformMainKeys(Items([x, x])) == Ok(KeyShape(false, None))
  {
  }

  /** A list whose first element has the wrong key set and whose second
      is not a mapping: the resumed generators reach the second element
      and `.keys()` raises, where the intended check rejects the file. */
  lemma AsWrittenRaisesOnRejectedList(rules: RuleSet)
    ensures var content := JArr([JObj(map["Tag" := JInt(0)]), JInt(5)]);
      && Validate(content, rules) == Raise(AttributeError)
      && ListChecks(Validator(content, false), rules) == Ok(Verdict(false, None))
  {
  }
}
