# SVDS validation and loading, modelled in Dafny

SVDS describes statistical results as JSON files. Each file is either an
`Origin` provenance record or a list of entries with `Tag`, `Required` and
optionally `Optional` sections. Every entry names its category as
`Tag.Class == "Family::Class"`.

This project models the pure logic of the loader and the validator. The
parsed JSON and the four rule documents come in as parameters, and nothing
reads the filesystem.

- `SVDSValidator` (`validation.py`). Modelled operations:
  - `load_content`: the singleton classification.
  - `is_svds` and its checks:
    - `_is_uniform_main_keys`;
    - `_is_a_valid_class`;
    - `_is_the_class_valid`;
    - `_is_origin_valid`.
  - The verdict is returned together with the missing-name set the
    validator logs.
- `iop_svds.py`. Modelled operations:
  - `get_validated_classnames`;
  - `parse_contents`;
  - `update`;
  - `AttrDict.from_nested_dict`;
  - the directory branch of `load_svds`, from the read set to the rebuilt
    tree: validate, name, normalise, merge, `Contains`.

Python's exceptions are part of the model. A call returns `Py<T>`, which is
either `Ok(value)` or `Raise(error)`. Where the source raises, the model
raises too, with the same built-in error wherever the source determines
it. For `update` the kind can depend on the iteration order of a mapping,
which the model does not keep; there the model raises a kind the source
raises for some order (see `Merge.Update` under "## Left out"). Nothing
in the directory branch catches errors, so the model aborts there too.

Modules:

| file | module | contents |
|---|---|---|
| `outcomes.dfy` | `Outcomes` | `Option`, `PyError`, `Py` |
| `json.dfy` | `Json` | the JSON tree and the Python built-ins applied to it (`len`, `.keys()`, subscripts, iteration) |
| `validation.dfy` | `Validation` | the validator |
| `validation_facts.dfy` | `ValidationFacts` | whole-document properties of the validator, and the inputs that exhibit the key-shape finding |
| `class_names.dfy` | `ClassNames` | `str.split("::")` and `get_validated_classnames` |
| `normalize.dfy` | `Normalize` | `parse_contents` |
| `merge.dfy` | `Merge` | `update` |
| `attr_tree.dfy` | `AttrTree` | `AttrDict.from_nested_dict`, and attribute paths |
| `loader.dfy` | `Loader` | the directory branch of `load_svds` |

The model follows the code, including these behaviours:

- The validator special-cases only an `Origin` singleton. A `Study`
  singleton goes through the list checks, and `.keys()` on its key string
  raises AttributeError (`ValidationFacts.MappingDocumentRaises`).
- A lone SVDS mapping has two or three keys, so it is not a singleton. It
  is iterated like a list, and that raises in the same way.
- The class-membership test and the rule lookup both use the full
  `"Family::Class"` string. Neither uses the class segment.
- The read set is not sorted. The order in which a Python set yields it is
  an input, `order`. It can be any enumeration of `listing ∩ fileNames`.
- `parse_contents` reads `contents['Origin']` before `contents['Study']`.
  So a `Study` document, or an `Origin` document with an empty value,
  raises KeyError.
- The validator can raise, and a raise aborts the whole load. Examples:
  - a `Study` document or a one-element list (AttributeError);
  - a listed class with no rule (NameError);
  - an unset `optional_stored` (AttributeError);
  - a list whose resumed key-shape generators reach a non-mapping, such as
    `[{"Tag": 0}, 5]` (AttributeError; see "## Findings").
- The validator is modelled as written, resumed generators included
  (`Validation.ListChecksAsWritten`), and the loader uses it. The intended
  key-shape check is `Validation.UniformMainKeys`, used by
  `Validation.ListChecks`. The two accept the same documents, and the
  as-written checks agree with the intended ones whenever they complete.

## Model

| member | source | states |
|---|---|---|
| Validation.LoadContent | validation.py:20-27 | `singleton` holds exactly when the document has one top-level entry (one key, one element or one character). The document is stored unchanged. An integer document makes `len` raise. |
| Validation.AllFrom | validation.py:52-62 | `all` over a generator resumed at a position. It answers true iff every remaining test is true, in which case the generator ends exhausted. Otherwise it stops just after the first false test, or propagates the first raise. |
| Validation.AnyFrom | validation.py:142 | `any` over a generator. It stops at the first true test, answers false only when every test is false, and propagates the first raise. |
| Validation.ShapeTestsMeaning | validation.py:49-50 | The key-set generator yields only true exactly when every element is a mapping with exactly the given key set. |
| Validation.UniformMainKeys | validation.py:47-62 | The key-shape check as intended, with each `all` on a fresh generator: the corrected half of the finding below. The check holds iff all elements have keys {Tag, Required} or all have {Tag, Required, Optional}. The {Tag, Required} case is tried first: `optional_stored` is false exactly when that shape holds, so an empty list also gives false. It is true only for the three-key shape, and unset exactly when the check fails. Only `.keys()` on a non-mapping raises. |
| Validation.TagClass | validation.py:79-80 | `x['Tag']['Class']` is defined exactly when `Tag` is a mapping holding `Class`, and it gives that value. |
| Validation.ValidClass | validation.py:64-101 | The returned class is a listed class name, and every element carries it as `Tag.Class`; for a singleton, the document itself does. Conversely, a listed class that every element carries is returned. A missing `Tag`/`Class` gives no class rather than an error. |
| Validation.RequiredTestsMeaning | validation.py:126 | Once the rule is bound, the line-126 generator yields only true exactly when the document is a list and every element's `Required` key set equals the rule. |
| Validation.ClassContent | validation.py:103-151 | The field check holds iff the class is valid, has a rule, and every element's `Required` keys equal it. With the flag set it then never raises. A failed check with a valid class reports the rule's names missing from the first element's `Required`. With `optional_stored` unset, it raises or reports an invalid class. |
| Validation.OriginValid | validation.py:153-168 | Valid iff the `Origin` mapping's key set equals the origin rules. Otherwise the diagnostic is the origin rules minus those keys. A non-mapping value raises. |
| Validation.AsWrittenAgreesWhenUniform | validation.py:49-62 | Whenever the intended check finds the keys uniform, the check as written returns the same outcome and flag. |
| Validation.AsWrittenSameFlag | validation.py:49-62 | The check as written completes only where the intended one does, and sets the same `optional_stored`. Its answer differs only when that flag stays unset. |
| Validation.ListChecks | validation.py:39-45 | The list checks with the intended key-shape check. On a non-singleton document the verdict is valid exactly when the document is a list of at least two mappings with one uniform key shape, one listed class with a rule shared by all, and `Required` key sets equal to that rule. |
| Validation.ListChecksAsWritten | validation.py:39-62 | The list checks with the resumed generators. Whenever they complete, verdict and diagnostic equal the intended ones. On every list the intended checks accept they complete with that verdict. |
| Validation.IsSvds | validation.py:29-45 | The verdict is valid exactly for two kinds of document. One is an `Origin` singleton whose keys match the origin rules. The other is a list that the intended list checks accept. |
| Validation.Validate | validation.py:20-45 | `load_content` then `is_svds` accepts exactly those two kinds of document. An integer document raises TypeError in `len`. |
| ValidationFacts.OriginBranch | validation.py:35-37 | An `Origin` singleton is judged by `_is_origin_valid` alone, with the exact verdict and diagnostic. |
| ValidationFacts.OriginIgnoresOtherRules | validation.py:35-37 | The verdict on an `Origin` singleton does not depend on the class names, class rules or file names. |
| ValidationFacts.MappingDocumentRaises | validation.py:35-49 | Any non-empty mapping document other than an `Origin` singleton raises AttributeError. This covers a `Study` singleton and a lone two- or three-key entry. |
| ValidationFacts.SingletonListRaises | validation.py:35 | A one-element list is a singleton, and `.keys()` on it raises AttributeError. |
| ValidationFacts.RequiredChecksComplete | validation.py:124-146 | When every element of a listed, ruled class has a `Required` mapping, both `Required` checks run to the end without raising. |
| ValidationFacts.MismatchedRequiredRejected | validation.py:124-146 | A well-shaped list of a described class is rejected when some element's `Required` keys differ from the rule. The diagnostic is the rule minus the first element's `Required` keys. |
| ValidationFacts.OptionalTestNeverDecides | validation.py:140-146 | With `optional_stored` true, the subset test changes neither the verdict nor the diagnostic whenever it completes. |
| ValidationFacts.AsWrittenPassesMismatchedPair | validation.py:49-62 | On two `{"Tag": 0}` mappings, the check as written reports uniform keys while the intended check does not. |
| ValidationFacts.AsWrittenRaisesOnRejectedList | validation.py:49-62 | On `[{"Tag": 0}, 5]` the validator as written raises AttributeError, while the intended list checks reject the file. |
| ClassNames.JoinSplit | iop_svds.py:150-151 | Joining the pieces of `s.split('::')` with "::" gives back `s`. |
| ClassNames.SplitFamilyClass | iop_svds.py:150-151 | `"F::C".split('::')` is `[F, C]` when neither part holds "::" and `F` does not end in ':'. |
| ClassNames.SplitFromCuts | iop_svds.py:150-151 | The scan from position i cuts at least once exactly when a "::" starts at or after i. |
| ClassNames.SplitCuts | iop_svds.py:150-151 | `s.split('::')` has a second piece exactly when `s` holds "::". |
| ClassNames.FromTagClass | iop_svds.py:150-151 | Segments 0 and 1 exist exactly when `Tag.Class` is a string that holds "::". Otherwise a non-string raises AttributeError and a string without "::" raises IndexError. Segment 0 is the family, and "family::rest" reassembles the string. |
| ClassNames.NameOf | iop_svds.py:139-158 | The names of one document. An `Origin` singleton is ('Description', 'Origin') and a `Study` singleton ('Description', 'Study'). A list of more than one element takes segments 0 and 1 of its first element's `Tag.Class` split on "::", and raises IndexError when there is no segment 1. An empty document re-uses the previous names, or raises UnboundLocalError when there are none. An integer raises TypeError. |
| ClassNames.NamesFrom | iop_svds.py:139-158 | One name pair per document, in order. Each non-empty document gets its own loop-body result, and when every document yields a name there is no error. |
| ClassNames.GetValidatedClassnames | iop_svds.py:130-160 | The family and class lists are as long as the input and index-aligned with it. Entry i is document i's name pair. |
| Normalize.AllKeys | iop_svds.py:169-171 | Every key of every mapping element is collected. |
| Normalize.AllKeysWitness | iop_svds.py:169-171 | Every collected key comes from some mapping element. With `AllKeys`, a key is collected iff some element has it. |
| Normalize.Column | iop_svds.py:169-171 | A column holds at most one value per element, so it is no longer than the document. |
| Normalize.ColumnAbsent | iop_svds.py:169-171 | A key that no element has gets an empty column. |
| Normalize.UniformColumn | iop_svds.py:169-171 | When every element is a mapping with the same key set, every column has one value per element, in element order. |
| Normalize.Transpose | iop_svds.py:168-171 | Every key of a mapping element is a key of `tmpdict`, and each entry is a list no longer than the document. |
| Normalize.TransposeKeys | iop_svds.py:168-171 | A key is in `tmpdict` iff some mapping element has it. |
| Normalize.ParseContents | iop_svds.py:162-186 | The result always has the single key `cls`. A list of more than one mapping transposes to a mapping with the union of their keys. |
| Normalize.TransposeUniform | iop_svds.py:166-172 | Uniform mappings transpose to their key set. Each list has the document's length, and entry i is element i's value. |
| Normalize.ParseUniformList | iop_svds.py:166-172 | `parse_contents` on more than one uniform mapping gives `{cls: T}` with `T[k][i] == contents[i][k]` and `len(T[k]) == len(contents)`. |
| Normalize.RowOfTranspose | iop_svds.py:169-171 | Row i of the transposed mapping is element i. |
| Normalize.CellOfTranspose | iop_svds.py:169-171 | For uniform mappings, entry i of the list under `k` is element i's value under `k`. |
| Normalize.TransposeRoundTrip | iop_svds.py:166-172 | Reading the rows back out of the transposed mapping recovers every element. |
| Normalize.OriginStripped | iop_svds.py:174-176 | An `Origin` document with a non-empty value becomes `{cls: contents['Origin']}`. |
| Normalize.SingletonKeyErrors | iop_svds.py:174-180 | Two singletons raise KeyError: a `Study` document (any key other than `Origin`), and an `Origin` document whose value is empty. |
| Merge.Merge | iop_svds.py:207-216 | The merged keys are the union, and keys only in `d` keep their values. |
| Merge.Update | iop_svds.py:207-216 | Raises exactly when a mapping lands on a non-mapping that is not left empty, and then only AttributeError or TypeError, one that `update` raises for some iteration order of `u`. Otherwise the keys are the union, and keys only in `d` are unchanged. A non-mapping in `u` overwrites. A mapping on a mapping merges, so sub-keys absent from `u[k]` survive. A mapping on a missing key is copied in. |
| Merge.FailureKinds | iop_svds.py:211-215 | `update` fails iff it can raise TypeError or AttributeError for some iteration order, and it can raise nothing else. A mapping item on a non-mapping raises AttributeError in `.get`. Any other item raises TypeError in the item assignment. |
| Merge.MappingOnLeafRaisesAttributeError | iop_svds.py:212-213 | `{"C": {}}` landing on the string under `F` raises AttributeError, because `.get` runs before the assignment. |
| Merge.ValueOnLeafRaisesTypeError | iop_svds.py:214-215 | `{"C": 1}` landing on the string under `F` raises TypeError at the item assignment. |
| Merge.MergeIntoEmpty | iop_svds.py:211-215 | Merging into `{}` never raises and copies the source. |
| Merge.MergeDisjoint | iop_svds.py:207-216 | Sources with keys disjoint from the destination merge into the plain union. |
| Merge.MergeIdempotent | iop_svds.py:207-216 | Merging the same source twice equals merging it once, and the second merge cannot raise. |
| Merge.UpdateIdempotent | iop_svds.py:207-216 | `update(update(d, u), u) == update(d, u)`. |
| Merge.DistinctClassesKept | iop_svds.py:108-110 | Two fragments of one family with different class names, merged into `{}`, keep both classes unchanged. |
| AttrTree.FromNestedDict | iop_svds.py:199-205 | Non-mappings are returned unchanged. Mappings become nodes with the same keys, no mapping is left unwrapped, and the tree compares equal to its input. |
| AttrTree.FromNestedDictOfToJson | iop_svds.py:199-205 | Rebuilding the plain value of a wrapped tree gives the same tree. |
| AttrTree.PathAgrees | iop_svds.py:194-205 | A path of attribute lookups on the rebuilt tree finds what the same subscripts find on the plain mapping, rebuilt. |
| Loader.ValidatedContents | iop_svds.py:85-101 | The collected contents are exactly the accepted documents, in processing order. The loop raises iff the validator as written raises on some file. |
| Loader.AcceptedFrom | iop_svds.py:85-101 | A document is collected iff some file in the processing order holds it and the validator accepts it. |
| Loader.OnlyReadFilesContribute | iop_svds.py:74-101 | A document is collected iff it is held by a file that is both listed and a fixed file name, and the validator accepts it. |
| Loader.MergeStep | iop_svds.py:110 | After merging `{family: {cls: …}}`, `family.cls` is present, and every family/class present before still is. |
| Loader.Absorb | iop_svds.py:108-110 | When one document's step completes, it adds the document's family, makes its class addressable, and keeps the other entries. `AbsorbOutcome` says when the step completes. |
| Loader.MergeFragments | iop_svds.py:108-110 | When the fold completes, its keys are the families, every document's class is addressable under its family, and nothing already there is lost. `FoldParses` and `FoldOutcome` say when it completes. |
| Loader.FoldStep | iop_svds.py:108-110 | A fold that completes absorbed its first document and then folded the rest into the result. |
| Loader.AbsorbSets | iop_svds.py:108-110 | Absorbing a document whose family/class is not yet present puts its `parse_contents` data there unchanged. |
| Loader.AbsorbOthers | iop_svds.py:108-110 | Absorbing a document leaves every other family/class as it was, present with the same data or absent. |
| Loader.FoldOthers | iop_svds.py:108-110 | A fold over documents none of which names a family/class leaves that entry as it was. |
| Loader.FoldData | iop_svds.py:108-110 | After the fold, a document whose family/class no other document shares has its `parse_contents` data at that place. |
| Loader.AbsorbOutcome | iop_svds.py:108-110 | Into a tree with room for the pair (family absent, or a mapping without the class), one document's step completes exactly when its `parse_contents` does: `update` into an empty slot never raises. |
| Loader.AbsorbKeepsRoom | iop_svds.py:108-110 | Absorbing one family/class pair leaves room for every other pair that had room. |
| Loader.FoldParses | iop_svds.py:108-110 | A fold that completes ran every document's `parse_contents` without a raise: one raising document aborts the fold, whatever the other documents hold. |
| Loader.FoldOutcome | iop_svds.py:108-110 | When no two documents name the same family/class pair and the tree has room for each, the fold completes exactly when every `parse_contents` call does. |
| Loader.ContainsWrapped | iop_svds.py:113-116 | The `Contains` entry rebuilds to a node holding the two name lists as plain values. |
| Loader.Assemble | iop_svds.py:104-113 | When assembly completes, the tree's keys are `Contains` and the families, and `Contains` holds exactly the two name lists, overwriting any merged one. Each class is under its family, except under a family named `Contains`. `AssembleOutcome` says when assembly completes. |
| Loader.AssembleData | iop_svds.py:104-111 | When assembly completes, the data of a document whose family/class pair no other document shares is under `family.cls`, unless its family is `Contains`. |
| Loader.AssembleOutcome | iop_svds.py:104-111 | Assembly completes only if naming succeeds and every `parse_contents` call does. When no two documents share a family/class pair, these conditions are also sufficient. |
| Loader.LoadTree | iop_svds.py:74-113 | When the load completes, the same facts hold for the documents the validator accepts from the read set. A raise in any validation aborts the load, including the raise of the resumed key-shape generators. `LoadOutcome` says when the load completes. |
| Loader.ClassReachable | iop_svds.py:116 | A class the plain tree holds is reachable as `svds.Family.Class` on the rebuilt tree. |
| Loader.LoadDirectory | iop_svds.py:71-118 | When the load completes, the result is an `AttrDict` whose keys are `Contains` and the families, and `svds.Contains` holds the two name lists. `svds.Family.Class` resolves for every accepted document whose family is not `Contains`, since line 113 overwrites that family. A validator raise aborts the load. |
| Loader.LoadThroughAssemble | iop_svds.py:85-113 | The directory branch completes exactly when validating the read files completes and assembling the accepted documents does. |
| Loader.LoadOutcome | iop_svds.py:71-118 | The directory branch completes only if: no validation raises; the accepted documents can be named; and each one's `parse_contents` completes. When no two accepted documents share a family/class pair, these conditions are also sufficient. |
| Loader.ClassData | iop_svds.py:25-33 | When the load completes, `svds.Family.Class` is the document's `parse_contents` data rebuilt as `AttrDict`s. This holds for every accepted document whose family is not `Contains` and whose family/class pair no other accepted document shares. `LoadOutcome` gives the conditions under which such a load completes. |

## Left out

- Filesystem and JSON plumbing are out. This covers `listdir`, `isdir`/`isfile`, `open_json` and its `.json` extension check, `json.load`, and the reading of the four rule files (iop_svds.py:61-79, 121-128). The parsed rule documents come in as a `RuleSet`, and the parsed files as a map from file name to document.
- Logging is out. The only diagnostics kept are the missing-name sets, which are returned in the verdict.
- `svds.py` and `io.py` are not part of this model. They are a MATLAB loader and a duplicate JSON loader, both pure I/O.
- The recursive call for a file path (iop_svds.py:91, 121-128) is the file's parsed document, taken from `files`. A sub-directory in the read set would itself be loaded as a directory; that case is not modelled.
- JSON floats, booleans and null are not modelled. Only key shapes are inspected, so `JInt` stands for any scalar.
- `AttrDict.__init__`'s `__dict__` aliasing is not modelled. Attribute access `t.key` is modelled as the lookup `t[key]`.
- Python set iteration order is not modelled. The order of the read set is the input `order`, which can be any enumeration of `listing ∩ fileNames` without repeats.
- Normalize.ParseContents: requires that a list of more than one element holds no non-empty nested list. For such an element the comprehension at line 169 would subscript the nested list by its own elements, giving integer keys (or raising), and the string-keyed tree cannot hold integer keys. Accepted documents never contain such a list (`Loader.AcceptedTransposable`).
- Normalize.ParseContents: its contract states only the key set of the singleton branches. `OriginStripped` and `SingletonKeyErrors` give their exact results.
- Values inside `Required` and `Optional` are not checked, because the source inspects only key names.
- Validation.UniformMainKeysAsWritten: carries no contract of its own. Its behaviour is stated by `Validation.AsWrittenSameFlag`, `Validation.AsWrittenAgreesWhenUniform` and the two `ValidationFacts.AsWritten…` lemmas.
- Merge.Update: when a failing `update` could raise either AttributeError or TypeError, the kind depends on the iteration order of `u`, which a Dafny map does not keep. The model then raises TypeError, which the source raises for some order. Where only one kind is possible, the model raises that kind.
- Loader.ClassData: states the data of a family/class pair that only one accepted document names. Two accepted documents with the same pair are merged by `update`, and the merged value is not characterised.
- Loader.LoadOutcome: states only necessary conditions for completion when two accepted documents share a family/class pair. Whether the second `update` then completes depends on how the two fragments nest, which `Merge.Update` and `Merge.FailureKinds` characterise for any pair of mappings.

## Findings

| source | as written | input that shows it | evidently intended | confidence | as-written member | corrected member |
|---|---|---|---|---|---|---|
| validation.py:49-62 | `cond1` and `cond2` are generator expressions. Lines 52 and 55 partly consume them, so `all(cond1)` and `all(cond2)` at lines 59 and 62 resume where the earlier calls stopped. A document whose first element has the wrong key set can then pass this check. `is_svds` still never accepts such a document, because `optional_stored` is then unset. But the resumed generators reach elements the intended check never inspects. A non-mapping there makes `.keys()` raise, and `load_svds` aborts instead of dropping the file. The loader is modelled with this behaviour. | `[{"Tag": 0}, {"Tag": 0}]`: line 52 stops after element 0, and line 59 consumes element 1. At line 62 both generators are exhausted, so `all` of each is true, and the check reports uniform keys. `[{"Tag": 0}, 5]`: line 59 resumes at `5` and `5.keys()` raises AttributeError. | The check holds iff every element has keys {Tag, Required}, or every element has {Tag, Required, Optional}. Each `all` runs over a fresh generator. | not executed | Validation.UniformMainKeysAsWritten, Validation.ListChecksAsWritten, ValidationFacts.AsWrittenPassesMismatchedPair, ValidationFacts.AsWrittenRaisesOnRejectedList | Validation.UniformMainKeys, Validation.ListChecks |
