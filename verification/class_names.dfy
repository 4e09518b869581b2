/** `get_validated_classnames`: the (Family, Class) pair of each validated
    document, from `Tag.Class` split on "::". */
module ClassNames {
  import opened Outcomes
  import opened Json

  /*** str.split("::") ***/

  /** The pieces of `s[start..]`, where `s[start..i]` holds no separator:
      Python's `split` cuts at each leftmost non-overlapping "::". */
  function SplitFrom(s: string, start: nat, i: nat): (r: seq<string>)
    requires start <= i <= |s|
    decreases |s| - i
    ensures |r| >= 1
  {
    if i + 1 < |s| && s[i] == ':' && s[i + 1] == ':' then [s[start..i]] + SplitFrom(s, i + 2, i + 2)
    else if i < |s| then SplitFrom(s, start, i + 1)
    else [s[start..]]
  }

  /** `s.split("::")` */
  function Split(s: string): (r: seq<string>) {
    SplitFrom(s, 0, 0)
  }

  /** `"::".join(parts)` */
  function Join(parts: seq<string>): (r: string)
    requires |parts| >= 1
  {
    if |parts| == 1 then parts[0] else parts[0] + "::" + Join(parts[1..])
  }

  lemma {:induction false} JoinSplitFrom(s: string, start: nat, i: nat)
    requires start <= i <= |s|
    decreases |s| - i
    ensures Join(SplitFrom(s, start, i)) == s[start..]
  {
    if i + 1 < |s| && s[i] == ':' && s[i + 1] == ':' {
      JoinSplitFrom(s, i + 2, i + 2);
      var rest := SplitFrom(s, i + 2, i + 2);
      assert ([s[start..i]] + rest)[1..] == rest;
      calc {
        Join([s[start..i]] + rest);
        s[start..i] + "::" + Join(rest);
        s[start..i] + "::" + s[i + 2..];
        { assert s[start..] == s[start..i] + s[i..i + 2] + s[i + 2..]; }
        s[start..];
      }
    } else if i < |s| {
      JoinSplitFrom(s, start, i + 1);
    }
  }

  /** Splitting on "::" loses nothing: joining the pieces gives back the
      string. */
  lemma JoinSplit(s: string)
    ensures Join(Split(s)) == s
  {
    JoinSplitFrom(s, 0, 0);
  }

  /** A string with no "::" splits into itself alone. */
  lemma {:induction false} SplitWithoutSeparator(s: string, start: nat, i: nat)
    requires start <= i <= |s|
    requires forall j :: i <= j < |s| - 1 ==> !(s[j] == ':' && s[j + 1] == ':')
    decreases |s| - i
    ensures SplitFrom(s, start, i) == [s[start..]]
  {
    if i < |s| {
      SplitWithoutSeparator(s, start, i + 1);
    }
  }

  /** `s` holds "::" at or after position `i`. */
  predicate SeparatorFrom(s: string, i: nat) {
    exists j | i <= j < |s| - 1 :: s[j] == ':' && s[j + 1] == ':'
  }

  /** The scan from `i` on cuts at least once exactly when a "::" starts at
      or after `i`. */
  lemma {:induction false} SplitFromCuts(s: string, start: nat, i: nat)
    requires start <= i <= |s|
    decreases |s| - i
    ensures |SplitFrom(s, start, i)| >= 2 <==> SeparatorFrom(s, i)
  {
    if i + 1 < |s| && s[i] == ':' && s[i + 1] == ':' {
      assert s[i] == ':' && s[i + 1] == ':';
    } else if i < |s| {
      SplitFromCuts(s, start, i + 1);
      if SeparatorFrom(s, i) {
        var j :| i <= j < |s| - 1 && s[j] == ':' && s[j + 1] == ':';
        assert i + 1 <= j;
      }
    }
  }

  /** `s.split("::")` has a second piece exactly when `s` holds "::". */
  lemma SplitCuts(s: string)
    ensures |Split(s)| >= 2 <==> SeparatorFrom(s, 0)
  {
    SplitFromCuts(s, 0, 0);
  }

  /** "Family::Class" splits into the family and the class when neither
      holds a "::" and the family does not end in ':'. */
  lemma SplitFamilyClass(family: string, cls: string)
    requires forall j :: 0 <= j < |family| - 1 ==> !(family[j] == ':' && family[j + 1] == ':')
    requires |family| > 0 ==> family[|family| - 1] != ':'
    requires forall j :: 0 <= j < |cls| - 1 ==> !(cls[j] == ':' && cls[j + 1] == ':')
    ensures Split(family + "::" + cls) == [family, cls]
  {
    var s := family + "::" + cls;
    var n := |family|;
    assert s[n] == ':' && s[n + 1] == ':';
    assert s[..n] == family;
    assert s[n + 2..] == cls;
    forall i | 0 <= i <= n
      ensures SplitFrom(s, 0, i) == [family] + SplitFrom(s, n + 2, n + 2)
    {
      SplitPrefix(s, n, n - i);
    }
    SplitWithoutSeparator(s, n + 2, n + 2);
  }

  lemma {:induction false} SplitPrefix(s: string, n: nat, k: nat)
    requires n + 1 < |s| && s[n] == ':' && s[n + 1] == ':'
    requires k <= n
    requires forall j :: 0 <= j < n - 1 ==> !(s[j] == ':' && s[j + 1] == ':')
    requires n > 0 ==> s[n - 1] != ':'
    decreases k
    ensures SplitFrom(s, 0, n - k) == [s[..n]] + SplitFrom(s, n + 2, n + 2)
  {
    if k > 0 {
      var i := n - k;
      assert !(i + 1 < |s| && s[i] == ':' && s[i + 1] == ':');
      SplitPrefix(s, n, k - 1);
    }
  }

  /*** get_validated_classnames ***/

  datatype ClassDescriptor = ClassDescriptor(family: string, cls: string)

  /** `tag_class.split('::')[0]` and `[1]`: only a string has `split`, and a
      class name without "::" has no second piece. */
  function FromTagClass(c: Json): (r: Py<ClassDescriptor>)
    ensures r.Ok? <==> c.JStr? && |Split(c.s)| >= 2
    ensures r.Ok? <==> c.JStr? && SeparatorFrom(c.s, 0)
    ensures !c.JStr? ==> r == Raise(AttributeError)
    ensures c.JStr? && !SeparatorFrom(c.s, 0) ==> r == Raise(IndexError)
    ensures r.Ok? ==> c.s == r.value.family + "::" + Join(Split(c.s)[1..])
    ensures r.Ok? ==> Split(c.s)[0] == r.value.family && Split(c.s)[1] == r.value.cls
  {
    match c
    case JStr(s) =>
      var parts := Split(s);
      JoinSplit(s);
      SplitCuts(s);
      if |parts| >= 2 then Ok(ClassDescriptor(parts[0], parts[1])) else Raise(IndexError)
    case _ => Raise(AttributeError)
  }

  /** `elem['Tag']['Class']` */
  function TagClassOf(elem: Json): (r: Py<Json>) {
    var tag :- Index(elem, "Tag");
    Index(tag, "Class")
  }

  /** The loop body of `get_validated_classnames` for one document; `prev`
      is what `fname`/`cname` hold from the previous document, since an
      empty document matches no branch and re-appends them. */
  function NameOf(elem: Json, prev: Option<ClassDescriptor>): (r: Py<ClassDescriptor>)
    ensures elem.JInt? ==> r == Raise(TypeError)
    ensures elem.JObj? && elem.fields.Keys == {"Origin"} ==> r == Ok(ClassDescriptor("Description", "Origin"))
    ensures elem.JObj? && elem.fields.Keys == {"Study"} ==> r == Ok(ClassDescriptor("Description", "Study"))
    ensures elem.JArr? && |elem.items| > 1 && TagClassOf(elem.items[0]).Ok? && TagClassOf(elem.items[0]).value.JStr? ==>
      var parts := Split(TagClassOf(elem.items[0]).value.s);
      && (|parts| >= 2 ==> r == Ok(ClassDescriptor(parts[0], parts[1])))
      && (|parts| < 2 ==> r == Raise(IndexError))
    ensures Len(elem) == Ok(0) ==> r == (if prev.Some? then Ok(prev.value) else Raise(UnboundLocalError))
  {
    var n :- Len(elem);
    if n == 1 then
      var keys :- Keys(elem);
      if "Origin" in keys then Ok(ClassDescriptor("Description", "Origin"))
      else if "Study" in keys then Ok(ClassDescriptor("Description", "Study"))
      else
        var c :- TagClassOf(elem);
        FromTagClass(c)
    else if n > 1 then
      var first :- First(elem);
      var c :- TagClassOf(first);
      FromTagClass(c)
    else if prev.Some? then Ok(prev.value)
    else Raise(UnboundLocalError)
  }

  function NamesFrom(contents: seq<Json>, prev: Option<ClassDescriptor>): (r: Py<seq<ClassDescriptor>>)
    ensures r.Ok? ==> |r.value| == |contents|
    ensures r.Ok? ==> forall i :: 0 <= i < |contents| && Len(contents[i]) != Ok(0) ==>
                        NameOf(contents[i], None) == Ok(r.value[i])
    ensures (forall i :: 0 <= i < |contents| ==> Len(contents[i]) != Ok(0) && NameOf(contents[i], None).Ok?) ==> r.Ok?
  {
    if |contents| == 0 then Ok([])
    else
      var d :- NameOf(contents[0], prev);
      var rest :- NamesFrom(contents[1..], Some(d));
      Ok([d] + rest)
  }

  /** `get_validated_classnames`: the family names and the class names, one
      per document, in document order. */
  function GetValidatedClassnames(contents: seq<Json>): (r: Py<(seq<string>, seq<string>)>)
    ensures r.Ok? ==> |r.value.0| == |contents| && |r.value.1| == |contents|
    ensures r.Ok? ==> forall i :: 0 <= i < |contents| && Len(contents[i]) != Ok(0) ==>
                        NameOf(contents[i], None) == Ok(ClassDescriptor(r.value.0[i], r.value.1[i]))
    ensures (forall i :: 0 <= i < |contents| ==> Len(contents[i]) != Ok(0) && NameOf(contents[i], None).Ok?) ==> r.Ok?
  {
    var ds :- NamesFrom(contents, None);
    Ok((seq(|ds|, i requires 0 <= i < |ds| => ds[i].family), seq(|ds|, i requires 0 <= i < |ds| => ds[i].cls)))
  }
}
