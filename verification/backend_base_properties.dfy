/** Properties of the backend helpers: the options identifier, the signature and the registry. */
module BackendBaseProperties {
  import opened Outcomes
  import opened Values
  import Text
  import opened BackendBase

  // ------------------------------------------------------------ make_options_id

  /** Two key-sorted sequences with the same elements are the same sequence. */
  lemma {:induction false} SortedUnique(a: seq<Opt>, b: seq<Opt>)
    requires SortedByKey(a) && SortedByKey(b)
    requires forall x :: x in a <==> x in b
    ensures a == b
  {
    if |a| > 0 {
      assert a[0] in b;
      assert |b| > 0;
      if a[0] != b[0] {
        var i :| 0 <= i < |b| && b[i] == a[0];
        assert b[0] in a;
        var j :| 0 <= j < |a| && a[j] == b[0];
        assert i > 0 && j > 0;
        Text.LessAsymmetric(a[0].0, b[0].0);
        assert false;
      }
      HeadNotInTail(a);
      HeadNotInTail(b);
      assert forall x :: x in a[1..] <==> x in a && x != a[0];
      assert forall x :: x in b[1..] <==> x in b && x != b[0];
      SortedUnique(a[1..], b[1..]);
      assert a == [a[0]] + a[1..];
      assert b == [b[0]] + b[1..];
    } else if |b| > 0 {
      HeadIsMember(b);
      assert false;
    }
  }

  lemma HeadIsMember(s: seq<Opt>)
    requires |s| > 0
    ensures s[0] in s
  {
  }

  lemma HeadNotInTail(s: seq<Opt>)
    requires SortedByKey(s) && |s| > 0
    ensures s[0] !in s[1..]
  {
    if s[0] in s[1..] {
      var i :| 1 <= i < |s| && s[i] == s[0];
      Text.LessIrreflexive(s[0].0);
    }
  }

  /**
   * The identifier depends only on the options' name and module and on the
   * versioning options: neither the order of `backend_opts` nor any option
   * that does not version changes it.
   */
  lemma OptionsIdDependsOnlyOnVersioningOptions(cls: BackendClass, o1: BuildOptions, o2: BuildOptions, shashedId: seq<Value> -> string)
    requires DistinctKeys(o1.backendOpts) && DistinctKeys(o2.backendOpts)
    requires o1.name == o2.name && o1.moduleName == o2.moduleName
    requires cls.optionDefinitions.Some? ==>
      forall k, v :: k in VersioningNames(cls.optionDefinitions.value) ==>
        ((k, v) in o1.backendOpts <==> (k, v) in o2.backendOpts)
    ensures MakeOptionsId(cls, o1, shashedId) == MakeOptionsId(cls, o2, shashedId)
  {
    if cls.optionDefinitions.Some? {
      var names := VersioningNames(cls.optionDefinitions.value);
      var s1 := Select(o1.backendOpts, names);
      var s2 := Select(o2.backendOpts, names);
      var sorted1 := SortByKey(s1);
      var sorted2 := SortByKey(s2);
      SameElements(sorted1, s1);
      SameElements(sorted2, s2);
      SortedUnique(sorted1, sorted2);
    }
  }

  /** Reordering `backend_opts` keeps the identifier. */
  lemma OptionsIdIgnoresOrder(cls: BackendClass, o: BuildOptions, reordered: seq<Opt>, shashedId: seq<Value> -> string)
    requires DistinctKeys(o.backendOpts) && DistinctKeys(reordered)
    requires multiset(reordered) == multiset(o.backendOpts)
    ensures MakeOptionsId(cls, o.(backendOpts := reordered), shashedId) == MakeOptionsId(cls, o, shashedId)
  {
    SameElements(reordered, o.backendOpts);
    OptionsIdDependsOnlyOnVersioningOptions(cls, o.(backendOpts := reordered), o, shashedId);
  }

  /** Adding an option whose definition does not version keeps the identifier. */
  lemma OptionsIdIgnoresUnversionedOption(cls: BackendClass, o: BuildOptions, key: string, value: Value, shashedId: seq<Value> -> string)
    requires DistinctKeys(o.backendOpts) && key !in OptionNames(o.backendOpts)
    requires cls.optionDefinitions.Some? ==> key !in VersioningNames(cls.optionDefinitions.value)
    ensures DistinctKeys(o.backendOpts + [(key, value)])
    ensures MakeOptionsId(cls, o.(backendOpts := o.backendOpts + [(key, value)]), shashedId) == MakeOptionsId(cls, o, shashedId)
  {
    var extended := o.backendOpts + [(key, value)];
    assert forall i :: 0 <= i < |o.backendOpts| ==> o.backendOpts[i].0 in OptionNames(o.backendOpts);
    assert forall x :: x in extended <==> x in o.backendOpts || x == (key, value);
    OptionsIdDependsOnlyOnVersioningOptions(cls, o.(backendOpts := extended), o, shashedId);
  }

  // ------------------------------------------------------------ generate_signature

  /** The arguments of one kind, in signature order (defined from the front). */
  function OfKind(api: seq<ArgumentInfo>, keyword: bool): seq<ArgumentInfo>
  {
    if |api| == 0 then [] else (if api[0].isKeyword == keyword then [api[0]] else []) + OfKind(api[1..], keyword)
  }

  lemma {:induction false} OfKindSnoc(api: seq<ArgumentInfo>, a: ArgumentInfo, keyword: bool)
    ensures OfKind(api + [a], keyword) == OfKind(api, keyword) + if a.isKeyword == keyword then [a] else []
  {
    if |api| > 0 {
      assert (api + [a])[1..] == api[1..] + [a];
      OfKindSnoc(api[1..], a, keyword);
    }
  }

  /** Each kind's arguments are rendered one by one, in the order of the API signature. */
  lemma {:induction false} RenderedInOrder(api: seq<ArgumentInfo>, keyword: bool)
    ensures |Rendered(api, keyword)| == |OfKind(api, keyword)|
    ensures forall i :: 0 <= i < |Rendered(api, keyword)| ==> Rendered(api, keyword)[i] == RenderArg(OfKind(api, keyword)[i])
  {
    if |api| > 0 {
      var init := api[..|api| - 1];
      RenderedInOrder(init, keyword);
      assert api == init + [api[|api| - 1]];
      OfKindSnoc(init, api[|api| - 1], keyword);
    }
  }

  /** Every argument appears exactly once: as a positional or as a keyword argument. */
  lemma {:induction false} RenderedCount(api: seq<ArgumentInfo>)
    ensures |Rendered(api, true)| + |Rendered(api, false)| == |api|
  {
    if |api| > 0 {
      RenderedCount(api[..|api| - 1]);
    }
  }

  /** The signature has one piece per argument, plus the `*` separator exactly when a keyword argument exists. */
  lemma SignaturePieces(api: seq<ArgumentInfo>)
    ensures |SignatureParts(api)| == |api| + if exists i :: 0 <= i < |api| && api[i].isKeyword then 1 else 0
  {
    RenderedCount(api);
  }

  lemma RenderedNames(api: seq<ArgumentInfo>, keyword: bool, x: string)
    requires x in Rendered(api, keyword)
    ensures exists i :: 0 <= i < |api| && x == RenderArg(api[i])
  {
    RenderedInOrder(api, keyword);
    var j :| 0 <= j < |Rendered(api, keyword)| && Rendered(api, keyword)[j] == x;
    OfKindMembers(api, keyword, OfKind(api, keyword)[j]);
  }

  lemma {:induction false} OfKindMembers(api: seq<ArgumentInfo>, keyword: bool, a: ArgumentInfo)
    requires a in OfKind(api, keyword)
    ensures a in api
  {
    if |api| > 0 && a != api[0] {
      OfKindMembers(api[1..], keyword, a);
    }
  }

  /**
   * A rendered argument splits at "=" back into its name and its default,
   * when neither contains "=": rendering loses nothing.
   */
  lemma RenderArgSplitsBack(a: ArgumentInfo)
    requires '=' !in a.name
    requires a.default.Some? ==> '=' !in a.default.value
    ensures a.default.None? ==> Text.Split(RenderArg(a), '=') == [a.name]
    ensures a.default.Some? ==> Text.Split(RenderArg(a), '=') == [a.name, a.default.value]
  {
    if a.default.Some? {
      var parts := [a.name, a.default.value];
      assert Text.Join(parts, "=") == RenderArg(a) by {
        assert parts[1..] == [a.default.value];
      }
      Text.SplitJoin(parts, '=');
    } else {
      Text.SplitPlain(a.name, '=');
    }
  }

  /** A rendered argument is `*` only when the argument is named `*`. */
  lemma RenderArgNotStar(a: ArgumentInfo)
    requires a.name != "*"
    ensures RenderArg(a) != "*"
  {
    if a.default.Some? {
      assert RenderArg(a)[|a.name|] == '=';
    }
  }

  lemma NoStarRendered(api: seq<ArgumentInfo>, keyword: bool)
    requires forall i :: 0 <= i < |api| ==> api[i].name != "*"
    ensures "*" !in Rendered(api, keyword)
  {
    forall x | x in Rendered(api, keyword)
      ensures x != "*"
    {
      RenderedNames(api, keyword, x);
      var i :| 0 <= i < |api| && x == RenderArg(api[i]);
      RenderArgNotStar(api[i]);
    }
  }

  /**
   * When no argument is itself named `*`, a `*` piece appears in the
   * signature exactly when some argument is keyword-only.
   */
  lemma StarIffKeywordArgument(api: seq<ArgumentInfo>)
    requires forall i :: 0 <= i < |api| ==> api[i].name != "*"
    ensures "*" in SignatureParts(api) <==> exists i :: 0 <= i < |api| && api[i].isKeyword
  {
    NoStarRendered(api, true);
    NoStarRendered(api, false);
  }

  // ------------------------------------------------------------ register / from_name

  /**
   * After registering a class with a string name, looking that name up builds
   * the class, and every other name resolves as before.
   */
  lemma RegisterThenFromName(registry: Registry, cls: BackendClass, other: string)
    requires cls.name.Str?
    ensures Register(registry, cls).Success?
    ensures FromName(Register(registry, cls).value, cls.name.s) == Some(Backend(cls, cls.name.s))
    ensures other != cls.name.s ==> FromName(Register(registry, cls).value, other) == FromName(registry, other)
  {
  }
}
