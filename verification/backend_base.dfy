/**
 * Pure helpers of the backend base classes: option checking, the options
 * identifier, the stencil call signature, the read/write classification of
 * fields, and the backend registry.
 */
module BackendBase {
  import opened Outcomes
  import opened Values
  import Text

  /** One entry of a backend's `option_definitions`. */
  datatype OptionInfo = OptionInfo(versioning: bool, description: Option<string>)

  /**
   * A backend class as the registry sees it: its `name` attribute (any value
   * until `register` checks it) and its `option_definitions` (`None` in the
   * abstract base).
   */
  datatype BackendClass = BackendClass(name: Value, optionDefinitions: Option<map<string, OptionInfo>>)

  /** A key/value pair of `backend_opts`. */
  type Opt = (string, Value)

  /** Build options; `backendOpts` is a dictionary, kept as its pairs in insertion order. */
  datatype BuildOptions = BuildOptions(name: string, moduleName: string, backendOpts: seq<Opt>)

  datatype BackendError =
    | AssertionFailed                      // `assert cls.option_definitions is not None`
    | UnknownOptions(names: set<string>)   // ValueError from `_check_options`
    | NoOptionDefinitions                  // `None.items()` in `make_options_id`
    | InvalidName(given: Value)             // ValueError from `register`
    | MissingParameter(name: string)       // KeyError on `parameters[arg.name]`

  /** A dictionary's pairs never repeat a key. */
  predicate DistinctKeys(opts: seq<Opt>)
  {
    forall i, j :: 0 <= i < j < |opts| ==> opts[i].0 != opts[j].0
  }

  function OptionNames(opts: seq<Opt>): set<string>
  {
    set i | 0 <= i < |opts| :: opts[i].0
  }

  // ------------------------------------------------------------ _check_options

  /**
   * `_check_options`: fails on an undefined `option_definitions`, and
   * otherwise exactly when some option name is not defined, reporting all
   * such names.
   */
  function CheckOptions(cls: BackendClass, options: BuildOptions): (r: Result<(), BackendError>)
    ensures cls.optionDefinitions.None? ==> r == Failure(AssertionFailed)
    ensures cls.optionDefinitions.Some? ==>
      (r.Success? <==> forall i :: 0 <= i < |options.backendOpts| ==>
                         options.backendOpts[i].0 in cls.optionDefinitions.value)
    ensures cls.optionDefinitions.Some? && r.Failure? ==>
      r.error.UnknownOptions? && r.error.names != {} &&
      forall n :: n in r.error.names <==> n in OptionNames(options.backendOpts) && n !in cls.optionDefinitions.value
  {
    if cls.optionDefinitions.None? then Failure(AssertionFailed)
    else
      var unknown := OptionNames(options.backendOpts) - cls.optionDefinitions.value.Keys;
      assert forall i :: 0 <= i < |options.backendOpts| ==> options.backendOpts[i].0 in OptionNames(options.backendOpts);
      if unknown != {} then Failure(UnknownOptions(unknown))
      else
        assert forall i :: 0 <= i < |options.backendOpts| ==> options.backendOpts[i].0 !in unknown;
        Success(())
  }

  // ------------------------------------------------------------ make_options_id

  function VersioningNames(defs: map<string, OptionInfo>): set<string>
  {
    set k | k in defs && defs[k].versioning
  }

  /** The options whose name is in `names`, in their original order. */
  function Select(opts: seq<Opt>, names: set<string>): (r: seq<Opt>)
    ensures forall x :: x in r <==> x in opts && x.0 in names
    ensures DistinctKeys(opts) ==> DistinctKeys(r)
  {
    if |opts| == 0 then []
    else
      var rest := Select(opts[1..], names);
      assert forall x :: x in opts <==> x == opts[0] || x in opts[1..];
      if opts[0].0 in names then [opts[0]] + rest else rest
  }

  /** Strictly increasing keys under Python's string order. */
  predicate SortedByKey(s: seq<Opt>)
  {
    forall i, j :: 0 <= i < j < |s| ==> Text.Less(s[i].0, s[j].0)
  }

  function Insert(x: Opt, s: seq<Opt>): (r: seq<Opt>)
    requires SortedByKey(s)
    requires forall i :: 0 <= i < |s| ==> s[i].0 != x.0
    ensures SortedByKey(r)
    ensures multiset(r) == multiset(s) + multiset{x}
  {
    if |s| == 0 then [x]
    else if Text.Less(x.0, s[0].0) then
      InsertFront(x, s);
      [x] + s
    else
      Text.LessTotal(x.0, s[0].0);
      var rest := Insert(x, s[1..]);
      assert s == [s[0]] + s[1..];
      InsertBehind(s[0], x, s[1..], rest);
      [s[0]] + rest
  }

  lemma InsertFront(x: Opt, s: seq<Opt>)
    requires SortedByKey(s) && |s| > 0 && Text.Less(x.0, s[0].0)
    ensures SortedByKey([x] + s)
  {
    forall j | 1 <= j < |s| + 1
      ensures Text.Less(([x] + s)[0].0, ([x] + s)[j].0)
    {
      if j > 1 {
        Text.LessTransitive(x.0, s[0].0, s[j - 1].0);
      }
    }
  }

  lemma InsertBehind(y: Opt, x: Opt, s: seq<Opt>, rest: seq<Opt>)
    requires Text.Less(y.0, x.0)
    requires forall i :: 0 <= i < |s| ==> Text.Less(y.0, s[i].0)
    requires SortedByKey(rest) && multiset(rest) == multiset(s) + multiset{x}
    ensures SortedByKey([y] + rest)
  {
    forall j | 0 <= j < |rest|
      ensures Text.Less(y.0, rest[j].0)
    {
      assert rest[j] in multiset(rest);
      assert rest[j] == x || rest[j] in s;
    }
  }

  /** Python's `sorted` on the pairs; with distinct keys only the keys are ever compared. */
  function SortByKey(s: seq<Opt>): (r: seq<Opt>)
    requires DistinctKeys(s)
    ensures SortedByKey(r)
    ensures multiset(r) == multiset(s)
  {
    if |s| == 0 then []
    else
      var rest := SortByKey(s[1..]);
      KeyAbsent(s, rest);
      Insert(s[0], rest)
  }

  /** The head's key is not among the keys of a permutation of the tail. */
  lemma KeyAbsent(s: seq<Opt>, rest: seq<Opt>)
    requires DistinctKeys(s) && |s| > 0
    requires multiset(rest) == multiset(s[1..])
    ensures forall i :: 0 <= i < |rest| ==> rest[i].0 != s[0].0
    ensures multiset(s) == multiset(rest) + multiset{s[0]}
  {
    forall i | 0 <= i < |rest|
      ensures rest[i].0 != s[0].0
    {
      assert rest[i] in multiset(s[1..]);
    }
    assert s == [s[0]] + s[1..];
  }

  /**
   * The arguments handed to `shashed_id`: the options' name and module, then
   * each versioning option as a `(key, value)` pair, sorted.
   */
  function OptionsIdParts(defs: map<string, OptionInfo>, options: BuildOptions): (parts: seq<Value>)
    requires DistinctKeys(options.backendOpts)
    ensures |parts| >= 2 && parts[0] == Str(options.name) && parts[1] == Str(options.moduleName)
    ensures forall k, v :: List([Str(k), v]) in parts[2..] <==>
      (k, v) in options.backendOpts && k in VersioningNames(defs)
    ensures forall i :: 2 <= i < |parts| ==> IsKeyedPair(parts[i])
    ensures forall i, j :: 2 <= i < j < |parts| ==> Text.Less(PairKey(parts[i]), PairKey(parts[j]))
  {
    var selected := Select(options.backendOpts, VersioningNames(defs));
    var sorted := SortByKey(selected);
    SameElements(sorted, selected);
    [Str(options.name), Str(options.moduleName)] + AsPairs(sorted)
  }

  lemma SameElements(a: seq<Opt>, b: seq<Opt>)
    requires multiset(a) == multiset(b)
    ensures forall x :: x in a <==> x in b
  {
    assert forall x :: x in a <==> x in multiset(a);
    assert forall x :: x in b <==> x in multiset(b);
  }

  /** A `(key, value)` tuple with a string key. */
  predicate IsKeyedPair(v: Value)
  {
    v.List? && |v.items| == 2 && v.items[0].Str?
  }

  function PairKey(v: Value): string
    requires IsKeyedPair(v)
  {
    v.items[0].s
  }

  /** Each option as the two-element tuple `(key, value)`. */
  function AsPairs(opts: seq<Opt>): (r: seq<Value>)
    ensures |r| == |opts|
    ensures forall i :: 0 <= i < |r| ==> IsKeyedPair(r[i]) && PairKey(r[i]) == opts[i].0
    ensures forall k, v :: List([Str(k), v]) in r <==> (k, v) in opts
  {
    if |opts| == 0 then []
    else
      assert forall x :: x in opts <==> x == opts[0] || x in opts[1..];
      [List([Str(opts[0].0), opts[0].1])] + AsPairs(opts[1..])
  }

  /** `make_options_id`; the hash `shashed_id` is a parameter. */
  function MakeOptionsId(cls: BackendClass, options: BuildOptions, shashedId: seq<Value> -> string): (r: Result<string, BackendError>)
    requires DistinctKeys(options.backendOpts)
    ensures r.Failure? <==> cls.optionDefinitions.None?
    ensures r.Success? ==> r.value == shashedId(OptionsIdParts(cls.optionDefinitions.value, options))
  {
    if cls.optionDefinitions.None? then Failure(NoOptionDefinitions)
    else Success(shashedId(OptionsIdParts(cls.optionDefinitions.value, options)))
  }

  // ------------------------------------------------------------ register / from_name

  type Registry = map<string, BackendClass>

  /** What `from_name` builds: the class called with the name as its one argument. */
  datatype Backend = Backend(cls: BackendClass, constructorArgument: string)

  /**
   * `register`: a class whose `name` is a string is entered under that name;
   * any other name is a `ValueError`.
   */
  function Register(registry: Registry, cls: BackendClass): (r: Result<Registry, BackendError>)
    ensures r.Success? <==> cls.name.Str?
    ensures r.Failure? ==> r.error == InvalidName(cls.name)
    ensures r.Success? ==> r.value.Keys == registry.Keys + {cls.name.s}
    ensures r.Success? ==> r.value[cls.name.s] == cls
    ensures r.Success? ==> forall n :: n in registry && n != cls.name.s ==> r.value[n] == registry[n]
  {
    if cls.name.Str? then Success(registry[cls.name.s := cls]) else Failure(InvalidName(cls.name))
  }

  /** `from_name`: `None` for an unregistered name, else an instance of the registered class. */
  function FromName(registry: Registry, name: string): (r: Option<Backend>)
    ensures r.None? <==> name !in registry
    ensures r.Some? ==> r.value == Backend(registry[name], name)
  {
    if name in registry then Some(Backend(registry[name], name)) else None
  }

  // ------------------------------------------------------------ generate_signature

  /** An argument of the stencil's API signature; `None` for the `Empty` default. */
  datatype ArgumentInfo = ArgumentInfo(name: string, isKeyword: bool, default: Option<string>)

  /** How one argument appears in the signature. */
  function RenderArg(arg: ArgumentInfo): (r: string)
    ensures arg.default.None? ==> r == arg.name
    ensures arg.default.Some? ==> r == arg.name + "=" + arg.default.value
  {
    match arg.default
    case None => arg.name
    case Some(d) => arg.name + "=" + d
  }

  /** The rendered arguments of one kind (keyword or not), in signature order. */
  function Rendered(api: seq<ArgumentInfo>, keyword: bool): (r: seq<string>)
    ensures |r| <= |api|
    ensures |r| > 0 <==> exists i :: 0 <= i < |api| && api[i].isKeyword == keyword
  {
    if |api| == 0 then []
    else
      var init := Rendered(api[..|api| - 1], keyword);
      var last := api[|api| - 1];
      assert forall i :: 0 <= i < |api| - 1 ==> api[..|api| - 1][i] == api[i];
      if last.isKeyword == keyword then init + [RenderArg(last)] else init
  }

  /** The comma-separated pieces: positional arguments, then `*` and the keyword arguments when there are any. */
  function SignatureParts(api: seq<ArgumentInfo>): seq<string>
  {
    var keywordArgs := Rendered(api, true);
    Rendered(api, false) + if |keywordArgs| > 0 then ["*"] + keywordArgs else []
  }

  /** `generate_signature`, with the loop of the original. */
  method GenerateSignature(api: seq<ArgumentInfo>) returns (signature: string)
    ensures signature == Text.Join(SignatureParts(api), ", ")
  {
    var args: seq<string> := [];
    var keywordArgs: seq<string> := ["*"];
    for i := 0 to |api|
      invariant args == Rendered(api[..i], false)
      invariant keywordArgs == ["*"] + Rendered(api[..i], true)
    {
      var arg := api[i];
      assert api[..i + 1][..i] == api[..i];
      if arg.isKeyword {
        if arg.default.Some? {
          keywordArgs := keywordArgs + [arg.name + "=" + arg.default.value];
        } else {
          keywordArgs := keywordArgs + [arg.name];
        }
      } else {
        if arg.default.Some? {
          args := args + [arg.name + "=" + arg.default.value];
        } else {
          args := args + [arg.name];
        }
      }
    }
    assert api[..|api|] == api;
    if |keywordArgs| > 1 {
      args := args + keywordArgs;
    } else {
      assert Rendered(api, true) == [];
      assert SignatureParts(api) == args + [];
    }
    assert args == SignatureParts(api);
    signature := Text.Join(args, ", ");
  }

  // ------------------------------------------------------------ access classification

  datatype AccessIntent = ReadOnlyIntent | ReadWriteIntent
  datatype Accessor = FieldAccessor(symbol: string, intent: AccessIntent) | ParameterAccessor(symbol: string)
  datatype Stage = Stage(accessors: seq<Accessor>)
  datatype StageGroup = StageGroup(stages: seq<Stage>)
  datatype MultiStage = MultiStage(groups: seq<StageGroup>)

  /**
   * The part of the implementation IR the classification reads; `fields`
   * and `parameters` map a name to its dtype.
   */
  datatype ImplementationIR = ImplementationIR(
    apiSignature: seq<ArgumentInfo>,
    fields: map<string, string>,
    parameters: map<string, string>,
    unreferenced: set<string>,
    multiStages: seq<MultiStage>)

  datatype AccessKind = ReadOnly | ReadWrite
  datatype FieldInfo = FieldInfo(access: AccessKind, dtype: string)
  datatype ParameterInfo = ParameterInfo(dtype: string)

  /** `field_info`, `field_names`, `parameter_info` and `param_names`. */
  datatype ArgumentTables = ArgumentTables(
    fieldInfo: map<string, Option<FieldInfo>>,
    fieldNames: seq<string>,
    parameterInfo: map<string, Option<ParameterInfo>>,
    parameterNames: seq<string>)

  ghost predicate WrittenInStage(st: Stage, x: string)
  {
    exists l :: 0 <= l < |st.accessors| && st.accessors[l] == FieldAccessor(x, ReadWriteIntent)
  }

  ghost predicate WrittenInGroup(g: StageGroup, x: string)
  {
    exists k :: 0 <= k < |g.stages| && WrittenInStage(g.stages[k], x)
  }

  ghost predicate WrittenInMultiStage(m: MultiStage, x: string)
  {
    exists j :: 0 <= j < |m.groups| && WrittenInGroup(m.groups[j], x)
  }

  /** Some stage of some multi-stage holds a read-write accessor of field `x`. */
  ghost predicate Written(ms: seq<MultiStage>, x: string)
  {
    exists i :: 0 <= i < |ms| && WrittenInMultiStage(ms[i], x)
  }

  /** The `out_fields` loop nest. */
  method CollectOutFields(ms: seq<MultiStage>) returns (outFields: set<string>)
    ensures forall x :: x in outFields <==> Written(ms, x)
  {
    outFields := {};
    for i := 0 to |ms|
      invariant forall x :: x in outFields <==> exists i' :: 0 <= i' < i && WrittenInMultiStage(ms[i'], x)
    {
      ghost var before := outFields;
      var groups := ms[i].groups;
      for j := 0 to |groups|
        invariant forall x :: x in outFields <==> x in before || exists j' :: 0 <= j' < j && WrittenInGroup(groups[j'], x)
      {
        ghost var beforeGroup := outFields;
        var stages := groups[j].stages;
        for k := 0 to |stages|
          invariant forall x :: x in outFields <==> x in beforeGroup || exists k' :: 0 <= k' < k && WrittenInStage(stages[k'], x)
        {
          ghost var beforeStage := outFields;
          var accessors := stages[k].accessors;
          for l := 0 to |accessors|
            invariant forall x :: x in outFields <==> x in beforeStage || exists l' :: 0 <= l' < l && accessors[l'] == FieldAccessor(x, ReadWriteIntent)
          {
            var acc := accessors[l];
            if acc.FieldAccessor? && acc.intent == ReadWriteIntent {
              outFields := outFields + {acc.symbol};
            }
          }
        }
      }
    }
  }

  /** A referenced non-field argument with no parameter entry: the lookup raises. */
  predicate LacksParameter(ir: ImplementationIR, name: string)
  {
    name !in ir.fields && name !in ir.unreferenced && name !in ir.parameters
  }

  /** Argument `i` is the first in signature order that lacks a parameter entry: the one the loop stops at. */
  predicate FirstMissing(ir: ImplementationIR, i: int)
  {
    && 0 <= i < |ir.apiSignature|
    && LacksParameter(ir, ir.apiSignature[i].name)
    && forall i' :: 0 <= i' < i ==> !LacksParameter(ir, ir.apiSignature[i'].name)
  }

  /** The loop over `api_signature` that fills the argument tables. */
  method ClassifyArguments(ir: ImplementationIR, outFields: set<string>) returns (r: Result<ArgumentTables, BackendError>)
    ensures r.Failure? <==> exists i :: 0 <= i < |ir.apiSignature| && LacksParameter(ir, ir.apiSignature[i].name)
    ensures r.Failure? ==> r.error.MissingParameter? && LacksParameter(ir, r.error.name)
    ensures r.Failure? ==> exists i :: FirstMissing(ir, i) && ir.apiSignature[i].name == r.error.name
    ensures r.Success? ==> TablesDescribe(ir, outFields, r.value)
  {
    var api := ir.apiSignature;
    var fieldInfo: map<string, Option<FieldInfo>> := map[];
    var fieldNames: seq<string> := [];
    var parameterInfo: map<string, Option<ParameterInfo>> := map[];
    var parameterNames: seq<string> := [];
    for i := 0 to |api|
      invariant forall i' :: 0 <= i' < i ==> !LacksParameter(ir, api[i'].name)
      invariant FieldTables(ir, outFields, api[..i], fieldInfo, fieldNames)
      invariant ParameterTables(ir, api[..i], parameterInfo, parameterNames)
    {
      var arg := api[i];
      assert api[..i + 1] == api[..i] + [arg];
      if arg.name in ir.fields {
        var access := if arg.name in outFields then ReadWrite else ReadOnly;
        FieldStep(ir, outFields, api[..i], fieldInfo, fieldNames, arg);
        ParameterSkip(ir, api[..i], parameterInfo, parameterNames, arg);
        if arg.name !in ir.unreferenced {
          fieldInfo := fieldInfo[arg.name := Some(FieldInfo(access, ir.fields[arg.name]))];
        } else {
          fieldInfo := fieldInfo[arg.name := None];
        }
        fieldNames := fieldNames + [arg.name];
      } else {
        if arg.name !in ir.unreferenced && arg.name !in ir.parameters {
          assert api[i].name == arg.name;
          return Failure(MissingParameter(arg.name));
        }
        ParameterStep(ir, api[..i], parameterInfo, parameterNames, arg);
        FieldSkip(ir, outFields, api[..i], fieldInfo, fieldNames, arg);
        if arg.name !in ir.unreferenced {
          parameterInfo := parameterInfo[arg.name := Some(ParameterInfo(ir.parameters[arg.name]))];
        } else {
          parameterInfo := parameterInfo[arg.name := None];
        }
        parameterNames := parameterNames + [arg.name];
      }
    }
    assert api[..|api|] == api;
    r := Success(ArgumentTables(fieldInfo, fieldNames, parameterInfo, parameterNames));
  }

  lemma NamesOfSnoc(api: seq<ArgumentInfo>, arg: ArgumentInfo, fields: map<string, string>, fieldsWanted: bool)
    ensures NamesOf(api + [arg], fields, fieldsWanted) ==
      NamesOf(api, fields, fieldsWanted) + if (arg.name in fields) == fieldsWanted then [arg.name] else []
  {
    assert (api + [arg])[..|api|] == api;
  }

  lemma FieldStep(ir: ImplementationIR, outFields: set<string>, api: seq<ArgumentInfo>,
                  info: map<string, Option<FieldInfo>>, names: seq<string>, arg: ArgumentInfo)
    requires FieldTables(ir, outFields, api, info, names) && arg.name in ir.fields
    ensures FieldTables(ir, outFields, api + [arg], info[arg.name := ClassifyField(ir, outFields, arg.name)], names + [arg.name])
  {
    NamesOfSnoc(api, arg, ir.fields, true);
  }

  lemma FieldSkip(ir: ImplementationIR, outFields: set<string>, api: seq<ArgumentInfo>,
                  info: map<string, Option<FieldInfo>>, names: seq<string>, arg: ArgumentInfo)
    requires FieldTables(ir, outFields, api, info, names) && arg.name !in ir.fields
    ensures FieldTables(ir, outFields, api + [arg], info, names)
  {
    NamesOfSnoc(api, arg, ir.fields, true);
  }

  lemma ParameterStep(ir: ImplementationIR, api: seq<ArgumentInfo>,
                      info: map<string, Option<ParameterInfo>>, names: seq<string>, arg: ArgumentInfo)
    requires ParameterTables(ir, api, info, names) && arg.name !in ir.fields
    requires arg.name in ir.parameters || arg.name in ir.unreferenced
    ensures ParameterTables(ir, api + [arg], info[arg.name := ClassifyParameter(ir, arg.name)], names + [arg.name])
  {
    NamesOfSnoc(api, arg, ir.fields, false);
  }

  lemma ParameterSkip(ir: ImplementationIR, api: seq<ArgumentInfo>,
                      info: map<string, Option<ParameterInfo>>, names: seq<string>, arg: ArgumentInfo)
    requires ParameterTables(ir, api, info, names) && arg.name in ir.fields
    ensures ParameterTables(ir, api + [arg], info, names)
  {
    NamesOfSnoc(api, arg, ir.fields, false);
  }

  /** The names of the arguments that are fields (or, with `fieldsWanted` false, that are not), in order. */
  function NamesOf(api: seq<ArgumentInfo>, fields: map<string, string>, fieldsWanted: bool): (r: seq<string>)
    ensures |r| <= |api|
  {
    if |api| == 0 then []
    else
      var init := NamesOf(api[..|api| - 1], fields, fieldsWanted);
      var last := api[|api| - 1];
      if (last.name in fields) == fieldsWanted then init + [last.name] else init
  }

  lemma {:induction false} NamesOfMembers(api: seq<ArgumentInfo>, fields: map<string, string>, fieldsWanted: bool)
    ensures forall n :: n in NamesOf(api, fields, fieldsWanted) <==>
      (n in fields <==> fieldsWanted) && exists i :: 0 <= i < |api| && api[i].name == n
  {
    if |api| > 0 {
      var init := api[..|api| - 1];
      NamesOfMembers(init, fields, fieldsWanted);
      assert forall i :: 0 <= i < |api| - 1 ==> init[i] == api[i];
    }
  }

  /** The entry of a field: `None` when unreferenced, else its dtype and whether some stage writes it. */
  function ClassifyField(ir: ImplementationIR, outFields: set<string>, name: string): Option<FieldInfo>
    requires name in ir.fields
  {
    if name in ir.unreferenced then None
    else Some(FieldInfo(if name in outFields then ReadWrite else ReadOnly, ir.fields[name]))
  }

  function ClassifyParameter(ir: ImplementationIR, name: string): Option<ParameterInfo>
    requires name in ir.parameters || name in ir.unreferenced
  {
    if name in ir.unreferenced then None else Some(ParameterInfo(ir.parameters[name]))
  }

  /** Every argument is listed under its kind, and each listed name has its classified entry. */
  ghost predicate TablesDescribe(ir: ImplementationIR, outFields: set<string>, t: ArgumentTables)
  {
    && FieldTables(ir, outFields, ir.apiSignature, t.fieldInfo, t.fieldNames)
    && ParameterTables(ir, ir.apiSignature, t.parameterInfo, t.parameterNames)
  }

  /** `names` lists the field arguments of `api` and `info` holds exactly their entries. */
  ghost predicate FieldTables(ir: ImplementationIR, outFields: set<string>, api: seq<ArgumentInfo>,
                              info: map<string, Option<FieldInfo>>, names: seq<string>)
  {
    && names == NamesOf(api, ir.fields, true)
    && (forall n :: n in info <==> n in names)
    && (forall n :: n in info ==> n in ir.fields && info[n] == ClassifyField(ir, outFields, n))
  }

  /** `names` lists the other arguments of `api` and `info` holds exactly their entries. */
  ghost predicate ParameterTables(ir: ImplementationIR, api: seq<ArgumentInfo>,
                                  info: map<string, Option<ParameterInfo>>, names: seq<string>)
  {
    && names == NamesOf(api, ir.fields, false)
    && (forall n :: n in info <==> n in names)
    && (forall n :: n in info ==> (n in ir.parameters || n in ir.unreferenced) && info[n] == ClassifyParameter(ir, n))
  }

  /**
   * Lines 307-342 of the module generator: collect the written fields, then
   * classify every argument. A listed, referenced field is read-write exactly
   * when some stage writes it.
   */
  method ClassifyAccesses(ir: ImplementationIR) returns (r: Result<ArgumentTables, BackendError>)
    ensures r.Failure? <==> exists i :: 0 <= i < |ir.apiSignature| && LacksParameter(ir, ir.apiSignature[i].name)
    ensures r.Failure? ==> r.error.MissingParameter? && LacksParameter(ir, r.error.name)
    ensures r.Failure? ==> exists i :: FirstMissing(ir, i) && ir.apiSignature[i].name == r.error.name
    ensures r.Success? ==> r.value.fieldNames == NamesOf(ir.apiSignature, ir.fields, true)
    ensures r.Success? ==> forall n :: n in r.value.fieldInfo <==> n in r.value.fieldNames
    ensures r.Success? ==> ParameterTables(ir, ir.apiSignature, r.value.parameterInfo, r.value.parameterNames)
    ensures r.Success? ==> forall n :: n in r.value.fieldInfo ==>
      n in ir.fields &&
      (r.value.fieldInfo[n].None? <==> n in ir.unreferenced) &&
      (r.value.fieldInfo[n].Some? ==>
         r.value.fieldInfo[n].value.dtype == ir.fields[n] &&
         (r.value.fieldInfo[n].value.access == ReadWrite <==> Written(ir.multiStages, n)))
    ensures r.Success? ==> forall n :: n in r.value.fieldNames <==>
      n in ir.fields && exists i :: 0 <= i < |ir.apiSignature| && ir.apiSignature[i].name == n
  {
    var outFields := CollectOutFields(ir.multiStages);
    r := ClassifyArguments(ir, outFields);
    NamesOfMembers(ir.apiSignature, ir.fields, true);
  }
}
