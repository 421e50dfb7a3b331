/**
 * The build cache of generated stencil modules: deterministic names and paths
 * derived from a stencil identity, the cache record written next to a
 * generated module, and the rule deciding whether a cached module may be reused.
 *
 * The disk is a map from path strings to files. Hashing (`shash`), slugifying
 * a backend name, the cache root, the interpreter fingerprint and the package
 * version come from a `Settings` value instead of process-wide state.
 */
module Cache {
  import opened Outcomes
  import opened Values
  import Text

  /** A stencil's identity: dot-separated qualified name and opaque version. */
  datatype StencilId = StencilId(qualifiedName: string, version: string)

  datatype Settings = Settings(
    rootPath: string,            // cache_settings["root_path"]
    dirName: string,             // cache_settings["dir_name"]
    runtimeId: string,           // the "py{major}{minor}_{api}" interpreter fingerprint
    rootPackageName: string,     // code_settings["root_package_name"]
    gt4pyVersion: string,
    slugify: string -> string,
    shash: string -> string)

  /** What a file on disk decodes to: text, a pickled value, or neither. */
  datatype File = Source(text: string) | Pickled(data: Value) | Unreadable

  type FileSystem = map<string, File>

  /** The exceptions the Python code raises (and, where it does, swallows). */
  datatype CacheError =
    | FileNotFound(path: string)
    | NotText(path: string)
    | NotUnpicklable(path: string)
    | NotADict
    | MissingAttribute(key: string)

  // ---------------------------------------------------------------- names

  /** `qualified_name.split(".")`: never empty. */
  function Components(id: StencilId): (r: seq<string>)
    ensures |r| >= 1
    ensures forall i :: 0 <= i < |r| ==> '.' !in r[i]
  {
    Text.Split(id.qualifiedName, '.')
  }

  function LastSegment(id: StencilId): string
  {
    var c := Components(id);
    c[|c| - 1]
  }

  function PackageSegments(id: StencilId): seq<string>
  {
    var c := Components(id);
    c[..|c| - 1]
  }

  function ClassName(id: StencilId): string
  {
    LastSegment(id) + "__" + id.version
  }

  function PackageName(s: Settings, id: StencilId): string
  {
    Text.Join([s.rootPackageName] + PackageSegments(id), ".")
  }

  /** `get_stencil_module_name(id, qualified=...)`. */
  function ModuleName(s: Settings, id: StencilId, qualified: bool): string
  {
    var name := "m_" + ClassName(id);
    if qualified then PackageName(s, id) + "." + name else name
  }

  // ---------------------------------------------------------------- paths

  /** POSIX `os.path.join(a, b)`: an absolute `b` wins, otherwise one "/" separates them. */
  function PathJoin(a: string, b: string): string
  {
    if |b| > 0 && b[0] == '/' then b
    else if |a| == 0 || a[|a| - 1] == '/' then a + b
    else a + "/" + b
  }

  /** `os.path.join(base, *parts)`. */
  function PathJoinAll(base: string, parts: seq<string>): string
    decreases |parts|
  {
    if |parts| == 0 then base else PathJoinAll(PathJoin(base, parts[0]), parts[1..])
  }

  function BasePath(s: Settings, backendId: string): string
  {
    PathJoin(PathJoin(PathJoin(s.rootPath, s.dirName), s.runtimeId), s.slugify(backendId))
  }

  function PackagePath(s: Settings, backendId: string, id: StencilId): string
  {
    PathJoinAll(BasePath(s, backendId), PackageSegments(id))
  }

  function ModulePath(s: Settings, backendId: string, id: StencilId): (r: string)
    ensures |r| >= 3 && r[|r| - 3..] == ".py"
  {
    var file := ModuleName(s, id, false) + ".py";
    PathJoinEndsWith(PackagePath(s, backendId, id), file);
    PathJoin(PackagePath(s, backendId, id), file)
  }

  /** The module path with its trailing ".py" replaced by ".cacheinfo". */
  function CacheInfoPath(s: Settings, backendId: string, id: StencilId): string
  {
    var p := ModulePath(s, backendId, id);
    p[..|p| - 3] + ".cacheinfo"
  }

  lemma PathJoinEndsWith(a: string, b: string)
    requires |b| > 0 && b[0] != '/'
    ensures |PathJoin(a, b)| >= |b| && PathJoin(a, b)[|PathJoin(a, b)| - |b|..] == b
  {
  }

  // ---------------------------------------------------------------- disk

  /** `open(path, "r").read()`. */
  function ReadText(fs: FileSystem, path: string): Result<string, CacheError>
  {
    if path !in fs then Failure(FileNotFound(path))
    else match fs[path]
      case Source(t) => Success(t)
      case _ => Failure(NotText(path))
  }

  /** `pickle.load(open(path, "rb"))`. */
  function LoadPickle(fs: FileSystem, path: string): Result<Value, CacheError>
  {
    if path !in fs then Failure(FileNotFound(path))
    else match fs[path]
      case Pickled(v) => Success(v)
      case _ => Failure(NotUnpicklable(path))
  }

  // ---------------------------------------------------------------- records

  /** The keys `validate_cache_info` compares; `gt4py_version` is written but not compared. */
  const ValidatedKeys: set<string> := {"backend", "stencil_name", "stencil_version", "module_shash"}

  const StandardKeys: set<string> := ValidatedKeys + {"gt4py_version"}

  function StandardInfo(s: Settings, backendId: string, id: StencilId, source: string): map<string, Value>
  {
    map[
      "gt4py_version" := Str(s.gt4pyVersion),
      "backend" := Str(backendId),
      "stencil_name" := Str(id.qualifiedName),
      "stencil_version" := Str(id.version),
      "module_shash" := Str(s.shash(source))]
  }

  /**
   * `generate_cache_info`: the standard record of the current module text,
   * with the extra entries merged last (so they win on a shared key). Fails
   * exactly when the module file cannot be read as text.
   */
  function GenerateCacheInfo(s: Settings, fs: FileSystem, backendId: string, id: StencilId,
                             extra: map<string, Value>): (r: Result<map<string, Value>, CacheError>)
    ensures r.Success? <==> ReadText(fs, ModulePath(s, backendId, id)).Success?
    ensures r.Success? ==> r.value.Keys == StandardKeys + extra.Keys
    ensures r.Success? ==> forall k :: k in extra ==> r.value[k] == extra[k]
    ensures r.Success? && "backend" !in extra ==> r.value["backend"] == Str(backendId)
    ensures r.Success? && "stencil_name" !in extra ==> r.value["stencil_name"] == Str(id.qualifiedName)
    ensures r.Success? && "stencil_version" !in extra ==> r.value["stencil_version"] == Str(id.version)
    ensures r.Success? && "gt4py_version" !in extra ==> r.value["gt4py_version"] == Str(s.gt4pyVersion)
    ensures r.Success? && "module_shash" !in extra ==>
      r.value["module_shash"] == Str(s.shash(fs[ModulePath(s, backendId, id)].text))
  {
    var source :- ReadText(fs, ModulePath(s, backendId, id));
    Success(StandardInfo(s, backendId, id, source) + extra)
  }

  /**
   * `update_cache`: writes the freshly generated record to the cache-info path
   * and nothing else; fails (the error propagates) when the module is unreadable.
   */
  function UpdateCache(s: Settings, fs: FileSystem, backendId: string, id: StencilId,
                       extra: map<string, Value>): (r: Result<FileSystem, CacheError>)
    ensures r.Success? <==> ReadText(fs, ModulePath(s, backendId, id)).Success?
    ensures r.Success? ==> r.value.Keys == fs.Keys + {CacheInfoPath(s, backendId, id)}
    ensures r.Success? ==> forall p :: p in fs && p != CacheInfoPath(s, backendId, id) ==> r.value[p] == fs[p]
    ensures r.Success? ==>
      r.value[CacheInfoPath(s, backendId, id)] == Pickled(Dict(GenerateCacheInfo(s, fs, backendId, id, extra).value))
  {
    var info :- GenerateCacheInfo(s, fs, backendId, id, extra);
    Success(fs[CacheInfoPath(s, backendId, id) := Pickled(Dict(info))])
  }

  function Attribute(info: map<string, Value>, key: string): Result<Value, CacheError>
  {
    if key in info then Success(info[key]) else Failure(MissingAttribute(key))
  }

  /**
   * The body of the `try` in `validate_cache_info`, in Python's evaluation
   * order: read and hash the module, then compare attribute by attribute,
   * stopping at the first mismatch (a later missing attribute is then never
   * looked up).
   */
  function ValidationOutcome(s: Settings, fs: FileSystem, backendId: string, id: StencilId,
                             info: map<string, Value>): Result<bool, CacheError>
  {
    var source :- ReadText(fs, ModulePath(s, backendId, id));
    var moduleHash := s.shash(source);
    var backend :- Attribute(info, "backend");
    if backend != Str(backendId) then Success(false)
    else
      var name :- Attribute(info, "stencil_name");
      if name != Str(id.qualifiedName) then Success(false)
      else
        var version :- Attribute(info, "stencil_version");
        if version != Str(id.version) then Success(false)
        else
          var recorded :- Attribute(info, "module_shash");
          Success(recorded == Str(moduleHash))
  }

  /** The four validated entries are present and equal the live values for this text hash. */
  predicate RecordMatches(info: map<string, Value>, backendId: string, id: StencilId, moduleHash: string)
  {
    && "backend" in info && info["backend"] == Str(backendId)
    && "stencil_name" in info && info["stencil_name"] == Str(id.qualifiedName)
    && "stencil_version" in info && info["stencil_version"] == Str(id.version)
    && "module_shash" in info && info["module_shash"] == Str(moduleHash)
  }

  /**
   * `validate_cache_info`: any exception counts as invalid. The record is valid
   * exactly when the module file reads as text and the record matches the
   * live identity and the hash of that text.
   */
  function ValidateCacheInfo(s: Settings, fs: FileSystem, backendId: string, id: StencilId,
                             info: map<string, Value>): (r: bool)
    ensures r <==>
      && ReadText(fs, ModulePath(s, backendId, id)).Success?
      && RecordMatches(info, backendId, id, s.shash(ReadText(fs, ModulePath(s, backendId, id)).value))
  {
    match ValidationOutcome(s, fs, backendId, id, info)
    case Success(ok) => ok
    case Failure(_) => false
  }

  /** The body of the `try` in `check_cache`: load, insist on a dict, validate. */
  function CheckOutcome(s: Settings, fs: FileSystem, backendId: string, id: StencilId): Result<bool, CacheError>
  {
    var info :- LoadPickle(fs, CacheInfoPath(s, backendId, id));
    if !info.Dict? then Failure(NotADict)
    else Success(ValidateCacheInfo(s, fs, backendId, id, info.entries))
  }

  /**
   * `check_cache`: true exactly when the cache-info file holds a pickled
   * dictionary that validates; a missing, undecodable or non-dictionary file
   * gives false, never an exception.
   */
  function CheckCache(s: Settings, fs: FileSystem, backendId: string, id: StencilId): (r: bool)
    ensures r <==>
      && CacheInfoPath(s, backendId, id) in fs
      && fs[CacheInfoPath(s, backendId, id)].Pickled?
      && fs[CacheInfoPath(s, backendId, id)].data.Dict?
      && ValidateCacheInfo(s, fs, backendId, id, fs[CacheInfoPath(s, backendId, id)].data.entries)
  {
    match CheckOutcome(s, fs, backendId, id)
    case Success(ok) => ok
    case Failure(_) => false
  }
}
