# GT4Py stencil cache, GTIR upcasting and backend helpers in Dafny

This project models three pieces of GT4Py and proves properties about them.

* **The stencil cache** (`gt4py/backend/cache.py`). A stencil identity is a qualified name plus a
  version. The cache derives a class name, a module name and a package from it. It lays the
  generated module out on disk under a cache root, a runtime fingerprint directory and a
  slugified backend name. Next to the module it keeps a pickled "cache info" record. The record
  holds the backend, the stencil name and version, the GT4Py version and a hash of the module
  source. `check_cache` accepts a cached module only when that record is a dictionary and
  matches the live identity and the live source hash. Every failure inside it counts as a miss.
* **The GTIR upcasting pass** (`gtc/passes/gtir_upcaster.py`). The pass visits a tree bottom-up:
  * the operands of a binary operation, the two branches of a ternary operation, and the
    arguments of a native function call are each promoted jointly to the widest dtype among them;
  * the right side of an assignment is cast to the dtype of its left side;
  * a node is rebuilt only when one of its children changed.
* **Backend helpers** (`gt4py/backend/base.py`):
  * the check of backend options against the backend's option definitions;
  * the options identifier, which hashes only the versioning options, sorted;
  * the stencil call signature;
  * the read-only/read-write classification of field arguments;
  * the backend registry (`register`, `from_name`).

Layout:

| file | module | contents |
|---|---|---|
| `outcomes.dfy` | `Outcomes` | `Option` and `Result` (a value or the exception Python would raise) |
| `values.dfy` | `Values` | the pickle-able values a cache record holds |
| `text.dfy` | `Text` | `str.join`, `str.split`, Python's string order |
| `cache.dfy` | `Cache` | names, paths, the file system as a map, cache records, `update_cache`, `check_cache` |
| `cache_properties.dfy` | `CacheProperties` | path layout, round trip, tamper detection, isolation |
| `gtir.dfy` | `Gtir` | expression and statement nodes, each node with its stored dtype; "explicit" trees |
| `gtir_upcaster.dfy` | `GtirUpcaster` | `_upcast_node`, `_upcast_nodes`, `_update_node`, the visitors, `upcast` |
| `gtir_upcaster_properties.dfy` | `GtirUpcasterProperties` | fixpoint, idempotence, promotion examples |
| `backend_base.dfy` | `BackendBase` | option check, options id, signature, access classification, registry |
| `backend_base_properties.dfy` | `BackendBaseProperties` | order independence of the options id, signature shape, registry round trip |

Some things the code reads from its environment are parameters of the model, carried by a
`Settings` value:
* the configured cache root and directory name;
* the runtime fingerprint (`py<major><minor>_<api>`);
* the root package name;
* the GT4Py version;
* `shash` and `slugify`.

`shashed_id` is a function parameter of `MakeOptionsId`. A file system is a map from path to
file contents.

## Model

| member | source | states |
|---|---|---|
| Text.JoinSplit | src/gt4py/backend/cache.py:28 | Joining the pieces of `split(".")` with "." gives back the qualified name, so splitting loses nothing. |
| Cache.Components | src/gt4py/backend/cache.py:28 | Splitting a qualified name always yields at least one component, and no component contains a dot. |
| CacheProperties.ComponentsOfJoined | src/gt4py/backend/cache.py:28 | The components of `p1.….pN.name`, built from dot-free segments, are exactly those segments. |
| CacheProperties.ClassNameFromSegments | src/gt4py/backend/cache.py:27-43 | `ClassName` and unqualified `ModuleName`: for identity `p1.….pN.name` at version `v`, the class name is `name__v` and the unqualified module name is `m_name__v`. |
| CacheProperties.QualifiedModuleNameFromSegments | src/gt4py/backend/cache.py:33-43 | `PackageName` and qualified `ModuleName`: the package name is the root package followed by `p1 … pN`, joined by "."; the qualified module name appends `m_name__v`. |
| CacheProperties.PathJoinRules | src/gt4py/backend/cache.py:48-50 | `Cache.PathJoin` is POSIX `os.path.join` of two paths: an absolute second path replaces the first; a relative one after a root without trailing "/" is their "/"-join; the result always ends with the second path. |
| CacheProperties.PathJoinAllIsJoin | src/gt4py/backend/cache.py:63 | `Cache.PathJoinAll`, i.e. `os.path.join(base, *parts)`: with a non-empty base without trailing "/" (absolute or not) and plain relative parts, it is the "/"-join of the base and the parts. |
| CacheProperties.BasePathLayout | src/gt4py/backend/cache.py:46-58 | `Cache.BasePath` is `<root>/<dir>/<fingerprint>/<slug(backend)>` for a possibly absolute root and plain segments, and again has no trailing "/". |
| CacheProperties.LayoutPieces | src/gt4py/backend/cache.py:61-72 | `Cache.PackagePath` for identity `p1.….pN.name` is the base path followed by `p1 … pN`; the module path is the package path, "/", and `m_name__v.py`. |
| Cache.ModulePath | src/gt4py/backend/cache.py:67-72 | Every module path ends in ".py", which is what the `[:-3]` slice of the cache-info path relies on. |
| CacheProperties.ModulePathLayout | src/gt4py/backend/cache.py:46-72 | With a possibly absolute root and plain segments the module lives at `<root>/<dir>/<fingerprint>/<slug(backend)>/p1/…/pN/m_name__v.py`. |
| CacheProperties.CacheInfoBesideModule | src/gt4py/backend/cache.py:75-77 | `Cache.CacheInfoPath`: the cache-info file sits in the package directory as `m_name__v.cacheinfo`, and it is never the module file itself. |
| CacheProperties.ModuleAndInfoPathsDiffer | src/gt4py/backend/cache.py:67-77 | No module path of any identity or backend equals any cache-info path. |
| Cache.GenerateCacheInfo | src/gt4py/backend/cache.py:80-93 | Fails exactly when the module cannot be read as text. Otherwise the keys are the five standard ones plus the extra ones. Extra entries win on a shared key. Each standard entry that no extra key overrides holds its live value, the hash being of the module text. |
| Cache.UpdateCache | src/gt4py/backend/cache.py:96-101 | Fails exactly when the module is unreadable. Otherwise the record is stored, pickled, at the cache-info path, and no other file is added or changed. |
| Cache.ValidateCacheInfo | src/gt4py/backend/cache.py:104-123 | True exactly when the module reads as text and the record's backend, stencil name, version and module hash all equal the live values. A missing key or an unreadable module gives false. |
| Cache.CheckCache | src/gt4py/backend/cache.py:126-137 | True exactly when the cache-info file exists, unpickles to a dictionary, and that dictionary validates. Every other case gives false. |
| CacheProperties.RoundTrip | src/gt4py/backend/cache.py:96-137 | After updating the cache for a readable module, checking the same identity succeeds, provided the extra info does not shadow a validated key. |
| CacheProperties.TamperDetected | src/gt4py/backend/cache.py:104-123 | After an update, replacing the module by text with another hash makes the check fail. |
| CacheProperties.LostModuleDetected | src/gt4py/backend/cache.py:104-123 | After an update, removing the module or making it unreadable makes the check fail. |
| CacheProperties.UpdateIsolation | src/gt4py/backend/cache.py:96-137 | An update leaves another identity's check result unchanged, unless both identities share the cache-info file; in that case the other check becomes false. |
| CacheProperties.SharedFilesStillRejected | src/gt4py/backend/cache.py:113-118 | Identities `a`@`b__c` and `a__b`@`c` share every file. After caching the first, the second still checks false, because the record names another stencil. |
| CacheProperties.ValidationIgnoresOtherKeys | src/gt4py/backend/cache.py:113-118 | Validation depends only on the four compared entries; `gt4py_version` and extra keys never matter. |
| GtirUpcaster.UpcastNode | src/gtc/passes/gtir_upcaster.py:24-25 | The result has the target dtype. It is the node itself exactly when the node already has that dtype, and otherwise one cast of it. It keeps the tree up to casts. |
| GtirUpcaster.MaxDType | src/gtc/passes/gtir_upcaster.py:29 | `max` of a non-empty list of dtypes is one of them and is no smaller than any of them. |
| GtirUpcaster.UpcastNodes | src/gtc/passes/gtir_upcaster.py:28-30 | Count and order are kept, no dtype narrows, and all results share one dtype. At least one operand is returned untouched; the others are each wrapped in one cast. |
| GtirUpcaster.UpcastNodesTarget | src/gtc/passes/gtir_upcaster.py:29-30 | The shared dtype is the maximum of the operands' dtypes. |
| GtirUpcaster.UpcastNodesUniform | src/gtc/passes/gtir_upcaster.py:28-30 | Operands that already share a dtype are all returned unchanged. |
| GtirUpcaster.UpdateNode | src/gtc/passes/gtir_upcaster.py:33-39 | The result has the new children and otherwise the same node. It is the original node exactly when no child changed. |
| GtirUpcaster.VisitBinaryOp | src/gtc/passes/gtir_upcaster.py:50-52 | The visit keeps the node kind and stored dtype, and keeps the tree up to casts. The result has every dtype transition explicit. |
| GtirUpcaster.VisitTernaryOp | src/gtc/passes/gtir_upcaster.py:54-60 | As for binary operations, for the ternary node. |
| GtirUpcaster.VisitNativeFuncCall | src/gtc/passes/gtir_upcaster.py:62-64 | As for binary operations, for a call with at least one argument in every nested call. |
| GtirUpcaster.VisitParAssignStmt | src/gtc/passes/gtir_upcaster.py:66-68 | The result is an assignment with the same left side, unvisited. Its right side is exactly the visited right side upcast to the left side's dtype. The node is kept exactly when that right side equals the old one. The assignment ends explicit and equal up to casts. |
| GtirUpcasterProperties.AssignmentRightUpcastToLeft | src/gtc/passes/gtir_upcaster.py:66-68 | Through the statement dispatch, an assignment keeps its left side and gets the visited right side upcast to the left's dtype, and is returned unchanged exactly when that upcast equals the old right side. |
| GtirUpcaster.GenericVisit | src/gtc/passes/gtir_upcaster.py:42-48 | A node kind without a rule of its own (a cast or another node) gets no cast. It becomes the same node over its visited children, so it keeps the root kind and dtype and the tree up to casts. Every dtype transition ends explicit. |
| GtirUpcasterProperties.OtherKindsOnlyRebuilt | src/gtc/passes/gtir_upcaster.py:42-48 | Through the visit's dispatch, another node kind becomes the same node over its visited operands, and a cast becomes the same cast of its visited operand. |
| GtirUpcaster.VisitStmt | src/gtc/passes/gtir_upcaster.py:42-48 | A visited statement keeps its kind, an assignment's left side, and the tree up to casts. All its expressions end with every dtype transition explicit. A statement other than an assignment becomes the same statement over its visited expressions and sub-statements, with no cast added. |
| GtirUpcasterProperties.OtherStmtsOnlyRebuilt | src/gtc/passes/gtir_upcaster.py:42-48 | A statement other than an assignment (loops, sections, the stencil root) is exactly the same statement over its visited expressions and visited sub-statements. |
| GtirUpcaster.Visit | src/gtc/passes/gtir_upcaster.py:42-48 | Any visited expression ends with all dtype transitions explicit, the same tree up to casts, and the same root kind and dtype (the class's stated postcondition). |
| GtirUpcaster.Upcast | src/gtc/passes/gtir_upcaster.py:71-72 | The pass fails (the `ValueError` of `max([])`) exactly when a visited native call has no arguments. Otherwise the result is explicit and equal to the input up to casts. |
| GtirUpcasterProperties.FixpointIffExplicit | src/gtc/passes/gtir_upcaster.py:42-48 | A tree is returned unchanged exactly when all its dtype transitions are already explicit. |
| GtirUpcasterProperties.UpcastFixesExplicit | src/gtc/passes/gtir_upcaster.py:33-39 | An explicit tree is its own upcast: nothing is rebuilt. |
| GtirUpcasterProperties.UpcastIdempotent | src/gtc/passes/gtir_upcaster.py:71-72 | Running the pass on its own output gives the same output. |
| GtirUpcasterProperties.BinaryOpOperandsPromoted | src/gtc/passes/gtir_upcaster.py:50-52 | Both operands end at the wider of the visited operands' dtypes. Each is its visited operand, cast only when narrower. |
| GtirUpcasterProperties.BinaryOpPromotesNarrowerOperand | src/gtc/passes/gtir_upcaster.py:50-52 | With explicit operands of dtypes `a < b`, exactly the left operand is wrapped in a cast to `b`. |
| GtirUpcasterProperties.TernaryOpBranchesPromoted | src/gtc/passes/gtir_upcaster.py:54-60 | The branches are promoted jointly. The condition is only visited, never cast. |
| GtirUpcasterProperties.NativeFuncCallArgsPromoted | src/gtc/passes/gtir_upcaster.py:62-64 | All visited arguments reach the widest of their dtypes, in their original count and order. |
| GtirUpcasterProperties.CallPromotesArgumentsJointly | src/gtc/passes/gtir_upcaster.py:62-64 | For explicit arguments of dtypes `a, a, b` with `a < b`, exactly the two narrower arguments get a cast to `b`. |
| GtirUpcasterProperties.CallWithoutArgsFails | src/gtc/passes/gtir_upcaster.py:29 | A native call without arguments on a visited side makes the whole pass fail. |
| GtirUpcasterProperties.AssignmentCastsToLeft | src/gtc/passes/gtir_upcaster.py:66-68 | When the right side has a different dtype from the left side, even a wider one, it is cast to the left side's dtype. |
| GtirUpcasterProperties.LeftSideIsNotVisited | src/gtc/passes/gtir_upcaster.py:66-68 | An argument-less call on an assignment's left side neither fails the pass nor changes. |
| BackendBase.CheckOptions | src/gt4py/backend/base.py:207-211 | Without option definitions the assertion fails. Otherwise the check passes exactly when every option name is defined, and a failure reports exactly the undefined names. |
| BackendBase.OptionsIdParts | src/gt4py/backend/base.py:66-83 | The hashed arguments are the options' name, then its module, then `(key, value)` pairs for exactly the options whose definition versions. Each pair has a string key, and the keys strictly increase, so each versioning option appears once, in sorted order. |
| BackendBase.SortByKey | src/gt4py/backend/base.py:75-80 | The pairs come out strictly ordered by key under Python's string order, as a permutation of the input. |
| BackendBase.MakeOptionsId | src/gt4py/backend/base.py:66-83 | Fails when there are no option definitions; otherwise gives the hash of those arguments. |
| BackendBaseProperties.OptionsIdDependsOnlyOnVersioningOptions | src/gt4py/backend/base.py:66-83 | Two build options with the same name, module and versioning key/value pairs get the same identifier. |
| BackendBaseProperties.OptionsIdIgnoresOrder | src/gt4py/backend/base.py:74-80 | Reordering `backend_opts` keeps the identifier. |
| BackendBaseProperties.OptionsIdIgnoresUnversionedOption | src/gt4py/backend/base.py:67-69 | Adding an option whose definition does not version keeps the identifier. |
| BackendBase.GenerateSignature | src/gt4py/backend/base.py:411-432 | The signature is the ", "-join of the positional arguments. When some keyword argument exists, `*` and then the keyword arguments follow. |
| BackendBaseProperties.RenderArgSplitsBack | src/gt4py/backend/base.py:416-426 | `BackendBase.RenderArg` is `name=default` or `name`: splitting the rendered text at "=" gives back the name and the default, when neither contains "=". |
| BackendBaseProperties.RenderedInOrder | src/gt4py/backend/base.py:414-426 | Each kind's arguments are rendered one by one in API-signature order: `name=default` with a default, `name` without. |
| BackendBaseProperties.SignaturePieces | src/gt4py/backend/base.py:411-432 | The signature has one piece per argument, plus one `*` exactly when a keyword argument exists. |
| BackendBaseProperties.StarIffKeywordArgument | src/gt4py/backend/base.py:413-429 | When no argument is named `*`, a `*` piece appears exactly when some argument is keyword-only. |
| BackendBase.CollectOutFields | src/gt4py/backend/base.py:307-317 | A name is an out field exactly when some stage of some multi-stage has a read-write field accessor for it. |
| BackendBase.ClassifyArguments | src/gt4py/backend/base.py:319-342 | Raises exactly when a referenced non-field argument has no parameter entry. The error names the first such argument in signature order. Otherwise field and parameter names are listed in signature order, each with its entry. An unreferenced argument gets `None` and is still listed. |
| BackendBase.ClassifyAccesses | src/gt4py/backend/base.py:307-342 | Fails exactly when a referenced non-field argument has no parameter entry, and names the first such argument in signature order. Otherwise the field names are the field arguments in signature order, and exactly those names have a field entry. A listed, referenced field is read-write exactly when some stage writes it, and read-only otherwise; its entry is `None` exactly when it is unreferenced. The parameter names are the other arguments in signature order, each with its parameter entry, or `None` when unreferenced. |
| BackendBase.Register | src/gt4py/backend/base.py:43-53 | A class with a string name is entered under that name and leaves other names alone. Any other name raises `ValueError`. |
| BackendBase.FromName | src/gt4py/backend/base.py:38-40 | An unregistered name gives `None`; a registered one gives the class instantiated with the name. |
| BackendBaseProperties.RegisterThenFromName | src/gt4py/backend/base.py:38-53 | After registering, looking the name up builds that class, and every other name resolves as before. |

## Left out

- Side effects of the file system are left out: directory creation in `get_base_path` and `update_cache`, file handles, the pickle byte format, and text decoding. A file is either source text, a pickled value or unreadable. Paths are compared as strings, with no aliasing through `.`, `..` or links.
- The runtime fingerprint from `sys.version_info`, the configuration values, `shash`, `slugify` and `shashed_id` are parameters, not modelled functions.
- Concurrent updates of the same cache entry by several processes are not modelled.
- Cache records have string keys only. `SimpleNamespace(**info)` rejecting non-string keys is therefore not modelled.
- The `CacheEntry` class in `gt4py/backend/base.py` is not modelled. It duplicates `cache.py` with methods that cannot run, so the `cache.py` functions are modelled instead. For the same reason `BaseBackend.load`, `_load`, `generate` and `_generate_module` are not modelled.
- The rest of `BaseModuleGenerator.__call__` is not modelled. That covers domain info, externals, template rendering, the synchronization and mark-modified lists, and source formatting.
- ClassifyArguments: the `boundary` of a field's info, taken from `fields_extents`, is not modelled, and neither is the `KeyError` when that entry is missing. A field's or parameter's dtype is the string stored for it.
- Register: `gt4py.utils.Registry` is not part of this model. Registering a name again is modelled as replacing the old class, and the registry's return value is not modelled.
- Register: the `issubclass(backend_cls, Backend)` assertion is not modelled; every `BackendClass` value stands for a subclass.
- FromName: the backend's constructor is modelled only as receiving the name.
- MakeOptionsId: an option definition always carries its `versioning` flag, so the `KeyError` for a missing flag is not modelled. The `(key, value)` tuples are passed to the hash as two-element lists. `backend_opts` has distinct keys, as a dictionary does.
- GenerateSignature: a default is given by its rendered text, and the `Empty` marker is `None`.
- CheckOptions: the text of the error message is not modelled; the error carries the set of unknown names.
- Dtypes are integer codes ordered as in the dtype enumeration. Every integer code is accepted, and unresolved codes (`Auto`, `Default`) are not told apart from resolved ones, so the pass's stated precondition that all dtypes are resolved is not enforced; on such codes the model computes Python's `max` like on any other.
- Node kinds without a visitor of their own are the generic `Other` (expressions) and `OtherStmt` (statements, including the stencil root), whose expression and statement children are visited. Non-node fields such as names and locations are kept in the node's `kind`.
- A rebuilt node keeps its stored dtype, as a pydantic `copy(update=...)` does, because validators are not re-run.
- `_update_node` compares children by structural equality.
- Upcast: the error of `max([])` is decided before the traversal instead of during it. The traversal is total, so the outcome is the same.
