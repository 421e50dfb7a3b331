/**
 * Properties of the build cache: the on-disk layout, the update/check round
 * trip, detection of a changed module, and isolation between identities.
 */
module CacheProperties {
  import opened Values
  import Text
  import opened Cache

  /** A path segment `os.path.join` neither drops nor merges: non-empty, no leading or trailing "/". */
  predicate PlainSegment(x: string)
  {
    |x| > 0 && x[0] != '/' && x[|x| - 1] != '/'
  }

  /**
   * The leftmost path of a join: non-empty and without a trailing "/", but
   * possibly absolute, as a cache root usually is.
   */
  predicate RootSegment(x: string)
  {
    |x| > 0 && x[|x| - 1] != '/'
  }

  /**
   * POSIX `os.path.join(a, b)`: an absolute `b` replaces `a`; a relative `b`
   * after a root segment `a` is their "/"-join; and the result always ends
   * with `b`.
   */
  lemma PathJoinRules(a: string, b: string)
    ensures |b| > 0 && b[0] == '/' ==> PathJoin(a, b) == b
    ensures RootSegment(a) && !(|b| > 0 && b[0] == '/') ==> PathJoin(a, b) == Text.Join([a, b], "/")
    ensures |PathJoin(a, b)| >= |b| && PathJoin(a, b)[|PathJoin(a, b)| - |b|..] == b
  {
    assert [a, b][1..] == [b];
  }

  /** With a root and plain segments, `os.path.join(base, *parts)` is the "/"-join of all of them. */
  lemma {:induction false} PathJoinAllIsJoin(base: string, parts: seq<string>)
    requires RootSegment(base)
    requires forall i :: 0 <= i < |parts| ==> PlainSegment(parts[i])
    ensures PathJoinAll(base, parts) == Text.Join([base] + parts, "/")
    decreases |parts|
  {
    if |parts| > 0 {
      var head := base + "/" + parts[0];
      assert PathJoin(base, parts[0]) == head;
      PathJoinAllIsJoin(head, parts[1..]);
      if |parts| == 1 {
        assert [head] + parts[1..] == [head];
        assert [base] + parts == [base, parts[0]];
        assert ([base, parts[0]])[1..] == [parts[0]];
      } else {
        assert ([head] + parts[1..])[1..] == parts[1..];
        assert ([base] + parts)[1..] == parts;
        assert parts[1..][0] == parts[1];
        assert Text.Join(parts, "/") == parts[0] + "/" + Text.Join(parts[1..], "/");
      }
    }
  }

  /** From dot-free segments, `Components` recovers the segments the qualified name was joined from. */
  lemma ComponentsOfJoined(packages: seq<string>, name: string, version: string)
    requires forall i :: 0 <= i < |packages| ==> '.' !in packages[i]
    requires '.' !in name
    ensures Components(StencilId(Text.Join(packages + [name], "."), version)) == packages + [name]
  {
    var parts := packages + [name];
    assert forall i :: 0 <= i < |parts| ==> '.' !in parts[i] by {
      forall i | 0 <= i < |parts| ensures '.' !in parts[i] {
        if i < |packages| { assert parts[i] == packages[i]; }
      }
    }
    Text.SplitJoin(parts, '.');
  }

  /**
   * For the identity `pkg1. ... .pkgN.name` with version `v`, the class name is
   * `name__v` and the module name `m_name__v`.
   */
  lemma ClassNameFromSegments(s: Settings, packages: seq<string>, name: string, version: string)
    requires forall i :: 0 <= i < |packages| ==> '.' !in packages[i]
    requires '.' !in name
    ensures ClassName(StencilId(Text.Join(packages + [name], "."), version)) == name + "__" + version
    ensures ModuleName(s, StencilId(Text.Join(packages + [name], "."), version), false) == "m_" + name + "__" + version
  {
    SegmentsOfJoined(packages, name, version);
  }

  /**
   * For the identity `pkg1. ... .pkgN.name` with version `v`, the package name
   * is the root package and the package segments joined by ".", and the
   * qualified module name appends `m_name__v` to them.
   */
  lemma QualifiedModuleNameFromSegments(s: Settings, packages: seq<string>, name: string, version: string)
    requires forall i :: 0 <= i < |packages| ==> '.' !in packages[i]
    requires '.' !in name
    ensures PackageName(s, StencilId(Text.Join(packages + [name], "."), version))
      == Text.Join([s.rootPackageName] + packages, ".")
    ensures ModuleName(s, StencilId(Text.Join(packages + [name], "."), version), true)
      == Text.Join([s.rootPackageName] + packages + ["m_" + name + "__" + version], ".")
  {
    var id := StencilId(Text.Join(packages + [name], "."), version);
    SegmentsOfJoined(packages, name, version);
    ClassNameFromSegments(s, packages, name, version);
    var pkg := Text.Join([s.rootPackageName] + packages, ".");
    assert PackageName(s, id) == pkg;
    assert ModuleName(s, id, true) == PackageName(s, id) + "." + ModuleName(s, id, false);
    Text.JoinSnoc([s.rootPackageName] + packages, "m_" + name + "__" + version, ".");
  }

  /** The last segment and the package segments of a qualified name joined from segments. */
  lemma SegmentsOfJoined(packages: seq<string>, name: string, version: string)
    requires forall i :: 0 <= i < |packages| ==> '.' !in packages[i]
    requires '.' !in name
    ensures LastSegment(StencilId(Text.Join(packages + [name], "."), version)) == name
    ensures PackageSegments(StencilId(Text.Join(packages + [name], "."), version)) == packages
  {
    ComponentsOfJoined(packages, name, version);
    var c := packages + [name];
    assert c[..|c| - 1] == packages;
  }

  /**
   * The persisted layout:
   * `<root>/<dir>/<fingerprint>/<slug(backend)>/<package segments>/m_<name>__<version>.py`
   * when the cache root is a root segment (absolute or not) and every other
   * segment is plain.
   */
  lemma ModulePathLayout(s: Settings, backendId: string, packages: seq<string>, name: string, version: string)
    requires forall i :: 0 <= i < |packages| ==> '.' !in packages[i] && PlainSegment(packages[i])
    requires '.' !in name
    requires RootSegment(s.rootPath) && PlainSegment(s.dirName) && PlainSegment(s.runtimeId)
    requires PlainSegment(s.slugify(backendId))
    ensures ModulePath(s, backendId, StencilId(Text.Join(packages + [name], "."), version)) ==
      Text.Join([s.rootPath, s.dirName, s.runtimeId, s.slugify(backendId)] + packages
                + ["m_" + name + "__" + version + ".py"], "/")
  {
    var top := [s.rootPath, s.dirName, s.runtimeId, s.slugify(backendId)];
    var file := "m_" + name + "__" + version + ".py";
    LayoutPieces(s, backendId, packages, name, version);
    NestedJoin(top, BasePath(s, backendId), packages, file, "/");
  }

  /** The three steps of the layout: base directory, package directory, module file. */
  lemma LayoutPieces(s: Settings, backendId: string, packages: seq<string>, name: string, version: string)
    requires forall i :: 0 <= i < |packages| ==> '.' !in packages[i] && PlainSegment(packages[i])
    requires '.' !in name
    requires RootSegment(s.rootPath) && PlainSegment(s.dirName) && PlainSegment(s.runtimeId)
    requires PlainSegment(s.slugify(backendId))
    ensures BasePath(s, backendId) == Text.Join([s.rootPath, s.dirName, s.runtimeId, s.slugify(backendId)], "/")
    ensures var id := StencilId(Text.Join(packages + [name], "."), version);
      && PackagePath(s, backendId, id) == Text.Join([BasePath(s, backendId)] + packages, "/")
      && ModulePath(s, backendId, id) == PackagePath(s, backendId, id) + "/" + ("m_" + name + "__" + version + ".py")
  {
    var id := StencilId(Text.Join(packages + [name], "."), version);
    var base := BasePath(s, backendId);
    var pkg := PackagePath(s, backendId, id);
    BasePathLayout(s, backendId);
    assert pkg == Text.Join([base] + packages, "/") && RootSegment(pkg) by {
      SegmentsOfJoined(packages, name, version);
      PackagePathLayout(base, packages);
    }
    var file := "m_" + name + "__" + version + ".py";
    assert ModuleName(s, id, false) + ".py" == file by {
      ClassNameFromSegments(s, packages, name, version);
    }
    ModuleFileInPackage(pkg, file);
  }

  lemma ModuleFileInPackage(pkg: string, file: string)
    requires RootSegment(pkg)
    requires |file| > 0 && file[0] != '/'
    ensures PathJoin(pkg, file) == pkg + "/" + file
  {
  }

  /** Joining the head list, then the middle, then the last part is joining all of them. */
  lemma NestedJoin(top: seq<string>, base: string, middle: seq<string>, last: string, sep: string)
    requires |top| >= 1
    requires base == Text.Join(top, sep)
    ensures Text.Join([base] + middle, sep) + sep + last == Text.Join(top + middle + [last], sep)
  {
    Text.JoinSnoc([base] + middle, last, sep);
    FlattenHead(top, middle + [last], sep);
    assert [base] + middle + [last] == [base] + (middle + [last]);
    assert top + middle + [last] == top + (middle + [last]);
  }

  /** `<root>/<dir>/<fingerprint>/<slug>` for a root segment and three plain ones. */
  lemma BasePathLayout(s: Settings, backendId: string)
    requires RootSegment(s.rootPath) && PlainSegment(s.dirName) && PlainSegment(s.runtimeId)
    requires PlainSegment(s.slugify(backendId))
    ensures BasePath(s, backendId) == Text.Join([s.rootPath, s.dirName, s.runtimeId, s.slugify(backendId)], "/")
    ensures RootSegment(BasePath(s, backendId))
  {
    var top := [s.rootPath, s.dirName, s.runtimeId, s.slugify(backendId)];
    var two := s.rootPath + "/" + s.dirName;
    var three := two + "/" + s.runtimeId;
    assert PathJoin(s.rootPath, s.dirName) == two;
    assert PathJoin(two, s.runtimeId) == three;
    assert BasePath(s, backendId) == three + "/" + s.slugify(backendId);
    assert top == [s.rootPath, s.dirName] + [s.runtimeId] + [s.slugify(backendId)];
    Text.JoinSnoc([s.rootPath, s.dirName], s.runtimeId, "/");
    Text.JoinSnoc([s.rootPath, s.dirName] + [s.runtimeId], s.slugify(backendId), "/");
    assert Text.Join([s.rootPath, s.dirName], "/") == two by {
      assert [s.rootPath, s.dirName][1..] == [s.dirName];
    }
  }

  /** The package directory is the "/"-join of the base and the package segments, and is again a root segment. */
  lemma PackagePathLayout(base: string, packages: seq<string>)
    requires RootSegment(base)
    requires forall i :: 0 <= i < |packages| ==> PlainSegment(packages[i])
    ensures PathJoinAll(base, packages) == Text.Join([base] + packages, "/")
    ensures RootSegment(PathJoinAll(base, packages))
  {
    PathJoinAllIsJoin(base, packages);
    if |packages| == 0 {
      assert [base] + packages == [base];
    } else {
      Text.JoinConcat([base], packages, "/");
      LastOfJoin(packages, "/");
    }
  }

  /** Joining a non-empty head list first and then the rest is the join of everything. */
  lemma FlattenHead(xs: seq<string>, ys: seq<string>, sep: string)
    requires |xs| >= 1 && |ys| >= 1
    ensures Text.Join([Text.Join(xs, sep)] + ys, sep) == Text.Join(xs + ys, sep)
  {
    Text.JoinConcat([Text.Join(xs, sep)], ys, sep);
    Text.JoinConcat(xs, ys, sep);
  }

  /** The "/"-join of plain segments ends like the last one. */
  lemma {:induction false} LastOfJoin(parts: seq<string>, sep: string)
    requires |parts| >= 1 && |parts[|parts| - 1]| > 0
    ensures var j := Text.Join(parts, sep); |j| > 0 && j[|j| - 1] == parts[|parts| - 1][|parts[|parts| - 1]| - 1]
  {
    if |parts| > 1 {
      LastOfJoin(parts[1..], sep);
    }
  }

  /**
   * The cache-info path is the module path with ".cacheinfo" in place of
   * ".py": both sit in the package directory, and they never coincide.
   */
  lemma CacheInfoBesideModule(s: Settings, backendId: string, id: StencilId)
    ensures CacheInfoPath(s, backendId, id) == PathJoin(PackagePath(s, backendId, id), ModuleName(s, id, false) + ".cacheinfo")
    ensures ModulePath(s, backendId, id) == PathJoin(PackagePath(s, backendId, id), ModuleName(s, id, false) + ".py")
    ensures ModulePath(s, backendId, id) != CacheInfoPath(s, backendId, id)
  {
    var m := ModuleName(s, id, false);
    assert m[0] == 'm';
    SwapExtension(PackagePath(s, backendId, id), m);
    ModuleAndInfoPathsDiffer(s, backendId, id, backendId, id);
  }

  /** Dropping ".py" from a joined file name and appending ".cacheinfo" joins the ".cacheinfo" name instead. */
  lemma SwapExtension(pkg: string, m: string)
    requires |m| > 0 && m[0] != '/'
    ensures var p := PathJoin(pkg, m + ".py");
      p[..|p| - 3] + ".cacheinfo" == PathJoin(pkg, m + ".cacheinfo")
  {
    var p := PathJoin(pkg, m + ".py");
    if |pkg| == 0 || pkg[|pkg| - 1] == '/' {
      assert p == (pkg + m) + ".py";
      assert p[..|p| - 3] == pkg + m;
    } else {
      assert p == (pkg + "/" + m) + ".py";
      assert p[..|p| - 3] == pkg + "/" + m;
    }
  }

  /** A module path ends in "y" and a cache-info path in "o", so no module path is any cache-info path. */
  lemma ModuleAndInfoPathsDiffer(s: Settings, b1: string, id1: StencilId, b2: string, id2: StencilId)
    ensures ModulePath(s, b1, id1) != CacheInfoPath(s, b2, id2)
  {
    var p := ModulePath(s, b1, id1);
    var q := CacheInfoPath(s, b2, id2);
    assert p[|p| - 1] == 'y';
    assert q[|q| - 1] == 'o';
  }

  /** Extra build info that does not overwrite any of the four validated entries. */
  predicate NoShadowing(extra: map<string, Value>)
  {
    forall k :: k in ValidatedKeys ==> k !in extra
  }

  /** Updating the cache for a readable module, then checking it, succeeds. */
  lemma RoundTrip(s: Settings, fs: FileSystem, backendId: string, id: StencilId, extra: map<string, Value>)
    requires ReadText(fs, ModulePath(s, backendId, id)).Success?
    requires NoShadowing(extra)
    ensures UpdateCache(s, fs, backendId, id, extra).Success?
    ensures CheckCache(s, UpdateCache(s, fs, backendId, id, extra).value, backendId, id)
  {
    var fs' := UpdateCache(s, fs, backendId, id, extra).value;
    ModuleAndInfoPathsDiffer(s, backendId, id, backendId, id);
    assert fs'[ModulePath(s, backendId, id)] == fs[ModulePath(s, backendId, id)];
  }

  /** After the update, replacing the module text by one with another hash makes the check fail. */
  lemma TamperDetected(s: Settings, fs: FileSystem, backendId: string, id: StencilId,
                       extra: map<string, Value>, newText: string)
    requires ReadText(fs, ModulePath(s, backendId, id)).Success?
    requires NoShadowing(extra)
    requires s.shash(newText) != s.shash(ReadText(fs, ModulePath(s, backendId, id)).value)
    ensures UpdateCache(s, fs, backendId, id, extra).Success?
    ensures !CheckCache(s, UpdateCache(s, fs, backendId, id, extra).value[ModulePath(s, backendId, id) := Source(newText)],
                        backendId, id)
  {
    ModuleAndInfoPathsDiffer(s, backendId, id, backendId, id);
  }

  /** After the update, removing or corrupting the module file makes the check fail. */
  lemma LostModuleDetected(s: Settings, fs: FileSystem, backendId: string, id: StencilId,
                           extra: map<string, Value>, damaged: File)
    requires ReadText(fs, ModulePath(s, backendId, id)).Success?
    requires !damaged.Source?
    ensures UpdateCache(s, fs, backendId, id, extra).Success?
    ensures !CheckCache(s, UpdateCache(s, fs, backendId, id, extra).value[ModulePath(s, backendId, id) := damaged],
                        backendId, id)
    ensures !CheckCache(s, UpdateCache(s, fs, backendId, id, extra).value - {ModulePath(s, backendId, id)},
                        backendId, id)
  {
    ModuleAndInfoPathsDiffer(s, backendId, id, backendId, id);
  }

  /**
   * An update for `(backendId, id)` touches no other identity's answer unless
   * the two share a cache-info file, in which case the other identity's check
   * fails: the record names a different backend or stencil.
   */
  lemma UpdateIsolation(s: Settings, fs: FileSystem, backendId: string, id: StencilId,
                        extra: map<string, Value>, otherBackend: string, otherId: StencilId)
    requires ReadText(fs, ModulePath(s, backendId, id)).Success?
    requires NoShadowing(extra)
    requires otherBackend != backendId || otherId != id
    ensures UpdateCache(s, fs, backendId, id, extra).Success?
    ensures CheckCache(s, UpdateCache(s, fs, backendId, id, extra).value, otherBackend, otherId) ==
      (CacheInfoPath(s, otherBackend, otherId) != CacheInfoPath(s, backendId, id)
       && CheckCache(s, fs, otherBackend, otherId))
  {
    var fs' := UpdateCache(s, fs, backendId, id, extra).value;
    ModuleAndInfoPathsDiffer(s, otherBackend, otherId, backendId, id);
    var mp := ModulePath(s, otherBackend, otherId);
    assert ReadText(fs', mp) == ReadText(fs, mp);
  }

  /**
   * Two different identities can share every file: `a` at version `b__c` and
   * `a__b` at version `c` both live in `m_a__b__c.py`. After an update for the
   * first, the second still checks false.
   */
  lemma SharedFilesStillRejected(s: Settings, fs: FileSystem, backendId: string, extra: map<string, Value>)
    requires ReadText(fs, ModulePath(s, backendId, StencilId("a", "b__c"))).Success?
    requires NoShadowing(extra)
    ensures ModulePath(s, backendId, StencilId("a", "b__c")) == ModulePath(s, backendId, StencilId("a__b", "c"))
    ensures CacheInfoPath(s, backendId, StencilId("a", "b__c")) == CacheInfoPath(s, backendId, StencilId("a__b", "c"))
    ensures UpdateCache(s, fs, backendId, StencilId("a", "b__c"), extra).Success?
    ensures !CheckCache(s, UpdateCache(s, fs, backendId, StencilId("a", "b__c"), extra).value,
                        backendId, StencilId("a__b", "c"))
  {
    var id1 := StencilId("a", "b__c");
    var id2 := StencilId("a__b", "c");
    Text.SplitPlain("a", '.');
    Text.SplitPlain("a__b", '.');
    assert ClassName(id1) == ClassName(id2);
    UpdateIsolation(s, fs, backendId, id1, extra, backendId, id2);
  }

  /** Validation reads only the four validated entries: `gt4py_version` and extra keys never matter. */
  lemma ValidationIgnoresOtherKeys(s: Settings, fs: FileSystem, backendId: string, id: StencilId,
                                   info1: map<string, Value>, info2: map<string, Value>)
    requires forall k :: k in ValidatedKeys ==> (k in info1 <==> k in info2)
    requires forall k :: k in ValidatedKeys && k in info1 ==> info1[k] == info2[k]
    ensures ValidateCacheInfo(s, fs, backendId, id, info1) == ValidateCacheInfo(s, fs, backendId, id, info2)
  {
  }
}
