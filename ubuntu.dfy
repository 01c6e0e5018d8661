/**
 * The `Ubuntu` repository class of craft_parts/packages/deb.py. Its methods are
 * class methods with no state of their own; what they ask of the apt cache and
 * of the host is an input (`AptCache`, `RunOutcome`, the `dpkg-deb` outcomes of
 * `DebFile`), and what they do to the outside world is returned as a trace of
 * `Effect`s in the order the source performs them.
 */
module Ubuntu {
  import opened Wrappers
  import opened Text
  import opened Sorting
  import opened PackageNames
  import opened Deb

  /** The answers the apt cache gives during one repository operation. */
  datatype AptCache = AptCache(
    /** `get_installed_version(name, resolve_virtual_packages=True)`; absent means None */
    installed: map<string, string>,
    /** the name `mark_packages` reports as not found, if any */
    notFound: Option<string>,
    /** `get_packages_marked_for_installation()` after the marking */
    marked: seq<(string, string)>,
    /** `fetch_archives(dir)`: the fetched archives, or the message of a PackageFetchError */
    fetched: Result<seq<Archive>, string>)

  /** One fetched archive: `(pkg_name, pkg_version, dl_path)`. */
  datatype Archive = Archive(name: string, version: string, path: Path)

  /** Whether the `apt-get install` and `apt-mark auto` commands exit with status 0. */
  datatype RunOutcome = RunOutcome(installSucceeds: bool, autoMarkSucceeds: bool)

  /** What a repository operation does outside itself. */
  datatype Effect =
    | GetInstalledVersion(name: string)
      /** `AptCache(stage_cache=..., stage_cache_arch=...)`: the cache opened for staging */
    | OpenStageCache(stageCache: Path, arch: string)
    | MarkPackages(names: set<string>)
    | UnmarkPackages(names: set<string>)
    | GetPackagesMarked
    | FetchArchives(debCacheDir: Path)
    | Run(command: seq<string>)
    | Warning(message: string)

  // ---------------------------------------------------------------------
  // Source types
  // ---------------------------------------------------------------------

  /**
   * `get_packages_for_source_type(source_type)` as written: the subversion
   * branch compares the string with a list, which is never equal, so `svn`
   * and `subversion` fall through to the empty set.
   */
  function PackagesForSourceType(sourceType: string): (r: set<string>)
    ensures r == if sourceType in SourceTypePackages then {SourceTypePackages[sourceType]} else {}
    ensures |r| <= 1
    ensures r == {} <==> sourceType !in KnownSourceTypes - {"svn", "subversion"}
    ensures sourceType in {"svn", "subversion"} ==> r == {}
  {
    if sourceType == "bzr" then {"bzr"}
    else if sourceType == "git" then {"git"}
    else if sourceType == "tar" then {"tar"}
    else if sourceType in ["hg", "mercurial"] then {"mercurial"}
    else if sourceType == "rpm2cpio" then {"rpm2cpio"}
    else if sourceType == "7zip" then {"p7zip-full"}
    else {}
  }

  const KnownSourceTypes: set<string> :=
    {"bzr", "git", "tar", "hg", "mercurial", "svn", "subversion", "rpm2cpio", "7zip"}

  /** The tool package each source type needs, as the code is written. */
  const SourceTypePackages: map<string, string> := map[
    "bzr" := "bzr", "git" := "git", "tar" := "tar",
    "hg" := "mercurial", "mercurial" := "mercurial",
    "rpm2cpio" := "rpm2cpio", "7zip" := "p7zip-full"]

  /** The same table with the subversion branch as meant. */
  const IntendedSourceTypePackages: map<string, string> :=
    SourceTypePackages["svn" := "subversion"]["subversion" := "subversion"]

  /** The table the subversion branch evidently means: `svn` and `subversion` need `subversion`. */
  function PackagesForSourceTypeIntended(sourceType: string): (r: set<string>)
    ensures r == if sourceType in IntendedSourceTypePackages then {IntendedSourceTypePackages[sourceType]} else {}
    ensures |r| <= 1
    ensures r == {} <==> sourceType !in KnownSourceTypes
  {
    if sourceType in ["svn", "subversion"] then {"subversion"}
    else PackagesForSourceType(sourceType)
  }

  /** The two tables differ exactly on the subversion source types. */
  lemma SubversionDiscrepancy(sourceType: string)
    ensures PackagesForSourceType(sourceType) != PackagesForSourceTypeIntended(sourceType)
      <==> sourceType in {"svn", "subversion"}
    ensures PackagesForSourceType("svn") == {} && PackagesForSourceTypeIntended("svn") == {"subversion"}
  {
  }

  // ---------------------------------------------------------------------
  // Build packages
  // ---------------------------------------------------------------------

  /** One requested build package is installed, at the pinned version if it names one. */
  predicate Satisfied(installed: map<string, string>, package: string) {
    var (name, version) := GetPkgNameParts(package);
    name in installed && (version.None? || installed[name] == version.value)
  }

  predicate AllInstalled(installed: map<string, string>, packages: seq<string>) {
    forall i :: 0 <= i < |packages| ==> Satisfied(installed, packages[i])
  }

  /** Whether every package is installed does not depend on the order they are checked in. */
  lemma AllInstalledPermutation(installed: map<string, string>, a: seq<string>, b: seq<string>)
    requires multiset(a) == multiset(b)
    ensures AllInstalled(installed, a) <==> AllInstalled(installed, b)
  {
    forall i | 0 <= i < |a| ensures a[i] in b {
      assert a[i] in multiset(a);
    }
    forall i | 0 <= i < |b| ensures b[i] in a {
      assert b[i] in multiset(b);
    }
  }

  /**
   * `_check_if_all_packages_installed(package_names)`: asks the cache for
   * each package in turn and stops at the first one that is missing or at
   * another version than the pinned one. `queried` is the names asked for.
   */
  method CheckIfAllPackagesInstalled(packageNames: seq<string>, installed: map<string, string>)
    returns (all: bool, queried: seq<string>)
    ensures all <==> AllInstalled(installed, packageNames)
    ensures all ==> queried == VersionlessNames(packageNames)
    ensures !all ==> (0 < |queried| <= |packageNames| &&
      queried == VersionlessNames(packageNames[..|queried|]) &&
      !Satisfied(installed, packageNames[|queried| - 1]) &&
      AllInstalled(installed, packageNames[..|queried| - 1]))
  {
    queried := [];
    var i := 0;
    while i < |packageNames|
      invariant 0 <= i <= |packageNames|
      invariant queried == VersionlessNames(packageNames[..i])
      invariant AllInstalled(installed, packageNames[..i])
    {
      var (name, version) := GetPkgNameParts(packageNames[i]);
      queried := queried + [name];
      var installedVersion := if name in installed then Some(installed[name]) else None;
      if installedVersion.None? || (version.Some? && installedVersion.value != version.value) {
        assert queried == VersionlessNames(packageNames[..i + 1]);
        return false, queried;
      }
      i := i + 1;
      assert packageNames[..i][i - 1] == packageNames[i - 1];
    }
    assert packageNames[..i] == packageNames;
    return true, queried;
  }

  /** `[f"{name}={version}" for name, version in pairs]` */
  function Formatted(pairs: seq<(string, string)>): (r: seq<string>)
    ensures |r| == |pairs|
  {
    seq(|pairs|, i requires 0 <= i < |pairs| => NameVersion(pairs[i].0, pairs[i].1))
  }

  /** `sorted(marked)`: the marked `(name, version)` pairs in tuple order. */
  function SortedMarked(marked: seq<(string, string)>): (r: seq<(string, string)>)
    ensures |r| == |marked|
    ensures Sorted(r, PairLe) && multiset(r) == multiset(marked)
  {
    PairLeIsOrder();
    Sort(marked, PairLe)
  }

  /** Stripping the versions of formatted pairs gives back their names, in order. */
  lemma VersionlessFormatted(pairs: seq<(string, string)>)
    requires forall i :: 0 <= i < |pairs| ==> '=' !in pairs[i].0 && '=' !in pairs[i].1
    ensures VersionlessNames(Formatted(pairs)) == seq(|pairs|, i requires 0 <= i < |pairs| => pairs[i].0)
  {
    forall i | 0 <= i < |pairs| ensures VersionlessNames(Formatted(pairs))[i] == pairs[i].0 {
      NameVersionParts(pairs[i].0, pairs[i].1);
    }
  }

  /** The build plan: the marked pairs in tuple order, written `name=version`. */
  function BuildPlan(marked: seq<(string, string)>): seq<string> {
    Formatted(SortedMarked(marked))
  }

  /** The plan does not depend on the order the cache lists the marked packages in. */
  lemma BuildPlanOrderFree(m1: seq<(string, string)>, m2: seq<(string, string)>)
    requires multiset(m1) == multiset(m2)
    ensures BuildPlan(m1) == BuildPlan(m2)
  {
    PairLeIsOrder();
    SortedUnique(SortedMarked(m1), SortedMarked(m2), PairLe);
  }

  /** Every pair of the sorted list is one of the marked pairs. */
  lemma SortedMarkedFrom(marked: seq<(string, string)>, j: int)
    requires 0 <= j < |marked|
    ensures exists i :: 0 <= i < |marked| && marked[i] == SortedMarked(marked)[j]
  {
    assert SortedMarked(marked)[j] in multiset(marked);
  }

  /** Every marked pair is in the sorted list. */
  lemma MarkedInSorted(marked: seq<(string, string)>, i: int)
    requires 0 <= i < |marked|
    ensures exists j :: 0 <= j < |marked| && SortedMarked(marked)[j] == marked[i]
  {
    assert marked[i] in multiset(SortedMarked(marked));
  }

  /** Each plan entry splits back into the sorted pair it was written from. */
  lemma BuildPlanParts(marked: seq<(string, string)>)
    requires forall i :: 0 <= i < |marked| ==> '=' !in marked[i].0 && '=' !in marked[i].1
    ensures forall j :: 0 <= j < |marked| ==>
      GetPkgNameParts(BuildPlan(marked)[j]) == (SortedMarked(marked)[j].0, Some(SortedMarked(marked)[j].1))
  {
    var s := SortedMarked(marked);
    forall j | 0 <= j < |marked| ensures GetPkgNameParts(BuildPlan(marked)[j]) == (s[j].0, Some(s[j].1)) {
      SortedMarkedFrom(marked, j);
      NameVersionParts(s[j].0, s[j].1);
    }
  }

  /** The versionless names of the plan are the marked names. */
  lemma BuildPlanNames(marked: seq<(string, string)>)
    requires forall i :: 0 <= i < |marked| ==> '=' !in marked[i].0 && '=' !in marked[i].1
    ensures (set n | n in VersionlessNames(BuildPlan(marked))) == (set i | 0 <= i < |marked| :: marked[i].0)
  {
    var s := SortedMarked(marked);
    var names := VersionlessNames(BuildPlan(marked));
    BuildPlanParts(marked);
    forall n | n in names ensures n in (set i | 0 <= i < |marked| :: marked[i].0) {
      var j :| 0 <= j < |names| && names[j] == n;
      SortedMarkedFrom(marked, j);
      var i :| 0 <= i < |marked| && marked[i] == s[j];
      assert marked[i].0 == n;
    }
    forall i | 0 <= i < |marked| ensures marked[i].0 in names {
      MarkedInSorted(marked, i);
      var j :| 0 <= j < |marked| && s[j] == marked[i];
      assert names[j] == marked[i].0;
    }
  }

  /**
   * The plan names each marked package once per listing, and the versionless
   * names handed to `apt-mark auto` are the marked names in plan order.
   */
  lemma BuildPlanContents(marked: seq<(string, string)>)
    requires forall i :: 0 <= i < |marked| ==> '=' !in marked[i].0 && '=' !in marked[i].1
    ensures |BuildPlan(marked)| == |marked|
    ensures forall i :: 0 <= i < |marked| ==> NameVersion(marked[i].0, marked[i].1) in BuildPlan(marked)
    ensures forall i :: 0 <= i < |marked| ==>
      GetPkgNameParts(BuildPlan(marked)[i]) == (SortedMarked(marked)[i].0, Some(SortedMarked(marked)[i].1))
    ensures (set n | n in VersionlessNames(BuildPlan(marked))) == (set i | 0 <= i < |marked| :: marked[i].0)
  {
    var s := SortedMarked(marked);
    var plan := BuildPlan(marked);
    forall i | 0 <= i < |marked| ensures NameVersion(marked[i].0, marked[i].1) in plan {
      MarkedInSorted(marked, i);
      var j :| 0 <= j < |marked| && s[j] == marked[i];
      assert plan[j] == NameVersion(marked[i].0, marked[i].1);
    }
    BuildPlanParts(marked);
    BuildPlanNames(marked);
  }

  const AptGetInstall: seq<string> :=
    ["apt-get", "--no-install-recommends", "-y", "-oDpkg::Use-Pty=0", "--allow-downgrades", "install"]

  function InstallCommand(packages: seq<string>): seq<string> {
    AptGetInstall + packages
  }

  function AutoMarkCommand(names: seq<string>): seq<string> {
    ["apt-mark", "auto"] + names
  }

  const AutoMarkWarning := "Impossible to mark packages as auto-installed"

  /** What `_install_packages` does: the install command, then on success `apt-mark auto` and, if that fails, a warning. */
  function InstallEffects(packages: seq<string>, outcome: RunOutcome): seq<Effect> {
    if !outcome.installSucceeds then [Run(InstallCommand(packages))]
    else
      [Run(InstallCommand(packages)), Run(AutoMarkCommand(VersionlessNames(packages)))]
      + (if outcome.autoMarkSucceeds then [] else [Warning(AutoMarkWarning)])
  }

  /**
   * `_install_packages(package_names)`: runs the install; a failed install
   * raises BuildPackagesNotInstalled with the package list; after a successful
   * one the versionless names are marked auto-installed, and a failure of that
   * step is only a warning.
   */
  method InstallPackages(packageNames: seq<string>, outcome: RunOutcome)
    returns (r: Outcome<()>, effects: seq<Effect>)
    ensures effects == InstallEffects(packageNames, outcome)
    ensures r.Err? <==> !outcome.installSucceeds
    ensures r.Err? ==> r.error == BuildPackagesNotInstalled(packageNames)
    ensures |effects| >= 1 && effects[0] == Run(InstallCommand(packageNames))
    ensures !outcome.installSucceeds ==> |effects| == 1
    ensures outcome.installSucceeds ==> (|effects| >= 2 &&
      effects[1] == Run(AutoMarkCommand(VersionlessNames(packageNames))) &&
      effects[2..] == (if outcome.autoMarkSucceeds then [] else [Warning(AutoMarkWarning)]))
  {
    effects := [Run(InstallCommand(packageNames))];
    if !outcome.installSucceeds {
      return Err(BuildPackagesNotInstalled(packageNames)), effects;
    }
    var versionlessNames := VersionlessNames(packageNames);
    effects := effects + [Run(AutoMarkCommand(versionlessNames))];
    if !outcome.autoMarkSucceeds {
      effects := effects + [Warning(AutoMarkWarning)];
    }
    return Ok(()), effects;
  }

  /** The installed-version queries of `names`, in order. */
  function QueryEffects(names: seq<string>): seq<Effect> {
    seq(|names|, i requires 0 <= i < |names| => GetInstalledVersion(names[i]))
  }

  predicate RunsCommand(effects: seq<Effect>) {
    exists i :: 0 <= i < |effects| && effects[i].Run?
  }

  /** `effects` is a run of installed-version queries followed by `rest`. */
  predicate QueriesThen(effects: seq<Effect>, rest: seq<Effect>) {
    |rest| <= |effects| && effects[|effects| - |rest|..] == rest &&
    forall i :: 0 <= i < |effects| - |rest| ==> effects[i].GetInstalledVersion?
  }

  /** The queries of a list of names followed by `rest` have that shape. */
  lemma QueriesThenAppend(names: seq<string>, rest: seq<Effect>)
    ensures QueriesThen(QueryEffects(names) + rest, rest)
  {
  }

  /** Queries run no command: only the rest of the trace can. */
  lemma QueriesThenRuns(effects: seq<Effect>, rest: seq<Effect>)
    requires QueriesThen(effects, rest)
    ensures RunsCommand(effects) <==> RunsCommand(rest)
  {
  }

  /** The marking steps run no command; the install runs one first. */
  lemma PlanningRuns(requested: set<string>, install: seq<Effect>)
    requires install == [] || install[0].Run?
    ensures RunsCommand([MarkPackages(requested), GetPackagesMarked] + install) <==> install != []
  {
    var tail := [MarkPackages(requested), GetPackagesMarked] + install;
    if install != [] {
      assert tail[2] == install[0];
    }
  }

  lemma SameElements(a: seq<string>, b: seq<string>)
    requires multiset(a) == multiset(b)
    ensures (set n | n in a) == (set n | n in b)
  {
    forall n ensures n in a <==> n in b {
      assert n in a <==> n in multiset(a);
      assert n in b <==> n in multiset(b);
    }
  }

  /**
   * `install_build_packages(package_names, list_only)`: nothing for an empty
   * request; otherwise the sorted `name=version` list of what the cache marks,
   * installed only when some requested package is missing or at another
   * version and the call is not list-only. The trace starts with the cache
   * queries of the installed check.
   */
  method InstallBuildPackages(packageNames: seq<string>, listOnly: bool, cache: AptCache, outcome: RunOutcome)
    returns (r: Outcome<seq<string>>, effects: seq<Effect>)
    ensures packageNames == [] ==> r == Ok([]) && effects == []
    ensures packageNames != [] && cache.notFound.Some? ==>
      r == Err(BuildPackageNotFound(cache.notFound.value)) && !RunsCommand(effects) &&
      QueriesThen(effects, [MarkPackages(set n | n in packageNames)])
    ensures packageNames != [] && cache.notFound.None? ==>
      var plan := BuildPlan(cache.marked);
      var install := !listOnly && !AllInstalled(cache.installed, packageNames);
      (r.Ok? ==> r.value == plan) &&
      (r.Err? <==> install && !outcome.installSucceeds) &&
      (r.Err? ==> r.error == BuildPackagesNotInstalled(plan)) &&
      (install <==> RunsCommand(effects)) &&
      QueriesThen(effects, [MarkPackages(set n | n in packageNames), GetPackagesMarked]
        + (if install then InstallEffects(plan, outcome) else []))
  {
    if packageNames == [] {
      return Ok([]), [];
    }
    var installRequired := false;
    StrLeIsOrder();
    var names := Sort(packageNames, StrLe);
    var all, queried := CheckIfAllPackagesInstalled(names, cache.installed);
    AllInstalledPermutation(cache.installed, names, packageNames);
    if !all {
      installRequired := true;
    }
    SameElements(names, packageNames);
    var requested := set n | n in names;
    if cache.notFound.Some? {
      effects := QueryEffects(queried) + [MarkPackages(requested)];
      QueriesThenAppend(queried, [MarkPackages(requested)]);
      QueriesThenRuns(effects, [MarkPackages(requested)]);
      return Err(BuildPackageNotFound(cache.notFound.value)), effects;
    }
    var packages := Formatted(SortedMarked(cache.marked));
    var installEffects := [];
    r := Ok(packages);
    if !listOnly && installRequired {
      var installed;
      installed, installEffects := InstallPackages(packages, outcome);
      if installed.Err? {
        r := Err(installed.error);
      }
    }
    var tail := [MarkPackages(requested), GetPackagesMarked] + installEffects;
    effects := QueryEffects(queried) + tail;
    QueriesThenAppend(queried, tail);
    QueriesThenRuns(effects, tail);
    PlanningRuns(requested, installEffects);
  }

  // ---------------------------------------------------------------------
  // Stage packages
  // ---------------------------------------------------------------------

  /** `r` is what `sorted()` makes of the set `s`: in string order, each element once. */
  predicate SortedSetOf(r: seq<string>, s: set<string>) {
    Sorted(r, StrLe) && multiset(r) == multiset(s)
  }

  /** `sorted(s)` for a Python set of strings. */
  method SortedSet(s: set<string>) returns (r: seq<string>)
    ensures SortedSetOf(r, s)
  {
    var items: seq<string> := [];
    var rest := s;
    while rest != {}
      invariant rest <= s
      invariant multiset(items) + multiset(rest) == multiset(s)
      decreases rest
    {
      var x :| x in rest;
      assert multiset(rest) == multiset(rest - {x}) + multiset{x};
      items := items + [x];
      rest := rest - {x};
    }
    StrLeIsOrder();
    r := Sort(items, StrLe);
  }

  /** Sets have one sorted form: `sorted()` of a set is determined by the set. */
  lemma SortedSetUnique(a: seq<string>, b: seq<string>, s: set<string>)
    requires SortedSetOf(a, s) && SortedSetOf(b, s)
    ensures a == b
  {
    StrLeIsOrder();
    SortedUnique(a, b, StrLe);
  }

  /** A sorted set lists each element once, and only elements of the set. */
  lemma SortedSetContents(r: seq<string>, s: set<string>)
    requires SortedSetOf(r, s)
    ensures forall x :: x in r <==> x in s
    ensures forall i, j :: 0 <= i < j < |r| ==> r[i] != r[j]
  {
    forall x ensures x in r <==> x in s {
      assert x in r <==> x in multiset(r);
    }
    forall i, j | 0 <= i < j < |r| ensures r[i] != r[j] {
      assert r == r[..i] + [r[i]] + r[i + 1..j] + [r[j]] + r[j + 1..];
      assert multiset(s)[r[i]] <= 1;
    }
  }

  /** `[DebPackage.from_unparsed(name) for name in package_names]` */
  function ParsedPackages(packageNames: seq<string>): (r: seq<DebPackage>)
    ensures |r| == |packageNames|
    ensures forall i :: 0 <= i < |r| ==> WellFormed(r[i]) && Unparsed(r[i]) == packageNames[i]
  {
    seq(|packageNames|, i requires 0 <= i < |packageNames| => FromUnparsed(packageNames[i]))
  }

  /** The `name=version` of each marked pair. */
  function MarkedNameVersions(marked: seq<(string, string)>): set<string> {
    set p | p in marked :: NameVersion(p.0, p.1)
  }

  /** The `name=version` of each fetched archive. */
  function ArchiveNameVersions(archives: seq<Archive>): set<string> {
    set a | a in archives :: NameVersion(a.name, a.version)
  }

  /** The loop over `fetch_archives(...)`: adds each archive's `name=version` to `installed`. */
  method CollectArchives(archives: seq<Archive>) returns (installed: set<string>)
    ensures installed == ArchiveNameVersions(archives)
    ensures forall a :: a in archives ==> NameVersion(a.name, a.version) in installed
  {
    installed := {};
    var i := 0;
    while i < |archives|
      invariant 0 <= i <= |archives|
      invariant installed == ArchiveNameVersions(archives[..i])
    {
      assert archives[..i + 1] == archives[..i] + [archives[i]];
      installed := installed + {NameVersion(archives[i].name, archives[i].version)};
      i := i + 1;
    }
    assert archives[..i] == archives;
  }

  /**
   * `fetch_stage_packages(...)`: nothing for an empty request; otherwise the
   * requested names are marked and the base's filtered names unmarked, and
   * the result is the sorted set of `name=version` of what is marked
   * (list-only) or of the archives fetched into the download cache.
   */
  method FetchStagePackages(cacheDir: Path, packageNames: seq<string>, base: string, targetArch: string,
                            listOnly: bool, files: Files, cache: AptCache)
    returns (r: Outcome<seq<string>>, effects: seq<Effect>)
    ensures packageNames == [] ==> r == Ok([]) && effects == []
    ensures packageNames != [] ==>
      var filtered := FilteredStagePackageNames(base, ParsedPackages(packageNames), files);
      var requested := set n | n in packageNames;
      (filtered.Err? ==> r == Err(filtered.error) && effects == []) &&
      (filtered.Ok? && cache.notFound.Some? ==>
        r == Err(PackageNotFound(cache.notFound.value)) &&
        effects == [OpenStageCache(GetCacheDirs(cacheDir).0, targetArch), MarkPackages(requested)]) &&
      (filtered.Ok? && cache.notFound.None? ==>
        effects == [OpenStageCache(GetCacheDirs(cacheDir).0, targetArch), MarkPackages(requested), UnmarkPackages(filtered.value),
                    if listOnly then GetPackagesMarked else FetchArchives(GetCacheDirs(cacheDir).1)] &&
        (listOnly ==> r.Ok? && SortedSetOf(r.value, MarkedNameVersions(cache.marked))) &&
        (!listOnly && cache.fetched.Err? ==> r == Err(PackageFetchError(cache.fetched.error))) &&
        (!listOnly && cache.fetched.Ok? ==>
          r.Ok? && SortedSetOf(r.value, ArchiveNameVersions(cache.fetched.value))))
  {
    if packageNames == [] {
      return Ok([]), [];
    }
    var filteredNames := FilteredStagePackageNames(base, ParsedPackages(packageNames), files);
    if filteredNames.Err? {
      return Err(filteredNames.error), [];
    }
    var (stageCacheDir, debCacheDir) := GetCacheDirs(cacheDir);
    var installed: set<string> := {};
    var open := OpenStageCache(stageCacheDir, targetArch);
    var mark := MarkPackages(set n | n in packageNames);
    if cache.notFound.Some? {
      return Err(PackageNotFound(cache.notFound.value)), [open, mark];
    }
    var unmark := UnmarkPackages(filteredNames.value);
    if listOnly {
      effects := [open, mark, unmark, GetPackagesMarked];
      installed := MarkedNameVersions(cache.marked);
    } else {
      effects := [open, mark, unmark, FetchArchives(debCacheDir)];
      if cache.fetched.Err? {
        return Err(PackageFetchError(cache.fetched.error)), effects;
      }
      installed := CollectArchives(cache.fetched.value);
    }
    var sorted := SortedSet(installed);
    return Ok(sorted), effects;
  }

  /** One `.deb` of the stage-packages directory and what `dpkg-deb` makes of it. */
  datatype DebFile = DebFile(
    path: string,
    /** `dpkg-deb --extract` exits with status 0 */
    extracts: bool,
    /** the output of `dpkg-deb --show --showformat=${Package}=${Version}`, None on a nonzero exit */
    showOutput: Option<string>)

  predicate Unpacks(deb: DebFile) {
    deb.extracts && deb.showOutput.Some?
  }

  /** `_extract_deb_name_version(deb_path)`: the `name=version` the staged files are marked with. */
  function ProvenanceTag(deb: DebFile): string
    requires deb.showOutput.Some?
  {
    Strip(deb.showOutput.value)
  }

  /**
   * `unpack_stage_packages(...)`, for the `.deb` files the directory glob
   * yields: each is extracted and its files tagged with its `name=version`
   * (`tags`, in order) and merged; the install tree is normalized once at the
   * end, only if at least one `.deb` was seen. The first failing `dpkg-deb`
   * raises UnpackError.
   */
  method UnpackStagePackages(debs: seq<DebFile>) returns (r: Outcome<()>, tags: seq<string>, normalized: bool)
    ensures r.Ok? <==> forall i :: 0 <= i < |debs| ==> Unpacks(debs[i])
    ensures |tags| <= |debs|
    ensures forall i :: 0 <= i < |tags| ==> Unpacks(debs[i]) && tags[i] == ProvenanceTag(debs[i])
    ensures r.Ok? ==> |tags| == |debs|
    ensures r.Err? ==> |tags| < |debs| && !Unpacks(debs[|tags|]) && r.error == UnpackError(debs[|tags|].path)
    ensures normalized <==> r.Ok? && debs != []
  {
    var pkgPath: Option<string> := None;
    tags := [];
    var i := 0;
    while i < |debs|
      invariant 0 <= i <= |debs|
      invariant |tags| == i
      invariant forall j :: 0 <= j < i ==> Unpacks(debs[j]) && tags[j] == ProvenanceTag(debs[j])
      invariant pkgPath.Some? <==> i > 0
    {
      var deb := debs[i];
      pkgPath := Some(deb.path);
      if !deb.extracts {
        return Err(UnpackError(deb.path)), tags, false;
      }
      if deb.showOutput.None? {
        return Err(UnpackError(deb.path)), tags, false;
      }
      var tag := ProvenanceTag(deb);
      tags := tags + [tag];
      i := i + 1;
    }
    normalized := pkgPath.Some?;
    return Ok(()), tags, normalized;
  }
}
