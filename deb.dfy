/**
 * The module-level part of craft_parts/packages/deb.py: the error kinds, the
 * base-manifest policy (legacy list, parsed `dpkg.list`, ignore filters), the
 * filtering of stage packages against a base, the cache and manifest paths and
 * the parsing of `dpkg-query -S` output.
 *
 * The filesystem is an input: a map from a path to the lines of the file at
 * that path; a path absent from the map is a file that does not exist.
 */
module Deb {
  import opened Wrappers
  import opened Text
  import opened PackageNames

  /** The errors the repository raises, or lets escape from its collaborators. */
  datatype Error =
    | FileProviderNotFound(filePath: string)
    | BuildPackageNotFound(packageName: string)
    | PackageNotFound(packageName: string)
    | BuildPackagesNotInstalled(packages: seq<string>)
    | PackageFetchError(message: string)
    | UnpackError(debPath: string)
      /** Python's IndexError, raised by indexing an empty or too short list. */
    | IndexError

  type Outcome<T> = Result<T, Error>

  /** The files of the host, by path. */
  type Files = map<string, seq<string>>

  /** A path as pathlib builds it with `/`: its components. */
  type Path = seq<string>

  /** The frozen package list of the legacy bases (deb.py `_DEFAULT_FILTERED_STAGE_PACKAGES`). */
  const DefaultFilteredStagePackages: seq<string> := [
    "adduser",
    "apt",
    "apt-utils",
    "base-files",
    "base-passwd",
    "bash",
    "bsdutils",
    "coreutils",
    "dash",
    "debconf",
    "debconf-i18n",
    "debianutils",
    "diffutils",
    "dmsetup",
    "dpkg",
    "e2fslibs",
    "e2fsprogs",
    "file",
    "findutils",
    "gcc-4.9-base",
    "gcc-5-base",
    "gnupg",
    "gpgv",
    "grep",
    "gzip",
    "hostname",
    "init",
    "initscripts",
    "insserv",
    "libacl1",
    "libapparmor1",
    "libapt",
    "libapt-inst1.5",
    "libapt-pkg4.12",
    "libattr1",
    "libaudit-common",
    "libaudit1",
    "libblkid1",
    "libbz2-1.0",
    "libc-bin",
    "libc6",
    "libcap2",
    "libcap2-bin",
    "libcomerr2",
    "libcryptsetup4",
    "libdb5.3",
    "libdebconfclient0",
    "libdevmapper1.02.1",
    "libgcc1",
    "libgcrypt20",
    "libgpg-error0",
    "libgpm2",
    "libkmod2",
    "liblocale-gettext-perl",
    "liblzma5",
    "libmagic1",
    "libmount1",
    "libncurses5",
    "libncursesw5",
    "libpam-modules",
    "libpam-modules-bin",
    "libpam-runtime",
    "libpam0g",
    "libpcre3",
    "libprocps3",
    "libreadline6",
    "libselinux1",
    "libsemanage-common",
    "libsemanage1",
    "libsepol1",
    "libslang2",
    "libsmartcols1",
    "libss2",
    "libstdc++6",
    "libsystemd0",
    "libtext-charwidth-perl",
    "libtext-iconv-perl",
    "libtext-wrapi18n-perl",
    "libtinfo5",
    "libudev1",
    "libusb-0.1-4",
    "libustr-1.0-1",
    "libuuid1",
    "locales",
    "login",
    "lsb-base",
    "makedev",
    "manpages",
    "manpages-dev",
    "mawk",
    "mount",
    "multiarch-support",
    "ncurses-base",
    "ncurses-bin",
    "passwd",
    "perl-base",
    "procps",
    "readline-common",
    "sed",
    "sensible-utils",
    "systemd",
    "systemd-sysv",
    "sysv-rc",
    "sysvinit-utils",
    "tar",
    "tzdata",
    "ubuntu-keyring",
    "udev",
    "util-linux",
    "zlib1g"
  ]

  /** Per base, manifest packages that are never filtered out (deb.py `IGNORE_FILTERS`). */
  const IgnoreFilters: map<string, set<string>> := map[
    "core20" := {
      "python3-attr",
      "python3-blinker",
      "python3-certifi",
      "python3-cffi-backend",
      "python3-chardet",
      "python3-configobj",
      "python3-cryptography",
      "python3-idna",
      "python3-importlib-metadata",
      "python3-jinja2",
      "python3-json-pointer",
      "python3-jsonpatch",
      "python3-jsonschema",
      "python3-jwt",
      "python3-lib2to3",
      "python3-markupsafe",
      "python3-more-itertools",
      "python3-netifaces",
      "python3-oauthlib",
      "python3-pyrsistent",
      "python3-pyudev",
      "python3-requests",
      "python3-requests-unixsocket",
      "python3-serial",
      "python3-six",
      "python3-urllib3",
      "python3-urwid",
      "python3-yaml",
      "python3-zipp"
    }
  ]

  /** The bases whose manifest is the frozen list, whatever is on disk. */
  const LegacyBases: set<string> := {"core", "core16", "core18"}

  /** `IGNORE_FILTERS.get(base, set())` */
  function IgnoreFilter(base: string): set<string> {
    if base in IgnoreFilters then IgnoreFilters[base] else {}
  }

  // ---------------------------------------------------------------------
  // Paths
  // ---------------------------------------------------------------------

  const DpkgListPrefix := "/snap/"
  const DpkgListSuffix := "/current/usr/share/snappy/dpkg.list"

  /** `_get_dpkg_list_path(base)`: where a base snap lists its installed packages. */
  function DpkgListPath(base: string): (p: string)
    ensures StartsWith(p, DpkgListPrefix) && EndsWith(p, DpkgListSuffix)
    ensures |p| == |DpkgListPrefix| + |base| + |DpkgListSuffix|
    ensures p[|DpkgListPrefix|..|DpkgListPrefix| + |base|] == base
  {
    DpkgListPrefix + base + DpkgListSuffix
  }

  /**
   * Different bases have different manifest files. pathlib collapses `//`,
   * `.` and a trailing `/`, so this holds for the file the program opens only
   * when each base is one path component.
   */
  lemma DpkgListPathInjective(b1: string, b2: string)
    requires '/' !in b1 && '/' !in b2
    requires b1 !in {"", ".", ".."} && b2 !in {"", ".", ".."}
    requires DpkgListPath(b1) == DpkgListPath(b2)
    ensures b1 == b2
  {
    var p := DpkgListPath(b1);
    assert |b1| == |b2|;
    assert b1 == p[|DpkgListPrefix|..|DpkgListPrefix| + |b1|];
    assert b2 == p[|DpkgListPrefix|..|DpkgListPrefix| + |b2|];
  }

  /** `get_cache_dirs(cache_dir)`: the stage-packages cache and the download cache. */
  function GetCacheDirs(cacheDir: Path): (dirs: (Path, Path))
    ensures |dirs.0| == |dirs.1| == |cacheDir| + 1
    ensures dirs.0[..|cacheDir|] == dirs.1[..|cacheDir|] == cacheDir
    ensures dirs.0[|cacheDir|] == "stage-packages" && dirs.1[|cacheDir|] == "download"
    ensures dirs.0 != dirs.1
  {
    (cacheDir + ["stage-packages"], cacheDir + ["download"])
  }

  /** The caches of different cache directories never coincide, and a stage cache is never a download cache. */
  lemma CacheDirsDisjoint(c1: Path, c2: Path)
    ensures GetCacheDirs(c1).0 != GetCacheDirs(c2).1
    ensures c1 != c2 ==> GetCacheDirs(c1).0 != GetCacheDirs(c2).0 && GetCacheDirs(c1).1 != GetCacheDirs(c2).1
  {
  }

  // ---------------------------------------------------------------------
  // Base manifest
  // ---------------------------------------------------------------------

  /** What one `dpkg.list` line contributes. */
  datatype LineParse = Skip | Entry(package: DebPackage) | Malformed

  /** One line of `dpkg.list`: only lines starting with `ii ` count; their second field names the package. */
  function ParseLine(line: string): LineParse {
    if !StartsWith(line, "ii ") then Skip
    else
      var fields := Fields(line);
      if |fields| < 2 then Malformed else Entry(FromUnparsed(fields[1]))
  }

  /** The packages of the `ii ` lines of `dpkg.list`, in line order; a malformed `ii ` line raises IndexError. */
  function ParseManifest(lines: seq<string>): Outcome<seq<DebPackage>>
    decreases |lines|
  {
    if lines == [] then Ok([])
    else
      match ParseLine(lines[0])
      case Malformed => Err(IndexError)
      case Skip => ParseManifest(lines[1..])
      case Entry(p) =>
        match ParseManifest(lines[1..])
        case Err(e) => Err(e)
        case Ok(ps) => Ok([p] + ps)
  }

  /** Sequencing of two parses: the first error, or the concatenation. */
  function Then(a: Outcome<seq<DebPackage>>, b: Outcome<seq<DebPackage>>): Outcome<seq<DebPackage>> {
    if a.Err? then a else if b.Err? then b else Ok(a.value + b.value)
  }

  /** Parsing is line by line: the parse of a concatenation is the concatenation of the parses. */
  lemma {:induction false} ParseManifestAppend(a: seq<string>, b: seq<string>)
    ensures ParseManifest(a + b) == Then(ParseManifest(a), ParseManifest(b))
    decreases |a|
  {
    if a == [] {
      assert a + b == b;
      if ParseManifest(b).Ok? {
        assert [] + ParseManifest(b).value == ParseManifest(b).value;
      }
    } else {
      assert (a + b)[0] == a[0] && (a + b)[1..] == a[1..] + b;
      ParseManifestAppend(a[1..], b);
      match ParseLine(a[0])
      case Malformed =>
      case Skip =>
      case Entry(p) =>
        var ra, rb := ParseManifest(a[1..]), ParseManifest(b);
        if ra.Ok? && rb.Ok? {
          assert [p] + (ra.value + rb.value) == ([p] + ra.value) + rb.value;
        }
    }
  }

  /** A canonical `ii  <name>  <version> ...` line yields the package `<name>`. */
  lemma ManifestLine(sp: string, name: string, rest: string)
    requires AllSpace(sp)
    requires name != [] && NoSpace(name)
    requires rest == [] || IsSpace(rest[0])
    ensures ParseLine("ii " + sp + name + rest) == Entry(FromUnparsed(name))
  {
    var gap := " " + sp;
    var tail := name + rest;
    var line := "ii " + sp + name + rest;
    assert line == "ii" + (gap + tail);
    assert line[..3] == "ii ";
    assert AllSpace(gap);
    assert (gap + tail)[0] == ' ';
    FieldsWord("ii", gap + tail);
    FieldsSkipSpace(gap, tail);
    FieldsWord(name, rest);
    assert Fields(line)[1] == name;
  }

  /** Every parsed package comes from an `ii ` line. */
  lemma {:induction false} ManifestSound(lines: seq<string>)
    requires ParseManifest(lines).Ok?
    ensures forall p :: p in ParseManifest(lines).value ==>
      exists i :: 0 <= i < |lines| && StartsWith(lines[i], "ii ") && ParseLine(lines[i]) == Entry(p)
    decreases |lines|
  {
    if lines != [] {
      ManifestSound(lines[1..]);
      forall p | p in ParseManifest(lines).value
        ensures exists i :: 0 <= i < |lines| && StartsWith(lines[i], "ii ") && ParseLine(lines[i]) == Entry(p)
      {
        if ParseLine(lines[0]) == Entry(p) {
          assert StartsWith(lines[0], "ii ");
        } else {
          assert p in ParseManifest(lines[1..]).value;
          var i :| 0 <= i < |lines[1..]| && StartsWith(lines[1..][i], "ii ") && ParseLine(lines[1..][i]) == Entry(p);
          assert lines[i + 1] == lines[1..][i];
        }
      }
    }
  }

  /** A manifest that parses has no malformed `ii ` line. */
  lemma {:induction false} ManifestWellFormed(lines: seq<string>)
    requires ParseManifest(lines).Ok?
    ensures forall i :: 0 <= i < |lines| ==> ParseLine(lines[i]) != Malformed
    decreases |lines|
  {
    if lines != [] {
      ManifestWellFormed(lines[1..]);
      forall i | 0 <= i < |lines| ensures ParseLine(lines[i]) != Malformed {
        if i > 0 { assert lines[i] == lines[1..][i - 1]; }
      }
    }
  }

  /** Every well-formed `ii ` line contributes its package. */
  lemma {:induction false} ManifestComplete(lines: seq<string>)
    requires ParseManifest(lines).Ok?
    ensures forall i :: 0 <= i < |lines| && ParseLine(lines[i]).Entry? ==>
      ParseLine(lines[i]).package in ParseManifest(lines).value
    decreases |lines|
  {
    if lines != [] {
      ManifestComplete(lines[1..]);
      forall i | 0 <= i < |lines| && ParseLine(lines[i]).Entry?
        ensures ParseLine(lines[i]).package in ParseManifest(lines).value
      {
        if i > 0 { assert lines[i] == lines[1..][i - 1]; }
      }
    }
  }

  /** Only `ii ` lines contribute: every parsed package comes from one, and every well-formed one contributes. */
  lemma ManifestEntries(lines: seq<string>)
    requires ParseManifest(lines).Ok?
    ensures forall p :: p in ParseManifest(lines).value ==>
      exists i :: 0 <= i < |lines| && StartsWith(lines[i], "ii ") && ParseLine(lines[i]) == Entry(p)
    ensures forall i :: 0 <= i < |lines| ==> ParseLine(lines[i]) != Malformed
    ensures forall i :: 0 <= i < |lines| && ParseLine(lines[i]).Entry? ==>
      ParseLine(lines[i]).package in ParseManifest(lines).value
  {
    ManifestSound(lines);
    ManifestWellFormed(lines);
    ManifestComplete(lines);
  }

  /** The parse of a one-line manifest is what that line contributes. */
  lemma ParseManifestOne(line: string)
    ensures ParseManifest([line]) ==
      match ParseLine(line)
      case Skip => Ok([])
      case Entry(p) => Ok([p])
      case Malformed => Err(IndexError)
  {
    assert [line][1..] == [];
    match ParseLine(line)
    case Entry(p) =>
      assert [p] + [] == [p];
    case Skip =>
    case Malformed =>
  }

  /** One more line of the manifest is skipped, appends its package, or makes the parse fail. */
  lemma ParseManifestSnoc(pre: seq<string>, line: string, packages: seq<DebPackage>)
    requires ParseManifest(pre) == Ok(packages)
    ensures ParseLine(line) == Skip ==> ParseManifest(pre + [line]) == Ok(packages)
    ensures ParseLine(line).Entry? ==> ParseManifest(pre + [line]) == Ok(packages + [ParseLine(line).package])
    ensures ParseLine(line) == Malformed ==> ParseManifest(pre + [line]) == Err(IndexError)
  {
    ParseManifestAppend(pre, [line]);
    ParseManifestOne(line);
    assert packages + [] == packages;
  }

  /** Once a prefix of the manifest fails to parse, so does the whole manifest. */
  lemma ParseManifestStops(lines: seq<string>, k: int)
    requires 0 <= k <= |lines|
    requires ParseManifest(lines[..k]).Err?
    ensures ParseManifest(lines) == ParseManifest(lines[..k])
  {
    assert lines == lines[..k] + lines[k..];
    ParseManifestAppend(lines[..k], lines[k..]);
  }

  /** The legacy bases' manifest: the frozen list, each entry parsed as a package reference. */
  function LegacyPackages(): seq<DebPackage> {
    seq(|DefaultFilteredStagePackages|, i requires 0 <= i < |DefaultFilteredStagePackages| =>
      FromUnparsed(DefaultFilteredStagePackages[i]))
  }

  /** `get_packages_in_base(base=base)`, as a value of the files on the host. */
  function PackagesInBase(base: string, files: Files): Outcome<seq<DebPackage>> {
    if base in LegacyBases then Ok(LegacyPackages())
    else if DpkgListPath(base) !in files then Ok([])
    else ParseManifest(files[DpkgListPath(base)])
  }

  /**
   * `get_packages_in_base(base=base)`: the frozen list on a legacy base, no
   * packages when the base has no `dpkg.list`, and otherwise the packages read
   * from it by `ReadManifest`.
   */
  method GetPackagesInBase(base: string, files: Files) returns (r: Outcome<seq<DebPackage>>)
    ensures r == PackagesInBase(base, files)
    ensures base in LegacyBases ==> r == Ok(LegacyPackages())
    ensures base !in LegacyBases && DpkgListPath(base) !in files ==> r == Ok([])
    ensures base !in LegacyBases && DpkgListPath(base) in files ==> r == ParseManifest(files[DpkgListPath(base)])
  {
    if base in LegacyBases {
      return Ok(LegacyPackages());
    }
    var path := DpkgListPath(base);
    if path !in files {
      return Ok([]);
    }
    r := ReadManifest(files[path]);
  }

  /**
   * The line loop of `get_packages_in_base`: appends the package of every
   * `ii ` line; a `ii ` line with fewer than two fields raises IndexError.
   */
  method ReadManifest(lines: seq<string>) returns (r: Outcome<seq<DebPackage>>)
    ensures r == ParseManifest(lines)
  {
    var packageList: seq<DebPackage> := [];
    var i := 0;
    while i < |lines|
      invariant 0 <= i <= |lines|
      invariant ParseManifest(lines[..i]) == Ok(packageList)
    {
      var line := lines[i];
      assert lines[..i + 1] == lines[..i] + [line];
      ParseManifestSnoc(lines[..i], line, packageList);
      if !StartsWith(line, "ii ") {
        assert ParseLine(line) == Skip;
        i := i + 1;
        continue;
      }
      var fields := Fields(line);
      if |fields| < 2 {
        assert ParseLine(line) == Malformed;
        ParseManifestStops(lines, i + 1);
        return Err(IndexError);
      }
      assert ParseLine(line) == Entry(FromUnparsed(fields[1]));
      packageList := packageList + [FromUnparsed(fields[1])];
      i := i + 1;
    }
    assert lines[..i] == lines;
    return Ok(packageList);
  }

  // ---------------------------------------------------------------------
  // Filtering
  // ---------------------------------------------------------------------

  /** `set(manifest) - set(requested) - ignore` */
  function FilterOut(manifest: set<string>, requested: set<string>, ignore: set<string>): set<string> {
    manifest - requested - ignore
  }

  function NameSet(packages: seq<DebPackage>): set<string> {
    set i | 0 <= i < |packages| :: packages[i].name
  }

  /**
   * `_get_filtered_stage_package_names(base=base, package_list=packages)`:
   * the names the base already ships and the part did not ask for, save the
   * base's ignore filter. Names only: architectures do not take part.
   */
  function FilteredStagePackageNames(base: string, packages: seq<DebPackage>, files: Files): (r: Outcome<set<string>>)
    ensures r.Err? <==> PackagesInBase(base, files).Err?
    ensures r.Ok? ==> forall n :: n in r.value ==> n in NameSet(PackagesInBase(base, files).value)
    ensures r.Ok? ==> forall i :: 0 <= i < |packages| ==> packages[i].name !in r.value
    ensures r.Ok? ==> forall n :: n in IgnoreFilter(base) ==> n !in r.value
    ensures r.Ok? ==> forall n :: n in NameSet(PackagesInBase(base, files).value) ==>
      n in r.value || n in NameSet(packages) || n in IgnoreFilter(base)
  {
    match PackagesInBase(base, files)
    case Err(e) => Err(e)
    case Ok(manifest) => Ok(FilterOut(NameSet(manifest), NameSet(packages), IgnoreFilter(base)))
  }

  /** On a legacy base the filtered names come from the frozen list, whatever is on disk. */
  lemma LegacyFiltered(base: string, packages: seq<DebPackage>, f1: Files, f2: Files)
    requires base in LegacyBases
    ensures FilteredStagePackageNames(base, packages, f1) == FilteredStagePackageNames(base, packages, f2)
      == Ok(NameSet(LegacyPackages()) - NameSet(packages))
  {
    assert IgnoreFilter(base) == {};
    var m := NameSet(LegacyPackages());
    assert m - NameSet(packages) - {} == m - NameSet(packages);
  }

  /** A base without an ignore filter has every manifest name filtered that the part did not ask for. */
  lemma NoIgnoreFilter(base: string, packages: seq<DebPackage>, files: Files)
    requires base !in IgnoreFilters
    requires PackagesInBase(base, files).Ok?
    ensures FilteredStagePackageNames(base, packages, files) ==
      Ok(NameSet(PackagesInBase(base, files).value) - NameSet(packages))
  {
    var m := NameSet(PackagesInBase(base, files).value);
    assert m - NameSet(packages) - {} == m - NameSet(packages);
  }

  /** A requested package pinned to a version is never filtered out: filtering compares bare names. */
  lemma PinnedRequestKept(base: string, name: string, version: string, files: Files)
    requires ':' !in name && '=' !in name
    requires PackagesInBase(base, files).Ok?
    ensures FilteredStagePackageNames(base, [FromUnparsed(name + "=" + version)], files).Ok?
    ensures name !in FilteredStagePackageNames(base, [FromUnparsed(name + "=" + version)], files).value
  {
    var pinned := DebPackage(name, None, Some(version));
    FromUnparsedInverse(pinned);
    assert Unparsed(pinned) == name + "=" + version;
    var requested := [FromUnparsed(name + "=" + version)];
    assert requested[0].name == name;
  }

  /** The worked example: on core20 the ignore-listed python3-yaml stays, libbar is filtered. */
  lemma FilterExampleCore20(files: Files)
    requires PackagesInBase("core20", files).Ok?
    requires NameSet(PackagesInBase("core20", files).value) == {"python3-yaml", "libbar"}
    ensures FilteredStagePackageNames("core20", [DebPackage("libfoo", None, None)], files) == Ok({"libbar"})
  {
    var requested := [DebPackage("libfoo", None, None)];
    assert requested[0].name == "libfoo";
    assert NameSet(requested) == {"libfoo"};
    assert FilterOut({"python3-yaml", "libbar"}, {"libfoo"}, IgnoreFilter("core20")) == {"libbar"};
  }

  /**
   * A manifest made of a base's ignore list plus other packages, with nothing
   * requested, filters exactly those other packages.
   */
  lemma IgnoreListNeverFiltered(base: string, extra: set<string>, files: Files)
    requires extra !! IgnoreFilter(base)
    requires PackagesInBase(base, files).Ok?
    requires NameSet(PackagesInBase(base, files).value) == extra + IgnoreFilter(base)
    ensures FilteredStagePackageNames(base, [], files) == Ok(extra)
  {
    assert NameSet([]) == {};
    var ignore := IgnoreFilter(base);
    assert FilterOut(extra + ignore, {}, ignore) == extra;
  }

  // ---------------------------------------------------------------------
  // dpkg-query -S
  // ---------------------------------------------------------------------

  /** The outcome of an external command: a nonzero exit, or its output. */
  datatype CommandResult = Failed | Output(text: string)

  /** `os.path.join(os.path.sep, file_path)` */
  function RootedPath(filePath: string): (p: string)
    ensures StartsWith(p, "/") && EndsWith(p, filePath)
    ensures StartsWith(filePath, "/") ==> p == filePath
    ensures |p| <= |filePath| + 1
  {
    if StartsWith(filePath, "/") then filePath else "/" + filePath
  }

  /** `["dpkg-query", "-S", os.path.join(os.path.sep, file_path)]` */
  function DpkgQuerySearchCommand(filePath: string): seq<string> {
    ["dpkg-query", "-S", RootedPath(filePath)]
  }

  predicate IsDiversion(line: string) {
    StartsWith(line, "diversion")
  }

  /** `[p for p in lines if not p.startswith("diversion")]` */
  function NonDiversions(lines: seq<string>): (r: seq<string>)
    ensures forall i :: 0 <= i < |r| ==> !IsDiversion(r[i])
    ensures forall x :: x in r <==> x in lines && !IsDiversion(x)
    ensures |r| <= |lines|
    decreases |lines|
  {
    if lines == [] then []
    else if IsDiversion(lines[0]) then NonDiversions(lines[1..])
    else [lines[0]] + NonDiversions(lines[1..])
  }

  /** The first kept line is the first line that is not a diversion. */
  lemma {:induction false} FirstNonDiversion(lines: seq<string>)
    ensures NonDiversions(lines) != [] <==> exists i :: 0 <= i < |lines| && !IsDiversion(lines[i])
    ensures NonDiversions(lines) != [] ==>
      exists k :: (0 <= k < |lines| && lines[k] == NonDiversions(lines)[0] &&
        !IsDiversion(lines[k]) && forall j :: 0 <= j < k ==> IsDiversion(lines[j]))
    decreases |lines|
  {
    if lines != [] {
      FirstNonDiversion(lines[1..]);
      if IsDiversion(lines[0]) {
        if NonDiversions(lines) != [] {
          var k :| 0 <= k < |lines[1..]| && lines[1..][k] == NonDiversions(lines[1..])[0] &&
            !IsDiversion(lines[1..][k]) && forall j :: 0 <= j < k ==> IsDiversion(lines[1..][j]);
          assert forall j :: 0 <= j < k + 1 ==> IsDiversion(lines[j]) by {
            forall j | 0 < j < k + 1 ensures IsDiversion(lines[j]) { assert lines[j] == lines[1..][j - 1]; }
          }
        } else {
          forall i | 0 <= i < |lines| ensures IsDiversion(lines[i]) {
            if i > 0 { assert lines[i] == lines[1..][i - 1]; }
          }
        }
      }
    }
  }

  /**
   * `_run_dpkg_query_search(file_path)`, where `dpkgQuery` runs a command on
   * the host: the package named by the first line of the stripped output of
   * `dpkg-query -S` that is not a diversion, up to its first `:`.
   */
  function RunDpkgQuerySearch(filePath: string, dpkgQuery: seq<string> -> CommandResult): (r: Outcome<string>)
    ensures var query := dpkgQuery(DpkgQuerySearchCommand(filePath));
      query.Failed? ==> r == Err(FileProviderNotFound(filePath))
    ensures var query := dpkgQuery(DpkgQuerySearchCommand(filePath));
      query.Output? ==>
      var lines := SplitLines(Strip(query.text));
      (r.Ok? <==> exists i :: 0 <= i < |lines| && !IsDiversion(lines[i])) &&
      (r.Err? ==> r.error == IndexError) &&
      (r.Ok? ==> (':' !in r.value &&
        exists k :: (0 <= k < |lines| && !IsDiversion(lines[k]) &&
          (forall j :: 0 <= j < k ==> IsDiversion(lines[j])) &&
          StartsWith(lines[k], r.value) && (|r.value| == |lines[k]| || lines[k][|r.value|] == ':'))))
  {
    var query := dpkgQuery(DpkgQuerySearchCommand(filePath));
    if query.Failed? then Err(FileProviderNotFound(filePath))
    else
      var lines := SplitLines(Strip(query.text));
      FirstNonDiversion(lines);
      var kept := NonDiversions(lines);
      if kept == [] then Err(IndexError) else Ok(Before(kept[0], ':'))
  }

  /**
   * Diversion lines ahead of the owner's line are skipped: the owner is the
   * text before the `:` of the first other line of the output, whatever
   * follows that `:`.
   */
  lemma DiversionsSkipped(path: string, diversions: seq<string>, owner: string, rest: string, more: seq<string>,
                         dpkgQuery: seq<string> -> CommandResult)
    requires forall i :: 0 <= i < |diversions| ==> IsDiversion(diversions[i])
    requires ':' !in owner && !IsDiversion(owner + ":" + rest)
    requires forall i :: 0 <= i < |diversions + [owner + ":" + rest] + more| ==>
      '\n' !in (diversions + [owner + ":" + rest] + more)[i]
    requires var text := Join(diversions + [owner + ":" + rest] + more, '\n');
      text != [] && !IsSpace(text[0]) && !IsSpace(text[|text| - 1])
    requires dpkgQuery(DpkgQuerySearchCommand(path)) == Output(Join(diversions + [owner + ":" + rest] + more, '\n') + "\n")
    ensures RunDpkgQuerySearch(path, dpkgQuery) == Ok(owner)
  {
    var lines := diversions + [owner + ":" + rest] + more;
    var text := Join(lines, '\n');
    StripFinalNewline(text);
    SplitJoin(lines, '\n');
    assert SplitLines(text) == lines;
    KeptAfterDiversions(diversions, owner + ":" + rest, more);
    assert owner + ":" + rest == owner + [':'] + rest;
    SplitAfter(owner, ':', rest);
  }

  /** The `/bin/sh` answer of a system where `dash` diverts it: `dash` owns `/bin/sh`. */
  lemma BinShOwnedByDash(dpkgQuery: seq<string> -> CommandResult)
    requires dpkgQuery(DpkgQuerySearchCommand("/bin/sh")) ==
      Output("diversion by dash from: /bin/sh\n" +
             "diversion by dash to: /bin/sh.distrib\n" + "dash: /bin/sh\n")
    ensures RunDpkgQuerySearch("/bin/sh", dpkgQuery) == Ok("dash")
  {
    var d1, d2 := "diversion by dash from: /bin/sh", "diversion by dash to: /bin/sh.distrib";
    BinShLines(d1, d2, "dash", " /bin/sh");
    DiversionsSkipped("/bin/sh", [d1, d2], "dash", " /bin/sh", [], dpkgQuery);
  }

  /** The three lines of the `/bin/sh` answer, and their shape. */
  lemma BinShLines(d1: string, d2: string, owner: string, rest: string)
    requires d1 == "diversion by dash from: /bin/sh" && d2 == "diversion by dash to: /bin/sh.distrib"
    requires owner == "dash" && rest == " /bin/sh"
    ensures var lines := [d1, d2] + [owner + ":" + rest] + [];
      Join(lines, '\n') + "\n" == "diversion by dash from: /bin/sh\n" + "diversion by dash to: /bin/sh.distrib\n" + "dash: /bin/sh\n" &&
      (forall i :: 0 <= i < |lines| ==> '\n' !in lines[i]) &&
      Join(lines, '\n')[0] == 'd' && Join(lines, '\n')[|Join(lines, '\n')| - 1] == 'h'
    ensures IsDiversion(d1) && IsDiversion(d2) && !IsDiversion(owner + ":" + rest) && ':' !in owner
  {
    var line := owner + ":" + rest;
    assert line == "dash: /bin/sh";
    assert [d1, d2] + [line] + [] == [d1, d2, line];
    JoinThree(d1, d2, line, '\n');
    BinShText(d1, d2, line);
    BinShShape(d1, d2, line);
  }

  /** The fixture answer is its three lines, each with its line break. */
  lemma BinShText(d1: string, d2: string, line: string)
    requires d1 == "diversion by dash from: /bin/sh" && d2 == "diversion by dash to: /bin/sh.distrib"
    requires line == "dash: /bin/sh"
    ensures (d1 + "\n") + (d2 + "\n") + (line + "\n") ==
      "diversion by dash from: /bin/sh\n" + "diversion by dash to: /bin/sh.distrib\n" + "dash: /bin/sh\n"
  {
    assert d1 + "\n" == "diversion by dash from: /bin/sh\n";
    assert d2 + "\n" == "diversion by dash to: /bin/sh.distrib\n";
    assert line + "\n" == "dash: /bin/sh\n";
  }

  /** No fixture line holds a line break; only the first two are diversions. */
  lemma BinShShape(d1: string, d2: string, line: string)
    requires d1 == "diversion by dash from: /bin/sh" && d2 == "diversion by dash to: /bin/sh.distrib"
    requires line == "dash: /bin/sh"
    ensures '\n' !in d1 && '\n' !in d2 && '\n' !in line
    ensures IsDiversion(d1) && IsDiversion(d2) && !IsDiversion(line)
  {
    BinShDiversions(d1, d2, line);
  }

  /** Only the first two fixture lines start with `diversion`. */
  lemma BinShDiversions(d1: string, d2: string, line: string)
    requires d1 == "diversion by dash from: /bin/sh" && d2 == "diversion by dash to: /bin/sh.distrib"
    requires line == "dash: /bin/sh"
    ensures IsDiversion(d1) && IsDiversion(d2) && !IsDiversion(line)
  {
    assert d1[..9] == d2[..9] == "diversion";
    assert line[..9][1] == 'a';
  }

  /** Three lines joined by a separator, followed by one more separator. */
  lemma JoinThree(a: string, b: string, c: string, sep: char)
    ensures Join([a, b, c], sep) + [sep] == (a + [sep]) + (b + [sep]) + (c + [sep])
    ensures Join([a, b, c], sep) == a + [sep] + b + [sep] + c
  {
    assert [a, b, c][1..] == [b, c] && [b, c][1..] == [c];
    assert Join([b, c], sep) == b + [sep] + c;
    assert Join([a, b, c], sep) == a + [sep] + (b + [sep] + c);
  }

  lemma {:induction false} KeptAfterDiversions(diversions: seq<string>, line: string, more: seq<string>)
    requires forall i :: 0 <= i < |diversions| ==> IsDiversion(diversions[i])
    requires !IsDiversion(line)
    ensures NonDiversions(diversions + [line] + more) == [line] + NonDiversions(more)
    decreases |diversions|
  {
    if diversions == [] {
      assert diversions + [line] + more == [line] + more;
      assert ([line] + more)[1..] == more;
    } else {
      assert (diversions + [line] + more)[1..] == diversions[1..] + [line] + more;
      KeptAfterDiversions(diversions[1..], line, more);
    }
  }
}
