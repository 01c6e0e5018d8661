/**
 * The package-name notations the Debian repository code works with:
 * `name=version` (split by `get_pkg_name_parts` in craft_parts/packages/base.py
 * and written by the f-strings of deb.py) and `name[:arch][=version]` (split by
 * `DebPackage.from_unparsed` in craft_parts/packages/deb_package.py).
 * Neither of those two files is part of this model; the functions below follow
 * the behaviour their callers and tests rely on.
 */
module PackageNames {
  import opened Wrappers
  import opened Text

  // ---------------------------------------------------------------------
  // name=version
  // ---------------------------------------------------------------------

  /** `f"{name}={version}"` */
  function NameVersion(name: string, version: string): string {
    name + "=" + version
  }

  /**
   * `get_pkg_name_parts(pkg)`: `name, version = pkg.split("=")`, keeping the
   * whole string and no version when the split does not give exactly two parts.
   */
  function GetPkgNameParts(pkg: string): (r: (string, Option<string>))
    ensures r.1.Some? ==> pkg == NameVersion(r.0, r.1.value) && '=' !in r.0 && '=' !in r.1.value
    ensures r.1.None? ==> r.0 == pkg
  {
    var parts := Split(pkg, '=');
    if |parts| == 2 then
      JoinSplit(pkg, '=');
      assert Join(parts, '=') == parts[0] + ['='] + parts[1];
      (parts[0], Some(parts[1]))
    else (pkg, None)
  }

  /** A name without `=` is a bare name with no pinned version. */
  lemma BareName(name: string)
    requires '=' !in name
    ensures GetPkgNameParts(name) == (name, None)
  {
  }

  /** Splitting a formatted `name=version` gives back its two parts. */
  lemma NameVersionParts(name: string, version: string)
    requires '=' !in name && '=' !in version
    ensures GetPkgNameParts(NameVersion(name, version)) == (name, Some(version))
  {
    SplitAfter(name, '=', version);
    SplitNone(version, '=');
    assert NameVersion(name, version) == name + ['='] + version;
  }

  /** With two or more `=` the unpacking fails and the whole string is kept as the name. */
  lemma SeveralEquals(a: string, b: string, c: string)
    requires '=' !in a && '=' !in b
    ensures GetPkgNameParts(a + "=" + b + "=" + c) == (a + "=" + b + "=" + c, None)
  {
    var s := a + "=" + b + "=" + c;
    SplitAfter(b, '=', c);
    assert a + "=" + b + "=" + c == a + ['='] + (b + ['='] + c);
    SplitAfter(a, '=', b + ['='] + c);
  }

  /** `[get_pkg_name_parts(p)[0] for p in packages]` */
  function VersionlessNames(packages: seq<string>): seq<string> {
    seq(|packages|, i requires 0 <= i < |packages| => GetPkgNameParts(packages[i]).0)
  }

  /** Names that pin no version come back unchanged. */
  lemma VersionlessBare(names: seq<string>)
    requires forall i :: 0 <= i < |names| ==> '=' !in names[i]
    ensures VersionlessNames(names) == names
  {
    forall i | 0 <= i < |names| ensures VersionlessNames(names)[i] == names[i] {
      BareName(names[i]);
    }
  }

  // ---------------------------------------------------------------------
  // name:arch=version
  // ---------------------------------------------------------------------

  /** `s`, followed by `sep` and the tail when there is one. */
  function Suffixed(s: string, sep: char, tail: Option<string>): string {
    match tail
    case None => s
    case Some(t) => s + [sep] + t
  }

  /** `s` cut at its first `sep`: the text before it, and the text after it if `sep` occurs. */
  function SplitFirst(s: string, sep: char): (r: (string, Option<string>))
    ensures sep !in r.0
    ensures Suffixed(r.0, sep, r.1) == s
  {
    var head := Before(s, sep);
    if |head| < |s| then
      assert s == head + [sep] + s[|head| + 1..];
      (head, Some(s[|head| + 1..]))
    else (s, None)
  }

  /** Cutting a text whose head is free of `sep` gives back the head and the tail. */
  lemma SplitFirstSuffixed(s: string, sep: char, tail: Option<string>)
    requires sep !in s
    ensures SplitFirst(Suffixed(s, sep, tail), sep) == (s, tail)
  {
    match tail
    case None =>
      SplitNone(s, sep);
    case Some(t) =>
      SplitAfter(s, sep, t);
  }

  /** A Debian package reference: a name, an optional architecture and an optional pinned version. */
  datatype DebPackage = DebPackage(name: string, arch: Option<string>, version: Option<string>)

  /** The `name[:arch][=version]` notation of a package reference. */
  function Unparsed(p: DebPackage): string {
    Suffixed(Suffixed(p.name, ':', p.arch), '=', p.version)
  }

  /** A reference the notation can carry: no separator inside a part that would end it early. */
  predicate WellFormed(p: DebPackage) {
    ':' !in p.name && '=' !in p.name && (p.arch.Some? ==> '=' !in p.arch.value)
  }

  /**
   * `DebPackage.from_unparsed(s)`: the version is the text after the first
   * `=`; of what comes before it, the name is the text before the first `:`
   * and the architecture the rest.
   */
  function FromUnparsed(s: string): (p: DebPackage)
    ensures WellFormed(p)
    ensures Unparsed(p) == s
  {
    var (head, version) := SplitFirst(s, '=');
    var (name, arch) := SplitFirst(head, ':');
    assert forall c :: c in name ==> c in head;
    assert arch.Some? ==> forall c :: c in arch.value ==> c in head;
    DebPackage(name, arch, version)
  }

  /** Parsing the notation of a well-formed reference gives back the reference. */
  lemma FromUnparsedInverse(p: DebPackage)
    requires WellFormed(p)
    ensures FromUnparsed(Unparsed(p)) == p
  {
    var head := Suffixed(p.name, ':', p.arch);
    assert '=' !in head;
    SplitFirstSuffixed(head, '=', p.version);
    SplitFirstSuffixed(p.name, ':', p.arch);
  }
}
