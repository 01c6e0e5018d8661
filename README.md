# craft-parts: the Debian package repository

A Dafny model of `craft_parts/packages/deb.py`. This module is how craft-parts
works with the Ubuntu archive when it builds parts:

- it installs the *build packages* a part needs on the host;
- it fetches the *stage packages* a part ships into a download cache;
- it unpacks the fetched `.deb` files into the part's install tree;
- it decides which packages a base snap already provides, so they are not staged
  twice.

The apt cache, `apt-get`, `apt-mark`, `dpkg-query` and `dpkg-deb` are outside
the model. What the code asks of them is an input value:

- `Ubuntu.AptCache`: installed versions, the not-found package, the marked
  pairs, the fetched archives or a fetch error;
- `Ubuntu.RunOutcome`: whether `apt-get install` and `apt-mark auto` succeed;
- `Deb.CommandResult`: how a host command ends, a nonzero exit or its output;
  `Deb.RunDpkgQuerySearch` takes the host as a function from a command line to
  its `CommandResult`;
- `Ubuntu.DebFile`: what `dpkg-deb` does with each `.deb`;
- `Deb.Files`: the host's files, each as a list of lines.

`Ubuntu.InstallPackages`, `Ubuntu.InstallBuildPackages` and
`Ubuntu.FetchStagePackages` return what they do to the apt cache and the host
as a trace of `Ubuntu.Effect`s, in the order the source performs them.
`Ubuntu.UnpackStagePackages` returns the provenance tags it applies and whether
normalize runs. `Deb.RunDpkgQuerySearch` records nothing: its `dpkg-query` run
is a call of its host parameter. Exceptions become the `Err` case of
`Deb.Outcome`. There is one `Deb.Error` constructor per exception type that the
modelled operations raise or let through. `PackageListRefreshError`
(deb.py:322) and the `CalledProcessError` that `_run_dpkg_query_list_files`
lets escape (deb.py:231) belong to operations outside the model.

Modules:

- `Wrappers`: the `Option` and `Result` types.
- `Text`: the Python string operations the module relies on. These are
  `str.split(sep)`, `str.split()`, `strip()`, `splitlines()` and string order.
- `Sorting`: `sorted()`, an insertion sort specified by "sorted and a
  permutation". `SortedUnique` proves that this determines the result.
- `PackageNames`: the `name=version` notation of build packages and the
  `name[:arch][=version]` notation of package references.
- `Deb`:
  - the module-level constants;
  - the path builders;
  - the `dpkg.list` parser behind `get_packages_in_base`;
  - the stage-package filter;
  - `dpkg-query -S` output parsing.
- `Ubuntu`: the methods of the `Ubuntu` repository class.

## Model

| member | source | states |
|---|---|---|
| `PackageNames.GetPkgNameParts` | craft_parts/packages/deb.py:338 | a pinned `name=version` splits into a name and a version without `=` that rebuild the string; anything else is kept whole with no version |
| `PackageNames.BareName` | craft_parts/packages/deb.py:338-344 | a name without `=` has no pinned version, so only its presence is checked |
| `PackageNames.NameVersionParts` | craft_parts/packages/deb.py:419 | splitting a formatted `name=version` plan entry gives back the name and the version (round trip) |
| `PackageNames.SeveralEquals` | craft_parts/packages/deb.py:338 | with two or more `=` the tuple unpacking fails and the whole string is the name |
| `PackageNames.VersionlessBare` | craft_parts/packages/deb.py:419 | names that pin no version reach `apt-mark auto` unchanged |
| `PackageNames.FromUnparsed` | craft_parts/packages/deb.py:273 | the name holds neither `:` nor `=`, the architecture holds no `=`, and `name[:arch][=version]` rebuilds the token |
| `PackageNames.FromUnparsedInverse` | tests/unit/packages/test_deb.py:518-531 | parsing the `name[:arch][=version]` form of a well-formed package gives back the package, e.g. `zlib1g:amd64` |
| `Text.SplitJoin` | craft_parts/packages/deb.py:225 | `split(sep)` inverts joining pieces that hold no separator |
| `Text.JoinSplit` | craft_parts/packages/deb.py:225 | joining the pieces of `split(sep)` gives back the string |
| `Text.Before` | craft_parts/packages/deb.py:225 | `split(":")[0]` is the longest prefix without `:`, followed by `:` when shorter than the line |
| `Text.FieldsWord` | craft_parts/packages/deb.py:273 | the whitespace split of a word followed by whitespace starts with that word |
| `Text.Strip` | craft_parts/packages/deb.py:215 | the result is a slice of the text with only whitespace before and after it, and it neither starts nor ends with whitespace |
| `Text.SplitLines` | craft_parts/packages/deb.py:222 | no lines for the empty text and at least one for any other; lines hold no line break; joined by line breaks they give back the text, less one final line break |
| `Sorting.Sort` | craft_parts/packages/deb.py:371 | `sorted()` yields an ordered permutation of its input |
| `Sorting.SortedUnique` | craft_parts/packages/deb.py:383 | two ordered permutations of one list are equal, so `sorted()` is determined by the multiset |
| `Sorting.StrLeIsOrder` | craft_parts/packages/deb.py:371 | Python string comparison is total, transitive and antisymmetric |
| `Sorting.PairLeIsOrder` | craft_parts/packages/deb.py:383 | tuple comparison of `(name, version)` is total, transitive and antisymmetric |
| `Deb.DpkgListPath` | craft_parts/packages/deb.py:240-241 | the manifest path is `/snap/`, then the base, then `/current/usr/share/snappy/dpkg.list` |
| `Deb.DpkgListPathInjective` | craft_parts/packages/deb.py:240-241 | different bases that are single path components read different manifest files |
| `Deb.GetCacheDirs` | craft_parts/packages/deb.py:544-549 | the caches are the children `stage-packages` and `download` of the cache directory |
| `Deb.CacheDirsDisjoint` | craft_parts/packages/deb.py:544-549 | a stage cache is never a download cache; different cache directories give different caches |
| `Deb.ParseManifestAppend` | craft_parts/packages/deb.py:268-274 | parsing is line by line: the parse of a concatenation is the first error or the concatenation of the parses |
| `Deb.ParseManifestSnoc` | craft_parts/packages/deb.py:270-274 | each further line of the manifest is skipped, appends its package, or makes the parse fail with IndexError |
| `Deb.ManifestLine` | craft_parts/packages/deb.py:271-274 | an `ii` line yields the package named by its second field, whatever the spacing |
| `Deb.ManifestEntries` | craft_parts/packages/deb.py:268-276 | every parsed package comes from an `ii ` line, and every `ii ` line contributes its package |
| `Deb.GetPackagesInBase` | craft_parts/packages/deb.py:256-276 | legacy bases give the frozen list whatever is on disk; a missing manifest gives `[]`; otherwise the parse of its lines |
| `Deb.ReadManifest` | craft_parts/packages/deb.py:268-276 | the line loop yields exactly the parse of the manifest's lines, IndexError included |
| `Deb.FilteredStagePackageNames` | craft_parts/packages/deb.py:244-253 | the filtered names all come from the manifest; requested names and ignore-listed names are never filtered; every other manifest name is; errors only when the manifest does |
| `Deb.LegacyFiltered` | craft_parts/packages/deb.py:256-260 | on `core`, `core16` and `core18` the filtered set is the frozen list's names minus the requested ones, independent of the files |
| `Deb.NoIgnoreFilter` | tests/unit/packages/test_deb.py:585-597 | a base without an ignore filter filters exactly the manifest names minus the requested names |
| `Deb.PinnedRequestKept` | craft_parts/packages/deb.py:244-253 | a stage request pinned as `name=version` keeps `name` out of the filtered set: filtering compares bare names |
| `Deb.FilterExampleCore20` | craft_parts/packages/deb.py:160-202 | on `core20`, requesting `libfoo` against a manifest of `python3-yaml` and `libbar` filters only `libbar`: the ignore-listed package stays |
| `Deb.IgnoreListNeverFiltered` | tests/unit/packages/test_deb.py:542-582 | a manifest of a base's ignore list plus other packages, with nothing requested, filters exactly the other packages |
| `Deb.RootedPath` | craft_parts/packages/deb.py:210 | the queried path starts with `/` and ends with the given path; an absolute path is kept; a relative one gains one `/` |
| `Deb.NonDiversions` | craft_parts/packages/deb.py:222 | a line is kept iff it is one of the lines and does not start with `diversion` |
| `Deb.FirstNonDiversion` | craft_parts/packages/deb.py:222-224 | something is kept exactly when some line is not a diversion; the first kept line is the first such line |
| `Deb.KeptAfterDiversions` | craft_parts/packages/deb.py:222-224 | diversion lines ahead of the owner's line are dropped and the owner's line comes first |
| `Deb.RunDpkgQuerySearch` | craft_parts/packages/deb.py:206-225 | runs `dpkg-query -S` on the rooted path; a failed query raises FileProviderNotFound; success iff some line is not a diversion; the result is the text before `:` of the first such line; otherwise IndexError |
| `Deb.DiversionsSkipped` | craft_parts/packages/deb.py:206-225 | for an output ending in a line break, the owner is the text before the `:` of the first line after any number of diversion lines, whatever follows the `:` |
| `Deb.BinShOwnedByDash` | tests/unit/packages/test_deb.py:468-487 | the `/bin/sh` answer of the fixture, two diversion lines then `dash: /bin/sh`, gives `dash` |
| `Ubuntu.PackagesForSourceType` | craft_parts/packages/deb.py:293-312 | the one package of the table bzr→bzr, git→git, tar→tar, hg and mercurial→mercurial, rpm2cpio→rpm2cpio, 7zip→p7zip-full, else none; `svn` and `subversion` get none, as the code is written |
| `Ubuntu.PackagesForSourceTypeIntended` | craft_parts/packages/deb.py:303-304 | the same table with svn and subversion→subversion added, as the branch is meant |
| `Ubuntu.SubversionDiscrepancy` | craft_parts/packages/deb.py:303 | the two tables differ exactly on `svn` and `subversion` |
| `Ubuntu.AllInstalledPermutation` | craft_parts/packages/deb.py:371-377 | checking the sorted request decides the same as checking it in request order |
| `Ubuntu.CheckIfAllPackagesInstalled` | craft_parts/packages/deb.py:327-348 | true iff every package is installed at its pinned version; on false, the cache was queried up to and including the first failing package |
| `Ubuntu.VersionlessFormatted` | craft_parts/packages/deb.py:383-419 | the versionless names of formatted `name=version` pairs are the pairs' names, in order |
| `Ubuntu.SortedMarked` | craft_parts/packages/deb.py:383 | the marked pairs in tuple order, a permutation of what the cache marked |
| `Ubuntu.BuildPlanOrderFree` | craft_parts/packages/deb.py:383 | the plan does not depend on the order the cache lists marked packages in |
| `Ubuntu.BuildPlanContents` | craft_parts/packages/deb.py:383 | one plan entry per marked pair, each `name=version`, and the `apt-mark auto` names are exactly the marked names |
| `Ubuntu.InstallPackages` | craft_parts/packages/deb.py:394-423 | runs the install; failure raises BuildPackagesNotInstalled with the list; success runs `apt-mark auto` on the versionless names, whose failure is only a warning |
| `Ubuntu.InstallBuildPackages` | craft_parts/packages/deb.py:363-391 | `[]` and no effects for an empty request; BuildPackageNotFound before any command; otherwise the plan, installed iff not list-only and some package is missing or at another version |
| `Ubuntu.SortedSet` | craft_parts/packages/deb.py:476 | `sorted()` of a set is ordered and holds each element once |
| `Ubuntu.SortedSetUnique` | craft_parts/packages/deb.py:476 | a set has one sorted form |
| `Ubuntu.SortedSetContents` | craft_parts/packages/deb.py:476 | the sorted set holds exactly the set's elements, without repetition |
| `Ubuntu.ParsedPackages` | craft_parts/packages/deb.py:444 | one well-formed package per requested name, in order, whose notation is that name |
| `Ubuntu.CollectArchives` | craft_parts/packages/deb.py:467-471 | the loop over the fetched archives collects exactly their `name=version` strings |
| `Ubuntu.FetchStagePackages` | craft_parts/packages/deb.py:426-476 | `[]` for an empty request; opens the apt cache on the stage cache directory for the target architecture, marks the requested set, then unmarks the filtered set; returns the sorted, de-duplicated `name=version` of the marked pairs (list-only) or of the fetched archives; PackageFetchError passes through |
| `Ubuntu.UnpackStagePackages` | craft_parts/packages/deb.py:488-507 | every `.deb` is extracted and tagged with its stripped `name=version`, in order; the first `dpkg-deb` failure raises UnpackError for that file; normalize runs iff all succeeded and at least one `.deb` was seen |

## Left out

- `subprocess`, the filesystem, `fileinput`, `tempfile`, logging, the environment passed to `apt-get` and `apt-mark`, and the `sys.platform` import guard. The collaborators are inputs, and the apt cache calls and commands of the three methods that return a trace are `Effect` values.
- The `AptCache` class (craft_parts/packages/apt_cache.py is not part of this model): its answers are the fields of `Ubuntu.AptCache`. How it resolves virtual packages and dependencies is not modelled.
- `functools.lru_cache` on `_run_dpkg_query_search` and `_run_dpkg_query_list_files`: memoisation does not change results.
- `Ubuntu.configure`, `get_package_libraries`, `_run_dpkg_query_list_files`, `refresh_build_packages_list`, `refresh_stage_packages_list`, `is_package_installed`, `get_installed_packages`, `_HASHSUM_MISMATCH_PATTERN` and `process_run`: thin wrappers over the apt cache, `dpkg` and the file system with no logic of their own to state.
- `mkdir`, `link_or_copy` of each fetched archive into the stage-packages directory, `link_or_copy_tree`, `mark_origin_stage_package` and `normalize`: file-system effects. `Ubuntu.UnpackStagePackages` keeps the tag each unpacked `.deb` is marked with and whether normalize runs.
- The order of `stage_packages_path.glob("*.deb")`: `Ubuntu.UnpackStagePackages` takes the `.deb` files in the order given.
- craft_parts/packages/base.py and craft_parts/packages/deb_package.py are not part of this model. `PackageNames.GetPkgNameParts` and `PackageNames.FromUnparsed` follow the behaviour their callers and tests rely on.
- `PackageNames.FromUnparsed`: the notation `name[:arch][=version]` is read as cut at the first `=` and then at the first `:`, because the docstring at deb.py:247 says packages carry a name, a version and an architecture. How deb_package.py treats several `=` or `:`, or validates names, is not modelled.
- `Text.IsSpace` knows six characters: space, `\t`, `\n`, `\r`, `\x0b` and `\x0c`. Python's `strip()` and `split()` also treat `\x1c`-`\x1f`, `\x85`, `\xa0` and other Unicode spaces as whitespace. `Text.SplitLines` breaks on `\n` only, where `splitlines()` also breaks on `\r`, `\r\n` and other separators.
- `Deb.DpkgListPathInjective`: paths are unnormalised strings. The `Deb.Files` map does not identify two spellings of one path, such as `a//b` and `a/b`, so the lemma is stated for bases that are one path component.
- `Ubuntu.PackagesForSourceType` takes a string. The source compares `source_type` with `==`, so non-string arguments are not modelled.
- `Ubuntu.InstallBuildPackages` records the cache queries of the installed check as `GetInstalledVersion` effects, but states only that some query prefix comes first. `Ubuntu.CheckIfAllPackagesInstalled` states which prefix.
- `Ubuntu.FetchStagePackages`: the `mkdir` of the stage-packages and download directories is not recorded. A `PackageFetchError` is modelled as raised before any archive is copied. A failure part-way through `fetch_archives` is not modelled.
- The dpkg-related exceptions carry only the fields the source sets: `FileProviderNotFound(file_path)`, `BuildPackageNotFound`, `PackageNotFound`, `BuildPackagesNotInstalled(packages)`, `PackageFetchError(message)` and `UnpackError(path)`. The `IndexError` of a malformed `ii` line or of a `dpkg-query` output with only diversion lines is `Deb.Error.IndexError`.

## Findings

| source | as written | input that shows it | evidently intended | confidence | as-written member | corrected member |
|---|---|---|---|---|---|---|
| craft_parts/packages/deb.py:303 | `source_type == ["svn", "subversion"]` compares a string with a list, which is never equal | `get_packages_for_source_type("svn")` and `("subversion")` return the empty set | `source_type in ["svn", "subversion"]`, giving `{"subversion"}`, as the `hg`/`mercurial` branch above it does | not executed; high | `Ubuntu.PackagesForSourceType`, `Ubuntu.SubversionDiscrepancy` | `Ubuntu.PackagesForSourceTypeIntended` |
