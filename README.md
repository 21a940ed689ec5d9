# freebsd-binaries: a Dafny model of the build orchestration

cynix/freebsd-binaries builds FreeBSD binaries and container images from
upstream projects, driven by one `projects.yaml`. Two implementations share
that file: the Python scripts under `builder/` (with `matrix.py` at the top
level), and the Go tool under `build/`. This project models the logic of both
that decides *what* gets built. It models:

- how a match rule picks the release or tag of an upstream repository and
  the version to build;
- how a project's configuration is discriminated, filled with defaults and
  resolved to a revision;
- the goreleaser document and the cargo, maturin and uv command lines of a
  package build;
- the container image a project asks for: its base, its assets, tag,
  entrypoint and user, and where archive entries land;
- how the Go tool derives the FreeBSD ABI, `OSVERSION` and ldconfig hints
  for package assets;
- how the Go tool assembles cross-build command lines and iterates over
  command output;
- the GitHub Actions job matrix both matrix scripts emit.

Subprocesses, HTTP, GitHub, the file system and YAML are not modelled. What
they return is a parameter of the model: a record of listings, a host
record of function fields, or a `Result` the caller passes in. The regex
engine is abstract too. It is a record of functions, and the lemmas that
need regex behaviour state what they assume about it.

The modules follow the source files:

| module | file | models |
|---|---|---|
| `Common` | `common.dfy` | option/result types, and the Python and Go string, split, strip, line and sort helpers the source relies on |
| `PyFormat` | `pyformat.dfy` | the subset of `str.format` the scripts use (`{name}`, `{{`, `}}`) |
| `Versions` | `versions.dfy` | the PEP 440 release segments (`v?N(.N)*`), their zero-padded order and `str()` |
| `Glob` | `glob.dfy` | `fnmatchcase` (`*`, `?`, `[...]` with ranges and `!`) |
| `Resolver` | `resolver.dfy` | `builder/utils.py`: `_match_fn`, `_parse_version`, `get_release`, `get_tag` |
| `Config` | `config.dfy` | `builder/config.py`: discriminators, `resolve` methods, the validator and the `populate` methods |
| `GoPath` | `gopath.dfy` | Go's `path.Clean`, `Base`, `Dir`, `Join` and `IsAbs` |
| `Assets` | `assets.dfy` | `build/container/assets.go` |
| `Cargo` | `cargo.dfy` | `build/packages/cargo.go` |
| `Goreleaser` | `goreleaser.dfy` | the goreleaser header both Python builders write |
| `Package` | `package.dfy` | `builder/package.py` |
| `GoBuild` | `gobuild.dfy` | `builder/go.py` |
| `Container` | `container.dfy` | `builder/container.py` |
| `Commands` | `cmd.dfy` | `build/utils/cmd.go` |
| `BuilderMatrix` | `buildermatrix.dfy` | `builder/matrix.py` |
| `Matrix` | `matrix.dfy` | `matrix.py` |

Code that builds state step by step is modelled as methods with loops:
- Python `populate`;
- Go `Hydrate`, `Job` and `PkgDeployer.Deploy`;
- the archive router;
- `Cmd`;
- the matrix loops;
- the per-architecture build loops.

Each such method is proved equal to a specification function, and the
lemmas about that function state what the source promises. Objects whose
fields the source updates are classes: `Cmd`, `PkgDeployer`, the archive
router, `TarInfo`, and the Cargo, Go, Maturin and Uv projects.

Python truthiness is explicit wherever the code relies on it. `get_release`
takes a `Truthiness` parameter. `AllTruthy` is what the code does, since a
`packaging` `Version` has no `__bool__`. `ZeroFalsy` is the behaviour the
guard evidently intends. See "## Findings".

## Behaviour kept as written

Several behaviours differ from what one might expect. The model keeps each
exactly as the code does it:

- **`get_tag` when every tag is rejected.** The rule rejects every tag, yet
  the code returns the first tag with version `0`. It does not fail. See
  `Resolver.AllRejectedGivesFirstTag`.
- **`get_release` with a rule.** It returns the first release that is not a
  prerelease, even one the rule rejects. See "## Findings".
- **Release assets in `build_container`.** Line 318 of `builder/container.py`
  asks the asset configuration, not the matched release asset, for its
  download URL. A release asset therefore always fails: either no name
  matches, or the URL lookup fails (`NoDownloadUrl`). A Go project's
  container always fails for the same reason (`Container.GoContainerFails`).
- **`ReleaseAsset.Deploy` in the Go tool.** It deploys every matching asset.
  It then returns an empty `assetInfo` together with a "could not find
  matching asset" error (`build/container/assets.go:473`). Only a panic of
  one of those deploys escapes. See "## Findings".
- **`CargoProject.Hydrate`.** It discards the result of `slices.Insert`
  (`build/packages/cargo.go:54`). When the container's asset slice is full,
  the container keeps its own assets and is only hydrated, which is what
  the model states. When the slice has spare capacity, Go shifts the
  elements in place and the container's slice shows the inserted asset
  instead of its last one; the model does not capture that (see
  "## Left out").
- **The argv of a cross command.** The arguments put in front of a cross
  command start with `run` (`build/utils/cmd.go:117-118`), while the
  program run is `docker`. `exec.Cmd` passes `Args` as the whole argv, so
  docker receives `run` as its argv[0] and `--rm` as its first argument;
  `build/utils/dockcross.go:37-38` starts its list with `docker` instead.
  The model keeps the list as written (`Commands.CrossArgsLayout`). Not
  executed.
- **The `dirs` map of `ArchiveAsset.Deploy`.** Nothing ever writes it, so its
  lookup (`build/container/assets.go:152-157`) never finds anything. The
  router still performs the lookup, over an empty map
  (`Assets.RouteNoDirs`).

## Model

| member | source | states |
|---|---|---|
| Resolver.RuleSemantics | builder/utils.py:52-61 | An absent or empty rule accepts exactly the non-empty names. A `/…/` rule matches exactly when the engine finds `^` + inner pattern + `$` in the name, and the match object is the one the engine found. A rule with `*` accepts exactly the `fnmatchcase` matches. Any other rule accepts only the name equal to it. Glob and literal rules never yield a match object. |
| Resolver.InlineIsMatchFn | builder/utils.py:86-92 | For a non-empty rule, the matcher `get_release` builds inline is the one `_match_fn` builds. |
| Resolver.ParsedHasRelease | builder/utils.py:64-74 | Every version `_parse_version` produces has at least one release component. |
| Resolver.RejectedIsZero | builder/utils.py:67-69 | A name the rule rejects parses to version `0`. It is never dropped and never an error. |
| Resolver.EveryLeadingVStripped | builder/utils.py:71-72 | An accepted name has every leading `v` stripped before parsing, so `vv1.2` parses as `1.2`. |
| Resolver.AcceptedJunkIsInvalid | builder/utils.py:71-72 | An accepted name that is not a version (`latest`) is an `InvalidVersion` failure. |
| Resolver.GetRelease | builder/utils.py:77-101 | The pagination loop, with its `continue` and early return, computes exactly `GetReleaseSpec`. |
| Resolver.SelectFirst | builder/utils.py:94-99 | The selected release is in the listing and is not a prerelease. Its version is that release's parse, the guard passes on it, and every earlier release is a prerelease or fails the guard. |
| Resolver.SelectIgnoresRest | builder/utils.py:94-99 | Once the scan stops, at a hit or a parse failure, later releases make no difference. |
| Resolver.NoneMatching | builder/utils.py:94-101 | A listing of prereleases only ends in `NoMatchingRelease`, naming the repository and the rule. |
| Resolver.AllPrereleases | builder/utils.py:94-96 | Prereleases are always skipped: a listing of prereleases selects nothing. |
| Resolver.SkipPrereleases | builder/utils.py:94-96 | The scan of a listing equals the scan of the listing with its leading prereleases removed. |
| Resolver.AsWrittenStopsAtFirstRelease | builder/utils.py:94-99 | Under the code's truthiness, the scan returns the first release that is not a prerelease, whenever it parses. |
| Resolver.RejectedFirstReleaseReturned | builder/utils.py:94-99 | Under the code's truthiness, `get_release` with a rule returns the first release that is not a prerelease, with version `"0"`, even when the rule rejects its name. |
| Resolver.RejectedReleaseReturned | builder/utils.py:98 | Concrete case: rule `foo-*` over a single release `bar-v1` returns `bar-v1` with version `"0"`. |
| Resolver.ZeroFalsyReturnsOnlyAccepted | builder/utils.py:98 | When version `0` is falsy, a selected release was not rejected by the rule, and its version is greater than `0`. |
| Resolver.Pairs | builder/utils.py:109-113 | The (tag, version) list has one pair per tag, in order, each holding the tag's parse. It fails exactly when some tag fails to parse. |
| Resolver.TagVersions | builder/utils.py:109-113 | The same, for the parse `_parse_version(tag, test)` under the rule's matcher. |
| Resolver.MaxIndex | builder/utils.py:109-115 | The chosen index holds a maximal version, and every earlier version is strictly smaller. This is the stable maximum `max` returns. |
| Resolver.GetTagIsFirstMaximum | builder/utils.py:104-116 | `get_tag` returns the first tag whose version is maximal, with `str()` of that version. |
| Resolver.GetTagFailures | builder/utils.py:104-118 | `get_tag` fails exactly for an unknown repository, an empty listing, or a tag that does not parse. Every failure is `NoMatchingTag`, naming the repository and the rule. |
| Resolver.AllRejectedGivesFirstTag | builder/utils.py:104-116 | When the rule rejects every tag, `get_tag` returns the first tag with version `"0"`. |
| Resolver.ResolvedVersionNonEmpty | builder/utils.py:77-116 | Every version string `get_tag` or `get_release` returns is non-empty. |
| Resolver.TagVersionNonEmpty | builder/utils.py:116 | The version text `get_tag` returns is never empty. |
| Resolver.LatestVersionNonEmpty | builder/utils.py:80-84 | The version text of a latest-release lookup is never empty. |
| Resolver.MatchedVersionNonEmpty | builder/utils.py:94-99 | The version text of a rule lookup is never empty. |
| Versions.Parse | builder/utils.py:72-74 | A text parses exactly when, after an optional `v`, every dot-separated field is a numeral. The release has one number per field, and a failure carries the text. |
| Versions.ParseRender | builder/utils.py:116 | `str()` of a version parses back to that version. |
| Versions.NormaliseIdempotent | builder/utils.py:99 | Rendering a parsed version and parsing it again changes nothing. |
| Versions.RenderZero | builder/utils.py:69 | `str(Version("0"))` is `"0"`. |
| Versions.RenderNonEmpty | builder/utils.py:116 | The rendering of a version is never empty. |
| Versions.Key | builder/utils.py:114 | A release's comparison key is the release with its trailing zeros removed. |
| Versions.LessIrreflexive | builder/utils.py:109-115 | No version is less than itself. |
| Versions.LessTransitive | builder/utils.py:109-115 | The order of versions is transitive. |
| Versions.LessTrichotomy | builder/utils.py:109-115 | Any two versions are ordered or equal under zero padding. |
| Versions.ZeroPadding | builder/utils.py:109-115 | A trailing zero component changes neither equality nor order. |
| Versions.ZeroIsLeast | builder/utils.py:114 | No version is below `0`. A version is above `0` exactly when some component is non-zero. |
| Glob.PlainPatternIsEquality | builder/utils.py:58-61 | A pattern without `*`, `?` or `[` matches exactly the equal name. |
| Glob.StarMatchesAll | builder/utils.py:58-59 | `*` matches every name. |
| Glob.PrefixStar | builder/utils.py:58-59 | A plain prefix followed by `*` matches exactly the names starting with that prefix. |
| PyFormat.FormatPlain | builder/go.py:73 | A template without braces formats to itself. |
| PyFormat.FormatEscapeRoundTrip | builder/go.py:73 | Any text with its braces doubled formats back to that text. |
| PyFormat.FormatField | builder/go.py:73 | A `{name}` field with a value in the arguments is replaced by that value. |
| PyFormat.MissingFieldFails | builder/go.py:73 | A `{name}` field without a value is a `KeyError`. |
| PyFormat.FirstFailure | builder/go.py:71-74 | The loop over binaries fails exactly when some binary's `main` does not format, and the error is that binary's. |
| Common.LStrip | builder/utils.py:72 | `lstrip(c)` removes exactly the leading run of `c`. |
| Common.LStripRun | builder/utils.py:72 | Stripping `v` from any number of `v`s followed by text not starting with `v` leaves that text. |
| Common.Cut | build/container/assets.go:337 | `strings.Cut` reports whether the separator occurs. If it does, the text splits at its first occurrence. If not, the text is left whole. |
| Common.TrimSpace | build/utils/cmd.go:72 | The trimmed text neither starts nor ends with white space, and it is empty exactly when the text is all white space. |
| Common.Lines | build/utils/cmd.go:71 | Every line is non-empty and holds a newline only at its end. |
| Common.LinesConcat | build/utils/cmd.go:71 | The lines concatenate back to the text. |
| Common.JoinSplit | builder/container.py:38 | Joining the fields of a split with its separator gives the text back. |
| Common.SortedKeys | build/packages/cargo.go:75 | The sorted keys are sorted and list each key exactly once. |
| Common.Sort | build/container/assets.go:423 | Sorting distinct paths gives a sorted sequence with the same elements. |
| Common.SortedUnique | builder/matrix.py:24-26 | Two sorted sequences with the same elements are equal, so the sorted listing of a set is unique. |
| GoPath.Clean | build/container/assets.go:142 | `path.Clean` never returns an empty path, and it keeps the path absolute exactly when it was. |
| GoPath.CleanRelative | build/container/assets.go:142-144 | A relative path that does not clean to `.` cleans to the join of its reduced elements. |
| GoPath.CleanReduced | build/container/assets.go:142 | Cleaning a reduced relative path changes nothing, and it drops a trailing slash. |
| GoPath.ParentElements | build/container/assets.go:144 | A reduced path starts with `..` exactly when its first element is `..`. Otherwise no element is `..`. |
| GoPath.BaseOfReduced | build/container/assets.go:528 | `path.Base` of a joined path is its last element. |
| GoPath.DirOfReduced | build/container/assets.go:186 | `path.Dir` of a reduced path drops its last element, down to `.`. |
| GoPath.DirBase | build/container/assets.go:186-208 | A path of two or more elements is its `Dir`, a slash and its `Base`. |
| GoPath.Join2 | build/container/assets.go:154 | `path.Join` of two paths, not both empty, is the cleaned join. |
| Config.DiscriminateVersion | builder/config.py:53-60 | A text is a literal version. A mapping with `url` is a URL version. Anything else has no tag. |
| Config.FirstPresent | builder/config.py:78-81 | The tag is the first type, in order, whose key is present. There is none exactly when no key is present. |
| Config.AssetOrder | builder/config.py:76-81 | The asset type is the first present of `archive`, `file`, `pkg`, `release`. An asset with none of them has no tag. |
| Config.DiscriminateBuilder | builder/config.py:216-221 | `go` and `cgo` both discriminate as `go`. A missing builder, or a value that is not a mapping, discriminates as `""`. |
| Config.ProjectKindOf | builder/config.py:347-354 | A go or cgo builder selects `GoProject`, `cargo` selects `CargoProject`, and a missing or empty builder selects `ContainerProject`. |
| Config.ValidateRefAndVersion | builder/config.py:242-246 | Validation fails exactly when both `ref` and `version` are set. Otherwise the project is unchanged. |
| Config.ResolveCommit | builder/config.py:248-267 | A `commit:X` ref is revision `X` with `SemVer(None)`, subject to the version fallback. |
| Config.ResolveTag | builder/config.py:254-255 | A `tag` or `tag:R` ref resolves to what `get_tag` returns for `ref[4:]`. For bare `tag` that is the empty rule. |
| Config.ResolveTagFails | builder/config.py:254-255 | A failing `get_tag` makes `resolve` fail with that error. |
| Config.ResolveViaRelease | builder/config.py:257-259 | Any other ref, or none, resolves through `get_release` to its `tag_name` and version. |
| Config.EmptyCommitLooksUpRelease | builder/config.py:252-259 | A bare `commit:` gives an empty revision, so `get_release` is asked with the rule `commit:`. |
| Config.VersionFallback | builder/config.py:261-265 | A truthy resolved version is kept. Otherwise a truthy `version` setting is used. Otherwise `resolve` fails with `NoVersion`. A success always carries a truthy version. |
| Config.ResolveUrlTemplating | builder/config.py:88-95 | A URL not starting with `%` is returned as is. One starting with `%` loses every leading `%` before it is formatted, so a template without fields comes back stripped. The version is `str(version)` when the setting is truthy, else none. |
| Config.FirstAsset | builder/config.py:135-138 | The chosen asset is the first one the glob accepts, or the first of all when there is no glob. There is none exactly when no asset is accepted. |
| Config.ResolveReleaseChoice | builder/config.py:121-139 | Without a glob, a release asset resolves to the first asset's download URL and the release version. A release without assets is an error naming the repository and the ref. |
| Config.Seeded | builder/config.py:275-276 | Empty packages become one default package named after the project. Otherwise the packages are kept. |
| Config.CargoPopulateProperties | builder/config.py:274-293 | The keys are kept, or are the project alone. Binaries default to the package name. Manifest, profile and files fall back to the defaults, then to `Cargo.toml`, `release` and `LICENSE`. Features fall back to the defaults. A container gets the built archive as its first asset, its other settings untouched. |
| Config.CargoProject.Populate | builder/config.py:274-293 | The loop leaves exactly the packages `CargoPopulateProperties` describes. |
| Config.GoPopulateProperties | builder/config.py:300-321 | Go packages get the same treatment, their `main`, flags, ldflags, tags and `before` falling back to the defaults. Files fall back to the defaults, then `LICENSE`. A container gets the Go archive first. |
| Config.GoProject.Populate | builder/config.py:300-321 | The loop leaves exactly the packages `GoPopulateProperties` describes. |
| Config.MaturinPopulateProperties | builder/config.py:328-335 | Maturin packages get manifest, profile and features from the defaults, then `Cargo.toml` and `release`. A second fill changes nothing. |
| Config.MaturinProject.Populate | builder/config.py:328-335 | The loop leaves exactly the packages `MaturinPopulateProperties` describes. |
| Config.UvProject.Populate | builder/config.py:342-344 | An empty package set becomes the project alone. Otherwise it is unchanged. |
| Assets.CalculateDst | build/container/assets.go:522-532 | A destination that is not absolute is an error, where the code panics. The result is absolute and starts with the destination, and it is the destination itself unless that ends in `/`. |
| Assets.CalculateDstIntoDirectory | build/container/assets.go:527-529 | A destination ending in `/` gets the last element of the source appended. |
| Assets.ApplyPlain | build/container/assets.go:476-484 | Text without `{` passes through the replacer unchanged. |
| Assets.ApplyField | build/container/assets.go:476-484 | Each of `{project}`, `{version}`, `{package}`, `{arch}` and `{triple}` is replaced by its value, and the rest is replaced in the same pass. |
| Assets.ApplyOtherBrace | build/container/assets.go:476-484 | A `{` that starts no placeholder is kept. |
| Assets.FreeBSDRelease | build/container/assets.go:337-341 | A FreeBSD version is valid exactly when the text before its first dot is two bytes long in UTF-8 and the text after it is one byte long: two ASCII characters, a dot and an ASCII character, or one two-byte character, a dot and an ASCII character. The parts are the text before and after that dot. |
| Assets.Machine | build/container/assets.go:343-346 | `arm64` is the only architecture renamed, to `aarch64`. |
| Assets.AbiText | build/container/assets.go:348-349 | The replacer turns `FreeBSD:{major}:{machine}` into `FreeBSD:` + major + `:` + machine. |
| Assets.OsVersionText | build/container/assets.go:348-350 | The replacer turns `{major}0{minor}000` into major + `0` + minor + `000`. |
| Assets.LineHintsSpec | build/container/assets.go:402-408 | The hints of a file are exactly its trimmed lines that are neither empty nor start with `#`. |
| Assets.FileHintsSpec | build/container/assets.go:397-412 | The hint set holds the three default directories and every file's hints, and nothing else. Unreadable files contribute nothing. |
| Assets.CollectHints | build/container/assets.go:397-412 | The loop over hints files collects exactly that set. |
| Assets.AddLineHints | build/container/assets.go:402-408 | The loop over a file's lines adds exactly its hints. |
| Assets.MakeDirs | build/container/assets.go:414-423 | A failed directory is one of the hints, and it names a `mkdir` failure. Otherwise every hint was created and the paths are the hints, sorted, once each. |
| Assets.Annotate | build/container/assets.go:379-388 | Each query line yields one `org.freebsd.pkg.<pkg>.version=<line>` annotation, in order. The first line becomes the version unless one is set. More lines than packages is an index error. |
| Assets.DeployPackages | build/container/assets.go:337-427 | A first deploy follows `Deployed`: a version validation error, then a repository write or install failure, then an index error for an empty package list. After that the entrypoint is `/usr/local/bin/` plus the first package, then come the query annotations, then the mkdir and ldconfig outcome. |
| Assets.QueryPackages | build/container/assets.go:377-388 | After installation the outcome is `Installed`: a query failure, or the version and annotations, then the link step. |
| Assets.LinkHints | build/container/assets.go:397-427 | The outcome is `Linked`: a `mkdir` failure on some hint, else the ldconfig result over the sorted hints. |
| Assets.PkgDeployer.constructor | build/container/assets.go:486-503 | A deployer made while a `pkg` asset is read holds that one package and no finished architectures. |
| Assets.PkgDeployer.Deploy | build/container/assets.go:331-430 | An architecture already done returns an empty result and no error, and changes nothing. Otherwise the architecture is recorded before validation, and the outcome is `Deployed`. |
| Assets.SafeElements | build/container/assets.go:142-147 | A safe entry name cleans to the join of a non-empty reduced relative path. |
| Assets.SafeNameElements | build/container/assets.go:142-147 | A safe name contains no `..` element, unless it is `..` itself. |
| Assets.Deepest | build/container/assets.go:186-190 | The walk up from the entry stops at the deepest ancestor that hits, starting from the entry itself. It ends at `.` when none does. |
| Assets.Walk | build/container/assets.go:186-190 | The `path.Dir` loop finds exactly that ancestor. |
| Assets.FirstApplicable | build/container/assets.go:161-194 | The pattern used is the first that applies. A file pattern applies to a non-directory that matches it. A directory pattern applies when some ancestor matches it. None is used exactly when none applies. |
| Assets.RouteNoDirs | build/container/assets.go:142-157 | An unsafe name (`.`, `../…`, absolute) is skipped and changes nothing. With the empty `dirs` map, a safe name is routed by the patterns alone. |
| Assets.RouteFilePattern | build/container/assets.go:162-181 | An entry routed by a file pattern is a safe non-directory. The pattern is the first applicable one and had no earlier match, and the destination is `calculateDst` of the name into the applied destination. |
| Assets.RouteKeepsMatched | build/container/assets.go:172-177 | Routing an entry never changes or removes a pattern's recorded match. |
| Assets.RoutePatternsKeepsMatched | build/container/assets.go:161-211 | The pattern loop only adds recorded matches. |
| Assets.RouteFileKeepsMatched | build/container/assets.go:172-177 | A file pattern only adds a recorded match. |
| Assets.RouteDirKeepsMatched | build/container/assets.go:196-203 | A directory pattern only adds a recorded match. |
| Assets.RouteEntrypoint | build/container/assets.go:223-225 | The entrypoint changes only from empty. It changes to the destination of a non-directory with all three execute bits, routed by the first pattern. |
| Assets.RouteAllKeepsMatched | build/container/assets.go:141-225 | Over a whole archive, recorded matches are never changed or removed. |
| Assets.RouteAllKeepsEntrypoint | build/container/assets.go:223-225 | Once set, the entrypoint stays for the rest of the archive. |
| Assets.RouteAllEntrypoint | build/container/assets.go:223-225 | An entrypoint found in an archive is the destination of an executable non-directory entry routed by the first pattern. |
| Assets.ArchiveRouter.Visit | build/container/assets.go:141-225 | The extraction callback updates the matches and the entrypoint exactly as `Route` does. |
| Assets.ArchiveRouter.VisitPatterns | build/container/assets.go:161-221 | The pattern loop of the callback is `RoutePatterns`. |
| Assets.ArchiveRouter.FindPattern | build/container/assets.go:161-194 | The pattern it finds is the first applicable one. For a directory pattern, it also finds the deepest matching ancestor. |
| Assets.ArchiveRouter.TakeFile | build/container/assets.go:162-181 | A file pattern's branch is `RouteFile`: a duplicate match is ignored, otherwise the match is recorded and the destination computed. |
| Assets.ArchiveRouter.TakeDir | build/container/assets.go:196-211 | A directory pattern's branch is `RouteDir`. A different earlier ancestor is a duplicate. Otherwise the remainder after the ancestor is appended to the destination. |
| Assets.ArchiveDeployInfo | build/container/assets.go:124-225 | An archive deploy reports no annotations. Its version is the given one, or the resolved one when none was given. Any entrypoint comes from an executable non-directory entry of the archive routed by the first pattern. |
| Assets.DeployArchive | build/container/assets.go:124-267 | The archive deploy computes exactly `ArchiveDeploy`. |
| Assets.ReleaseDeploy | build/container/assets.go:441-474 | A failed release lookup returns its error. Otherwise the result is always empty. The error is the first panic among the deploys of the matching assets, if one panics, with the earlier matches not panicking. Otherwise it is the "no matching asset" error, whatever the deploys did. |
| Assets.DeployRelease | build/container/assets.go:441-474 | The release deploy computes exactly `ReleaseDeploy`, with the archive deploy of each matching asset. |
| Assets.Annotated | build/container/assets.go:465-469 | A matched asset's result carries the release's version and the entrypoint the archive gave. An `owner/repo` repository replaces the annotations with its one version annotation. |
| Assets.IntendedReleaseDeploy | build/container/assets.go:454-473 | Corrected reading: the first matching asset's deploy result is returned, with the release's version and annotation. With no match, the "no matching asset" error is returned. |
| Assets.ReleaseDeployDropsResult | build/container/assets.go:473 | When some asset matches and every matching deploy succeeds, the code as written reports "no matching asset" while the corrected reading reports no error and the release's version. |
| Assets.Dispatch | build/container/assets.go:486-520 | The asset kind is the first present of `pkg`, `archive`, `file`, `release`. None present is `UnknownAssetType`. |
| Cargo.HydrateConfig | build/packages/cargo.go:94-116 | Non-empty fields are kept. Empty manifest, profile and files take the defaults, then `Cargo.toml`, `release` and `COPYING*`, `LICENSE*`. Empty features take the defaults. Manifest, profile and files end up non-empty. |
| Cargo.HydrateConfigIdempotent | build/packages/cargo.go:95-115 | Hydrating twice with the same defaults gives the same result as once. |
| Cargo.HydratedProperties | build/packages/cargo.go:40-64 | The keys are kept, or are the project name alone. Every package has binaries, its key when it had none, and hydrated settings. It keeps its container, which is hydrated and gets no inserted asset (for an asset slice without spare capacity; see "## Left out"). |
| Cargo.HydratedTwice | build/packages/cargo.go:44-63 | Hydrating twice leaves binaries and settings as after once. |
| Cargo.CargoProject.Hydrate | build/packages/cargo.go:33-65 | The name is set, empty architectures become amd64 and arm64, and the packages become `Hydrated`. |
| Cargo.HydratePackages | build/packages/cargo.go:44-64 | The package loop writes back exactly `Hydrated`. |
| Cargo.CargoProject.Job | build/packages/cargo.go:67-84 | A `RefVersion` error returns before any entry. Otherwise there is one package job per key, in sorted order, all with the same builder, repo and ref. The containers are exactly the keys with a container, sorted. |
| Cargo.ListPackages | build/packages/cargo.go:75-81 | The loop emits one job per key in order, and the keys with a container. |
| Cargo.WithContainerSpec | build/packages/cargo.go:78-80 | The container list holds exactly the keys with a container, and it is sorted when the keys are. |
| Goreleaser.Header | builder/go.py:21-38 | The document names the project, uses version 2 and `../dist`, and disables the release. Its one archive is `tar.gz` with the given files. `before` hooks are present exactly when there are some. |
| Goreleaser.Targets | builder/go.py:49-51 | One `freebsd_<arch>` target per architecture, in order. |
| GoBuild.PrepareTemplate | builder/go.py:40-67 | The template's own flags are followed by `-trimpath`, and its own ldflags by the four fixed ones. There is one target per architecture, amd64 and arm64 by default. The environment, created if missing, is extended by the five cgo entries or by `CGO_ENABLED=0`. The other keys are untouched. |
| GoBuild.Builds | builder/go.py:69-74 | One build per binary, in order, with `id` and `binary` set to it and `main` formatted for it. The first `main` that does not format is the error. |
| GoBuild.BinariesOf | builder/go.py:71 | A package's binaries are its own list when it has the key, even an empty one, else the package alone. |
| GoBuild.BuildGo | builder/go.py:19-74 | A missing `packages` key, or a missing package, is a `KeyError`. Otherwise: archive files default to `LICENSE`; `before` is present exactly when non-empty; there is one build per binary with its `id`, `binary` and formatted `main`, all sharing the prepared flags, ldflags, targets and environment. |
| Package.RootOwner | builder/package.py:24-29 | `_root_owner` sets uid and gid to 0 and clears uname and gname on the object it returns. |
| Package.MakeTemplate | builder/package.py:59-85 | The flags are the package's followed by `-trimpath`, and the ldflags the package's followed by the fixed four. Tags are the package's. There is one target per architecture. The environment is exactly the six cgo entries (`CGO_ENABLED=1`, the cross `CGO_CFLAGS` and `CGO_LDFLAGS`, and the three `PKG_CONFIG_*` settings) with cgo, and exactly `CGO_ENABLED=0` without. |
| Package.GoBuilds | builder/package.py:87-95 | One build per binary, in order, each sharing the template, with `id == binary ==` the binary and `main` formatted with it. The first failing format is the error. |
| Package.BuildGo | builder/package.py:32-95 | The document fails exactly when some binary's `main` does not format. Otherwise it names the package, holds its files and `before` hooks exactly when non-empty, and has one build per binary. |
| Package.BaseCommandFlags | builder/package.py:142-157 | No base command contains `-Z` or `--no-default-features`: those come only from the options below. |
| Package.EnabledSpec | builder/package.py:181 | The features passed on are exactly those not starting with `-`. |
| Package.FeatureArgs | builder/package.py:177-182 | No features give no options. With features, `--no-default-features` is present exactly when `-default` is listed, and the last option is `--features=` with the enabled features comma-joined. |
| Package.FirstBad | builder/package.py:198-201 | The failing binary is the first that is not executable. There is none exactly when all are. |
| Package.PackBinaries | builder/package.py:198-204 | The binaries are added in order up to the first that is not executable. |
| Package.ArchRun | builder/package.py:139-204 | One architecture of the loop computes exactly `ArchSteps`. |
| Package.BuildRust | builder/package.py:139-211 | The architecture loop, stopping at the first error, computes exactly `Planned`. |
| Package.LoopFails | builder/package.py:139-204 | The loop fails exactly when some architecture fails. |
| Package.ArchStepsSpec | builder/package.py:139-204 | An architecture fails exactly for a cargo package with a binary that is not executable. Otherwise it runs the command, and for cargo then packs `<name>-v<version>-<triple>.tar.gz`. |
| Package.PlannedFails | builder/package.py:139-204 | A build fails exactly for a cargo package with a non-executable binary on some architecture. |
| Package.PlannedSteps | builder/package.py:139-204 | A successful cargo build runs and packs once per architecture, in order. Maturin and uv run once per architecture. |
| Package.BuildStdOnArm64 | builder/package.py:184-185 | `-Z build-std=…` is passed exactly for arm64 builds that are not uv builds. |
| Package.NoDefaultFeatures | builder/package.py:177-179 | `--no-default-features` is passed exactly when a non-uv package lists `-default`. |
| Package.ArchiveNamesDiffer | builder/package.py:192 | Different architectures give different archive names. |
| Package.CommandTarget | builder/package.py:159-168 | Cargo and maturin get `--target=` with the triple right after the base command: x86_64 for amd64, else aarch64. A uv command does not depend on the architecture and ends with `--package=<name>`. |
| Package.BuildPackage | builder/package.py:114-137 | A uv package off FreeBSD is refused; on FreeBSD it builds for amd64 only. A Go package goes to `_build_go`, with cross building exactly for cgo. Every other package builds for the project's architectures. |
| Container.AfterLast | builder/container.py:116 | `rsplit('/', 1)[-1]` is the suffix after the last `/`, or the whole text without one. |
| Container.AfterLastAppend | builder/container.py:116 | After appending `/` and a slash-free part, the suffix is that part. |
| Container.CalculateDst | builder/container.py:110-118 | A destination not starting with `/` is an error. Otherwise the result starts with the destination, with no `/` after it, and is the destination itself unless that ends in `/`. |
| Container.CalculateDstComponent | builder/container.py:115-116 | A destination ending in `/` gets the last component of the source. |
| Container.CalculateDstIdempotent | builder/container.py:110-118 | Computing the destination again from the result gives the same result. |
| Container.CalculateDstAgreesWithGo | builder/container.py:110-118 | On clean relative sources the Python and Go destinations agree, both in failing and in value. |
| Container.ReleaseFields | builder/container.py:38 | Major and minor are dot-free fields of the text before the first `p`. Too few fields is an error. |
| Container.ReleaseFieldsOf | builder/container.py:38 | `M.m[.x][pN]` yields exactly `(M, m)`. |
| Container.ReleaseFieldsMissing | builder/container.py:38 | A version with no dot before its `p` is an error. |
| Container.ReleaseFieldsAgreeWithGo | builder/container.py:38 | Where the Go tool accepts a version that has no `p` and whose minor is not a dot, the Python script derives the same major and minor. |
| Container.PkgAbi | builder/container.py:38-64 | The ABI is `FreeBSD:<major>:<arm64→aarch64>`, failing exactly when the fields do. |
| Container.UnescapeEscape | builder/container.py:189 | A regex engine reading `re.escape(s)` sees `s` literally. |
| Container.EscapePlain | builder/container.py:189 | Text without special characters is escaped to itself. |
| Container.GoAsset | builder/container.py:186-194 | The synthesised asset is one release of `cynix/freebsd-binaries`. It has match rule `/<escape(name)>-v(?P<version><escape(version)>)/` and glob `<name>-freebsd_{arch}.tar.gz`. Its files are `**/<b>` per binary, followed by the configured files. |
| Container.SelectConfig | builder/container.py:180-197 | A non-empty `container` (one with any key, including keys the model does not otherwise read) is used as it is. A Go project's package container gets the synthesised asset, its `files` removed. A missing key is a `KeyError`, and anything else is an unknown project type. |
| Container.Base | builder/container.py:203-208 | The base is the configured one. Without one it is `freebsd:runtime` exactly when some asset has `pkg`, else `freebsd:static`. |
| Container.PkgNames | builder/container.py:253 | The package list is empty exactly when no asset has `pkg`. |
| Container.PyReplaceAbsent | builder/container.py:224 | `replace` leaves text without the pattern unchanged. |
| Container.TripleOf | builder/container.py:224 | For amd64 and arm64, the replacement chain gives the same triple as the package builder. |
| Container.TripleOther | builder/container.py:224 | Any other architecture keeps its name, with `-unknown-freebsd` appended. |
| Container.UserOf | builder/container.py:231-233 | No truthy user gives none. A user without `=` is a name only. Name and uid never contain `=`. |
| Container.UserOfPair | builder/container.py:232-233 | `name=uid` splits into both. A second `=` is an unpacking error. |
| Container.UserCommands | builder/container.py:232-248 | A user with a uid creates its group and then the user with that group. A user without one creates nothing. |
| Container.EntryItems | builder/container.py:345-346 | A string entrypoint becomes a one-item list. |
| Container.RenderEntrypointSpec | builder/container.py:345-348 | For items without commas, string and list entrypoints render alike, and splitting the rendering at commas and unquoting gives the items back. |
| Container.ConfigArgs | builder/container.py:348-354 | The `config` arguments are the rendered entrypoint, `--cmd=`, one `--env=k=v` per setting, and `--user=u:u` exactly for a named user. |
| Container.GetVersion | builder/container.py:76-90 | No version gives none, and a text gives itself when non-empty. A URL version is what the fetch returns. |
| Container.RunAssetsTag | builder/container.py:274-337 | The tag is set only once, by the first asset that offers a version. An entrypoint already set is kept. |
| Container.ReleaseAssetFails | builder/container.py:312-322 | A release asset always fails: a lookup or format error, a missing glob, no asset matching, or the missing download URL. |
| Container.IntendedReleaseUrl | builder/container.py:312-322 | Corrected reading of line 318: the URL is that of the first release asset whose file name matches the glob, with the release's version. The lookup, format and missing-glob errors are those of the code as written. |
| Container.ReleaseUrlAsWritten | builder/container.py:316-318 | The code as written fails with the missing download URL exactly where the corrected lookup finds an asset. Everywhere else both fail with the same error. |
| Container.ConfigureAssets | builder/container.py:274-337 | The asset loop computes exactly `RunAssets`, the first failure ending it. |
| Container.PyHints | builder/container.py:260-264 | The ldconfig directories hold the three defaults and every non-empty line of every hints file, as it stands, and nothing else. |
| Container.PyKeepsGoDrops | builder/container.py:262-264 | A comment line, or a line starting with a space, is a hint for the script, while the Go deployer (`build/container/assets.go:402-408`) drops it. |
| Container.PyHintsKeepComments | builder/container.py:264 | The line `#x` is a hint for the script but not for the Go deployer. |
| Container.PyHintsUntrimmed | builder/container.py:264 | The line ` /opt` is kept untrimmed by the script, and the Go deployer does not list it. |
| Container.BuildArch | builder/container.py:223-356 | One architecture computes exactly `ArchStep`. |
| Container.ArchStepSpec | builder/container.py:226-356 | An architecture's tag is the one the assets left. Its entrypoint is their entrypoint as a list, and its `config` arguments render that entrypoint. Its ldconfig directories are `PyHints` of the hints files when it installs packages, and none otherwise. |
| Container.Pushes | builder/container.py:358-361 | `latest` is always pushed, and the tag is pushed exactly when there is one. |
| Container.BuildContainer | builder/container.py:172-361 | The script computes exactly `Planned`. |
| Container.BuildArchs | builder/container.py:223-356 | The architecture loop computes exactly `RunArchs`. |
| Container.RunArchsTag | builder/container.py:223-337 | Across architectures the tag is set once, by the first offer. |
| Container.RunArchsEntrypoint | builder/container.py:345-356 | Once an entrypoint is known, every image gets the same entrypoint argument. |
| Container.PlannedRun | builder/container.py:199-361 | A successful build's images and tag come from the architecture loop over the selected configuration and base. |
| Container.PlannedTag | builder/container.py:282-361 | The build's tag is the first offered across architectures. `latest` is pushed first, and there is a second push exactly when there is a tag. |
| Container.PlannedEntrypoint | builder/container.py:345-356 | All images of a build carry the same entrypoint argument. |
| Container.OtherKeysOnlyMissAssets | builder/container.py:180-206 | A `container` holding only keys such as `script` is still chosen over a `go` section, and the build then fails for want of `assets`. |
| Container.GoContainerFails | builder/container.py:182-194 | A Go project's container never builds for a non-empty architecture list, because its synthesised release asset fails at line 318. |
| Commands.CrossArgsLayout | build/utils/cmd.go:117-133 | The cross-run arguments are, in order: the eight docker flags, one `--env=` per environment entry, the image, the command name and the original arguments. |
| Commands.CrossNameTwice | build/utils/cmd.go:132-133 | The command name appears twice: once as the container's command and once as the argv head. |
| Commands.Prepare | build/utils/cmd.go:97-138 | A local run keeps arguments and directory. Its environment is merged with the host's only when it has entries. A cross run needs docker, a directory and a user, clears the directory and gets the cross arguments. |
| Commands.YieldedSpec | build/utils/cmd.go:69-81 | The lines yielded are a prefix of the lines. They stop right after the first line the callback refuses, and every line but the last was accepted. |
| Commands.YieldedAll | build/utils/cmd.go:69-81 | A callback accepting everything sees every line. |
| Commands.YieldedFirst | build/utils/cmd.go:86-95 | A callback refusing everything sees only the first line. |
| Commands.YieldLines | build/utils/cmd.go:69-81 | The loop yields exactly the trimmed non-empty lines up to the first refusal, with indices counting yielded lines only. |
| Commands.YieldMapped | build/utils/cmd.go:71-75 | Trimming and dropping empty lines step by step gives the same lines. |
| Commands.Cmd.constructor | build/utils/cmd.go:20-25 | A new command has its name as argv head, no environment, no directory, no cross flag, and captures output. |
| Commands.Cmd.In | build/utils/cmd.go:27-30 | `In` sets the directory and nothing else. |
| Commands.Cmd.WithEnv | build/utils/cmd.go:32-35 | `WithEnv` appends the entries, in order. |
| Commands.Cmd.Cross | build/utils/cmd.go:49-57 | `Cross` sets the cross flag, and adds `FREEBSD_ARCH=<arch>` only for a non-empty architecture. |
| Commands.Cmd.Exec | build/utils/cmd.go:97-141 | `run` prepares the process. A preparation error or a failed run leaves the buffer. A run that succeeds appends the output when it is captured. |
| Commands.Cmd.Run | build/utils/cmd.go:59-62 | `Run` sends output to the terminal, so nothing is captured. |
| Commands.Cmd.Each | build/utils/cmd.go:64-84 | A run error returns before any yield. Otherwise the yielded lines are the trimmed non-empty ones up to the first refusal. |
| Commands.Cmd.First | build/utils/cmd.go:86-95 | `First` returns the first trimmed non-empty line, or `""` when there is none or the run failed. |
| BuilderMatrix.Published | builder/matrix.py:15-19 | The names listed are exactly those of releases that are not prereleases. |
| BuilderMatrix.Names | builder/matrix.py:24-26 | The projects are all keys for `all`, else the stripped comma-separated names, each once, sorted. |
| BuilderMatrix.SortedNames | builder/matrix.py:24-26 | The selection computes exactly `Names`. |
| BuilderMatrix.WithContainerSpec | builder/matrix.py:47-51 | The containers are exactly the package keys with a `container` entry, sorted. |
| BuilderMatrix.WithContainerEmpty | builder/matrix.py:60-61 | The container list is empty exactly when no package has a container. |
| BuilderMatrix.EntryFor | builder/matrix.py:27-63 | Every entry names its project. |
| BuilderMatrix.BuildMatrix | builder/matrix.py:10-65 | The script computes exactly `Matrix`. |
| BuilderMatrix.ListProjects | builder/matrix.py:24-63 | The project loop computes the entries in order, the first failure ending it. |
| BuilderMatrix.ProjectEntry | builder/matrix.py:27-63 | The loop body computes exactly `EntryFor`. |
| BuilderMatrix.MatrixProjects | builder/matrix.py:24-26 | The matrix lists the selected projects, in sorted order. |
| BuilderMatrix.GoEntryJobs | builder/matrix.py:33-45 | A Go entry carries the release version. Package jobs are present exactly when `<name>-v<version>` is not a published release. They are then one per package in sorted key order, with the release's tag and `cgo` defaulting to false. |
| BuilderMatrix.GoEntryContainers | builder/matrix.py:47-61 | A Go entry lists containers exactly when some package has one, and then exactly those keys, sorted. |
| BuilderMatrix.OtherEntry | builder/matrix.py:27-56 | An unknown name is a `KeyError`. A non-Go project with `container` lists itself, and any other project fails. |
| Matrix.LineFrom | matrix.py:37 | `.+` takes everything up to the first line break. |
| Matrix.LatestVersionPlain | matrix.py:36-40 | On a tag without line breaks, `v?(.+)` drops exactly one `v` from a tag of two or more characters that starts with `v`. Otherwise the version is the whole tag, and an empty tag has none. |
| Matrix.SearchVSpec | matrix.py:37-40 | The search finds a version exactly when the tag holds something other than line breaks, and the version is a non-empty single line. |
| Matrix.GetRelease | matrix.py:20-45 | The loop, setting tag and version before its `break`, computes exactly `GetReleaseSpec`. |
| Matrix.ScanFirst | matrix.py:26-32 | The scan stops at the first release that is not a prerelease and that the regex finds. Its version is group 1, failing when the regex has no group 1. |
| Matrix.ScanNone | matrix.py:33-34 | A scan that passes every release fails with "no release matching". |
| Matrix.ScanFound | matrix.py:26-32 | A successful scan found a release that is not a prerelease, that the regex finds, and before which every release was passed. |
| Matrix.EntryFor | matrix.py:62-94 | Every entry names its project. |
| Matrix.RunMatrix | matrix.py:48-96 | `main` computes exactly `Matrix`. |
| Matrix.ListProjects | matrix.py:57-94 | The loop appends one entry per name, in order, the first failure ending it. |
| Matrix.ProjectEntry | matrix.py:62-94 | The loop body computes exactly `EntryFor`. |
| Matrix.MatrixProjects | matrix.py:54-61 | The matrix lists the selected names, sorted and each once, and an empty input means all projects. |
| Matrix.GoEntryJobs | matrix.py:68-80 | A Go entry carries the version and one job per package in sorted order, with the found tag and `cgo` defaulting to false. |
| Matrix.GoEntryContainers | matrix.py:81-92 | Containers are listed exactly when some package has one, and then exactly those keys, sorted. |
| Matrix.OtherEntry | matrix.py:86-92 | Any other project gets an entry without packages. It lists itself as container exactly when it has `container`, and it never fails. |

## Left out

- Subprocesses are outside the model: buildah, podman, pkg, pw, ldconfig, docker, goreleaser, cargo, uv and `sh`. Their success and output are fields of the host records.
- HTTP and the GitHub API are outside the model: `requests.get`, `http.Get`, pagination and `get_latest_release`. Listings are input records, and `URLVersion.__str__` and HTTP version bodies are host functions.
- The regex engine is an abstract record of `compiles` and `search`. Nothing is assumed about how it treats `^` and `$`, so the model does not promise that a `/…/` rule's match covers the whole name (with Python's `re` it need not: `^a|b$` finds `a` in `ax`).
- doublestar matching and `path.Match` are abstract `Matcher` functions.
- `SemVer`'s definition is not part of this model. Its truthiness and text are functions in `Config.Env`.
- YAML and pydantic loading, `Config.from_yaml`, JSON dumping and the goreleaser YAML output are outside the model. The model works on the resulting records.
- `extract_tarball` (`builder/container.py:121-169`) is outside the model: tar extraction, `rglob`, moving files and the executable check. It is a host function returning the entrypoint or an error.
- The tar globbing of `package.files` (`builder/package.py:206-211`) and the `tar.add` arcnames are outside the model.
- Also outside the model: file copies, chmod, mkdir (a host predicate), the `root/` copy and the `script` run of `build_container`. Its ldconfig step is kept only as the set of directories (`Image.hints`); the `makedirs` calls and the `ldconfig` run over them are not modelled, and the hints files' contents are a host field.
- `URLAsset.do`: `url.Parse` and the HTTP status check are part of `download`. `FileAsset.Deploy` is not modelled. It is not among the operations whose logic this model covers.
- `fs.SkipDir` is outside the model: the archive entries are exactly the sequence the extractor hands to the callback.
- The `os.Environ()` merge (`build/utils/cmd.go:135-137`) is a host sequence, prepended as the code does. `Cmd.WithInput` is not modelled.
- `Source.RefVersion` in `build/packages/cargo.go` is an input record. `ContainerConfig.Hydrate` is the `hydrate` parameter.
- `build.py`, `generate.py`, `workflow.py`, `build/utils/dockcross.go` and `build/project/project.go` are not part of this model.
- Container environment values are modelled as text. The `str`, `bool`, `int` and `float` renderings of `--env=` are not distinguished.
- Cargo.HydratedProperties: assumes the container's asset slice has no spare capacity. The model has no slice capacity: Go's `slices.Insert` at `build/packages/cargo.go:54`, whose result is discarded, shifts the elements of a slice with room in place, so that the container would then show `[FileAsset(url), A]` where it had `[A, B]`. The capacity depends on the YAML decoder and on `ContainerConfig.Hydrate`, both outside the model.
- PyFormat.Format: fields with an attribute, an index, a conversion or a format spec (`{x.a}`, `{x[0]}`, `{x!r}`, `{x:>8}`) fail as `Unsupported`, where Python formats them. Such fields can appear in the URL templates of a project file (`builder/config.py:93`).
- Versions.Parse: models only PEP 440 release segments (`v?N(.N)*`). Pre-, post-, dev-, local and epoch forms are reported as invalid versions. So is a text with leading or trailing whitespace, which `packaging` strips before parsing.
- Glob.PlainPatternIsEquality: the statement covers plain patterns. `*`, `?` and classes are modelled in `Glob.FnMatchCase` but have no general lemma beyond `StarMatchesAll` and `PrefixStar`.
- BuilderMatrix.GoEntryJobs: the release lookup of `builder/matrix.py` is a parameter (`ReleaseLookup`) rather than `Resolver.GetReleaseSpec`. The script takes it from `builder/utils.py`, which `Resolver` models.
- BuilderMatrix.EntryFor, Matrix.EntryFor: their own contracts state only the project name. The contents of the entries are stated by the `GoEntry…` and `OtherEntry` lemmas.
- Package.BuildRust, Package.ArchRun: the effects of running a command are steps in a list. Whether a command fails is not modelled, because the steps run `check_call`.
- Assets.PkgDeployer.Deploy: the `RemoveAll` clean-ups (`build/container/assets.go:390-395`) only warn, so they are not modelled.

## Findings

| source | as written | input that shows it | evidently intended | confidence | as-written member | corrected member |
|---|---|---|---|---|---|---|
| builder/utils.py:98 | `if ver := _parse_version(rls.tag_name, test)` is always true: a rejected tag parses to `Version("0")`, and `Version` has no `__bool__`. `get_release` with a rule therefore returns the first release that is not a prerelease, whatever the rule says. | repository `o/r` with one release `bar-v1` and rule `foo-*`: returns `bar-v1` with version `0` | skip releases the rule rejects and only return a matching release | not executed | Resolver.RejectedReleaseReturned | Resolver.ZeroFalsyReturnsOnlyAccepted |
| builder/container.py:318 | `url = asset.browser_download_url` reads the attribute from the asset configuration, a `dict`, instead of from the matched release asset `a`. | any release asset whose glob matches an asset of the release: the lookup raises `AttributeError` | download the matched asset, `a.browser_download_url` | not executed | Container.ReleaseUrlAsWritten | Container.IntendedReleaseUrl |
| build/container/assets.go:473 | After the loop, `ReleaseAsset.Deploy` always returns an empty `assetInfo` and the "could not find matching asset" error, dropping the deploy of a matching asset. | a release with one asset that matches the glob and deploys without error: the deploy still fails | return the first matching asset's deploy result, with the release's version and annotation | not executed | Assets.ReleaseDeployDropsResult | Assets.IntendedReleaseDeploy |

The build and deploy models keep the last two rows as written: a release
asset ends the Python build with `NoDownloadUrl` or `NotFound`, and a Go release
deploy reports no matching asset. The corrected members stand beside them.

`Resolver.RejectedFirstReleaseReturned` states the as-written behaviour for
every listing. The corrected behaviour is the `ZeroFalsy` truthiness. Under
it, `Resolver.ZeroFalsyReturnsOnlyAccepted` proves that a selected release
was accepted by the rule. `Resolver.GetRelease` and `Config` take the
truthiness as a parameter, so both readings run through the same model.
