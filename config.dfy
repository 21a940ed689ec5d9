/** The project configuration of builder/config.py once the YAML has been
    read: which model a mapping becomes (the discriminators), the validation of
    `ref` and `version`, how a package project resolves its source revision
    and version, how assets resolve their URLs, and how each kind of project
    fills in its package defaults (`populate`).

    `SemVer` is not part of this model: its truthiness and its text are
    parameters. So is the text of a version given by URL, which
    `URLVersion.__str__` fetches over HTTP. */
module Config {
  import opened Common
  import Resolver
  import PyFormat
  import Glob

  // ---------------------------------------------------------------------
  // Discriminators

  /** A YAML value as the discriminators see it. */
  datatype Value = Text(s: string) | Mapping(fields: map<string, Value>) | Other

  datatype VersionType = LiteralType | UrlType

  /** `VersionType.discriminate`: text is a literal version, a mapping with
      `url` a version fetched from a URL, and anything else matches no
      version model. */
  function DiscriminateVersion(v: Value): (r: Option<VersionType>)
    ensures r == Some(LiteralType) <==> v.Text?
    ensures r == Some(UrlType) <==> v.Mapping? && "url" in v.fields
  {
    if v.Text? then Some(LiteralType)
    else if v.Mapping? && "url" in v.fields then Some(UrlType)
    else None
  }

  datatype AssetType = ArchiveType | FileType | PkgType | ReleaseType

  /** The members of `AssetType` in declaration order, with their values. */
  const AssetTypes: seq<(AssetType, string)> :=
    [(ArchiveType, "archive"), (FileType, "file"), (PkgType, "pkg"), (ReleaseType, "release")]

  predicate HasField(v: Value, field: string) {
    v.Mapping? && field in v.fields
  }

  /** `AssetType.discriminate`: the first member, in declaration order, whose
      value is a key of the mapping. */
  function DiscriminateAsset(v: Value): Option<AssetType> {
    FirstPresent(v, AssetTypes)
  }

  /** `types[i]` is the first entry whose value is a key of `v`. */
  predicate FirstWith(v: Value, types: seq<(AssetType, string)>, i: int) {
    0 <= i < |types| && HasField(v, types[i].1) && forall j :: 0 <= j < i ==> !HasField(v, types[j].1)
  }

  function FirstPresent(v: Value, types: seq<(AssetType, string)>): (r: Option<AssetType>)
    ensures r.None? <==> forall i :: 0 <= i < |types| ==> !HasField(v, types[i].1)
    ensures r.Some? ==> exists i :: FirstWith(v, types, i) && r.value == types[i].0
    decreases |types|
  {
    if types == [] then None
    else if HasField(v, types[0].1) then Some(types[0].0)
    else
      var r := FirstPresent(v, types[1..]);
      assert forall i :: 1 <= i < |types| ==> types[i] == types[1..][i - 1];
      r
  }

  /** A mapping with both `archive` and `release` keys is an archive asset:
      the order of the members decides, not the order of the keys. */
  lemma AssetOrder(v: Value)
    ensures HasField(v, "archive") ==> DiscriminateAsset(v) == Some(ArchiveType)
    ensures !HasField(v, "archive") && HasField(v, "file") ==> DiscriminateAsset(v) == Some(FileType)
    ensures !HasField(v, "archive") && !HasField(v, "file") && HasField(v, "pkg") ==> DiscriminateAsset(v) == Some(PkgType)
    ensures DiscriminateAsset(v) == Some(ReleaseType) <==>
      !HasField(v, "archive") && !HasField(v, "file") && !HasField(v, "pkg") && HasField(v, "release")
    ensures DiscriminateAsset(v).None? <==>
      !HasField(v, "archive") && !HasField(v, "file") && !HasField(v, "pkg") && !HasField(v, "release")
  {
    assert AssetTypes[1..] == [(FileType, "file"), (PkgType, "pkg"), (ReleaseType, "release")];
    assert AssetTypes[1..][1..] == [(PkgType, "pkg"), (ReleaseType, "release")];
    assert AssetTypes[1..][1..][1..] == [(ReleaseType, "release")];
  }

  /** `BuilderType.discriminate`: the `builder` value of a mapping (`""` when
      there is none, and for a value that is not a mapping), with `cgo` read
      as `go`. `None` stands for a builder value that is not text, which
      matches no tag. */
  function DiscriminateBuilder(v: Value): (r: Option<string>)
    ensures r == Some("go") <==> v.Mapping? && "builder" in v.fields && v.fields["builder"] in {Text("go"), Text("cgo")}
    ensures r == Some("") <==> !v.Mapping? || "builder" !in v.fields || v.fields["builder"] == Text("")
  {
    if !v.Mapping? || "builder" !in v.fields then Some("")
    else match v.fields["builder"]
      case Text(b) => if b == "cgo" then Some("go") else Some(b)
      case _ => None
  }

  datatype ProjectKind = ContainerKind | CargoKind | GoKind | MaturinKind | UvKind

  /** The tags of the `Project` union. */
  function KindOfTag(tag: string): Option<ProjectKind> {
    if tag == "" then Some(ContainerKind)
    else if tag == "cargo" then Some(CargoKind)
    else if tag == "go" then Some(GoKind)
    else if tag == "maturin" then Some(MaturinKind)
    else if tag == "uv" then Some(UvKind)
    else None
  }

  /** Which project model a mapping becomes: `cgo` and `go` projects are Go
      projects, and a project without a builder is a container project. */
  function ProjectKindOf(v: Value): (r: Option<ProjectKind>)
    ensures r == Some(GoKind) <==> HasField(v, "builder") && v.fields["builder"] in {Text("go"), Text("cgo")}
    ensures r == Some(ContainerKind) <==> !HasField(v, "builder") || v.fields["builder"] == Text("")
    ensures r == Some(CargoKind) <==> HasField(v, "builder") && v.fields["builder"] == Text("cargo")
  {
    match DiscriminateBuilder(v)
    case None => None
    case Some(tag) => KindOfTag(tag)
  }

  // ---------------------------------------------------------------------
  // Package projects: validation and resolution

  /** A version as configured: literal text, or text fetched from a URL. */
  datatype VersionSpec = LiteralVersion(text: string) | UrlVersion(url: string, regex: Option<string>)

  datatype Architecture = Amd64 | Arm64

  /** The enumeration value of an architecture. */
  function ArchValue(a: Architecture): string {
    match a
    case Amd64 => "amd64"
    case Arm64 => "arm64"
  }

  /** The fields of `PackageProject` that resolution reads. */
  datatype PackageSettings = PackageSettings(
    repo: string,
    ref: Option<string>,
    version: Option<VersionSpec>,
    builder: ProjectKind,
    arch: seq<Architecture>)

  /** What `resolve` reads from outside the configuration: the GitHub
      listings, the regular-expression engine, the truthiness of a parsed
      version, the truthiness and text of a `SemVer` made from an optional
      string, and the text a URL version fetches. */
  datatype Env = Env(
    gh: Resolver.GitHub,
    regex: Resolver.RegexEngine,
    truth: Resolver.Truthiness,
    semTruthy: Option<string> -> bool,
    semText: Option<string> -> string,
    urlText: (string, Option<string>) -> string)

  /** A resolved version: the plain text a resolver returned, or a `SemVer`
      built from an optional string. */
  datatype ResolvedVersion = Plain(text: string) | Sem(arg: Option<string>)

  datatype ConfigError =
    | Lookup(err: Resolver.Error)
    | RefAndVersion
    | NoVersion(repo: string)
    | DuplicateVersionArgument
    | Template(ferr: PyFormat.FormatError)
    | NoAsset(repo: string, ref: Option<string>)

  /** `validate_ref_and_version`: a project may pin a revision or a version,
      not both. */
  function ValidateRefAndVersion(p: PackageSettings): (r: Result<PackageSettings, ConfigError>)
    ensures r.Err? <==> p.ref.Some? && p.version.Some?
    ensures r.Ok? ==> r.value == p
  {
    if p.ref.Some? && p.version.Some? then Err(RefAndVersion) else Ok(p)
  }

  /** `str(self.version)`. */
  function VersionText(v: VersionSpec, env: Env): string {
    match v
    case LiteralVersion(text) => text
    case UrlVersion(url, regex) => env.urlText(url, regex)
  }

  /** Whether `self.version` is true: empty literal text is false, a URL
      version (a model object) is always true. */
  predicate SpecTruthy(v: VersionSpec) {
    v.UrlVersion? || v.text != ""
  }

  predicate VersionTruthy(ver: Option<ResolvedVersion>, env: Env) {
    match ver
    case None => false
    case Some(Plain(text)) => text != ""
    case Some(Sem(arg)) => env.semTruthy(arg)
  }

  /** `s[n:]`. */
  function Drop(s: string, n: nat): string {
    if n <= |s| then s[n..] else ""
  }

  predicate IsTagRef(ref: string) {
    ref == "tag" || StartsWith(ref, "tag:")
  }

  /** Lines 251-255: what the ref alone determines, `(None, None)` when it
      leaves the revision to the release lookup. */
  function FromRef(p: PackageSettings, env: Env): Result<(Option<string>, Option<ResolvedVersion>), ConfigError> {
    if p.ref.None? || p.ref.value == "" then Ok((None, None))
    else
      var ref := p.ref.value;
      if StartsWith(ref, "commit:") then Ok((Some(Drop(ref, 7)), Some(Sem(None))))
      else if IsTagRef(ref) then
        match Resolver.GetTag(env.gh, p.repo, Some(Drop(ref, 4)), env.regex)
        case Err(err) => Err(Lookup(err))
        case Ok(found) => Ok((Some(found.0), Some(Plain(found.1))))
      else Ok((None, None))
  }

  /** Lines 257-259: without a revision, the release lookup with the ref as
      its rule gives both the revision (the tag name) and the version. */
  function FromRelease(p: PackageSettings, env: Env, rls: Option<string>, ver: Option<ResolvedVersion>): Result<(string, Option<ResolvedVersion>), ConfigError> {
    if rls.Some? && rls.value != "" then Ok((rls.value, ver))
    else match Resolver.GetReleaseSpec(env.gh, p.repo, p.ref, env.regex, env.truth)
      case Err(err) => Err(Lookup(err))
      case Ok(found) => Ok((found.0.tagName, Some(Plain(found.1))))
  }

  /** Lines 261-265: a false version falls back to the configured one, and a
      version that is still false is an error. */
  function WithVersion(p: PackageSettings, env: Env, ver: Option<ResolvedVersion>): Result<ResolvedVersion, ConfigError> {
    var ver' := if !VersionTruthy(ver, env) && p.version.Some? && SpecTruthy(p.version.value)
      then Some(Sem(Some(VersionText(p.version.value, env)))) else ver;
    if VersionTruthy(ver', env) then Ok(ver'.value) else Err(NoVersion(p.repo))
  }

  /** `PackageProject.resolve(gh)`: the revision to build and its version. */
  function Resolve(p: PackageSettings, env: Env): Result<(string, ResolvedVersion), ConfigError> {
    match FromRef(p, env)
    case Err(err) => Err(err)
    case Ok(first) =>
      match FromRelease(p, env, first.0, first.1)
      case Err(err) => Err(err)
      case Ok(second) =>
        match WithVersion(p, env, second.1)
        case Err(err) => Err(err)
        case Ok(ver) => Ok((second.0, ver))
  }

  /** A `commit:X` ref is revision `X` with `SemVer(None)`, that version
      replaced by the configured one when it is false. */
  lemma ResolveCommit(p: PackageSettings, env: Env, x: string)
    requires p.ref == Some("commit:" + x) && x != ""
    ensures Resolve(p, env) == match WithVersion(p, env, Some(Sem(None)))
      case Err(err) => Err(err)
      case Ok(ver) => Ok((x, ver))
    ensures env.semTruthy(None) ==> Resolve(p, env) == Ok((x, Sem(None)))
  {
    assert StartsWith("commit:" + x, "commit:");
    assert Drop("commit:" + x, 7) == x;
  }

  /** `tag` and `tag:R` take the revision and version from `get_tag` with the
      rule after `tag:` (none for a bare `tag`). */
  lemma ResolveTag(p: PackageSettings, env: Env, tag: string, ver: string)
    requires p.ref.Some? && IsTagRef(p.ref.value) && !StartsWith(p.ref.value, "commit:")
    requires Resolver.GetTag(env.gh, p.repo, Some(Drop(p.ref.value, 4)), env.regex) == Ok((tag, ver))
    requires tag != ""
    ensures Resolve(p, env) == Ok((tag, Plain(ver)))
    ensures p.ref.value == "tag" ==> Drop(p.ref.value, 4) == ""
  {
    Resolver.TagVersionNonEmpty(env.gh, p.repo, Some(Drop(p.ref.value, 4)), env.regex);
    FromTagRef(p, env, tag, ver);
    FromGivenRevision(p, env, tag, Some(Plain(ver)));
    PlainVersionKept(p, env, ver);
  }

  lemma FromTagRef(p: PackageSettings, env: Env, tag: string, ver: string)
    requires p.ref.Some? && IsTagRef(p.ref.value) && !StartsWith(p.ref.value, "commit:")
    requires Resolver.GetTag(env.gh, p.repo, Some(Drop(p.ref.value, 4)), env.regex) == Ok((tag, ver))
    ensures FromRef(p, env) == Ok((Some(tag), Some(Plain(ver))))
  {
  }

  /** A version the lookup gave is kept when it is true. */
  lemma PlainVersionKept(p: PackageSettings, env: Env, ver: string)
    requires ver != ""
    ensures WithVersion(p, env, Some(Plain(ver))) == Ok(Plain(ver))
  {
  }

  /** A revision the ref already gave is kept, and no release is looked up. */
  lemma FromGivenRevision(p: PackageSettings, env: Env, rls: string, ver: Option<ResolvedVersion>)
    requires rls != ""
    ensures FromRelease(p, env, Some(rls), ver) == Ok((rls, ver))
  {
  }

  /** A `get_tag` failure is the failure of `resolve`. */
  lemma ResolveTagFails(p: PackageSettings, env: Env)
    requires p.ref.Some? && IsTagRef(p.ref.value) && !StartsWith(p.ref.value, "commit:")
    requires Resolver.GetTag(env.gh, p.repo, Some(Drop(p.ref.value, 4)), env.regex).Err?
    ensures Resolve(p, env) == Err(Lookup(Resolver.GetTag(env.gh, p.repo, Some(Drop(p.ref.value, 4)), env.regex).error))
  {
  }

  /** Any other ref, and no ref at all, is the rule of the release lookup,
      whose tag name is the revision. */
  lemma ResolveViaRelease(p: PackageSettings, env: Env)
    requires p.ref.None? || p.ref.value == "" || (!StartsWith(p.ref.value, "commit:") && !IsTagRef(p.ref.value))
    ensures Resolve(p, env) == match Resolver.GetReleaseSpec(env.gh, p.repo, p.ref, env.regex, env.truth)
      case Err(err) => Err(Lookup(err))
      case Ok(found) => Ok((found.0.tagName, Plain(found.1)))
  {
    Resolver.ResolvedVersionNonEmpty(env.gh, p.repo, p.ref, env.regex, env.truth);
  }

  /** As written, a `commit:` ref naming no commit is not an error: the empty
      revision is false, so the release lookup runs with the whole ref as a
      literal rule. */
  lemma EmptyCommitLooksUpRelease(p: PackageSettings, env: Env)
    requires p.ref == Some("commit:")
    ensures Resolve(p, env) == match Resolver.GetReleaseSpec(env.gh, p.repo, Some("commit:"), env.regex, env.truth)
      case Err(err) => Err(Lookup(err))
      case Ok(found) => Ok((found.0.tagName, Plain(found.1)))
  {
    assert StartsWith("commit:", "commit:");
    assert Drop("commit:", 7) == "";
    Resolver.ResolvedVersionNonEmpty(env.gh, p.repo, p.ref, env.regex, env.truth);
  }

  /** The version step: a true version is kept; a false one is replaced by the
      configured version when that is true; otherwise there is no version. */
  lemma VersionFallback(p: PackageSettings, env: Env, ver: Option<ResolvedVersion>)
    ensures VersionTruthy(ver, env) ==> WithVersion(p, env, ver) == Ok(ver.value)
    ensures !VersionTruthy(ver, env) && p.version.Some? && SpecTruthy(p.version.value) ==>
      WithVersion(p, env, ver) ==
        (var sem := Sem(Some(VersionText(p.version.value, env)));
         if env.semTruthy(sem.arg) then Ok(sem) else Err(NoVersion(p.repo)))
    ensures !VersionTruthy(ver, env) && (p.version.None? || !SpecTruthy(p.version.value)) ==>
      WithVersion(p, env, ver) == Err(NoVersion(p.repo))
    ensures WithVersion(p, env, ver).Ok? ==> VersionTruthy(Some(WithVersion(p, env, ver).value), env)
  {
  }

  // ---------------------------------------------------------------------
  // Assets

  datatype ArchiveFile = ArchiveFile(src: string, dst: string)

  /** The URL and version shared by archive and file assets (`_URLAsset`). */
  datatype UrlSource = UrlSource(url: string, version: Option<VersionSpec>)

  datatype Asset =
    | ArchiveAsset(source: UrlSource, files: seq<ArchiveFile>)
    | FileAsset(source: UrlSource, dst: Option<string>)
    | PkgAsset(pkg: string)
    | ReleaseAsset(repo: string, ref: Option<string>, glob: Option<string>, files: seq<ArchiveFile>)

  /** `_URLAsset.resolve(**kw)`: a URL starting with `%` has every leading
      `%` removed and is formatted with `version` and the keyword
      arguments; any other URL is used as it is. Passing `version` among the
      keyword arguments as well is a `TypeError`. The version is the
      argument of the `SemVer` built. */
  function ResolveUrl(a: UrlSource, kw: map<string, string>, env: Env): Result<(string, Option<string>), ConfigError> {
    var arg := if a.version.Some? && SpecTruthy(a.version.value) then Some(VersionText(a.version.value, env)) else None;
    if !StartsWith(a.url, "%") then Ok((a.url, arg))
    else if "version" in kw then Err(DuplicateVersionArgument)
    else match PyFormat.Format(LStrip(a.url, '%'), kw["version" := env.semText(arg)])
      case Err(err) => Err(Template(err))
      case Ok(url) => Ok((url, arg))
  }

  /** Only a URL starting with `%` is a template, and all its leading `%`
      go; a URL without braces after them comes out as that text. */
  lemma ResolveUrlTemplating(a: UrlSource, kw: map<string, string>, env: Env)
    requires "version" !in kw
    ensures !StartsWith(a.url, "%") ==> ResolveUrl(a, kw, env).Ok? && ResolveUrl(a, kw, env).value.0 == a.url
    ensures StartsWith(a.url, "%") && PyFormat.NoBraces(LStrip(a.url, '%')) ==>
      ResolveUrl(a, kw, env).Ok? && ResolveUrl(a, kw, env).value.0 == LStrip(a.url, '%')
      && (|ResolveUrl(a, kw, env).value.0| == 0 || ResolveUrl(a, kw, env).value.0[0] != '%')
    ensures ResolveUrl(a, kw, env).Ok? ==>
      ResolveUrl(a, kw, env).value.1 == (if a.version.Some? && SpecTruthy(a.version.value) then Some(VersionText(a.version.value, env)) else None)
  {
    if StartsWith(a.url, "%") && PyFormat.NoBraces(LStrip(a.url, '%')) {
      var arg := if a.version.Some? && SpecTruthy(a.version.value) then Some(VersionText(a.version.value, env)) else None;
      PyFormat.FormatPlain(LStrip(a.url, '%'), kw["version" := env.semText(arg)]);
    }
  }

  /** A ref or a glob starting with `%` loses exactly that one `%` and is
      formatted with the keyword arguments. */
  function Templated(s: Option<string>, kw: map<string, string>): Result<Option<string>, ConfigError> {
    if s.Some? && s.value != "" && s.value[0] == '%' then
      match PyFormat.Format(s.value[1..], kw)
      case Err(err) => Err(Template(err))
      case Ok(t) => Ok(Some(t))
    else Ok(s)
  }

  /** `assets[i]` is the first asset the glob accepts. */
  predicate FirstAccepted(assets: seq<Resolver.AssetFile>, glob: Option<string>, i: int) {
    0 <= i < |assets| && Accepts(glob, assets[i]) && forall j :: 0 <= j < i ==> !Accepts(glob, assets[j])
  }

  /** The first asset whose name the glob matches (any asset when there is
      no glob). */
  function FirstAsset(assets: seq<Resolver.AssetFile>, glob: Option<string>): (r: Option<Resolver.AssetFile>)
    ensures r.Some? ==> exists i :: FirstAccepted(assets, glob, i) && assets[i] == r.value
    ensures r.None? <==> forall i :: 0 <= i < |assets| ==> !Accepts(glob, assets[i])
    decreases |assets|
  {
    if assets == [] then None
    else if Accepts(glob, assets[0]) then Some(assets[0])
    else
      var r := FirstAsset(assets[1..], glob);
      assert forall i :: 1 <= i < |assets| ==> assets[i] == assets[1..][i - 1];
      r
  }

  /** `not glob or fnmatchcase(asset.name, glob)`. */
  predicate Accepts(glob: Option<string>, a: Resolver.AssetFile) {
    glob.None? || glob.value == "" || Glob.FnMatchCase(a.name, glob.value)
  }

  /** `ReleaseAsset.resolve(gh, **kw)`: the download URL of the first asset
      of the matching release whose name the glob matches, and the version
      of that release. */
  function ResolveReleaseAsset(repo: string, ref: Option<string>, glob: Option<string>, kw: map<string, string>, env: Env): Result<(string, string), ConfigError> {
    match Templated(ref, kw)
    case Err(err) => Err(err)
    case Ok(ref') =>
      match Resolver.GetReleaseSpec(env.gh, repo, ref', env.regex, env.truth)
      case Err(err) => Err(Lookup(err))
      case Ok(found) =>
        var (rls, ver) := found;
        match Templated(glob, kw)
        case Err(err) => Err(err)
        case Ok(glob') =>
          match FirstAsset(rls.assets, glob')
          case None => Err(NoAsset(repo, ref'))
          case Some(asset) => Ok((asset.downloadUrl, ver))
  }

  /** Without a glob the first asset of the release is taken; with no asset
      to take, resolution fails. */
  lemma ResolveReleaseChoice(repo: string, ref: Option<string>, kw: map<string, string>, env: Env, rls: Resolver.Release, ver: string)
    requires Templated(ref, kw).Ok?
    requires Resolver.GetReleaseSpec(env.gh, repo, Templated(ref, kw).value, env.regex, env.truth) == Ok((rls, ver))
    ensures rls.assets != [] ==> ResolveReleaseAsset(repo, ref, None, kw, env) == Ok((rls.assets[0].downloadUrl, ver))
    ensures rls.assets == [] ==> ResolveReleaseAsset(repo, ref, None, kw, env) == Err(NoAsset(repo, Templated(ref, kw).value))
  {
  }

  // ---------------------------------------------------------------------
  // Populating package defaults

  datatype EntryPoint = EntryText(text: string) | EntryList(items: seq<string>)

  datatype Container = Container(
    base: Option<string>,
    assets: seq<Asset>,
    env: map<string, string>,
    user: Option<string>,
    script: Option<string>,
    entrypoint: Option<EntryPoint>)

  /** `a or b` on optional text. */
  function OrText(a: Option<string>, b: Option<string>): Option<string> {
    if a.Some? && a.value != "" then a else b
  }

  /** `a or b` on lists. */
  function OrList<T>(a: seq<T>, b: seq<T>): seq<T> {
    if a != [] then a else b
  }

  /** The built archive a container of a packaged project installs first. */
  const CargoArchiveUrl := "%https://github.com/cynix/freebsd-binaries/releases/download/{project}-v{version}/{package}-v{version}-{triple}.tar.gz"
  const GoArchiveUrl := "%https://github.com/cynix/freebsd-binaries/releases/download/{project}-v{version}/{package}-{version}-freebsd_{arch}.tar.gz"

  function WithArchive(c: Option<Container>, url: string): Option<Container> {
    match c
    case None => None
    case Some(c) => Some(c.(assets := [FileAsset(UrlSource(url, None), None)] + c.assets))
  }

  /** `RustConfig`/`CargoConfig` fields. */
  datatype CargoConfig = CargoConfig(manifest: Option<string>, profile: Option<string>, features: seq<string>, files: seq<string>)

  datatype CargoPackage = CargoPackage(
    manifest: Option<string>,
    profile: Option<string>,
    features: seq<string>,
    files: seq<string>,
    binaries: seq<string>,
    container: Option<Container>)

  const DefaultCargoPackage := CargoPackage(None, None, [], [], [], None)

  /** One iteration of `CargoProject.populate`. */
  function FillCargo(k: string, v: CargoPackage, d: CargoConfig): CargoPackage {
    CargoPackage(
      OrText(OrText(v.manifest, d.manifest), Some("Cargo.toml")),
      OrText(OrText(v.profile, d.profile), Some("release")),
      OrList(v.features, d.features),
      OrList(OrList(v.files, d.files), ["LICENSE"]),
      if v.binaries == [] then [k] else v.binaries,
      WithArchive(v.container, CargoArchiveUrl))
  }

  /** The packages before the loop: none configured means one, named after
      the project, with every field at its default. */
  function Seeded<P>(packages: map<string, P>, project: string, default: P): (r: map<string, P>)
    ensures packages == map[] ==> r == map[project := default]
    ensures packages != map[] ==> r == packages
  {
    if packages == map[] then map[project := default] else packages
  }

  function CargoPopulated(packages: map<string, CargoPackage>, d: CargoConfig, project: string): map<string, CargoPackage> {
    var base := Seeded(packages, project, DefaultCargoPackage);
    map k | k in base :: FillCargo(k, base[k], d)
  }

  /** What `CargoProject.populate` leaves: the configured packages (or one
      named after the project), each with binaries (its own name when it had
      none), a manifest, profile and files taken from the package, else the
      project defaults, else `Cargo.toml`, `release` and `LICENSE`, and, for
      a package with a container, the built archive as that container's first
      asset. */
  lemma CargoPopulateProperties(packages: map<string, CargoPackage>, d: CargoConfig, project: string, k: string)
    ensures var r := CargoPopulated(packages, d, project);
      (k in r <==> (if packages == map[] then k == project else k in packages))
    ensures var r := CargoPopulated(packages, d, project);
      k in r ==>
        var v := Seeded(packages, project, DefaultCargoPackage)[k];
        && r[k].binaries == (if v.binaries == [] then [k] else v.binaries)
        && r[k].manifest.Some? && r[k].manifest.value != ""
        && r[k].manifest == (if v.manifest.Some? && v.manifest.value != "" then v.manifest
                             else if d.manifest.Some? && d.manifest.value != "" then d.manifest
                             else Some("Cargo.toml"))
        && r[k].profile == (if v.profile.Some? && v.profile.value != "" then v.profile
                            else if d.profile.Some? && d.profile.value != "" then d.profile
                            else Some("release"))
        && r[k].features == (if v.features != [] then v.features else d.features)
        && r[k].files != []
        && r[k].files == (if v.files != [] then v.files else if d.files != [] then d.files else ["LICENSE"])
        && r[k].container.Some? == v.container.Some?
        && (v.container.Some? ==>
              r[k].container.value.assets == [FileAsset(UrlSource(CargoArchiveUrl, None), None)] + v.container.value.assets
              && r[k].container.value.(assets := v.container.value.assets) == v.container.value)
  {
  }

  /** A Cargo project: the fields `populate` rewrites. */
  class CargoProject {
    var packages: map<string, CargoPackage>
    var defaults: CargoConfig

    constructor(packages: map<string, CargoPackage>, defaults: CargoConfig)
      ensures this.packages == packages && this.defaults == defaults
    {
      this.packages := packages;
      this.defaults := defaults;
    }

    /** `CargoProject.populate(project)`. */
    method Populate(project: string)
      modifies this`packages
      ensures packages == CargoPopulated(old(packages), defaults, project)
    {
      if packages == map[] {
        packages := map[project := DefaultCargoPackage];
      }
      ghost var base := packages;
      var d := defaults;
      packages := FillEach(packages, (k, v) => FillCargo(k, v, d));
      assert base == Seeded(old(packages), project, DefaultCargoPackage);
    }
  }

  datatype GoConfig = GoConfig(main: string, flags: seq<string>, ldflags: seq<string>, tags: seq<string>, before: seq<string>, files: seq<string>)

  datatype GoPackage = GoPackage(
    main: string,
    flags: seq<string>,
    ldflags: seq<string>,
    tags: seq<string>,
    before: seq<string>,
    files: seq<string>,
    binaries: seq<string>,
    container: Option<Container>)

  const DefaultGoMain := "./cmd/{binary}"
  const DefaultGoPackage := GoPackage(DefaultGoMain, [], [], [], [], [], [], None)

  /** One iteration of `GoProject.populate`. */
  function FillGo(k: string, v: GoPackage, d: GoConfig): GoPackage {
    GoPackage(
      if v.main != "" then v.main else d.main,
      OrList(v.flags, d.flags),
      OrList(v.ldflags, d.ldflags),
      OrList(v.tags, d.tags),
      OrList(v.before, d.before),
      OrList(OrList(v.files, d.files), ["LICENSE"]),
      if v.binaries == [] then [k] else v.binaries,
      WithArchive(v.container, GoArchiveUrl))
  }

  function GoPopulated(packages: map<string, GoPackage>, d: GoConfig, project: string): map<string, GoPackage> {
    var base := Seeded(packages, project, DefaultGoPackage);
    map k | k in base :: FillGo(k, base[k], d)
  }

  /** What `GoProject.populate` leaves: each package's own settings, else
      the project defaults, files falling back to `LICENSE` last, binaries
      named after the package when it had none, and the built archive first
      among its container's assets. */
  lemma GoPopulateProperties(packages: map<string, GoPackage>, d: GoConfig, project: string, k: string)
    ensures var r := GoPopulated(packages, d, project);
      (k in r <==> (if packages == map[] then k == project else k in packages))
    ensures var r := GoPopulated(packages, d, project);
      k in r ==>
        var v := Seeded(packages, project, DefaultGoPackage)[k];
        && r[k].binaries == (if v.binaries == [] then [k] else v.binaries)
        && r[k].main == (if v.main != "" then v.main else d.main)
        && r[k].flags == (if v.flags != [] then v.flags else d.flags)
        && r[k].ldflags == (if v.ldflags != [] then v.ldflags else d.ldflags)
        && r[k].tags == (if v.tags != [] then v.tags else d.tags)
        && r[k].before == (if v.before != [] then v.before else d.before)
        && r[k].files == (if v.files != [] then v.files else if d.files != [] then d.files else ["LICENSE"])
        && r[k].container.Some? == v.container.Some?
        && (v.container.Some? ==>
              r[k].container.value.assets == [FileAsset(UrlSource(GoArchiveUrl, None), None)] + v.container.value.assets)
    ensures packages == map[] ==> GoPopulated(packages, d, project)[project].main == DefaultGoMain
  {
  }

  class GoProject {
    var packages: map<string, GoPackage>
    var defaults: GoConfig

    constructor(packages: map<string, GoPackage>, defaults: GoConfig)
      ensures this.packages == packages && this.defaults == defaults
    {
      this.packages := packages;
      this.defaults := defaults;
    }

    /** `GoProject.populate(project)`. */
    method Populate(project: string)
      modifies this`packages
      ensures packages == GoPopulated(old(packages), defaults, project)
    {
      if packages == map[] {
        packages := map[project := DefaultGoPackage];
      }
      ghost var base := packages;
      var d := defaults;
      packages := FillEach(packages, (k, v) => FillGo(k, v, d));
      assert base == Seeded(old(packages), project, DefaultGoPackage);
    }
  }

  datatype MaturinPackage = MaturinPackage(manifest: Option<string>, profile: Option<string>, features: seq<string>)

  const DefaultMaturinPackage := MaturinPackage(None, None, [])

  /** One iteration of `MaturinProject.populate` (the defaults have the same
      three fields). */
  function FillMaturin(v: MaturinPackage, d: MaturinPackage): MaturinPackage {
    MaturinPackage(
      OrText(OrText(v.manifest, d.manifest), Some("Cargo.toml")),
      OrText(OrText(v.profile, d.profile), Some("release")),
      OrList(v.features, d.features))
  }

  function MaturinPopulated(packages: map<string, MaturinPackage>, d: MaturinPackage, project: string): map<string, MaturinPackage> {
    var base := Seeded(packages, project, DefaultMaturinPackage);
    map k | k in base :: FillMaturin(base[k], d)
  }

  /** `MaturinProject.populate` fills manifest, profile and features as the
      Cargo project does, and filling twice changes nothing more. */
  lemma MaturinPopulateProperties(packages: map<string, MaturinPackage>, d: MaturinPackage, project: string, k: string)
    ensures var r := MaturinPopulated(packages, d, project);
      (k in r <==> (if packages == map[] then k == project else k in packages))
    ensures var r := MaturinPopulated(packages, d, project);
      k in r ==>
        var v := Seeded(packages, project, DefaultMaturinPackage)[k];
        && r[k].manifest == (if v.manifest.Some? && v.manifest.value != "" then v.manifest
                             else if d.manifest.Some? && d.manifest.value != "" then d.manifest
                             else Some("Cargo.toml"))
        && r[k].profile == (if v.profile.Some? && v.profile.value != "" then v.profile
                            else if d.profile.Some? && d.profile.value != "" then d.profile
                            else Some("release"))
        && r[k].features == (if v.features != [] then v.features else d.features)
        && FillMaturin(r[k], d) == r[k]
  {
  }

  class MaturinProject {
    var packages: map<string, MaturinPackage>
    var defaults: MaturinPackage

    constructor(packages: map<string, MaturinPackage>, defaults: MaturinPackage)
      ensures this.packages == packages && this.defaults == defaults
    {
      this.packages := packages;
      this.defaults := defaults;
    }

    /** `MaturinProject.populate(project)`. */
    method Populate(project: string)
      modifies this`packages
      ensures packages == MaturinPopulated(old(packages), defaults, project)
    {
      if packages == map[] {
        packages := map[project := DefaultMaturinPackage];
      }
      ghost var base := packages;
      var d := defaults;
      packages := FillEach(packages, (k, v) => FillMaturin(v, d));
      assert base == Seeded(old(packages), project, DefaultMaturinPackage);
    }
  }

  /** `UvProject.populate(project)`: the project's package names, one named
      after the project when none are configured (a `UvPackage` has no
      fields). */
  class UvProject {
    var packages: set<string>

    constructor(packages: set<string>)
      ensures this.packages == packages
    {
      this.packages := packages;
    }

    method Populate(project: string)
      modifies this`packages
      ensures old(packages) == {} ==> packages == {project}
      ensures old(packages) != {} ==> packages == old(packages)
    {
      if packages == {} {
        packages := {project};
      }
    }
  }
}
