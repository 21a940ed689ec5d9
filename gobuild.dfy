/** The Go build script: the `.goreleaser.yaml` document it writes from a
    project's `go` section, read as plain mappings. */
module GoBuild {
  import opened Common
  import PyFormat
  import opened Goreleaser

  /** A `build` mapping: the keys the script reads or writes, `None` when
      absent, and the other keys, which it copies as they are. */
  datatype BuildMap = BuildMap(
    flags: Option<seq<string>>,
    ldflags: Option<seq<string>>,
    targets: Option<seq<string>>,
    env: Option<seq<string>>,
    main: Option<string>,
    id: Option<string>,
    binary: Option<string>,
    rest: map<string, string>)

  const EmptyBuild := BuildMap(None, None, None, None, None, None, None, map[])

  /** A package entry of the `go` section. */
  datatype PackageEntry = PackageEntry(binaries: Option<seq<string>>)

  /** A project's `go` section; `cgo` is the truthiness of its `cgo` key. */
  datatype GoSection = GoSection(
    files: Option<seq<string>>,
    before: Option<seq<string>>,
    build: Option<BuildMap>,
    cgo: bool,
    packages: Option<map<string, PackageEntry>>)

  datatype GoError = MissingKey(key: string) | BadMain(err: PyFormat.FormatError)

  /** The environment a cgo build adds. */
  const CgoEnv: seq<string> := [
    "CGO_ENABLED=1",
    "CGO_CFLAGS=--target={{ if eq .Arch \"amd64\" }}x86_64{{ else }}aarch64{{ end }}-unknown-freebsd --sysroot=/freebsd/{{ .Arch }}",
    "CGO_LDFLAGS=--target={{ if eq .Arch \"amd64\" }}x86_64{{ else }}aarch64{{ end }}-unknown-freebsd --sysroot=/freebsd/{{ .Arch }} -fuse-ld=lld",
    "PKG_CONFIG_SYSROOT_DIR=/freebsd/{{ .Arch }}",
    "PKG_CONFIG_PATH=/freebsd/{{ .Arch }}/usr/local/libdata/pkgconfig"]

  const DefaultArch: seq<string> := ["amd64", "arm64"]
  const DefaultMain := "./cmd/{binary}"

  /** `d.get(key, default)` of a list. */
  function Get<T>(o: Option<T>, default: T): T {
    match o
    case None => default
    case Some(v) => v
  }

  /** The in-place updates of the template: `-trimpath` after its own flags,
      the four fixed linker flags after its own, one `freebsd_` target per
      architecture (amd64 and arm64 when the project names none), and its
      own environment, or an empty one, extended by the five cgo entries or
      by `CGO_ENABLED=0`. Every other key is left alone. */
  method PrepareTemplate(template: BuildMap, arch: Option<seq<string>>, cgo: bool) returns (t: BuildMap)
    ensures t.flags.Some? && t.flags.value == Get(template.flags, []) + ["-trimpath"]
    ensures t.ldflags.Some? && t.ldflags.value == Get(template.ldflags, []) + FixedLdflags
    ensures t.targets == Some(Targets(Get(arch, DefaultArch)))
    ensures t.env == Some(Get(template.env, []) + (if cgo then CgoEnv else ["CGO_ENABLED=0"]))
    ensures t.main == template.main && t.id == template.id && t.binary == template.binary && t.rest == template.rest
  {
    t := template;
    t := t.(flags := Some(Get(t.flags, []) + ["-trimpath"]));
    t := t.(ldflags := Some(Get(t.ldflags, []) + FixedLdflags));
    t := t.(targets := Some(Targets(Get(arch, DefaultArch))));
    if t.env.None? {
      t := t.(env := Some([]));
    }
    if cgo {
      t := t.(env := Some(t.env.value + CgoEnv));
    } else {
      t := t.(env := Some(t.env.value + ["CGO_ENABLED=0"]));
    }
  }

  /** The `main` of a build for a binary: the template's own, else
      `./cmd/{binary}`, formatted with the binary. */
  function MainFor(template: BuildMap): string -> Result<string, PyFormat.FormatError> {
    b => PyFormat.Format(Get(template.main, DefaultMain), map["binary" := b])
  }

  /** The build loop: for each binary, in order, a copy of the template
      with `id` and `binary` set to it and `main` formatted for it. A `main`
      that does not format ends the loop with its error. */
  method Builds(t: BuildMap, binaries: seq<string>) returns (builds: seq<BuildMap>, err: Option<PyFormat.FormatError>)
    ensures err == PyFormat.FirstFailure(MainFor(t), binaries, 0)
    ensures err.None? ==> |builds| == |binaries|
    ensures err.None? ==> forall i :: 0 <= i < |binaries| ==>
      && MainFor(t)(binaries[i]).Ok?
      && builds[i] == t.(id := Some(binaries[i]), binary := Some(binaries[i]), main := Some(MainFor(t)(binaries[i]).value))
  {
    var render := MainFor(t);
    builds, err := [], None;
    var i := 0;
    while i < |binaries|
      invariant 0 <= i <= |binaries|
      invariant PyFormat.FirstFailure(render, binaries, 0) == PyFormat.FirstFailure(render, binaries, i)
      invariant |builds| == i
      invariant forall m :: 0 <= m < i ==>
        && render(binaries[m]).Ok?
        && builds[m] == t.(id := Some(binaries[m]), binary := Some(binaries[m]), main := Some(render(binaries[m]).value))
    {
      var binary := binaries[i];
      var build := t.(id := Some(binary), binary := Some(binary));
      match render(binary) {
        case Err(e) =>
          err := Some(e);
          return;
        case Ok(m) =>
          build := build.(main := Some(m));
      }
      builds := builds + [build];
      i := i + 1;
    }
  }

  /** The binaries of a package: its own list when it has the key, even an
      empty one, else the package alone. */
  function BinariesOf(e: PackageEntry, package: string): (bs: seq<string>)
    ensures e.binaries.None? ==> bs == [package]
    ensures e.binaries.Some? ==> bs == e.binaries.value
  {
    Get(e.binaries, [package])
  }

  /** `build_go` up to writing the document, for the project's `arch` and
      `go` section and the package to build. The archive holds the section's
      files, `LICENSE` when it names none; `before` hooks are present exactly
      when there are some; a package missing from the section is a missing
      key; otherwise there is one build per binary, each the prepared
      template with the binary's `id`, `binary` and `main`. */
  method BuildGo(arch: Option<seq<string>>, go: GoSection, package: string) returns (r: Result<Document<BuildMap>, GoError>)
    ensures go.packages.None? ==> r == Err(MissingKey("packages"))
    ensures go.packages.Some? && package !in go.packages.value ==> r == Err(MissingKey(package))
    ensures r.Ok? ==> go.packages.Some? && package in go.packages.value
    ensures r.Ok? ==> r.value.projectName == package
    ensures r.Ok? ==> r.value.archives == [Archive(["tar.gz"], NameTemplate, Get(go.files, ["LICENSE"]))]
    ensures r.Ok? ==> (r.value.before.Some? <==> Get(go.before, []) != [])
    ensures r.Ok? ==> r.value.before.Some? ==> r.value.before.value == go.before.value
    ensures r.Ok? ==> |r.value.builds| == |BinariesOf(go.packages.value[package], package)|
    ensures r.Ok? ==> forall i :: 0 <= i < |r.value.builds| ==>
      var b, binary := r.value.builds[i], BinariesOf(go.packages.value[package], package)[i];
      && b.id == Some(binary) && b.binary == Some(binary)
      && b.main.Some?
      && PyFormat.Format(Get(Get(go.build, EmptyBuild).main, DefaultMain), map["binary" := binary]) == Ok(b.main.value)
      && b.flags == Some(Get(Get(go.build, EmptyBuild).flags, []) + ["-trimpath"])
      && b.ldflags == Some(Get(Get(go.build, EmptyBuild).ldflags, []) + FixedLdflags)
      && b.targets == Some(Targets(Get(arch, DefaultArch)))
      && b.env == Some(Get(Get(go.build, EmptyBuild).env, []) + (if go.cgo then CgoEnv else ["CGO_ENABLED=0"]))
      && b.rest == Get(go.build, EmptyBuild).rest
    ensures r.Ok? ==> forall i, j :: 0 <= i < j < |r.value.builds| ==> r.value.builds[i].env == r.value.builds[j].env
  {
    var doc: Document<BuildMap> := Header(package, Get(go.files, ["LICENSE"]), Get(go.before, []));
    var template := Get(go.build, EmptyBuild);
    var t := PrepareTemplate(template, arch, go.cgo);
    if go.packages.None? {
      return Err(MissingKey("packages"));
    }
    if package !in go.packages.value {
      return Err(MissingKey(package));
    }
    var binaries := BinariesOf(go.packages.value[package], package);
    var builds, err := Builds(t, binaries);
    if err.Some? {
      return Err(BadMain(err.value));
    }
    r := Ok(doc.(builds := builds));
  }
}
