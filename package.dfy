/** The package build script: the `.goreleaser.yaml` document of a Go
    package, the build commands of Cargo, maturin and uv packages for each
    architecture, and the archive of a Cargo package's binaries. The
    commands themselves are run elsewhere; here they are values. */
module Package {
  import opened Common
  import opened Config
  import PyFormat
  import opened Goreleaser

  /** The fields of a tar member header that `_root_owner` touches, and two
      that it leaves alone. */
  class TarInfo {
    var name: string
    var mode: int
    var uid: int
    var gid: int
    var uname: string
    var gname: string

    constructor(name: string, mode: int, uid: int, gid: int, uname: string, gname: string)
      ensures this.name == name && this.mode == mode && this.uid == uid && this.gid == gid
      ensures this.uname == uname && this.gname == gname
    {
      this.name := name;
      this.mode := mode;
      this.uid := uid;
      this.gid := gid;
      this.uname := uname;
      this.gname := gname;
    }
  }

  /** `_root_owner`: the member is owned by uid and gid 0 with no owner
      names, and is handed back as the same object. */
  method RootOwner(ti: TarInfo) returns (r: TarInfo)
    modifies ti`uid, ti`gid, ti`uname, ti`gname
    ensures r == ti
    ensures ti.uid == 0 && ti.gid == 0 && ti.uname == "" && ti.gname == ""
  {
    ti.uid := 0;
    ti.gid := 0;
    ti.uname := "";
    ti.gname := "";
    r := ti;
  }

  // The `.goreleaser.yaml` of a Go package

  /** The environment of a cgo build. */
  const CgoEnv: seq<string> := [
    "CGO_ENABLED=1",
    "CGO_CFLAGS=--target={{ if eq .Arch \"amd64\" }}x86_64{{ else }}aarch64{{ end }}-unknown-freebsd --sysroot=/freebsd/{{ .Arch }}",
    "CGO_LDFLAGS=--target={{ if eq .Arch \"amd64\" }}x86_64{{ else }}aarch64{{ end }}-unknown-freebsd --sysroot=/freebsd/{{ .Arch }} -fuse-ld=lld",
    "PKG_CONFIG_LIBDIR=/freebsd/{{ .Arch }}/usr/libdata/pkgconfig:/freebsd/{{ .Arch }}/usr/local/libdata/pkgconfig",
    "PKG_CONFIG_PATH=",
    "PKG_CONFIG_SYSROOT_DIR=/freebsd/{{ .Arch }}"]

  /** The settings every build shares. */
  datatype BuildTemplate = BuildTemplate(flags: seq<string>, ldflags: seq<string>, tags: seq<string>, targets: seq<string>, env: seq<string>)

  /** One entry of `builds`: the template's settings together with the
      binary's `id`, `binary` and `main`. */
  datatype GoBuild = GoBuild(template: BuildTemplate, id: string, binary: string, main: string)

  /** The build settings of `_build_go`: the package's flags followed by
      `-trimpath`, its linker flags followed by the four fixed ones, its
      tags, one `freebsd_` target per architecture in order, and the cgo
      environment (six entries, `CGO_ENABLED=1` first) or `CGO_ENABLED=0`
      alone. */
  predicate TemplateOf(t: BuildTemplate, package: GoPackage, archs: seq<Architecture>, cgo: bool) {
    && |t.flags| == |package.flags| + 1 && t.flags[..|package.flags|] == package.flags
    && t.flags[|package.flags|] == "-trimpath"
    && |t.ldflags| == |package.ldflags| + 4 && t.ldflags[..|package.ldflags|] == package.ldflags
    && t.ldflags[|package.ldflags|..] == FixedLdflags
    && t.tags == package.tags
    && |t.targets| == |archs| && (forall i :: 0 <= i < |archs| ==> t.targets[i] == "freebsd_" + ArchValue(archs[i]))
    && (cgo ==> t.env == CgoEnv)
    && (!cgo ==> t.env == ["CGO_ENABLED=0"])
  }

  /** The template of `_build_go`. */
  method MakeTemplate(package: GoPackage, archs: seq<Architecture>, cgo: bool) returns (t: BuildTemplate)
    ensures TemplateOf(t, package, archs, cgo)
  {
    var values := seq(|archs|, i requires 0 <= i < |archs| => ArchValue(archs[i]));
    t := BuildTemplate(package.flags + ["-trimpath"], package.ldflags + FixedLdflags, package.tags, Targets(values), []);
    if cgo {
      t := t.(env := t.env + CgoEnv);
    } else {
      t := t.(env := t.env + ["CGO_ENABLED=0"]);
    }
  }

  /** The keyword arguments `main` is formatted with. */
  function BinaryArg(binary: string): map<string, string> {
    map["binary" := binary]
  }

  /** `main` formatted for a binary. */
  function MainFor(main: string): string -> Result<string, PyFormat.FormatError> {
    b => PyFormat.Format(main, BinaryArg(b))
  }

  /** Whether `main` formats for every binary. */
  predicate AllFormat(main: string, binaries: seq<string>) {
    forall i :: 0 <= i < |binaries| ==> PyFormat.Format(main, BinaryArg(binaries[i])).Ok?
  }

  /** The build loop of `_build_go`: one build per binary, in order, named
      after it, with `main` formatted for it; a binary `main` does not format
      for ends the loop with that error. */
  method GoBuilds(t: BuildTemplate, main: string -> Result<string, PyFormat.FormatError>, binaries: seq<string>)
    returns (builds: seq<GoBuild>, err: Option<PyFormat.FormatError>)
    ensures err == PyFormat.FirstFailure(main, binaries, 0)
    ensures err.None? ==> |builds| == |binaries|
    ensures err.None? ==> forall i :: 0 <= i < |binaries| ==>
      && builds[i].template == t && builds[i].id == binaries[i] && builds[i].binary == binaries[i]
      && main(binaries[i]) == Ok(builds[i].main)
  {
    builds, err := [], None;
    var i := 0;
    while i < |binaries|
      invariant 0 <= i <= |binaries|
      invariant PyFormat.FirstFailure(main, binaries, 0) == PyFormat.FirstFailure(main, binaries, i)
      invariant |builds| == i
      invariant forall m :: 0 <= m < i ==>
        && builds[m].template == t && builds[m].id == binaries[m] && builds[m].binary == binaries[m]
        && main(binaries[m]) == Ok(builds[m].main)
    {
      var binary := binaries[i];
      match main(binary) {
        case Err(e) =>
          err := Some(e);
          return;
        case Ok(m) =>
          builds := builds + [GoBuild(t, binary, binary, m)];
      }
      i := i + 1;
    }
  }

  /** `_build_go` up to writing the document: the header, the template and
      one build per binary. A `main` that does not format for some binary is
      the error of the first such binary. */
  method BuildGo(name: string, package: GoPackage, archs: seq<Architecture>, cgo: bool)
    returns (r: Result<Document<GoBuild>, PyFormat.FormatError>)
    ensures r.Err? <==> !AllFormat(package.main, package.binaries)
    ensures r.Err? ==> Some(r.error) == PyFormat.FirstFailure(MainFor(package.main), package.binaries, 0)
    ensures r.Ok? ==> r.value.projectName == name && r.value.archives == [Archive(["tar.gz"], NameTemplate, package.files)]
    ensures r.Ok? ==> (r.value.before.Some? <==> package.before != [])
    ensures r.Ok? ==> r.value.before.Some? ==> r.value.before.value == package.before
    ensures r.Ok? ==> |r.value.builds| == |package.binaries|
    ensures r.Ok? ==> forall i :: 0 <= i < |package.binaries| ==>
      var b := r.value.builds[i];
      && b.id == package.binaries[i] && b.binary == package.binaries[i]
      && PyFormat.Format(package.main, BinaryArg(package.binaries[i])) == Ok(b.main)
    ensures r.Ok? ==> forall i :: 0 <= i < |r.value.builds| ==> TemplateOf(r.value.builds[i].template, package, archs, cgo)
    ensures r.Ok? ==> forall i, j :: 0 <= i < j < |r.value.builds| ==> r.value.builds[i].template == r.value.builds[j].template
  {
    var doc: Document<GoBuild> := Header(name, package.files, package.before);
    var t := MakeTemplate(package, archs, cgo);
    var builds, err := GoBuilds(t, MainFor(package.main), package.binaries);
    if err.Some? {
      return Err(err.value);
    }
    r := Ok(doc.(builds := builds));
  }

  // The build commands of Cargo, maturin and uv packages

  /** A package that is not a Go package. */
  datatype RustPackage = CargoBuild(cargo: CargoPackage) | MaturinBuild(maturin: MaturinPackage) | UvBuild

  /** Python's `f"{x}"` of an optional string. */
  function PyText(o: Option<string>): string {
    match o
    case None => "None"
    case Some(s) => s
  }

  function Profile(p: RustPackage): Option<string> {
    match p
    case CargoBuild(c) => c.profile
    case MaturinBuild(m) => m.profile
    case UvBuild => None
  }

  function Manifest(p: RustPackage): Option<string> {
    match p
    case CargoBuild(c) => c.manifest
    case MaturinBuild(m) => m.manifest
    case UvBuild => None
  }

  function Features(p: RustPackage): seq<string> {
    match p
    case CargoBuild(c) => c.features
    case MaturinBuild(m) => m.features
    case UvBuild => []
  }

  /** The target triple of an architecture. */
  function Triple(arch: Architecture): string {
    (if arch == Amd64 then "x86_64" else "aarch64") + "-unknown-freebsd"
  }

  /** The command each kind of package starts from. */
  function BaseCommand(p: RustPackage): seq<string> {
    match p
    case CargoBuild(_) => ["cargo", "build"]
    case MaturinBuild(_) => ["uvx", "--no-config", "maturin", "build", "--locked", "--out=dist"]
    case UvBuild => [
      "uv", "build", "--wheel", "--locked", "--out-dir=dist",
      "--find-links=" + MaturinWheels, "--find-links=" + UvWheels]
  }

  const MaturinWheels := "https://github.com/cynix/freebsd-binaries/releases/download/maturin-v1.9.6/wheels.html"
  const UvWheels := "https://github.com/cynix/freebsd-binaries/releases/download/uv-v0.9.5/wheels.html"

  /** No base command passes `-Z` or `--no-default-features`. */
  lemma BaseCommandFlags(p: RustPackage)
    ensures "-Z" !in BaseCommand(p) && "--no-default-features" !in BaseCommand(p)
  {
    var base := BaseCommand(p);
    forall i | 0 <= i < |base|
      ensures base[i] != "-Z" && base[i] != "--no-default-features"
    {
      assert |base[i]| != 2 || base[i][1] != 'Z';
      assert |base[i]| < 8 || base[i][7] != 'f';
    }
  }

  /** The features that are switched on: those not starting with `-`. */
  function Enabled(features: seq<string>): seq<string> {
    if features == [] then []
    else
      var x := features[|features| - 1];
      Enabled(features[..|features| - 1]) + (if StartsWith(x, "-") then [] else [x])
  }

  lemma {:induction false} EnabledSpec(features: seq<string>)
    ensures forall x :: x in Enabled(features) <==> x in features && !StartsWith(x, "-")
  {
    if features != [] {
      var front := features[..|features| - 1];
      EnabledSpec(front);
      assert features == front + [features[|features| - 1]];
    }
  }

  /** An argument of the form `--…`. */
  predicate Long(x: string) {
    |x| >= 3 && x[0] == '-' && x[1] == '-'
  }

  /** The feature arguments: nothing without features; otherwise
      `--no-default-features` exactly when `-default` is among them, followed
      by the comma-joined enabled features. */
  function FeatureArgs(features: seq<string>): (args: seq<string>)
    ensures features == [] ==> args == []
    ensures features != [] ==> ("--no-default-features" in args <==> "-default" in features)
    ensures features != [] ==> |args| >= 1 && args[|args| - 1] == "--features=" + Join(Enabled(features), ",")
    ensures forall x :: x in args ==> Long(x)
  {
    if |features| == 0 then []
    else
      var last := "--features=" + Join(Enabled(features), ",");
      assert last[2] == 'f';
      (if "-default" in features then ["--no-default-features"] else []) + [last]
  }

  const BuildStd: seq<string> := ["-Z", "build-std=core,std,alloc,proc_macro,panic_abort"]

  /** The target, profile, manifest and strip arguments of a cross-built
      (Cargo or maturin) package. */
  function CrossHead(p: RustPackage, arch: Architecture): (args: seq<string>)
    ensures forall x :: x in args ==> Long(x) && x[2] != 'n'
  {
    var target := "--target=" + Triple(arch);
    var profile := "--profile=" + PyText(Profile(p));
    var manifest := "--manifest-path=" + PyText(Manifest(p));
    var strip := if p.MaturinBuild? then "--strip" else "--config=profile." + PyText(Profile(p)) + ".strip=\"symbols\"";
    assert target[2] == 't' && profile[2] == 'p' && manifest[2] == 'm';
    assert |strip| >= 3 && strip[0] == '-' && strip[1] == '-' && strip[2] != 'n';
    [target, profile, manifest, strip]
  }

  /** The arguments a cross-built package adds to its base command. */
  function CrossArgs(p: RustPackage, arch: Architecture): seq<string> {
    CrossHead(p, arch) + FeatureArgs(Features(p)) + (if arch == Arm64 then BuildStd else [])
  }

  /** The arguments a wheel adds to its base command. */
  function UvArgs(name: string): (args: seq<string>)
    ensures forall x :: x in args ==> Long(x) && x[2] != 'n'
  {
    var package := "--package=" + name;
    assert package[2] == 'p';
    ["--python=3.12", package]
  }

  /** The command of one architecture. */
  function CommandLine(p: RustPackage, name: string, arch: Architecture): seq<string> {
    BaseCommand(p) + if p.UvBuild? then UvArgs(name) else CrossArgs(p, arch)
  }

  /** A step of the build: a command run with an environment, either
      through the cross-compiling container for an architecture (`cross`) or
      directly (`None`), or an archive written with the given members. */
  datatype Step =
    | Run(cmd: seq<string>, env: Option<map<string, string>>, cross: Option<Architecture>)
    | Pack(tgz: string, members: seq<string>)

  function RunFor(p: RustPackage, name: string, arch: Architecture): Step {
    Run(CommandLine(p, name, arch),
        if p.MaturinBuild? then Some(map["MATURIN_FREEBSD_VERSION" := "14.3"]) else None,
        if p.UvBuild? then None else Some(arch))
  }

  function ArchiveName(name: string, version: string, arch: Architecture): string {
    "src/dist/" + name + "-v" + version + "-" + Triple(arch) + ".tar.gz"
  }

  /** Where the build leaves a binary. */
  function BinaryPaths(c: CargoPackage, arch: Architecture): (paths: seq<string>)
    ensures |paths| == |c.binaries|
  {
    seq(|c.binaries|, i requires 0 <= i < |c.binaries| => "src/target/" + Triple(arch) + "/" + PyText(c.profile) + "/" + c.binaries[i])
  }

  /** The first path that is not an executable file. */
  function FirstBad(paths: seq<string>, executable: string -> bool, from: nat): (r: Option<nat>)
    requires from <= |paths|
    ensures r.Some? ==> from <= r.value < |paths| && !executable(paths[r.value])
    ensures r.Some? ==> forall j :: from <= j < r.value ==> executable(paths[j])
    ensures r.None? <==> forall j :: from <= j < |paths| ==> executable(paths[j])
    decreases |paths| - from
  {
    if from == |paths| then None
    else if !executable(paths[from]) then Some(from)
    else FirstBad(paths, executable, from + 1)
  }

  /** Steps, and the error that ended them, if any. */
  datatype Outcome = Outcome(steps: seq<Step>, err: Option<string>)

  /** The steps of one architecture, and the error that ends the build:
      the command, then for a Cargo package the archive, holding the
      binaries added before the first that is not an executable. */
  function ArchSteps(p: RustPackage, name: string, version: string, arch: Architecture, executable: string -> bool)
    : Outcome
  {
    var run := RunFor(p, name, arch);
    match p
    case CargoBuild(c) =>
      var paths := BinaryPaths(c, arch);
      (match FirstBad(paths, executable, 0)
       case None => Outcome([run, Pack(ArchiveName(name, version, arch), paths)], None)
       case Some(k) => Outcome([run, Pack(ArchiveName(name, version, arch), paths[..k])], Some(paths[k] + " is not an executable")))
    case _ => Outcome([run], None)
  }

  /** What one architecture contributes. */
  function ArchFn(p: RustPackage, name: string, version: string, executable: string -> bool)
    : Architecture -> Outcome
  {
    a => ArchSteps(p, name, version, a, executable)
  }

  /** The steps of a loop over the architectures that stops at the first
      error. */
  function Loop(f: Architecture -> Outcome, archs: seq<Architecture>): Outcome {
    if archs == [] then Outcome([], None)
    else if f(archs[0]).err.Some? then f(archs[0])
    else Behind(f(archs[0]).steps, Loop(f, archs[1..]))
  }

  /** Steps already taken, in front of a run. */
  function Behind(steps: seq<Step>, r: Outcome): Outcome {
    Outcome(steps + r.steps, r.err)
  }

  /** The steps of `_build_package`'s architecture loop. */
  function Planned(p: RustPackage, name: string, version: string, archs: seq<Architecture>, executable: string -> bool)
    : Outcome
  {
    Loop(ArchFn(p, name, version, executable), archs)
  }

  /** The archive loop of one architecture. */
  method PackBinaries(paths: seq<string>, executable: string -> bool) returns (members: seq<string>, bad: Option<nat>)
    ensures bad == FirstBad(paths, executable, 0)
    ensures members == match bad case None => paths case Some(k) => paths[..k]
  {
    members := [];
    var i := 0;
    while i < |paths|
      invariant 0 <= i <= |paths|
      invariant FirstBad(paths, executable, 0) == FirstBad(paths, executable, i)
      invariant members == paths[..i]
    {
      if !executable(paths[i]) {
        return members, Some(i);
      }
      members := members + [paths[i]];
      i := i + 1;
    }
    bad := None;
  }

  /** One pass of the architecture loop. */
  method ArchRun(p: RustPackage, name: string, version: string, arch: Architecture, executable: string -> bool)
    returns (steps: seq<Step>, err: Option<string>)
    ensures Outcome(steps, err) == ArchSteps(p, name, version, arch, executable)
  {
    var run := RunFor(p, name, arch);
    steps, err := [run], None;
    if p.CargoBuild? {
      var paths := BinaryPaths(p.cargo, arch);
      var tgz := ArchiveName(name, version, arch);
      var members, bad := PackBinaries(paths, executable);
      steps := [run, Pack(tgz, members)];
      match bad {
        case None =>
          assert ArchSteps(p, name, version, arch, executable) == Outcome([run, Pack(tgz, paths)], None);
        case Some(k) =>
          err := Some(paths[k] + " is not an executable");
          assert ArchSteps(p, name, version, arch, executable) == Outcome([run, Pack(tgz, paths[..k])], err);
      }
    }
  }

  /** The architecture loop of `_build_package` for a package that is not
      a Go package. */
  method BuildRust(p: RustPackage, name: string, version: string, archs: seq<Architecture>, executable: string -> bool)
    returns (steps: seq<Step>, err: Option<string>)
    ensures Outcome(steps, err) == Planned(p, name, version, archs, executable)
  {
    var f := ArchFn(p, name, version, executable);
    steps, err := [], None;
    var i := 0;
    assert archs[0..] == archs;
    while i < |archs|
      invariant 0 <= i <= |archs|
      invariant Loop(f, archs) == Behind(steps, Loop(f, archs[i..]))
    {
      assert archs[i..][1..] == archs[i + 1..];
      var s, e := ArchRun(p, name, version, archs[i], executable);
      if e.Some? {
        return steps + s, e;
      }
      BehindBehind(steps, s, Loop(f, archs[i + 1..]));
      steps := steps + s;
      i := i + 1;
    }
    assert archs[i..] == [];
    assert steps + [] == steps;
  }

  lemma BehindBehind(front: seq<Step>, back: seq<Step>, r: Outcome)
    ensures Behind(front, Behind(back, r)) == Behind(front + back, r)
  {
    assert front + (back + r.steps) == front + back + r.steps;
  }

  /** The loop fails exactly when one of the architectures does. */
  lemma {:induction false} LoopFails(f: Architecture -> Outcome, archs: seq<Architecture>)
    ensures Loop(f, archs).err.Some? <==> exists i :: 0 <= i < |archs| && f(archs[i]).err.Some?
  {
    if archs != [] {
      LoopFails(f, archs[1..]);
      if f(archs[0]).err.None? {
        forall i | 1 <= i < |archs|
          ensures archs[i] == archs[1..][i - 1]
        {
        }
      }
    }
  }

  /** Without a failure, and with one step per architecture, the loop's
      steps are those of the architectures, in order. */
  lemma {:induction false} LoopSingles(f: Architecture -> Outcome, archs: seq<Architecture>)
    requires Loop(f, archs).err.None?
    requires forall i :: 0 <= i < |archs| ==> |f(archs[i]).steps| == 1
    ensures |Loop(f, archs).steps| == |archs|
    ensures forall i :: 0 <= i < |archs| ==> Loop(f, archs).steps[i] == f(archs[i]).steps[0]
  {
    if archs != [] {
      assert forall i :: 1 <= i < |archs| ==> archs[1..][i - 1] == archs[i];
      LoopSingles(f, archs[1..]);
    }
  }

  /** Without a failure, and with two steps per architecture, the loop's
      steps are those of the architectures, in order. */
  lemma {:induction false} LoopPairs(f: Architecture -> Outcome, archs: seq<Architecture>)
    requires Loop(f, archs).err.None?
    requires forall i :: 0 <= i < |archs| ==> |f(archs[i]).steps| == 2
    ensures |Loop(f, archs).steps| == 2 * |archs|
    ensures forall i :: 0 <= i < |archs| ==>
      Loop(f, archs).steps[2 * i] == f(archs[i]).steps[0] && Loop(f, archs).steps[2 * i + 1] == f(archs[i]).steps[1]
  {
    if archs != [] {
      assert forall i :: 1 <= i < |archs| ==> archs[1..][i - 1] == archs[i];
      LoopPairs(f, archs[1..]);
      var rest := Loop(f, archs[1..]).steps;
      forall i | 1 <= i < |archs|
        ensures Loop(f, archs).steps[2 * i] == f(archs[i]).steps[0] && Loop(f, archs).steps[2 * i + 1] == f(archs[i]).steps[1]
      {
        assert Loop(f, archs).steps[2 * i] == rest[2 * (i - 1)];
        assert Loop(f, archs).steps[2 * i + 1] == rest[2 * (i - 1) + 1];
      }
    }
  }

  /** One architecture fails exactly for a Cargo package with a binary that
      is not an executable; otherwise it gives its command, followed for a
      Cargo package by the archive of all its binaries. */
  lemma ArchStepsSpec(p: RustPackage, name: string, version: string, arch: Architecture, executable: string -> bool)
    ensures var Outcome(s, e) := ArchSteps(p, name, version, arch, executable);
      && (e.Some? <==> p.CargoBuild? && FirstBad(BinaryPaths(p.cargo, arch), executable, 0).Some?)
      && (e.None? ==> s == if p.CargoBuild? then [RunFor(p, name, arch), Pack(ArchiveName(name, version, arch), BinaryPaths(p.cargo, arch))]
                           else [RunFor(p, name, arch)])
  {
  }

  /** The build fails exactly for a Cargo package with a binary that is
      not an executable for one of the architectures. */
  lemma PlannedFails(p: RustPackage, name: string, version: string, archs: seq<Architecture>, executable: string -> bool)
    ensures Planned(p, name, version, archs, executable).err.Some?
        <==> p.CargoBuild? && exists i :: 0 <= i < |archs| && FirstBad(BinaryPaths(p.cargo, archs[i]), executable, 0).Some?
  {
    var f := ArchFn(p, name, version, executable);
    LoopFails(f, archs);
    forall i | 0 <= i < |archs|
      ensures f(archs[i]).err.Some? <==> p.CargoBuild? && FirstBad(BinaryPaths(p.cargo, archs[i]), executable, 0).Some?
    {
      ArchStepsSpec(p, name, version, archs[i], executable);
    }
  }

  /** Without a failure, every architecture gets its command, in order, and
      a Cargo package's command is followed by its archive of all its
      binaries. */
  lemma PlannedSteps(p: RustPackage, name: string, version: string, archs: seq<Architecture>, executable: string -> bool)
    requires Planned(p, name, version, archs, executable).err.None?
    ensures var steps := Planned(p, name, version, archs, executable).steps;
      if p.CargoBuild? then
        && |steps| == 2 * |archs|
        && forall i :: 0 <= i < |archs| ==>
             steps[2 * i] == RunFor(p, name, archs[i])
             && steps[2 * i + 1] == Pack(ArchiveName(name, version, archs[i]), BinaryPaths(p.cargo, archs[i]))
      else
        && |steps| == |archs|
        && forall i :: 0 <= i < |archs| ==> steps[i] == RunFor(p, name, archs[i])
  {
    var f := ArchFn(p, name, version, executable);
    LoopFails(f, archs);
    forall i | 0 <= i < |archs|
      ensures f(archs[i]).err.None?
      ensures f(archs[i]).steps == if p.CargoBuild? then [RunFor(p, name, archs[i]), Pack(ArchiveName(name, version, archs[i]), BinaryPaths(p.cargo, archs[i]))]
                               else [RunFor(p, name, archs[i])]
    {
      ArchStepsSpec(p, name, version, archs[i], executable);
    }
    if p.CargoBuild? {
      LoopPairs(f, archs);
    } else {
      LoopSingles(f, archs);
    }
  }

  /** Only an arm64 build of a Cargo or maturin package builds the
      standard library (`-Z build-std=…`). */
  lemma BuildStdOnArm64(p: RustPackage, name: string, arch: Architecture)
    ensures "-Z" in CommandLine(p, name, arch) <==> !p.UvBuild? && arch == Arm64
  {
    var base := BaseCommand(p);
    BaseCommandFlags(p);
    assert !Long("-Z");
    if !p.UvBuild? {
      var head, fs := CrossHead(p, arch), FeatureArgs(Features(p));
      var arm := if arch == Arm64 then BuildStd else [];
      assert CommandLine(p, name, arch) == base + (head + fs + arm);
      assert "-Z" !in head && "-Z" !in fs;
      assert "-Z" in arm <==> arch == Arm64;
    }
  }

  /** `--no-default-features` is passed exactly when a Cargo or maturin
      package lists `-default` among its features. */
  lemma NoDefaultFeatures(p: RustPackage, name: string, arch: Architecture)
    ensures "--no-default-features" in CommandLine(p, name, arch) <==> !p.UvBuild? && "-default" in Features(p)
  {
    var flag := "--no-default-features";
    var base := BaseCommand(p);
    BaseCommandFlags(p);
    assert flag !in BuildStd;
    assert flag[2] == 'n';
    if !p.UvBuild? {
      var head, fs := CrossHead(p, arch), FeatureArgs(Features(p));
      var arm := if arch == Arm64 then BuildStd else [];
      assert CommandLine(p, name, arch) == base + (head + fs + arm);
      assert flag !in head && flag !in arm;
    }
  }

  /** Archives of different architectures have different names. */
  lemma ArchiveNamesDiffer(name: string, version: string, a: Architecture, b: Architecture)
    requires a != b
    ensures ArchiveName(name, version, a) != ArchiveName(name, version, b)
  {
    assert |Triple(Amd64)| == 22 && |Triple(Arm64)| == 23;
  }

  /** A Cargo or maturin command targets the architecture's triple, which
      is x86_64 for amd64 and aarch64 for arm64; a wheel's command is the
      same for every architecture and ends with the package it builds. */
  lemma CommandTarget(p: RustPackage, name: string, arch: Architecture)
    ensures !p.UvBuild? ==> CommandLine(p, name, arch)[|BaseCommand(p)|] == "--target=" + Triple(arch)
    ensures !p.UvBuild? ==> StartsWith(Triple(arch), if arch == Amd64 then "x86_64-" else "aarch64-")
    ensures p.UvBuild? ==> CommandLine(p, name, arch) == CommandLine(p, name, Amd64)
    ensures p.UvBuild? ==> CommandLine(p, name, arch)[|CommandLine(p, name, arch)| - 1] == "--package=" + name
  {
  }

  /** A package of `_build_package`. */
  datatype AnyPackage = GoKind(go: GoPackage) | OtherKind(other: RustPackage)

  /** What `_build_package` does: the document of a Go package together
      with whether goreleaser runs in the cross-compiling container, the
      steps of any other package, or a refusal. */
  datatype BuildPlan =
    | GoPlan(doc: Result<Document<GoBuild>, PyFormat.FormatError>, cross: bool)
    | OtherPlan(steps: seq<Step>, err: Option<string>)
    | Refused(reason: string)

  /** `_build_package` once the project and package are looked up. A wheel
      is built on FreeBSD only, and for amd64 only; every other package for
      the project's architectures, and a Go package in the container
      exactly when the project's builder is `cgo`. */
  method BuildPackage(package: AnyPackage, name: string, version: string, projectArch: seq<Architecture>,
                      cgo: bool, onFreeBSD: bool, executable: string -> bool) returns (plan: BuildPlan)
    ensures package.OtherKind? && package.other.UvBuild? && !onFreeBSD ==> plan == Refused("Wheels must be built on FreeBSD")
    ensures package.OtherKind? && package.other.UvBuild? && onFreeBSD ==>
      plan == OtherPlan(Planned(package.other, name, version, [Amd64], executable).steps,
                        Planned(package.other, name, version, [Amd64], executable).err)
    ensures package.OtherKind? && !package.other.UvBuild? ==>
      plan == OtherPlan(Planned(package.other, name, version, projectArch, executable).steps,
                        Planned(package.other, name, version, projectArch, executable).err)
    ensures package.GoKind? ==> plan.GoPlan? && plan.cross == cgo
    ensures package.GoKind? ==> (plan.doc.Ok? <==> AllFormat(package.go.main, package.go.binaries))
    ensures package.GoKind? && plan.doc.Ok? ==> |plan.doc.value.builds| == |package.go.binaries|
  {
    var archs := projectArch;
    if package.OtherKind? && package.other.UvBuild? {
      if !onFreeBSD {
        return Refused("Wheels must be built on FreeBSD");
      }
      archs := [Amd64];
    }
    match package {
      case GoKind(go) =>
        var doc := BuildGo(name, go, archs, cgo);
        plan := GoPlan(doc, cgo);
      case OtherKind(p) =>
        var steps, err := BuildRust(p, name, version, archs, executable);
        plan := OtherPlan(steps, err);
    }
  }
}
