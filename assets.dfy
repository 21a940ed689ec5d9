/** How the container assembler deploys assets into a container root
    (build/container/assets.go): destination paths, placeholder
    substitution, the package deployer's version checks, ABI and ldconfig
    hints, the routing of archive entries to destinations, and the choice
    of asset kind. Downloads, archive decoding, file writes and the
    commands run are inputs to the model. */
module Assets {
  import opened Common
  import opened GoPath

  /** What a deploy knows about the container being built. */
  datatype ContainerInfo = ContainerInfo(
    project: string, version: string, package: string,
    freebsd: string, arch: string, triple: string)

  /** What a deploy found out: a version, an entrypoint, image annotations. */
  datatype AssetInfo = AssetInfo(inferredVersion: string, inferredEntrypoint: string, annotations: seq<string>)

  /** The zero `assetInfo`. */
  const NoInfo := AssetInfo("", "", [])

  /** A command line: the program, its arguments and extra environment. */
  datatype Invocation = Invocation(name: string, args: seq<string>, env: seq<string>)

  datatype DeployError =
    | NotAbsolute(dst: string)         // the panic in calculateDst
    | SliceOutOfRange                  // the panic of an out-of-range slice
    | IndexOutOfRange(index: nat)      // the panic of an out-of-range index
    | InvalidFreeBSD(version: string)
    | WriteFailed(path: string)
    | CommandFailed(cmd: Invocation)
    | MkdirFailed(path: string)
    | ResolveFailed                    // the version or release could not be resolved
    | NoMatchingAsset(repo: string, glob: string)
    | UnknownAssetType
    | Panic(cause: DeployError)        // a panic raised while an archive's entries are extracted

  // ---------------------------------------------------------------------
  // Destinations and placeholders

  /** `calculateDst`: an absolute destination, completed by the source's
      last element when it ends with a slash; anything else panics. */
  function CalculateDst(src: string, dst: string): (r: Result<string, DeployError>)
    ensures r.Err? <==> !IsAbs(dst)
    ensures r.Err? ==> r.error == NotAbsolute(dst)
    ensures r.Ok? ==> IsAbs(r.value) && StartsWith(r.value, dst)
    ensures r.Ok? && !EndsWith(dst, "/") ==> r.value == dst
  {
    if !IsAbs(dst) then Err(NotAbsolute(dst))
    else if EndsWith(dst, "/") then Ok(dst + Base(src))
    else Ok(dst)
  }

  /** A directory destination receives the source's last element. */
  lemma CalculateDstIntoDirectory(elems: seq<string>, dst: string)
    requires Reduced(elems, false) && |elems| >= 1
    requires IsAbs(dst) && EndsWith(dst, "/")
    ensures CalculateDst(Join(elems, "/"), dst) == Ok(dst + elems[|elems| - 1])
  {
    BaseOfReduced(elems);
  }

  /** The substitutions of `containerInfo.Apply`, in argument order. */
  function Placeholders(ci: ContainerInfo): (pairs: seq<(string, string)>)
    ensures NonEmptyKeys(pairs) && BraceKeys(pairs)
  {
    [("{project}", ci.project), ("{version}", ci.version), ("{package}", ci.package),
     ("{arch}", ci.arch), ("{triple}", ci.triple)]
  }

  /** `containerInfo.Apply`. */
  function Apply(ci: ContainerInfo, s: string): string {
    Replace(Placeholders(ci), s)
  }

  /** Text without `{` passes through `Apply` unchanged. */
  lemma ApplyPlain(ci: ContainerInfo, a: string, b: string)
    requires '{' !in a
    ensures Apply(ci, a + b) == a + Apply(ci, b)
    ensures Apply(ci, a) == a
  {
    ReplaceNoBrace(Placeholders(ci), a, b);
    ReplaceNoBrace(Placeholders(ci), a, []);
    assert a + [] == a;
  }

  /** Each placeholder is replaced by its field, verbatim: the field's own
      text is not scanned again, and the pass resumes after the
      placeholder. */
  lemma ApplyField(ci: ContainerInfo, b: string)
    ensures Apply(ci, "{project}" + b) == ci.project + Apply(ci, b)
    ensures Apply(ci, "{version}" + b) == ci.version + Apply(ci, b)
    ensures Apply(ci, "{package}" + b) == ci.package + Apply(ci, b)
    ensures Apply(ci, "{arch}" + b) == ci.arch + Apply(ci, b)
    ensures Apply(ci, "{triple}" + b) == ci.triple + Apply(ci, b)
  {
    var ps := Placeholders(ci);
    assert Apply(ci, "{project}" + b) == ci.project + Apply(ci, b) by {
      ReplaceAtKey(ps, 0, b);
    }
    assert Apply(ci, "{version}" + b) == ci.version + Apply(ci, b) by {
      DiffersAt("{version}" + b, "{project}", 1);
      ReplaceAtKey(ps, 1, b);
    }
    assert Apply(ci, "{package}" + b) == ci.package + Apply(ci, b) by {
      DiffersAt("{package}" + b, "{project}", 2);
      DiffersAt("{package}" + b, "{version}", 1);
      ReplaceAtKey(ps, 2, b);
    }
    assert Apply(ci, "{arch}" + b) == ci.arch + Apply(ci, b) by {
      DiffersAt("{arch}" + b, "{project}", 1);
      DiffersAt("{arch}" + b, "{version}", 1);
      DiffersAt("{arch}" + b, "{package}", 1);
      ReplaceAtKey(ps, 3, b);
    }
    DiffersAt("{triple}" + b, "{project}", 1);
    DiffersAt("{triple}" + b, "{version}", 1);
    DiffersAt("{triple}" + b, "{package}", 1);
    DiffersAt("{triple}" + b, "{arch}", 1);
    ReplaceAtKey(ps, 4, b);
  }

  /** A `{` that does not begin one of the five placeholders is copied. */
  lemma ApplyOtherBrace(ci: ContainerInfo, b: string)
    requires forall i :: 0 <= i < |Placeholders(ci)| ==> !StartsWith("{" + b, Placeholders(ci)[i].0)
    ensures Apply(ci, "{" + b) == "{" + Apply(ci, b)
  {
    var s := "{" + b;
    assert FirstKey(Placeholders(ci), s, 0).None?;
    assert s[1..] == b;
  }

  // ---------------------------------------------------------------------
  // The package deployer

  /** The `major.minor` split of a FreeBSD version at its first dot, with a
      major of two bytes and a minor of one byte, or nothing: two ASCII
      characters, a dot and an ASCII character, or one two-byte character,
      a dot and an ASCII character. */
  function FreeBSDRelease(v: string): (r: Option<(string, string)>)
    ensures r.Some? <==>
      (|v| == 4 && v[2] == '.' && '.' !in v[..2] && Ascii(v[0]) && Ascii(v[1]) && Ascii(v[3]))
      || (|v| == 3 && v[1] == '.' && CharBytes(v[0]) == 2 && Ascii(v[2]))
    ensures r.Some? ==> v == r.value.0 + "." + r.value.1 && '.' !in r.value.0
    ensures r.Some? ==> Utf8Len(r.value.0) == 2 && Utf8Len(r.value.1) == 1
  {
    var (major, minor, ok) := Cut(v, '.');
    Utf8LenOne(minor);
    Utf8LenTwo(major);
    if !ok || Utf8Len(major) != 2 || Utf8Len(minor) != 1 then None
    else
      Some((major, minor))
  }

  /** The machine name `pkg` expects. */
  function Machine(arch: string): (m: string)
    ensures arch == "arm64" ==> m == "aarch64"
    ensures arch != "arm64" ==> m == arch
  {
    if arch == "arm64" then "aarch64" else arch
  }

  function VersionPairs(major: string, minor: string, machine: string): (pairs: seq<(string, string)>)
    ensures NonEmptyKeys(pairs) && BraceKeys(pairs)
  {
    [("{major}", major), ("{minor}", minor), ("{machine}", machine)]
  }

  /** The ABI string, `FreeBSD:{major}:{machine}` after substitution. */
  function Abi(major: string, minor: string, machine: string): (r: string)
    ensures r == "FreeBSD:" + major + ":" + machine
  {
    AbiText(major, minor, machine);
    Replace(VersionPairs(major, minor, machine), "FreeBSD:{major}:{machine}")
  }

  lemma AbiText(major: string, minor: string, machine: string)
    ensures Replace(VersionPairs(major, minor, machine), "FreeBSD:{major}:{machine}") == "FreeBSD:" + major + ":" + machine
  {
    var t3: string := "{machine}";
    var t2 := ":" + t3;
    var t1 := "{major}" + t2;
    assert "FreeBSD:{major}:{machine}" == "FreeBSD:" + t1;
    AbiParts(VersionPairs(major, minor, machine), t1, t2, t3);
  }

  lemma AbiParts(ps: seq<(string, string)>, t1: string, t2: string, t3: string)
    requires |ps| == 3 && NonEmptyKeys(ps) && BraceKeys(ps)
    requires ps[0].0 == "{major}" && ps[1].0 == "{minor}" && ps[2].0 == "{machine}"
    requires t3 == "{machine}" && t2 == ":" + t3 && t1 == "{major}" + t2
    ensures Replace(ps, "FreeBSD:" + t1) == "FreeBSD:" + ps[0].1 + ":" + ps[2].1
  {
    ReplaceNoBrace(ps, "FreeBSD:", t1);
    ReplaceAtKey(ps, 0, t2);
    ReplaceNoBrace(ps, ":", t3);
    MachineKey(ps);
  }

  lemma MachineKey(ps: seq<(string, string)>)
    requires |ps| == 3 && NonEmptyKeys(ps)
    requires ps[0].0 == "{major}" && ps[1].0 == "{minor}" && ps[2].0 == "{machine}"
    ensures Replace(ps, "{machine}") == ps[2].1
  {
    var t: string := "{machine}";
    DiffersAt(t + "", "{major}", 3);
    DiffersAt(t + "", "{minor}", 2);
    ReplaceAtKey(ps, 2, "");
    assert t + "" == t;
    assert ps[2].1 + "" == ps[2].1;
  }

  /** The OSVERSION number, `{major}0{minor}000` after substitution. */
  function OsVersion(major: string, minor: string, machine: string): (r: string)
    ensures r == major + "0" + minor + "000"
  {
    OsVersionText(major, minor, machine);
    Replace(VersionPairs(major, minor, machine), "{major}0{minor}000")
  }

  lemma OsVersionText(major: string, minor: string, machine: string)
    ensures Replace(VersionPairs(major, minor, machine), "{major}0{minor}000") == major + "0" + minor + "000"
  {
    var t3: string := "000";
    var t2 := "{minor}" + t3;
    var t1 := "0" + t2;
    assert "{major}0{minor}000" == "{major}" + t1;
    OsVersionParts(VersionPairs(major, minor, machine), t1, t2, t3);
  }

  lemma OsVersionParts(ps: seq<(string, string)>, t1: string, t2: string, t3: string)
    requires |ps| == 3 && NonEmptyKeys(ps) && BraceKeys(ps)
    requires ps[0].0 == "{major}" && ps[1].0 == "{minor}"
    requires t3 == "000" && t2 == "{minor}" + t3 && t1 == "0" + t2
    ensures Replace(ps, "{major}" + t1) == ps[0].1 + "0" + ps[1].1 + "000"
  {
    ReplaceAtKey(ps, 0, t1);
    ReplaceNoBrace(ps, "0", t2);
    DiffersAt(t2, "{major}", 2);
    ReplaceAtKey(ps, 1, t3);
    ReplaceNoBrace(ps, t3, "");
    assert t3 + "" == t3;
  }

  /** `pd.pkg(abi, osv, root, command, args...)`. */
  function Pkg(abi: string, osv: string, root: string, command: string, args: seq<string>): Invocation {
    Invocation("pkg", [command, "--rootdir", root] + args,
      ["ABI=" + abi, "ASSUME_ALWAYS_YES=yes", "OSVERSION=" + osv, "PKG_CACHEDIR=/tmp/pkg"])
  }

  function Ldconfig(root: string, paths: seq<string>): Invocation {
    Invocation("ldconfig", ["-f", Join2(root, "/var/run/ld-elf.so.hints")] + paths, [])
  }

  const ReposConf := "/usr/local/etc/pkg/repos/FreeBSD.conf"

  /** What the host does when the deployer works on it. */
  datatype PkgHost = PkgHost(
    writeRepos: bool,                  // whether writing the repository configuration succeeds
    run: Invocation -> Option<string>, // a command's output, or `None` when it fails
    hintFiles: seq<Option<string>>,    // the ldconfig hints files below the root; `None` if unreadable
    mkdir: string -> bool)             // whether creating a directory succeeds

  const DefaultHints: set<string> := {"/lib", "/usr/lib", "/usr/local/lib"}

  /** A trimmed hints line that names a directory. */
  predicate IsHint(t: string) { t != "" && !StartsWith(t, "#") }

  function LineHint(line: string): set<string> {
    var t := TrimSpace(line);
    if IsHint(t) then {t} else {}
  }

  /** The directories named by some lines of a hints file, line by line. */
  function LineHints(lines: seq<string>): set<string> {
    if lines == [] then {}
    else LineHints(lines[..|lines| - 1]) + LineHint(lines[|lines| - 1])
  }

  /** The hints of a file are exactly its trimmed lines that are neither
      empty nor comments. */
  lemma {:induction false} LineHintsSpec(lines: seq<string>)
    ensures forall x :: x in LineHints(lines) <==> IsHint(x) && x in Mapped(lines, TrimSpace)
  {
    if lines != [] {
      LineHintsSpec(lines[..|lines| - 1]);
      MappedSnoc(lines, TrimSpace);
    }
  }

  /** The hints of one file; none when it could not be read. */
  function FileHint(file: Option<string>): set<string> {
    match file
    case None => {}
    case Some(content) => LineHints(Lines(content))
  }

  /** The hints of each file, in order. */
  function HintSets(files: seq<Option<string>>): (hs: seq<set<string>>)
    ensures |hs| == |files| && forall i :: 0 <= i < |files| ==> hs[i] == FileHint(files[i])
  {
    seq(|files|, i requires 0 <= i < |files| => FileHint(files[i]))
  }

  /** The defaults together with the hints of every readable file. */
  function FileHints(files: seq<Option<string>>): set<string> {
    DefaultHints + Union(HintSets(files))
  }

  /** The set collected holds the defaults and every file's hints, and
      nothing else. */
  lemma FileHintsSpec(files: seq<Option<string>>)
    ensures DefaultHints <= FileHints(files)
    ensures forall i :: 0 <= i < |files| ==> FileHint(files[i]) <= FileHints(files)
    ensures forall x :: x in FileHints(files) && x !in DefaultHints ==> exists i :: 0 <= i < |files| && x in FileHint(files[i])
  {
    var hs := HintSets(files);
    forall x | x in FileHints(files) && x !in DefaultHints
      ensures exists i :: 0 <= i < |files| && x in FileHint(files[i])
    {
      var i :| 0 <= i < |hs| && x in hs[i];
      assert x in FileHint(files[i]);
    }
  }

  /** The hints loop: every line of every readable file, trimmed. */
  method CollectHints(files: seq<Option<string>>) returns (hints: set<string>)
    ensures hints == FileHints(files)
  {
    var hs := HintSets(files);
    var seen: set<string> := {};
    for i := 0 to |files|
      invariant seen == Union(hs[..i])
    {
      assert hs[..i + 1][..i] == hs[..i];
      if files[i].Some? {
        seen := AddLineHints(seen, Lines(files[i].value));
      }
    }
    assert hs[..|files|] == hs;
    hints := DefaultHints + seen;
  }

  /** The loop over the lines of one file: blank lines and comments are
      skipped, the others are added trimmed. */
  method AddLineHints(seen: set<string>, lines: seq<string>) returns (r: set<string>)
    ensures r == seen + LineHints(lines)
  {
    r := seen;
    for j := 0 to |lines|
      invariant r == seen + LineHints(lines[..j])
    {
      LineHintsStep(lines, j);
      var line := TrimSpace(lines[j]);
      if line == "" || StartsWith(line, "#") {
        continue;
      }
      r := r + {line};
    }
    assert lines[..|lines|] == lines;
  }

  lemma LineHintsStep(lines: seq<string>, j: nat)
    requires j < |lines|
    ensures LineHints(lines[..j + 1]) == LineHints(lines[..j]) + LineHint(lines[j])
  {
    assert lines[..j + 1][..j] == lines[..j];
  }

  /** The directory loop: every hinted directory is created, in whatever
      order the set is visited, and the list of them is sorted. */
  method MakeDirs(hints: set<string>, mkdir: string -> bool) returns (paths: seq<string>, failed: Option<string>)
    ensures failed.Some? ==> failed.value in hints && !mkdir(failed.value)
    ensures failed.None? ==> (forall p :: p in hints ==> mkdir(p)) && paths == SortedSet(hints)
  {
    paths := [];
    var rest := hints;
    while rest != {}
      invariant rest <= hints
      invariant forall p :: p in paths <==> p in hints - rest
      invariant forall i, j :: 0 <= i < j < |paths| ==> paths[i] != paths[j]
      invariant forall p :: p in paths ==> mkdir(p)
      decreases |rest|
    {
      var p :| p in rest;
      if !mkdir(p) {
        return paths, Some(p);
      }
      assert p !in paths;
      ghost var before := paths;
      paths := paths + [p];
      rest := rest - {p};
      assert forall x :: x in paths <==> x in before || x == p;
    }
    paths := Sort(paths);
    SortedUnique(paths, SortedSet(hints));
    failed := None;
  }

  /** `org.freebsd.pkg.{pkg}.version={line}` for the i-th output line. */
  function Annotations(pkgs: seq<string>, lines: seq<string>): seq<string>
    requires |lines| <= |pkgs|
  {
    seq(|lines|, i requires 0 <= i < |lines| => "org.freebsd.pkg." + pkgs[i] + ".version=" + lines[i])
  }

  /** The query callback over every output line: the first line becomes
      the version, each line annotates the package at its position, and a
      line beyond the package list is an index panic. */
  method Annotate(pkgs: seq<string>, lines: seq<string>, ai: AssetInfo) returns (r: AssetInfo, err: Option<DeployError>)
    requires forall i :: 0 <= i < |lines| ==> lines[i] != ""
    ensures |lines| > |pkgs| <==> err.Some?
    ensures err.Some? ==> err.value == IndexOutOfRange(|pkgs|)
    ensures err.None? ==> r == AssetInfo(
      if ai.inferredVersion == "" && lines != [] then lines[0] else ai.inferredVersion,
      ai.inferredEntrypoint, ai.annotations + Annotations(pkgs, lines))
  {
    r := ai;
    for i := 0 to |lines|
      invariant i <= |pkgs|
      invariant r.inferredEntrypoint == ai.inferredEntrypoint
      invariant r.inferredVersion == if ai.inferredVersion == "" && i > 0 then lines[0] else ai.inferredVersion
      invariant r.annotations == ai.annotations + Annotations(pkgs, lines[..i])
    {
      if r.inferredVersion == "" {
        r := r.(inferredVersion := lines[i]);
      }
      if i >= |pkgs| {
        return r, Some(IndexOutOfRange(i));
      }
      r := r.(annotations := r.annotations + ["org.freebsd.pkg." + pkgs[i] + ".version=" + lines[i]]);
      assert Annotations(pkgs, lines[..i + 1]) == Annotations(pkgs, lines[..i]) + ["org.freebsd.pkg." + pkgs[i] + ".version=" + lines[i]];
    }
    assert lines[..|lines|] == lines;
    err := None;
  }

  /** The outcome of a first deploy for an architecture. */
  ghost predicate Deployed(pkgs: seq<string>, root: string, info: ContainerInfo, host: PkgHost, ai: AssetInfo, err: Option<DeployError>) {
    match FreeBSDRelease(info.freebsd)
    case None => ai == NoInfo && err == Some(InvalidFreeBSD(info.freebsd))
    case Some(v) =>
      var machine := Machine(info.arch);
      var abi := Abi(v.0, v.1, machine);
      var osv := OsVersion(v.0, v.1, machine);
      var install := Pkg(abi, osv, root, "install", pkgs);
      if !host.writeRepos then ai == NoInfo && err == Some(WriteFailed(ReposConf))
      else if host.run(install).None? then ai == NoInfo && err == Some(CommandFailed(install))
      else if pkgs == [] then err == Some(IndexOutOfRange(0))
      else Installed(pkgs, root, Pkg(abi, osv, root, "query", ["%v"] + pkgs), host, ai, err)
  }

  /** The outcome once the packages are installed: the version query, the
      annotations and the ldconfig step. */
  ghost predicate Installed(pkgs: seq<string>, root: string, query: Invocation, host: PkgHost, ai: AssetInfo, err: Option<DeployError>)
    requires pkgs != []
  {
    var entry := "/usr/local/bin/" + pkgs[0];
    match host.run(query)
    case None => ai == AssetInfo("", entry, []) && err == Some(CommandFailed(query))
    case Some(out) =>
      var lines := OutputLines(out);
      if |lines| > |pkgs| then err == Some(IndexOutOfRange(|pkgs|))
      else
        && ai == AssetInfo(if lines == [] then "" else lines[0], entry, Annotations(pkgs, lines))
        && Linked(root, host, err)
  }

  /** The outcome of creating the hinted directories and running ldconfig
      over them. */
  ghost predicate Linked(root: string, host: PkgHost, err: Option<DeployError>) {
    var hints := FileHints(host.hintFiles);
    var ld := Ldconfig(root, SortedSet(hints));
    if exists p :: p in hints && !host.mkdir(p)
    then err.Some? && err.value.MkdirFailed? && err.value.path in hints && !host.mkdir(err.value.path)
    else err == (if host.run(ld).None? then Some(CommandFailed(ld)) else None)
  }

  /** Everything `PkgDeployer.Deploy` does after recording the architecture. */
  method DeployPackages(pkgs: seq<string>, root: string, info: ContainerInfo, host: PkgHost) returns (ai: AssetInfo, err: Option<DeployError>)
    ensures Deployed(pkgs, root, info, host, ai, err)
  {
    ai, err := NoInfo, None;
    var release := FreeBSDRelease(info.freebsd);
    if release.None? {
      err := Some(InvalidFreeBSD(info.freebsd));
      return;
    }
    var (major, minor) := release.value;
    var machine := Machine(info.arch);
    var abi := Abi(major, minor, machine);
    var osv := OsVersion(major, minor, machine);

    if !host.writeRepos {
      err := Some(WriteFailed(ReposConf));
      return;
    }
    var install := Pkg(abi, osv, root, "install", pkgs);
    if host.run(install).None? {
      err := Some(CommandFailed(install));
      return;
    }
    if pkgs == [] {
      err := Some(IndexOutOfRange(0));
      return;
    }
    ai, err := QueryPackages(pkgs, root, Pkg(abi, osv, root, "query", ["%v"] + pkgs), host);
  }

  method QueryPackages(pkgs: seq<string>, root: string, query: Invocation, host: PkgHost) returns (ai: AssetInfo, err: Option<DeployError>)
    requires pkgs != []
    ensures Installed(pkgs, root, query, host, ai, err)
  {
    ai, err := AssetInfo("", "/usr/local/bin/" + pkgs[0], []), None;
    var out := host.run(query);
    if out.None? {
      err := Some(CommandFailed(query));
      return;
    }
    ai, err := Annotate(pkgs, OutputLines(out.value), ai);
    if err.Some? {
      return;
    }
    err := LinkHints(root, host);
  }

  method LinkHints(root: string, host: PkgHost) returns (err: Option<DeployError>)
    ensures Linked(root, host, err)
  {
    var hints := CollectHints(host.hintFiles);
    var paths, failed := MakeDirs(hints, host.mkdir);
    if failed.Some? {
      return Some(MkdirFailed(failed.value));
    }
    var ld := Ldconfig(root, paths);
    err := if host.run(ld).None? then Some(CommandFailed(ld)) else None;
  }

  /** `PkgDeployer`: the packages of one `pkg` asset and the architectures
      it has been deployed for. */
  class PkgDeployer {
    var pkgs: seq<string>
    var done: set<string>

    /** What `Asset.UnmarshalYAML` sets up for a `pkg` asset. */
    constructor(name: string)
      ensures pkgs == [name] && done == {}
    {
      pkgs := [name];
      done := {};
    }

    /** `PkgDeployer.Deploy`: nothing at all for an architecture already
        done; otherwise the architecture is recorded first, and then the
        version is checked, the packages installed and queried, and
        ldconfig run over the sorted hinted directories. */
    method Deploy(root: string, info: ContainerInfo, host: PkgHost) returns (ai: AssetInfo, err: Option<DeployError>)
      modifies this`done
      ensures info.arch in old(done) ==> done == old(done) && ai == NoInfo && err.None?
      ensures info.arch !in old(done) ==> done == old(done) + {info.arch}
      ensures info.arch !in old(done) ==> Deployed(pkgs, root, info, host, ai, err)
    {
      ai, err := NoInfo, None;
      if info.arch in done {
        return;
      }
      done := done + {info.arch};
      ai, err := DeployPackages(pkgs, root, info, host);
    }
  }

  // ---------------------------------------------------------------------
  // Routing archive entries

  /** One pattern of an archive asset; a `src` ending in `/` is a directory
      pattern. */
  datatype ArchiveFile = ArchiveFile(src: string, dst: string)

  /** An entry as the extractor hands it over. */
  datatype Entry = Entry(name: string, isDir: bool, mode: bv32)

  /** What happens to one entry. `fileMatch` is the index of the file
      pattern that chose the destination, `-1` when a directory pattern
      did. */
  datatype Outcome =
    | Unsafe
    | Duplicate
    | Skipped(skipDir: bool)
    | Extracted(dst: string, fileMatch: int)
    | Panicked(error: DeployError)

  /** `doublestar.MatchUnvalidated(pattern, name)`, which this model does
      not define. */
  type Matcher = (string, string) -> bool

  predicate UnsafeName(name: string) {
    name == "." || StartsWith(name, "../") || IsAbs(name)
  }

  predicate IsDirPattern(af: ArchiveFile) { EndsWith(af.src, "/") }

  /** `Perm() & 0o111 == 0o111`: all three execute bits. */
  predicate AllExec(mode: bv32) { mode & 0x1FF & 0x49 == 0x49 }

  /** The reduced elements of a safe entry name. */
  function SafeElements(raw: string): (elems: seq<string>)
    requires !UnsafeName(Clean(raw))
    ensures Reduced(elems, false) && |elems| >= 1
    ensures Clean(raw) == Join(elems, "/")
  {
    CleanRelative(raw);
    Elements(raw)
  }

  /** The `k`-th ancestor of a path along the `path.Dir` walk, counted from
      the root: the first `k` elements, or `.` for none. */
  function Ancestor(elems: seq<string>, k: nat): string
    requires k <= |elems|
  {
    if k == 0 then "." else Join(elems[..k], "/")
  }

  /** What the walk up from an entry looks for: a known directory, or a
      match of a directory pattern. */
  datatype Probe = InDirs(dirs: map<string, string>) | ByPattern(pattern: string, glob: Matcher)

  predicate Hits(probe: Probe, s: string) {
    match probe
    case InDirs(dirs) => s in dirs
    case ByPattern(pattern, glob) => glob(pattern, s)
  }

  /** The deepest of the first `k` ancestors that the probe hits, or 0. */
  function Deepest(probe: Probe, elems: seq<string>, k: nat): (r: nat)
    requires k <= |elems|
    ensures r <= k
    ensures r > 0 ==> Hits(probe, Ancestor(elems, r))
    ensures forall j :: r < j <= k ==> !Hits(probe, Ancestor(elems, j))
  {
    if k == 0 then 0
    else if Hits(probe, Ancestor(elems, k)) then k
    else Deepest(probe, elems, k - 1)
  }

  /** Whether a pattern takes an entry: a file pattern a non-directory
      entry it matches, a directory pattern an entry with a matching
      ancestor (the entry itself included). */
  predicate Applies(af: ArchiveFile, elems: seq<string>, isDir: bool, glob: Matcher) {
    if !IsDirPattern(af) then !isDir && glob(af.src, Join(elems, "/"))
    else Deepest(ByPattern(af.src, glob), elems, |elems|) > 0
  }

  /** The first pattern from `from` on that takes the entry. */
  function FirstApplicable(files: seq<ArchiveFile>, elems: seq<string>, isDir: bool, glob: Matcher, from: nat): (r: Option<nat>)
    requires from <= |files|
    ensures r.Some? ==> from <= r.value < |files| && Applies(files[r.value], elems, isDir, glob)
    ensures r.Some? ==> forall j :: from <= j < r.value ==> !Applies(files[j], elems, isDir, glob)
    ensures r.None? ==> forall j :: from <= j < |files| ==> !Applies(files[j], elems, isDir, glob)
    decreases |files| - from
  {
    if from == |files| then None
    else if Applies(files[from], elems, isDir, glob) then Some(from)
    else FirstApplicable(files, elems, isDir, glob, from + 1)
  }

  /** The state the extraction callback keeps between entries: which
      pattern matched which name, and the entrypoint found so far. */
  datatype RouterState = RouterState(matched: map<string, string>, entrypoint: string)

  /** The extraction callback of `ArchiveAsset.Deploy` for one entry. */
  function Route(files: seq<ArchiveFile>, ci: ContainerInfo, glob: Matcher, dirs: map<string, string>,
                 st: RouterState, e: Entry): (Outcome, RouterState)
  {
    var name := Clean(e.name);
    if UnsafeName(name) then (Unsafe, st)
    else
      var elems := SafeElements(e.name);
      var n := |elems|;
      var d := Deepest(InDirs(dirs), elems, n);
      if d > 0 then
        if d == n then (Panicked(SliceOutOfRange), st)
        else
          var dst := Join2(dirs[Ancestor(elems, d)], Join(elems[d..], "/"));
          if dst != "" then (Extracted(dst, -1), st) else RoutePatterns(files, ci, glob, st, e, elems)
      else RoutePatterns(files, ci, glob, st, e, elems)
  }

  /** The loop over the patterns: the first one that takes the entry
      decides. */
  function RoutePatterns(files: seq<ArchiveFile>, ci: ContainerInfo, glob: Matcher,
                         st: RouterState, e: Entry, elems: seq<string>): (Outcome, RouterState)
    requires Reduced(elems, false) && |elems| >= 1
  {
    match FirstApplicable(files, elems, e.isDir, glob, 0)
    case None => (Skipped(e.isDir), st)
    case Some(i) =>
      if !IsDirPattern(files[i]) then RouteFile(files[i], i, ci, st, e, Join(elems, "/"))
      else RouteDir(files[i], ci, glob, st, elems)
  }

  /** A file pattern takes the entry: unless the pattern already took
      another, the entry goes to the pattern's destination, and the first
      pattern's first executable match becomes the entrypoint. */
  function RouteFile(af: ArchiveFile, i: nat, ci: ContainerInfo, st: RouterState, e: Entry, name: string): (Outcome, RouterState) {
    if af.src in st.matched then (Duplicate, st)
    else
      var m := st.matched[af.src := name];
      match CalculateDst(name, Apply(ci, af.dst))
      case Err(x) => (Panicked(x), st.(matched := m))
      case Ok(dst) =>
        var ep := if i == 0 && st.entrypoint == "" && AllExec(e.mode) then dst else st.entrypoint;
        (Extracted(dst, i), RouterState(m, ep))
  }

  /** A directory pattern takes the entry through its deepest matching
      ancestor: unless the pattern already took a different directory, the
      entry goes below the pattern's destination. */
  function RouteDir(af: ArchiveFile, ci: ContainerInfo, glob: Matcher, st: RouterState, elems: seq<string>): (Outcome, RouterState) {
    var n := |elems|;
    var k := Deepest(ByPattern(af.src, glob), elems, n);
    var src := Ancestor(elems, k);
    if af.src in st.matched && st.matched[af.src] != src then (Duplicate, st)
    else
      var m := st.matched[af.src := src];
      match CalculateDst(src, Apply(ci, af.dst))
      case Err(x) => (Panicked(x), st.(matched := m))
      case Ok(dst) => (Extracted(if k < n then Join2(dst, Join(elems[k..], "/")) else dst, -1), st.(matched := m))
  }

  /** One step of the walk: `path.Dir` of an ancestor is the next one up. */
  lemma AncestorStep(elems: seq<string>, k: nat)
    requires Reduced(elems, false) && 1 <= k <= |elems|
    ensures Dir(Ancestor(elems, k)) == Ancestor(elems, k - 1)
  {
    var front := elems[..k];
    ReducedPrefix(elems, k);
    DirOfReduced(front);
    if k > 1 {
      assert front[..k - 1] == elems[..k - 1];
    }
  }

  /** An ancestor is never `.`; a proper one is followed in the entry name
      by a slash and the remaining elements. */
  lemma AncestorFacts(elems: seq<string>, k: nat)
    requires Reduced(elems, false) && 1 <= k <= |elems|
    ensures Ancestor(elems, k) != "."
    ensures k == |elems| ==> Ancestor(elems, k) == Join(elems, "/")
    ensures k < |elems| ==> Join(elems, "/") == Ancestor(elems, k) + "/" + Join(elems[k..], "/")
  {
    var front := elems[..k];
    if k == 1 {
      assert Join(front, "/") == elems[0];
    } else {
      JoinAt(front, 1);
      assert front[..1] == [elems[0]];
      assert |Join(front, "/")| >= 2;
    }
    if k < |elems| {
      JoinAt(elems, k);
    } else {
      assert front == elems;
    }
  }

  /** The walk of `for src := name; src != "."; src = path.Dir(src)` up to
      the first ancestor the probe hits, or to `.`. */
  method Walk(probe: Probe, name: string, ghost elems: seq<string>) returns (src: string, ghost k: nat)
    requires Reduced(elems, false) && |elems| >= 1 && name == Join(elems, "/")
    ensures k == Deepest(probe, elems, |elems|) && src == Ancestor(elems, k)
  {
    src := name;
    k := |elems|;
    assert elems[..k] == elems;
    while src != "."
      invariant k <= |elems| && src == Ancestor(elems, k)
      invariant Deepest(probe, elems, |elems|) == Deepest(probe, elems, k)
      decreases k
    {
      AncestorFacts(elems, k);
      if Hits(probe, src) {
        return;
      }
      AncestorStep(elems, k);
      src := Dir(src);
      k := k - 1;
    }
  }

  /** The extraction callback's state: the patterns, the container info,
      the matcher, the `dirs` map (which nothing ever fills) and what the
      callback updates from entry to entry. */
  class ArchiveRouter {
    const files: seq<ArchiveFile>
    const info: ContainerInfo
    const glob: Matcher
    const dirs: map<string, string>
    var matched: map<string, string>
    var entrypoint: string

    constructor(files: seq<ArchiveFile>, info: ContainerInfo, glob: Matcher)
      ensures this.files == files && this.info == info && this.glob == glob
      ensures dirs == map[] && matched == map[] && entrypoint == ""
    {
      this.files := files;
      this.info := info;
      this.glob := glob;
      dirs := map[];
      matched := map[];
      entrypoint := "";
    }

    /** The callback for one entry. */
    method Visit(e: Entry) returns (out: Outcome)
      modifies this`matched, this`entrypoint
      ensures (out, RouterState(matched, entrypoint))
        == Route(files, info, glob, dirs, RouterState(old(matched), old(entrypoint)), e)
    {
      var name := Clean(e.name);
      if name == "." || StartsWith(name, "../") || IsAbs(name) {
        return Unsafe;
      }
      ghost var elems := SafeElements(e.name);

      var known, d := Walk(InDirs(dirs), name, elems);
      if known != "." {
        AncestorFacts(elems, d);
        if |known| + 1 > |name| {
          return Panicked(SliceOutOfRange);
        }
        assert name[|known| + 1..] == Join(elems[d..], "/");
        var dst := Join2(dirs[known], name[|known| + 1..]);
        if dst != "" {
          return Extracted(dst, -1);
        }
      }
      out := VisitPatterns(e, name, elems);
    }

    /** The loop over the patterns, for an entry no known directory holds:
        the first pattern that takes the entry decides what becomes of it. */
    method VisitPatterns(e: Entry, name: string, ghost elems: seq<string>) returns (out: Outcome)
      requires Reduced(elems, false) && |elems| >= 1 && name == Join(elems, "/")
      modifies this`matched, this`entrypoint
      ensures (out, RouterState(matched, entrypoint))
        == RoutePatterns(files, info, glob, RouterState(old(matched), old(entrypoint)), e, elems)
    {
      var found, src, k := FindPattern(e, name, elems);
      if found.None? {
        return Skipped(e.isDir);
      }
      var i := found.value;
      if !EndsWith(files[i].src, "/") {
        out := TakeFile(files[i], i, e, name);
      } else {
        out := TakeDir(files[i], e, name, src, elems, k);
      }
    }

    /** The first pattern that takes the entry: a file pattern whose glob
        matches the name of a file, or a directory pattern whose glob
        matches one of the entry's ancestors, found by walking up. */
    method FindPattern(e: Entry, name: string, ghost elems: seq<string>) returns (found: Option<nat>, src: string, ghost k: nat)
      requires Reduced(elems, false) && |elems| >= 1 && name == Join(elems, "/")
      ensures found == FirstApplicable(files, elems, e.isDir, glob, 0)
      ensures found.Some? && IsDirPattern(files[found.value]) ==>
        k == Deepest(ByPattern(files[found.value].src, glob), elems, |elems|) && src == Ancestor(elems, k) && src != "."
    {
      var i := 0;
      while i < |files|
        invariant i <= |files|
        invariant FirstApplicable(files, elems, e.isDir, glob, 0) == FirstApplicable(files, elems, e.isDir, glob, i)
      {
        var af := files[i];
        if !EndsWith(af.src, "/") {
          if e.isDir || !glob(af.src, name) {
            assert !Applies(af, elems, e.isDir, glob);
            i := i + 1;
            continue;
          }
          return Some(i), "", 0;
        }
        src, k := Walk(ByPattern(af.src, glob), name, elems);
        if src == "." {
          if k > 0 {
            AncestorFacts(elems, k);
          }
          assert !Applies(af, elems, e.isDir, glob);
          i := i + 1;
          continue;
        }
        return Some(i), src, k;
      }
      return None, "", 0;
    }

    /** A file pattern has matched the entry. */
    method TakeFile(af: ArchiveFile, i: nat, e: Entry, name: string) returns (out: Outcome)
      modifies this`matched, this`entrypoint
      ensures (out, RouterState(matched, entrypoint))
        == RouteFile(af, i, info, RouterState(old(matched), old(entrypoint)), e, name)
    {
      if af.src in matched {
        return Duplicate;
      }
      matched := matched[af.src := name];
      var r := CalculateDst(name, Apply(info, af.dst));
      if r.Err? {
        return Panicked(r.error);
      }
      var dst := r.value;
      if i == 0 && entrypoint == "" && AllExec(e.mode) {
        entrypoint := dst;
      }
      out := Extracted(dst, i);
    }

    /** A directory pattern has matched an ancestor of the entry. */
    method TakeDir(af: ArchiveFile, e: Entry, name: string, src: string, ghost elems: seq<string>, ghost k: nat) returns (out: Outcome)
      requires Reduced(elems, false) && |elems| >= 1 && name == Join(elems, "/")
      requires k == Deepest(ByPattern(af.src, glob), elems, |elems|) && src == Ancestor(elems, k) && src != "."
      modifies this`matched
      ensures (out, RouterState(matched, entrypoint))
        == RouteDir(af, info, glob, RouterState(old(matched), entrypoint), elems)
    {
      AncestorFacts(elems, k);
      if af.src in matched {
        if matched[af.src] != src {
          return Duplicate;
        }
        assert matched == matched[af.src := src];
      } else {
        matched := matched[af.src := src];
      }
      var r := CalculateDst(src, Apply(info, af.dst));
      if r.Err? {
        return Panicked(r.error);
      }
      var dst := r.value;
      if src != name {
        assert name[|src| + 1..] == Join(elems[k..], "/");
        dst := Join2(dst, name[|src| + 1..]);
      }
      out := Extracted(dst, -1);
    }
  }

  // ---------------------------------------------------------------------
  // What the routing promises

  /** The name filter: an admitted name is a clean relative path; unless it
      is exactly `..`, no element of it is `..`, so it stays below the
      root. The name `..` itself passes the filter. */
  lemma SafeNameElements(raw: string)
    requires !UnsafeName(Clean(raw))
    ensures Clean(raw) == ".." <==> SafeElements(raw) == [".."]
    ensures Clean(raw) != ".." ==> forall i :: 0 <= i < |SafeElements(raw)| ==> SafeElements(raw)[i] != ".."
  {
    var elems := SafeElements(raw);
    ParentElements(elems);
    if elems == [".."] {
      assert Join(elems, "/") == "..";
    }
  }

  /** With no known directories, an entry is routed by the patterns alone. */
  lemma RouteNoDirs(files: seq<ArchiveFile>, ci: ContainerInfo, glob: Matcher, st: RouterState, e: Entry)
    ensures UnsafeName(Clean(e.name)) ==> Route(files, ci, glob, map[], st, e) == (Unsafe, st)
    ensures !UnsafeName(Clean(e.name)) ==>
      Route(files, ci, glob, map[], st, e) == RoutePatterns(files, ci, glob, st, e, SafeElements(e.name))
  {
    if !UnsafeName(Clean(e.name)) {
      var elems := SafeElements(e.name);
      assert Deepest(InDirs(map[]), elems, |elems|) == 0;
    }
  }

  /** A file pattern's extraction: the entry is a file, the pattern is the
      first that takes it, and it lands where `calculateDst` puts it. */
  lemma RouteFilePattern(files: seq<ArchiveFile>, ci: ContainerInfo, glob: Matcher, st: RouterState, e: Entry)
    requires Route(files, ci, glob, map[], st, e).0.Extracted?
    requires Route(files, ci, glob, map[], st, e).0.fileMatch >= 0
    ensures !UnsafeName(Clean(e.name)) && !e.isDir
    ensures FirstApplicable(files, SafeElements(e.name), e.isDir, glob, 0) == Some(Route(files, ci, glob, map[], st, e).0.fileMatch)
    ensures !IsDirPattern(files[Route(files, ci, glob, map[], st, e).0.fileMatch])
    ensures files[Route(files, ci, glob, map[], st, e).0.fileMatch].src !in st.matched
    ensures CalculateDst(Clean(e.name), Apply(ci, files[Route(files, ci, glob, map[], st, e).0.fileMatch].dst))
      == Ok(Route(files, ci, glob, map[], st, e).0.dst)
  {
    RouteNoDirs(files, ci, glob, st, e);
  }

  /** A pattern keeps the first name or directory it took: entries of
      `matched` are never changed or removed. */
  lemma RouteKeepsMatched(files: seq<ArchiveFile>, ci: ContainerInfo, glob: Matcher, dirs: map<string, string>, st: RouterState, e: Entry)
    ensures forall k :: k in st.matched ==>
      k in Route(files, ci, glob, dirs, st, e).1.matched && Route(files, ci, glob, dirs, st, e).1.matched[k] == st.matched[k]
  {
    var name := Clean(e.name);
    if !UnsafeName(name) {
      var elems := SafeElements(e.name);
      RoutePatternsKeepsMatched(files, ci, glob, st, e, elems);
    }
  }

  lemma RoutePatternsKeepsMatched(files: seq<ArchiveFile>, ci: ContainerInfo, glob: Matcher, st: RouterState, e: Entry, elems: seq<string>)
    requires Reduced(elems, false) && |elems| >= 1
    ensures Extends(st.matched, RoutePatterns(files, ci, glob, st, e, elems).1.matched)
  {
    match FirstApplicable(files, elems, e.isDir, glob, 0)
    case None =>
    case Some(i) =>
      if !IsDirPattern(files[i]) {
        RouteFileKeepsMatched(files[i], i, ci, st, e, Join(elems, "/"));
      } else {
        RouteDirKeepsMatched(files[i], ci, glob, st, elems);
      }
  }

  lemma RouteFileKeepsMatched(af: ArchiveFile, i: nat, ci: ContainerInfo, st: RouterState, e: Entry, name: string)
    ensures Extends(st.matched, RouteFile(af, i, ci, st, e, name).1.matched)
  {
  }

  lemma RouteDirKeepsMatched(af: ArchiveFile, ci: ContainerInfo, glob: Matcher, st: RouterState, elems: seq<string>)
    ensures Extends(st.matched, RouteDir(af, ci, glob, st, elems).1.matched)
  {
  }

  /** Every pattern in `a` is still there in `b`, with the same path. */
  predicate Extends(a: map<string, string>, b: map<string, string>) {
    forall k :: k in a ==> k in b && b[k] == a[k]
  }

  /** The entrypoint changes at most once: only from empty, and only to the
      destination of an entry that the first pattern extracted. */
  lemma RouteEntrypoint(files: seq<ArchiveFile>, ci: ContainerInfo, glob: Matcher, dirs: map<string, string>, st: RouterState, e: Entry)
    ensures var (out, st') := Route(files, ci, glob, dirs, st, e);
      st'.entrypoint != st.entrypoint ==>
        st.entrypoint == "" && out == Extracted(st'.entrypoint, 0) && AllExec(e.mode) && !e.isDir
  {
  }

  /** The extraction of all entries handed to the callback, in order: it
      stops at the first panic or failed write; `store` says whether
      writing an entry below the root succeeds. */
  function RouteAll(files: seq<ArchiveFile>, ci: ContainerInfo, glob: Matcher, dirs: map<string, string>,
                    st: RouterState, entries: seq<Entry>, root: string, store: string -> bool): (RouterState, Option<DeployError>)
    decreases |entries|
  {
    if entries == [] then (st, None)
    else
      var (out, st') := Route(files, ci, glob, dirs, st, entries[0]);
      match out
      case Panicked(x) => (st', Some(Panic(x)))
      case Extracted(dst, _) =>
        if !store(Join2(root, dst)) then (st', Some(WriteFailed(Join2(root, dst))))
        else RouteAll(files, ci, glob, dirs, st', entries[1..], root, store)
      case _ => RouteAll(files, ci, glob, dirs, st', entries[1..], root, store)
  }

  /** Over a whole archive, a pattern's first match stays recorded. */
  lemma {:induction false} RouteAllKeepsMatched(files: seq<ArchiveFile>, ci: ContainerInfo, glob: Matcher, dirs: map<string, string>,
                                                st: RouterState, entries: seq<Entry>, root: string, store: string -> bool)
    ensures forall k :: k in st.matched ==>
      k in RouteAll(files, ci, glob, dirs, st, entries, root, store).0.matched &&
      RouteAll(files, ci, glob, dirs, st, entries, root, store).0.matched[k] == st.matched[k]
    decreases |entries|
  {
    if entries != [] {
      var st' := Route(files, ci, glob, dirs, st, entries[0]).1;
      RouteKeepsMatched(files, ci, glob, dirs, st, entries[0]);
      RouteAllKeepsMatched(files, ci, glob, dirs, st', entries[1..], root, store);
    }
  }

  /** Over a whole archive, the first entrypoint found is the one kept. */
  lemma {:induction false} RouteAllKeepsEntrypoint(files: seq<ArchiveFile>, ci: ContainerInfo, glob: Matcher, dirs: map<string, string>,
                                                   st: RouterState, entries: seq<Entry>, root: string, store: string -> bool)
    requires st.entrypoint != ""
    ensures RouteAll(files, ci, glob, dirs, st, entries, root, store).0.entrypoint == st.entrypoint
    decreases |entries|
  {
    if entries != [] {
      var st' := Route(files, ci, glob, dirs, st, entries[0]).1;
      RouteEntrypoint(files, ci, glob, dirs, st, entries[0]);
      RouteAllKeepsEntrypoint(files, ci, glob, dirs, st', entries[1..], root, store);
    }
  }

  /** The entrypoint inferred from an archive is the destination of an
      executable file that the first pattern extracted. */
  lemma {:induction false} RouteAllEntrypoint(files: seq<ArchiveFile>, ci: ContainerInfo, glob: Matcher, dirs: map<string, string>,
                                              st: RouterState, entries: seq<Entry>, root: string, store: string -> bool)
    requires st.entrypoint == ""
    ensures var ep := RouteAll(files, ci, glob, dirs, st, entries, root, store).0.entrypoint;
      ep != "" ==> (exists j, st1 :: 0 <= j < |entries| && AllExec(entries[j].mode) && !entries[j].isDir &&
                                      Route(files, ci, glob, dirs, st1, entries[j]).0 == Extracted(ep, 0))
    decreases |entries|
  {
    if entries != [] {
      var (out, st') := Route(files, ci, glob, dirs, st, entries[0]);
      var ep := RouteAll(files, ci, glob, dirs, st, entries, root, store).0.entrypoint;
      RouteEntrypoint(files, ci, glob, dirs, st, entries[0]);
      if st'.entrypoint != "" {
        if ep != "" {
          if !out.Panicked? && !(out.Extracted? && !store(Join2(root, out.dst))) {
            RouteAllKeepsEntrypoint(files, ci, glob, dirs, st', entries[1..], root, store);
          }
          assert AllExec(entries[0].mode) && !entries[0].isDir && Route(files, ci, glob, dirs, st, entries[0]).0 == Extracted(ep, 0);
        }
      } else if ep != "" {
        RouteAllEntrypoint(files, ci, glob, dirs, st', entries[1..], root, store);
        var j, st1 :| 0 <= j < |entries[1..]| && AllExec(entries[1..][j].mode) && !entries[1..][j].isDir &&
          Route(files, ci, glob, dirs, st1, entries[1..][j]).0 == Extracted(ep, 0);
        assert entries[1..][j] == entries[j + 1];
      }
    }
  }

  // ---------------------------------------------------------------------
  // Archive and release assets

  /** `ArchiveAsset.Deploy` as a function of what it is given: a missing
      version is resolved first; the archive at the expanded URL is
      fetched; its entries are routed with the container info as given
      (version not filled in). `download` stands for the download and
      format detection. */
  function ArchiveDeploy(url: string, files: seq<ArchiveFile>, info: ContainerInfo, glob: Matcher,
                         resolve: Result<string, DeployError>, download: string -> Result<seq<Entry>, DeployError>,
                         store: string -> bool, root: string): (AssetInfo, Option<DeployError>)
  {
    if info.version == "" && resolve.Err? then (NoInfo, Some(resolve.error))
    else
      var v := if info.version == "" then resolve.value else info.version;
      match download(Apply(info.(version := v), url))
      case Err(x) => (NoInfo, Some(x))
      case Ok(entries) =>
        var (st, err) := RouteAll(files, info, glob, map[], RouterState(map[], ""), entries, root, store);
        (AssetInfo(v, st.entrypoint, []), err)
  }

  /** What an archive deploy reports: the version it used, and an
      entrypoint only from an executable file of the first pattern. */
  lemma ArchiveDeployInfo(url: string, files: seq<ArchiveFile>, info: ContainerInfo, glob: Matcher,
                          resolve: Result<string, DeployError>, download: string -> Result<seq<Entry>, DeployError>,
                          store: string -> bool, root: string)
    ensures var (ai, err) := ArchiveDeploy(url, files, info, glob, resolve, download, store, root);
      ai.annotations == [] &&
      (info.version != "" && ai != NoInfo ==> ai.inferredVersion == info.version) &&
      (info.version == "" && resolve.Ok? && ai != NoInfo ==> ai.inferredVersion == resolve.value)
    ensures var (ai, err) := ArchiveDeploy(url, files, info, glob, resolve, download, store, root);
      ai.inferredEntrypoint != "" ==>
        download(Apply(info.(version := ai.inferredVersion), url)).Ok? &&
        var entries := download(Apply(info.(version := ai.inferredVersion), url)).value;
        (exists j, st1 :: 0 <= j < |entries| && AllExec(entries[j].mode) && !entries[j].isDir &&
                           Route(files, info, glob, map[], st1, entries[j]).0 == Extracted(ai.inferredEntrypoint, 0))
  {
    if !(info.version == "" && resolve.Err?) {
      var v := if info.version == "" then resolve.value else info.version;
      var d := download(Apply(info.(version := v), url));
      if d.Ok? {
        RouteAllEntrypoint(files, info, glob, map[], RouterState(map[], ""), d.value, root, store);
      }
    }
  }

  /** `ArchiveAsset.Deploy`. */
  method DeployArchive(url: string, files: seq<ArchiveFile>, info: ContainerInfo, glob: Matcher,
                       resolve: Result<string, DeployError>, download: string -> Result<seq<Entry>, DeployError>,
                       store: string -> bool, root: string) returns (ai: AssetInfo, err: Option<DeployError>)
    ensures (ai, err) == ArchiveDeploy(url, files, info, glob, resolve, download, store, root)
  {
    var version := info.version;
    if version == "" {
      if resolve.Err? {
        return NoInfo, Some(resolve.error);
      }
      version := resolve.value;
    }
    var fetched := download(Apply(info.(version := version), url));
    if fetched.Err? {
      return NoInfo, Some(fetched.error);
    }
    var entries := fetched.value;
    var router := new ArchiveRouter(files, info, glob);
    err := None;
    var i := 0;
    while i < |entries|
      invariant i <= |entries|
      invariant router.files == files && router.info == info && router.glob == glob && router.dirs == map[]
      invariant RouteAll(files, info, glob, map[], RouterState(map[], ""), entries, root, store)
        == RouteAll(files, info, glob, map[], RouterState(router.matched, router.entrypoint), entries[i..], root, store)
    {
      assert entries[i..][1..] == entries[i + 1..];
      var out := router.Visit(entries[i]);
      if out.Panicked? {
        err := Some(Panic(out.error));
        break;
      }
      if out.Extracted? && !store(Join2(root, out.dst)) {
        err := Some(WriteFailed(Join2(root, out.dst)));
        break;
      }
      i := i + 1;
    }
    ai := AssetInfo(version, router.entrypoint, []);
  }

  /** A release asset as the API lists it. */
  datatype ReleaseFile = ReleaseFile(name: string, downloadUrl: string)

  /** The archive deploy of a URL, with everything else fixed. */
  function ArchiveFn(files: seq<ArchiveFile>, info: ContainerInfo, glob: Matcher,
                     resolve: Result<string, DeployError>, download: string -> Result<seq<Entry>, DeployError>,
                     store: string -> bool, root: string): string -> (AssetInfo, Option<DeployError>)
  {
    url => ArchiveDeploy(url, files, info, glob, resolve, download, store, root)
  }

  predicate Panics(err: Option<DeployError>) {
    err.Some? && err.value.Panic?
  }

  /** Whether `f` matches the pattern. */
  function MatchingFile(pattern: string, matches: (string, string) -> bool): ReleaseFile -> bool {
    (f: ReleaseFile) => matches(pattern, f.name)
  }

  /** Whether `f` matches the pattern and its deploy panics. */
  function PanickingFile(pattern: string, matches: (string, string) -> bool,
                         deploy: string -> (AssetInfo, Option<DeployError>)): ReleaseFile -> bool {
    (f: ReleaseFile) => matches(pattern, f.name) && Panics(deploy(f.downloadUrl).1)
  }

  /** What the deploy of a matched asset reports, with the release's version
      and, for an `owner/repo` repository, its version annotation. */
  function Annotated(ai: AssetInfo, repo: string, ver: string): (r: AssetInfo)
    ensures r.inferredVersion == ver && r.inferredEntrypoint == ai.inferredEntrypoint
    ensures var (owner, name, _) := Cut(repo, '/');
      r.annotations == if owner != "" && name != "" then ["com.github.repos." + owner + "." + name + ".version=" + ver]
                       else ai.annotations
  {
    var (owner, name, _) := Cut(repo, '/');
    var versioned := ai.(inferredVersion := ver);
    if owner != "" && name != "" then versioned.(annotations := ["com.github.repos." + owner + "." + name + ".version=" + ver])
    else versioned
  }

  /** `ReleaseAsset.Deploy` as written: every asset whose name matches the
      expanded glob is deployed (`deploy`, an archive deploy), and the
      result is then dropped: the first of those deploys that panics ends
      the deploy with its panic, and otherwise the deploy reports that no
      asset matched, whatever happened. `release` is the resolved release
      and version; `matches` stands for `path.Match`. */
  function ReleaseDeploy(repo: string, globTemplate: string, info: ContainerInfo,
                         release: Result<(seq<ReleaseFile>, string), DeployError>, matches: (string, string) -> bool,
                         deploy: string -> (AssetInfo, Option<DeployError>)): (r: (AssetInfo, Option<DeployError>))
    ensures r.0 == NoInfo
    ensures release.Err? ==> r.1 == Some(release.error)
    ensures release.Ok? ==>
      var assets := release.value.0;
      var pattern := Apply(info, globTemplate);
      (Panics(r.1) <==> exists i :: 0 <= i < |assets| && matches(pattern, assets[i].name) && Panics(deploy(assets[i].downloadUrl).1)) &&
      (!Panics(r.1) ==> r.1 == Some(NoMatchingAsset(repo, globTemplate))) &&
      (Panics(r.1) ==>
         exists i :: 0 <= i < |assets| && matches(pattern, assets[i].name) && r.1 == deploy(assets[i].downloadUrl).1 &&
           forall j :: 0 <= j < i ==> !(matches(pattern, assets[j].name) && Panics(deploy(assets[j].downloadUrl).1)))
  {
    if release.Err? then (NoInfo, Some(release.error))
    else
      var assets := release.value.0;
      match FirstWhere(assets, PanickingFile(Apply(info, globTemplate), matches, deploy))
      case Some(k) => (NoInfo, deploy(assets[k].downloadUrl).1)
      case None => (NoInfo, Some(NoMatchingAsset(repo, globTemplate)))
  }

  /** `ReleaseAsset.Deploy`. */
  method DeployRelease(repo: string, globTemplate: string, files: seq<ArchiveFile>, info: ContainerInfo, glob: Matcher,
                       release: Result<(seq<ReleaseFile>, string), DeployError>, matches: (string, string) -> bool,
                       resolve: Result<string, DeployError>, download: string -> Result<seq<Entry>, DeployError>,
                       store: string -> bool, root: string) returns (ai: AssetInfo, err: Option<DeployError>)
    ensures (ai, err) == ReleaseDeploy(repo, globTemplate, info, release, matches, ArchiveFn(files, info, glob, resolve, download, store, root))
  {
    if release.Err? {
      return NoInfo, Some(release.error);
    }
    var (assets, ver) := release.value;
    var pattern := Apply(info, globTemplate);
    ghost var panicking := PanickingFile(pattern, matches, ArchiveFn(files, info, glob, resolve, download, store, root));
    for i := 0 to |assets|
      invariant forall j :: 0 <= j < i ==> !panicking(assets[j])
    {
      if !matches(pattern, assets[i].name) {
        continue;
      }
      ai, err := DeployArchive(assets[i].downloadUrl, files, info, glob, resolve, download, store, root);
      if Panics(err) {
        assert panicking(assets[i]);
        FirstWhereIs(assets, panicking, i);
        return NoInfo, err;
      }
      ai := Annotated(ai, repo, ver);
    }
    assert FirstWhere(assets, panicking).None?;
    return NoInfo, Some(NoMatchingAsset(repo, globTemplate));
  }

  /** `ReleaseAsset.Deploy` as evidently intended: the first asset whose
      name matches is deployed and its result reported, with the release's
      version and annotation; with no match, no asset matched. */
  function IntendedReleaseDeploy(repo: string, globTemplate: string, info: ContainerInfo,
                                 release: Result<(seq<ReleaseFile>, string), DeployError>, matches: (string, string) -> bool,
                                 deploy: string -> (AssetInfo, Option<DeployError>)): (r: (AssetInfo, Option<DeployError>))
    ensures release.Err? ==> r == (NoInfo, Some(release.error))
    ensures release.Ok? ==>
      var (assets, ver) := release.value;
      var pattern := Apply(info, globTemplate);
      ((forall i :: 0 <= i < |assets| ==> !matches(pattern, assets[i].name)) ==> r == (NoInfo, Some(NoMatchingAsset(repo, globTemplate)))) &&
      forall i :: 0 <= i < |assets| && matches(pattern, assets[i].name) && (forall j :: 0 <= j < i ==> !matches(pattern, assets[j].name)) ==>
        r == (Annotated(deploy(assets[i].downloadUrl).0, repo, ver), deploy(assets[i].downloadUrl).1)
  {
    if release.Err? then (NoInfo, Some(release.error))
    else
      var (assets, ver) := release.value;
      var matching := MatchingFile(Apply(info, globTemplate), matches);
      assert forall i :: 0 <= i < |assets| && matching(assets[i]) && (forall j :: 0 <= j < i ==> !matching(assets[j])) ==>
        FirstWhere(assets, matching) == Some(i) by {
        forall i | 0 <= i < |assets| && matching(assets[i]) && (forall j :: 0 <= j < i ==> !matching(assets[j])) {
          FirstWhereIs(assets, matching, i);
        }
      }
      match FirstWhere(assets, matching)
      case None => (NoInfo, Some(NoMatchingAsset(repo, globTemplate)))
      case Some(i) =>
        var (ai, err) := deploy(assets[i].downloadUrl);
        (Annotated(ai, repo, ver), err)
  }

  /** Where some asset matches and every matching asset deploys without
      error, the code as written still reports that no asset matched,
      while the intended deploy reports the first one's result. */
  lemma ReleaseDeployDropsResult(repo: string, globTemplate: string, info: ContainerInfo,
                                 release: Result<(seq<ReleaseFile>, string), DeployError>, matches: (string, string) -> bool,
                                 deploy: string -> (AssetInfo, Option<DeployError>))
    requires release.Ok?
    requires forall i :: 0 <= i < |release.value.0| && matches(Apply(info, globTemplate), release.value.0[i].name) ==>
      deploy(release.value.0[i].downloadUrl).1.None?
    requires exists i :: 0 <= i < |release.value.0| && matches(Apply(info, globTemplate), release.value.0[i].name)
    ensures ReleaseDeploy(repo, globTemplate, info, release, matches, deploy) == (NoInfo, Some(NoMatchingAsset(repo, globTemplate)))
    ensures var (ai, err) := IntendedReleaseDeploy(repo, globTemplate, info, release, matches, deploy);
      err.None? && ai.inferredVersion == release.value.1
  {
    assert FirstWhere(release.value.0, PanickingFile(Apply(info, globTemplate), matches, deploy)).None?;
  }

  // ---------------------------------------------------------------------
  // Asset kinds

  datatype AssetKind = PkgKind | ArchiveKind | FileKind | ReleaseKind

  /** `Asset.UnmarshalYAML`: the kind is decided by the first of `pkg`,
      `archive`, `file`, `release` among the document's keys. */
  function Dispatch(keys: set<string>): (r: Result<AssetKind, DeployError>)
    ensures r == Ok(PkgKind) <==> "pkg" in keys
    ensures r == Ok(ArchiveKind) <==> "pkg" !in keys && "archive" in keys
    ensures r == Ok(FileKind) <==> "pkg" !in keys && "archive" !in keys && "file" in keys
    ensures r == Ok(ReleaseKind) <==> "pkg" !in keys && "archive" !in keys && "file" !in keys && "release" in keys
    ensures r.Err? <==> forall k :: k in keys ==> k != "pkg" && k != "archive" && k != "file" && k != "release"
    ensures r.Err? ==> r.error == UnknownAssetType
  {
    if "pkg" in keys then Ok(PkgKind)
    else if "archive" in keys then Ok(ArchiveKind)
    else if "file" in keys then Ok(FileKind)
    else if "release" in keys then Ok(ReleaseKind)
    else Err(UnknownAssetType)
  }
}
