/** The container build script: the image configuration it takes from a
    project, the first version tag it finds among the assets, and the
    `buildah config` arguments of every architecture. Containers, package
    installs, downloads and extraction are outside the model; what they
    report comes in through `Host`. */
module Container {
  import opened Common
  import PyFormat
  import Glob
  import Config
  import Assets
  import GoPath
  import Package
  import Resolver

  const Registry := "ghcr.io/cynix/"
  const Binaries := "cynix/freebsd-binaries"
  const RuntimeBase := "freebsd:runtime"
  const StaticBase := "freebsd:static"
  const DefaultArch: seq<string> := ["amd64", "arm64"]

  datatype ContainerError =
    | InvalidDst(dst: string)           // `set_failed` and exit
    | UnknownProjectType
    | MissingKey(key: string)           // KeyError
    | BadRelease(version: string)       // ValueError: too few fields to unpack
    | BadUser(user: string)             // ValueError: too many fields to unpack
    | BadFormat(err: PyFormat.FormatError)
    | NotFound(glob: string, release: string)
    | NoDownloadUrl                     // AttributeError on the asset mapping
    | UnknownAsset
    | Lookup(cause: Resolver.Error)       // raised by `get_release`
    | Extraction(message: string)       // raised while extracting a tarball

  function Get<T>(o: Option<T>, default: T): T {
    match o
    case None => default
    case Some(v) => v
  }

  /** Truthiness of an optional text. */
  predicate Truthy(o: Option<string>) {
    o.Some? && o.value != ""
  }

  // ---------------------------------------------------------------------
  // Destinations

  /** `s.rsplit(c, 1)[-1]`: what follows the last `c`, or all of `s`. */
  function AfterLast(s: string, c: char): (r: string)
    ensures c !in r
    ensures |r| <= |s| && r == s[|s| - |r|..]
    ensures |r| < |s| ==> s[|s| - |r| - 1] == c
  {
    if s == [] then []
    else if s[|s| - 1] == c then []
    else AfterLast(s[..|s| - 1], c) + [s[|s| - 1]]
  }

  lemma {:induction false} AfterLastNone(s: string, c: char)
    requires c !in s
    ensures AfterLast(s, c) == s
    decreases |s|
  {
    if s != [] {
      var front, last := s[..|s| - 1], s[|s| - 1];
      assert c !in front && last != c by {
        assert forall i :: 0 <= i < |front| ==> front[i] == s[i];
        assert last == s[|s| - 1];
      }
      AfterLastNone(front, c);
      assert front + [last] == s;
    }
  }

  lemma {:induction false} AfterLastAppend(a: string, c: char, b: string)
    requires c !in b
    ensures AfterLast(a + [c] + b, c) == b
    decreases |b|
  {
    if b == [] {
    } else {
      var x := a + [c] + b;
      assert x[..|x| - 1] == a + [c] + b[..|b| - 1];
      AfterLastAppend(a, c, b[..|b| - 1]);
      assert b[..|b| - 1] + [b[|b| - 1]] == b;
    }
  }

  /** `calculate_dst`: an absolute destination, completed by the source's
      last `/`-component when it ends with a slash; anything else fails. */
  function CalculateDst(src: string, dst: string): (r: Result<string, ContainerError>)
    ensures r.Err? <==> !StartsWith(dst, "/")
    ensures r.Err? ==> r.error == InvalidDst(dst)
    ensures r.Ok? ==> StartsWith(r.value, dst) && '/' !in r.value[|dst|..]
    ensures r.Ok? && !EndsWith(dst, "/") ==> r.value == dst
  {
    if !StartsWith(dst, "/") then Err(InvalidDst(dst))
    else if EndsWith(dst, "/") then
      var d := dst + AfterLast(src, '/');
      assert d[|dst|..] == AfterLast(src, '/');
      Ok(d)
    else Ok(dst)
  }

  /** What a directory destination receives: the last component exactly. */
  lemma CalculateDstComponent(a: string, b: string, dst: string)
    requires '/' !in b && StartsWith(dst, "/") && EndsWith(dst, "/")
    ensures CalculateDst(a + "/" + b, dst) == Ok(dst + b)
  {
    AfterLastAppend(a, '/', b);
  }

  /** A computed destination is its own destination. */
  lemma CalculateDstIdempotent(src: string, dst: string)
    requires CalculateDst(src, dst).Ok?
    ensures CalculateDst(src, CalculateDst(src, dst).value) == CalculateDst(src, dst)
  {
    var a := AfterLast(src, '/');
    if EndsWith(dst, "/") && a != [] {
      var d := dst + a;
      assert CalculateDst(src, dst) == Ok(d);
      assert d[0] == dst[0];
      assert d[|d| - 1] == a[|a| - 1];
      assert !EndsWith(d, "/");
    } else if EndsWith(dst, "/") {
      assert dst + a == dst;
    }
  }

  /** For a clean path, this script and the Go deployer compute the same
      destination, and refuse the same ones. */
  lemma CalculateDstAgreesWithGo(elems: seq<string>, dst: string)
    requires GoPath.Reduced(elems, false) && |elems| >= 1
    ensures CalculateDst(Join(elems, "/"), dst).Ok? <==> Assets.CalculateDst(Join(elems, "/"), dst).Ok?
    ensures CalculateDst(Join(elems, "/"), dst).Ok? ==>
      CalculateDst(Join(elems, "/"), dst).value == Assets.CalculateDst(Join(elems, "/"), dst).value
  {
    assert GoPath.IsAbs(dst) <==> StartsWith(dst, "/");
    if StartsWith(dst, "/") && EndsWith(dst, "/") {
      Assets.CalculateDstIntoDirectory(elems, dst);
      AfterLastJoin(elems);
    }
  }

  lemma AfterLastJoin(elems: seq<string>)
    requires |elems| >= 1 && forall i :: 0 <= i < |elems| ==> '/' !in elems[i]
    ensures AfterLast(Join(elems, "/"), '/') == elems[|elems| - 1]
  {
    var last := elems[|elems| - 1];
    if |elems| == 1 {
      AfterLastNone(last, '/');
    } else {
      JoinSnoc(elems, "/");
      AfterLastAppend(Join(elems[..|elems| - 1], "/"), '/', last);
    }
  }

  // ---------------------------------------------------------------------
  // The package ABI

  /** `major, minor, *_ = version.split("p")[0].split(".")`. */
  function ReleaseFields(version: string): (r: Result<(string, string), ContainerError>)
    ensures r.Err? ==> r.error == BadRelease(version)
    ensures r.Ok? ==> '.' !in r.value.0 && '.' !in r.value.1 && 'p' !in r.value.0 && 'p' !in r.value.1
  {
    var head := Split(version, 'p')[0];
    var fields := Split(head, '.');
    if |fields| < 2 then Err(BadRelease(version))
    else
      assert 'p' !in fields[0] && 'p' !in fields[1] by {
        FieldsOfHead(head, fields);
      }
      Ok((fields[0], fields[1]))
  }

  /** The first two fields of a split are characters of the text. */
  lemma FieldsOfHead(head: string, fields: seq<string>)
    requires fields == Split(head, '.') && |fields| >= 2 && 'p' !in head
    ensures 'p' !in fields[0] && 'p' !in fields[1]
  {
    JoinSplit(head, '.');
    JoinPieces(fields, ".");
  }

  /** Every part of a join is a piece of the joined text. */
  lemma {:induction false} JoinPieces(parts: seq<string>, sep: string)
    ensures forall i, c :: 0 <= i < |parts| && c in parts[i] ==> c in Join(parts, sep)
    decreases |parts|
  {
    if |parts| > 1 {
      JoinPieces(parts[1..], sep);
      forall i, c | 0 <= i < |parts| && c in parts[i]
        ensures c in Join(parts, sep)
      {
        if i > 0 {
          assert parts[1..][i - 1] == parts[i];
        }
      }
    }
  }

  /** A version `major.minor`, then any further `.` fields, then an
      optional `p` patch level, gives its major and minor. */
  lemma ReleaseFieldsOf(major: string, minor: string, extra: string, patch: string)
    requires '.' !in major && 'p' !in major && '.' !in minor && 'p' !in minor && 'p' !in extra
    requires extra == [] || extra[0] == '.'
    requires patch == [] || patch[0] == 'p'
    ensures ReleaseFields(major + "." + minor + extra + patch) == Ok((major, minor))
  {
    var head := major + "." + minor + extra;
    var v := head + patch;
    assert major + "." + minor + extra + patch == v;
    if patch == [] {
      assert v == head;
      SplitNone(head, 'p');
    } else {
      assert v == head + ['p'] + patch[1..];
      SplitAfter(head, 'p', patch[1..]);
    }
    assert Split(v, 'p')[0] == head;
    assert head == major + ['.'] + (minor + extra);
    SplitAfter(major, '.', minor + extra);
    if extra == [] {
      assert minor + extra == minor;
      SplitNone(minor, '.');
    } else {
      assert minor + extra == minor + ['.'] + extra[1..];
      SplitAfter(minor, '.', extra[1..]);
    }
    var fields := Split(head, '.');
    assert fields == [major] + Split(minor + extra, '.');
    assert fields[1] == minor;
  }

  /** A version with no `.` before its first `p` has no minor. */
  lemma ReleaseFieldsMissing(head: string, patch: string)
    requires '.' !in head && 'p' !in head
    requires patch == [] || patch[0] == 'p'
    ensures ReleaseFields(head + patch) == Err(BadRelease(head + patch))
  {
    if patch == [] {
      assert head + patch == head;
      SplitNone(head, 'p');
    } else {
      assert head + patch == head + ['p'] + patch[1..];
      SplitAfter(head, 'p', patch[1..]);
    }
    assert Split(head + patch, 'p')[0] == head;
    SplitNone(head, '.');
  }

  /** On the versions the Go deployer accepts that have no `p` and a minor
      other than a dot, both scripts find the same major and minor. */
  lemma ReleaseFieldsAgreeWithGo(v: string)
    requires Assets.FreeBSDRelease(v).Some? && 'p' !in v && Assets.FreeBSDRelease(v).value.1 != "."
    ensures ReleaseFields(v) == Ok(Assets.FreeBSDRelease(v).value)
  {
    var (major, minor) := Assets.FreeBSDRelease(v).value;
    assert v == major + "." + minor + "" + "";
    assert |minor| == 1 by { Utf8LenOne(minor); }
    assert minor == [minor[0]];
    assert 'p' !in major && 'p' !in minor by {
      forall i | 0 <= i < |major| ensures major[i] == v[i] { }
    }
    ReleaseFieldsOf(major, minor, "", "");
  }

  /** The `ABI` passed to `pkg`, and the minor that picks the base
      repository, for a FreeBSD version and an architecture. */
  function PkgAbi(version: string, arch: string): (r: Result<(string, string), ContainerError>)
    ensures r.Err? <==> ReleaseFields(version).Err?
    ensures r.Ok? ==> r.value.0 == Assets.Abi(ReleaseFields(version).value.0, ReleaseFields(version).value.1, Assets.Machine(arch))
    ensures r.Ok? ==> r.value.1 == ReleaseFields(version).value.1
  {
    var (major, minor) :- ReleaseFields(version);
    Ok(("FreeBSD:" + major + ":" + (if arch == "arm64" then "aarch64" else arch), minor))
  }

  // ---------------------------------------------------------------------
  // The configuration of a Go project's container

  /** The characters `re.escape` puts a backslash in front of. */
  predicate RegexSpecial(c: char) {
    c in "()[]{}?*+-|^$\\.&~# \t\n\r\U{0B}\U{0C}"
  }

  /** `re.escape`. */
  function ReEscape(s: string): (r: string)
    ensures |r| >= |s|
  {
    if s == [] then []
    else (if RegexSpecial(s[0]) then ['\\', s[0]] else [s[0]]) + ReEscape(s[1..])
  }

  /** A regular expression's literal text: a backslash stands for the
      character after it. */
  function Unescape(r: string): (s: string)
    decreases |r|
  {
    if r == [] then []
    else if r[0] == '\\' && |r| > 1 then [r[1]] + Unescape(r[2..])
    else [r[0]] + Unescape(r[1..])
  }

  /** An escaped text reads back as the text: the rule matches the name and
      the version literally. */
  lemma {:induction false} UnescapeEscape(s: string)
    ensures Unescape(ReEscape(s)) == s
    decreases |s|
  {
    if s != [] {
      UnescapeEscape(s[1..]);
      var rest := ReEscape(s[1..]);
      if RegexSpecial(s[0]) {
        assert ReEscape(s) == ['\\', s[0]] + rest;
        assert (['\\', s[0]] + rest)[2..] == rest;
      } else {
        assert s[0] != '\\';
        assert ReEscape(s) == [s[0]] + rest;
        assert ([s[0]] + rest)[1..] == rest;
      }
      assert [s[0]] + s[1..] == s;
    }
  }

  /** Only the special characters are escaped: the other characters of the
      escaped text are exactly the text's own. */
  lemma {:induction false} EscapePlain(s: string)
    requires forall i :: 0 <= i < |s| ==> !RegexSpecial(s[i])
    ensures ReEscape(s) == s
    decreases |s|
  {
    if s != [] {
      EscapePlain(s[1..]);
      assert [s[0]] + s[1..] == s;
    }
  }

  /** A file entry of an asset: a `src` glob and an optional `dst`. */
  datatype FileEntry = FileEntry(src: string, dst: Option<string>)

  /** The `version` of an asset: a text or a mapping with a `url` and an
      optional `regex`. */
  datatype VersionSpec = VersionText(text: string) | VersionUrl(url: string, regex: Option<string>)

  /** An asset mapping, with the keys the script reads. */
  datatype Asset = Asset(
    pkg: Option<string>,
    file: Option<string>,
    release: Option<string>,
    tarball: Option<string>,
    version: Option<VersionSpec>,
    dst: Option<string>,
    matchRule: Option<string>,
    glob: Option<string>,
    files: Option<seq<FileEntry>>)

  const NoAsset := Asset(None, None, None, None, None, None, None, None, None)

  /** A `container` mapping: the keys the model reads, and the names of the
      other keys it holds (such as `script`, whose run is outside the
      model), which count towards the mapping being non-empty. */
  datatype ContainerConfig = ContainerConfig(
    base: Option<string>,
    assets: Option<seq<Asset>>,
    files: Option<seq<FileEntry>>,
    user: Option<string>,
    env: Option<seq<(string, string)>>,
    entrypoint: Option<Config.EntryPoint>,
    otherKeys: set<string>)

  /** A mapping is true when it has a key. */
  predicate NonEmptyConfig(c: ContainerConfig) {
    c.base.Some? || c.assets.Some? || c.files.Some? || c.user.Some? || c.env.Some? || c.entrypoint.Some?
    || c.otherKeys != {}
  }

  datatype GoPackageEntry = GoPackageEntry(binaries: Option<seq<string>>, container: Option<ContainerConfig>)

  /** A project: its `container` and `arch`, and its `go` section, `None`
      when it is absent or empty. */
  datatype Project = Project(
    container: Option<ContainerConfig>,
    go: Option<Option<map<string, GoPackageEntry>>>,
    arch: Option<seq<string>>)

  /** The match rule of a Go container's release: the release names
      `/{name}-v{version}/` with both parts literal. */
  function MatchRule(name: string, version: string): string {
    "/" + ReEscape(name) + "-v(?P<version>" + ReEscape(version) + ")/"
  }

  /** The release asset a Go package's container is built from. */
  function GoAsset(name: string, version: string, binaries: seq<string>, files: seq<FileEntry>): (a: Asset)
    ensures a.release == Some(Binaries) && a.matchRule == Some(MatchRule(name, version))
    ensures a.glob == Some(name + "-freebsd_{arch}.tar.gz")
    ensures a.files.Some? && |a.files.value| == |binaries| + |files| && a.files.value[|binaries|..] == files
    ensures forall i :: 0 <= i < |binaries| ==> a.files.value[i] == FileEntry("**/" + binaries[i], None)
    ensures a.pkg.None? && a.file.None? && a.tarball.None?
  {
    var own := seq(|binaries|, i requires 0 <= i < |binaries| => FileEntry("**/" + binaries[i], None));
    NoAsset.(release := Some(Binaries), matchRule := Some(MatchRule(name, version)),
             glob := Some(name + "-freebsd_{arch}.tar.gz"), files := Some(own + files))
  }

  /** The container configuration of a project: its own `container` when
      that is a non-empty mapping; for a Go project, the package's
      `container` with its `files` moved into a single release asset, the
      package's binaries first (the package alone when it lists none);
      anything else is an unknown project type. */
  function SelectConfig(p: Project, name: string, version: string): (r: Result<ContainerConfig, ContainerError>)
    ensures p.container.Some? && NonEmptyConfig(p.container.value) ==> r == Ok(p.container.value)
    ensures !(p.container.Some? && NonEmptyConfig(p.container.value)) && p.go.None? ==> r == Err(UnknownProjectType)
    ensures !(p.container.Some? && NonEmptyConfig(p.container.value)) && p.go.Some? ==>
      match p.go.value
      case None => r == Err(MissingKey("packages"))
      case Some(packages) =>
        if name !in packages then r == Err(MissingKey(name))
        else if packages[name].container.None? then r == Err(MissingKey("container"))
        else
          var c := packages[name].container.value;
          r.Ok? && r.value.files.None? && r.value.assets ==
            Some([GoAsset(name, version, Get(packages[name].binaries, [name]), Get(c.files, []))])
          && r.value.(files := c.files, assets := c.assets) == c
  {
    if p.container.Some? && NonEmptyConfig(p.container.value) then Ok(p.container.value)
    else if p.go.None? then Err(UnknownProjectType)
    else if p.go.value.None? then Err(MissingKey("packages"))
    else if name !in p.go.value.value then Err(MissingKey(name))
    else
      var entry := p.go.value.value[name];
      if entry.container.None? then Err(MissingKey("container"))
      else
        var c := entry.container.value;
        var asset := GoAsset(name, version, Get(entry.binaries, [name]), Get(c.files, []));
        Ok(c.(assets := Some([asset]), files := None))
  }

  // ---------------------------------------------------------------------
  // Base image, triple and user

  /** Whether an asset mapping has a `pkg` key. */
  predicate HasPkg(assets: seq<Asset>) {
    exists i :: 0 <= i < |assets| && assets[i].pkg.Some?
  }

  /** The base image: the configured one, else the runtime image exactly
      when some asset has a `pkg` key, else the static one. */
  function Base(c: ContainerConfig, assets: seq<Asset>): (b: string)
    ensures c.base.Some? ==> b == c.base.value
    ensures c.base.None? ==> (b == RuntimeBase <==> HasPkg(assets))
    ensures c.base.None? ==> (b == StaticBase <==> !HasPkg(assets))
  {
    assert RuntimeBase[8] != StaticBase[8];
    Get(c.base, if HasPkg(assets) then RuntimeBase else StaticBase)
  }

  /** Python's `s.replace(old, new)`: every occurrence, left to right. */
  function PyReplace(s: string, pat: string, sub: string): (r: string)
    requires pat != []
    decreases |s|
  {
    if |s| < |pat| then s
    else if s[..|pat|] == pat then sub + PyReplace(s[|pat|..], pat, sub)
    else [s[0]] + PyReplace(s[1..], pat, sub)
  }

  predicate OccursAt(s: string, t: string, i: nat) {
    i + |t| <= |s| && s[i..i + |t|] == t
  }

  ghost predicate Occurs(s: string, t: string) {
    exists i: nat :: OccursAt(s, t, i)
  }

  /** Text in which `pat` does not occur is left as it is. */
  lemma {:induction false} PyReplaceAbsent(s: string, pat: string, sub: string)
    requires pat != [] && !Occurs(s, pat)
    ensures PyReplace(s, pat, sub) == s
    decreases |s|
  {
    if |s| >= |pat| {
      assert !OccursAt(s, pat, 0);
      assert s[0..|pat|] == s[..|pat|];
      forall i: nat | OccursAt(s[1..], pat, i)
        ensures OccursAt(s, pat, i + 1)
      {
        assert s[1..][i..i + |pat|] == s[i + 1..i + 1 + |pat|];
      }
      PyReplaceAbsent(s[1..], pat, sub);
      assert [s[0]] + s[1..] == s;
    }
  }

  /** The occurrence that is the whole text is replaced. */
  lemma PyReplaceWhole(pat: string, sub: string)
    requires pat != []
    ensures PyReplace(pat, pat, sub) == sub
  {
    assert pat[..|pat|] == pat;
    assert pat[|pat|..] == [];
  }

  /** The target triple of an architecture name. */
  function Triple(arch: string): string {
    PyReplace(PyReplace(arch, "amd64", "x86_64"), "arm64", "aarch64") + "-unknown-freebsd"
  }

  /** The two architectures of the project get the triples the Rust build
      uses; other names are kept. */
  lemma TripleOf(a: Config.Architecture)
    ensures Triple(Config.ArchValue(a)) == Package.Triple(a)
  {
    if a == Config.Amd64 {
      PyReplaceWhole("amd64", "x86_64");
      forall i: nat ensures !OccursAt("x86_64", "arm64", i) {
        if i + 5 <= 6 {
          assert "x86_64"[i..i + 5][0] == "x86_64"[i] != 'a';
        }
      }
      PyReplaceAbsent("x86_64", "arm64", "aarch64");
    } else {
      forall i: nat ensures !OccursAt("arm64", "amd64", i) {
        if i == 0 {
          assert "arm64"[0..5][1] != 'm';
        }
      }
      PyReplaceAbsent("arm64", "amd64", "x86_64");
      PyReplaceWhole("arm64", "aarch64");
    }
  }

  lemma TripleOther(arch: string)
    requires !Occurs(arch, "amd64") && !Occurs(arch, "arm64")
    ensures Triple(arch) == arch + "-unknown-freebsd"
  {
    PyReplaceAbsent(arch, "amd64", "x86_64");
    PyReplaceAbsent(arch, "arm64", "aarch64");
  }

  /** The user a container runs as, and the uid when the image adds it. */
  datatype User = User(name: string, uid: Option<string>)

  /** The `user` of the configuration: none when absent or empty; a name;
      or `name=uid`, which adds the user to the image. A second `=` fails
      to unpack. */
  function UserOf(user: Option<string>): (r: Result<Option<User>, ContainerError>)
    ensures !Truthy(user) ==> r == Ok(None)
    ensures Truthy(user) && '=' !in user.value ==> r == Ok(Some(User(user.value, None)))
    ensures r.Ok? && r.value.Some? ==> '=' !in r.value.value.name
    ensures r.Ok? && r.value.Some? && r.value.value.uid.Some? ==> '=' !in r.value.value.uid.value
  {
    if !Truthy(user) then Ok(None)
    else if '=' !in user.value then Ok(Some(User(user.value, None)))
    else
      var parts := Split(user.value, '=');
      if |parts| != 2 then Err(BadUser(user.value))
      else Ok(Some(User(parts[0], Some(parts[1]))))
  }

  /** `name=uid` with one `=` gives both halves; a second `=` is refused. */
  lemma UserOfPair(name: string, uid: string)
    requires '=' !in name
    ensures '=' !in uid ==> UserOf(Some(name + "=" + uid)) == Ok(Some(User(name, Some(uid))))
    ensures '=' in uid ==> UserOf(Some(name + "=" + uid)) == Err(BadUser(name + "=" + uid))
  {
    var u := name + "=" + uid;
    assert u == name + ['='] + uid;
    assert u[|name|] == '=';
    SplitAfter(name, '=', uid);
    if '=' !in uid {
      SplitNone(uid, '=');
    } else {
      SeparatorSplits(uid);
    }
  }

  /** Text with a separator splits into at least two parts. */
  lemma {:induction false} SeparatorSplits(s: string)
    requires '=' in s
    ensures |Split(s, '=')| >= 2
    decreases |s|
  {
    if s[0] != '=' {
      SeparatorSplits(s[1..]);
    }
  }

  /** The `pw` commands that add a user with a uid. */
  function UserCommands(u: Option<User>): (cmds: seq<seq<string>>)
    ensures u.None? || u.value.uid.None? ==> cmds == []
    ensures u.Some? && u.value.uid.Some? ==>
      && |cmds| == 2 && cmds[0] == ["groupadd", "-n", u.value.name, "-g", u.value.uid.value]
      && |cmds[1]| == 11 && cmds[1][2] == cmds[1][6] == u.value.name && cmds[1][4] == u.value.uid.value
  {
    match u
    case Some(User(name, Some(uid))) =>
      [["groupadd", "-n", name, "-g", uid],
       ["useradd", "-n", name, "-u", uid, "-g", name, "-d", "/nonexistent", "-s", "/sbin/nologin"]]
    case _ => []
  }

  // ---------------------------------------------------------------------
  // The image configuration

  /** The entrypoint as a list: a text becomes the list of that text. */
  function EntryItems(e: Config.EntryPoint): (items: seq<string>)
    ensures e.EntryText? ==> items == [e.text]
    ensures e.EntryList? ==> items == e.items
  {
    match e
    case EntryText(t) => [t]
    case EntryList(items) => items
  }

  function Quote(x: string): string { "\"" + x + "\"" }

  /** The entrypoint argument: the items double-quoted and comma-joined. */
  function RenderEntrypoint(e: Config.EntryPoint): string {
    var items := EntryItems(e);
    Join(seq(|items|, i requires 0 <= i < |items| => Quote(items[i])), ",")
  }

  /** The quoted items of a rendered entrypoint, read back. */
  function Unquoted(parts: seq<string>): (items: seq<string>)
    ensures |items| == |parts|
  {
    seq(|parts|, i requires 0 <= i < |parts| =>
      if |parts[i]| >= 2 then parts[i][1..|parts[i]| - 1] else parts[i])
  }

  /** A text entrypoint renders as the list of that text, and a list whose
      items have no comma reads back from its rendering. */
  lemma RenderEntrypointSpec(e: Config.EntryPoint)
    requires EntryItems(e) != [] && forall i :: 0 <= i < |EntryItems(e)| ==> ',' !in EntryItems(e)[i]
    ensures RenderEntrypoint(e) == RenderEntrypoint(Config.EntryList(EntryItems(e)))
    ensures Unquoted(Split(RenderEntrypoint(e), ',')) == EntryItems(e)
  {
    var items := EntryItems(e);
    var quoted := seq(|items|, i requires 0 <= i < |items| => Quote(items[i]));
    forall i | 0 <= i < |quoted| ensures ',' !in quoted[i] {
      assert quoted[i] == ['"'] + items[i] + ['"'];
    }
    SplitJoin(quoted, ',');
    assert Split(RenderEntrypoint(e), ',') == quoted;
    forall i | 0 <= i < |items| ensures Unquoted(quoted)[i] == items[i] {
      assert quoted[i] == ['"'] + items[i] + ['"'];
      assert quoted[i][1..|quoted[i]| - 1] == items[i];
    }
  }

  function EntrypointArg(e: Config.EntryPoint): string {
    "--entrypoint=[" + RenderEntrypoint(e) + "]"
  }

  /** The arguments of the `buildah config` call for an architecture. */
  function ConfigArgs(e: Config.EntryPoint, env: seq<(string, string)>, user: Option<User>): (cmd: seq<string>)
    ensures |cmd| == 3 + |env| + (if user.Some? && user.value.name != "" then 1 else 0)
    ensures cmd[0] == "config" && cmd[1] == EntrypointArg(e) && cmd[2] == "--cmd="
    ensures forall i :: 0 <= i < |env| ==> cmd[3 + i] == "--env=" + env[i].0 + "=" + env[i].1
    ensures user.Some? && user.value.name != "" ==> cmd[|cmd| - 1] == "--user=" + user.value.name + ":" + user.value.name
  {
    var head := ["config", EntrypointArg(e), "--cmd="];
    var envs := seq(|env|, i requires 0 <= i < |env| => "--env=" + env[i].0 + "=" + env[i].1);
    head + envs + (if user.Some? && user.value.name != "" then ["--user=" + user.value.name + ":" + user.value.name] else [])
  }

  // ---------------------------------------------------------------------
  // The assets of an architecture

  /** What the build learns from outside: the base image's FreeBSD version
      annotation, `pkg query %v` of a package on an architecture, the text a
      URL version yields (the body, or the `version` group of the regex's
      match), the release `get_release` picks for a repository and a match
      rule (`GitHubLookup`), and what extracting a tarball on an
      architecture reports (the destination of its first executable, or
      the error), and the contents of the ldconfig hints files an
      architecture's package install leaves. */
  datatype Host = Host(
    imageVersion: string -> string,
    pkgVersion: (string, string) -> string,
    fetch: (string, Option<string>) -> Option<string>,
    release: (string, Option<string>) -> Result<(Resolver.Release, string), Resolver.Error>,
    extract: (string, string, seq<FileEntry>) -> Result<Option<string>, string>,
    ldconfigFiles: string -> seq<string>)

  /** `get_release` on the listings of `gh`, with the regular-expression
      engine `e`, as the resolver is written. */
  function GitHubLookup(gh: Resolver.GitHub, e: Resolver.RegexEngine)
    : (string, Option<string>) -> Result<(Resolver.Release, string), Resolver.Error>
  {
    (repo, rule) => Resolver.GetReleaseSpec(gh, repo, rule, e, Resolver.AllTruthy)
  }

  /** `get_version`. */
  function GetVersion(v: Option<VersionSpec>, fetch: (string, Option<string>) -> Option<string>): (r: Option<string>)
    ensures v.None? ==> r.None?
    ensures v.Some? && v.value.VersionText? ==> (r.Some? <==> v.value.text != "") && (r.Some? ==> r.value == v.value.text)
    ensures v.Some? && v.value.VersionUrl? ==> r == fetch(v.value.url, v.value.regex)
  {
    match v
    case None => None
    case Some(VersionText(t)) => if t == "" then None else Some(t)
    case Some(VersionUrl(url, regex)) => fetch(url, regex)
  }

  /** Where the assets of one architecture go. */
  datatype Target = Target(name: string, arch: string, triple: string, pkgs: seq<string>, host: Host)

  /** What the asset loop carries from one asset to the next, and from one
      architecture to the next: the version tag and the entrypoint of the
      configuration. */
  datatype Progress = Progress(tagged: string, entrypoint: Option<Config.EntryPoint>)

  function Tag(name: string, version: string): (t: string)
    ensures t != ""
  {
    Registry + name + ":" + version
  }

  /** A URL formatted with the version (`None` when there is none), the
      architecture and the triple. */
  function FormatUrl(url: string, ver: Option<string>, t: Target): Result<string, ContainerError> {
    match PyFormat.Format(url, map["version" := Package.PyText(ver), "arch" := t.arch, "triple" := t.triple])
    case Err(e) => Err(BadFormat(e))
    case Ok(u) => Ok(u)
  }

  /** The tag after an asset offering `ver`: the first one stays. */
  function KeepTag(tagged: string, ver: Option<string>, name: string): string {
    if Truthy(ver) && tagged == "" then Tag(name, ver.value) else tagged
  }

  /** How a release asset ends: the asset mapping is asked for the download
      URL of the asset whose name matches the glob, and it has none; when no
      name matches, the glob is not found. */
  function ReleaseFailure(a: Asset, t: Target): (e: ContainerError)
    requires Truthy(a.release)
  {
    match t.host.release(a.release.value, a.matchRule)
    case Err(err) => Lookup(err)
    case Ok((rls, _)) =>
      if a.glob.None? then MissingKey("glob")
      else match PyFormat.Format(a.glob.value, map["arch" := t.arch, "triple" := t.triple])
        case Err(err) => BadFormat(err)
        case Ok(g) =>
          if exists i :: 0 <= i < |rls.assets| && Glob.FnMatchCase(AfterLast(rls.assets[i].downloadUrl, '/'), g)
          then NoDownloadUrl
          else NotFound(g, rls.name)
  }

  /** One iteration of the asset loop. A package asset offers the package's
      version and `/usr/local/bin/` with the first package; a file asset
      offers its version and its destination; a tarball offers its version
      and whatever executable the extraction found. A tag or an entrypoint
      already there is kept. */
  function AssetStep(s: Progress, a: Asset, t: Target): (r: Result<Progress, ContainerError>)
    requires a.pkg.Some? ==> t.pkgs != []
  {
    if Truthy(a.pkg) then
      var v := t.host.pkgVersion(t.arch, a.pkg.value);
      Ok(Progress(if s.tagged == "" then Tag(t.name, v) else s.tagged,
                  if s.entrypoint.None? then Some(Config.EntryText("/usr/local/bin/" + t.pkgs[0])) else s.entrypoint))
    else if Truthy(a.file) then
      var ver := GetVersion(a.version, t.host.fetch);
      var url :- FormatUrl(a.file.value, ver, t);
      var dst :- CalculateDst(url, Get(a.dst, "/usr/local/" + t.name + "/"));
      Ok(Progress(KeepTag(s.tagged, ver, t.name), if s.entrypoint.None? then Some(Config.EntryText(dst)) else s.entrypoint))
    else if Truthy(a.release) then
      Err(ReleaseFailure(a, t))
    else if Truthy(a.tarball) then
      var ver := GetVersion(a.version, t.host.fetch);
      var url :- FormatUrl(a.tarball.value, ver, t);
      match t.host.extract(t.arch, url, Get(a.files, [FileEntry("**/" + t.name, None)]))
      case Err(m) => Err(Extraction(m))
      case Ok(found) =>
        Ok(Progress(KeepTag(s.tagged, ver, t.name),
                    if Truthy(found) && s.entrypoint.None? then Some(Config.EntryText(found.value)) else s.entrypoint))
    else Err(UnknownAsset)
  }

  predicate PkgsListed(assets: seq<Asset>, t: Target) {
    forall i :: 0 <= i < |assets| && assets[i].pkg.Some? ==> t.pkgs != []
  }

  /** The asset loop: every asset in order, the first failure ending it. */
  function RunAssets(s: Progress, assets: seq<Asset>, t: Target): Result<Progress, ContainerError>
    requires PkgsListed(assets, t)
    decreases |assets|
  {
    if assets == [] then Ok(s)
    else match AssetStep(s, assets[0], t)
      case Err(e) => Err(e)
      case Ok(s1) => RunAssets(s1, assets[1..], t)
  }

  /** The tag an asset offers, if any. */
  function Offered(a: Asset, name: string, arch: string, host: Host): Option<string> {
    if Truthy(a.pkg) then Some(Tag(name, host.pkgVersion(arch, a.pkg.value)))
    else if Truthy(a.file) || (!Truthy(a.release) && Truthy(a.tarball)) then
      var ver := GetVersion(a.version, host.fetch);
      if Truthy(ver) then Some(Tag(name, ver.value)) else None
    else None
  }

  /** The first tag offered by the assets, or none. */
  function FirstOffered(assets: seq<Asset>, name: string, arch: string, host: Host): string {
    if assets == [] then ""
    else match Offered(assets[0], name, arch, host)
      case Some(tag) => tag
      case None => FirstOffered(assets[1..], name, arch, host)
  }

  /** The tag is set once, by the first asset that offers one; an
      entrypoint, once there, is kept. */
  lemma {:induction false} RunAssetsTag(s: Progress, assets: seq<Asset>, t: Target)
    requires PkgsListed(assets, t) && RunAssets(s, assets, t).Ok?
    ensures RunAssets(s, assets, t).value.tagged == if s.tagged != "" then s.tagged else FirstOffered(assets, t.name, t.arch, t.host)
    ensures s.entrypoint.Some? ==> RunAssets(s, assets, t).value.entrypoint == s.entrypoint
    decreases |assets|
  {
    if assets != [] {
      var s1 := AssetStep(s, assets[0], t).value;
      assert s1.tagged == if s.tagged != "" then s.tagged else Get(Offered(assets[0], t.name, t.arch, t.host), "");
      assert s.entrypoint.Some? ==> s1.entrypoint == s.entrypoint;
      RunAssetsTag(s1, assets[1..], t);
    }
  }

  /** The files a Go container is given produce no image: its one asset is
      a release asset, and every release asset fails. */
  lemma ReleaseAssetFails(s: Progress, a: Asset, t: Target)
    requires !Truthy(a.pkg) && !Truthy(a.file) && Truthy(a.release)
    requires a.pkg.Some? ==> t.pkgs != []
    ensures AssetStep(s, a, t).Err?
    ensures AssetStep(s, a, t).error == NoDownloadUrl || AssetStep(s, a, t).error.NotFound? ||
            AssetStep(s, a, t).error.Lookup? || AssetStep(s, a, t).error.BadFormat? ||
            AssetStep(s, a, t).error == MissingKey("glob")
  {
  }

  /** Whether a release asset's file name, the last part of its download
      URL, matches the glob. */
  predicate NameMatches(f: Resolver.AssetFile, g: string) {
    Glob.FnMatchCase(AfterLast(f.downloadUrl, '/'), g)
  }

  /** What a release asset evidently means to download: the URL of the
      first asset of the release whose file name matches the glob, with the
      version the release lookup gives; the lookup, format and
      missing-glob errors are those of the code as written, and no match
      means the glob is not found. */
  function IntendedReleaseUrl(a: Asset, t: Target): (r: Result<(string, string), ContainerError>)
    requires Truthy(a.release)
    ensures r.Ok? ==> t.host.release(a.release.value, a.matchRule).Ok? && a.glob.Some?
    ensures r.Ok? ==>
      var (rls, ver) := t.host.release(a.release.value, a.matchRule).value;
      var g := PyFormat.Format(a.glob.value, map["arch" := t.arch, "triple" := t.triple]);
      g.Ok? && ver == r.value.1 &&
      exists i :: 0 <= i < |rls.assets| && NameMatches(rls.assets[i], g.value) && rls.assets[i].downloadUrl == r.value.0 &&
        forall j :: 0 <= j < i ==> !NameMatches(rls.assets[j], g.value)
  {
    match t.host.release(a.release.value, a.matchRule)
    case Err(err) => Err(Lookup(err))
    case Ok((rls, ver)) =>
      if a.glob.None? then Err(MissingKey("glob"))
      else match PyFormat.Format(a.glob.value, map["arch" := t.arch, "triple" := t.triple])
        case Err(err) => Err(BadFormat(err))
        case Ok(g) =>
          match FirstWhere(rls.assets, (f: Resolver.AssetFile) => NameMatches(f, g))
          case None => Err(NotFound(g, rls.name))
          case Some(i) => Ok((rls.assets[i].downloadUrl, ver))
  }

  /** The code as written fails with `NoDownloadUrl` exactly where the
      intended lookup finds an asset, and fails as the intended lookup does
      everywhere else. */
  lemma ReleaseUrlAsWritten(a: Asset, t: Target)
    requires Truthy(a.release)
    ensures IntendedReleaseUrl(a, t).Ok? <==> ReleaseFailure(a, t) == NoDownloadUrl
    ensures IntendedReleaseUrl(a, t).Err? ==> IntendedReleaseUrl(a, t).error == ReleaseFailure(a, t)
  {
  }

  /** The asset loop of one architecture. */
  method ConfigureAssets(s0: Progress, assets: seq<Asset>, t: Target) returns (r: Result<Progress, ContainerError>)
    requires PkgsListed(assets, t)
    ensures r == RunAssets(s0, assets, t)
  {
    var s := s0;
    var i := 0;
    while i < |assets|
      invariant 0 <= i <= |assets|
      invariant RunAssets(s0, assets, t) == RunAssets(s, assets[i..], t)
    {
      assert assets[i..][1..] == assets[i + 1..];
      match AssetStep(s, assets[i], t) {
        case Err(e) =>
          return Err(e);
        case Ok(s1) =>
          s := s1;
      }
      i := i + 1;
    }
    return Ok(s);
  }

  // ---------------------------------------------------------------------
  // Architectures

  /** The package assets' names, in order. */
  function PkgNames(assets: seq<Asset>): (names: seq<string>)
    ensures names == [] <==> !HasPkg(assets)
  {
    if assets == [] then []
    else
      var rest := PkgNames(assets[1..]);
      assert HasPkg(assets) <==> assets[0].pkg.Some? || HasPkg(assets[1..]) by {
        if HasPkg(assets[1..]) {
          var i :| 0 <= i < |assets[1..]| && assets[1..][i].pkg.Some?;
          assert assets[i + 1].pkg.Some?;
        }
        if HasPkg(assets) && assets[0].pkg.None? {
          var i :| 0 <= i < |assets| && assets[i].pkg.Some?;
          assert assets[1..][i - 1].pkg.Some?;
        }
      }
      (if assets[0].pkg.Some? then [assets[0].pkg.value] else []) + rest
  }

  /** What an architecture's image is given: its triple, the commands that
      add the user, the packages installed and the ABI and base-release
      minor they are installed with, the directories ldconfig is run over
      (in sorted order; none without packages), and the arguments of
      `buildah config`. */
  datatype Image = Image(arch: string, triple: string, users: seq<seq<string>>, pkgs: seq<string>,
                         abi: Option<(string, string)>, hints: set<string>, config: seq<string>)

  /** The directories the script runs ldconfig over after installing
      packages: the three defaults and every non-empty line of every hints
      file, as it stands (not trimmed, comment lines included). */
  function PyHints(files: seq<string>): (h: set<string>)
    ensures Assets.DefaultHints <= h
    ensures forall i :: 0 <= i < |files| ==> forall x :: x in SplitLines(files[i]) && x != "" ==> x in h
    ensures forall x :: x in h && x !in Assets.DefaultHints ==>
      x != "" && exists i :: 0 <= i < |files| && x in SplitLines(files[i])
  {
    Assets.DefaultHints + set i, x | 0 <= i < |files| && x in SplitLines(files[i]) && x != "" :: x
  }

  /** A line that the Go deployer drops, because it is a comment or starts
      with a space, is a hint for the script. */
  lemma PyKeepsGoDrops(line: string)
    requires line != "" && forall k :: 0 <= k < |line| ==> !IsLineBreak(line[k])
    requires line !in Assets.DefaultHints
    requires !Assets.IsHint(line) || IsGoSpace(line[0])
    ensures line in PyHints([line + "\n"]) && line !in Assets.FileHints([Some(line + "\n")])
  {
    SplitLinesCons(line, "");
    assert line + "\n" + "" == line + "\n";
    assert line in SplitLines(line + "\n");
    PyHintsHas([line + "\n"], 0, line);
    GoDropsHint(line + "\n", line);
  }

  /** Unlike the Go deployer, the script keeps comment lines of a hints
      file. */
  lemma PyHintsKeepComments()
    ensures "#x" in PyHints(["#x\n"]) && "#x" !in Assets.FileHints([Some("#x\n")])
  {
    assert StartsWith("#x", "#");
    PyKeepsGoDrops("#x");
    assert "#x" + "\n" == "#x\n";
  }

  /** Unlike the Go deployer, the script does not trim the lines of a
      hints file. */
  lemma PyHintsUntrimmed()
    ensures " /opt" in PyHints([" /opt\n"]) && " /opt" !in Assets.FileHints([Some(" /opt\n")])
  {
    assert IsGoSpace(" /opt"[0]);
    PyKeepsGoDrops(" /opt");
    assert " /opt" + "\n" == " /opt\n";
  }

  lemma PyHintsHas(files: seq<string>, i: nat, x: string)
    requires i < |files| && x in SplitLines(files[i]) && x != ""
    ensures x in PyHints(files)
  {
  }

  /** A hint the Go deployer finds in no trimmed line of a file is not
      among its hints. */
  lemma GoDropsHint(content: string, x: string)
    requires x !in Assets.DefaultHints
    requires !Assets.IsHint(x) || (x != [] && IsGoSpace(x[0]))
    ensures x !in Assets.FileHints([Some(content)])
  {
    Assets.FileHintsSpec([Some(content)]);
    var ls := Lines(content);
    Assets.LineHintsSpec(ls);
    forall j | 0 <= j < |ls|
      ensures Mapped(ls, TrimSpace)[j] != x || !Assets.IsHint(x)
    {
      var t := TrimSpace(ls[j]);
      assert t == [] || !IsGoSpace(t[0]);
    }
  }

  /** The hints of an architecture: none without packages. */
  function ArchHints(t: Target): set<string> {
    if t.pkgs == [] then {} else PyHints(t.host.ldconfigFiles(t.arch))
  }

  function TargetOf(name: string, arch: string, assets: seq<Asset>, host: Host): (t: Target)
    ensures PkgsListed(assets, t)
  {
    var t := Target(name, arch, Triple(arch), PkgNames(assets), host);
    assert HasPkg(assets) ==> t.pkgs != [];
    t
  }

  /** One architecture: the user, then the packages (whose ABI needs a
      version with a minor) and the ldconfig hints they leave, then the
      assets; the configuration must then
      have an entrypoint, which is kept as a list. */
  function ArchStep(s: Progress, c: ContainerConfig, assets: seq<Asset>, name: string, arch: string, base: string, host: Host)
    : Result<(Progress, Image), ContainerError>
  {
    var t := TargetOf(name, arch, assets, host);
    var user :- UserOf(c.user);
    var abi :- if t.pkgs == [] then Ok(None)
               else match PkgAbi(host.imageVersion(Registry + base), arch)
                 case Err(e) => Err(e)
                 case Ok(v) => Ok(Some(v));
    var s1 :- RunAssets(s, assets, t);
    if s1.entrypoint.None? then Err(MissingKey("entrypoint"))
    else
      var e := Config.EntryList(EntryItems(s1.entrypoint.value));
      Ok((s1.(entrypoint := Some(e)), Image(arch, t.triple, UserCommands(user), t.pkgs, abi, ArchHints(t), ConfigArgs(e, Get(c.env, []), user))))
  }

  /** One architecture's build, as the loop body does it. */
  method BuildArch(s: Progress, c: ContainerConfig, assets: seq<Asset>, name: string, arch: string, base: string, host: Host)
    returns (r: Result<(Progress, Image), ContainerError>)
    ensures r == ArchStep(s, c, assets, name, arch, base, host)
  {
    var t := TargetOf(name, arch, assets, host);
    var user :- UserOf(c.user);
    var abi := None;
    if t.pkgs != [] {
      var v :- PkgAbi(host.imageVersion(Registry + base), arch);
      abi := Some(v);
    }
    var s1 :- ConfigureAssets(s, assets, t);
    if s1.entrypoint.None? {
      return Err(MissingKey("entrypoint"));
    }
    var e := Config.EntryList(EntryItems(s1.entrypoint.value));
    var image := Image(arch, t.triple, UserCommands(user), t.pkgs, abi, ArchHints(t), ConfigArgs(e, Get(c.env, []), user));
    return Ok((s1.(entrypoint := Some(e)), image));
  }

  /** One architecture's step, for the configuration of a build. */
  function ArchFn(c: ContainerConfig, assets: seq<Asset>, name: string, base: string, host: Host)
    : (Progress, string) -> Result<(Progress, Image), ContainerError>
  {
    (s, arch) => ArchStep(s, c, assets, name, arch, base, host)
  }

  /** Every architecture in order, each starting from where the previous
      one left the tag and the entrypoint. */
  function RunArchs(f: (Progress, string) -> Result<(Progress, Image), ContainerError>, s: Progress, archs: seq<string>)
    : Result<(Progress, seq<Image>), ContainerError>
    decreases |archs|
  {
    if archs == [] then Ok((s, []))
    else match f(s, archs[0])
      case Err(e) => Err(e)
      case Ok(step) => Prefix(step.1, RunArchs(f, step.0, archs[1..]))
  }

  function Prefix(image: Image, r: Result<(Progress, seq<Image>), ContainerError>): Result<(Progress, seq<Image>), ContainerError> {
    match r
    case Err(e) => Err(e)
    case Ok((s, images)) => Ok((s, [image] + images))
  }

  /** What a build produces: the manifest, the base image, one image per
      architecture, the version tag (empty when none) and the references it
      pushes to. */
  datatype Build = Build(latest: string, base: string, images: seq<Image>, tagged: string, pushes: seq<string>)

  /** The manifest is pushed as `latest`, and under the tag when there is
      one. */
  function Pushes(latest: string, tagged: string): (refs: seq<string>)
    ensures |refs| == if tagged == "" then 1 else 2
    ensures refs[0] == "docker://" + latest
    ensures tagged != "" ==> refs[1] == "docker://" + tagged
  {
    ["docker://" + latest] + (if tagged == "" then [] else ["docker://" + tagged])
  }

  /** `build_container` for a project, the container's name and the
      version input. */
  function Planned(p: Project, name: string, version: string, host: Host): Result<Build, ContainerError> {
    var c :- SelectConfig(p, name, version);
    if c.assets.None? then Err(MissingKey("assets"))
    else
      var latest := Registry + name + ":latest";
      var base := Base(c, c.assets.value);
      var run :- RunArchs(ArchFn(c, c.assets.value, name, base, host), Progress("", c.entrypoint), Get(p.arch, DefaultArch));
      Ok(Build(latest, base, run.1, run.0.tagged, Pushes(latest, run.0.tagged)))
  }

  /** `build_container`: the configuration, the base image, then every
      architecture in turn. */
  method BuildContainer(p: Project, name: string, version: string, host: Host) returns (r: Result<Build, ContainerError>)
    ensures r == Planned(p, name, version, host)
  {
    var c :- SelectConfig(p, name, version);
    if c.assets.None? {
      return Err(MissingKey("assets"));
    }
    var latest := Registry + name + ":latest";
    var base := Base(c, c.assets.value);
    var run :- BuildArchs(Progress("", c.entrypoint), c, c.assets.value, name, Get(p.arch, DefaultArch), base, host);
    r := Ok(Build(latest, base, run.1, run.0.tagged, Pushes(latest, run.0.tagged)));
  }

  /** The architecture loop. */
  method BuildArchs(s0: Progress, c: ContainerConfig, assets: seq<Asset>, name: string, archs: seq<string>, base: string, host: Host)
    returns (r: Result<(Progress, seq<Image>), ContainerError>)
    ensures r == RunArchs(ArchFn(c, assets, name, base, host), s0, archs)
  {
    var f := ArchFn(c, assets, name, base, host);
    var s := s0;
    var images := [];
    var i := 0;
    assert archs[0..] == archs;
    ShiftNothing(RunArchs(f, s, archs));
    while i < |archs|
      invariant 0 <= i <= |archs|
      invariant RunArchs(f, s0, archs) == Shift(images, RunArchs(f, s, archs[i..]))
    {
      assert archs[i..][1..] == archs[i + 1..];
      var step := BuildArch(s, c, assets, name, archs[i], base, host);
      if step.Err? {
        return Err(step.error);
      }
      ShiftPrefix(images, step.value.1, RunArchs(f, step.value.0, archs[i + 1..]));
      s, images := step.value.0, images + [step.value.1];
      i := i + 1;
    }
    assert archs[i..] == [];
    assert images + [] == images;
    r := Ok((s, images));
  }

  /** The images already built, in front of the rest of the run. */
  function Shift(images: seq<Image>, r: Result<(Progress, seq<Image>), ContainerError>): Result<(Progress, seq<Image>), ContainerError> {
    match r
    case Err(e) => Err(e)
    case Ok((s, rest)) => Ok((s, images + rest))
  }

  lemma ShiftPrefix(images: seq<Image>, image: Image, r: Result<(Progress, seq<Image>), ContainerError>)
    ensures Shift(images, Prefix(image, r)) == Shift(images + [image], r)
  {
    if r.Ok? {
      assert images + ([image] + r.value.1) == images + [image] + r.value.1;
    }
  }

  lemma ShiftNothing(r: Result<(Progress, seq<Image>), ContainerError>)
    ensures Shift([], r) == r
  {
    if r.Ok? {
      assert [] + r.value.1 == r.value.1;
    }
  }

  // ---------------------------------------------------------------------
  // What the build promises

  /** The first tag offered on any architecture, in order. */
  function FirstArchTag(offer: string -> string, archs: seq<string>): string
    decreases |archs|
  {
    if archs == [] then ""
    else if offer(archs[0]) != "" then offer(archs[0])
    else FirstArchTag(offer, archs[1..])
  }

  /** The tag an architecture's assets offer. */
  function OfferOn(assets: seq<Asset>, name: string, host: Host): string -> string {
    arch => FirstOffered(assets, name, arch, host)
  }

  /** A step that sets the tag only when there is none, to what the
      architecture offers. */
  ghost predicate TagsOnce(f: (Progress, string) -> Result<(Progress, Image), ContainerError>, offer: string -> string) {
    forall s: Progress, a: string :: f(s, a).Ok? ==> f(s, a).value.0.tagged == if s.tagged != "" then s.tagged else offer(a)
  }

  /** A step that leaves an entrypoint, the one it configures, and the one
      it found when there was one. */
  ghost predicate KeepsEntrypoint(f: (Progress, string) -> Result<(Progress, Image), ContainerError>) {
    forall s: Progress, a: string :: f(s, a).Ok? ==>
      var r := f(s, a).value;
      && r.0.entrypoint.Some? && |r.1.config| >= 3 && r.1.config[1] == EntrypointArg(r.0.entrypoint.value)
      && (s.entrypoint.Some? ==> EntrypointArg(r.0.entrypoint.value) == EntrypointArg(s.entrypoint.value))
  }

  lemma {:induction false} RunArchsTag(f: (Progress, string) -> Result<(Progress, Image), ContainerError>, offer: string -> string,
                                       s: Progress, archs: seq<string>)
    requires TagsOnce(f, offer) && RunArchs(f, s, archs).Ok?
    ensures RunArchs(f, s, archs).value.0.tagged == if s.tagged != "" then s.tagged else FirstArchTag(offer, archs)
    decreases |archs|
  {
    if archs != [] {
      var step := f(s, archs[0]).value;
      RunArchsTag(f, offer, step.0, archs[1..]);
    }
  }

  lemma {:induction false} RunArchsEntrypoint(f: (Progress, string) -> Result<(Progress, Image), ContainerError>, s: Progress, archs: seq<string>)
    requires KeepsEntrypoint(f) && RunArchs(f, s, archs).Ok?
    ensures var images := RunArchs(f, s, archs).value.1;
      s.entrypoint.Some? ==> forall i :: 0 <= i < |images| ==> |images[i].config| >= 3 && images[i].config[1] == EntrypointArg(s.entrypoint.value)
    ensures var images := RunArchs(f, s, archs).value.1;
      forall i :: 0 <= i < |images| ==> |images[i].config| >= 3
    ensures var images := RunArchs(f, s, archs).value.1;
      forall i, j :: 0 <= i < |images| && 0 <= j < |images| ==> images[i].config[1] == images[j].config[1]
    decreases |archs|
  {
    if archs != [] {
      var step := f(s, archs[0]).value;
      RunArchsEntrypoint(f, step.0, archs[1..]);
      var rest := RunArchs(f, step.0, archs[1..]).value.1;
      assert RunArchs(f, s, archs).value.1 == [step.1] + rest;
    }
  }

  /** What one architecture leaves behind: the assets' tag, and their
      entrypoint as a list, which is the one its configuration gets. */
  lemma ArchStepSpec(s: Progress, c: ContainerConfig, assets: seq<Asset>, name: string, arch: string, base: string, host: Host)
    requires ArchStep(s, c, assets, name, arch, base, host).Ok?
    ensures var t := TargetOf(name, arch, assets, host);
      var step := ArchStep(s, c, assets, name, arch, base, host).value;
      && RunAssets(s, assets, t).Ok? && RunAssets(s, assets, t).value.entrypoint.Some?
      && step.0.tagged == RunAssets(s, assets, t).value.tagged
      && step.0.entrypoint == Some(Config.EntryList(EntryItems(RunAssets(s, assets, t).value.entrypoint.value)))
      && |step.1.config| >= 3 && step.1.config[1] == EntrypointArg(RunAssets(s, assets, t).value.entrypoint.value)
      && step.1.hints == (if PkgNames(assets) == [] then {} else PyHints(host.ldconfigFiles(arch)))
  {
    var t := TargetOf(name, arch, assets, host);
    var user := UserOf(c.user).value;
    var s1 := RunAssets(s, assets, t).value;
    var e := Config.EntryList(EntryItems(s1.entrypoint.value));
    assert EntryItems(e) == EntryItems(s1.entrypoint.value);
    var step := ArchStep(s, c, assets, name, arch, base, host).value;
    assert step.1.config == ConfigArgs(e, Get(c.env, []), user);
  }

  /** The step of a build sets the tag once. */
  lemma ArchFnTags(c: ContainerConfig, assets: seq<Asset>, name: string, base: string, host: Host)
    ensures TagsOnce(ArchFn(c, assets, name, base, host), OfferOn(assets, name, host))
  {
    var f := ArchFn(c, assets, name, base, host);
    forall s: Progress, a: string | f(s, a).Ok?
      ensures f(s, a).value.0.tagged == if s.tagged != "" then s.tagged else OfferOn(assets, name, host)(a)
    {
      ArchStepSpec(s, c, assets, name, a, base, host);
      RunAssetsTag(s, assets, TargetOf(name, a, assets, host));
    }
  }

  /** The step of a build keeps the entrypoint. */
  lemma ArchFnKeeps(c: ContainerConfig, assets: seq<Asset>, name: string, base: string, host: Host)
    ensures KeepsEntrypoint(ArchFn(c, assets, name, base, host))
  {
    var f := ArchFn(c, assets, name, base, host);
    forall s: Progress, a: string | f(s, a).Ok?
      ensures var r := f(s, a).value;
        && r.0.entrypoint.Some? && |r.1.config| >= 3 && r.1.config[1] == EntrypointArg(r.0.entrypoint.value)
        && (s.entrypoint.Some? ==> EntrypointArg(r.0.entrypoint.value) == EntrypointArg(s.entrypoint.value))
    {
      ArchStepSpec(s, c, assets, name, a, base, host);
      RunAssetsTag(s, assets, TargetOf(name, a, assets, host));
      var e := RunAssets(s, assets, TargetOf(name, a, assets, host)).value.entrypoint.value;
      assert EntryItems(Config.EntryList(EntryItems(e))) == EntryItems(e);
    }
  }

  /** A planned build is the run of its architectures. */
  lemma PlannedRun(p: Project, name: string, version: string, host: Host)
    requires Planned(p, name, version, host).Ok?
    ensures SelectConfig(p, name, version).Ok? && SelectConfig(p, name, version).value.assets.Some?
    ensures var c := SelectConfig(p, name, version).value;
      var base := Base(c, c.assets.value);
      var run := RunArchs(ArchFn(c, c.assets.value, name, base, host), Progress("", c.entrypoint), Get(p.arch, DefaultArch));
      var latest := Registry + name + ":latest";
      run.Ok? && Planned(p, name, version, host).value == Build(latest, base, run.value.1, run.value.0.tagged, Pushes(latest, run.value.0.tagged))
  {
  }

  /** The image is tagged with the version of the first asset, on the
      first architecture, that offers one; it is pushed under that tag as
      well as `latest`, and only under `latest` when no asset offers one. */
  lemma PlannedTag(p: Project, name: string, version: string, host: Host, c: ContainerConfig)
    requires SelectConfig(p, name, version) == Ok(c) && c.assets.Some?
    requires Planned(p, name, version, host).Ok?
    ensures Planned(p, name, version, host).value.tagged == FirstArchTag(OfferOn(c.assets.value, name, host), Get(p.arch, DefaultArch))
    ensures Planned(p, name, version, host).value.pushes[0] == "docker://" + Registry + name + ":latest"
    ensures Planned(p, name, version, host).value.tagged != "" <==> |Planned(p, name, version, host).value.pushes| == 2
  {
    PlannedRun(p, name, version, host);
    var base := Base(c, c.assets.value);
    ArchFnTags(c, c.assets.value, name, base, host);
    RunArchsTag(ArchFn(c, c.assets.value, name, base, host), OfferOn(c.assets.value, name, host),
                Progress("", c.entrypoint), Get(p.arch, DefaultArch));
  }

  /** Every architecture's image gets the same entrypoint. */
  lemma PlannedEntrypoint(p: Project, name: string, version: string, host: Host, c: ContainerConfig)
    requires SelectConfig(p, name, version) == Ok(c) && c.assets.Some?
    requires Planned(p, name, version, host).Ok?
    ensures var images := Planned(p, name, version, host).value.images;
      forall i :: 0 <= i < |images| ==> |images[i].config| >= 3
    ensures var images := Planned(p, name, version, host).value.images;
      forall i, j :: 0 <= i < |images| && 0 <= j < |images| ==> images[i].config[1] == images[j].config[1]
  {
    PlannedRun(p, name, version, host);
    var base := Base(c, c.assets.value);
    ArchFnKeeps(c, c.assets.value, name, base, host);
    RunArchsEntrypoint(ArchFn(c, c.assets.value, name, base, host), Progress("", c.entrypoint), Get(p.arch, DefaultArch));
  }

  /** A `container` mapping whose only keys are ones the model does not
      read is still chosen over a `go` section, and then has no `assets`. */
  lemma OtherKeysOnlyMissAssets(p: Project, name: string, version: string, host: Host)
    requires p.container.Some? && p.container.value.otherKeys != {} && p.container.value.assets.None?
    ensures Planned(p, name, version, host) == Err(MissingKey("assets"))
  {
  }

  /** A Go project's container, as the script synthesizes it, is never
      built for any architecture: the release asset it is given fails. */
  lemma GoContainerFails(p: Project, name: string, version: string, host: Host)
    requires !(p.container.Some? && NonEmptyConfig(p.container.value)) && p.go.Some?
    requires Get(p.arch, DefaultArch) != []
    ensures Planned(p, name, version, host).Err?
  {
    var r := SelectConfig(p, name, version);
    if r.Ok? {
      var c := r.value;
      var archs := Get(p.arch, DefaultArch);
      var a := c.assets.value[0];
      assert c.assets.value == [a];
      var t := TargetOf(name, archs[0], [a], host);
      assert Truthy(a.release) by {
        assert Binaries[0] == 'c';
      }
      assert AssetStep(Progress("", c.entrypoint), a, t).Err?;
      assert RunAssets(Progress("", c.entrypoint), [a], t).Err?;
    }
  }
}
