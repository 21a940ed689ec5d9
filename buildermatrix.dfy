/** The job matrix of the builder (builder/matrix.py): one entry per
    requested project of `projects.yaml`, naming the Go packages still to be
    released and the containers to build.

    `projects.yaml` is read as the records below, the releases of
    cynix/freebsd-containers are an input listing, and `get_release` is a
    parameter: the builder passes its own resolver (`Resolver.GetReleaseSpec`
    for the engine and truthiness in use). */
module BuilderMatrix {
  import opened Common
  import Resolver

  // ---------------------------------------------------------------------
  // projects.yaml

  /** A package of a `go` section: whether its mapping has a `container` key. */
  datatype GoPackage = GoPackage(container: bool)

  /** A `go` section, with the keys the matrix scripts read; `None` for a
      missing key. builder/matrix.py reads `match`, matrix.py reads `regex`. */
  datatype GoSection = GoSection(
    repo: Option<string>,
    matchRule: Option<string>,
    regex: Option<string>,
    cgo: Option<bool>,
    packages: Option<map<string, GoPackage>>)

  /** A project: its `go` section when it has a non-empty one (an absent or
      empty section is false to Python's `if`), and whether it has a
      `container` key. */
  datatype Project = Project(go: Option<GoSection>, container: bool)

  /** A release of cynix/freebsd-containers: its name and prerelease flag. */
  datatype ContainerRelease = ContainerRelease(name: string, prerelease: bool)

  // ---------------------------------------------------------------------
  // The matrix

  /** A job building one Go package at a revision. */
  datatype GoJob = GoJob(repo: string, ref: string, cgo: bool, package: string)

  /** One entry of the matrix; a key the script does not set is `None`. The
      `packages` and `containers` lists are the values it hands to
      `json.dumps`. */
  datatype Entry = Entry(project: string, version: Option<string>, packages: Option<seq<GoJob>>, containers: Option<seq<string>>)

  datatype MatrixError =
    | MissingKey(key: string)
    | Lookup(cause: Resolver.Error)
    | UnknownProjectType

  /** `get_release(gh, repo, match)`: the release and its version. */
  type ReleaseLookup = (string, Option<string>) -> Result<(Resolver.Release, string), Resolver.Error>

  /** The names of the releases that are not prereleases, in listing order. */
  function Published(rs: seq<ContainerRelease>): (names: seq<string>)
    ensures forall x :: x in names <==> exists i :: 0 <= i < |rs| && !rs[i].prerelease && rs[i].name == x
  {
    if rs == [] then []
    else
      var rest := Published(rs[1..]);
      assert forall i :: 1 <= i < |rs| ==> rs[i] == rs[1..][i - 1];
      if rs[0].prerelease then rest else [rs[0].name] + rest
  }

  /** The names a comma-separated request names: its parts, stripped, as a
      set. */
  function Requested(projects: string): set<string> {
    set p | p in Split(projects, ',') :: PyStrip(p)
  }

  /** The projects to list, in sorted order and each once: every project
      of the file for `"all"`, else the requested names. */
  ghost function Names(projects: string, keys: set<string>): (names: seq<string>)
    ensures Sorted(names)
    ensures forall x :: x in names <==> if projects == "all" then x in keys else x in Requested(projects)
  {
    SortedSet(if projects == "all" then keys else Requested(projects))
  }

  method SortedNames(projects: string, keys: set<string>) returns (names: seq<string>)
    ensures names == Names(projects, keys)
  {
    var s := if projects == "all" then keys else Requested(projects);
    names := SortedKeys(s);
    SortedUnique(names, SortedSet(s));
  }

  /** The name of a project's container release for a version. */
  function ReleaseName(name: string, version: string): string {
    name + "-v" + version
  }

  /** The keys, in order, of the packages that have a container. */
  function WithContainer(keys: seq<string>, packages: map<string, GoPackage>): seq<string> {
    if keys == [] then []
    else (if keys[0] in packages && packages[keys[0]].container then [keys[0]] else []) + WithContainer(keys[1..], packages)
  }

  /** Exactly the keys with a container; sorted keys give a sorted list. */
  lemma {:induction false} WithContainerSpec(keys: seq<string>, packages: map<string, GoPackage>)
    ensures forall x :: x in WithContainer(keys, packages) <==> x in keys && x in packages && packages[x].container
    ensures Sorted(keys) ==> Sorted(WithContainer(keys, packages))
  {
    if keys != [] {
      var rest := keys[1..];
      WithContainerSpec(rest, packages);
      assert keys == [keys[0]] + rest;
      if Sorted(keys) {
        assert Sorted(rest);
        var ws := WithContainer(rest, packages);
        forall j | 0 <= j < |ws|
          ensures StrLess(keys[0], ws[j])
        {
          assert ws[j] in ws;
          var m :| 0 <= m < |rest| && rest[m] == ws[j];
          assert keys[m + 1] == ws[j];
        }
      }
    }
  }

  /** The list is empty exactly when no key has a container. */
  lemma WithContainerEmpty(keys: seq<string>, packages: map<string, GoPackage>)
    ensures WithContainer(keys, packages) != [] <==> exists k :: k in keys && k in packages && packages[k].container
  {
    WithContainerSpec(keys, packages);
    var w := WithContainer(keys, packages);
    if w != [] {
      assert w[0] in w;
    }
    if k :| k in keys && k in packages && packages[k].container {
      assert k in w;
    }
  }

  /** The jobs of the packages, one per key in order. */
  function Jobs(repo: string, ref: string, cgo: bool, keys: seq<string>): seq<GoJob> {
    seq(|keys|, i requires 0 <= i < |keys| => GoJob(repo, ref, cgo, keys[i]))
  }

  /** The entry of one project, or the failure that ends the script:
      a name the file lacks, a `go` section without `repo` or `packages`,
      a failed release lookup, and a project that is neither Go nor
      container-only. */
  ghost function EntryFor(name: string, y: map<string, Project>, published: seq<string>, release: ReleaseLookup): (r: Result<Entry, MatrixError>)
    ensures r.Ok? ==> r.value.project == name
  {
    if name !in y then Err(MissingKey(name))
    else match y[name].go
      case Some(go) =>
        if go.repo.None? then Err(MissingKey("repo"))
        else (match release(go.repo.value, go.matchRule)
          case Err(e) => Err(Lookup(e))
          case Ok((rls, version)) =>
            if go.packages.None? then Err(MissingKey("packages"))
            else
              var keys := SortedSet(go.packages.value.Keys);
              var jobs := if ReleaseName(name, version) in published then None
                else Some(Jobs(go.repo.value, rls.tagName, Get(go.cgo, false), keys));
              var containers := WithContainer(keys, go.packages.value);
              Ok(Entry(name, Some(version), jobs, if containers == [] then None else Some(containers))))
      case None =>
        if y[name].container then Ok(Entry(name, None, None, Some([name])))
        else Err(UnknownProjectType)
  }

  function Get<T>(o: Option<T>, default: T): T {
    match o
    case None => default
    case Some(v) => v
  }

  /** The entry function of a file, a published listing and a lookup. */
  ghost function EntryOf(y: map<string, Project>, published: seq<string>, release: ReleaseLookup): string -> Result<Entry, MatrixError> {
    n => EntryFor(n, y, published, release)
  }

  /** `matrix()`: the entries of the requested projects, in name order. */
  ghost function Matrix(y: map<string, Project>, releases: seq<ContainerRelease>, projects: string, release: ReleaseLookup): Result<seq<Entry>, MatrixError> {
    MapResults(Names(projects, y.Keys), EntryOf(y, Published(releases), release))
  }

  /** `matrix()`, appending one entry per project as the script does; a
      failing project ends it. */
  method BuildMatrix(y: map<string, Project>, releases: seq<ContainerRelease>, projects: string, release: ReleaseLookup)
    returns (r: Result<seq<Entry>, MatrixError>)
    ensures r == Matrix(y, releases, projects, release)
  {
    var names := SortedNames(projects, y.Keys);
    r := ListProjects(names, y, Published(releases), release);
  }

  /** The project loop of `matrix()`. */
  method ListProjects(names: seq<string>, y: map<string, Project>, published: seq<string>, release: ReleaseLookup)
    returns (r: Result<seq<Entry>, MatrixError>)
    ensures r == MapResults(names, EntryOf(y, published, release))
  {
    ghost var f := EntryOf(y, published, release);
    var matrix: seq<Entry> := [];
    for i := 0 to |names|
      invariant MapResults(names[..i], f) == Ok(matrix)
    {
      var entry := ProjectEntry(names[i], y, published, release);
      assert entry == f(names[i]);
      if entry.Err? {
        assert names[..i + 1][..i] == names[..i];
        MapResultsFailsFrom(names, i + 1, f);
        return Err(entry.error);
      }
      MapResultsStep(names, i, f, matrix);
      matrix := matrix + [entry.value];
    }
    assert names[..|names|] == names;
    r := Ok(matrix);
  }

  /** The body of the project loop for one name. */
  method ProjectEntry(name: string, y: map<string, Project>, published: seq<string>, release: ReleaseLookup)
    returns (r: Result<Entry, MatrixError>)
    ensures r == EntryFor(name, y, published, release)
  {
    if name !in y {
      return Err(MissingKey(name));
    }
    var config := y[name];
    var project := Entry(name, None, None, None);
    var packages: Option<seq<GoJob>> := None;
    var containers: seq<string> := [];
    if config.go.Some? {
      var go := config.go.value;
      if go.repo.None? {
        return Err(MissingKey("repo"));
      }
      var found := release(go.repo.value, go.matchRule);
      if found.Err? {
        return Err(Lookup(found.error));
      }
      var (rls, version) := found.value;
      project := project.(version := Some(version));
      if go.packages.None? {
        return Err(MissingKey("packages"));
      }
      var keys := SortedKeys(go.packages.value.Keys);
      SortedUnique(keys, SortedSet(go.packages.value.Keys));
      if ReleaseName(name, version) !in published {
        packages := Some(Jobs(go.repo.value, rls.tagName, Get(go.cgo, false), keys));
      }
      containers := WithContainer(keys, go.packages.value);
    } else if config.container {
      containers := [name];
    } else {
      return Err(UnknownProjectType);
    }
    if packages.Some? {
      project := project.(packages := packages);
    }
    if containers != [] {
      project := project.(containers := Some(containers));
    }
    r := Ok(project);
  }

  // ---------------------------------------------------------------------
  // What the matrix promises

  /** The matrix lists the requested projects in sorted order: all of the
      file's for `"all"`, else the stripped requested names. */
  lemma MatrixProjects(y: map<string, Project>, releases: seq<ContainerRelease>, projects: string, release: ReleaseLookup)
    ensures var r := Matrix(y, releases, projects, release);
      r.Ok? ==> |r.value| == |Names(projects, y.Keys)| && forall i :: 0 <= i < |r.value| ==> r.value[i].project == Names(projects, y.Keys)[i]
  {
    MapResultsSpec(Names(projects, y.Keys), EntryOf(y, Published(releases), release));
  }

  /** The entry of a Go project: its version, and the package jobs exactly
      when its container release for that version is not yet published, one
      per package in sorted order, at the release's tag, with `cgo` false
      unless set. */
  lemma GoEntryJobs(name: string, y: map<string, Project>, releases: seq<ContainerRelease>, release: ReleaseLookup)
    requires name in y && y[name].go.Some?
    requires var go := y[name].go.value; go.repo.Some? && go.packages.Some? && release(go.repo.value, go.matchRule).Ok?
    ensures var go := y[name].go.value;
      var (rls, version) := release(go.repo.value, go.matchRule).value;
      var r := EntryFor(name, y, Published(releases), release);
      && r.Ok? && r.value.version == Some(version)
      && (r.value.packages.Some? <==> forall i :: 0 <= i < |releases| && releases[i].name == ReleaseName(name, version) ==> releases[i].prerelease)
      && (r.value.packages.Some? ==>
            && |r.value.packages.value| == |go.packages.value|
            && forall i :: 0 <= i < |go.packages.value| ==>
                 r.value.packages.value[i] == GoJob(go.repo.value, rls.tagName, Get(go.cgo, false), SortedSet(go.packages.value.Keys)[i]))
  {
    var go := y[name].go.value;
    var (rls, version) := release(go.repo.value, go.matchRule).value;
    var keys := SortedSet(go.packages.value.Keys);
    var published := Published(releases);
    var jobs := if ReleaseName(name, version) in published then None
      else Some(Jobs(go.repo.value, rls.tagName, Get(go.cgo, false), keys));
    var containers := WithContainer(keys, go.packages.value);
    assert EntryFor(name, y, published, release) == Ok(Entry(name, Some(version), jobs, if containers == [] then None else Some(containers)));
  }

  /** The containers of a Go project: the packages that have a container,
      in sorted order, listed only when there are any. */
  lemma GoEntryContainers(name: string, y: map<string, Project>, published: seq<string>, release: ReleaseLookup)
    requires name in y && y[name].go.Some?
    requires var go := y[name].go.value; go.repo.Some? && go.packages.Some? && release(go.repo.value, go.matchRule).Ok?
    ensures var go := y[name].go.value;
      var r := EntryFor(name, y, published, release);
      && r.Ok?
      && (r.value.containers.Some? <==> exists k :: k in go.packages.value && go.packages.value[k].container)
      && (r.value.containers.Some? ==>
            && Sorted(r.value.containers.value)
            && forall k :: k in r.value.containers.value <==> k in go.packages.value && go.packages.value[k].container)
  {
    var go := y[name].go.value;
    var (rls, version) := release(go.repo.value, go.matchRule).value;
    var keys := SortedSet(go.packages.value.Keys);
    var jobs := if ReleaseName(name, version) in published then None
      else Some(Jobs(go.repo.value, rls.tagName, Get(go.cgo, false), keys));
    var containers := WithContainer(keys, go.packages.value);
    assert EntryFor(name, y, published, release) == Ok(Entry(name, Some(version), jobs, if containers == [] then None else Some(containers)));
    WithContainerSpec(keys, go.packages.value);
    WithContainerEmpty(keys, go.packages.value);
  }

  /** The entry of any other project: a container-only project is its own
      single container; a project with neither a `go` section nor a
      `container` is a failure, and so is a name the file lacks. */
  lemma OtherEntry(name: string, y: map<string, Project>, published: seq<string>, release: ReleaseLookup)
    ensures name !in y ==> EntryFor(name, y, published, release) == Err(MissingKey(name))
    ensures name in y && y[name].go.None? ==>
      EntryFor(name, y, published, release) == if y[name].container then Ok(Entry(name, None, None, Some([name]))) else Err(UnknownProjectType)
  {
  }
}
