/** The top-level job matrix (matrix.py): one entry per requested project,
    with the Go packages at the revision of the project's chosen release and
    the containers to build.

    The GitHub listings are an input (`Resolver.GitHub`) and the regular
    expression engine is a parameter (`Resolver.RegexEngine`); the fixed
    expression `v?(.+)` is modelled exactly. */
module Matrix {
  import opened Common
  import Resolver
  import opened BuilderMatrix

  /** Why `get_release` reports a failure and exits. */
  datatype Failure =
    | BadRegex(regex: string)
    | NoGroupOne(regex: string)
    | NoReleaseMatching(regex: string)
    | NoLatestRelease(repo: string)
    | UnableToDetermine(tag: string)

  /** What ends the script: an unknown repository (raised before the
      `try`), a reported failure, or a missing key of the file. */
  datatype Error = NoSuchRepo(repo: string) | Failed(failure: Failure) | KeyMissing(key: string)

  // ---------------------------------------------------------------------
  // The version of the latest release: re.search("v?(.+)", tag)

  /** What `.+` takes from index `i` on: everything up to the first line
      break (`.` does not match a newline). */
  function LineFrom(s: string, i: nat): (r: string)
    requires i <= |s|
    ensures i + |r| <= |s| && r == s[i..i + |r|] && '\n' !in r
    ensures i + |r| == |s| || s[i + |r|] == '\n'
    decreases |s| - i
  {
    if i == |s| || s[i] == '\n' then ""
    else [s[i]] + LineFrom(s, i + 1)
  }

  /** Group 1 of the first match of `v?(.+)` at index `i` or later: an
      optional `v` is taken only when a character other than a newline
      follows it. */
  function SearchV(tag: string, i: nat): Option<string>
    requires i <= |tag|
    decreases |tag| - i
  {
    if i == |tag| then None
    else if tag[i] == 'v' && i + 1 < |tag| && tag[i + 1] != '\n' then Some(LineFrom(tag, i + 1))
    else if tag[i] != '\n' then Some(LineFrom(tag, i))
    else SearchV(tag, i + 1)
  }

  function LatestVersion(tag: string): Option<string> {
    SearchV(tag, 0)
  }

  lemma LineFromPlain(s: string, i: nat)
    requires i <= |s| && '\n' !in s[i..]
    ensures LineFrom(s, i) == s[i..]
  {
  }

  /** On a tag without line breaks: a tag of two or more characters that
      starts with `v` loses exactly that `v`, any other non-empty tag is its
      own version, and the empty tag has none. */
  lemma LatestVersionPlain(tag: string)
    requires '\n' !in tag
    ensures tag == "" ==> LatestVersion(tag) == None
    ensures |tag| >= 2 && tag[0] == 'v' ==> LatestVersion(tag) == Some(tag[1..])
    ensures tag != "" && !(|tag| >= 2 && tag[0] == 'v') ==> LatestVersion(tag) == Some(tag)
  {
    if tag != "" {
      if |tag| >= 2 && tag[0] == 'v' {
        assert tag[1] in tag;
        LineFromPlain(tag, 1);
      } else {
        assert tag[0] in tag;
        LineFromPlain(tag, 0);
        assert tag[0..] == tag;
      }
    }
  }

  /** There is a version exactly when the tag holds something other than
      line breaks, and then it is a non-empty text of a single line. */
  lemma {:induction false} SearchVSpec(tag: string, i: nat)
    requires i <= |tag|
    ensures SearchV(tag, i).None? <==> forall j :: i <= j < |tag| ==> tag[j] == '\n'
    ensures SearchV(tag, i).Some? ==> SearchV(tag, i).value != "" && '\n' !in SearchV(tag, i).value
    decreases |tag| - i
  {
    if i < |tag| {
      if tag[i] == 'v' && i + 1 < |tag| && tag[i + 1] != '\n' {
        assert LineFrom(tag, i + 1)[0] == tag[i + 1];
      } else if tag[i] != '\n' {
        assert LineFrom(tag, i)[0] == tag[i];
      } else {
        SearchVSpec(tag, i + 1);
      }
    }
  }

  // ---------------------------------------------------------------------
  // get_release

  /** The scan of the releases for a regex: prereleases are passed over;
      the first release whose tag the regex finds a match in gives its tag
      and group 1, which is `None` exactly when that group took no part in
      the match. Python compiles the regex at the first search, so a regex
      that does not compile fails only if some release is not a prerelease. */
  function Scan(rs: seq<Resolver.Release>, regex: string, e: Resolver.RegexEngine): Result<(string, Option<string>), Failure> {
    if rs == [] then Err(NoReleaseMatching(regex))
    else if rs[0].prerelease then Scan(rs[1..], regex, e)
    else if !e.compiles(regex) then Err(BadRegex(regex))
    else match e.search(regex, rs[0].tagName)
      case None => Scan(rs[1..], regex, e)
      case Some(m) => if m.numbered == [] then Err(NoGroupOne(regex)) else Ok((rs[0].tagName, m.numbered[0]))
  }

  /** `get_release(gh, repo, regex)`: the tag and version of the first
      release that matches a non-empty regex, else those of the latest
      release. */
  function GetReleaseSpec(gh: Resolver.GitHub, repo: string, regex: Option<string>, e: Resolver.RegexEngine): Result<(string, Option<string>), Error> {
    if repo !in gh.repos then Err(NoSuchRepo(repo))
    else if regex.Some? && regex.value != "" then
      match Scan(gh.repos[repo].releases, regex.value, e)
      case Err(f) => Err(Failed(f))
      case Ok(found) => Ok(found)
    else
      match gh.repos[repo].latest
      case None => Err(Failed(NoLatestRelease(repo)))
      case Some(rls) =>
        match LatestVersion(rls.tagName)
        case None => Err(Failed(UnableToDetermine(rls.tagName)))
        case Some(v) => Ok((rls.tagName, Some(v)))
  }

  /** `get_release`, with its loop that sets the tag and version and breaks,
      and the `else` of the loop for a scan that does not break. */
  method GetRelease(gh: Resolver.GitHub, repo: string, regex: Option<string>, e: Resolver.RegexEngine)
    returns (r: Result<(string, Option<string>), Error>)
    ensures r == GetReleaseSpec(gh, repo, regex, e)
  {
    if repo !in gh.repos {
      return Err(NoSuchRepo(repo));
    }
    var listing := gh.repos[repo];
    var tag: string, version: Option<string> := "", None;
    if regex.Some? && regex.value != "" {
      var rs := listing.releases;
      var found := false;
      var i := 0;
      while i < |rs|
        invariant 0 <= i <= |rs|
        invariant Scan(rs, regex.value, e) == Scan(rs[i..], regex.value, e)
        invariant !found
      {
        var rls := rs[i];
        assert rs[i..][1..] == rs[i + 1..];
        if rls.prerelease {
          i := i + 1;
          continue;
        }
        if !e.compiles(regex.value) {
          return Err(Failed(BadRegex(regex.value)));
        }
        var m := e.search(regex.value, rls.tagName);
        if m.Some? {
          if m.value.numbered == [] {
            return Err(Failed(NoGroupOne(regex.value)));
          }
          tag := rls.tagName;
          version := m.value.numbered[0];
          found := true;
          assert Scan(rs, regex.value, e) == Ok((tag, version));
          break;
        }
        i := i + 1;
      }
      if !found {
        return Err(Failed(NoReleaseMatching(regex.value)));
      }
    } else {
      if listing.latest.None? {
        return Err(Failed(NoLatestRelease(repo)));
      }
      tag := listing.latest.value.tagName;
      var m := LatestVersion(tag);
      if m.None? {
        return Err(Failed(UnableToDetermine(tag)));
      }
      version := m;
    }
    r := Ok((tag, version));
  }

  /** A release the scan goes past: a prerelease, or a tag the regex finds
      nothing in. */
  predicate Skipped(rls: Resolver.Release, regex: string, e: Resolver.RegexEngine) {
    rls.prerelease || (e.compiles(regex) && e.search(regex, rls.tagName).None?)
  }

  /** The scan stops at the first release it does not go past: a regex that
      does not compile fails there, a match gives that release's tag and
      its group 1. */
  lemma {:induction false} ScanFirst(rs: seq<Resolver.Release>, regex: string, e: Resolver.RegexEngine, i: nat)
    requires i < |rs| && !Skipped(rs[i], regex, e)
    requires forall j :: 0 <= j < i ==> Skipped(rs[j], regex, e)
    ensures !e.compiles(regex) ==> Scan(rs, regex, e) == Err(BadRegex(regex))
    ensures e.compiles(regex) ==>
      var m := e.search(regex, rs[i].tagName).value;
      Scan(rs, regex, e) == if m.numbered == [] then Err(NoGroupOne(regex)) else Ok((rs[i].tagName, m.numbered[0]))
  {
    if i > 0 {
      assert forall j :: 0 <= j < i - 1 ==> rs[1..][j] == rs[j + 1];
      ScanFirst(rs[1..], regex, e, i - 1);
    }
  }

  /** A scan that goes past every release fails for want of a match. */
  lemma {:induction false} ScanNone(rs: seq<Resolver.Release>, regex: string, e: Resolver.RegexEngine)
    requires forall j :: 0 <= j < |rs| ==> Skipped(rs[j], regex, e)
    ensures Scan(rs, regex, e) == Err(NoReleaseMatching(regex))
  {
    if rs != [] {
      assert forall j :: 0 <= j < |rs| - 1 ==> rs[1..][j] == rs[j + 1];
      ScanNone(rs[1..], regex, e);
    }
  }

  /** The scan stops at index `i` with `found`: the release there is not a
      prerelease, the regex matches its tag with a group 1 that is the
      version found, and every earlier release is gone past. */
  ghost predicate Hit(rs: seq<Resolver.Release>, regex: string, e: Resolver.RegexEngine, i: int, found: (string, Option<string>)) {
    && 0 <= i < |rs| && !rs[i].prerelease && e.compiles(regex)
    && e.search(regex, rs[i].tagName).Some? && e.search(regex, rs[i].tagName).value.numbered != []
    && found == (rs[i].tagName, e.search(regex, rs[i].tagName).value.numbered[0])
    && forall j :: 0 <= j < i ==> Skipped(rs[j], regex, e)
  }

  /** What a successful scan found: a release that is not a prerelease,
      whose tag the regex matched, after releases it went past. */
  lemma {:induction false} ScanFound(rs: seq<Resolver.Release>, regex: string, e: Resolver.RegexEngine)
    ensures Scan(rs, regex, e).Ok? ==> exists i :: Hit(rs, regex, e, i, Scan(rs, regex, e).value)
  {
    if rs != [] && Scan(rs, regex, e).Ok? {
      if !Skipped(rs[0], regex, e) {
        assert Hit(rs, regex, e, 0, Scan(rs, regex, e).value);
      } else {
        ScanFound(rs[1..], regex, e);
        var i :| Hit(rs[1..], regex, e, i, Scan(rs[1..], regex, e).value);
        assert rs[i + 1] == rs[1..][i];
        assert forall j :: 1 <= j < i + 1 ==> rs[j] == rs[1..][j - 1];
        assert Hit(rs, regex, e, i + 1, Scan(rs, regex, e).value);
      }
    }
  }

  // ---------------------------------------------------------------------
  // The matrix

  /** One entry of the matrix. `version` is `None` when the key is not set
      and `Some(None)` when it is set to `None` (a group 1 that took no
      part in the match). */
  datatype MatrixEntry = MatrixEntry(project: string, version: Option<Option<string>>, packages: Option<seq<GoJob>>, containers: Option<seq<string>>)

  /** The entry of one project: a Go project has its version, one job per
      package in sorted order at the release's tag, and its packages with a
      container; a container-only project is its own container; any other
      project has just its name. A name the file lacks, a `go` section
      without `repo` or `packages` and a failed `get_release` end the
      script. */
  ghost function EntryFor(name: string, y: map<string, Project>, gh: Resolver.GitHub, e: Resolver.RegexEngine): (r: Result<MatrixEntry, Error>)
    ensures r.Ok? ==> r.value.project == name
  {
    if name !in y then Err(KeyMissing(name))
    else match y[name].go
      case Some(go) =>
        if go.repo.None? then Err(KeyMissing("repo"))
        else (match GetReleaseSpec(gh, go.repo.value, go.regex, e)
          case Err(err) => Err(err)
          case Ok((tag, version)) =>
            if go.packages.None? then Err(KeyMissing("packages"))
            else
              var keys := SortedSet(go.packages.value.Keys);
              var containers := WithContainer(keys, go.packages.value);
              Ok(MatrixEntry(name, Some(version), Some(Jobs(go.repo.value, tag, Get(go.cgo, false), keys)),
                             if containers == [] then None else Some(containers))))
      case None =>
        Ok(MatrixEntry(name, None, None, if y[name].container then Some([name]) else None))
  }

  ghost function EntryOf(y: map<string, Project>, gh: Resolver.GitHub, e: Resolver.RegexEngine): string -> Result<MatrixEntry, Error> {
    n => EntryFor(n, y, gh, e)
  }

  /** The projects requested: all of them when the input is empty. */
  function Projects(input: string): string {
    if input == "" then "all" else input
  }

  /** `main()`: the entries of the requested projects, in name order. */
  ghost function Matrix(y: map<string, Project>, gh: Resolver.GitHub, e: Resolver.RegexEngine, input: string): Result<seq<MatrixEntry>, Error> {
    MapResults(Names(Projects(input), y.Keys), EntryOf(y, gh, e))
  }

  /** `main()`, appending one entry per project. */
  method RunMatrix(y: map<string, Project>, gh: Resolver.GitHub, e: Resolver.RegexEngine, input: string)
    returns (r: Result<seq<MatrixEntry>, Error>)
    ensures r == Matrix(y, gh, e, input)
  {
    var projects := if input == "" then "all" else input;
    var names := SortedNames(projects, y.Keys);
    r := ListProjects(names, y, gh, e);
  }

  /** The project loop of `main()`. */
  method ListProjects(names: seq<string>, y: map<string, Project>, gh: Resolver.GitHub, e: Resolver.RegexEngine)
    returns (r: Result<seq<MatrixEntry>, Error>)
    ensures r == MapResults(names, EntryOf(y, gh, e))
  {
    ghost var f := EntryOf(y, gh, e);
    var matrix: seq<MatrixEntry> := [];
    for i := 0 to |names|
      invariant MapResults(names[..i], f) == Ok(matrix)
    {
      var entry := ProjectEntry(names[i], y, gh, e);
      assert entry == f(names[i]);
      if entry.Err? {
        assert names[..i + 1][..i] == names[..i];
        MapResultsFailsFrom(names, i + 1, f);
        return Err(entry.error);
      }
      MapResultsStep(names, i, f, matrix);
      matrix := matrix + [entry.value];
    }
    assert names[..|names|] == names;
    r := Ok(matrix);
  }

  /** The body of the project loop for one name. */
  method ProjectEntry(name: string, y: map<string, Project>, gh: Resolver.GitHub, e: Resolver.RegexEngine)
    returns (r: Result<MatrixEntry, Error>)
    ensures r == EntryFor(name, y, gh, e)
  {
    if name !in y {
      return Err(KeyMissing(name));
    }
    var config := y[name];
    var project := MatrixEntry(name, None, None, None);
    var packages: Option<seq<GoJob>> := None;
    var containers: Option<seq<string>> := None;
    if config.go.Some? {
      var go := config.go.value;
      if go.repo.None? {
        return Err(KeyMissing("repo"));
      }
      var found := GetRelease(gh, go.repo.value, go.regex, e);
      if found.Err? {
        return Err(found.error);
      }
      var (tag, version) := found.value;
      project := project.(version := Some(version));
      if go.packages.None? {
        return Err(KeyMissing("packages"));
      }
      var keys := SortedKeys(go.packages.value.Keys);
      SortedUnique(keys, SortedSet(go.packages.value.Keys));
      packages := Some(Jobs(go.repo.value, tag, Get(go.cgo, false), keys));
      containers := Some(WithContainer(keys, go.packages.value));
    } else if config.container {
      containers := Some([name]);
    }
    if packages.Some? {
      project := project.(packages := packages);
    }
    if containers.Some? && containers.value != [] {
      project := project.(containers := containers);
    }
    r := Ok(project);
  }

  // ---------------------------------------------------------------------
  // What the matrix promises

  /** The matrix lists the requested projects in sorted order, each once:
      an empty input asks for every project of the file. */
  lemma MatrixProjects(y: map<string, Project>, gh: Resolver.GitHub, e: Resolver.RegexEngine, input: string)
    ensures var r := Matrix(y, gh, e, input);
      r.Ok? ==> |r.value| == |Names(Projects(input), y.Keys)| && forall i :: 0 <= i < |r.value| ==> r.value[i].project == Names(Projects(input), y.Keys)[i]
    ensures input == "" ==> Names(Projects(input), y.Keys) == SortedSet(y.Keys)
  {
    MapResultsSpec(Names(Projects(input), y.Keys), EntryOf(y, gh, e));
  }

  /** The entry of a Go project: the version `get_release` found, and one
      job per package in sorted order at its tag, with `cgo` false unless
      set. */
  lemma GoEntryJobs(name: string, y: map<string, Project>, gh: Resolver.GitHub, e: Resolver.RegexEngine, tag: string, version: Option<string>)
    requires name in y && y[name].go.Some?
    requires var go := y[name].go.value; go.repo.Some? && go.packages.Some? && GetReleaseSpec(gh, go.repo.value, go.regex, e) == Ok((tag, version))
    ensures var go := y[name].go.value;
      var r := EntryFor(name, y, gh, e);
      && r.Ok? && r.value.version == Some(version) && r.value.packages.Some?
      && |r.value.packages.value| == |go.packages.value|
      && forall i :: 0 <= i < |go.packages.value| ==>
           r.value.packages.value[i] == GoJob(go.repo.value, tag, Get(go.cgo, false), SortedSet(go.packages.value.Keys)[i])
  {
    var go := y[name].go.value;
    var keys := SortedSet(go.packages.value.Keys);
    var containers := WithContainer(keys, go.packages.value);
    assert EntryFor(name, y, gh, e) == Ok(MatrixEntry(name, Some(version), Some(Jobs(go.repo.value, tag, Get(go.cgo, false), keys)),
                                                       if containers == [] then None else Some(containers)));
  }

  /** The containers of a Go project: the packages that have a container,
      in sorted order, listed only when there are any. */
  lemma GoEntryContainers(name: string, y: map<string, Project>, gh: Resolver.GitHub, e: Resolver.RegexEngine, tag: string, version: Option<string>)
    requires name in y && y[name].go.Some?
    requires var go := y[name].go.value; go.repo.Some? && go.packages.Some? && GetReleaseSpec(gh, go.repo.value, go.regex, e) == Ok((tag, version))
    ensures var go := y[name].go.value;
      var r := EntryFor(name, y, gh, e);
      && r.Ok?
      && (r.value.containers.Some? <==> exists k :: k in go.packages.value && go.packages.value[k].container)
      && (r.value.containers.Some? ==>
            && Sorted(r.value.containers.value)
            && forall k :: k in r.value.containers.value <==> k in go.packages.value && go.packages.value[k].container)
  {
    var go := y[name].go.value;
    var keys := SortedSet(go.packages.value.Keys);
    var containers := WithContainer(keys, go.packages.value);
    assert EntryFor(name, y, gh, e) == Ok(MatrixEntry(name, Some(version), Some(Jobs(go.repo.value, tag, Get(go.cgo, false), keys)),
                                                       if containers == [] then None else Some(containers)));
    WithContainerSpec(keys, go.packages.value);
    WithContainerEmpty(keys, go.packages.value);
  }

  /** Any other project never fails: a container-only project is its own
      container, and a project of unknown type is listed by name alone. */
  lemma OtherEntry(name: string, y: map<string, Project>, gh: Resolver.GitHub, e: Resolver.RegexEngine)
    requires name in y && y[name].go.None?
    ensures EntryFor(name, y, gh, e) ==
      Ok(MatrixEntry(name, None, None, if y[name].container then Some([name]) else None))
  {
  }
}
