/** The Cargo project of the Go build tool: filling in a project's defaults
    (`Hydrate`) and turning it into the job listing of its packages (`Job`). */
module Cargo {
  import opened Common

  /** `RustConfig` (manifest, profile, features) together with `Files`: the
      settings of one package, and the project-wide defaults. */
  datatype CargoConfig = CargoConfig(manifest: string, profile: string, features: seq<string>, files: seq<string>)

  /** A package's container settings. Their own `Hydrate` is not part of this
      model; it is the `hydrate` parameter below. */
  datatype ContainerConfig = ContainerConfig(assets: seq<string>, settings: map<string, string>)

  /** `CargoPackage`; `container` is `None` where the Go field is nil. */
  datatype CargoPackage = CargoPackage(config: CargoConfig, binaries: seq<string>, container: Option<ContainerConfig>)

  const EmptyConfig := CargoConfig("", "", [], [])
  const EmptyPackage := CargoPackage(EmptyConfig, [], None)
  const DefaultArch: seq<string> := ["amd64", "arm64"]
  const DefaultFiles: seq<string> := ["COPYING*", "LICENSE*"]

  /** `CargoConfig.Hydrate(defaults)`: every empty field takes the default's
      value; manifest, profile and files then fall back to fixed values. */
  function HydrateConfig(c: CargoConfig, d: CargoConfig): (r: CargoConfig)
    ensures c.manifest != "" ==> r.manifest == c.manifest
    ensures c.profile != "" ==> r.profile == c.profile
    ensures c.features != [] ==> r.features == c.features
    ensures c.files != [] ==> r.files == c.files
    ensures c.manifest == "" ==> r.manifest == if d.manifest != "" then d.manifest else "Cargo.toml"
    ensures c.profile == "" ==> r.profile == if d.profile != "" then d.profile else "release"
    ensures c.features == [] ==> r.features == d.features
    ensures c.files == [] ==> r.files == if d.files != [] then d.files else DefaultFiles
    ensures r.manifest != "" && r.profile != "" && r.files != []
  {
    var manifest := if c.manifest != "" then c.manifest else if d.manifest != "" then d.manifest else "Cargo.toml";
    var profile := if c.profile != "" then c.profile else if d.profile != "" then d.profile else "release";
    var features := if |c.features| != 0 then c.features else d.features;
    var files := if |c.files| != 0 then c.files else if |d.files| != 0 then d.files else DefaultFiles;
    CargoConfig(manifest, profile, features, files)
  }

  /** Hydrating twice with the same defaults changes nothing more. */
  lemma HydrateConfigIdempotent(c: CargoConfig, d: CargoConfig)
    ensures HydrateConfig(HydrateConfig(c, d), d) == HydrateConfig(c, d)
  {
    var r := HydrateConfig(c, d);
    assert r.features == [] ==> d.features == [];
  }

  /** One iteration of the package loop of `CargoProject.Hydrate`. The asset
      that the loop passes to `slices.Insert` is lost, because the result of
      the call is discarded, so the container is only hydrated. */
  function HydratePackage(k: string, v: CargoPackage, d: CargoConfig, cd: ContainerConfig,
                          hydrate: (ContainerConfig, ContainerConfig) -> ContainerConfig): CargoPackage {
    var binaries := if |v.binaries| == 0 then [k] else v.binaries;
    var container := match v.container case None => None case Some(c) => Some(hydrate(c, cd));
    CargoPackage(HydrateConfig(v.config, d), binaries, container)
  }

  /** The packages after `Hydrate`: one empty package named after the
      project when there are none, then every package hydrated. */
  function Hydrated(packages: map<string, CargoPackage>, name: string, d: CargoConfig, cd: ContainerConfig,
                    hydrate: (ContainerConfig, ContainerConfig) -> ContainerConfig): map<string, CargoPackage> {
    var base := if |packages| == 0 then map[name := EmptyPackage] else packages;
    map k | k in base :: HydratePackage(k, base[k], d, cd, hydrate)
  }

  /** What `Hydrate` promises for each package: the keys are kept (or are
      the project alone), each package has at least one binary, its own key
      when it had none, its settings hydrated, and it keeps its container
      exactly when it had one. */
  lemma HydratedProperties(packages: map<string, CargoPackage>, name: string, d: CargoConfig, cd: ContainerConfig,
                           hydrate: (ContainerConfig, ContainerConfig) -> ContainerConfig, k: string)
    ensures var r := Hydrated(packages, name, d, cd, hydrate);
      k in r <==> (if |packages| == 0 then k == name else k in packages)
    ensures var r := Hydrated(packages, name, d, cd, hydrate);
      k in r ==>
        var v := if |packages| == 0 then EmptyPackage else packages[k];
        && r[k].binaries != []
        && r[k].binaries == (if v.binaries == [] then [k] else v.binaries)
        && r[k].config == HydrateConfig(v.config, d)
        && r[k].container.Some? == v.container.Some?
        && (v.container.Some? ==> r[k].container.value == hydrate(v.container.value, cd))
  {
  }

  /** The binaries and settings of a hydrated project are left as they are
      by a second `Hydrate`. */
  lemma HydratedTwice(packages: map<string, CargoPackage>, name: string, d: CargoConfig, cd: ContainerConfig,
                      hydrate: (ContainerConfig, ContainerConfig) -> ContainerConfig, k: string)
    requires k in Hydrated(packages, name, d, cd, hydrate)
    ensures var once := Hydrated(packages, name, d, cd, hydrate);
      var twice := Hydrated(once, name, d, cd, hydrate);
      k in twice && twice[k].binaries == once[k].binaries && twice[k].config == once[k].config
  {
    var once := Hydrated(packages, name, d, cd, hydrate);
    assert |once| != 0 by {
      assert k in once.Keys;
    }
    var v := if |packages| == 0 then EmptyPackage else packages[k];
    HydrateConfigIdempotent(v.config, d);
  }

  /** A package job of the listing. */
  datatype PackageJob = PackageJob(package: string, builder: string, repo: string, ref: string)

  /** The job listing of a project. */
  datatype ProjectJob = ProjectJob(project: string, version: string, packages: seq<PackageJob>, containers: seq<string>)

  /** What `Source.RefVersion` returns: the revision, the version and the
      error. Its lookup is not part of this model. */
  datatype RefVersion = RefVersion(ref: string, version: string, err: Option<string>)

  /** `CargoProject`, with the fields of the embedded `PackageProject` and
      `BaseProject` that `Hydrate` and `Job` use. */
  class CargoProject {
    var name: string
    var arch: seq<string>
    var packages: map<string, CargoPackage>
    const builder: string
    const repo: string
    const defaults: CargoConfig
    const containerDefaults: ContainerConfig

    constructor(arch: seq<string>, packages: map<string, CargoPackage>, builder: string, repo: string,
                defaults: CargoConfig, containerDefaults: ContainerConfig)
      ensures this.name == "" && this.arch == arch && this.packages == packages
      ensures this.builder == builder && this.repo == repo
      ensures this.defaults == defaults && this.containerDefaults == containerDefaults
    {
      this.name := "";
      this.arch := arch;
      this.packages := packages;
      this.builder := builder;
      this.repo := repo;
      this.defaults := defaults;
      this.containerDefaults := containerDefaults;
    }

    /** `CargoProject.Hydrate(name)`. */
    method Hydrate(name: string, hydrate: (ContainerConfig, ContainerConfig) -> ContainerConfig)
      modifies this`name, this`arch, this`packages
      ensures this.name == name
      ensures arch == if old(arch) == [] then DefaultArch else old(arch)
      ensures packages == Hydrated(old(packages), name, defaults, containerDefaults, hydrate)
    {
      this.name := name;
      if |arch| == 0 {
        arch := DefaultArch;
      }
      packages := HydratePackages(packages, name, defaults, containerDefaults, hydrate);
    }

    /** `CargoProject.Job`: a failed revision lookup ends the job before any
      package is listed; otherwise one job per package, in sorted key order,
      all with the project's builder and repository and the revision found,
      and the sorted keys of the packages that have a container. */
    method Job(rv: RefVersion) returns (j: ProjectJob, err: Option<string>)
      ensures j.project == name && j.version == rv.version && err == rv.err
      ensures err.Some? ==> j.packages == [] && j.containers == []
      ensures err.None? ==> |j.packages| == |packages.Keys|
      ensures err.None? ==> forall i :: 0 <= i < |j.packages| ==>
        j.packages[i] == PackageJob(SortedSet(packages.Keys)[i], builder, repo, rv.ref)
      ensures err.None? ==> Sorted(j.containers)
      ensures err.None? ==> forall x :: x in j.containers <==> x in packages && packages[x].container.Some?
    {
      j := ProjectJob(name, rv.version, [], []);
      err := rv.err;
      if err.Some? {
        return;
      }
      var keys := SortedKeys(packages.Keys);
      SortedUnique(keys, SortedSet(packages.Keys));
      var jobs, containers := ListPackages(keys, packages, builder, repo, rv.ref);
      WithContainerSpec(keys, packages);
      j := j.(packages := jobs, containers := containers);
    }
  }

  /** The package loop of `Job`. */
  method ListPackages(keys: seq<string>, packages: map<string, CargoPackage>, builder: string, repo: string, ref: string)
    returns (jobs: seq<PackageJob>, containers: seq<string>)
    requires forall i :: 0 <= i < |keys| ==> keys[i] in packages
    ensures |jobs| == |keys| && forall i :: 0 <= i < |keys| ==> jobs[i] == PackageJob(keys[i], builder, repo, ref)
    ensures containers == WithContainer(keys, packages)
  {
    jobs, containers := [], [];
    for i := 0 to |keys|
      invariant |jobs| == i && forall m :: 0 <= m < i ==> jobs[m] == PackageJob(keys[m], builder, repo, ref)
      invariant containers == WithContainer(keys[..i], packages)
    {
      assert keys[..i + 1][..i] == keys[..i];
      jobs := jobs + [PackageJob(keys[i], builder, repo, ref)];
      if packages[keys[i]].container.Some? {
        containers := containers + [keys[i]];
      }
    }
    assert keys[..|keys|] == keys;
  }

  /** The keys, in order, whose packages have a container. */
  function WithContainer(keys: seq<string>, packages: map<string, CargoPackage>): seq<string> {
    if keys == [] then []
    else
      var k := keys[|keys| - 1];
      WithContainer(keys[..|keys| - 1], packages) + (if k in packages && packages[k].container.Some? then [k] else [])
  }

  /** Exactly the keys with a container, in the order of the keys. */
  lemma {:induction false} WithContainerSpec(keys: seq<string>, packages: map<string, CargoPackage>)
    ensures forall x :: x in WithContainer(keys, packages) <==> x in keys && x in packages && packages[x].container.Some?
    ensures Sorted(keys) ==> Sorted(WithContainer(keys, packages))
  {
    if keys != [] {
      var front, k := keys[..|keys| - 1], keys[|keys| - 1];
      WithContainerSpec(front, packages);
      assert keys == front + [k];
      if Sorted(keys) {
        var cs := WithContainer(front, packages);
        assert Sorted(front);
        forall a | 0 <= a < |cs|
          ensures StrLess(cs[a], k)
        {
          assert cs[a] in front;
          var m :| 0 <= m < |front| && front[m] == cs[a];
          assert keys[m] == cs[a];
        }
      }
    }
  }

  /** The package part of `Hydrate`. */
  method HydratePackages(packages: map<string, CargoPackage>, name: string, d: CargoConfig, cd: ContainerConfig,
                         hydrate: (ContainerConfig, ContainerConfig) -> ContainerConfig) returns (r: map<string, CargoPackage>)
    ensures r == Hydrated(packages, name, d, cd, hydrate)
  {
    r := packages;
    if |r| == 0 {
      r := map[name := EmptyPackage];
    }
    ghost var base := r;
    r := FillEach(r, (k, v) => HydratePackage(k, v, d, cd, hydrate));
    assert r == map k | k in base :: HydratePackage(k, base[k], d, cd, hydrate);
  }
}
