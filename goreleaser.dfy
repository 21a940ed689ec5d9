/** The `.goreleaser.yaml` document that both Go build scripts write, up to
    its list of builds. */
module Goreleaser {
  import opened Common

  const NameTemplate := "{{ .ProjectName }}-{{ .Version }}-{{ .Os }}_{{ .Arch }}{{ with .Arm }}v{{ . }}{{ end }}{{ with .Mips }}_{{ . }}{{ end }}{{ if not (eq .Amd64 \"v1\") }}{{ .Amd64 }}{{ end }}"

  /** The linker flags every build gets after its own. */
  const FixedLdflags: seq<string> := ["-buildid=", "-extldflags=-static", "-s", "-w"]

  datatype Archive = Archive(formats: seq<string>, nameTemplate: string, files: seq<string>)

  /** The document: `before` is `None` when the key is absent. */
  datatype Document<B> = Document(
    version: int,
    projectName: string,
    dist: string,
    archives: seq<Archive>,
    releaseDisabled: bool,
    before: Option<seq<string>>,
    builds: seq<B>)

  /** The document before any build is added: a single tar.gz archive of
      the given files, releasing disabled, and `before` hooks only when
      there are some. */
  function Header<B>(name: string, files: seq<string>, before: seq<string>): (d: Document<B>)
    ensures d.projectName == name && d.version == 2 && d.dist == "../dist" && d.releaseDisabled
    ensures d.archives == [Archive(["tar.gz"], NameTemplate, files)]
    ensures d.before.Some? <==> before != []
    ensures d.before.Some? ==> d.before.value == before
    ensures d.builds == []
  {
    var d := Document(2, name, "../dist", [Archive(["tar.gz"], NameTemplate, files)], true, None, []);
    if |before| != 0 then d.(before := Some(before)) else d
  }

  /** The build targets, `freebsd_{arch}` for each architecture in order. */
  function Targets(archs: seq<string>): (t: seq<string>)
    ensures |t| == |archs|
    ensures forall i :: 0 <= i < |archs| ==> t[i] == "freebsd_" + archs[i]
  {
    seq(|archs|, i requires 0 <= i < |archs| => "freebsd_" + archs[i])
  }
}
