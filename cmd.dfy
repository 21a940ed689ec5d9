/** The command wrapper of the Go builder (build/utils/cmd.go): a command
    line with extra environment, optionally run inside the FreeBSD cross
    toolchain container, whose captured output is read line by line.
    Starting processes, looking up `docker`, the working directory and the
    current user are inputs to the model. */
module Commands {
  import opened Common

  /** The parts of `exec.Cmd` the wrapper touches. `args` starts with the
      command name, as `exec.Command` sets it. */
  datatype Process = Process(path: string, args: seq<string>, env: seq<string>, dir: string)

  /** The account `user.Current` reports. */
  datatype User = User(username: string, uid: string, gid: string)

  /** What the machine answers when a command runs. */
  datatype Host = Host(
    docker: Option<string>,               // `exec.LookPath("docker")`
    getwd: Option<string>,                // `os.Getwd()`
    user: Option<User>,                   // `user.Current()`
    environ: seq<string>,                 // `os.Environ()`
    exec: Process -> Option<string>)      // the process's standard output, or `None` when it fails

  datatype CmdError = NoDocker | NoWorkingDirectory | NoUser | Failed(process: Process)

  const Image := "ghcr.io/cynix/dockcross-freebsd:latest"

  /** The `docker run` arguments that precede the environment. */
  function DockerFlags(cwd: string, u: User): (r: seq<string>)
    ensures |r| == 8
  {
    ["run", "--rm", "--pull=always", "--volume=" + cwd + ":/work",
     "--env=BUILDER_USER=" + u.username, "--env=BUILDER_GROUP=" + u.username,
     "--env=BUILDER_UID=" + u.uid, "--env=BUILDER_GID=" + u.gid]
  }

  /** One `--env=` argument per extra environment entry, in order. */
  function EnvFlags(env: seq<string>): (r: seq<string>)
    ensures |r| == |env| && forall i :: 0 <= i < |env| ==> r[i] == "--env=" + env[i]
  {
    seq(|env|, i requires 0 <= i < |env| => "--env=" + env[i])
  }

  /** The arguments of a cross run: the docker flags, the environment,
      the image and the command name, then the command's own arguments. */
  function CrossArgs(cwd: string, u: User, env: seq<string>, name: string, args: seq<string>): seq<string> {
    DockerFlags(cwd, u) + EnvFlags(env) + [Image, name] + args
  }

  /** Where each part of a cross run's arguments sits. */
  lemma CrossArgsLayout(cwd: string, u: User, env: seq<string>, name: string, args: seq<string>)
    ensures var r := CrossArgs(cwd, u, env, name, args);
      |r| == 10 + |env| + |args| &&
      r[..8] == DockerFlags(cwd, u) &&
      (forall i :: 0 <= i < |env| ==> r[8 + i] == "--env=" + env[i]) &&
      r[8 + |env|] == Image && r[9 + |env|] == name &&
      r[10 + |env|..] == args
  {
    var r := CrossArgs(cwd, u, env, name, args);
    var front := DockerFlags(cwd, u) + EnvFlags(env);
    assert r == front + [Image, name] + args;
    assert r[..8] == front[..8] == DockerFlags(cwd, u);
    forall i | 0 <= i < |env|
      ensures r[8 + i] == "--env=" + env[i]
    {
      assert r[8 + i] == front[8 + i];
    }
  }

  /** With the arguments `exec.Command` set up, the command name comes
      twice: once as the container's command and once as the original
      first argument. */
  lemma CrossNameTwice(cwd: string, u: User, env: seq<string>, name: string, rest: seq<string>)
    ensures var r := CrossArgs(cwd, u, env, name, [name] + rest);
      r[9 + |env|] == name && r[10 + |env|] == name && r[0] == "run"
  {
    CrossArgsLayout(cwd, u, env, name, [name] + rest);
  }

  /** `Cmd.run` before the process starts: the process as it will be
      started, or the error that stops it. */
  function Prepare(p: Process, cross: bool, name: string, host: Host): (r: (Process, Option<CmdError>))
    ensures !cross ==> r.1.None? && r.0.args == p.args && r.0.path == p.path && r.0.dir == p.dir
    ensures !cross ==> r.0.env == if p.env == [] then [] else host.environ + p.env
    ensures cross ==> r.0.env == p.env
    ensures cross && r.1.None? ==> host.docker.Some? && host.user.Some? && r.0.path == host.docker.value && r.0.dir == ""
    ensures cross && r.1.None? ==> p.dir != "" || host.getwd.Some?
    ensures cross && r.1.None? ==>
      r.0.args == CrossArgs(if p.dir != "" then p.dir else host.getwd.value, host.user.value, p.env, name, p.args)
  {
    if !cross then
      (if |p.env| > 0 then p.(env := host.environ + p.env) else p, None)
    else
      match host.docker
      case None => (p.(path := ""), Some(NoDocker))
      case Some(docker) =>
        var q := p.(path := docker, dir := "");
        if p.dir == "" && host.getwd.None? then (q, Some(NoWorkingDirectory))
        else
          var cwd := if p.dir != "" then p.dir else host.getwd.value;
          match host.user
          case None => (q, Some(NoUser))
          case Some(u) => (q.(args := CrossArgs(cwd, u, p.env, name, p.args)), None)
  }

  /** The lines `Each` hands to its callback, starting at index `i`: each
      line in order until the callback answers `false` for one. */
  function Yielded(lines: seq<string>, keep: (int, string) -> bool, i: nat): seq<string>
    decreases |lines|
  {
    if lines == [] then []
    else if !keep(i, lines[0]) then [lines[0]]
    else [lines[0]] + Yielded(lines[1..], keep, i + 1)
  }

  /** The callback sees a prefix of the lines, at least one when there are
      any; it said `true` to every line but the last it saw, and `false` to
      that one when lines were left. */
  lemma {:induction false} YieldedSpec(lines: seq<string>, keep: (int, string) -> bool, i: nat)
    ensures var r := Yielded(lines, keep, i);
      |r| <= |lines| && r == lines[..|r|] && (lines != [] ==> r != []) &&
      (forall k :: 0 <= k < |r| - 1 ==> keep(i + k, r[k])) &&
      (|r| < |lines| ==> !keep(i + |r| - 1, r[|r| - 1]))
    decreases |lines|
  {
    if lines != [] && keep(i, lines[0]) {
      YieldedSpec(lines[1..], keep, i + 1);
      var r := Yielded(lines, keep, i);
      var t := Yielded(lines[1..], keep, i + 1);
      assert r == [lines[0]] + t;
      forall k | 0 <= k < |r| - 1
        ensures keep(i + k, r[k])
      {
        if k > 0 {
          assert r[k] == t[k - 1];
        }
      }
      if |r| < |lines| {
        assert r[|r| - 1] == t[|t| - 1];
      }
    }
  }

  /** A callback that always goes on sees every line. */
  lemma {:induction false} YieldedAll(lines: seq<string>, keep: (int, string) -> bool, i: nat)
    requires forall k, s :: keep(k, s)
    ensures Yielded(lines, keep, i) == lines
    decreases |lines|
  {
    if lines != [] {
      YieldedAll(lines[1..], keep, i + 1);
    }
  }

  /** A callback that stops at once sees only the first line. */
  lemma YieldedFirst(lines: seq<string>, keep: (int, string) -> bool, i: nat)
    requires forall k, s :: !keep(k, s)
    ensures Yielded(lines, keep, i) == if lines == [] then [] else [lines[0]]
  {
  }

  /** `utils.Cmd`. */
  class Cmd {
    const name: string
    var process: Process
    var cross: bool
    var buffer: string      // the captured standard output
    var capture: bool       // whether standard output still goes to the buffer

    /** `utils.Command`. */
    constructor(name: string, args: seq<string>)
      ensures this.name == name && process == Process(name, [name] + args, [], "")
      ensures !cross && buffer == "" && capture
    {
      this.name := name;
      process := Process(name, [name] + args, [], "");
      cross := false;
      buffer := "";
      capture := true;
    }

    /** `Cmd.In`. */
    method In(cwd: string)
      modifies this`process
      ensures process == old(process).(dir := cwd)
    {
      process := process.(dir := cwd);
    }

    /** `Cmd.WithEnv`: the entries are added after the ones already there. */
    method WithEnv(env: seq<string>)
      modifies this`process
      ensures process == old(process).(env := old(process).env + env)
    {
      process := process.(env := process.env + env);
    }

    /** `Cmd.Cross`. */
    method Cross(arch: string)
      modifies this`cross, this`process
      ensures cross
      ensures process == old(process).(env := old(process).env + if arch != "" then ["FREEBSD_ARCH=" + arch] else [])
    {
      cross := true;
      if arch != "" {
        WithEnv(["FREEBSD_ARCH=" + arch]);
      }
    }

    /** `Cmd.run`: prepares the process and starts it; captured output is
        added to the buffer. */
    method Exec(host: Host) returns (err: Option<CmdError>)
      modifies this`process, this`buffer
      ensures process == Prepare(old(process), cross, name, host).0
      ensures Prepare(old(process), cross, name, host).1.Some? ==>
        err == Prepare(old(process), cross, name, host).1 && buffer == old(buffer)
      ensures Prepare(old(process), cross, name, host).1.None? ==>
        match host.exec(process)
        case None => err == Some(Failed(process)) && buffer == old(buffer)
        case Some(out) => err.None? && buffer == old(buffer) + if capture then out else ""
    {
      if cross {
        if host.docker.None? {
          process := process.(path := "");
          return Some(NoDocker);
        }
        process := process.(path := host.docker.value);
        var cwd := process.dir;
        process := process.(dir := "");
        if cwd == "" {
          if host.getwd.None? {
            return Some(NoWorkingDirectory);
          }
          cwd := host.getwd.value;
        }
        if host.user.None? {
          return Some(NoUser);
        }
        var u := host.user.value;
        var args := DockerFlags(cwd, u);
        for i := 0 to |process.env|
          invariant args == DockerFlags(cwd, u) + EnvFlags(process.env[..i])
        {
          assert EnvFlags(process.env[..i + 1]) == EnvFlags(process.env[..i]) + ["--env=" + process.env[i]];
          args := args + ["--env=" + process.env[i]];
        }
        assert process.env[..|process.env|] == process.env;
        args := args + [Image, name];
        process := process.(args := args + process.args);
      } else if |process.env| > 0 {
        process := process.(env := host.environ + process.env);
      }
      var out := host.exec(process);
      if out.None? {
        return Some(Failed(process));
      }
      if capture {
        buffer := buffer + out.value;
      }
      err := None;
    }

    /** `Cmd.Run`: the output goes to the terminal, not to the buffer. */
    method Run(host: Host) returns (err: Option<CmdError>)
      modifies this`process, this`buffer, this`capture
      ensures !capture && buffer == old(buffer)
      ensures process == Prepare(old(process), cross, name, host).0
      ensures Prepare(old(process), cross, name, host).1.Some? ==> err == Prepare(old(process), cross, name, host).1
      ensures Prepare(old(process), cross, name, host).1.None? ==>
        err == if host.exec(process).None? then Some(Failed(process)) else None
    {
      capture := false;
      err := Exec(host);
    }

    /** `Cmd.Each`: runs the command, then hands the trimmed non-empty lines
        of the captured output to `keep` with their index among those
        lines, stopping after the first `false`. A failed run yields
        nothing. */
    method Each(host: Host, keep: (int, string) -> bool) returns (err: Option<CmdError>, yielded: seq<string>)
      modifies this`process, this`buffer
      ensures process == Prepare(old(process), cross, name, host).0
      ensures err.Some? ==> yielded == [] && buffer == old(buffer)
      ensures err.None? ==> yielded == Yielded(OutputLines(buffer), keep, 0)
      ensures err == None <==>
        Prepare(old(process), cross, name, host).1.None? && host.exec(process).Some?
    {
      err := Exec(host);
      yielded := [];
      if err.None? {
        yielded := YieldLines(Lines(buffer), keep);
      }
    }

    /** `Cmd.First`: the first trimmed non-empty output line, or `""`. */
    method First(host: Host) returns (first: string, err: Option<CmdError>)
      modifies this`process, this`buffer
      ensures process == Prepare(old(process), cross, name, host).0
      ensures err.None? ==> first == if OutputLines(buffer) == [] then "" else OutputLines(buffer)[0]
      ensures err.Some? ==> first == ""
    {
      var stop := (k: int, s: string) => false;
      var yielded;
      err, yielded := Each(host, stop);
      first := if yielded == [] then "" else yielded[|yielded| - 1];
      if err.None? {
        YieldedFirst(OutputLines(buffer), stop, 0);
      }
    }
  }

  /** The loop of `Cmd.Each` over captured output. */
  method YieldLines(raw: seq<string>, keep: (int, string) -> bool) returns (yielded: seq<string>)
    ensures yielded == Yielded(Trimmed(raw), keep, 0)
  {
    yielded := YieldMapped(raw, TrimSpace, keep);
  }

  /** The loop of `Cmd.Each`, with the trimming of a line as `trim`. */
  method YieldMapped(raw: seq<string>, trim: string -> string, keep: (int, string) -> bool) returns (yielded: seq<string>)
    ensures yielded == Yielded(NonEmpty(Mapped(raw, trim), 0), keep, 0)
  {
    ghost var ts := Mapped(raw, trim);
    ghost var all := Yielded(NonEmpty(ts, 0), keep, 0);
    ghost var todo := all;
    yielded := [];
    var i := 0;
    for j := 0 to |raw|
      invariant i == |yielded|
      invariant todo == Yielded(NonEmpty(ts, j), keep, i)
      invariant all == yielded + todo
    {
      var line := trim(raw[j]);
      assert line == ts[j];
      if line == "" {
        assert NonEmpty(ts, j) == [] + NonEmpty(ts, j + 1) == NonEmpty(ts, j + 1);
        todo := Yielded(NonEmpty(ts, j + 1), keep, i);
        continue;
      }
      assert NonEmpty(ts, j) == [line] + NonEmpty(ts, j + 1);
      YieldStep(NonEmpty(ts, j + 1), line, keep, i);
      if !keep(i, line) {
        yielded := yielded + [line];
        return;
      }
      ghost var later := Yielded(NonEmpty(ts, j + 1), keep, i + 1);
      assert yielded + ([line] + later) == (yielded + [line]) + later;
      todo := later;
      yielded := yielded + [line];
      i := i + 1;
    }
  }

  /** A line the callback is handed. */
  lemma YieldStep(rest: seq<string>, line: string, keep: (int, string) -> bool, i: nat)
    ensures Yielded([line] + rest, keep, i) == if keep(i, line) then [line] + Yielded(rest, keep, i + 1) else [line]
  {
    assert ([line] + rest)[1..] == rest;
  }
}
