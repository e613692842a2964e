/**
 * The docker-compose command line that `up`, `halt`, `destroy` and `run_jb`
 * issue (dockerutil.py `docker_compose` and `_intersperse`).
 */
module Compose {
  import opened Wrappers

  /** An argument vector handed to `check_call`. */
  type Argv = seq<string>

  const BaseServices := "common-services.yml"
  const GaneshaOverlay := "docker-compose.ganesha.yml"
  const CustomOverlay := "docker-compose.custom.yml"
  const SelfserveOverlay := "docker-compose.selfserve.yml"

  /** `_intersperse(el, l)`: `el` placed before every element of `l`. */
  function Intersperse(el: string, l: seq<string>): (r: seq<string>)
    ensures |r| == 2 * |l|
    ensures forall i :: 0 <= i < |l| ==> r[2 * i] == el && r[2 * i + 1] == l[i]
  {
    if l == [] then []
    else
      var rest := Intersperse(el, l[1..]);
      var r := [el, l[0]] + rest;
      forall i | 1 <= i < |l| ensures r[2 * i] == el && r[2 * i + 1] == l[i] {
        assert r[2 * i] == rest[2 * (i - 1)];
        assert r[2 * i + 1] == rest[2 * (i - 1) + 1];
        assert l[i] == l[1..][i - 1];
      }
      r
  }

  /**
   * The compose files in the order `docker_compose` passes them: the shared
   * services file, then whatever `glob("docker-compose-*.yml")` returned in
   * the order it returned it, then the ganesha overlay when asked for, and
   * last exactly one variant overlay.
   */
  function ComposeFiles(globbed: seq<string>, ganesha: bool, custom: bool): (files: seq<string>)
    ensures |files| == |globbed| + (if ganesha then 3 else 2)
    ensures files[0] == BaseServices
    ensures files[1..1 + |globbed|] == globbed
    ensures ganesha ==> files[1 + |globbed|] == GaneshaOverlay
    ensures files[|files| - 1] == if custom then CustomOverlay else SelfserveOverlay
  {
    [BaseServices] + globbed + (if ganesha then [GaneshaOverlay] else [])
      + [if custom then CustomOverlay else SelfserveOverlay]
  }

  /** A name that `glob("docker-compose-*.yml")` can return. */
  predicate FragmentName(f: string) {
    |f| >= 19 && f[..15] == "docker-compose-" && f[|f| - 4..] == ".yml"
  }

  function Count(s: seq<string>, x: string): nat {
    multiset(s)[x]
  }

  /** None of the fixed compose files can be returned by the glob. */
  lemma FixedNamesAreNotFragments(f: string)
    requires f in {BaseServices, GaneshaOverlay, CustomOverlay, SelfserveOverlay}
    ensures !FragmentName(f)
  {
    assert f[0] != 'd' || f[14] == '.';
    if |f| >= 15 {
      assert f[..15][0] == f[0] && f[..15][14] == f[14];
    }
  }

  /**
   * Whatever the glob found, the shared services file and the variant overlay
   * each occur exactly once, the other variant overlay never, and the ganesha
   * overlay exactly when it was asked for.
   */
  lemma ComposeFilesCounts(globbed: seq<string>, ganesha: bool, custom: bool)
    requires forall i :: 0 <= i < |globbed| ==> FragmentName(globbed[i])
    ensures var files := ComposeFiles(globbed, ganesha, custom);
      && Count(files, BaseServices) == 1
      && Count(files, if custom then CustomOverlay else SelfserveOverlay) == 1
      && Count(files, if custom then SelfserveOverlay else CustomOverlay) == 0
      && Count(files, GaneshaOverlay) == (if ganesha then 1 else 0)
  {
    FixedNamesDistinct();
    ComposeFilesCount(globbed, ganesha, custom, BaseServices);
    ComposeFilesCount(globbed, ganesha, custom, GaneshaOverlay);
    ComposeFilesCount(globbed, ganesha, custom, CustomOverlay);
    ComposeFilesCount(globbed, ganesha, custom, SelfserveOverlay);
  }

  lemma FixedNamesDistinct()
    ensures BaseServices != GaneshaOverlay && BaseServices != CustomOverlay && BaseServices != SelfserveOverlay
    ensures GaneshaOverlay != CustomOverlay && GaneshaOverlay != SelfserveOverlay && CustomOverlay != SelfserveOverlay
  {
    assert BaseServices[0] != GaneshaOverlay[0];
    assert BaseServices[0] != CustomOverlay[0];
    assert BaseServices[0] != SelfserveOverlay[0];
    assert GaneshaOverlay[15] != CustomOverlay[15];
    assert GaneshaOverlay[15] != SelfserveOverlay[15];
    assert CustomOverlay[15] != SelfserveOverlay[15];
  }

  /** How often a fixed name occurs among the compose files. */
  lemma ComposeFilesCount(globbed: seq<string>, ganesha: bool, custom: bool, f: string)
    requires forall i :: 0 <= i < |globbed| ==> FragmentName(globbed[i])
    requires f in {BaseServices, GaneshaOverlay, CustomOverlay, SelfserveOverlay}
    ensures Count(ComposeFiles(globbed, ganesha, custom), f)
      == multiset{BaseServices}[f] + (if ganesha then multiset{GaneshaOverlay}[f] else 0)
         + multiset{if custom then CustomOverlay else SelfserveOverlay}[f]
  {
    var overlay := if custom then CustomOverlay else SelfserveOverlay;
    var g := if ganesha then [GaneshaOverlay] else [];
    var files := ComposeFiles(globbed, ganesha, custom);
    assert files == [BaseServices] + globbed + g + [overlay];
    assert multiset(files) == multiset{BaseServices} + multiset(globbed) + multiset(g) + multiset{overlay};
    NotGlobbed(globbed, f);
  }

  lemma NotGlobbed(globbed: seq<string>, f: string)
    requires forall i :: 0 <= i < |globbed| ==> FragmentName(globbed[i])
    requires f in {BaseServices, GaneshaOverlay, CustomOverlay, SelfserveOverlay}
    ensures multiset(globbed)[f] == 0
  {
    FixedNamesAreNotFragments(f);
    assert f !in globbed;
  }

  const Header: Argv := ["docker-compose", "--project-directory", ".", "--project-name"]

  /**
   * The full argument vector of `docker_compose(args, ganesha, custom)` run
   * in a directory whose base name is `project`.
   */
  function DockerCompose(args: Argv, project: string, globbed: seq<string>, ganesha: bool, custom: bool): Argv
  {
    Header + [project] + Intersperse("-f", ComposeFiles(globbed, ganesha, custom)) + args
  }

  /** Reads the `-f <file>` pairs at the front of `rest`. */
  function ReadFiles(rest: Argv): (r: (seq<string>, Argv))
    ensures |r.1| <= |rest|
  {
    if |rest| >= 2 && rest[0] == "-f" then
      var (files, tail) := ReadFiles(rest[2..]);
      ([rest[1]] + files, tail)
    else ([], rest)
  }

  /** Reads a docker-compose command line back into project name, files and arguments. */
  function ParseCompose(argv: Argv): Option<(string, seq<string>, Argv)> {
    if |argv| >= 5 && argv[..4] == Header then
      var (files, args) := ReadFiles(argv[5..]);
      Some((argv[4], files, args))
    else None
  }

  lemma {:induction false} ReadFilesInterspersed(files: seq<string>, args: Argv)
    requires args == [] || args[0] != "-f"
    ensures ReadFiles(Intersperse("-f", files) + args) == (files, args)
  {
    if files == [] {
      assert Intersperse("-f", files) + args == args;
    } else {
      var rest := Intersperse("-f", files[1..]);
      assert Intersperse("-f", files) == ["-f", files[0]] + rest;
      assert (["-f", files[0]] + rest + args)[2..] == rest + args;
      ReadFilesInterspersed(files[1..], args);
      assert [files[0]] + files[1..] == files;
    }
  }

  /**
   * The command line reads back as the project name, `-f` before each compose
   * file in order, and the caller's arguments unchanged, provided those do not
   * themselves start with `-f`.
   */
  lemma DockerComposeRoundTrip(args: Argv, project: string, globbed: seq<string>, ganesha: bool, custom: bool)
    requires args == [] || args[0] != "-f"
    ensures ParseCompose(DockerCompose(args, project, globbed, ganesha, custom))
      == Some((project, ComposeFiles(globbed, ganesha, custom), args))
  {
    ComposeLineRoundTrip(args, project, ComposeFiles(globbed, ganesha, custom));
  }

  lemma ComposeLineRoundTrip(args: Argv, project: string, files: seq<string>)
    requires args == [] || args[0] != "-f"
    ensures ParseCompose(Header + [project] + Intersperse("-f", files) + args) == Some((project, files, args))
  {
    var tail := Intersperse("-f", files) + args;
    var argv := Header + [project] + Intersperse("-f", files) + args;
    assert argv == Header + ([project] + tail);
    assert argv[..4] == Header && argv[4] == project && argv[5..] == tail;
    ReadFilesInterspersed(files, args);
  }

  /** `up(ganesha, custom)`. */
  function Up(project: string, globbed: seq<string>, ganesha: bool, custom: bool): Argv {
    DockerCompose(["up"], project, globbed, ganesha, custom)
  }

  /** `halt()`: stop, with the default overlays. */
  function Halt(project: string, globbed: seq<string>): Argv {
    DockerCompose(["stop"], project, globbed, false, false)
  }

  /** `destroy()`: down, with the default overlays. */
  function Destroy(project: string, globbed: seq<string>): Argv {
    DockerCompose(["down"], project, globbed, false, false)
  }

  /** `run_jb(cmd, service)`. */
  function RunJb(cmd: Argv, project: string, globbed: seq<string>, service: string): Argv {
    DockerCompose(["run", service] + cmd, project, globbed, service == "ganesha", false)
  }

  /**
   * What each lifecycle command asks docker-compose for: `up` with the
   * caller's overlays, `stop` and `down` with the selfserve overlay and no
   * ganesha, and `run <service> <cmd...>` with the selfserve overlay and the
   * ganesha overlay exactly when the service is ganesha.
   */
  lemma LifecycleCommands(project: string, globbed: seq<string>, ganesha: bool, custom: bool, cmd: Argv, service: string)
    requires forall i :: 0 <= i < |globbed| ==> FragmentName(globbed[i])
    ensures ParseCompose(Up(project, globbed, ganesha, custom)) == Some((project, ComposeFiles(globbed, ganesha, custom), ["up"]))
    ensures ParseCompose(Halt(project, globbed)) == Some((project, ComposeFiles(globbed, false, false), ["stop"]))
    ensures ParseCompose(Destroy(project, globbed)) == Some((project, ComposeFiles(globbed, false, false), ["down"]))
    ensures var files := ComposeFiles(globbed, service == "ganesha", false);
      && ParseCompose(RunJb(cmd, project, globbed, service)) == Some((project, files, ["run", service] + cmd))
      && (GaneshaOverlay in files <==> service == "ganesha")
      && CustomOverlay !in files
  {
    DockerComposeRoundTrip(["up"], project, globbed, ganesha, custom);
    DockerComposeRoundTrip(["stop"], project, globbed, false, false);
    DockerComposeRoundTrip(["down"], project, globbed, false, false);
    DockerComposeRoundTrip(["run", service] + cmd, project, globbed, service == "ganesha", false);
    RunJbFiles(globbed, service == "ganesha");
  }

  lemma RunJbFiles(globbed: seq<string>, ganesha: bool)
    requires forall i :: 0 <= i < |globbed| ==> FragmentName(globbed[i])
    ensures var files := ComposeFiles(globbed, ganesha, false);
      (GaneshaOverlay in files <==> ganesha) && CustomOverlay !in files
  {
    var files := ComposeFiles(globbed, ganesha, false);
    ComposeFilesCounts(globbed, ganesha, false);
    assert GaneshaOverlay in files <==> Count(files, GaneshaOverlay) > 0;
    assert CustomOverlay in files <==> Count(files, CustomOverlay) > 0;
  }
}
