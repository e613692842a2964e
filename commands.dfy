/**
 * Two commands of jb.py: `add`, which fetches and loads applications, and
 * `_run`, which decides where an arbitrary command runs. What the file
 * system, git, the application API and the Docker engine answer is passed
 * in as parameters.
 */
module Commands {
  import opened Wrappers
  import opened Strings
  import Apps
  import Compose
  import DockerUtil

  type Argv = seq<string>

  /**
   * `app.split("@")` as `add` uses it: the name is the text before the first
   * `@` and the branch the text between it and the next `@`; without an `@`
   * the branch is empty, which `add` treats like no branch at all.
   */
  function SplitBranch(app: string): (r: (string, string))
    ensures '@' !in r.0 && '@' !in r.1
  {
    ContainsChar(app, '@');
    var parts := Split(app, "@");
    forall k | 0 <= k < |parts| ensures '@' !in parts[k] {
      ContainsChar(parts[k], '@');
    }
    if |parts| >= 2 then (parts[0], parts[1]) else (parts[0], "")
  }

  /** A name without `@` has no branch. */
  lemma SplitBranchPlain(name: string)
    requires '@' !in name
    ensures SplitBranch(name) == (name, "")
  {
    SplitNoChar(name, '@');
  }

  /** `name@branch` gives the name and the branch back. */
  lemma SplitBranchOf(name: string, branch: string)
    requires '@' !in name && '@' !in branch
    ensures SplitBranch(name + "@" + branch) == (name, branch)
  {
    SplitAtChar(name, '@', branch);
    SplitNoChar(branch, '@');
  }

  /** The clone of `add`: with `-b branch` only when the branch is non-empty. */
  function CloneArgv(url: string, appDir: string, branch: string): Argv {
    if branch == "" then ["git", "clone", url, appDir]
    else ["git", "clone", "-b", branch, url, appDir]
  }

  function AppDir(name: string): string {
    "apps/" + name
  }

  function LoadCommand(runtime: string, name: string): string {
    "/" + runtime + "/bin/python manage.py loadjuiceboxapp " + name
  }

  /** What the outside world answers for one application of the list. */
  datatype AppWorld = AppWorld(
    dirExists: bool,   // os.path.isdir(app_dir)
    cloneOk: bool,     // the clone's check_call returns
    desktopOk: bool,   // the `github` check_call returns
    loaded: bool,      // jbapiutil.load_app(app)
    runOk: bool)       // dockerutil.run raises no APIError

  /** What `add` does, in order, apart from its informational messages. */
  datatype AddEvent =
    | AlreadyExists(name: string)    // "App {app} already exists."
    | Call(argv: Argv)               // subprocess.check_call
    | DesktopWarning(name: string)   // "Failed to add {app} to Github Desktop."
    | LoadApp(name: string)          // jbapiutil.load_app
    | RunInContainer(command: string)   // dockerutil.run
    | Added(name: string)            // "{app} was added successfully."
    | LoadWarning(name: string)      // "Failed to add {app} to the Juicebox VM."

  /** Loading a fetched application: through the API, else in the container. */
  function LoadStep(runtime: string, name: string, w: AppWorld): (seq<AddEvent>, bool) {
    if w.loaded then ([LoadApp(name)], false)
    else if w.runOk then ([LoadApp(name), RunInContainer(LoadCommand(runtime, name)), Added(name)], false)
    else ([LoadApp(name), RunInContainer(LoadCommand(runtime, name)), LoadWarning(name)], true)
  }

  /** One application of `add`: its events, and whether it joins the failed list. */
  function AddOne(conf: Apps.Conf, app: string, addDesktop: bool, runtime: string, w: AppWorld): (seq<AddEvent>, bool) {
    var (name, branch) := SplitBranch(app);
    var appDir := AppDir(name);
    if w.dirExists then
      var (load, failed) := LoadStep(runtime, name, w);
      ([AlreadyExists(name)] + load, failed)
    else
      var clone := Call(CloneArgv(Apps.MakeGithubRepoUrl(conf, name), appDir, branch));
      if !w.cloneOk then ([clone], true)
      else
        var desktop :=
          if !addDesktop then []
          else if w.desktopOk then [Call(["github", appDir])]
          else [Call(["github", appDir]), DesktopWarning(name)];
        var (load, failed) := LoadStep(runtime, name, w);
        ([clone] + desktop + load, failed)
  }

  /** An application fails when its clone fails or when neither load works. */
  predicate AppFails(w: AppWorld) {
    (!w.dirExists && !w.cloneOk) || (!w.loaded && !w.runOk)
  }

  /** The events and the failed names of the applications in order. */
  function AddAll(conf: Apps.Conf, apps: seq<string>, addDesktop: bool, runtime: string, world: nat -> AppWorld): (seq<AddEvent>, seq<string>) {
    if apps == [] then ([], [])
    else
      var n := |apps| - 1;
      var (events, failed) := AddAll(conf, apps[..n], addDesktop, runtime, world);
      var (more, fails) := AddOne(conf, apps[n], addDesktop, runtime, world(n));
      (events + more, failed + (if fails then [SplitBranch(apps[n]).0] else []))
  }

  /** The body of `add`'s loop for one application. */
  method AddApp(conf: Apps.Conf, app: string, addDesktop: bool, runtime: string, w: AppWorld)
    returns (step: seq<AddEvent>, fails: bool)
    ensures (step, fails) == AddOne(conf, app, addDesktop, runtime, w)
  {
    var (name, branch) := SplitBranch(app);
    var appDir := AppDir(name);
    if w.dirExists {
      step := [AlreadyExists(name)];
    } else {
      var url := Apps.MakeGithubRepoUrl(conf, name);
      step := [Call(CloneArgv(url, appDir, branch))];
      if !w.cloneOk {
        return step, true;
      }
      var desktop: seq<AddEvent> := [];
      if addDesktop {
        var github := Call(["github", appDir]);
        desktop := [github];
        if !w.desktopOk {
          desktop := desktop + [DesktopWarning(name)];
          assert desktop == [github, DesktopWarning(name)];
        }
      }
      step := step + desktop;
    }
    var load: seq<AddEvent> := [LoadApp(name)];
    fails := false;
    if !w.loaded {
      var run := RunInContainer(LoadCommand(runtime, name));
      load := load + [run];
      if w.runOk {
        load := load + [Added(name)];
        assert load == [LoadApp(name), run, Added(name)];
      } else {
        load := load + [LoadWarning(name)];
        assert load == [LoadApp(name), run, LoadWarning(name)];
        fails := true;
      }
    }
    assert (load, fails) == LoadStep(runtime, name, w);
    step := step + load;
  }

  /**
   * `add(applications, add_desktop, runtime)`, with `world(k)` what the
   * outside world answers for the k-th application. When Juicebox is not
   * running nothing is tried; otherwise every application is tried in turn
   * and the command aborts exactly when some of them failed.
   */
  method Add(conf: Apps.Conf, running: bool, applications: seq<string>, addDesktop: bool, runtime: string, world: nat -> AppWorld)
    returns (events: seq<AddEvent>, failed: seq<string>, r: Result<()>)
    ensures !running ==> events == [] && failed == [] && r == Err(Abort)
    ensures running ==> (events, failed) == AddAll(conf, applications, addDesktop, runtime, world)
    ensures r == Ok(()) <==> running && failed == []
    ensures r.Err? ==> r.error == Abort
  {
    events, failed := [], [];
    if !running {
      return events, failed, Err(Abort);
    }
    for i := 0 to |applications|
      invariant (events, failed) == AddAll(conf, applications[..i], addDesktop, runtime, world)
    {
      assert applications[..i + 1] == applications[..i] + [applications[i]];
      AddAllSnoc(conf, applications[..i], applications[i], addDesktop, runtime, world);
      assert |applications[..i]| == i;
      var step, fails := AddApp(conf, applications[i], addDesktop, runtime, world(i));
      ghost var one := AddOne(conf, applications[i], addDesktop, runtime, world(i));
      assert step == one.0 && fails == one.1;
      ghost var after := AddAll(conf, applications[..i + 1], addDesktop, runtime, world);
      assert after.0 == events + step;
      events := events + step;
      if fails {
        failed := failed + [SplitBranch(applications[i]).0];
      }
      assert after.1 == failed;
    }
    assert applications[..|applications|] == applications;
    r := if failed == [] then Ok(()) else Err(Abort);
  }

  lemma AddAllSnoc(conf: Apps.Conf, apps: seq<string>, app: string, addDesktop: bool, runtime: string, world: nat -> AppWorld)
    ensures var prior := AddAll(conf, apps, addDesktop, runtime, world);
      var one := AddOne(conf, app, addDesktop, runtime, world(|apps|));
      AddAll(conf, apps + [app], addDesktop, runtime, world)
        == (prior.0 + one.0, prior.1 + (if one.1 then [SplitBranch(app).0] else []))
  {
    assert (apps + [app])[..|apps|] == apps;
  }

  /** An application joins the failed list exactly when `AppFails` says so. */
  lemma AddOneFails(conf: Apps.Conf, app: string, addDesktop: bool, runtime: string, w: AppWorld)
    ensures AddOne(conf, app, addDesktop, runtime, w).1 <==> AppFails(w)
  {
  }

  /**
   * A new application is cloned with `git clone <url> apps/<name>` first;
   * `name@branch` is cloned with `-b branch`, and the url is the one of the
   * name alone.
   */
  lemma AddClonesFirst(conf: Apps.Conf, name: string, branch: string, addDesktop: bool, runtime: string, w: AppWorld)
    requires '@' !in name && '@' !in branch && !w.dirExists
    ensures AddOne(conf, name, addDesktop, runtime, w).0[0]
      == Call(["git", "clone", Apps.MakeGithubRepoUrl(conf, name), "apps/" + name])
    ensures branch != "" ==> (AddOne(conf, name + "@" + branch, addDesktop, runtime, w).0[0]
      == Call(["git", "clone", "-b", branch, Apps.MakeGithubRepoUrl(conf, name), "apps/" + name]))
  {
    SplitBranchPlain(name);
    SplitBranchOf(name, branch);
  }

  /** No git or desktop call is made for an application whose directory exists; it is still loaded. */
  lemma AddExistingNoCalls(conf: Apps.Conf, app: string, addDesktop: bool, runtime: string, w: AppWorld)
    requires w.dirExists
    ensures var events := AddOne(conf, app, addDesktop, runtime, w).0;
      && (forall k :: 0 <= k < |events| ==> (!events[k].Call?))
      && LoadApp(SplitBranch(app).0) in events
  {
  }

  /** A failed clone is the application's last event: no desktop call and no load. */
  lemma AddCloneFailure(conf: Apps.Conf, app: string, addDesktop: bool, runtime: string, w: AppWorld)
    requires !w.dirExists && !w.cloneOk
    ensures var (events, failed) := AddOne(conf, app, addDesktop, runtime, w);
      && failed && |events| == 1 && events[0].Call? && events[0].argv[..2] == ["git", "clone"]
  {
  }

  /** `loadjuiceboxapp` runs in the container exactly when a fetched application's API load failed. */
  lemma AddRunsLoadCommand(conf: Apps.Conf, app: string, addDesktop: bool, runtime: string, w: AppWorld)
    requires w.dirExists || w.cloneOk
    ensures var name := SplitBranch(app).0;
      var events := AddOne(conf, app, addDesktop, runtime, w).0;
      && LoadApp(name) in events
      && (RunInContainer(LoadCommand(runtime, name)) in events <==> !w.loaded)
  {
  }

  /** The desktop call is made exactly for a new, cloned application when asked for. */
  lemma AddDesktopCall(conf: Apps.Conf, app: string, addDesktop: bool, runtime: string, w: AppWorld)
    ensures var events := AddOne(conf, app, addDesktop, runtime, w).0;
      Call(["github", AppDir(SplitBranch(app).0)]) in events <==> addDesktop && !w.dirExists && w.cloneOk
  {
    var (name, branch) := SplitBranch(app);
    var url := Apps.MakeGithubRepoUrl(conf, name);
    assert CloneArgv(url, AppDir(name), branch)[0] == "git";
  }

  /** The names of the failing applications, in order. */
  function Failed(apps: seq<string>, world: nat -> AppWorld): seq<string> {
    if apps == [] then []
    else
      var n := |apps| - 1;
      Failed(apps[..n], world) + (if AppFails(world(n)) then [SplitBranch(apps[n]).0] else [])
  }

  /** `add`'s failed list is the list of the failing applications' names. */
  lemma {:induction false} AddAllFailed(conf: Apps.Conf, apps: seq<string>, addDesktop: bool, runtime: string, world: nat -> AppWorld)
    ensures AddAll(conf, apps, addDesktop, runtime, world).1 == Failed(apps, world)
    decreases |apps|
  {
    if apps != [] {
      var n := |apps| - 1;
      AddAllFailed(conf, apps[..n], addDesktop, runtime, world);
      AddOneFails(conf, apps[n], addDesktop, runtime, world(n));
    }
  }

  /** Every failed name belongs to an application that fails, at some position. */
  lemma {:induction false} FailedSound(apps: seq<string>, world: nat -> AppWorld, x: string) returns (k: nat)
    requires x in Failed(apps, world)
    ensures k < |apps| && SplitBranch(apps[k]).0 == x && AppFails(world(k))
    decreases |apps|
  {
    var n := |apps| - 1;
    if x in Failed(apps[..n], world) {
      k := FailedSound(apps[..n], world, x);
      assert apps[..n][k] == apps[k];
    } else {
      k := n;
    }
  }

  /** Every application that fails has its name in the failed list. */
  lemma {:induction false} FailedComplete(apps: seq<string>, world: nat -> AppWorld, k: nat)
    requires k < |apps| && AppFails(world(k))
    ensures SplitBranch(apps[k]).0 in Failed(apps, world)
    decreases |apps|
  {
    var n := |apps| - 1;
    if k < n {
      FailedComplete(apps[..n], world, k);
      assert apps[..n][k] == apps[k];
    }
  }

  /** Where `_run` sends the command. */
  datatype Dispatch =
    | Exec(container: nat, argv: Argv)   // docker exec in a running container
    | StartNew(env: string, argv: Argv)  // run_jb: a new container through docker-compose
    | NoTarget                           // "Juicebox not running and no --env given."

  /**
   * `_run(args, env, service)`. `home` is what `check_home()` answers,
   * consulted only when no env is given; `containers` are the names of the
   * running containers; `project` and `globbed` are what `docker_compose`
   * reads from the working directory; `callOk` tells whether the command
   * exits with status 0. A running container whose name contains the
   * service wins; otherwise an env (given, or the home directory) starts a
   * new container; otherwise the command aborts, as it does when the
   * command fails.
   */
  method Run(args: Argv, env: Option<string>, service: string, home: Option<string>,
             containers: seq<string>, project: string, globbed: seq<string>, callOk: bool)
    returns (d: Dispatch, r: Result<()>)
    ensures d.Exec? ==> (d.container < |containers| && Contains(containers[d.container], service)
      && (forall j :: 0 <= j < d.container ==> !Contains(containers[j], service))
      && d.argv == ["docker", "exec", "-it", containers[d.container]] + args)
    ensures !d.Exec? ==> forall j :: 0 <= j < |containers| ==> !Contains(containers[j], service)
    ensures d.StartNew? ==> (d.env == (if env.Some? then env.value else if home.Some? then home.value else "")
      && d.argv == Compose.RunJb(args, project, globbed, service))
    ensures d.NoTarget? <==> !d.Exec? && env.None? && home.None?
    ensures r == (if d.NoTarget? || !callOk then Err(Abort) else Ok(()))
  {
    var envName := env;
    if envName.None? {
      envName := home;
    }
    var found := DockerUtil.IsRunning(service, containers);
    if found.Some? {
      d := Exec(found.value, ["docker", "exec", "-it", containers[found.value]] + args);
    } else if envName.Some? {
      d := StartNew(envName.value, Compose.RunJb(args, project, globbed, service));
    } else {
      return NoTarget, Err(Abort);
    }
    r := if callOk then Ok(()) else Err(Abort);
  }
}
