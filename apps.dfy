/**
 * apps.py: the helpers behind `jb add` and `jb clone` for Juicebox packaged
 * applications. GitHub repository addresses are built from the configured
 * organisation and repository prefix; a cloned app's `app.yaml` has its
 * flat keys rewritten line by line; a new app's Git repository is set up by
 * a fixed sequence of commands, whose outcomes are an oracle.
 */
module Apps {
  import opened Wrappers
  import opened Strings

  type Argv = seq<string>

  /** The settings read from the environment by conf.py. */
  datatype Conf = Conf(organization: string, repoPrefix: string)

  /** `JB_GITHUB_ORGANIZATION` and `JB_GITHUB_REPO_PREFIX` when neither is set. */
  const DefaultConf := Conf("juiceinc", "implementation-")

  const SshPrefix := "git@github.com:"
  const HttpsPrefix := "https://github.com/"

  /** The repository's name on GitHub: the prefix, then the app's name. */
  function RepoName(conf: Conf, app: string): string {
    conf.repoPrefix + app
  }

  /** `make_github_repo_url(app)`: the ssh address of the app's repository. */
  function MakeGithubRepoUrl(conf: Conf, app: string): string {
    SshPrefix + conf.organization + "/" + RepoName(conf, app) + ".git"
  }

  /** `make_github_repo_link(app)`: the HTTPS page of the app's repository. */
  function MakeGithubRepoLink(conf: Conf, app: string): string {
    HttpsPrefix + conf.organization + "/" + RepoName(conf, app)
  }

  /**
   * The two addresses name the same repository: past their transport
   * prefixes they are `organization/prefix+app`, the ssh one followed by
   * `.git`; so different apps get different addresses.
   */
  lemma UrlAndLinkAgree(conf: Conf, app: string)
    ensures MakeGithubRepoUrl(conf, app)[|SshPrefix|..]
      == MakeGithubRepoLink(conf, app)[|HttpsPrefix|..] + ".git"
  {
    var path := conf.organization + "/" + RepoName(conf, app);
    assert MakeGithubRepoUrl(conf, app) == SshPrefix + (path + ".git");
    assert MakeGithubRepoLink(conf, app) == HttpsPrefix + path;
  }

  /** Different apps have different repository addresses. */
  lemma UrlInjective(conf: Conf, a: string, b: string)
    requires MakeGithubRepoUrl(conf, a) == MakeGithubRepoUrl(conf, b)
    ensures a == b
  {
    var pre := SshPrefix + conf.organization + "/" + conf.repoPrefix;
    assert MakeGithubRepoUrl(conf, a) == pre + a + ".git";
    assert MakeGithubRepoUrl(conf, b) == pre + b + ".git";
    assert |a| == |b|;
    assert a == MakeGithubRepoUrl(conf, a)[|pre|..|pre| + |a|];
    assert b == MakeGithubRepoUrl(conf, b)[|pre|..|pre| + |b|];
  }

  /** The repository address for the configuration in the test of `make_github_repo_url`. */
  lemma RepoUrlExample()
    ensures MakeGithubRepoUrl(Conf("cookies", "peanut_butter-"), "sugar")
      == "git@github.com:cookies/peanut_butter-sugar.git"
  {
    var conf := Conf("cookies", "peanut_butter-");
    assert RepoName(conf, "sugar") == "peanut_butter-sugar";
    assert SshPrefix + conf.organization + "/" == "git@github.com:cookies/";
  }

  /** The repository page for the configuration in the test of `make_github_repo_link`. */
  lemma RepoLinkExample()
    ensures MakeGithubRepoLink(Conf("cookies", "peanut_butter-"), "sugar")
      == "https://github.com/cookies/peanut_butter-sugar"
  {
  }

  // ---------------------------------------------------------------------
  // replace_in_yaml

  /** A rewritten line: the key, a space, the value, a newline. */
  function KeyLine(key: string, value: string): string {
    key + " " + value + "\n"
  }

  /**
   * One file line after `replace_in_yaml` has looked at it: the keys are
   * tried in the dictionary's order, each against the line as the earlier
   * keys left it.
   */
  function RewriteLine(line: string, replacements: seq<(string, string)>): string
    decreases |replacements|
  {
    if replacements == [] then line
    else
      var (key, value) := replacements[0];
      RewriteLine(if Contains(line, key) then KeyLine(key, value) else line, replacements[1..])
  }

  /** The same, with the keys taken first to last by index, as the loop tries them. */
  function RewriteUpTo(line: string, replacements: seq<(string, string)>, n: nat): string
    requires n <= |replacements|
  {
    if n == 0 then line
    else
      var prev := RewriteUpTo(line, replacements, n - 1);
      var (key, value) := replacements[n - 1];
      if Contains(prev, key) then KeyLine(key, value) else prev
  }

  lemma {:induction false} RewriteUpToAll(line: string, replacements: seq<(string, string)>)
    ensures RewriteUpTo(line, replacements, |replacements|) == RewriteLine(line, replacements)
    decreases |replacements|
  {
    if replacements != [] {
      var (key, value) := replacements[0];
      var next := if Contains(line, key) then KeyLine(key, value) else line;
      RewriteUpToShift(line, replacements, |replacements|);
      RewriteUpToAll(next, replacements[1..]);
    }
  }

  /** Trying the first key and then the rest by index is trying them all by index. */
  lemma {:induction false} RewriteUpToShift(line: string, replacements: seq<(string, string)>, n: nat)
    requires 1 <= n <= |replacements|
    ensures var (key, value) := replacements[0];
      RewriteUpTo(line, replacements, n)
      == RewriteUpTo(if Contains(line, key) then KeyLine(key, value) else line, replacements[1..], n - 1)
    decreases n
  {
    if n > 1 {
      RewriteUpToShift(line, replacements, n - 1);
      assert replacements[1..][n - 2] == replacements[n - 1];
    }
  }

  /**
   * `replace_in_yaml(file_path, replacements)` on the file's lines: the
   * temporary file gets one line per line read, each line rewritten by
   * every key it contains.
   */
  method ReplaceInYaml(lines: seq<string>, replacements: seq<(string, string)>) returns (written: seq<string>)
    ensures |written| == |lines|
    ensures forall i :: 0 <= i < |lines| ==> written[i] == RewriteLine(lines[i], replacements)
  {
    written := [];
    for i := 0 to |lines|
      invariant |written| == i
      invariant forall k :: 0 <= k < i ==> written[k] == RewriteLine(lines[k], replacements)
    {
      var line := lines[i];
      for j := 0 to |replacements|
        invariant line == RewriteUpTo(lines[i], replacements, j)
      {
        var (key, value) := replacements[j];
        if Contains(line, key) {
          line := key + " " + value + "\n";
        }
      }
      RewriteUpToAll(lines[i], replacements);
      written := written + [line];
    }
  }

  /** A line holding none of the keys is copied unchanged. */
  lemma {:induction false} RewriteUntouched(line: string, replacements: seq<(string, string)>)
    requires forall j :: 0 <= j < |replacements| ==> !Contains(line, replacements[j].0)
    ensures RewriteLine(line, replacements) == line
    decreases |replacements|
  {
    if replacements != [] {
      RewriteUntouched(line, replacements[1..]);
    }
  }

  /**
   * A line holding some key comes out as that key's or a later key's
   * `key value` line: it never keeps its own text.
   */
  lemma {:induction false} RewriteTouched(line: string, replacements: seq<(string, string)>, j: nat)
    requires j < |replacements| && Contains(line, replacements[j].0)
    ensures exists k :: (0 <= k < |replacements|
      && RewriteLine(line, replacements) == KeyLine(replacements[k].0, replacements[k].1))
    decreases |replacements|
  {
    var (key, value) := replacements[0];
    var next := if Contains(line, key) then KeyLine(key, value) else line;
    var rest := replacements[1..];
    if Contains(line, key) {
      if exists m :: 0 <= m < |rest| && Contains(next, rest[m].0) {
        var m :| 0 <= m < |rest| && Contains(next, rest[m].0);
        RewriteTouched(next, rest, m);
        var k :| 0 <= k < |rest| && RewriteLine(next, rest) == KeyLine(rest[k].0, rest[k].1);
        assert rest[k] == replacements[k + 1];
      } else {
        RewriteUntouched(next, rest);
        assert RewriteLine(line, replacements) == KeyLine(replacements[0].0, replacements[0].1);
      }
    } else {
      assert j > 0;
      RewriteTouched(line, rest, j - 1);
      var k :| 0 <= k < |rest| && RewriteLine(line, rest) == KeyLine(rest[k].0, rest[k].1);
      assert rest[k] == replacements[k + 1];
    }
  }

  /**
   * A line holding key `j` and none of the keys before it becomes key `j`'s
   * line, provided that line holds none of the keys after `j`.
   */
  lemma RewriteSingleKey(line: string, replacements: seq<(string, string)>, j: nat)
    requires j < |replacements| && Contains(line, replacements[j].0)
    requires forall k :: 0 <= k < j ==> !Contains(line, replacements[k].0)
    requires forall m :: j < m < |replacements| ==>
      !Contains(KeyLine(replacements[j].0, replacements[j].1), replacements[m].0)
    ensures RewriteLine(line, replacements) == KeyLine(replacements[j].0, replacements[j].1)
  {
    RewriteSingleKeyStep(line, replacements, j, |replacements|);
    RewriteUpToAll(line, replacements);
  }

  lemma {:induction false} RewriteSingleKeyStep(line: string, replacements: seq<(string, string)>, j: nat, i: nat)
    requires j < i <= |replacements| && Contains(line, replacements[j].0)
    requires forall k :: 0 <= k < j ==> !Contains(line, replacements[k].0)
    requires forall m :: j < m < |replacements| ==>
      !Contains(KeyLine(replacements[j].0, replacements[j].1), replacements[m].0)
    ensures RewriteUpTo(line, replacements, i) == KeyLine(replacements[j].0, replacements[j].1)
    decreases i
  {
    if i == j + 1 {
      RewriteUpToUntouched(line, replacements, j);
    } else {
      RewriteSingleKeyStep(line, replacements, j, i - 1);
    }
  }

  lemma {:induction false} RewriteUpToUntouched(line: string, replacements: seq<(string, string)>, n: nat)
    requires n <= |replacements|
    requires forall k :: 0 <= k < n ==> !Contains(line, replacements[k].0)
    ensures RewriteUpTo(line, replacements, n) == line
    decreases n
  {
    if n > 0 {
      RewriteUpToUntouched(line, replacements, n - 1);
    }
  }

  // ---------------------------------------------------------------------
  // perform_init_vcs and clone

  /** What `perform_init_vcs` and `clone` record, in order. */
  datatype VcsEvent =
    | Call(argv: Argv)   // check_call(argv)
    | InitFailed         // "Failed to initialize Git repository."
    | PushFailed         // the message on connecting the repository to GitHub
    | DesktopFailed      // "Failed to add to github desktop"
    | CopyFailed         // "Cloning failed on the copy step"

  const GitInit: Argv := ["git", "init"]
  const GitAdd: Argv := ["git", "add", "."]
  const GitCommit: Argv := ["git", "commit", "-m", "Initial commit"]

  /** The local commands, in order. */
  function LocalCommands(): seq<Argv> {
    [GitInit, GitAdd, GitCommit]
  }

  function RemoteAdd(conf: Conf, name: string): Argv {
    ["git", "remote", "add", "origin", MakeGithubRepoUrl(conf, name)]
  }

  const GitPush: Argv := ["git", "push", "-u", "origin", "master"]

  function DesktopAdd(appDir: string): Argv {
    ["github", appDir]
  }

  /** The calls of the commands in `cmds`, in order. */
  function Calls(cmds: seq<Argv>): seq<VcsEvent> {
    if cmds == [] then [] else Calls(cmds[..|cmds| - 1]) + [Call(cmds[|cmds| - 1])]
  }

  /** The first of the commands whose `succeeds` answer is false. */
  function FirstFailed(cmds: seq<Argv>, succeeds: Argv -> bool): (r: Option<nat>)
    ensures r.Some? ==> r.value < |cmds| && !succeeds(cmds[r.value])
    ensures forall k :: 0 <= k < |cmds| && (r.None? || k < r.value) ==> succeeds(cmds[k])
  {
    if cmds == [] then None
    else match FirstFailed(cmds[..|cmds| - 1], succeeds)
      case Some(k) => Some(k)
      case None => if succeeds(cmds[|cmds| - 1]) then None else Some(|cmds| - 1)
  }

  /** The remote part: add the remote, push to it; either failing gives the one message, and no push after a failed add. */
  function RemotePart(conf: Conf, name: string, succeeds: Argv -> bool): seq<VcsEvent> {
    [Call(RemoteAdd(conf, name))]
    + (if !succeeds(RemoteAdd(conf, name)) then [PushFailed]
       else [Call(GitPush)] + (if succeeds(GitPush) then [] else [PushFailed]))
  }

  /** The GitHub Desktop part: always tried, one message on failure. */
  function DesktopPart(appDir: string, succeeds: Argv -> bool): seq<VcsEvent> {
    [Call(DesktopAdd(appDir))] + (if succeeds(DesktopAdd(appDir)) then [] else [DesktopFailed])
  }

  /**
   * The events of `perform_init_vcs(name, app_dir, track_vcs)` when the
   * commands answer `succeeds`: the local commands up to the first failure
   * and one message, or all of them followed, when tracking, by the remote
   * part and the GitHub Desktop part.
   */
  function InitVcsEvents(conf: Conf, name: string, appDir: string, trackVcs: bool, succeeds: Argv -> bool): seq<VcsEvent> {
    match FirstFailed(LocalCommands(), succeeds)
    case Some(k) => Calls(LocalCommands()[..k + 1]) + [InitFailed]
    case None =>
      Calls(LocalCommands())
      + (if trackVcs then RemotePart(conf, name, succeeds) + DesktopPart(appDir, succeeds) else [])
  }

  method RunCall(events: seq<VcsEvent>, argv: Argv, succeeds: Argv -> bool) returns (events': seq<VcsEvent>, ok: bool)
    ensures events' == events + [Call(argv)] && ok == succeeds(argv)
  {
    events' := events + [Call(argv)];
    ok := succeeds(argv);
  }

  /** `perform_init_vcs(name, app_dir, track_vcs)`. */
  method PerformInitVcs(conf: Conf, name: string, appDir: string, trackVcs: bool, succeeds: Argv -> bool)
    returns (events: seq<VcsEvent>)
    ensures events == InitVcsEvents(conf, name, appDir, trackVcs, succeeds)
  {
    var local := LocalCommands();
    assert Calls(local[..0]) == [];
    events := [];
    var i := 0;
    while i < |local|
      invariant 0 <= i <= |local|
      invariant events == Calls(local[..i])
      invariant forall k :: 0 <= k < i ==> succeeds(local[k])
    {
      var ok;
      events, ok := RunCall(events, local[i], succeeds);
      assert local[..i + 1][..i] == local[..i];
      if !ok {
        events := events + [InitFailed];
        assert FirstFailed(local, succeeds) == Some(i) by {
          FirstFailedAt(local, succeeds, i);
        }
        return;
      }
      i := i + 1;
    }
    assert local[..i] == local;
    if trackVcs {
      events := Track(events, conf, name, appDir, succeeds);
    }
  }

  /** The tracking part of `perform_init_vcs`: the remote part, then GitHub Desktop whatever came of it. */
  method Track(start: seq<VcsEvent>, conf: Conf, name: string, appDir: string, succeeds: Argv -> bool)
    returns (events: seq<VcsEvent>)
    ensures events == start + (RemotePart(conf, name, succeeds) + DesktopPart(appDir, succeeds))
  {
    var ok;
    events, ok := RunCall(start, RemoteAdd(conf, name), succeeds);
    if ok {
      events, ok := RunCall(events, GitPush, succeeds);
    }
    if !ok {
      events := events + [PushFailed];
    }
    assert events == start + RemotePart(conf, name, succeeds);
    var remote := events;
    events, ok := RunCall(events, DesktopAdd(appDir), succeeds);
    if !ok {
      events := events + [DesktopFailed];
    }
    assert events == remote + DesktopPart(appDir, succeeds);
  }

  lemma FirstFailedAt(cmds: seq<Argv>, succeeds: Argv -> bool, i: nat)
    requires i < |cmds| && !succeeds(cmds[i]) && forall k :: 0 <= k < i ==> succeeds(cmds[k])
    ensures FirstFailed(cmds, succeeds) == Some(i)
  {
  }

  /** The events that are messages rather than calls. */
  function Warnings(events: seq<VcsEvent>): nat {
    if events == [] then 0
    else Warnings(events[..|events| - 1]) + (if events[|events| - 1].Call? then 0 else 1)
  }

  lemma {:induction false} WarningsAppend(a: seq<VcsEvent>, b: seq<VcsEvent>)
    ensures Warnings(a + b) == Warnings(a) + Warnings(b)
    decreases |b|
  {
    if b == [] {
      assert a + b == a;
    } else {
      assert (a + b)[..|a + b| - 1] == a + b[..|b| - 1];
      WarningsAppend(a, b[..|b| - 1]);
    }
  }

  lemma {:induction false} CallsHaveNoWarnings(cmds: seq<Argv>)
    ensures Warnings(Calls(cmds)) == 0 && |Calls(cmds)| == |cmds|
    ensures forall k :: 0 <= k < |cmds| ==> Calls(cmds)[k] == Call(cmds[k])
    decreases |cmds|
  {
    if cmds != [] {
      CallsHaveNoWarnings(cmds[..|cmds| - 1]);
      WarningsAppend(Calls(cmds[..|cmds| - 1]), [Call(cmds[|cmds| - 1])]);
      assert [Call(cmds[|cmds| - 1])][..0] == [];
    }
  }

  /**
   * A failing local command is the last command run: the local commands
   * before it all ran, in order, and exactly one warning follows.
   */
  lemma InitVcsLocalFailure(conf: Conf, name: string, appDir: string, trackVcs: bool, succeeds: Argv -> bool, k: nat)
    requires FirstFailed(LocalCommands(), succeeds) == Some(k)
    ensures var events := InitVcsEvents(conf, name, appDir, trackVcs, succeeds);
      |events| == k + 2 && events[k] == Call(LocalCommands()[k]) && events[k + 1] == InitFailed
      && (forall i :: 0 <= i <= k ==> events[i] == Call(LocalCommands()[i]))
      && Warnings(events) == 1
  {
    FailureShape(LocalCommands(), k);
  }

  /** The calls of `cmds` up to and including a failing `cmds[k]`, then one warning. */
  lemma FailureShape(cmds: seq<Argv>, k: nat)
    requires k < |cmds|
    ensures var events := Calls(cmds[..k + 1]) + [InitFailed];
      |events| == k + 2 && events[k] == Call(cmds[k]) && events[k + 1] == InitFailed
      && (forall i :: 0 <= i <= k ==> events[i] == Call(cmds[i]))
      && Warnings(events) == 1
  {
    var ran := cmds[..k + 1];
    CallsHaveNoWarnings(ran);
    WarningsAppend(Calls(ran), [InitFailed]);
    assert [InitFailed][..0] == [];
  }

  /** The local commands all succeeding, `perform_init_vcs` goes past them. */
  lemma LocalThrough(succeeds: Argv -> bool)
    requires forall c :: c in LocalCommands() ==> succeeds(c)
    ensures FirstFailed(LocalCommands(), succeeds) == None
  {
    var cmds := LocalCommands();
    assert succeeds(cmds[0]) && succeeds(cmds[1]) && succeeds(cmds[2]);
  }

  /** Without tracking, exactly the three local commands run when they all succeed. */
  lemma InitVcsNoTrack(conf: Conf, name: string, appDir: string, succeeds: Argv -> bool)
    requires forall c :: c in LocalCommands() ==> succeeds(c)
    ensures InitVcsEvents(conf, name, appDir, false, succeeds) == [Call(GitInit), Call(GitAdd), Call(GitCommit)]
  {
    LocalThrough(succeeds);
    CallsHaveNoWarnings(LocalCommands());
  }

  /**
   * With tracking and the local commands through, GitHub Desktop is always
   * tried, whatever the remote part did, and it is the last call.
   */
  lemma InitVcsTrackDesktop(conf: Conf, name: string, appDir: string, succeeds: Argv -> bool)
    requires forall c :: c in LocalCommands() ==> succeeds(c)
    ensures var events := InitVcsEvents(conf, name, appDir, true, succeeds);
      var desktopAt := if succeeds(DesktopAdd(appDir)) then |events| - 1 else |events| - 2;
      0 <= desktopAt && events[desktopAt] == Call(DesktopAdd(appDir))
  {
    LocalThrough(succeeds);
  }

  /** With tracking, each failure of the remote part or of the desktop call gives one warning. */
  lemma InitVcsTrackWarnings(conf: Conf, name: string, appDir: string, succeeds: Argv -> bool)
    requires forall c :: c in LocalCommands() ==> succeeds(c)
    ensures Warnings(InitVcsEvents(conf, name, appDir, true, succeeds))
      == (if succeeds(RemoteAdd(conf, name)) && succeeds(GitPush) then 0 else 1)
         + (if succeeds(DesktopAdd(appDir)) then 0 else 1)
  {
    LocalThrough(succeeds);
    var cmds := LocalCommands();
    CallsHaveNoWarnings(cmds);
    var remote := RemotePart(conf, name, succeeds);
    var desktop := DesktopPart(appDir, succeeds);
    WarningsAppend(Calls(cmds), remote + desktop);
    WarningsAppend(remote, desktop);
    RemoteWarnings(conf, name, succeeds);
    DesktopWarnings(appDir, succeeds);
  }

  /** With tracking, the push is tried exactly when adding the remote succeeded. */
  lemma InitVcsTrackPush(conf: Conf, name: string, appDir: string, succeeds: Argv -> bool)
    requires forall c :: c in LocalCommands() ==> succeeds(c)
    ensures Call(GitPush) in InitVcsEvents(conf, name, appDir, true, succeeds) <==> succeeds(RemoteAdd(conf, name))
  {
    LocalThrough(succeeds);
    var cmds := LocalCommands();
    CallsHaveNoWarnings(cmds);
    assert Call(GitPush) !in Calls(cmds) by {
      forall k | 0 <= k < |Calls(cmds)| ensures Calls(cmds)[k] != Call(GitPush) {
      }
    }
    assert Call(GitPush) !in DesktopPart(appDir, succeeds);
  }

  lemma DesktopWarnings(appDir: string, succeeds: Argv -> bool)
    ensures Warnings(DesktopPart(appDir, succeeds)) == (if succeeds(DesktopAdd(appDir)) then 0 else 1)
  {
    WarningsAppend([Call(DesktopAdd(appDir))], if succeeds(DesktopAdd(appDir)) then [] else [DesktopFailed]);
    assert [Call(DesktopAdd(appDir))][..0] == [];
    assert [DesktopFailed][..0] == [];
  }

  lemma RemoteWarnings(conf: Conf, name: string, succeeds: Argv -> bool)
    ensures Warnings(RemotePart(conf, name, succeeds))
      == (if succeeds(RemoteAdd(conf, name)) && succeeds(GitPush) then 0 else 1)
  {
    var add := [Call(RemoteAdd(conf, name))];
    assert add[..0] == [];
    assert [PushFailed][..0] == [];
    assert [Call(GitPush)][..0] == [];
    if !succeeds(RemoteAdd(conf, name)) {
      WarningsAppend(add, [PushFailed]);
    } else {
      var tail: seq<VcsEvent> := if succeeds(GitPush) then [] else [PushFailed];
      WarningsAppend([Call(GitPush)], tail);
      WarningsAppend(add, [Call(GitPush)] + tail);
    }
  }

  /** Python's `s[:8]`. */
  function Prefix8(s: string): string {
    if |s| <= 8 then s else s[..8]
  }

  /** The replacements `clone` makes in the new app's `app.yaml`, in the dictionary's order. */
  function CloneReplacements(name: string, uuid: string): seq<(string, string)> {
    [("slug:", name), ("label:", name), ("id:", Prefix8(uuid))]
  }

  /**
   * `clone(name, source, dest, init_vcs, track_vcs)`. `copied` says whether
   * the copy of the source app succeeded, `yaml` holds the lines of the
   * copied `app.yaml`, `uuid` the text of the fresh identifier.
   */
  method Clone(conf: Conf, name: string, dest: string, initVcs: bool, trackVcs: bool,
               copied: bool, yaml: seq<string>, uuid: string, succeeds: Argv -> bool)
    returns (ok: bool, newYaml: seq<string>, events: seq<VcsEvent>)
    ensures ok == copied
    ensures !copied ==> newYaml == yaml && events == [CopyFailed]
    ensures copied ==> (|newYaml| == |yaml|
      && (forall i :: 0 <= i < |yaml| ==> newYaml[i] == RewriteLine(yaml[i], CloneReplacements(name, uuid)))
      && events == (if initVcs then InitVcsEvents(conf, name, dest, trackVcs, succeeds) else []))
  {
    if !copied {
      return false, yaml, [CopyFailed];
    }
    newYaml := ReplaceInYaml(yaml, CloneReplacements(name, uuid));
    events := [];
    if initVcs {
      events := PerformInitVcs(conf, name, dest, trackVcs, succeeds);
    }
    ok := true;
  }

  /** The identifier written to `app.yaml` is at most eight characters long: the first eight of the uuid. */
  lemma CloneId(uuid: string)
    ensures |Prefix8(uuid)| <= 8
    ensures |uuid| >= 8 ==> |Prefix8(uuid)| == 8 && Prefix8(uuid) == uuid[..8]
  {
  }
}
