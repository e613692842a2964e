/**
 * `WatchHandler.on_modified` of dockerutil.py: how a file-system change
 * under an app directory is classified. The handler's calls into the
 * application API, the container and the browser are recorded as actions;
 * what `load_app` answers is a parameter.
 */
module Watcher {
  import opened Wrappers
  import opened Strings

  /** What `on_modified` does, in order. */
  datatype Action =
    | Echo(text: string)                 // click.echo
    | Success(text: string)              // echo_success
    | LoadApp(app: string)               // jbapiutil.load_app(app)
    | RunInContainer(command: string)    // dockerutil.run(command)
    | RefreshBrowser(timeout: Option<nat>)  // reload.refresh_browser(timeout)

  /** The watcher; `should_reload` is fixed when it is created. */
  datatype WatchHandler = WatchHandler(shouldReload: bool)

  /** The directory names whose changes the watcher ignores. */
  const IgnoredNames: set<string> := {"builds", ".idea", ".git"}

  /**
   * The path's segments: split at `/`, and on Windows at `\` as well
   * (splitting at either is splitting at `/` once every `\` has become `/`).
   */
  function Segments(win32: bool, srcPath: string): (segs: seq<string>)
    ensures |segs| >= 1
  {
    if win32 then Split(Replace(srcPath, "\\", "/"), "/") else Split(srcPath, "/")
  }

  /** Python's `s.endswith(suffix)`. */
  predicate EndsWith(s: string, suffix: string) {
    |suffix| <= |s| && s[|s| - |suffix|..] == suffix
  }

  /** Some segment is one of the ignored directory names. */
  predicate Ignored(segs: seq<string>) {
    exists i :: 0 <= i < |segs| && segs[i] in IgnoredNames
  }

  function LoadCommand(app: string): string {
    "/venv/bin/python manage.py loadjuiceboxapp " + app
  }

  /**
   * `on_modified(event)` for an event on `srcPath` (`modified` tells whether
   * it is a `FileModifiedEvent`), with `loaded` the answer `load_app` gives.
   * A path of a single segment has no app segment: `path[1]` raises.
   */
  function OnModified(h: WatchHandler, win32: bool, srcPath: string, modified: bool, loaded: bool): Result<seq<Action>> {
    OnPath(h, Segments(win32, srcPath), srcPath, modified, loaded)
  }

  /** `on_modified` once the path is cut into segments. */
  function OnPath(h: WatchHandler, path: seq<string>, srcPath: string, modified: bool, loaded: bool): Result<seq<Action>> {
    if |path| < 2 then Err(IndexError)
    else
      var app := path[1];
      var filename := path[|path| - 1];
      var isPythonChange := EndsWith(filename, ".py") && modified;
      var handled :=
        if !Ignored(path) then
          [Echo("Change detected in " + app + ".")]
          + (if isPythonChange then
               (if h.shouldReload then [RefreshBrowser(Some(5))] else [])
             else
               [LoadApp(app)]
               + (if !loaded then [RunInContainer(LoadCommand(app))] else [])
               + [Success(app + " was added successfully.")]
               + (if h.shouldReload then [RefreshBrowser(None)] else []))
        else
          [Echo("Change to " + srcPath + " ignored")];
      Ok(handled + [Echo("Waiting for changes...")])
  }

  /** The actions other than messages: the calls the handler makes. */
  function Effects(actions: seq<Action>): seq<Action> {
    if actions == [] then []
    else
      var last := actions[|actions| - 1];
      Effects(actions[..|actions| - 1]) + (if last.Echo? || last.Success? then [] else [last])
  }

  lemma {:induction false} EffectsAppend(a: seq<Action>, b: seq<Action>)
    ensures Effects(a + b) == Effects(a) + Effects(b)
    decreases |b|
  {
    if b == [] {
      assert a + b == a;
    } else {
      assert (a + b)[..|a + b| - 1] == a + b[..|b| - 1];
      EffectsAppend(a, b[..|b| - 1]);
    }
  }

  lemma EffectsOfOne(x: Action)
    ensures Effects([x]) == if x.Echo? || x.Success? then [] else [x]
  {
    assert [x][..0] == [];
  }

  /** A change whose path has no second segment raises before anything is done. */
  lemma WatchShortPath(h: WatchHandler, win32: bool, srcPath: string, modified: bool, loaded: bool)
    requires |Segments(win32, srcPath)| < 2
    ensures OnModified(h, win32, srcPath, modified, loaded) == Err(IndexError)
  {
  }

  /** A change under `builds`, `.idea` or `.git` is only reported: no load, no run, no refresh. */
  lemma WatchIgnored(h: WatchHandler, win32: bool, srcPath: string, modified: bool, loaded: bool)
    requires |Segments(win32, srcPath)| >= 2 && Ignored(Segments(win32, srcPath))
    ensures OnModified(h, win32, srcPath, modified, loaded).Ok?
    ensures Effects(OnModified(h, win32, srcPath, modified, loaded).value) == []
  {
    var acts := [Echo("Change to " + srcPath + " ignored"), Echo("Waiting for changes...")];
    assert OnModified(h, win32, srcPath, modified, loaded) == Ok([acts[0]] + [acts[1]]);
    EffectsAppend([acts[0]], [acts[1]]);
    EffectsOfOne(acts[0]);
    EffectsOfOne(acts[1]);
    assert acts == [acts[0]] + [acts[1]];
  }

  /**
   * A modified Python file only refreshes the browser, after a five-second
   * health-check interval, and only when the watcher reloads; the app is
   * not loaded.
   */
  lemma WatchPythonChange(h: WatchHandler, win32: bool, srcPath: string, loaded: bool)
    requires var path := Segments(win32, srcPath);
      |path| >= 2 && !Ignored(path) && EndsWith(path[|path| - 1], ".py")
    ensures OnModified(h, win32, srcPath, true, loaded).Ok?
    ensures Effects(OnModified(h, win32, srcPath, true, loaded).value)
      == if h.shouldReload then [RefreshBrowser(Some(5))] else []
  {
    var path := Segments(win32, srcPath);
    var first := Echo("Change detected in " + path[1] + ".");
    var refresh: seq<Action> := if h.shouldReload then [RefreshBrowser(Some(5))] else [];
    var last := Echo("Waiting for changes...");
    assert OnModified(h, win32, srcPath, true, loaded) == Ok([first] + refresh + [last]);
    EffectsAppend([first] + refresh, [last]);
    EffectsAppend([first], refresh);
    EffectsOfOne(first);
    EffectsOfOne(last);
    if h.shouldReload {
      EffectsOfOne(RefreshBrowser(Some(5)));
    }
  }

  /**
   * Any other change loads the app named by the path's second segment, runs
   * `loadjuiceboxapp` in the container exactly when that load failed, and
   * then refreshes the browser at once exactly when the watcher reloads.
   */
  lemma WatchAppChange(h: WatchHandler, win32: bool, srcPath: string, modified: bool, loaded: bool)
    requires var path := Segments(win32, srcPath);
      |path| >= 2 && !Ignored(path) && !(EndsWith(path[|path| - 1], ".py") && modified)
    ensures OnModified(h, win32, srcPath, modified, loaded).Ok?
    ensures var app := Segments(win32, srcPath)[1];
      Effects(OnModified(h, win32, srcPath, modified, loaded).value)
      == [LoadApp(app)]
         + (if !loaded then [RunInContainer(LoadCommand(app))] else [])
         + (if h.shouldReload then [RefreshBrowser(None)] else [])
  {
    AppChangeEffects(h, Segments(win32, srcPath), srcPath, modified, loaded);
  }

  lemma AppChangeEffects(h: WatchHandler, path: seq<string>, srcPath: string, modified: bool, loaded: bool)
    requires |path| >= 2 && !Ignored(path) && !(EndsWith(path[|path| - 1], ".py") && modified)
    ensures OnPath(h, path, srcPath, modified, loaded).Ok?
    ensures var app := path[1];
      Effects(OnPath(h, path, srcPath, modified, loaded).value)
      == [LoadApp(app)]
         + (if !loaded then [RunInContainer(LoadCommand(app))] else [])
         + (if h.shouldReload then [RefreshBrowser(None)] else [])
  {
    var app := path[1];
    var run: seq<Action> := if !loaded then [RunInContainer(LoadCommand(app))] else [];
    var refresh: seq<Action> := if h.shouldReload then [RefreshBrowser(None)] else [];
    var x1 := [LoadApp(app)] + run;
    assert OnPath(h, path, srcPath, modified, loaded)
      == Ok([Echo("Change detected in " + app + ".")] + (x1 + [Success(app + " was added successfully.")] + refresh)
            + [Echo("Waiting for changes...")]);
    EffectsAppend([LoadApp(app)], run);
    EffectsOfOne(LoadApp(app));
    if !loaded {
      EffectsOfOne(RunInContainer(LoadCommand(app)));
    }
    if h.shouldReload {
      EffectsOfOne(RefreshBrowser(None));
    }
    LoadEffects("Change detected in " + app + ".", x1, app + " was added successfully.", refresh, "Waiting for changes...");
  }

  /** Messages around the calls leave just the calls. */
  lemma LoadEffects(first: string, x1: seq<Action>, done: string, refresh: seq<Action>, last: string)
    requires Effects(x1) == x1 && Effects(refresh) == refresh
    ensures Effects([Echo(first)] + (x1 + [Success(done)] + refresh) + [Echo(last)]) == x1 + refresh
  {
    var x2 := x1 + [Success(done)];
    var x3 := x2 + refresh;
    EffectsAppend(x1, [Success(done)]);
    EffectsOfOne(Success(done));
    EffectsAppend(x2, refresh);
    EffectsAppend([Echo(first)] + x3, [Echo(last)]);
    EffectsAppend([Echo(first)], x3);
    EffectsOfOne(Echo(first));
    EffectsOfOne(Echo(last));
  }

  /**
   * The app is the path's second segment: for a path written as segments
   * joined by `/` (or, on Windows, by `\`), the segments come back unchanged.
   */
  lemma SegmentsOfJoined(win32: bool, parts: seq<string>)
    requires |parts| >= 1
    requires forall k :: 0 <= k < |parts| ==> '/' !in parts[k] && '\\' !in parts[k]
    ensures Segments(false, Join(parts, "/")) == parts
    ensures Segments(true, Join(parts, "\\")) == parts
  {
    SplitJoinChar(parts, '/');
    var p := Join(parts, "\\");
    assert Replace(p, "\\", "/") == Join(parts, "/") by {
      JoinReplaceChar(parts, '\\', '/');
    }
  }

  /** Replacing the separator character of a join, where no part holds either character, rejoins with the other. */
  lemma {:induction false} JoinReplaceChar(parts: seq<string>, a: char, b: char)
    requires |parts| >= 1
    requires forall k :: 0 <= k < |parts| ==> a !in parts[k] && b !in parts[k]
    ensures Replace(Join(parts, [a]), [a], [b]) == Join(parts, [b])
    decreases |parts|
  {
    ContainsChar(parts[0], a);
    if |parts| == 1 {
    } else {
      JoinCons(parts[0], parts[1..], [a]);
      JoinCons(parts[0], parts[1..], [b]);
      assert [parts[0]] + parts[1..] == parts;
      JoinReplaceChar(parts[1..], a, b);
      var rest := Join(parts[1..], [a]);
      ReplaceCharAfter(parts[0], a, b, rest);
    }
  }

  /** `Replace` at a character passes over a prefix free of it. */
  lemma ReplaceCharAfter(x: string, a: char, b: char, rest: string)
    requires a !in x
    ensures Replace(x + [a] + rest, [a], [b]) == x + [b] + Replace(rest, [a], [b])
  {
    SplitAtChar(x, a, rest);
    var pieces := Split(rest, [a]);
    JoinCons(x, pieces, [b]);
    assert [x] + pieces == Split(x + [a] + rest, [a]);
  }
}
