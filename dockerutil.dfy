/**
 * The registry and container helpers of dockerutil.py: `is_running`,
 * `check_home`, `parse_dc_file`, the login handling of `pull` and the tag
 * rewriting of `set_tag`. The Docker engine, the file system and the
 * subprocesses are replaced by their answers, passed in as parameters.
 * A file is the sequence of its lines, each with its own line ending, as
 * Python's line iteration yields them.
 */
module DockerUtil {
  import opened Wrappers
  import opened Strings
  import Seqs

  type Argv = seq<string>

  /**
   * `is_running(service)`: the position, among the running containers as
   * the engine lists them, of the first one whose name contains `service`.
   */
  method IsRunning(service: string, containers: seq<string>) returns (found: Option<nat>)
    ensures found.Some? ==> found.value < |containers| && Contains(containers[found.value], service)
    ensures forall i: nat :: i < |containers| && (found.None? || i < found.value) ==> !Contains(containers[i], service)
  {
    var i := 0;
    while i < |containers|
      invariant 0 <= i <= |containers|
      invariant forall j: nat :: j < i ==> !Contains(containers[j], service)
    {
      if Contains(containers[i], service) {
        return Some(i);
      }
      i := i + 1;
    }
    return None;
  }

  predicate IsSlash(c: char) {
    c == '/'
  }

  predicate AllSlashes(s: string) {
    forall i :: 0 <= i < |s| ==> s[i] == '/'
  }

  /** Python's `posixpath.dirname`: everything before the last `/`, without trailing slashes unless it is all slashes. */
  function DirName(p: string): string {
    var head := match LastIndexOf(p, '/') case None => "" case Some(k) => p[..k + 1];
    if head != [] && !AllSlashes(head) then TrimRight(head, IsSlash) else head
  }

  /** The parent of `d/name`, for a directory `d` without a trailing slash, is `d`. */
  lemma DirNameOfChild(d: string, name: string)
    requires '/' !in name && d != [] && d[|d| - 1] != '/'
    ensures DirName(d + "/" + name) == d
  {
    var p := d + "/" + name;
    assert p[|d|] == '/';
    assert p[|d| + 1..] == name;
    var k := LastIndexOf(p, '/').value;
    assert k == |d|;
    assert p[..k + 1] == d + "/";
    assert p[..k + 1][|d| - 1] != '/';
    TrimRightSuffix(d, "/", IsSlash);
  }

  /** The parent of a top-level entry `/name` is the root. */
  lemma DirNameOfTopLevel(name: string)
    requires '/' !in name
    ensures DirName("/" + name) == "/"
  {
    var p := "/" + name;
    assert p[1..] == name;
    assert LastIndexOf(p, '/') == Some(0);
  }

  /**
   * `check_home()`: inside an environment directory (one holding
   * `docker-compose.selfserve.yml` and `apps`), the parent of the absolute
   * working directory `cwd`; otherwise nothing.
   */
  function CheckHome(hasSelfserveFile: bool, hasAppsDir: bool, cwd: string): (r: Option<string>)
    ensures r.Some? <==> hasSelfserveFile && hasAppsDir
  {
    if hasSelfserveFile && hasAppsDir then Some(DirName(cwd)) else None
  }

  /** Run from `d/env`, `check_home` names `d`. */
  lemma CheckHomeIsParent(d: string, env: string)
    requires '/' !in env && d != [] && d[|d| - 1] != '/'
    ensures CheckHome(true, true, d + "/" + env) == Some(d)
  {
    DirNameOfChild(d, env);
  }

  /** The registry prefix every image of the environments lives under. */
  const BaseEcr: string := "423681189101.dkr.ecr.us-east-1.amazonaws.com/"

  predicate IsQuote(c: char) {
    c == '"'
  }

  /** `i.strip().strip('"')`. */
  function Clean(piece: string): string {
    Strip(Strip(piece, IsStrSpace), IsQuote)
  }

  /** The repository part `parse_dc_file` selects for an image reference; `None` leaves `full_path` unbound. */
  function RepositoryPrefix(reference: string): Option<string> {
    if Contains(reference, "controlcenter-dev") then Some(BaseEcr + "controlcenter-dev:")
    else if Contains(reference, "juicebox-dev") then Some(BaseEcr + "juicebox-devlandia:")
    else None
  }

  /** What `parse_dc_file(tag)` returns, or raises, for the first line that names the registry. */
  function PathFromLine(line: string, tag: Option<string>): Result<Option<string>> {
    PathFromSplit(Split(line, ":"), tag)
  }

  /** What `parse_dc_file` makes of a line's pieces between colons. */
  function PathFromSplit(pieces: seq<string>, tag: Option<string>): Result<Option<string>> {
    var pair := seq(|pieces|, i requires 0 <= i < |pieces| => Clean(pieces[i]));
    if |pair| < 2 then Err(IndexError)
    else
      match RepositoryPrefix(pair[1])
      case None => Err(UnboundLocal)
      case Some(fullPath) =>
        match tag
        case Some(t) => Ok(Some(fullPath + t))
        case None => if |pair| < 3 then Err(IndexError) else Ok(Some(fullPath + pair[2]))
  }

  /** The body of `parse_dc_file` once the first registry line is split. */
  method PathOfPieces(pieces: seq<string>, tag: Option<string>) returns (r: Result<Option<string>>)
    ensures r == PathFromSplit(pieces, tag)
  {
    var pair := seq(|pieces|, i requires 0 <= i < |pieces| => Clean(pieces[i]));
    if |pair| < 2 {
      return Err(IndexError);
    }
    var fullPath: Option<string> := None;  // `full_path` still unbound
    if Contains(pair[1], "controlcenter-dev") {
      fullPath := Some(BaseEcr + "controlcenter-dev:");
    } else if Contains(pair[1], "juicebox-dev") {
      fullPath := Some(BaseEcr + "juicebox-devlandia:");
    }
    if fullPath.None? {
      r := Err(UnboundLocal);
    } else if tag.Some? {
      r := Ok(Some(fullPath.value + tag.value));
    } else if |pair| < 3 {
      r := Err(IndexError);
    } else {
      r := Ok(Some(fullPath.value + pair[2]));
    }
  }

  /** Line `i` is the first line that names the registry. */
  predicate FirstRegistryLine(lines: seq<string>, i: int) {
    0 <= i < |lines| && Contains(lines[i], BaseEcr) && forall j :: 0 <= j < i ==> !Contains(lines[j], BaseEcr)
  }

  /**
   * `parse_dc_file(tag)` over the lines of `docker-compose.selfserve.yml`:
   * nothing when the file is missing or no line names the registry;
   * otherwise what the first such line gives.
   */
  method ParseDcFile(fileExists: bool, lines: seq<string>, tag: Option<string>) returns (r: Result<Option<string>>)
    ensures !fileExists ==> r == Ok(None)
    ensures fileExists && (forall i :: 0 <= i < |lines| ==> !Contains(lines[i], BaseEcr)) ==> r == Ok(None)
    ensures fileExists ==> forall i :: FirstRegistryLine(lines, i) ==> r == PathFromLine(lines[i], tag)
  {
    if !fileExists {
      return Ok(None);
    }
    var found := FindRegistryLine(lines);
    if found.None? {
      return Ok(None);
    }
    r := FromRegistryLine(lines, found.value, tag);
  }

  /** The loop of `parse_dc_file` up to its first line that names the registry. */
  method FindRegistryLine(lines: seq<string>) returns (found: Option<nat>)
    ensures found.Some? ==> FirstRegistryLine(lines, found.value)
    ensures found.None? ==> forall i :: 0 <= i < |lines| ==> !Contains(lines[i], BaseEcr)
  {
    var k := 0;
    while k < |lines|
      invariant 0 <= k <= |lines|
      invariant forall j :: 0 <= j < k ==> !Contains(lines[j], BaseEcr)
    {
      if Contains(lines[k], BaseEcr) {
        return Some(k);
      }
      k := k + 1;
    }
    return None;
  }

  /** The first line naming the registry is split, and the path built from its first pieces is returned. */
  method FromRegistryLine(lines: seq<string>, k: nat, tag: Option<string>) returns (r: Result<Option<string>>)
    requires FirstRegistryLine(lines, k)
    ensures !(forall i :: 0 <= i < |lines| ==> !Contains(lines[i], BaseEcr))
    ensures forall i :: FirstRegistryLine(lines, i) ==> r == PathFromLine(lines[i], tag)
  {
    var dcList: seq<seq<string>> := [];
    dcList := dcList + [Split(lines[k], ":")];
    r := PathOfPieces(dcList[0], tag);
    FirstRegistryResult(lines, k, tag, r);
  }

  /** What the first registry line gives is the result for every first registry line. */
  lemma FirstRegistryResult(lines: seq<string>, k: nat, tag: Option<string>, r: Result<Option<string>>)
    requires k < |lines| && Contains(lines[k], BaseEcr)
    requires forall j :: 0 <= j < k ==> !Contains(lines[j], BaseEcr)
    requires r == PathFromLine(lines[k], tag)
    ensures !(forall i :: 0 <= i < |lines| ==> !Contains(lines[i], BaseEcr))
    ensures forall i :: FirstRegistryLine(lines, i) ==> r == PathFromLine(lines[i], tag)
  {
    FirstRegistryLineUnique(lines, k);
  }

  lemma FirstRegistryLineUnique(lines: seq<string>, k: int)
    requires FirstRegistryLine(lines, k)
    ensures forall i :: FirstRegistryLine(lines, i) ==> i == k
  {
  }

  /** A piece `Clean` leaves as it is: non-empty, with no whitespace or quote at either end. */
  predicate Bare(s: string) {
    s != [] && !IsStrSpace(s[0]) && !IsQuote(s[0]) && !IsStrSpace(s[|s| - 1]) && !IsQuote(s[|s| - 1])
  }

  lemma ImageLinePieces(key: string, p1: string, p2: string)
    requires ':' !in key && ':' !in p1 && ':' !in p2
    ensures Split(key + ":" + p1 + ":" + p2, ":") == [key, p1, p2]
  {
    assert key + ":" + p1 + ":" + p2 == key + [':'] + (p1 + [':'] + p2);
    SplitAtChar(key, ':', p1 + [':'] + p2);
    SplitAtChar(p1, ':', p2);
    SplitNoChar(p2, ':');
  }

  lemma CleanQuotedReference(reference: string)
    requires Bare(reference)
    ensures Clean(" \"" + reference) == reference
  {
    var quoted := "\"" + reference;
    assert " \"" + reference == " " + quoted;
    assert quoted[0] == '"' && quoted[|quoted| - 1] == reference[|reference| - 1];
    StripLeading(" ", quoted, IsStrSpace);
    StripLeading("\"", reference, IsQuote);
  }

  lemma CleanQuotedTag(oldTag: string)
    requires Bare(oldTag)
    ensures Clean(oldTag + "\"\n") == oldTag
  {
    var quoted := oldTag + "\"";
    assert oldTag + "\"\n" == quoted + "\n";
    assert quoted[0] == oldTag[0] && quoted[|quoted| - 1] == '"';
    assert !IsStrSpace('"');
    assert IsStrSpace("\n"[0]);
    StripTrailing(quoted, "\n", IsStrSpace);
    StripTrailing(oldTag, "\"", IsQuote);
  }

  /**
   * The image line of a compose file, `key: "reference:tag"`, gives back the
   * path of the referenced repository with the requested tag, or with the
   * line's own tag when none is requested.
   */
  lemma ImageLineRoundTrip(key: string, reference: string, oldTag: string, tag: Option<string>)
    requires ':' !in key && ':' !in reference && ':' !in oldTag
    requires Bare(reference) && Bare(oldTag)
    requires RepositoryPrefix(reference).Some?
    ensures PathFromLine(key + ": \"" + reference + ":" + oldTag + "\"\n", tag)
      == Ok(Some(RepositoryPrefix(reference).value + tag.GetOr(oldTag)))
  {
    var p1 := " \"" + reference;
    var p2 := oldTag + "\"\n";
    ImageLineShape(key, reference, oldTag);
    ImageLinePieces(key, p1, p2);
    CleanQuotedReference(reference);
    CleanQuotedTag(oldTag);
    PathFromPieces(key + ":" + p1 + ":" + p2, key, p1, p2, tag);
  }

  lemma ImageLineShape(key: string, reference: string, oldTag: string)
    ensures key + ": \"" + reference + ":" + oldTag + "\"\n" == key + ":" + (" \"" + reference) + ":" + (oldTag + "\"\n")
  {
  }

  lemma PathFromPieces(line: string, key: string, p1: string, p2: string, tag: Option<string>)
    requires Split(line, ":") == [key, p1, p2] && RepositoryPrefix(Clean(p1)).Some?
    ensures PathFromLine(line, tag) == Ok(Some(RepositoryPrefix(Clean(p1)).value + tag.GetOr(Clean(p2))))
  {
  }

  /** The registry login command `pull` runs first. */
  const GetLogin: Argv := ["aws", "ecr", "get-login", "--registry-ids", "423681189101", "976661725066", "--no-include-email"]

  /** The commands the login output's lines hold: each non-empty line, split on whitespace, in order. */
  function LoginCommands(lines: seq<string>): seq<Argv> {
    if lines == [] then []
    else
      var last := lines[|lines| - 1];
      LoginCommands(lines[..|lines| - 1]) + (if last != "" then [SplitWhitespace(last, IsByteSpace)] else [])
  }

  lemma LoginCommandsSnoc(lines: seq<string>, i: nat)
    requires i < |lines|
    ensures LoginCommands(lines[..i + 1])
      == LoginCommands(lines[..i]) + (if lines[i] != "" then [SplitWhitespace(lines[i], IsByteSpace)] else [])
  {
    assert lines[..i + 1][..i] == lines[..i];
  }

  lemma {:induction false} LoginCommandsAppend(a: seq<string>, b: seq<string>)
    ensures LoginCommands(a + b) == LoginCommands(a) + LoginCommands(b)
    decreases |b|
  {
    if b == [] {
      assert a + b == a;
    } else {
      assert (a + b)[..|a + b| - 1] == a + b[..|b| - 1];
      LoginCommandsAppend(a, b[..|b| - 1]);
    }
  }

  /**
   * The output of the login command, a newline-joined list of lines, gives one
   * command per non-empty line; each command is a list of non-empty tokens
   * free of whitespace.
   */
  lemma LoginCommandsOfOutput(lines: seq<string>)
    requires |lines| >= 1 && forall k :: 0 <= k < |lines| ==> '\n' !in lines[k]
    ensures LoginCommands(Split(Join(lines, "\n"), "\n")) == LoginCommands(lines)
    ensures forall c, t :: 0 <= c < |LoginCommands(lines)| && 0 <= t < |LoginCommands(lines)[c]| ==>
      LoginCommands(lines)[c][t] != [] && NoSpace(LoginCommands(lines)[c][t], IsByteSpace)
  {
    SplitJoinChar(lines, '\n');
    LoginTokens(lines);
  }

  lemma {:induction false} LoginTokens(lines: seq<string>)
    ensures forall c, t :: 0 <= c < |LoginCommands(lines)| && 0 <= t < |LoginCommands(lines)[c]| ==>
      LoginCommands(lines)[c][t] != [] && NoSpace(LoginCommands(lines)[c][t], IsByteSpace)
    decreases |lines|
  {
    if lines != [] {
      LoginTokens(lines[..|lines| - 1]);
      SplitWhitespaceSpec(lines[|lines| - 1], IsByteSpace);
    }
  }

  /** The first of the calls `0 .. n-1` that fails. */
  function FirstFailure(ok: nat -> bool, n: nat): (r: Option<nat>)
    ensures r.Some? ==> r.value < n && !ok(r.value)
    ensures forall k: nat :: k < n && (r.None? || k < r.value) ==> ok(k)
  {
    if n == 0 then None
    else
      match FirstFailure(ok, n - 1)
      case Some(k) => Some(k)
      case None => if ok(n - 1) then None else Some(n - 1)
  }

  lemma FirstFailureAt(ok: nat -> bool, m: nat, n: nat)
    requires n < m && !ok(n) && forall k: nat :: k < n ==> ok(k)
    ensures FirstFailure(ok, m) == Some(n)
  {
  }

  /**
   * The login loop of `pull`: runs the commands of the login output's lines
   * in order, `ok(k)` telling whether the `k`-th succeeds, and stops at the
   * first failure. It returns the commands issued and whether one failed.
   */
  method RunLogins(dockerLogins: seq<string>, ok: nat -> bool) returns (issued: seq<Argv>, failed: bool)
    ensures var logins := LoginCommands(dockerLogins);
      match FirstFailure(ok, |logins|)
      case Some(k) => failed && issued == logins[..k + 1]
      case None => !failed && issued == logins
  {
    issued := [];
    var i := 0;
    while i < |dockerLogins|
      invariant 0 <= i <= |dockerLogins|
      invariant issued == LoginCommands(dockerLogins[..i])
      invariant forall k: nat :: k < |issued| ==> ok(k)
    {
      var dockerLogin := dockerLogins[i];
      LoginCommandsSnoc(dockerLogins, i);
      if dockerLogin != "" {
        var n := |issued|;
        issued := issued + [SplitWhitespace(dockerLogin, IsByteSpace)];
        if !ok(n) {
          LoginCommandsAppend(dockerLogins[..i + 1], dockerLogins[i + 1..]);
          assert dockerLogins[..i + 1] + dockerLogins[i + 1..] == dockerLogins;
          ghost var logins := LoginCommands(dockerLogins);
          assert logins[..n + 1] == issued;
          FirstFailureAt(ok, |logins|, n);
          return issued, true;
        }
      }
      i := i + 1;
    }
    assert dockerLogins[..i] == dockerLogins;
    failed := false;
  }

  /**
   * `pull(tag)`: `home` is what `check_home` found, `dcPath` what
   * `parse_dc_file(tag)` gave, `loginOutput` the login command's output
   * (`None` when it failed), and `ok(k)` whether the `k`-th `check_call`
   * succeeds. It returns the commands issued, in order, and the outcome:
   * the login commands run first, in order, up to the first failure, and
   * the single `docker pull` only after all of them succeeded.
   */
  method Pull(home: Option<string>, dcPath: Result<Option<string>>, loginOutput: Option<string>, ok: nat -> bool)
    returns (calls: seq<Argv>, r: Result<()>)
    ensures home.None? ==> calls == [] && r == Err(Abort)
    ensures home.Some? && dcPath.Err? ==> calls == [] && r == Err(dcPath.error)
    ensures home.Some? && dcPath.Ok? && loginOutput.None? ==> calls == [GetLogin] && r == Err(CalledProcess)
    ensures home.Some? && dcPath.Ok? && loginOutput.Some? ==>
      var logins := LoginCommands(Split(loginOutput.value, "\n"));
      match FirstFailure(ok, |logins|)
      case Some(k) => calls == [GetLogin] + logins[..k + 1] && r == Err(CalledProcess)
      case None =>
        match dcPath.value
        case None => calls == [GetLogin] + logins && r == Err(TypeError)
        case Some(p) =>
          calls == [GetLogin] + logins + [["docker", "pull", p]] && r == (if ok(|logins|) then Ok(()) else Err(CalledProcess))
  {
    if home.None? {
      return [], Err(Abort);
    }
    if dcPath.Err? {
      return [], Err(dcPath.error);
    }
    var fullPath := dcPath.value;
    if loginOutput.None? {
      return [GetLogin], Err(CalledProcess);
    }
    var dockerLogins := Split(loginOutput.value, "\n");
    var issued, failed := RunLogins(dockerLogins, ok);
    calls := [GetLogin] + issued;
    if failed {
      return calls, Err(CalledProcess);
    }
    if fullPath.None? {
      return calls, Err(TypeError);
    }
    calls := calls + [["docker", "pull", fullPath.value]];
    if !ok(|issued|) {
      return calls, Err(CalledProcess);
    }
    r := Ok(());
  }

  /** The marker of the lines `set_tag` rewrites. */
  const DevlandiaRef: string := "juicebox-devlandia:"

  /** Python's `s[:-2]`. */
  function DropLastTwo(s: string): (r: string)
    ensures |s| >= 2 ==> s == r + s[|s| - 2..]
    ensures |s| < 2 ==> r == ""
  {
    if |s| >= 2 then s[..|s| - 2] else ""
  }

  predicate IsTagLine(line: string) {
    Contains(line, DevlandiaRef)
  }

  /** A tag line whose tag, the text after its last `:` less two closing characters, differs from `tag`. */
  predicate NeedsRetag(line: string, tag: string) {
    IsTagLine(line) && DropLastTwo(AfterLast(line, ':')) != tag
  }

  /** `line.replace(oldTag, tag) + '"\n'`. */
  function Retagged(line: string, tag: string): string {
    PyReplace(line, AfterLast(line, ':'), tag) + "\"\n"
  }

  /** The line `set_tag` as evidently intended writes: retagged where it needs a new tag, else as it was. */
  function RetagOrKeep(line: string, tag: string): string {
    if NeedsRetag(line, tag) then Retagged(line, tag) else line
  }

  function RetagOrKeepOf(tag: string): string -> string {
    line => RetagOrKeep(line, tag)
  }

  /** Some line of the file needs a new tag. */
  predicate AnyRetag(lines: seq<string>, tag: string) {
    Seqs.Any(lines, NeedsRetagOf(tag))
  }

  function NeedsRetagOf(tag: string): string -> bool {
    line => NeedsRetag(line, tag)
  }

  function AsIsLineOf(tag: string): string -> seq<string> {
    line => AsIsLine(line, tag)
  }

  /** What `set_tag` as written writes for one line: nothing for a tag line already on `tag`. */
  function AsIsLine(line: string, tag: string): (r: seq<string>)
    ensures |r| <= 1
    ensures IsTagLine(line) && !NeedsRetag(line, tag) ==> r == []
    ensures !IsTagLine(line) ==> r == [line]
  {
    if !IsTagLine(line) then [line] else if NeedsRetag(line, tag) then [Retagged(line, tag)] else []
  }

  /** The lines `set_tag` as written puts in `out.txt`. */
  function WrittenAsIs(lines: seq<string>, tag: string): seq<string> {
    Seqs.FlatMap(lines, AsIsLineOf(tag))
  }

  /** One line of `set_tag` as written: what it writes for the line, and whether it was retagged. */
  method AsIsStep(line: string, tag: string) returns (emit: seq<string>, retagged: bool)
    ensures retagged == NeedsRetag(line, tag)
    ensures emit == AsIsLine(line, tag)
  {
    emit, retagged := [], false;
    if Contains(line, DevlandiaRef) {
      var oldTag := AfterLast(line, ':');
      if DropLastTwo(oldTag) != tag {
        emit, retagged := [PyReplace(line, oldTag, tag) + "\"\n"], true;
      }
    } else {
      emit := [line];
    }
  }

  /**
   * `set_tag(env, tag)` as written, over the lines of the environment's
   * `docker-compose.selfserve.yml`: the file's new lines, and whether it was
   * replaced.
   */
  method SetTagAsWritten(lines: seq<string>, tag: string) returns (file: seq<string>, replaced: bool)
    ensures replaced <==> AnyRetag(lines, tag)
    ensures file == if replaced then WrittenAsIs(lines, tag) else lines
  {
    var out: seq<string> := [];
    var changed := false;
    var i := 0;
    while i < |lines|
      invariant 0 <= i <= |lines|
      invariant out == WrittenAsIs(lines[..i], tag)
      invariant changed <==> AnyRetag(lines[..i], tag)
    {
      var line := lines[i];
      Seqs.FlatMapSnoc(lines, i, AsIsLineOf(tag));
      Seqs.AnySnoc(lines, i, NeedsRetagOf(tag));
      var emit, retagged := AsIsStep(line, tag);
      out := out + emit;
      changed := changed || retagged;
      i := i + 1;
    }
    assert lines[..i] == lines;
    if changed {
      file, replaced := out, true;
    } else {
      file, replaced := lines, false;
    }
  }

  /** One line of `set_tag` as evidently intended: the line to write, and whether it was retagged. */
  method RetagStep(line: string, tag: string) returns (next: string, retagged: bool)
    ensures retagged == NeedsRetag(line, tag)
    ensures next == RetagOrKeep(line, tag)
  {
    next, retagged := line, false;
    if Contains(line, DevlandiaRef) {
      var oldTag := AfterLast(line, ':');
      if DropLastTwo(oldTag) != tag {
        next, retagged := PyReplace(line, oldTag, tag) + "\"\n", true;
      }
    }
  }

  /**
   * `set_tag` as evidently intended: every line is written, tag lines with a
   * different tag rewritten, and the file replaced only when one was.
   */
  method SetTag(lines: seq<string>, tag: string) returns (file: seq<string>, replaced: bool)
    ensures replaced <==> AnyRetag(lines, tag)
    ensures |file| == |lines|
    ensures forall i :: 0 <= i < |lines| ==> file[i] == RetagOrKeep(lines[i], tag)
  {
    var out: seq<string> := [];
    var changed := false;
    var i := 0;
    while i < |lines|
      invariant 0 <= i <= |lines|
      invariant out == Seqs.Map(lines[..i], RetagOrKeepOf(tag))
      invariant changed <==> AnyRetag(lines[..i], tag)
    {
      var line := lines[i];
      Seqs.AnySnoc(lines, i, NeedsRetagOf(tag));
      Seqs.MapSnoc(lines, i, RetagOrKeepOf(tag));
      var next, retagged := RetagStep(line, tag);
      out := out + [next];
      changed := changed || retagged;
      i := i + 1;
    }
    assert lines[..i] == lines;
    if changed {
      file, replaced := out, true;
    } else {
      file, replaced := lines, false;
    }
  }

  /**
   * On a quoted tag line `head:oldTag"`, the tag is `oldTag`, and retagging
   * rewrites exactly it.
   */
  lemma RetagLine(head: string, oldTag: string, tag: string)
    requires ':' !in oldTag && '\n' !in head && '\n' !in oldTag
    ensures DropLastTwo(AfterLast(head + ":" + oldTag + "\"\n", ':')) == oldTag
    ensures Retagged(head + ":" + oldTag + "\"\n", tag) == head + ":" + tag + "\"\n"
  {
    var suffix := oldTag + "\"\n";
    assert head + ":" + oldTag + "\"\n" == head + [':'] + suffix;
    assert ':' !in suffix;
    AfterLastOf(head, ':', suffix);
    assert head + ":" + suffix == (head + ":" + oldTag + "\"") + "\n";
    ReplaceSuffix(head + ":", suffix, tag);
  }

  /**
   * Retagging a compose file's image line and parsing it again yields the
   * image path with the new tag: `set_tag` followed by `parse_dc_file(None)`.
   */
  lemma RetagThenParse(key: string, reference: string, oldTag: string, tag: string)
    requires ':' !in key && ':' !in reference && ':' !in oldTag && ':' !in tag
    requires '\n' !in key && '\n' !in reference && '\n' !in oldTag
    requires Bare(reference) && Bare(oldTag) && Bare(tag)
    requires RepositoryPrefix(reference).Some?
    ensures Retagged(key + ": \"" + reference + ":" + oldTag + "\"\n", tag) == key + ": \"" + reference + ":" + tag + "\"\n"
    ensures PathFromLine(Retagged(key + ": \"" + reference + ":" + oldTag + "\"\n", tag), None)
      == Ok(Some(RepositoryPrefix(reference).value + tag))
  {
    var head := key + ": \"" + reference;
    assert key + ": \"" + reference + ":" + oldTag + "\"\n" == head + ":" + oldTag + "\"\n";
    assert key + ": \"" + reference + ":" + tag + "\"\n" == head + ":" + tag + "\"\n";
    RetagLine(head, oldTag, tag);
    ImageLineRoundTrip(key, reference, tag, None);
  }

  lemma TagLineOf(pre: string, x: string)
    ensures IsTagLine(pre + DevlandiaRef + x)
  {
    var line := pre + DevlandiaRef + x;
    assert line[|pre|..|pre| + |DevlandiaRef|] == DevlandiaRef;
    ContainsAt(line, DevlandiaRef, |pre|);
  }

  /** A tag line already on `tag` shortens what `set_tag` as written writes. */
  lemma WrittenAsIsDrops(lines: seq<string>, tag: string, i: nat)
    requires i < |lines| && IsTagLine(lines[i]) && !NeedsRetag(lines[i], tag)
    ensures |WrittenAsIs(lines, tag)| < |lines|
  {
    Seqs.FlatMapDrops(lines, AsIsLineOf(tag), i);
  }

  /** A quoted tag line `pre` + `juicebox-devlandia:` + `t"` carries the tag `t`. */
  lemma TagOfTagLine(pre: string, t: string)
    requires ':' !in t && '\n' !in pre && '\n' !in t
    ensures IsTagLine(pre + DevlandiaRef + t + "\"\n")
    ensures DropLastTwo(AfterLast(pre + DevlandiaRef + t + "\"\n", ':')) == t
  {
    var line := pre + DevlandiaRef + t + "\"\n";
    assert IsTagLine(line) by {
      TagLineOf(pre, t + "\"\n");
      assert pre + DevlandiaRef + (t + "\"\n") == line;
    }
    var name := "juicebox-devlandia";
    var head := pre + name;
    assert head + ":" + t + "\"\n" == line by {
      assert DevlandiaRef == name + ":";
      Seqs.AppendAssoc(pre, name, ":", []);
    }
    assert '\n' !in head;
    RetagLine(head, t, t);
  }

  /**
   * The finding in `set_tag`: of two tag lines, one on tag `a` and one
   * already on `b`, retagging to `b` replaces the file and loses the second
   * line; the file shrinks from two lines to one.
   */
  lemma SetTagDropsCurrentLine(pre: string, a: string, b: string)
    requires a != b && ':' !in a && ':' !in b && '\n' !in pre && '\n' !in a && '\n' !in b
    ensures var lines := [pre + DevlandiaRef + a + "\"\n", pre + DevlandiaRef + b + "\"\n"];
      AnyRetag(lines, b) && |WrittenAsIs(lines, b)| < |lines|
  {
    var lines := [pre + DevlandiaRef + a + "\"\n", pre + DevlandiaRef + b + "\"\n"];
    TagOfTagLine(pre, a);
    TagOfTagLine(pre, b);
    assert NeedsRetag(lines[0], b);
    WrittenAsIsDrops(lines, b, 1);
  }
}
