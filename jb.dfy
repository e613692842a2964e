/**
 * The `start` command of jb.py and the helpers around it: option-name
 * normalisation, the environment-to-image-tag table, and the resolution of
 * the environment's settings into the `.env` file, ahead of pulling the
 * image and starting the containers. What the file system, the prompts and
 * the subprocesses answer is passed in; what `start` sets in motion is
 * recorded as steps.
 */
module Jb {
  import opened Wrappers
  import opened Strings
  import Seqs

  /** `normalize(name)`: every `_` becomes `-` (click's option-name normalisation). */
  function Normalize(name: string): string {
    Replace(name, "_", "-")
  }

  /** A normalised name keeps its length and differs from the original only where it had `_`. */
  lemma NormalizePointwise(name: string)
    ensures |Normalize(name)| == |name|
    ensures forall i :: 0 <= i < |name| ==> Normalize(name)[i] == if name[i] == '_' then '-' else name[i]
  {
    ReplaceCharPointwise(name, '_', '-');
  }

  /** A normalised name has no `_`, and normalising it again changes nothing. */
  lemma NormalizeIdempotent(name: string)
    ensures '_' !in Normalize(name)
    ensures Normalize(Normalize(name)) == Normalize(name)
  {
    var n := Normalize(name);
    NormalizePointwise(name);
    NormalizePointwise(n);
    assert '_' !in n by {
      forall i | 0 <= i < |n| ensures n[i] != '_' {
      }
    }
    assert Normalize(n) == n;
  }

  /** The image tag each named environment runs (the ordered dictionary `tag_replacements`). */
  const TagReplacements: map<string, string> := map[
    "core" := "develop-py3",
    "dev" := "develop-py3",
    "stable" := "master-py3",
    "hstm-dev" := "hstm-qa",
    "hstm-newcore" := "develop-py3"
  ]

  /** The tag `start` uses for `env`: the table's entry, or `env` itself. */
  function TagFor(env: string): string {
    if env in TagReplacements then TagReplacements[env] else env
  }

  /** The table's values are not among its keys, so looking up a tag again leaves it as it is. */
  lemma TagForIdempotent(env: string)
    ensures TagFor(TagFor(env)) == TagFor(env)
    ensures env !in TagReplacements ==> TagFor(env) == env
  {
    if env in TagReplacements {
      var t := TagReplacements[env];
      assert t in {"develop-py3", "master-py3", "hstm-qa"};
      assert t !in TagReplacements;
    }
  }

  predicate StartsWith(s: string, prefix: string) {
    |prefix| <= |s| && s[..|prefix|] == prefix
  }

  /** `is_core`: the environment's name mentions `core`, or `--core` was given. */
  predicate IsCore(env: string, core: bool) {
    Contains(env, "core") || core
  }

  /** `is_hstm`: the environment's name starts with `hstm-`, or `--hstm` was given. */
  predicate IsHstm(env: string, hstm: bool) {
    StartsWith(env, "hstm-") || hstm
  }

  /** The lines of a `.env` file: `KEY=value` each, every one ended by a newline. */
  function EnvText(entries: seq<(string, string)>): string {
    if entries == [] then "" else entries[0].0 + "=" + entries[0].1 + "\n" + EnvText(entries[1..])
  }

  /** Reads `KEY=value` lines back; the text after the last newline is not a line. */
  function ParseEnv(text: string): seq<(string, string)> {
    ParseEnvLines(Split(text, "\n"))
  }

  function ParseEnvLines(lines: seq<string>): seq<(string, string)> {
    if |lines| <= 1 then []
    else
      var entry := match SplitOnce(lines[0], "=") case Some(kv) => kv case None => (lines[0], "");
      [entry] + ParseEnvLines(lines[1..])
  }

  /** A key free of `=` is what splitting `key=value` once at `=` gives back. */
  lemma SplitOnceAtChar(key: string, c: char, value: string)
    requires c !in key
    ensures SplitOnce(key + [c] + value, [c]) == Some((key, value))
  {
    var s := key + [c] + value;
    OccursAtChar(s, c, |key|);
    forall j: nat | j < |key| ensures !OccursAt(s, [c], j) {
      OccursAtChar(s, c, j);
      assert s[j] == key[j];
    }
    assert Find(s, [c]) == Some(|key|);
    assert s[..|key|] == key;
    assert s[|key| + 1..] == value;
  }

  /** Reading a written `.env` file back gives its entries, when keys hold no `=` and nothing holds a newline. */
  lemma {:induction false} ParseEnvText(entries: seq<(string, string)>)
    requires forall i :: 0 <= i < |entries| ==>
      '=' !in entries[i].0 && '\n' !in entries[i].0 && '\n' !in entries[i].1
    ensures ParseEnv(EnvText(entries)) == entries
    decreases |entries|
  {
    if entries == [] {
      assert !OccursAt([], "\n", 0);
      assert Split([], "\n") == [[]];
    } else {
      var (k, v) := entries[0];
      var line := k + "=" + v;
      assert '\n' !in line;
      assert EnvText(entries) == line + ['\n'] + EnvText(entries[1..]);
      SplitAtChar(line, '\n', EnvText(entries[1..]));
      ParseEnvText(entries[1..]);
      var rest := Split(EnvText(entries[1..]), "\n");
      assert |rest| >= 1;
      SplitOnceAtChar(k, '=', v);
      assert k + "=" + v == k + ['='] + v;
      assert ([line] + rest)[1..] == rest;
    }
  }

  /** The value of the first entry for `key`. */
  function Lookup(entries: seq<(string, string)>, key: string): Option<string> {
    if entries == [] then None
    else if entries[0].0 == key then Some(entries[0].1)
    else Lookup(entries[1..], key)
  }

  /** The settings `start` writes to `.env`. */
  datatype EnvSettings = EnvSettings(corePath: string, coreEnd: string, workflow: string, recipePath: string, recipeEnd: string)

  /** The `.env` entries, in the order `start` writes them. */
  function EnvEntries(tag: string, s: EnvSettings): seq<(string, string)> {
    [("DEVLANDIA_PORT", "8000"), ("TAG", tag), ("FRUITION", s.corePath), ("FILE", s.coreEnd),
     ("WORKFLOW", s.workflow), ("RECIPE", s.recipePath), ("RECIPEFILE", s.recipeEnd)]
  }

  /** The settings of a core or plain environment, with or without a local recipe checkout. */
  function SettingsFor(core: bool, devRecipe: bool): EnvSettings {
    EnvSettings(
      if core then "fruition" else "readme",
      if core then "code" else "unused",
      if core then "core" else "dev",
      if devRecipe then "recipe" else "recipereadme",
      if devRecipe then "code/recipe" else "unused")
  }

  /** The flags of `jb start`. */
  datatype StartFlags = StartFlags(
    noupdate: bool, noupgrade: bool, ssh: bool, ganesha: bool,
    hstm: bool, core: bool, devRecipe: bool, snapshot: bool)

  /** Which local checkouts exist at the top of the Devlandia tree. */
  datatype Checkouts = Checkouts(fruition: bool, recipe: bool)

  /** What `start` sets in motion, in order. */
  datatype Step =
    | ChooseEnvironment           // the interactive environment prompt
    | CheckOutdated(tag: string)  // check_outdated_image(tag)
    | Upgrade                     // ctx.invoke(upgrade)
    | WriteEnv(text: string)      // .env written from scratch
    | Pull(tag: string)           // dockerutil.pull(tag=tag)
    | AppendEnv(setting: Setting) // activate_snapshot / activate_hstm append to .env
    | CleanupSsh                  // cleanup_ssh()
    | ActivateSsh                 // activate_ssh(environ)
    | Up(ganesha: bool)           // dockerutil.up(env=environ, ganesha=ganesha)

  /** The settings `start` may append to `.env`. */
  datatype Setting = SnapshotsService | HstmOn

  /** The text appended for each setting. */
  function SettingText(s: Setting): string {
    match s
    case SnapshotsService => "\nJB_SNAPSHOTS_SERVICE=http://snapshot:8080/snapshot/"
    case HstmOn => "\nJB_HSTM=on"
  }

  /** The environment `start` works on: the argument when it is non-empty, else what the prompt chose. */
  function ChosenEnv(envArg: Option<string>, prompted: Option<string>): Option<string> {
    if envArg.Some? && envArg.value != "" then envArg
    else if prompted.Some? && prompted.value != "" then prompted
    else None
  }

  /** The steps taken before the environment is known. */
  function Prelude(envArg: Option<string>): seq<Step> {
    if envArg.Some? && envArg.value != "" then [] else [ChooseEnvironment]
  }

  /** The environment can be configured: a core one needs the fruition checkout, a local recipe needs core and its checkout. */
  predicate Configurable(env: string, flags: StartFlags, checkouts: Checkouts) {
    (IsCore(env, flags.core) ==> checkouts.fruition)
    && (flags.devRecipe ==> IsCore(env, flags.core) && checkouts.recipe)
  }

  /**
   * The outdated-image check, when `--noupdate` runs it, returned an answer
   * rather than raising.
   */
  predicate Checked(flags: StartFlags, outdatedAnswer: Result<Option<string>>) {
    !flags.noupdate || outdatedAnswer.Ok?
  }

  /** The image is pulled unless `--noupdate` was given and the outdated-image check did not answer "yes". */
  predicate WantsPull(flags: StartFlags, outdatedAnswer: Result<Option<string>>) {
    !flags.noupdate || outdatedAnswer == Ok(Some("yes"))
  }

  /**
   * The local settings `start` resolves for `env`, assigned step by step as
   * `start` does; a missing checkout ends the command with exit status 1.
   */
  method Configure(env: string, flags: StartFlags, checkouts: Checkouts) returns (r: Result<EnvSettings>)
    ensures r.Ok? <==> Configurable(env, flags, checkouts)
    ensures r.Ok? ==> r.value == SettingsFor(IsCore(env, flags.core), flags.devRecipe)
    ensures r.Err? ==> r.error == ExitCode(1)
  {
    var corePath := "readme";
    var coreEnd := "unused";
    var workflow := "dev";
    var recipePath := "recipereadme";
    var recipeEnd := "unused";
    var isCore := Contains(env, "core") || flags.core;
    if isCore {
      if checkouts.fruition {
        corePath := "fruition";
        coreEnd := "code";
        workflow := "core";
      } else {
        return Err(ExitCode(1));
      }
    }
    if flags.devRecipe {
      if isCore {
        if checkouts.recipe {
          recipePath := "recipe";
          recipeEnd := "code/recipe";
        } else {
          return Err(ExitCode(1));
        }
      } else {
        return Err(ExitCode(1));
      }
    }
    return Ok(EnvSettings(corePath, coreEnd, workflow, recipePath, recipeEnd));
  }

  /** The steps `s` when `c` holds, none otherwise. */
  function Opt(c: bool, s: seq<Step>): seq<Step> {
    if c then s else []
  }

  lemma InOpt(c: bool, s: seq<Step>, x: Step)
    ensures x in Opt(c, s) <==> c && x in s
  {
  }

  /** `start` gets past the outdated-image check, and the upgrade is skipped or succeeds. */
  predicate Upgraded(flags: StartFlags, outdatedAnswer: Result<Option<string>>, upgradeOutcome: Result<()>) {
    Checked(flags, outdatedAnswer) && (flags.noupgrade || upgradeOutcome.Ok?)
  }

  /** `start` gets past the upgrade and the pull. */
  predicate Launched(flags: StartFlags, outdatedAnswer: Result<Option<string>>, upgradeOutcome: Result<()>, pullOutcome: Result<()>) {
    Upgraded(flags, outdatedAnswer, upgradeOutcome) && (WantsPull(flags, outdatedAnswer) ==> pullOutcome.Ok?)
  }

  /** The outdated-image check, and the upgrade once the check is through. */
  function Checks(tag: string, flags: StartFlags, outdatedAnswer: Result<Option<string>>): seq<Step> {
    Opt(flags.noupdate, [CheckOutdated(tag)]) + Opt(Checked(flags, outdatedAnswer) && !flags.noupgrade, [Upgrade])
  }

  /** Writing `.env`, then the pull unless it is skipped. */
  function EnvAndPull(tag: string, envFile: string, flags: StartFlags, outdatedAnswer: Result<Option<string>>): seq<Step> {
    [WriteEnv(envFile)] + Opt(WantsPull(flags, outdatedAnswer), [Pull(tag)])
  }

  /** The settings appended to `.env`, the ssh tunnel, and `up`. */
  function Finish(isHstm: bool, flags: StartFlags): seq<Step> {
    [] + Opt(flags.snapshot, [AppendEnv(SnapshotsService)]) + Opt(isHstm, [AppendEnv(HstmOn)])
    + [CleanupSsh] + Opt(flags.ssh, [ActivateSsh]) + [Up(flags.ganesha)]
  }

  /**
   * The steps of `start` once the environment is configured: the
   * outdated-image check and the upgrade; the `.env` file and the pull once
   * the upgrade is through; the rest once the pull is through as well.
   */
  function LaunchPlan(tag: string, envFile: string, isHstm: bool, flags: StartFlags,
                      outdatedAnswer: Result<Option<string>>, upgradeOutcome: Result<()>, pullOutcome: Result<()>): seq<Step> {
    Checks(tag, flags, outdatedAnswer)
    + Opt(Upgraded(flags, outdatedAnswer, upgradeOutcome), EnvAndPull(tag, envFile, flags, outdatedAnswer))
    + Opt(Launched(flags, outdatedAnswer, upgradeOutcome, pullOutcome), Finish(isHstm, flags))
  }

  /**
   * How `start` ends once configured: the first failure of the outdated-image
   * check, the upgrade or the pull, else what `up` returns.
   */
  function LaunchResult(flags: StartFlags, outdatedAnswer: Result<Option<string>>,
                        upgradeOutcome: Result<()>, pullOutcome: Result<()>, upOutcome: Result<()>): Result<()> {
    if !Checked(flags, outdatedAnswer) then Err(outdatedAnswer.error)
    else if !Upgraded(flags, outdatedAnswer, upgradeOutcome) then upgradeOutcome
    else if !Launched(flags, outdatedAnswer, upgradeOutcome, pullOutcome) then pullOutcome
    else upOutcome
  }

  /**
   * `start(env, flags)`. `running` is what `is_running()` found, `prompted`
   * the environment the prompt returns when none is given, `outdatedAnswer`
   * what `check_outdated_image` answers, or the exception it raises; `upgradeOutcome`, `pullOutcome`
   * and `upOutcome` are how the upgrade, the pull and `up` end.
   */
  method Start(running: bool, envArg: Option<string>, prompted: Option<string>, flags: StartFlags,
               checkouts: Checkouts, outdatedAnswer: Result<Option<string>>,
               upgradeOutcome: Result<()>, pullOutcome: Result<()>, upOutcome: Result<()>)
    returns (steps: seq<Step>, r: Result<()>)
    ensures running ==> steps == [] && r == Ok(())
    ensures !running && ChosenEnv(envArg, prompted).None? ==> steps == Prelude(envArg) && r == Err(Abort)
    ensures !running && ChosenEnv(envArg, prompted).Some? ==>
      var env := ChosenEnv(envArg, prompted).value;
      if !Configurable(env, flags, checkouts) then
        steps == Prelude(envArg) && r == Err(ExitCode(1))
      else
        steps == Prelude(envArg) + LaunchPlan(TagFor(env), EnvText(EnvEntries(TagFor(env), SettingsFor(IsCore(env, flags.core), flags.devRecipe))),
                                              IsHstm(env, flags.hstm), flags, outdatedAnswer, upgradeOutcome, pullOutcome)
        && r == LaunchResult(flags, outdatedAnswer, upgradeOutcome, pullOutcome, upOutcome)
  {
    if running {
      return [], Ok(());
    }
    steps := [];
    var env: string;
    if envArg.Some? && envArg.value != "" {
      env := envArg.value;
    } else {
      steps := [ChooseEnvironment];
      if prompted.None? || prompted.value == "" {
        return steps, Err(Abort);
      }
      env := prompted.value;
    }
    var configured := Configure(env, flags, checkouts);
    if configured.Err? {
      return steps, Err(configured.error);
    }
    var settings := configured.value;
    var isHstm := StartsWith(env, "hstm-") || flags.hstm;
    var tag := TagFor(env);
    var launched;
    launched, r := Launch(tag, EnvText(EnvEntries(tag, settings)), isHstm, flags, outdatedAnswer, upgradeOutcome, pullOutcome, upOutcome);
    steps := steps + launched;
  }

  /** The second half of `start`, once the settings are known. */
  method Launch(tag: string, envFile: string, isHstm: bool, flags: StartFlags,
                outdatedAnswer: Result<Option<string>>, upgradeOutcome: Result<()>, pullOutcome: Result<()>, upOutcome: Result<()>)
    returns (steps: seq<Step>, r: Result<()>)
    ensures steps == LaunchPlan(tag, envFile, isHstm, flags, outdatedAnswer, upgradeOutcome, pullOutcome)
    ensures r == LaunchResult(flags, outdatedAnswer, upgradeOutcome, pullOutcome, upOutcome)
  {
    var answered;
    steps, answered := CheckForUpdate(tag, flags, outdatedAnswer);
    if answered.Err? {
      return steps, Err(answered.error);
    }
    var noupdate := answered.value;
    if !flags.noupgrade {
      steps := steps + [Upgrade];
      if upgradeOutcome.Err? {
        return steps, upgradeOutcome;
      }
    }
    assert steps == Checks(tag, flags, outdatedAnswer);
    var checked := steps;
    steps := steps + [WriteEnv(envFile)];
    if !noupdate {
      steps := steps + [Pull(tag)];
      if pullOutcome.Err? {
        assert steps == checked + EnvAndPull(tag, envFile, flags, outdatedAnswer);
        return steps, pullOutcome;
      }
    }
    assert steps == checked + EnvAndPull(tag, envFile, flags, outdatedAnswer);
    var finish := Conclude(isHstm, flags);
    steps := steps + finish;
    assert Upgraded(flags, outdatedAnswer, upgradeOutcome) && Launched(flags, outdatedAnswer, upgradeOutcome, pullOutcome);
    assert steps == Checks(tag, flags, outdatedAnswer) + EnvAndPull(tag, envFile, flags, outdatedAnswer) + Finish(isHstm, flags);
    r := upOutcome;
  }

  /**
   * With `--noupdate`, ask whether the image is outdated; the answer "yes"
   * turns the update back on, and an exception from the check ends `start`.
   */
  method CheckForUpdate(tag: string, flags: StartFlags, outdatedAnswer: Result<Option<string>>)
    returns (steps: seq<Step>, noupdate: Result<bool>)
    ensures steps == Opt(flags.noupdate, [CheckOutdated(tag)])
    ensures noupdate == if Checked(flags, outdatedAnswer) then Ok(!WantsPull(flags, outdatedAnswer)) else Err(outdatedAnswer.error)
  {
    steps := [];
    var skip := flags.noupdate;
    if skip {
      steps := steps + [CheckOutdated(tag)];
      if outdatedAnswer.Err? {
        return steps, Err(outdatedAnswer.error);
      }
      if outdatedAnswer.value == Some("yes") {
        skip := false;
      }
    }
    noupdate := Ok(skip);
  }

  /** The end of `start`: the settings appended to `.env`, the ssh tunnel, and `up`. */
  method Conclude(isHstm: bool, flags: StartFlags) returns (steps: seq<Step>)
    ensures steps == Finish(isHstm, flags)
  {
    steps := [];
    var piece := Opt(flags.snapshot, [AppendEnv(SnapshotsService)]);
    if flags.snapshot {
      steps := steps + [AppendEnv(SnapshotsService)];
    }
    assert steps == [] + piece;
    var finish := [] + piece;
    piece := Opt(isHstm, [AppendEnv(HstmOn)]);
    if isHstm {
      steps := steps + [AppendEnv(HstmOn)];
    }
    finish := finish + piece;
    assert steps == finish;
    steps := steps + [CleanupSsh];
    finish := finish + [CleanupSsh];
    piece := Opt(flags.ssh, [ActivateSsh]);
    if flags.ssh {
      steps := steps + [ActivateSsh];
    }
    finish := finish + piece;
    assert steps == finish;
    steps := steps + [Up(flags.ganesha)];
    finish := finish + [Up(flags.ganesha)];
  }

  /** The outdated-image check runs exactly when `--noupdate` was given. */
  lemma LaunchChecksOutdated(tag: string, envFile: string, isHstm: bool, flags: StartFlags,
                             outdatedAnswer: Result<Option<string>>, upgradeOutcome: Result<()>, pullOutcome: Result<()>)
    ensures forall t :: (CheckOutdated(t) in LaunchPlan(tag, envFile, isHstm, flags, outdatedAnswer, upgradeOutcome, pullOutcome)
      <==> flags.noupdate && t == tag)
  {
    forall t ensures CheckOutdated(t) in LaunchPlan(tag, envFile, isHstm, flags, outdatedAnswer, upgradeOutcome, pullOutcome)
      <==> flags.noupdate && t == tag {
      var x := CheckOutdated(t);
      InOpt(flags.noupdate, [CheckOutdated(tag)], x);
      InOpt(Checked(flags, outdatedAnswer) && !flags.noupgrade, [Upgrade], x);
      InOpt(Upgraded(flags, outdatedAnswer, upgradeOutcome), EnvAndPull(tag, envFile, flags, outdatedAnswer), x);
      InOpt(WantsPull(flags, outdatedAnswer), [Pull(tag)], x);
      InOpt(Launched(flags, outdatedAnswer, upgradeOutcome, pullOutcome), Finish(isHstm, flags), x);
      FinishMembers(isHstm, flags, x);
    }
  }

  /** The steps among the finishing ones. */
  lemma FinishMembers(isHstm: bool, flags: StartFlags, x: Step)
    ensures x in Finish(isHstm, flags) <==>
      (x == AppendEnv(SnapshotsService) && flags.snapshot) || (x == AppendEnv(HstmOn) && isHstm)
      || x == CleanupSsh || (x == ActivateSsh && flags.ssh) || x == Up(flags.ganesha)
  {
    InOpt(flags.snapshot, [AppendEnv(SnapshotsService)], x);
    InOpt(isHstm, [AppendEnv(HstmOn)], x);
    InOpt(flags.ssh, [ActivateSsh], x);
  }

  /**
   * `.env` is written, with the environment's entries, exactly when the
   * outdated-image check did not raise and the upgrade is skipped or succeeds.
   */
  lemma LaunchWritesEnv(tag: string, envFile: string, isHstm: bool, flags: StartFlags,
                        outdatedAnswer: Result<Option<string>>, upgradeOutcome: Result<()>, pullOutcome: Result<()>)
    ensures forall t :: (WriteEnv(t) in LaunchPlan(tag, envFile, isHstm, flags, outdatedAnswer, upgradeOutcome, pullOutcome)
      <==> Upgraded(flags, outdatedAnswer, upgradeOutcome) && t == envFile)
  {
    forall t ensures WriteEnv(t) in LaunchPlan(tag, envFile, isHstm, flags, outdatedAnswer, upgradeOutcome, pullOutcome)
      <==> Upgraded(flags, outdatedAnswer, upgradeOutcome) && t == envFile {
      var x := WriteEnv(t);
      InOpt(flags.noupdate, [CheckOutdated(tag)], x);
      InOpt(Checked(flags, outdatedAnswer) && !flags.noupgrade, [Upgrade], x);
      InOpt(Upgraded(flags, outdatedAnswer, upgradeOutcome), EnvAndPull(tag, envFile, flags, outdatedAnswer), x);
      InOpt(WantsPull(flags, outdatedAnswer), [Pull(tag)], x);
      InOpt(Launched(flags, outdatedAnswer, upgradeOutcome, pullOutcome), Finish(isHstm, flags), x);
      FinishMembers(isHstm, flags, x);
    }
  }

  /**
   * The image is pulled, with the environment's tag, exactly when the
   * check and the upgrade went through and either `--noupdate` was not given or the
   * outdated-image check answered "yes".
   */
  lemma LaunchPulls(tag: string, envFile: string, isHstm: bool, flags: StartFlags,
                    outdatedAnswer: Result<Option<string>>, upgradeOutcome: Result<()>, pullOutcome: Result<()>)
    ensures forall t :: (Pull(t) in LaunchPlan(tag, envFile, isHstm, flags, outdatedAnswer, upgradeOutcome, pullOutcome)
      <==> Upgraded(flags, outdatedAnswer, upgradeOutcome) && WantsPull(flags, outdatedAnswer) && t == tag)
  {
    forall t ensures Pull(t) in LaunchPlan(tag, envFile, isHstm, flags, outdatedAnswer, upgradeOutcome, pullOutcome)
      <==> Upgraded(flags, outdatedAnswer, upgradeOutcome) && WantsPull(flags, outdatedAnswer) && t == tag {
      var x := Pull(t);
      InOpt(flags.noupdate, [CheckOutdated(tag)], x);
      InOpt(Checked(flags, outdatedAnswer) && !flags.noupgrade, [Upgrade], x);
      InOpt(Upgraded(flags, outdatedAnswer, upgradeOutcome), EnvAndPull(tag, envFile, flags, outdatedAnswer), x);
      InOpt(WantsPull(flags, outdatedAnswer), [Pull(tag)], x);
      InOpt(Launched(flags, outdatedAnswer, upgradeOutcome, pullOutcome), Finish(isHstm, flags), x);
      FinishMembers(isHstm, flags, x);
    }
  }

  /**
   * The containers are brought up, with the `--ganesha` choice, exactly when
   * the check, the upgrade and the pull went through; the HSTM setting is appended on
   * the same condition for an HSTM environment.
   */
  lemma LaunchUp(tag: string, envFile: string, isHstm: bool, flags: StartFlags,
                 outdatedAnswer: Result<Option<string>>, upgradeOutcome: Result<()>, pullOutcome: Result<()>)
    ensures forall g :: (Up(g) in LaunchPlan(tag, envFile, isHstm, flags, outdatedAnswer, upgradeOutcome, pullOutcome)
      <==> Launched(flags, outdatedAnswer, upgradeOutcome, pullOutcome) && g == flags.ganesha)
    ensures AppendEnv(HstmOn) in LaunchPlan(tag, envFile, isHstm, flags, outdatedAnswer, upgradeOutcome, pullOutcome)
      <==> Launched(flags, outdatedAnswer, upgradeOutcome, pullOutcome) && isHstm
  {
    forall x: Step | x.Up? || x == AppendEnv(HstmOn)
      ensures x in LaunchPlan(tag, envFile, isHstm, flags, outdatedAnswer, upgradeOutcome, pullOutcome)
        <==> Launched(flags, outdatedAnswer, upgradeOutcome, pullOutcome) && x in Finish(isHstm, flags) {
      InOpt(flags.noupdate, [CheckOutdated(tag)], x);
      InOpt(Checked(flags, outdatedAnswer) && !flags.noupgrade, [Upgrade], x);
      InOpt(Upgraded(flags, outdatedAnswer, upgradeOutcome), EnvAndPull(tag, envFile, flags, outdatedAnswer), x);
      InOpt(WantsPull(flags, outdatedAnswer), [Pull(tag)], x);
      InOpt(Launched(flags, outdatedAnswer, upgradeOutcome, pullOutcome), Finish(isHstm, flags), x);
    }
    forall g ensures Up(g) in Finish(isHstm, flags) <==> g == flags.ganesha {
      FinishMembers(isHstm, flags, Up(g));
    }
    FinishMembers(isHstm, flags, AppendEnv(HstmOn));
  }

  /** `up` is the last step of `start`, and the only `up` in it. */
  lemma LaunchEndsWithUp(tag: string, envFile: string, isHstm: bool, flags: StartFlags,
                         outdatedAnswer: Result<Option<string>>, upgradeOutcome: Result<()>, pullOutcome: Result<()>)
    ensures var plan := LaunchPlan(tag, envFile, isHstm, flags, outdatedAnswer, upgradeOutcome, pullOutcome);
      forall i :: 0 <= i < |plan| && plan[i].Up? ==> i == |plan| - 1
  {
    var plan := LaunchPlan(tag, envFile, isHstm, flags, outdatedAnswer, upgradeOutcome, pullOutcome);
    var head := Checks(tag, flags, outdatedAnswer) + Opt(Upgraded(flags, outdatedAnswer, upgradeOutcome), EnvAndPull(tag, envFile, flags, outdatedAnswer));
    var prefix := Opt(flags.snapshot, [AppendEnv(SnapshotsService)]) + Opt(isHstm, [AppendEnv(HstmOn)])
      + [CleanupSsh] + Opt(flags.ssh, [ActivateSsh]);
    forall x: Step | x.Up? ensures x !in head && x !in prefix {
      InOpt(flags.noupdate, [CheckOutdated(tag)], x);
      InOpt(Checked(flags, outdatedAnswer) && !flags.noupgrade, [Upgrade], x);
      InOpt(Upgraded(flags, outdatedAnswer, upgradeOutcome), EnvAndPull(tag, envFile, flags, outdatedAnswer), x);
      InOpt(WantsPull(flags, outdatedAnswer), [Pull(tag)], x);
      InOpt(flags.snapshot, [AppendEnv(SnapshotsService)], x);
      InOpt(isHstm, [AppendEnv(HstmOn)], x);
      InOpt(flags.ssh, [ActivateSsh], x);
    }
    if Launched(flags, outdatedAnswer, upgradeOutcome, pullOutcome) {
      assert plan == head + prefix + [Up(flags.ganesha)];
      forall i | 0 <= i < |plan| - 1 ensures !plan[i].Up? {
        if i < |head| {
          assert plan[i] == head[i];
        } else {
          assert plan[i] == prefix[i - |head|];
        }
      }
    } else {
      assert plan == head;
      forall i | 0 <= i < |plan| ensures !plan[i].Up? {
        assert plan[i] in head;
      }
    }
  }

  /**
   * An exception from the outdated-image check ends `start` right after the
   * check: no upgrade, no `.env`, no pull, and the exception is the outcome.
   */
  lemma LaunchCheckFails(tag: string, envFile: string, isHstm: bool, flags: StartFlags,
                         outdatedAnswer: Result<Option<string>>, upgradeOutcome: Result<()>, pullOutcome: Result<()>, upOutcome: Result<()>)
    requires flags.noupdate && outdatedAnswer.Err?
    ensures LaunchPlan(tag, envFile, isHstm, flags, outdatedAnswer, upgradeOutcome, pullOutcome) == [CheckOutdated(tag)]
    ensures LaunchResult(flags, outdatedAnswer, upgradeOutcome, pullOutcome, upOutcome) == Err(outdatedAnswer.error)
  {
  }

  /** `start` succeeds only when `up` ran and succeeded. */
  lemma LaunchSucceeds(tag: string, envFile: string, isHstm: bool, flags: StartFlags,
                       outdatedAnswer: Result<Option<string>>, upgradeOutcome: Result<()>, pullOutcome: Result<()>, upOutcome: Result<()>)
    requires LaunchResult(flags, outdatedAnswer, upgradeOutcome, pullOutcome, upOutcome).Ok?
    ensures upOutcome.Ok?
    ensures Up(flags.ganesha) in LaunchPlan(tag, envFile, isHstm, flags, outdatedAnswer, upgradeOutcome, pullOutcome)
  {
    LaunchUp(tag, envFile, isHstm, flags, outdatedAnswer, upgradeOutcome, pullOutcome);
  }

  /** The `.env` file `start` writes reads back as the environment's entries. */
  lemma StartEnvFile(tag: string, core: bool, devRecipe: bool)
    requires '\n' !in tag
    ensures ParseEnv(EnvText(EnvEntries(tag, SettingsFor(core, devRecipe)))) == EnvEntries(tag, SettingsFor(core, devRecipe))
    ensures Lookup(EnvEntries(tag, SettingsFor(core, devRecipe)), "TAG") == Some(tag)
  {
    var settings := SettingsFor(core, devRecipe);
    assert SettingsPlain(settings);
    EnvEntriesRoundTrip(tag, settings);
  }

  /** No setting holds a line break. */
  predicate SettingsPlain(s: EnvSettings) {
    '\n' !in s.corePath && '\n' !in s.coreEnd && '\n' !in s.workflow && '\n' !in s.recipePath && '\n' !in s.recipeEnd
  }

  /** The entries of any tag and settings without line breaks read back from the text written for them. */
  lemma EnvEntriesRoundTrip(tag: string, s: EnvSettings)
    requires '\n' !in tag && SettingsPlain(s)
    ensures ParseEnv(EnvText(EnvEntries(tag, s))) == EnvEntries(tag, s)
  {
    var entries := EnvEntries(tag, s);
    forall i | 0 <= i < |entries|
      ensures '=' !in entries[i].0 && '\n' !in entries[i].0 && '\n' !in entries[i].1
    {
      EnvKeyPlain(i);
    }
    ParseEnvText(entries);
  }

  /** The keys `start` writes hold neither `=` nor a line break. */
  lemma EnvKeyPlain(i: nat)
    requires i < 7
    ensures var key := EnvEntries("", SettingsFor(false, false))[i].0;
      '=' !in key && '\n' !in key
  {
  }
}
