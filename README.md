# jb: a verified model of the devlandia developer CLI core

`jb` is the command-line tool of the devlandia repository. It runs a local
Juicebox development stack in Docker. A developer starts the stack with a
chosen image tag, adds applications, and watches their source, which
reloads the app and the browser. They can also list the image tags the
registry holds, retag and pull images, open SSH tunnels to Redshift, and
search the service logs.

This project models the decision logic behind those commands. Each module
below follows one source file or one group of commands:

- **Compose** builds the `docker-compose` command lines. The file list is
  `common-services.yml`, then the globbed `docker-compose-*.yml` fragments,
  then the ganesha overlay (when asked), then the custom or selfserve
  overlay last. The list has no architecture-specific overlay, and
  `docker-compose-ssh.yml` is kept for every verb when the glob finds it.
  It also gives the up / stop / down / run variants.
- **Catalog** builds the `jb ls` image listing. It reads the registry
  records (an entry with tags but no push time raises `KeyError`), turns
  each tag into a row with a priority, keeps semantic
  versions or recent pushes, and sorts by push time. It pairs each
  `master` row with the tag pushed just before it, then sorts by priority
  and tag, descending.
- **DockerUtil** covers the rest of the docker helpers:
  - the running-container check;
  - the home directory check;
  - reading the image path out of a compose file;
  - the registry logins and the pull;
  - the rewrite of the devlandia image tag in a compose file.
- **Watcher** models how the file watcher reacts to one modified path.
- **Reload** models the browser refresh: a health check retried up to
  five times.
- **Apps** models the application helpers:
  - the GitHub addresses;
  - the `app.yaml` rewriting;
  - the git init / remote / push / desktop sequence;
  - cloning one app into another.
- **Commands** models `jb add`, which clones and loads applications, and
  the `_run` dispatch behind `jb run`, `jb manage` and friends.
- **Jb** models `jb start`:
  - the tag table;
  - the core and dev-recipe checks;
  - the `.env` file;
  - the upgrade / pull / snapshot / hstm / ssh / up sequence.
- **ImageAge** models how `check_outdated_image` reads the ages of the
  local and the published image.
- **Ssh** models `activate_ssh`, which rewrites the Redshift connection
  URLs to go through local tunnels.
- **LogParse** and **LogSearch** model the log searcher:
  - the parsing of one data-service log line into a row;
  - the table header order and the table;
  - the search loop with its environment, service, user and limit filters.

Helper modules:

- **Strings**: Python's `str` methods as used here, each with its
  characterisation. Covered: `split`, `split(maxsplit=1)`, `split()` on
  whitespace, `rsplit`, `rpartition`, `replace`, `strip`, `in` and
  ordering. Character classes are predicates on `char`: `IsByteSpace` is
  the ASCII whitespace of `bytes.split()`, `IsStrSpace` the wider Unicode
  whitespace of `str.split()` and `str.strip()`.
- **Sorting**: a stable insertion sort, proved sorted, a permutation and
  stable, like Python's `list.sort`.
- **Seqs**: map and flat-map facts.
- **Wrappers**: `Option` and `Result`.

Python exceptions become `Err` values, named after what Python would raise:
`IndexError`, `ValueError`, `KeyError`, `TypeError`, `AssertionError` and
`UnboundLocal`. `CalledProcess` stands for `subprocess.CalledProcessError`.
`Abort` stands for `click.Abort`, and `ExitCode(1)` for `sys.exit(1)`.

External outcomes are parameters of the model:
- whether a subprocess succeeds;
- the containers running;
- the files found by a glob;
- the HTTP answers of the health check;
- the interactive answers;
- the output of `aws ecr get-login`.

Many outcomes are indexed by call number, e.g. `ok: nat -> bool`. Commands
are argument vectors (`seq<string>`).

## Model

| member | source | states |
|---|---|---|
| Apps.UrlAndLinkAgree | jbcli/jbcli/utils/apps.py:20-43 | past their transport prefixes, the ssh address is the HTTPS page's path followed by `.git` |
| Apps.UrlInjective | jbcli/jbcli/utils/apps.py:27-30 | different app names give different repository addresses |
| Apps.RepoUrlExample | jbcli/jbcli/utils/apps.py:27-30 | with organization `cookies` and prefix `peanut_butter-`, app `sugar` is at `git@github.com:cookies/peanut_butter-sugar.git` |
| Apps.RepoLinkExample | jbcli/jbcli/utils/apps.py:40-43 | the same settings give `https://github.com/cookies/peanut_butter-sugar` |
| Apps.ReplaceInYaml | jbcli/jbcli/utils/apps.py:139-167 | every line is written back, in order, with each replacement key's line rewritten; nothing is added or lost |
| Apps.RewriteUpToAll | jbcli/jbcli/utils/apps.py:158-162 | applying the replacements in dictionary order one at a time is the rewrite of the line by all of them |
| Apps.RewriteUntouched | jbcli/jbcli/utils/apps.py:159-162 | a line containing none of the keys is written unchanged |
| Apps.RewriteTouched | jbcli/jbcli/utils/apps.py:159-161 | a line containing a key is replaced by the `key value` line of one of the replacements |
| Apps.RewriteSingleKey | jbcli/jbcli/utils/apps.py:159-161 | a line whose first matching key is j, and whose new line contains no later key, becomes exactly key j's line |
| Apps.FirstFailed | jbcli/jbcli/utils/apps.py:94-103 | the reported call is the first failing one of the sequence, or none when all succeed |
| Apps.PerformInitVcs | jbcli/jbcli/utils/apps.py:80-136 | the calls and warnings emitted are those of the git init / add / commit sequence, then the tracking part when asked |
| Apps.Track | jbcli/jbcli/utils/apps.py:105-136 | the tracking part appends the remote add, the push when the add succeeded, then the desktop call, to the events so far |
| Apps.InitVcsLocalFailure | jbcli/jbcli/utils/apps.py:94-103 | when local call k fails, the calls up to and including k are made, followed by exactly one warning and nothing else |
| Apps.InitVcsNoTrack | jbcli/jbcli/utils/apps.py:94-105 | without tracking and with no local failure, exactly the three local git calls are made |
| Apps.InitVcsTrackDesktop | jbcli/jbcli/utils/apps.py:127-136 | when tracking after a clean local setup, the GitHub Desktop call is always made, followed only by its warning when it fails |
| Apps.InitVcsTrackWarnings | jbcli/jbcli/utils/apps.py:105-136 | when tracking after a clean local setup, there is one warning when the remote add or the push fails, and one more when the desktop call fails |
| Apps.InitVcsTrackPush | jbcli/jbcli/utils/apps.py:106-110 | the push is made if and only if the remote add succeeded |
| Apps.DesktopWarnings | jbcli/jbcli/utils/apps.py:127-136 | the desktop step warns exactly when its call fails |
| Apps.RemoteWarnings | jbcli/jbcli/utils/apps.py:106-126 | the remote step warns once when the remote add or the push fails, and not otherwise |
| Apps.Clone | jbcli/jbcli/utils/apps.py:46-77 | a failed copy reports failure, leaves `app.yaml` unchanged and does nothing else; otherwise every line is rewritten with slug, label and id, then version control is set up when asked |
| Apps.CloneId | jbcli/jbcli/utils/apps.py:71 | the new id is at most eight characters: the first eight of the uuid when it is that long |
| Catalog.SemanticIff | jbcli/jbcli/utils/dockerutil.py:248 | a tag matches `^\d+\.\d+\.\d+$` if and only if it is three non-empty runs of Unicode decimal digits joined by dots, optionally followed by one newline |
| Catalog.AsciiDigits | jbcli/jbcli/utils/dockerutil.py:248 | below U+0660, `\d` matches exactly the characters `0` to `9`, so neither `.` nor a newline is a digit |
| Catalog.SemanticParts | jbcli/jbcli/utils/dockerutil.py:248 | a semantic tag splits into its three digit runs |
| Catalog.SemanticOfParts | jbcli/jbcli/utils/dockerutil.py:248 | three digit runs joined by dots form a semantic tag |
| Catalog.PriorityClasses | jbcli/jbcli/utils/dockerutil.py:259-266 | priority 4 exactly for `master`, 3 for `develop`, 2 for semantic tags, 1 otherwise |
| Catalog.ClassifyTag | jbcli/jbcli/utils/dockerutil.py:258-266 | the regex test and the priority ladder of the inner loop compute exactly the semantic flag and the priority above |
| Catalog.TagRowsMembers | jbcli/jbcli/utils/dockerutil.py:256-277 | a row comes from a record if and only if it is one of its tags with the record's push time and that row passes the filters |
| Catalog.FlattenMembers | jbcli/jbcli/utils/dockerutil.py:253-277 | the rows collected are exactly the filtered tag rows of all records that have tags |
| Catalog.RecordRowsMembers | jbcli/jbcli/utils/dockerutil.py:254-277 | a record without `imageTags` contributes nothing; otherwise exactly its kept tag rows |
| Catalog.FlattenRecords | jbcli/jbcli/utils/dockerutil.py:253-277 | the rows of a list of records are the rows of each record in order |
| Catalog.PushedLeIsTotalPreorder | jbcli/jbcli/utils/dockerutil.py:280 | ordering by push time is a total preorder, so the sort by `pushed` is well defined |
| Catalog.RankGeIsTotalPreorder | jbcli/jbcli/utils/dockerutil.py:294-297 | the descending (priority, tag) order is a total preorder |
| Catalog.PairMasters | jbcli/jbcli/utils/dockerutil.py:282-291 | pairing keeps the number of rows |
| Catalog.AppendTagRows | jbcli/jbcli/utils/dockerutil.py:256-277 | the loop over one record's tags appends exactly that record's kept rows |
| Catalog.PairWithPrevious | jbcli/jbcli/utils/dockerutil.py:282-291 | every `master` row after the first position carries the tag of the row before it; other rows are unchanged |
| Catalog.RecordsOk | jbcli/jbcli/utils/dockerutil.py:253-255 | the registry's entries are read exactly when every entry with tags has `imagePushedAt`, and then keep their tags and push times; otherwise the outcome is `KeyError` |
| Catalog.RecordsErrSticks | jbcli/jbcli/utils/dockerutil.py:253-255 | once an entry with tags lacks a push time, the entries after it do not change the outcome |
| Catalog.RecordsStep | jbcli/jbcli/utils/dockerutil.py:253-277 | reading one more entry either raises `KeyError` for the whole answer or adds that entry's kept rows |
| Catalog.CollectRows | jbcli/jbcli/utils/dockerutil.py:253-277 | the outer loop yields the kept rows of every entry, or `KeyError` when an entry with tags has no push time |
| Catalog.ImageList | jbcli/jbcli/utils/dockerutil.py:246-314 | a `KeyError` for an unreadable entry, or else the filtered, push-sorted, paired, rank-sorted sequence of rows |
| Catalog.RankOrdered | jbcli/jbcli/utils/dockerutil.py:294-297 | after the final sort, priority never increases, and equal priorities come in descending tag order |
| Catalog.ListingOrdered | jbcli/jbcli/utils/dockerutil.py:294-297 | the listing is ordered by priority, descending, then by tag, descending |
| Catalog.PairedRowsPermutation | jbcli/jbcli/utils/dockerutil.py:282-297 | pairing changes no row apart from its master version |
| Catalog.RankPermutation | jbcli/jbcli/utils/dockerutil.py:280-297 | the two sorts only reorder rows |
| Catalog.FlattenUnpaired | jbcli/jbcli/utils/dockerutil.py:275-277 | the collected rows carry no master version yet |
| Catalog.ListingIsPermutation | jbcli/jbcli/utils/dockerutil.py:246-314 | apart from the master version, the listing holds exactly the collected rows, with multiplicity |
| Catalog.PairedRowsFacts | jbcli/jbcli/utils/dockerutil.py:280-297 | after pairing the push-sorted rows, a master version names an earlier row pushed no later |
| Catalog.PairedVersion | jbcli/jbcli/utils/dockerutil.py:282-291 | a master row past the first position is paired with its predecessor's tag |
| Catalog.UnpairedMasterFirst | jbcli/jbcli/utils/dockerutil.py:282-291 | a master row left unpaired is the first of the push-sorted rows |
| Catalog.RankPairing | jbcli/jbcli/utils/dockerutil.py:280-297 | the pairing facts survive the final sort |
| Catalog.ListingPairing | jbcli/jbcli/utils/dockerutil.py:246-314 | only `master` rows carry a master version; it names a listed tag pushed no later; an unpaired master was pushed no later than every listed row |
| Commands.SplitBranch | jbcli/jbcli/cli/jb.py:77-80 | `name@branch` gives a name and an optional branch, neither containing `@` |
| Commands.SplitBranchPlain | jbcli/jbcli/cli/jb.py:77-80 | a name without `@` has no branch and is kept whole |
| Commands.SplitBranchOf | jbcli/jbcli/cli/jb.py:77-80 | splitting `name@branch` gives back the name and the branch |
| Commands.AddApp | jbcli/jbcli/cli/jb.py:75-120 | the events for one application are those of checking its directory, cloning, the desktop call and loading |
| Commands.Add | jbcli/jbcli/cli/jb.py:63-127 | without a running devlandia nothing happens and the command aborts; otherwise every application is processed in order and the command succeeds exactly when none failed |
| Commands.AddOneFails | jbcli/jbcli/cli/jb.py:92-120 | an application is reported failed exactly when its clone or its load fails |
| Commands.AddClonesFirst | jbcli/jbcli/cli/jb.py:90-100 | a missing application is cloned first, with `-b branch` when a branch was given |
| Commands.AddExistingNoCalls | jbcli/jbcli/cli/jb.py:81-114 | an application whose directory exists causes no subprocess call at all, and is still loaded |
| Commands.AddCloneFailure | jbcli/jbcli/cli/jb.py:92-103 | a failed clone marks the application failed, and the `git clone` call is its only event |
| Commands.AddRunsLoadCommand | jbcli/jbcli/cli/jb.py:110-115 | the load command is run in the container exactly when loading the app reports it was not loaded |
| Commands.AddDesktopCall | jbcli/jbcli/cli/jb.py:105-109 | GitHub Desktop is called exactly when asked, the directory was missing and the clone succeeded |
| Commands.AddAllFailed | jbcli/jbcli/cli/jb.py:73-122 | the failed list holds exactly the applications whose processing failed, in order |
| Commands.FailedSound | jbcli/jbcli/cli/jb.py:73-122 | every name in the failed list is an application that failed |
| Commands.FailedComplete | jbcli/jbcli/cli/jb.py:73-122 | every application that failed is in the failed list |
| Commands.Run | jbcli/jbcli/cli/jb.py:749-774 | the command runs in the first container whose name contains the service; with no such container it starts one through `docker-compose run`; with no environment and no home it aborts, as it does when the call fails |
| Compose.Intersperse | jbcli/jbcli/utils/dockerutil.py:70-71 | each file is preceded by `-f`, and nothing else is added |
| Compose.ComposeFiles | jbcli/jbcli/utils/dockerutil.py:77-84 | the base services file comes first, then the globbed fragments, then ganesha when asked, then the chosen overlay last |
| Compose.FixedNamesAreNotFragments | jbcli/jbcli/utils/dockerutil.py:78 | none of the fixed compose files matches the fragment glob |
| Compose.ComposeFilesCounts | jbcli/jbcli/utils/dockerutil.py:77-84 | the base file appears once, the chosen overlay once, the other overlay never, ganesha once exactly when asked |
| Compose.ReadFilesInterspersed | jbcli/jbcli/utils/dockerutil.py:85 | reading `-f` pairs back out of an interspersed list gives the files back |
| Compose.DockerComposeRoundTrip | jbcli/jbcli/utils/dockerutil.py:74-89 | the command line carries the project name, the compose files in order and the arguments, which can all be read back |
| Compose.ComposeLineRoundTrip | jbcli/jbcli/utils/dockerutil.py:85-89 | a `docker-compose --project-directory . --project-name project -f … args` line parses back into its parts |
| Compose.LifecycleCommands | jbcli/jbcli/utils/dockerutil.py:92-110 | `up` uses the asked overlays; `stop` and `down` use neither ganesha nor custom; `run` selects ganesha exactly for the ganesha service and never custom |
| Compose.RunJbFiles | jbcli/jbcli/utils/dockerutil.py:98-100 | `run_jb` adds the ganesha overlay exactly when the service is ganesha |
| DockerUtil.IsRunning | jbcli/jbcli/utils/dockerutil.py:113-123 | the answer is the first running container whose name contains the service, or none |
| DockerUtil.CheckHome | jbcli/jbcli/utils/dockerutil.py:166-168 | a home is returned exactly when `docker-compose.selfserve.yml` and the `apps` directory both exist |
| DockerUtil.CheckHomeIsParent | jbcli/jbcli/utils/dockerutil.py:166-168 | the home returned is the parent of the current directory |
| DockerUtil.DirNameOfChild | jbcli/jbcli/utils/dockerutil.py:168 | the directory of `dir/name` is `dir` when the name has no slash |
| DockerUtil.DirNameOfTopLevel | jbcli/jbcli/utils/dockerutil.py:168 | a file directly under the root has `/` as its directory |
| DockerUtil.PathOfPieces | jbcli/jbcli/utils/dockerutil.py:205-214 | the image path is the repository prefix followed by the given tag, or else the tag written in the file |
| DockerUtil.ParseDcFile | jbcli/jbcli/utils/dockerutil.py:190-214 | a missing file or one without a registry line gives no path; otherwise the path comes from the first registry line |
| DockerUtil.FindRegistryLine | jbcli/jbcli/utils/dockerutil.py:203-205 | the line found is the first one containing the registry host |
| DockerUtil.FromRegistryLine | jbcli/jbcli/utils/dockerutil.py:204-214 | the file's result is that of its first registry line |
| DockerUtil.FirstRegistryResult | jbcli/jbcli/utils/dockerutil.py:203-214 | lines before the first registry line do not affect the result |
| DockerUtil.CleanQuotedReference | jbcli/jbcli/utils/dockerutil.py:207 | stripping a quoted reference gives the bare reference |
| DockerUtil.CleanQuotedTag | jbcli/jbcli/utils/dockerutil.py:207 | stripping a quoted tag followed by a newline gives the bare tag |
| DockerUtil.ImageLineRoundTrip | jbcli/jbcli/utils/dockerutil.py:203-214 | for `key: "reference:tag"`, the path is the repository prefix plus the requested tag, or else the written tag |
| DockerUtil.LoginCommandsOfOutput | jbcli/jbcli/utils/dockerutil.py:238-241 | splitting the login output on newlines gives back one command per line, made of that line's non-empty, whitespace-free words |
| DockerUtil.LoginTokens | jbcli/jbcli/utils/dockerutil.py:241 | a login command is exactly the words of its line |
| DockerUtil.RunLogins | jbcli/jbcli/utils/dockerutil.py:238-241 | the logins are run in order up to and including the first failure, which is reported |
| DockerUtil.Pull | jbcli/jbcli/utils/dockerutil.py:217-243 | without home it aborts; a failed login command or login stops it; the pull runs only after all logins, on the path read from the compose file, and a missing path is a TypeError |
| DockerUtil.DropLastTwo | jbcli/jbcli/utils/dockerutil.py:328 | dropping the last two characters shortens the line by two, keeping the rest |
| DockerUtil.AsIsLine | jbcli/jbcli/utils/dockerutil.py:325-332 | what the loop writes for one line, as the code stands: a changed tag line, an untouched line, or nothing |
| DockerUtil.AsIsStep | jbcli/jbcli/utils/dockerutil.py:325-332 | the loop as written extends its output line by line |
| DockerUtil.SetTagAsWritten | jbcli/jbcli/utils/dockerutil.py:317-339 | as the code stands: the file is replaced exactly when some tag line needs a new tag, and then it holds the loop's output |
| DockerUtil.RetagStep | jbcli/jbcli/utils/dockerutil.py:325-332 | the corrected loop extends its output line by line |
| DockerUtil.SetTag | jbcli/jbcli/utils/dockerutil.py:317-336 | corrected: the file is replaced exactly when some tag line needs a new tag; it keeps its length, and each line is retagged or kept |
| DockerUtil.RetagLine | jbcli/jbcli/utils/dockerutil.py:326-329 | a devlandia tag line gets the new tag and keeps everything before it |
| DockerUtil.RetagThenParse | jbcli/jbcli/utils/dockerutil.py:326-329 | after retagging, reading the image path back gives the repository prefix plus the new tag |
| DockerUtil.WrittenAsIsDrops | jbcli/jbcli/utils/dockerutil.py:325-332 | as written, a tag line already on the new tag is not copied to the output |
| DockerUtil.TagOfTagLine | jbcli/jbcli/utils/dockerutil.py:326-328 | the tag of a devlandia line is the text between the reference and the closing quote |
| DockerUtil.SetTagDropsCurrentLine | jbcli/jbcli/utils/dockerutil.py:325-336 | as written: with two tag lines on `a` and `b` and new tag `b`, the file is rewritten with fewer lines |
| ImageAge.DropLast | jbcli/jbcli/cli/jb.py:570 | dropping the last word keeps all the others in order |
| ImageAge.Middle | jbcli/jbcli/cli/jb.py:594 | the middle words are the list without its first and last |
| ImageAge.ScanLocalImages | jbcli/jbcli/cli/jb.py:568-575 | the loop's age is that of the last local image whose tag contains the environment; an error stops it |
| ImageAge.LocalAgeErrSticks | jbcli/jbcli/cli/jb.py:568-575 | once the images scanned so far give an error, the later images do not change the result |
| ImageAge.LocalAgeNone | jbcli/jbcli/cli/jb.py:567-578 | there is no local age exactly when no image tag contains the environment |
| ImageAge.LocalAgeLastMatch | jbcli/jbcli/cli/jb.py:568-575 | a local age comes from the last image whose tag contains the environment |
| ImageAge.BuildTagDict | jbcli/jbcli/cli/jb.py:583-593 | the loop builds the published text of each tag |
| ImageAge.TagDictLast | jbcli/jbcli/cli/jb.py:583-593 | a tag is in the dictionary exactly when some row has it, and its entry comes from the last such row |
| ImageAge.CheckOutdatedImage | jbcli/jbcli/cli/jb.py:548-599 | the local age is read first; without one there is nothing to compare; otherwise the published age of the environment's tag is read |
| ImageAge.LocalArticleForm | jbcli/jbcli/cli/jb.py:570-575 | `About an hour ago` reads as `1 hours` |
| ImageAge.LocalCountForm | jbcli/jbcli/cli/jb.py:570 | `N units ago` reads as `N units` |
| ImageAge.RemoteArticleForm | jbcli/jbcli/cli/jb.py:594-599 | a published `an hour ago` reads as `1 hours` |
| ImageAge.RemoteCountForm | jbcli/jbcli/cli/jb.py:594-599 | a published `N units ago` reads as `N units` |
| ImageAge.PublishedWords | jbcli/jbcli/cli/jb.py:593-594 | the published text splits into `(tag)`, `published` and the age words |
| ImageAge.RemoteAgeMissingTag | jbcli/jbcli/cli/jb.py:594 | an environment with no published tag is a KeyError |
| Jb.NormalizePointwise | jbcli/jbcli/cli/jb.py:38-39 | the name keeps its length, each `_` becomes `-`, and every other character is kept |
| Jb.NormalizeIdempotent | jbcli/jbcli/cli/jb.py:38-39 | normalizing twice is normalizing once |
| Jb.TagForIdempotent | jbcli/jbcli/cli/jb.py:443-448 | mapping a tag a second time changes nothing, and names outside the table are kept |
| Jb.ParseEnvText | jbcli/jbcli/cli/jb.py:500-509 | the `.env` text written for the entries reads back as the same entries |
| Jb.Configure | jbcli/jbcli/cli/jb.py:452-488 | the settings are produced exactly when the core and dev-recipe checks pass, otherwise exit code 1 |
| Jb.Start | jbcli/jbcli/cli/jb.py:432-523 | a running devlandia is left alone; a missing environment aborts; failed checks exit with 1; otherwise the launch plan runs with the mapped tag and the `.env` text |
| Jb.Launch | jbcli/jbcli/cli/jb.py:494-523 | the launch steps and the outcome follow the outdated check (answer or exception), the upgrade, pull and up results |
| Jb.CheckForUpdate | jbcli/jbcli/cli/jb.py:494-497 | the outdated check runs only under `--noupdate`; an exception from it is the outcome; otherwise the pull is skipped unless `noupdate` is off or the answer is `yes` |
| Jb.Conclude | jbcli/jbcli/cli/jb.py:515-523 | the trailing steps are the snapshot and hstm activations when asked, the ssh cleanup, the ssh activation when asked, then up |
| Jb.LaunchChecksOutdated | jbcli/jbcli/cli/jb.py:494-497 | the outdated check of the tag is in the plan exactly when `--noupdate` is given |
| Jb.FinishMembers | jbcli/jbcli/cli/jb.py:515-523 | snapshot, hstm and ssh activation each occur exactly when asked; the ssh cleanup and `up` always occur |
| Jb.LaunchWritesEnv | jbcli/jbcli/cli/jb.py:498-509 | the `.env` text is written, and only that text, exactly when the outdated check did not raise and the upgrade step has passed |
| Jb.LaunchPulls | jbcli/jbcli/cli/jb.py:494-514 | the image is pulled, with the launch tag, exactly when the outdated check and the upgrade passed and a pull is wanted |
| Jb.LaunchUp | jbcli/jbcli/cli/jb.py:513-523 | `up`, with the ganesha flag, happens exactly when the outdated check, the upgrade and pull steps have not stopped the launch; so does the hstm activation, when asked |
| Jb.LaunchEndsWithUp | jbcli/jbcli/cli/jb.py:513-523 | nothing follows `up`, and it occurs at most once |
| Jb.LaunchCheckFails | jbcli/jbcli/cli/jb.py:494-497 | an exception from the outdated check under `--noupdate` ends the launch after that check, with that exception as the outcome |
| Jb.LaunchSucceeds | jbcli/jbcli/cli/jb.py:498-523 | a successful start ran `up`, and `up` succeeded |
| Jb.StartEnvFile | jbcli/jbcli/cli/jb.py:500-509 | the `.env` file of a start reads back as its entries, with `TAG` set to the tag |
| Jb.EnvEntriesRoundTrip | jbcli/jbcli/cli/jb.py:500-509 | the entries written for any settings read back unchanged |
| Jb.EnvKeyPlain | jbcli/jbcli/cli/jb.py:501-508 | the keys of the `.env` file contain no `=` or newline |
| LogParse.LookupAssign | jbcli/jbcli/utils/juice_log_searcher.py:49 | after `row[k] = v`, k maps to v and every other key is unchanged |
| LogParse.ParseIntDecimal | jbcli/jbcli/utils/juice_log_searcher.py:45 | `int` of a decimal numeral gives back its value |
| LogParse.EntryText | jbcli/jbcli/utils/juice_log_searcher.py:39-49 | a plain `k=v` token sets k to the text v when both are non-empty, else is dropped |
| LogParse.EntryRows | jbcli/jbcli/utils/juice_log_searcher.py:44-49 | `rows=v` gives the integer v, is dropped when it is zero, and is a ValueError when v is not an integer |
| LogParse.EntryTwoEquals | jbcli/jbcli/utils/juice_log_searcher.py:41 | a token with two `=` is a ValueError |
| LogParse.KvRowErrSticks | jbcli/jbcli/utils/juice_log_searcher.py:39-49 | an error in a token ends the parse with that error |
| LogParse.KvRowOk | jbcli/jbcli/utils/juice_log_searcher.py:39-49 | the tokens parse exactly when each of them does |
| LogParse.KvRowHas | jbcli/jbcli/utils/juice_log_searcher.py:39-49 | a key's value comes from the last token that sets it |
| LogParse.KvRowMissing | jbcli/jbcli/utils/juice_log_searcher.py:39-49 | a key no token sets is absent from the row |
| LogParse.GroupsComplete | jbcli/jbcli/utils/juice_log_searcher.py:17-19 | text made of groups interleaved with the markers is matched, the first group taken greedily |
| LogParse.ParamsFields | jbcli/jbcli/utils/juice_log_searcher.py:56-61 | the params part always gives four fields |
| LogParse.ParamsMatched | jbcli/jbcli/utils/juice_log_searcher.py:56-61 | a first line of four groups around the markers is matched, and the fields rebuild that line, the first one taken greedily |
| LogParse.ParamsMatchSound | jbcli/jbcli/utils/juice_log_searcher.py:56-58 | a match puts the four groups back together into the first line |
| LogParse.ParamsMatchIff | jbcli/jbcli/utils/juice_log_searcher.py:56-61 | the params pattern matches exactly when the first line is four groups around the markers; without a match the fields are the no-match values |
| LogParse.ParseLogParts | jbcli/jbcli/utils/juice_log_searcher.py:23-66 | the row built is that of the log type and its text |
| LogParse.TokenRow | jbcli/jbcli/utils/juice_log_searcher.py:39-49 | the token loop builds the row of its tokens |
| LogParse.LogPartsUnsplit | jbcli/jbcli/utils/juice_log_searcher.py:29-34 | a params line without three spaces, or a recipe line without `SELECT `, is a ValueError |
| LogParse.LogPartsPlain | jbcli/jbcli/utils/juice_log_searcher.py:35-49 | other log types are just their tokens' row |
| LogParse.RecipeQuery | jbcli/jbcli/utils/juice_log_searcher.py:31-53 | a recipe row's `query` is `SELECT ` and the rest of the text with `QUERYEND` removed; all other keys come from the tokens |
| LogParse.ParamsRow | jbcli/jbcli/utils/juice_log_searcher.py:29-65 | a params row carries the four fields from the text after the three spaces; other keys come from the tokens |
| LogSearch.LookupUpdate | jbcli/jbcli/utils/juice_log_searcher.py:213 | `row.update(other)` gives other's values where it has them and the row's elsewhere |
| LogSearch.LogPartsDistinct | jbcli/jbcli/utils/juice_log_searcher.py:23-66 | a parsed row has no key twice |
| LogSearch.HeadersMembers | jbcli/jbcli/utils/juice_log_searcher.py:82-86 | the headers are exactly the keys of the first row |
| LogSearch.HeadersSorted | jbcli/jbcli/utils/juice_log_searcher.py:75-86 | the initial keys come first in their fixed order, then the other keys alphabetically |
| LogSearch.Dataset | jbcli/jbcli/utils/juice_log_searcher.py:68-91 | no rows give an empty table; otherwise the headers come from the first row, and each cell is that row's value for that header, or empty |
| LogSearch.PrefixSound | jbcli/jbcli/utils/juice_log_searcher.py:15 | a prefix match splits the prefix into timestamp, bracketed level, separator and log name, ending at a word boundary |
| LogSearch.PrefixComplete | jbcli/jbcli/utils/juice_log_searcher.py:15 | a prefix of that layout is matched, with its timestamp taken longest |
| LogSearch.HitRowFields | jbcli/jbcli/utils/juice_log_searcher.py:201-213 | a hit's row has the parsed fields, and elsewhere the timestamp, environment and log name |
| LogSearch.ReadHit | jbcli/jbcli/utils/juice_log_searcher.py:201-213 | reading a hit gives its row |
| LogSearch.Search | jbcli/jbcli/utils/juice_log_searcher.py:187-221 | the loop returns the rows of the search's result |
| LogSearch.ScanBound | jbcli/jbcli/utils/juice_log_searcher.py:189-191 | with a limit, no more rows than the limit are kept |
| LogSearch.ScanOrigin | jbcli/jbcli/utils/juice_log_searcher.py:187-221 | every kept row comes from a hit that was not skipped and passed the filters |
| LogSearch.ScanComplete | jbcli/jbcli/utils/juice_log_searcher.py:187-221 | without a limit, every hit that is not skipped and passes the filters is kept |
| LogSearch.SearchRejects | jbcli/jbcli/utils/juice_log_searcher.py:117 | a log name outside the data-service logs is an AssertionError |
| LogSearch.SearchBound | jbcli/jbcli/utils/juice_log_searcher.py:190-191 | with a limit, the result holds no more rows than the limit |
| LogSearch.SearchOrigin | jbcli/jbcli/utils/juice_log_searcher.py:187-221 | every result row is a hit's row that passed the service and user filters; for `hstm-prod` the host contains `prod`, for `hstm-qa` `staging` |
| LogSearch.SearchComplete | jbcli/jbcli/utils/juice_log_searcher.py:187-221 | without a limit, every selected hit is in the result |
| Reload.CreateBrowserInstance | jbcli/jbcli/utils/reload.py:16-20 | browser-sync is started as a proxy of `localhost:8000` |
| Reload.RefreshBrowser | jbcli/jbcli/utils/reload.py:29-53 | without a timeout the browser is restarted; otherwise the health check is polled until the first healthy answer, or five times and then a warning |
| Reload.AttemptCounts | jbcli/jbcli/utils/reload.py:42-51 | one attempt sleeps, then checks once; it reloads only on a healthy answer, prints still-checking only on a refusal, and never warns |
| Reload.PollsChecks | jbcli/jbcli/utils/reload.py:42-45 | k polls perform k checks |
| Reload.PollsWithoutReload | jbcli/jbcli/utils/reload.py:48-51 | polls that get no healthy answer do not reload |
| Reload.PollsRefused | jbcli/jbcli/utils/reload.py:46-47 | each refused connection prints a still-checking message |
| Reload.PollsQuiet | jbcli/jbcli/utils/reload.py:41-53 | the polls print neither the opening message nor the warning |
| Reload.RefreshBounds | jbcli/jbcli/utils/reload.py:41-53 | at most five checks; at most one reload; a warning exactly when no answer was healthy |
| Reload.RefreshHealthy | jbcli/jbcli/utils/reload.py:49-51 | when answer k is the first healthy one, the loop checks k+1 times, reloads once and does not warn |
| Reload.RefreshGaveUp | jbcli/jbcli/utils/reload.py:42-53 | when no answer is healthy, it checks five times, never reloads, and warns once |
| Reload.RefreshAllRefused | jbcli/jbcli/utils/reload.py:41-53 | five refused connections give one checking message, five still-checking messages, one warning and no reload |
| Reload.UnhealthyAnswerIsSilent | jbcli/jbcli/utils/reload.py:48-51 | an answer that is not healthy prints nothing and does not reload |
| Ssh.NetlocAsWrittenLosesHost | jbcli/jbcli/cli/jb.py:329-333 | as written: `user:pass@host` with no port becomes `user:5439`, losing the host |
| Ssh.AsWrittenExample | jbcli/jbcli/cli/jb.py:331-332 | as written, a netloc with host and port gets its port replaced |
| Ssh.NetlocReplacesPort | jbcli/jbcli/cli/jb.py:329-333 | the corrected rewrite keeps the user information and the host, replaces the port, and keeps the hostname |
| Ssh.NetlocAgreesWithPort | jbcli/jbcli/cli/jb.py:329-333 | when the netloc has a port, the corrected and the as-written rewrites agree |
| Ssh.NetlocAddsPort | jbcli/jbcli/cli/jb.py:329-333 | a netloc without a port gets the port appended, keeping its hostname |
| Ssh.NetlocWithoutUserinfo | jbcli/jbcli/cli/jb.py:329-333 | without user information, the corrected and the as-written rewrites agree |
| Ssh.HostnameOf | jbcli/jbcli/cli/jb.py:337 | the hostname of `userinfo@host:port` is the host, or none when it is empty |
| Ssh.ActivateSsh | jbcli/jbcli/cli/jb.py:312-390 | the activation is the ssh command, the extra hosts, the variables and the new environment of the tunnels, each connection's netloc cut at its last `:` and given the local port, as the code does |
| Ssh.CollectOfTable | jbcli/jbcli/cli/jb.py:320-334 | every collected tunnel comes from a table entry, and every entry that makes one is collected |
| Ssh.NewEnvironSound | jbcli/jbcli/cli/jb.py:387-390 | every variable returned belongs to a table entry that made a tunnel |
| Ssh.NewEnvironComplete | jbcli/jbcli/cli/jb.py:387-390 | every entry that made a tunnel is returned with its tunnel's connection URL |
| Ssh.TunnelForEntry | jbcli/jbcli/cli/jb.py:325-334 | a tunnel is made exactly when the variable is set; it carries the variable, the table's port and the parsed URL |
| Ssh.RedshiftPortsDistinct | jbcli/jbcli/cli/jb.py:320-324 | the three connections get different local ports |
| Ssh.LinksLength | jbcli/jbcli/cli/jb.py:336-340 | there is one forward per tunnel |
| Ssh.LinksAt | jbcli/jbcli/cli/jb.py:336-340 | forward j is `-L 0.0.0.0:port:host:5439` |
| Ssh.CommandShape | jbcli/jbcli/cli/jb.py:342-354 | the command is the ssh options, then the forwards, then the VPN host |
| Ssh.CommandForward | jbcli/jbcli/cli/jb.py:336-354 | each tunnel appears in the command as `-L` and its forward |
| Ssh.ComposeLength | jbcli/jbcli/cli/jb.py:373-378 | one extra host per tunnel |
| Ssh.ComposeAt | jbcli/jbcli/cli/jb.py:373-378 | extra host j maps tunnel j's hostname to the host address, and variable j is tunnel j's variable |
| Ssh.NoConnections | jbcli/jbcli/cli/jb.py:318-354 | with no connection variable set there are no tunnels, and the command is only the options and the VPN host |
| Ssh.ReturnedVariables | jbcli/jbcli/cli/jb.py:387-390 | a variable returned was set, and is one of the three Redshift connection variables |
| Ssh.ReturnedConnection | jbcli/jbcli/cli/jb.py:318-390 | a set connection variable is returned with its URL's netloc replaced by the text before its last `:` followed by the local port |
| Ssh.ReturnedConnectionWithPort | jbcli/jbcli/cli/jb.py:329-333 | when the netloc is `userinfo@host:port`, the returned URL keeps the user information and host and has the local port |
| Ssh.ReturnedConnectionLosesHost | jbcli/jbcli/cli/jb.py:329-333 | as written: when the netloc is `user:password@host` with no port, the returned URL's netloc is `user:` followed by the local port |
| Watcher.WatchShortPath | jbcli/jbcli/utils/dockerutil.py:43 | a path of fewer than two segments is an IndexError |
| Watcher.WatchIgnored | jbcli/jbcli/utils/dockerutil.py:49 | a change to a path with a `builds`, `.idea` or `.git` segment has no effect |
| Watcher.WatchPythonChange | jbcli/jbcli/utils/dockerutil.py:45-55 | a modified `.py` file refreshes the browser with a 5-second timeout exactly when reloading is on, and does nothing else |
| Watcher.WatchAppChange | jbcli/jbcli/utils/dockerutil.py:56-62 | another change loads the app, runs the load command when loading failed, then refreshes the browser when reloading is on |
| Watcher.SegmentsOfJoined | jbcli/jbcli/utils/dockerutil.py:36-39 | a path joined from separator-free segments splits back into them, with `/` or, on Windows, `\` |
| Strings.Split | jbcli/jbcli/utils/dockerutil.py:205 | `str.split(sep)`: the pieces joined by sep give back the text, and no piece contains sep |
| Strings.SplitOnce | jbcli/jbcli/utils/juice_log_searcher.py:30 | `split(sep, 1)`: the text before the first sep and everything after it |
| Strings.SplitWhitespaceSpec | jbcli/jbcli/utils/dockerutil.py:241 | `bytes.split()` with the ASCII whitespace set (and `str.split()` with Python's wider one): the words are non-empty, hold no whitespace, and are the text's non-whitespace characters in order |
| Strings.AfterLast | jbcli/jbcli/utils/dockerutil.py:327 | `rpartition`: the text after the last separator |
| Strings.BeforeLast | jbcli/jbcli/cli/jb.py:331 | `rsplit(sep, 1)[0]`: the text before the last separator |
| Strings.Strip | jbcli/jbcli/utils/dockerutil.py:207 | `strip` returns a slice of the text that neither starts nor ends with a character of the stripped class, and everything cut off on either side is in that class |
| Sorting.Sort | jbcli/jbcli/utils/dockerutil.py:280 | sorting is a permutation of the input |
| Sorting.SortSorted | jbcli/jbcli/utils/dockerutil.py:280 | the result is sorted by the key order |
| Sorting.SortStable | jbcli/jbcli/utils/dockerutil.py:280-297 | rows with equal keys keep their input order, as in Python's sort |

## Left out

- Input/output of every kind is a parameter rather than an action:
  - the Docker SDK (container listing, `exec`), `subprocess` calls, `git`, `aws`, GitHub Desktop;
  - the network, the clock (times are integer seconds), `sys.platform` (the `win32` flag), `uuid4`;
  - file reading and writing, `glob`, `os.path` checks.
- Prompts: the `click` and PyInquirer prompts are parameters, namely the prompted environment in `jb start` and the answer to the outdated-image question. `get_environment_interactively`'s construction of the choices is not part of this model.
- Echoed messages: most are not modelled. The watcher and the browser refresh keep theirs as events, and the watcher's effect lemmas leave them out.
- Concurrency: `jb watch`'s observers, the `Process` running the watcher, the `Popen` of the SSH tunnel and its `atexit` cleanup (`cleanup_ssh`) are left out.
- `get_host_ip` (socket and ioctl) is the `hostAddr` parameter of `Ssh.ActivateSsh`.
- The YAML serialization of the SSH compose file is left out. It is modelled by its content: the extra hosts and the variables.
- Ssh.Hostname: neither lowercases the host nor handles bracketed IPv6 addresses or invalid ports as `urllib.parse` does. `urlparse` and `urlunparse` are the `parse` and `unparse` parameters.
- The Elasticsearch side of the log search is left out:
  - the query, the index and the credentials (juice_log_searcher.py:119-186);
  - the client.
  The hits are a parameter.
- The user's service and user regular expressions are a `Pattern` parameter: only their match result is modelled.
- LogParse.Convert: `float` parsing is a `FloatReading` parameter.
- Catalog.IsDigit: follows the decimal digits of Unicode 15.0, as Python 3.12 does. Other Python versions carry slightly different tables.
- Commands.Run: the `auth.has_current_session()` check (jb.py:750), the `os.chdir` into the devlandia directory (jb.py:765) and the secrets environment passed to `run_jb` (jb.py:766) are left out, being AWS, SSM and working-directory effects. The model keeps the dispatch, the commands and the outcome.
- LogParse.ParseInt: accepts only ASCII digits with an optional sign. Python's `int` also takes surrounding whitespace, underscores and other Unicode digits.
- LogSearch.IsWordChar: `\w` is taken as ASCII letters, digits and `_`. Python's `\w` on `str` also matches other Unicode letters and digits.
- The `tablib.Dataset` is modelled as headers plus a table of cells.
- ImageAge.CheckOutdatedImage: stops once it has the two ages. The human-readable comparison, the prompt-interval bookkeeping and the question asked (jb.py:549-558, 600-615) are not modelled. Its answer, or the exception it raises, is a parameter of `Jb.Start`.
- The `tabulate` table and the human-readable age column of `jb ls` are left out.
- `jb start`:
  - the `auth` session check, `ensure_root`, the SSM secrets population and `os.chdir` are left out;
  - the `upgrade` command's own git and pip work is left out: its outcome is a parameter;
  - the snapshot and hstm activations are steps that append their text to `.env`.
- Apps.Clone: a failed copy is the handled `shutil.ExecError` path. `shutil.copytree` usually signals failure with `shutil.Error` or `OSError`, which that handler does not catch and which would escape `clone`. That escape is not modelled.
- Commands.Add: the `docker.errors.APIError` handler around the whole command (jb.py:126-127) is left out. Load failures inside the loop are modelled by the `runOk` outcome.
- Other commands are thin wrappers over the modelled operations and are not part of this model: `clone`, `remove`, `ls`'s options, `stop`, `clear_cache`, `pull`, `manage`, `dc`, `interval`, `stash`, `activate_hstm` and `activate_snapshot`.

## Findings

| source | as written | input that shows it | evidently intended | confidence | as-written member | corrected member |
|---|---|---|---|---|---|---|
| jbcli/jbcli/utils/dockerutil.py:325-336 | a devlandia tag line that already carries the requested tag is written neither by the retag branch nor by the copy branch | two tag lines ending in `juicebox-devlandia:a"` and `juicebox-devlandia:b"`, requested tag `b`: the file is replaced with only the first line | every line is kept, and only lines on another tag are retagged | not executed | DockerUtil.SetTagAsWritten, DockerUtil.SetTagDropsCurrentLine | DockerUtil.SetTag |
| jbcli/jbcli/cli/jb.py:329-333 | the tunnel netloc is the text before the last `:` plus the port, which assumes the netloc ends in `:port` | `user:pass@host` with no port becomes `user:5439` and loses the host | keep the user information and the host, and replace or add the port | not executed | Ssh.NetlocAsWrittenLosesHost, Ssh.ReturnedConnectionLosesHost | Ssh.NetlocAddsPort, Ssh.NetlocReplacesPort |
