/**
 * reload.py: the browser-sync helpers the watcher uses to refresh the
 * browser once the Django server answers its health check. The HTTP
 * requests, the sleeps and the browser-sync subprocess are recorded as
 * events; the health check's answers are an oracle indexed by attempt.
 */
module Reload {
  import opened Wrappers

  type Argv = seq<string>

  const BrowserSyncPath: string := "../../node_modules/.bin/browser-sync"

  /** What the model records of `refresh_browser` and the helpers it calls, in order. */
  datatype Event =
    | Echo(text: string)       // click.echo
    | Highlight(text: string)  // echo_highlight
    | Warning(text: string)    // echo_warning
    | Sleep(seconds: nat)      // time.sleep(timeout)
    | HealthCheck              // GET http://localhost:8000/health_check
    | Run(argv: Argv)          // check_output(argv)

  /** One health check's outcome: the connection was refused, or a response with its status code. */
  datatype Response = Refused | Answered(status: int)

  /** `create_browser_instance()`: the command that starts the proxying browser-sync instance. */
  function CreateBrowserInstance(): (cmd: Argv)
    ensures cmd == [BrowserSyncPath, "start", "--proxy=localhost:8000"]
  {
    [BrowserSyncPath, "start", "--proxy=localhost:8000"]
  }

  const ReloadCommand: Argv := [BrowserSyncPath, "reload"]

  /** `restart_browser()`: a message, then the browser-sync reload command. */
  function RestartBrowser(): seq<Event> {
    [Echo("Refreshing browser..."), Run(ReloadCommand)]
  }

  const MaxAttempts: nat := 5
  const CheckingMessage := "Checking server status..."
  const StillCheckingMessage := "Still checking..."
  const GiveUpMessage := "Maximum attempts reached! Something might be wrong."

  /**
   * A response counts as healthy when it is truthy and its status is 200;
   * a `requests` response is truthy exactly when its status is below 400,
   * so the status test alone decides.
   */
  predicate Healthy(r: Response) {
    r.Answered? && r.status == 200
  }

  /** The first of the attempts `0 .. n-1` whose response is healthy. */
  function FirstHealthy(responses: nat -> Response, n: nat): (r: Option<nat>)
    ensures r.Some? ==> r.value < n && Healthy(responses(r.value))
    ensures forall k: nat :: k < n && (r.None? || k < r.value) ==> !Healthy(responses(k))
  {
    if n == 0 then None
    else
      match FirstHealthy(responses, n - 1)
      case Some(k) => Some(k)
      case None => if Healthy(responses(n - 1)) then Some(n - 1) else None
  }

  /** What one attempt of the polling loop records. */
  function Attempt(timeout: nat, r: Response): seq<Event> {
    [Sleep(timeout), HealthCheck]
      + (if r.Refused? then [Highlight(StillCheckingMessage)]
         else if Healthy(r) then RestartBrowser()
         else [])
  }

  /** The events of attempts `0 .. n-1`. */
  function Polls(timeout: nat, responses: nat -> Response, n: nat): seq<Event> {
    if n == 0 then [] else Polls(timeout, responses, n - 1) + Attempt(timeout, responses(n - 1))
  }

  /**
   * `refresh_browser(timeout)`: without a timeout, reload at once. With one,
   * poll the health check up to five times, sleeping `timeout` before each
   * check, reload on the first healthy answer and stop; give up with a
   * warning after five attempts without one.
   */
  method RefreshBrowser(timeout: Option<nat>, responses: nat -> Response) returns (events: seq<Event>)
    ensures timeout.None? ==> events == RestartBrowser()
    ensures timeout.Some? ==>
      match FirstHealthy(responses, MaxAttempts)
      case Some(k) => events == [Highlight(CheckingMessage)] + Polls(timeout.value, responses, k + 1)
      case None => events == [Highlight(CheckingMessage)] + Polls(timeout.value, responses, MaxAttempts) + [Warning(GiveUpMessage)]
  {
    if timeout.None? {
      events := RestartBrowser();
      return;
    }
    var t := timeout.value;
    events := [Highlight(CheckingMessage)];
    var i := 0;
    while i < MaxAttempts
      invariant 0 <= i <= MaxAttempts
      invariant events == [Highlight(CheckingMessage)] + Polls(t, responses, i)
      invariant forall k: nat :: k < i ==> !Healthy(responses(k))
    {
      events := events + [Sleep(t), HealthCheck];
      var response := responses(i);
      if response.Refused? {
        events := events + [Highlight(StillCheckingMessage)];
      } else if response.status == 200 {
        events := events + RestartBrowser();
        assert FirstHealthy(responses, MaxAttempts) == Some(i) by {
          FirstHealthyAt(responses, MaxAttempts, i);
        }
        return;
      }
      i := i + 1;
    }
    events := events + [Warning(GiveUpMessage)];
  }

  lemma FirstHealthyAt(responses: nat -> Response, m: nat, n: nat)
    requires n < m && Healthy(responses(n)) && forall k: nat :: k < n ==> !Healthy(responses(k))
    ensures FirstHealthy(responses, m) == Some(n)
  {
  }

  /** How often `e` occurs in `events`. */
  function Count(events: seq<Event>, e: Event): nat {
    multiset(events)[e]
  }

  /** Every attempt checks the server once; only a healthy one reloads, and only a refused one says so. */
  lemma AttemptCounts(timeout: nat, r: Response)
    ensures Count(Attempt(timeout, r), HealthCheck) == 1
    ensures Count(Attempt(timeout, r), Run(ReloadCommand)) == (if Healthy(r) then 1 else 0)
    ensures Count(Attempt(timeout, r), Highlight(StillCheckingMessage)) == (if r.Refused? then 1 else 0)
    ensures Count(Attempt(timeout, r), Warning(GiveUpMessage)) == 0
    ensures Attempt(timeout, r)[0] == Sleep(timeout) && Attempt(timeout, r)[1] == HealthCheck
  {
    var e := Attempt(timeout, r);
    if r.Refused? {
      assert e == [Sleep(timeout), HealthCheck, Highlight(StillCheckingMessage)];
    } else if Healthy(r) {
      assert e == [Sleep(timeout), HealthCheck, Echo("Refreshing browser..."), Run(ReloadCommand)];
    } else {
      assert e == [Sleep(timeout), HealthCheck];
    }
  }

  /** Each of `n` attempts checks the server once. */
  lemma {:induction false} PollsChecks(timeout: nat, responses: nat -> Response, n: nat)
    ensures Count(Polls(timeout, responses, n), HealthCheck) == n
  {
    if n > 0 {
      PollsChecks(timeout, responses, n - 1);
      AttemptCounts(timeout, responses(n - 1));
    }
  }

  /** Attempts without a healthy answer never reload. */
  lemma {:induction false} PollsWithoutReload(timeout: nat, responses: nat -> Response, n: nat)
    requires forall k: nat :: k < n ==> !Healthy(responses(k))
    ensures Count(Polls(timeout, responses, n), Run(ReloadCommand)) == 0
  {
    if n > 0 {
      PollsWithoutReload(timeout, responses, n - 1);
      AttemptCounts(timeout, responses(n - 1));
    }
  }

  /** Refused attempts each say "Still checking...". */
  lemma {:induction false} PollsRefused(timeout: nat, responses: nat -> Response, n: nat)
    requires forall k: nat :: k < n ==> responses(k).Refused?
    ensures Count(Polls(timeout, responses, n), Highlight(StillCheckingMessage)) == n
  {
    if n > 0 {
      PollsRefused(timeout, responses, n - 1);
      AttemptCounts(timeout, responses(n - 1));
    }
  }

  /** The polling attempts never print the opening message or the warning. */
  lemma {:induction false} PollsQuiet(timeout: nat, responses: nat -> Response, n: nat)
    ensures Highlight(CheckingMessage) !in Polls(timeout, responses, n)
    ensures Warning(GiveUpMessage) !in Polls(timeout, responses, n)
  {
    if n > 0 {
      PollsQuiet(timeout, responses, n - 1);
      var a := Attempt(timeout, responses(n - 1));
      assert Highlight(CheckingMessage) !in a && Warning(GiveUpMessage) !in a;
    }
  }

  /**
   * The bounds of `refresh_browser` with a timeout: at most five health
   * checks, at most one reload, and a reload exactly when some answer among
   * the first five is healthy, in which case polling stops there and there
   * is no warning; otherwise exactly one warning.
   */
  lemma RefreshBounds(timeout: nat, responses: nat -> Response, events: seq<Event>)
    requires match FirstHealthy(responses, MaxAttempts)
      case Some(k) => events == [Highlight(CheckingMessage)] + Polls(timeout, responses, k + 1)
      case None => events == [Highlight(CheckingMessage)] + Polls(timeout, responses, MaxAttempts) + [Warning(GiveUpMessage)]
    ensures Count(events, HealthCheck) <= MaxAttempts
    ensures Count(events, Run(ReloadCommand)) == (if FirstHealthy(responses, MaxAttempts).Some? then 1 else 0)
    ensures Count(events, Warning(GiveUpMessage)) == (if FirstHealthy(responses, MaxAttempts).Some? then 0 else 1)
    ensures FirstHealthy(responses, MaxAttempts).Some? ==>
      Count(events, HealthCheck) == FirstHealthy(responses, MaxAttempts).value + 1
  {
    match FirstHealthy(responses, MaxAttempts)
    case Some(k) => RefreshHealthy(timeout, responses, k, events);
    case None => RefreshGaveUp(timeout, responses, events);
  }

  /** How often `e` occurs in the opening message followed by `polls` and `tail`. */
  lemma CountParts(polls: seq<Event>, tail: seq<Event>, e: Event)
    ensures Count([Highlight(CheckingMessage)] + polls + tail, e)
      == Count([Highlight(CheckingMessage)], e) + Count(polls, e) + Count(tail, e)
  {
  }

  /** `RefreshBounds` when attempt `k` is the first healthy one. */
  lemma RefreshHealthy(timeout: nat, responses: nat -> Response, k: nat, events: seq<Event>)
    requires Healthy(responses(k)) && forall j: nat :: j < k ==> !Healthy(responses(j))
    requires events == [Highlight(CheckingMessage)] + Polls(timeout, responses, k + 1)
    ensures Count(events, HealthCheck) == k + 1
    ensures Count(events, Run(ReloadCommand)) == 1
    ensures Count(events, Warning(GiveUpMessage)) == 0
  {
    assert Polls(timeout, responses, k + 1) == Polls(timeout, responses, k) + Attempt(timeout, responses(k));
    HealthyChecks(timeout, responses, k);
    HealthyReloads(timeout, responses, k);
    HealthyQuiet(timeout, responses, k);
  }

  /** The health checks up to and including the first healthy attempt `k`. */
  lemma HealthyChecks(timeout: nat, responses: nat -> Response, k: nat)
    ensures Count([Highlight(CheckingMessage)] + (Polls(timeout, responses, k) + Attempt(timeout, responses(k))), HealthCheck) == k + 1
  {
    PollsChecks(timeout, responses, k);
    AttemptCounts(timeout, responses(k));
    TallyStop(Polls(timeout, responses, k), Attempt(timeout, responses(k)), HealthCheck, k, 1);
  }

  /** The one reload, made by the first healthy attempt `k`. */
  lemma HealthyReloads(timeout: nat, responses: nat -> Response, k: nat)
    requires Healthy(responses(k)) && forall j: nat :: j < k ==> !Healthy(responses(j))
    ensures Count([Highlight(CheckingMessage)] + (Polls(timeout, responses, k) + Attempt(timeout, responses(k))), Run(ReloadCommand)) == 1
  {
    PollsWithoutReload(timeout, responses, k);
    AttemptCounts(timeout, responses(k));
    TallyStop(Polls(timeout, responses, k), Attempt(timeout, responses(k)), Run(ReloadCommand), 0, 1);
  }

  /** No warning up to and including attempt `k`. */
  lemma HealthyQuiet(timeout: nat, responses: nat -> Response, k: nat)
    ensures Count([Highlight(CheckingMessage)] + (Polls(timeout, responses, k) + Attempt(timeout, responses(k))), Warning(GiveUpMessage)) == 0
  {
    PollsQuiet(timeout, responses, k);
    AttemptCounts(timeout, responses(k));
    TallyStop(Polls(timeout, responses, k), Attempt(timeout, responses(k)), Warning(GiveUpMessage), 0, 0);
  }

  /** `RefreshBounds` when none of the five attempts is healthy. */
  lemma RefreshGaveUp(timeout: nat, responses: nat -> Response, events: seq<Event>)
    requires forall j: nat :: j < MaxAttempts ==> !Healthy(responses(j))
    requires events == [Highlight(CheckingMessage)] + Polls(timeout, responses, MaxAttempts) + [Warning(GiveUpMessage)]
    ensures Count(events, HealthCheck) == MaxAttempts
    ensures Count(events, Run(ReloadCommand)) == 0
    ensures Count(events, Warning(GiveUpMessage)) == 1
  {
    var polls := Polls(timeout, responses, MaxAttempts);
    PollsChecks(timeout, responses, MaxAttempts);
    PollsWithoutReload(timeout, responses, MaxAttempts);
    PollsQuiet(timeout, responses, MaxAttempts);
    WarningCounts();
    Tally(polls, [Warning(GiveUpMessage)], HealthCheck, MaxAttempts, 0);
    Tally(polls, [Warning(GiveUpMessage)], Run(ReloadCommand), 0, 0);
    Tally(polls, [Warning(GiveUpMessage)], Warning(GiveUpMessage), 0, 1);
  }

  /** The closing warning is neither a health check nor a reload. */
  lemma WarningCounts()
    ensures Count([Warning(GiveUpMessage)], HealthCheck) == 0
    ensures Count([Warning(GiveUpMessage)], Run(ReloadCommand)) == 0
    ensures Count([Warning(GiveUpMessage)], Warning(GiveUpMessage)) == 1
  {
  }

  /** Adds up the occurrences of `e` in the opening message and the attempts `polls + last`, given those in each. */
  lemma TallyStop(polls: seq<Event>, last: seq<Event>, e: Event, p: nat, t: nat)
    requires e != Highlight(CheckingMessage)
    requires Count(polls, e) == p && Count(last, e) == t
    ensures Count([Highlight(CheckingMessage)] + (polls + last), e) == p + t
  {
    assert multiset([Highlight(CheckingMessage)] + (polls + last))
      == multiset([Highlight(CheckingMessage)]) + (multiset(polls) + multiset(last));
  }

  /** Adds up the occurrences of `e` in the opening message, `polls` and `tail`, given those of the last two. */
  lemma Tally(polls: seq<Event>, tail: seq<Event>, e: Event, p: nat, t: nat)
    requires e != Highlight(CheckingMessage)
    requires Count(polls, e) == p && Count(tail, e) == t
    ensures Count([Highlight(CheckingMessage)] + polls + tail, e) == p + t
  {
    CountParts(polls, tail, e);
  }

  /**
   * When the server refuses all five connections: one "Checking server
   * status...", five "Still checking...", one warning and no reload.
   */
  lemma RefreshAllRefused(timeout: nat, responses: nat -> Response, events: seq<Event>)
    requires forall k: nat :: k < MaxAttempts ==> responses(k) == Refused
    requires events == [Highlight(CheckingMessage)] + Polls(timeout, responses, MaxAttempts) + [Warning(GiveUpMessage)]
    ensures FirstHealthy(responses, MaxAttempts) == None
    ensures Count(events, Highlight(CheckingMessage)) == 1
    ensures Count(events, Highlight(StillCheckingMessage)) == 5
    ensures Count(events, Warning(GiveUpMessage)) == 1
    ensures Count(events, Run(ReloadCommand)) == 0
  {
    PollsRefused(timeout, responses, MaxAttempts);
    PollsWithoutReload(timeout, responses, MaxAttempts);
    PollsQuiet(timeout, responses, MaxAttempts);
  }

  /** An answer other than 200 uses up its attempt without any message. */
  lemma UnhealthyAnswerIsSilent(timeout: nat, status: int)
    requires status != 200
    ensures Attempt(timeout, Answered(status)) == [Sleep(timeout), HealthCheck]
  {
  }
}
