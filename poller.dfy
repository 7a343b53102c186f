/** The current poller's `main`: an endless loop of cycles, each sleeping
    (after the first), obtaining a credential when the modem needs one,
    fetching the status page, parsing it and handing a non-empty snapshot
    to the sink. The process effects (sleeping, exiting, raising, sending)
    are events of a trace; the modem's answers are finite input sequences,
    consumed in order, and the run ends with the trace so far when they
    are used up. */
module Poller {
  import opened Common
  import opened Stats

  /** The config values `main` reads. */
  datatype Settings = Settings(
    sleepInterval: int,
    destination: string,
    authRequired: bool,
    exitOnAuthError: bool,
    exitOnHtmlError: bool,
    clearAuthTokenOnHtmlError: bool,
    sleepBeforeExit: bool)

  /** The code `main` calls whose effect is not modelled here: the
      model's `parse_html_function`, and the sink call for a destination,
      which answers with the exception it raises, if any. */
  datatype Handlers = Handlers(parse: string -> Result<Snapshot>, send: (string, Snapshot) -> Option<Fault>)

  /** What the outside world sees of a run. */
  datatype Event =
    | Slept(seconds: int)                          // time.sleep
    | Authenticating                               // one call of get_credential
    | Fetching(credential: Option<string>)         // one call of get_html, with the credential it is given
    | Sent(destination: string, stats: Snapshot)   // send_to_influx / send_to_aws_time_stream
    | Exited(status: int)                          // sys.exit
    | Crashed(fault: Fault)                        // an exception escaped main

  /** Python truthiness of an optional str: None and "" are false. */
  predicate Truthy(s: Option<string>) {
    s.Some? && |s.value| > 0
  }

  /** `time.sleep(seconds)` and then `rest`; a negative length raises
      instead, and nothing follows. */
  function SleepThen(seconds: int, rest: seq<Event>): seq<Event> {
    if seconds < 0 then [Crashed(NegativeSleep)] else [Slept(seconds)] + rest
  }

  /** `error_exit(message, config)`: sleep first if `sleep_before_exit`,
      then exit with status 1; the sleep raises for a negative interval. */
  function ErrorExit(cfg: Settings): (t: seq<Event>)
    ensures |t| > 0 && (t[|t| - 1] == Exited(1) || t[|t| - 1] == Crashed(NegativeSleep))
    ensures !cfg.sleepBeforeExit ==> t == [Exited(1)]
    ensures cfg.sleepBeforeExit && cfg.sleepInterval >= 0 ==> t == [Slept(cfg.sleepInterval), Exited(1)]
    ensures cfg.sleepBeforeExit && cfg.sleepInterval < 0 ==> t == [Crashed(NegativeSleep)]
  {
    if cfg.sleepBeforeExit then SleepThen(cfg.sleepInterval, [Exited(1)]) else [Exited(1)]
  }

  /** The destinations `main` dispatches on. */
  predicate IsSinkDestination(d: string) {
    d == "influxdb" || d == "timestream"
  }

  /** The run from the top of a cycle. `creds` are the answers of the next
      `get_credential` calls (an Err when it raises) and `pages` those of
      the next `get_html` calls. */
  function RunTop(cfg: Settings, first: bool, credential: Option<string>,
                  creds: seq<Result<Option<string>>>, pages: seq<Option<string>>, h: Handlers): seq<Event>
    decreases |creds| + |pages|, 3
  {
    var next := if cfg.authRequired && !Truthy(credential) then RunAuth(cfg, creds, pages, h)
                else RunFetch(cfg, credential, creds, pages, h);
    if first then next else SleepThen(cfg.sleepInterval, next)
  }

  /** The run from the head of the `while not credential` loop. */
  function RunAuth(cfg: Settings, creds: seq<Result<Option<string>>>, pages: seq<Option<string>>, h: Handlers): seq<Event>
    decreases |creds| + |pages|, 2
  {
    if |creds| == 0 then [] else [Authenticating] + AfterAuth(cfg, creds[0], creds[1..], pages, h)
  }

  /** The run once `get_credential` has answered: a credential leaves the
      loop, a failure exits under `exit_on_auth_error` and otherwise
      sleeps and tries again. */
  function AfterAuth(cfg: Settings, answer: Result<Option<string>>,
                     creds: seq<Result<Option<string>>>, pages: seq<Option<string>>, h: Handlers): seq<Event>
    decreases |creds| + |pages|, 3
  {
    match answer
    case Err(f) => [Crashed(f)]
    case Ok(c) =>
      if Truthy(c) then RunFetch(cfg, c, creds, pages, h)
      else if cfg.exitOnAuthError then ErrorExit(cfg)
      else SleepThen(cfg.sleepInterval, RunAuth(cfg, creds, pages, h))
  }

  /** The run from the `get_html` call. */
  function RunFetch(cfg: Settings, credential: Option<string>,
                    creds: seq<Result<Option<string>>>, pages: seq<Option<string>>, h: Handlers): seq<Event>
    decreases |creds| + |pages|, 1
  {
    if |pages| == 0 then [] else [Fetching(credential)] + AfterFetch(cfg, credential, pages[0], creds, pages[1..], h)
  }

  /** The run once `get_html` has answered: no page exits under
      `exit_on_html_error` and otherwise ends the cycle, dropping the
      credential under `clear_auth_token_on_html_error`. */
  function AfterFetch(cfg: Settings, credential: Option<string>, html: Option<string>,
                      creds: seq<Result<Option<string>>>, pages: seq<Option<string>>, h: Handlers): seq<Event>
    decreases |creds| + |pages|, 6
  {
    if !Truthy(html) then
      if cfg.exitOnHtmlError then ErrorExit(cfg)
      else RunTop(cfg, false, if cfg.clearAuthTokenOnHtmlError then None else credential, creds, pages, h)
    else RunParsed(cfg, credential, h.parse(html.value), creds, pages, h)
  }

  /** The run once the page is parsed: an empty snapshot is skipped, an
      unsupported destination exits without the sleep, and otherwise the
      snapshot goes to the sink. */
  function RunParsed(cfg: Settings, credential: Option<string>, parsed: Result<Snapshot>,
                     creds: seq<Result<Option<string>>>, pages: seq<Option<string>>, h: Handlers): seq<Event>
    decreases |creds| + |pages|, 5
  {
    match parsed
    case Err(f) => [Crashed(f)]
    case Ok(stats) =>
      if IsEmpty(stats) then RunTop(cfg, false, credential, creds, pages, h)
      else if !IsSinkDestination(cfg.destination) then [Exited(1)]
      else [Sent(cfg.destination, stats)] + AfterSend(cfg, credential, h.send(cfg.destination, stats), creds, pages, h)
  }

  /** The run once the sink has been called. */
  function AfterSend(cfg: Settings, credential: Option<string>, fault: Option<Fault>,
                     creds: seq<Result<Option<string>>>, pages: seq<Option<string>>, h: Handlers): seq<Event>
    decreases |creds| + |pages|, 4
  {
    match fault
    case Some(f) => [Crashed(f)]
    case None => RunTop(cfg, false, credential, creds, pages, h)
  }

  /** Appending in two steps. */
  lemma {:induction false} Extend(trace: seq<Event>, a: seq<Event>, rest: seq<Event>)
    ensures trace + (a + rest) == (trace + a) + rest
  {
  }

  /** The `while not credential` loop: calls `get_credential` until it
      answers with a credential. `stop` is set when the run ends inside
      the loop (an exception, `error_exit`, or no answers left); the
      events of the loop are `events` either way. */
  method ObtainCredential(cfg: Settings, creds: seq<Result<Option<string>>>, ci0: nat,
                          pages: seq<Option<string>>, h: Handlers)
    returns (credential: Option<string>, ci: nat, events: seq<Event>, stop: bool)
    requires ci0 <= |creds|
    ensures ci0 <= ci <= |creds|
    ensures stop ==> RunAuth(cfg, creds[ci0..], pages, h) == events
    ensures !stop ==> Truthy(credential)
                      && RunAuth(cfg, creds[ci0..], pages, h) == events + RunFetch(cfg, credential, creds[ci..], pages, h)
  {
    credential, ci, events, stop := None, ci0, [], false;
    while !Truthy(credential)
      invariant ci0 <= ci <= |creds|
      invariant RunAuth(cfg, creds[ci0..], pages, h)
             == events + (if Truthy(credential) then RunFetch(cfg, credential, creds[ci..], pages, h)
                          else RunAuth(cfg, creds[ci..], pages, h))
      decreases |creds| - ci
    {
      if ci == |creds| {
        return credential, ci, events, true;
      }
      var answer := creds[ci];
      assert creds[ci..][0] == answer && creds[ci..][1..] == creds[ci + 1..];
      Extend(events, [Authenticating], AfterAuth(cfg, answer, creds[ci + 1..], pages, h));
      events := events + [Authenticating];
      ci := ci + 1;
      if answer.Err? {
        return credential, ci, events + [Crashed(answer.fault)], true;
      }
      credential := answer.value;
      if !Truthy(credential) && cfg.exitOnAuthError {
        return credential, ci, events + ErrorExit(cfg), true;
      }
      if !Truthy(credential) && cfg.sleepInterval < 0 {
        return credential, ci, events + [Crashed(NegativeSleep)], true;
      }
      if !Truthy(credential) {
        Extend(events, [Slept(cfg.sleepInterval)], RunAuth(cfg, creds[ci..], pages, h));
        events := events + [Slept(cfg.sleepInterval)];
      }
    }
  }

  /** `main()` after the config is loaded: the `while True` loop, proved to
      produce the trace of `RunTop` from the first cycle. */
  method Poll(cfg: Settings, creds: seq<Result<Option<string>>>, pages: seq<Option<string>>, h: Handlers)
    returns (trace: seq<Event>)
    ensures trace == RunTop(cfg, true, None, creds, pages, h)
  {
    ghost var run := RunTop(cfg, true, None, creds, pages, h);
    var credential: Option<string> := None;
    var first := true;
    var ci: nat, pi := 0, 0;
    trace := [];
    while true
      invariant ci <= |creds| && pi <= |pages|
      invariant run == trace + RunTop(cfg, first, credential, creds[ci..], pages[pi..], h)
      decreases |creds| - ci + |pages| - pi
    {
      ghost var next := if cfg.authRequired && !Truthy(credential) then RunAuth(cfg, creds[ci..], pages[pi..], h)
                        else RunFetch(cfg, credential, creds[ci..], pages[pi..], h);
      if !first && cfg.sleepInterval < 0 {
        trace := trace + [Crashed(NegativeSleep)];
        return;
      }
      if !first {
        Extend(trace, [Slept(cfg.sleepInterval)], next);
        trace := trace + [Slept(cfg.sleepInterval)];
      } else {
        assert RunTop(cfg, first, credential, creds[ci..], pages[pi..], h) == next;
      }
      first := false;

      if cfg.authRequired && !Truthy(credential) {
        var events, stop;
        credential, ci, events, stop := ObtainCredential(cfg, creds, ci, pages[pi..], h);
        if stop {
          trace := trace + events;
          return;
        }
        Extend(trace, events, RunFetch(cfg, credential, creds[ci..], pages[pi..], h));
        trace := trace + events;
      }
      assert run == trace + RunFetch(cfg, credential, creds[ci..], pages[pi..], h);

      if pi == |pages| {
        return;
      }
      var html := pages[pi];
      assert pages[pi..][0] == html && pages[pi..][1..] == pages[pi + 1..];
      Extend(trace, [Fetching(credential)], AfterFetch(cfg, credential, html, creds[ci..], pages[pi + 1..], h));
      trace := trace + [Fetching(credential)];
      pi := pi + 1;
      var events, stop;
      events, credential, stop := HandlePage(cfg, credential, html, creds[ci..], pages[pi..], h);
      if stop {
        trace := trace + events;
        return;
      }
      Extend(trace, events, RunTop(cfg, false, credential, creds[ci..], pages[pi..], h));
      trace := trace + events;
    }
  }

  /** The rest of one cycle once `get_html` has answered `html`: no page
      exits or ends the cycle, a page is parsed, an empty snapshot ends the
      cycle, and otherwise the snapshot goes to the sink. `stop` is set when
      the run ends in the cycle; `creds` and `pages` are the answers left
      for the cycles after it. */
  method HandlePage(cfg: Settings, credential0: Option<string>, html: Option<string>,
                    ghost creds: seq<Result<Option<string>>>, ghost pages: seq<Option<string>>, h: Handlers)
    returns (events: seq<Event>, credential: Option<string>, stop: bool)
    ensures stop ==> AfterFetch(cfg, credential0, html, creds, pages, h) == events
    ensures !stop ==> AfterFetch(cfg, credential0, html, creds, pages, h)
                      == events + RunTop(cfg, false, credential, creds, pages, h)
  {
    credential := credential0;
    if !Truthy(html) {
      if cfg.exitOnHtmlError {
        return ErrorExit(cfg), credential, true;
      }
      if cfg.clearAuthTokenOnHtmlError {
        credential := None;
      }
      return [], credential, false;
    }
    var stats := h.parse(html.value);
    assert AfterFetch(cfg, credential, html, creds, pages, h) == RunParsed(cfg, credential, stats, creds, pages, h);
    if stats.Err? {
      return [Crashed(stats.fault)], credential, true;
    }
    if IsEmpty(stats.value) {
      return [], credential, false;
    }
    if cfg.destination == "influxdb" || cfg.destination == "timestream" {
      var fault := h.send(cfg.destination, stats.value);
      assert RunParsed(cfg, credential, stats, creds, pages, h)
          == [Sent(cfg.destination, stats.value)] + AfterSend(cfg, credential, fault, creds, pages, h);
      if fault.Some? {
        return [Sent(cfg.destination, stats.value), Crashed(fault.value)], credential, true;
      }
      return [Sent(cfg.destination, stats.value)], credential, false;
    }
    return [Exited(1)], credential, true;
  }

  /** The policies of `main`, as one property of a trace:
      - a snapshot with both lists empty is never sent;
      - everything sent goes to the configured destination, which is a
        supported one;
      - an exit or a crash is the last event;
      - every sleep is of `sleep_interval`, which is then non-negative;
      - with authentication required, `get_html` is only ever called with
        a non-empty credential. */
  predicate Policies(cfg: Settings, t: seq<Event>) {
    && (forall i :: 0 <= i < |t| && t[i].Sent? ==>
          !IsEmpty(t[i].stats) && t[i].destination == cfg.destination && IsSinkDestination(cfg.destination))
    && (forall i :: 0 <= i < |t| && (t[i].Exited? || t[i].Crashed?) ==> i == |t| - 1)
    && (forall i :: 0 <= i < |t| && t[i].Slept? ==> t[i].seconds == cfg.sleepInterval >= 0)
    && (cfg.authRequired ==> forall i :: 0 <= i < |t| && t[i].Fetching? ==> Truthy(t[i].credential))
  }

  /** A prefix that neither exits nor breaks the policies keeps them. */
  lemma {:induction false} AppendPolicies(cfg: Settings, a: seq<Event>, b: seq<Event>)
    requires Policies(cfg, a) && Policies(cfg, b)
    requires forall i :: 0 <= i < |a| ==> !a[i].Exited? && !a[i].Crashed?
    ensures Policies(cfg, a + b)
  {
    assert forall i :: |a| <= i < |a + b| ==> (a + b)[i] == b[i - |a|];
  }

  /** A sleep of `sleep_interval` before a run keeps its policies. */
  lemma {:induction false} SleepPolicies(cfg: Settings, rest: seq<Event>)
    requires Policies(cfg, rest)
    ensures Policies(cfg, SleepThen(cfg.sleepInterval, rest))
  {
    if cfg.sleepInterval >= 0 {
      AppendPolicies(cfg, [Slept(cfg.sleepInterval)], rest);
    }
  }

  lemma {:induction false} TopPolicies(cfg: Settings, first: bool, credential: Option<string>,
                                       creds: seq<Result<Option<string>>>, pages: seq<Option<string>>, h: Handlers)
    ensures Policies(cfg, RunTop(cfg, first, credential, creds, pages, h))
    decreases |creds| + |pages|, 3
  {
    if cfg.authRequired && !Truthy(credential) {
      AuthPolicies(cfg, creds, pages, h);
      SleepPolicies(cfg, RunAuth(cfg, creds, pages, h));
    } else {
      FetchPolicies(cfg, credential, creds, pages, h);
      SleepPolicies(cfg, RunFetch(cfg, credential, creds, pages, h));
    }
  }

  lemma {:induction false} AuthPolicies(cfg: Settings, creds: seq<Result<Option<string>>>, pages: seq<Option<string>>, h: Handlers)
    ensures Policies(cfg, RunAuth(cfg, creds, pages, h))
    decreases |creds| + |pages|, 2
  {
    if |creds| > 0 {
      AfterAuthPolicies(cfg, creds[0], creds[1..], pages, h);
      AppendPolicies(cfg, [Authenticating], AfterAuth(cfg, creds[0], creds[1..], pages, h));
    }
  }

  lemma {:induction false} AfterAuthPolicies(cfg: Settings, answer: Result<Option<string>>,
                                             creds: seq<Result<Option<string>>>, pages: seq<Option<string>>, h: Handlers)
    ensures Policies(cfg, AfterAuth(cfg, answer, creds, pages, h))
    decreases |creds| + |pages|, 3
  {
    if answer.Ok? {
      if Truthy(answer.value) {
        FetchPolicies(cfg, answer.value, creds, pages, h);
      } else if !cfg.exitOnAuthError {
        AuthPolicies(cfg, creds, pages, h);
        SleepPolicies(cfg, RunAuth(cfg, creds, pages, h));
      }
    }
  }

  lemma {:induction false} FetchPolicies(cfg: Settings, credential: Option<string>,
                                         creds: seq<Result<Option<string>>>, pages: seq<Option<string>>, h: Handlers)
    requires cfg.authRequired ==> Truthy(credential)
    ensures Policies(cfg, RunFetch(cfg, credential, creds, pages, h))
    decreases |creds| + |pages|, 1
  {
    if |pages| > 0 {
      AfterFetchPolicies(cfg, credential, pages[0], creds, pages[1..], h);
      AppendPolicies(cfg, [Fetching(credential)], AfterFetch(cfg, credential, pages[0], creds, pages[1..], h));
    }
  }

  lemma {:induction false} AfterFetchPolicies(cfg: Settings, credential: Option<string>, html: Option<string>,
                                              creds: seq<Result<Option<string>>>, pages: seq<Option<string>>, h: Handlers)
    requires cfg.authRequired ==> Truthy(credential)
    ensures Policies(cfg, AfterFetch(cfg, credential, html, creds, pages, h))
    decreases |creds| + |pages|, 6
  {
    if !Truthy(html) {
      if !cfg.exitOnHtmlError {
        TopPolicies(cfg, false, if cfg.clearAuthTokenOnHtmlError then None else credential, creds, pages, h);
      }
    } else {
      ParsedPolicies(cfg, credential, h.parse(html.value), creds, pages, h);
    }
  }

  lemma {:induction false} ParsedPolicies(cfg: Settings, credential: Option<string>, parsed: Result<Snapshot>,
                                          creds: seq<Result<Option<string>>>, pages: seq<Option<string>>, h: Handlers)
    requires cfg.authRequired ==> Truthy(credential)
    ensures Policies(cfg, RunParsed(cfg, credential, parsed, creds, pages, h))
    decreases |creds| + |pages|, 5
  {
    if parsed.Ok? {
      var stats := parsed.value;
      if IsEmpty(stats) {
        TopPolicies(cfg, false, credential, creds, pages, h);
      } else if IsSinkDestination(cfg.destination) {
        var fault := h.send(cfg.destination, stats);
        if fault.None? {
          TopPolicies(cfg, false, credential, creds, pages, h);
        }
        AppendPolicies(cfg, [Sent(cfg.destination, stats)], AfterSend(cfg, credential, fault, creds, pages, h));
      }
    }
  }

  /** Every run of `main` keeps the policies. */
  lemma {:induction false} MainPolicies(cfg: Settings, creds: seq<Result<Option<string>>>, pages: seq<Option<string>>, h: Handlers)
    ensures Policies(cfg, RunTop(cfg, true, None, creds, pages, h))
  {
    TopPolicies(cfg, true, None, creds, pages, h);
  }

  /** The first cycle starts without sleeping, with an attempt to
      authenticate or a fetch; every later cycle starts with a sleep of
      `sleep_interval`, and a negative one ends the run there. */
  lemma {:induction false} CycleStart(cfg: Settings, credential: Option<string>, creds: seq<Result<Option<string>>>,
                   pages: seq<Option<string>>, h: Handlers)
    ensures cfg.sleepInterval >= 0 ==> RunTop(cfg, false, credential, creds, pages, h)[0] == Slept(cfg.sleepInterval)
    ensures cfg.sleepInterval < 0 ==> RunTop(cfg, false, credential, creds, pages, h) == [Crashed(NegativeSleep)]
    ensures |RunTop(cfg, true, credential, creds, pages, h)| > 0 ==>
              RunTop(cfg, true, credential, creds, pages, h)[0] in {Authenticating, Fetching(credential)}
  {
  }

  /** With `exit_on_auth_error`, one failed `get_credential` ends the run:
      one attempt, then `error_exit`. */
  lemma {:induction false} ExitAfterOneFailedAuth(cfg: Settings, c: Option<string>, creds: seq<Result<Option<string>>>,
                               pages: seq<Option<string>>, h: Handlers)
    requires cfg.authRequired && cfg.exitOnAuthError && !Truthy(c)
    ensures RunTop(cfg, true, None, [Ok(c)] + creds, pages, h) == [Authenticating] + ErrorExit(cfg)
  {
    assert ([Ok(c)] + creds)[0] == Ok(c);
    assert RunAuth(cfg, [Ok(c)] + creds, pages, h) == [Authenticating] + AfterAuth(cfg, Ok(c), ([Ok(c)] + creds)[1..], pages, h);
  }

  /** `k` copies of a trace fragment. */
  function Repeat(t: seq<Event>, k: nat): (r: seq<Event>)
    ensures |r| == k * |t|
  {
    if k == 0 then [] else t + Repeat(t, k - 1)
  }

  /** The answers of failed attempts, as the credential input. */
  function Attempts(fails: seq<Option<string>>): (r: seq<Result<Option<string>>>)
    ensures |r| == |fails| && forall i :: 0 <= i < |fails| ==> r[i] == Ok(fails[i])
  {
    if |fails| == 0 then [] else [Ok(fails[0])] + Attempts(fails[1..])
  }

  /** Without `exit_on_auth_error`, each failed attempt sleeps one interval
      and tries again, until an attempt returns a credential; the page is
      then fetched with that credential. With a negative interval the
      first retry's sleep raises. */
  lemma {:induction false} RetryUntilCredential(cfg: Settings, fails: seq<Option<string>>, c: string,
                                                rest: seq<Result<Option<string>>>, pages: seq<Option<string>>, h: Handlers)
    requires !cfg.exitOnAuthError && |c| > 0
    requires forall i :: 0 <= i < |fails| ==> !Truthy(fails[i])
    ensures cfg.sleepInterval >= 0 ==>
              (RunAuth(cfg, Attempts(fails) + [Ok(Some(c))] + rest, pages, h)
               == Repeat([Authenticating, Slept(cfg.sleepInterval)], |fails|) + [Authenticating]
                  + RunFetch(cfg, Some(c), rest, pages, h))
    ensures cfg.sleepInterval < 0 && |fails| > 0 ==>
              RunAuth(cfg, Attempts(fails) + [Ok(Some(c))] + rest, pages, h) == [Authenticating, Crashed(NegativeSleep)]
    decreases |fails|
  {
    var creds := Attempts(fails) + [Ok(Some(c))] + rest;
    if |fails| == 0 {
      assert creds == [Ok(Some(c))] + rest;
      assert creds[1..] == rest;
    } else if cfg.sleepInterval < 0 {
      assert creds[0] == Ok(fails[0]);
    } else {
      assert creds[0] == Ok(fails[0]);
      assert creds[1..] == Attempts(fails[1..]) + [Ok(Some(c))] + rest;
      RetryUntilCredential(cfg, fails[1..], c, rest, pages, h);
      var pair := [Authenticating, Slept(cfg.sleepInterval)];
      assert Repeat(pair, |fails|) == pair + Repeat(pair, |fails[1..]|);
    }
  }

  /** A failed fetch without `exit_on_html_error`: nothing is parsed or
      sent in that cycle; the next one starts with a sleep, and holds the
      credential unless `clear_auth_token_on_html_error` dropped it. */
  lemma {:induction false} FailedFetchSkipsCycle(cfg: Settings, credential: Option<string>, creds: seq<Result<Option<string>>>,
                              html: Option<string>, pages: seq<Option<string>>, h: Handlers)
    requires !Truthy(html) && !cfg.exitOnHtmlError
    ensures RunFetch(cfg, credential, creds, [html] + pages, h)
         == [Fetching(credential)]
            + SleepThen(cfg.sleepInterval,
                        RunTop(cfg, true, if cfg.clearAuthTokenOnHtmlError then None else credential, creds, pages, h))
  {
    assert ([html] + pages)[0] == html && ([html] + pages)[1..] == pages;
    var c := if cfg.clearAuthTokenOnHtmlError then None else credential;
    assert RunTop(cfg, false, c, creds, pages, h) == SleepThen(cfg.sleepInterval, RunTop(cfg, true, c, creds, pages, h));
  }

  /** A failed fetch with `exit_on_html_error` exits. */
  lemma {:induction false} FailedFetchExits(cfg: Settings, credential: Option<string>, creds: seq<Result<Option<string>>>,
                         html: Option<string>, pages: seq<Option<string>>, h: Handlers)
    requires !Truthy(html) && cfg.exitOnHtmlError
    ensures RunFetch(cfg, credential, creds, [html] + pages, h) == [Fetching(credential)] + ErrorExit(cfg)
  {
    assert ([html] + pages)[0] == html;
  }

  /** A snapshot for an unsupported destination exits at once, without the
      sleep `error_exit` would otherwise take, and sends nothing. */
  lemma {:induction false} UnknownDestinationExits(cfg: Settings, credential: Option<string>, stats: Snapshot,
                                creds: seq<Result<Option<string>>>, pages: seq<Option<string>>, h: Handlers)
    requires !IsEmpty(stats) && !IsSinkDestination(cfg.destination)
    ensures RunParsed(cfg, credential, Ok(stats), creds, pages, h) == [Exited(1)]
  {
  }

  /** A page that parses to an empty snapshot ends the cycle, credential
      kept, and the next cycle starts with a sleep. */
  lemma {:induction false} EmptySnapshotSkipped(cfg: Settings, credential: Option<string>, stats: Snapshot,
                             creds: seq<Result<Option<string>>>, pages: seq<Option<string>>, h: Handlers)
    requires IsEmpty(stats)
    ensures RunParsed(cfg, credential, Ok(stats), creds, pages, h)
         == SleepThen(cfg.sleepInterval, RunTop(cfg, true, credential, creds, pages, h))
  {
  }
}
