/** The older script's `main`: after `start_session`, an endless loop of
    cycles, each sleeping (after the first), fetching the status page with
    the session, parsing it with the sb8200 parser and sending a
    non-empty snapshot to InfluxDB. There is no credential state, no
    exit-on-error flag and no `error_exit`: the model and the destination
    are checked inside the loop, and a wrong one ends the process with
    status 1 at once. */
module ScriptPoller {
  import opened Common
  import opened Stats

  /** The config values the loop reads. */
  datatype Settings = Settings(sleepInterval: int, destination: string, modemModel: string)

  /** The parser the loop calls for an `sb8200`, and `send_to_influx`,
      which answers with the exception it raises, if any. */
  datatype Handlers = Handlers(parse: string -> Result<Snapshot>, send: Snapshot -> Option<Fault>)

  datatype Event =
    | Slept(seconds: int)     // time.sleep
    | Fetching                // one call of get_html with the session
    | Sent(stats: Snapshot)   // send_to_influx
    | Exited(status: int)     // sys.exit
    | Crashed(fault: Fault)   // an exception escaped main

  /** Python truthiness of the page `get_html` returns. */
  predicate Truthy(s: Option<string>) {
    s.Some? && |s.value| > 0
  }

  /** `time.sleep(seconds)` and then `rest`; a negative length raises
      instead, and nothing follows. */
  function SleepThen(seconds: int, rest: seq<Event>): seq<Event> {
    if seconds < 0 then [Crashed(NegativeSleep)] else [Slept(seconds)] + rest
  }

  /** The run from the top of a cycle; `pages` are the answers of the next
      `get_html` calls, and the run ends when they are used up. */
  function Run(cfg: Settings, first: bool, pages: seq<Option<string>>, h: Handlers): seq<Event>
    decreases |pages|, 0
  {
    var next := if |pages| == 0 then [] else [Fetching] + AfterFetch(cfg, pages[0], pages[1..], h);
    if first then next else SleepThen(cfg.sleepInterval, next)
  }

  /** The run once `get_html` has answered. */
  function AfterFetch(cfg: Settings, html: Option<string>, pages: seq<Option<string>>, h: Handlers): seq<Event>
    decreases |pages|, 1
  {
    if !Truthy(html) then Run(cfg, false, pages, h)
    else if cfg.modemModel != "sb8200" then [Exited(1)]
    else
      match h.parse(html.value)
      case Err(f) => [Crashed(f)]
      case Ok(stats) =>
        if IsEmpty(stats) then Run(cfg, false, pages, h)
        else if cfg.destination != "influxdb" then [Exited(1)]
        else [Sent(stats)] + (match h.send(stats)
                              case Some(f) => [Crashed(f)]
                              case None => Run(cfg, false, pages, h))
  }

  /** Appending in two steps. */
  lemma {:induction false} Extend(trace: seq<Event>, a: seq<Event>, rest: seq<Event>)
    ensures trace + (a + rest) == (trace + a) + rest
  {
  }

  /** The script's `while True` loop, proved to produce the trace of `Run`
      from the first cycle. */
  method Poll(cfg: Settings, pages: seq<Option<string>>, h: Handlers) returns (trace: seq<Event>)
    ensures trace == Run(cfg, true, pages, h)
  {
    ghost var run := Run(cfg, true, pages, h);
    var first := true;
    var pi := 0;
    trace := [];
    while true
      invariant pi <= |pages|
      invariant run == trace + Run(cfg, first, pages[pi..], h)
      decreases |pages| - pi
    {
      ghost var next := if pi == |pages| then [] else [Fetching] + AfterFetch(cfg, pages[pi], pages[pi + 1..], h);
      assert pi < |pages| ==> pages[pi..][0] == pages[pi] && pages[pi..][1..] == pages[pi + 1..];
      if !first && cfg.sleepInterval < 0 {
        trace := trace + [Crashed(NegativeSleep)];
        return;
      }
      if !first {
        Extend(trace, [Slept(cfg.sleepInterval)], next);
        trace := trace + [Slept(cfg.sleepInterval)];
      } else {
        assert Run(cfg, first, pages[pi..], h) == next;
      }
      first := false;

      if pi == |pages| {
        return;
      }
      var html := pages[pi];
      Extend(trace, [Fetching], AfterFetch(cfg, html, pages[pi + 1..], h));
      trace := trace + [Fetching];
      pi := pi + 1;
      if !Truthy(html) {
        continue;
      }

      if cfg.modemModel != "sb8200" {
        trace := trace + [Exited(1)];
        return;
      }
      var stats := h.parse(html.value);
      if stats.Err? {
        trace := trace + [Crashed(stats.fault)];
        return;
      }
      if IsEmpty(stats.value) {
        continue;
      }

      if cfg.destination == "influxdb" {
        var fault := h.send(stats.value);
        trace := trace + [Sent(stats.value)];
        if fault.Some? {
          trace := trace + [Crashed(fault.value)];
          return;
        }
      } else {
        trace := trace + [Exited(1)];
        return;
      }
    }
  }

  /** The policies of the script's loop:
      - only a non-empty snapshot of an `sb8200` is sent, and only to
        `influxdb`;
      - every exit has status 1, and an exit or a crash is the last event;
      - no exit is preceded by a sleep of its own: a sleep is always
        followed by a fetch;
      - every sleep is of `sleep_interval`, which is then non-negative. */
  predicate Policies(cfg: Settings, t: seq<Event>) {
    && (forall i :: 0 <= i < |t| && t[i].Sent? ==>
          !IsEmpty(t[i].stats) && cfg.modemModel == "sb8200" && cfg.destination == "influxdb")
    && (forall i :: 0 <= i < |t| && t[i].Exited? ==> t[i].status == 1)
    && (forall i :: 0 <= i < |t| && (t[i].Exited? || t[i].Crashed?) ==> i == |t| - 1)
    && (forall i :: 0 <= i < |t| - 1 && t[i].Slept? ==> t[i + 1] == Fetching)
    && (forall i :: 0 <= i < |t| && t[i].Slept? ==> t[i].seconds == cfg.sleepInterval >= 0)
  }

  /** A prefix that neither exits nor ends in a sleep keeps the policies. */
  lemma {:induction false} AppendPolicies(cfg: Settings, a: seq<Event>, b: seq<Event>)
    requires Policies(cfg, a) && Policies(cfg, b)
    requires forall i :: 0 <= i < |a| ==> !a[i].Exited? && !a[i].Crashed?
    requires |a| > 0 ==> !a[|a| - 1].Slept?
    ensures Policies(cfg, a + b)
  {
    assert forall i :: |a| <= i < |a + b| ==> (a + b)[i] == b[i - |a|];
  }

  /** A sleep of `sleep_interval` before a run that starts with a fetch
      keeps its policies. */
  lemma {:induction false} SleepPolicies(cfg: Settings, rest: seq<Event>)
    requires Policies(cfg, rest) && (|rest| > 0 ==> rest[0] == Fetching)
    ensures Policies(cfg, SleepThen(cfg.sleepInterval, rest))
  {
    if cfg.sleepInterval >= 0 {
      var t := [Slept(cfg.sleepInterval)] + rest;
      assert forall i :: 1 <= i < |t| ==> t[i] == rest[i - 1];
    }
  }

  lemma {:induction false} RunPolicies(cfg: Settings, first: bool, pages: seq<Option<string>>, h: Handlers)
    ensures Policies(cfg, Run(cfg, first, pages, h))
    decreases |pages|, 0
  {
    var next := if |pages| == 0 then [] else [Fetching] + AfterFetch(cfg, pages[0], pages[1..], h);
    if |pages| > 0 {
      AfterFetchPolicies(cfg, pages[0], pages[1..], h);
      AppendPolicies(cfg, [Fetching], AfterFetch(cfg, pages[0], pages[1..], h));
    }
    if !first {
      SleepPolicies(cfg, next);
    }
  }

  lemma {:induction false} AfterFetchPolicies(cfg: Settings, html: Option<string>, pages: seq<Option<string>>, h: Handlers)
    ensures Policies(cfg, AfterFetch(cfg, html, pages, h))
    decreases |pages|, 1
  {
    if Truthy(html) && cfg.modemModel == "sb8200" && h.parse(html.value).Ok? {
      var stats := h.parse(html.value).value;
      RunPolicies(cfg, false, pages, h);
      if !IsEmpty(stats) && cfg.destination == "influxdb" && h.send(stats).None? {
        AppendPolicies(cfg, [Sent(stats)], Run(cfg, false, pages, h));
      }
    } else if !Truthy(html) {
      RunPolicies(cfg, false, pages, h);
    }
  }

  /** Every run of the script keeps the policies. */
  lemma {:induction false} PollPolicies(cfg: Settings, pages: seq<Option<string>>, h: Handlers)
    ensures Policies(cfg, Run(cfg, true, pages, h))
  {
    RunPolicies(cfg, true, pages, h);
  }

  /** A model other than `sb8200` exits with status 1 at the first page
      that arrives, without parsing it; the cycles before it only sleep
      and fetch. A negative interval crashes at the first sleep instead. */
  lemma {:induction false} UnsupportedModelExits(cfg: Settings, misses: seq<Option<string>>, html: string,
                                                 pages: seq<Option<string>>, h: Handlers)
    requires cfg.modemModel != "sb8200" && |html| > 0
    requires forall i :: 0 <= i < |misses| ==> !Truthy(misses[i])
    ensures cfg.sleepInterval >= 0 ==>
              (Run(cfg, false, misses + [Some(html)] + pages, h)
               == Repeat([Slept(cfg.sleepInterval), Fetching], |misses| + 1) + [Exited(1)])
    ensures cfg.sleepInterval < 0 ==> Run(cfg, false, misses + [Some(html)] + pages, h) == [Crashed(NegativeSleep)]
    decreases |misses|
  {
    var all := misses + [Some(html)] + pages;
    var pair := [Slept(cfg.sleepInterval), Fetching];
    if cfg.sleepInterval < 0 {
    } else if |misses| == 0 {
      assert all[0] == Some(html);
    } else {
      assert all[0] == misses[0] && all[1..] == misses[1..] + [Some(html)] + pages;
      UnsupportedModelExits(cfg, misses[1..], html, pages, h);
      var rest := Run(cfg, false, all[1..], h);
      assert Run(cfg, false, all, h) == pair + rest;
    }
  }

  /** `k` copies of a trace fragment. */
  function Repeat(t: seq<Event>, k: nat): (r: seq<Event>)
    ensures |r| == k * |t|
  {
    if k == 0 then [] else t + Repeat(t, k - 1)
  }

  /** A failed fetch skips to the next cycle: nothing is parsed or sent,
      and the next cycle starts with a sleep. */
  lemma {:induction false} FailedFetchSkipsCycle(cfg: Settings, html: Option<string>, pages: seq<Option<string>>, h: Handlers)
    requires !Truthy(html)
    ensures Run(cfg, false, [html] + pages, h)
         == SleepThen(cfg.sleepInterval, [Fetching] + Run(cfg, false, pages, h))
  {
    assert ([html] + pages)[0] == html && ([html] + pages)[1..] == pages;
  }

  /** Every cycle after the first starts with a sleep; with a negative
      `sleep_interval` that sleep raises and nothing is fetched again. */
  lemma {:induction false} NegativeIntervalCrashes(cfg: Settings, pages: seq<Option<string>>, h: Handlers)
    requires cfg.sleepInterval < 0
    ensures Run(cfg, false, pages, h) == [Crashed(NegativeSleep)]
    ensures |pages| > 0 && !Truthy(pages[0]) ==> Run(cfg, true, pages, h) == [Fetching, Crashed(NegativeSleep)]
  {
    if |pages| > 0 && !Truthy(pages[0]) {
      assert AfterFetch(cfg, pages[0], pages[1..], h) == [Crashed(NegativeSleep)];
    }
  }
}
