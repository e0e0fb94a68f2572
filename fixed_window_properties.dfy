/** What the fixed-window limiter promises over sequences of requests:
    the per-window cap, rollover, key isolation, skip-on-success, the
    Retry-After bound, and the cross-limiter interference caused by the
    shared module-level store. */
module FixedWindowProperties {
  import opened Wrappers
  import opened FixedWindow

  /** Counting requests one after the other for one key, starting from `w`. */
  function Replay(cfg: Config, w: Option<Window>, times: seq<int>): (r: (Option<Window>, seq<Decision>))
    ensures |r.1| == |times|
    ensures times != [] ==> r.0.Some?
    decreases |times|
  {
    if times == [] then (w, [])
    else
      var step := Check(cfg, w, times[0]);
      var rest := Replay(cfg, Some(step.0), times[1..]);
      (rest.0, [step.1] + rest.1)
  }

  /** The stored count after `n` requests in one window: each counts, except
      that under skipFailedRequests the count never passes the ceiling. */
  function CountAfter(cfg: Config, n: nat): int
  {
    if cfg.skipFailedRequests then Min(n, Max(0, cfg.max)) else n
  }

  /** Requests arriving before the window's reset all count in that window:
      the (n+i+1)-th request of the window is admitted exactly when n + i < max. */
  lemma {:induction false} RunInWindow(cfg: Config, w: Window, n: nat, times: seq<int>)
    requires w.count == CountAfter(cfg, n)
    requires forall i | 0 <= i < |times| :: times[i] < w.resetTime
    ensures var r := Replay(cfg, Some(w), times);
            && r.0.Some?
            && r.0.value == w.(count := CountAfter(cfg, n + |times|))
            && forall i | 0 <= i < |times| ::
                 && (r.1[i].Admitted? <==> n + i < cfg.max)
                 && r.1[i].headers.remaining == Max(0, cfg.max - (n + i + 1))
                 && r.1[i].headers.reset == w.resetTime
    decreases |times|
  {
    if times != [] {
      var step := Check(cfg, Some(w), times[0]);
      assert step.0 == w.(count := CountAfter(cfg, n + 1));
      RunInWindow(cfg, step.0, n + 1, times[1..]);
      var r := Replay(cfg, Some(w), times);
      var rest := Replay(cfg, Some(step.0), times[1..]);
      assert r.1 == [step.1] + rest.1;
      forall i | 1 <= i < |times|
        ensures (r.1[i].Admitted? <==> n + i < cfg.max)
      {
        assert r.1[i] == rest.1[i - 1];
      }
    }
  }

  /** The window cap: within one window, requests 1..max are admitted and the
      (max+1)-th and later are rejected; Remaining counts down to zero and the
      reset time is the first request's time plus the window. */
  lemma WindowCap(cfg: Config, existing: Option<Window>, times: seq<int>)
    requires |times| > 0 && StartsWindow(existing, times[0])
    requires forall i | 0 <= i < |times| :: times[i] < times[0] + cfg.windowMs
    ensures var ds := Replay(cfg, existing, times).1;
            forall i | 0 <= i < |times| ::
              && (ds[i].Admitted? <==> i < cfg.max)
              && ds[i].headers.remaining == Max(0, cfg.max - (i + 1))
              && ds[i].headers.reset == times[0] + cfg.windowMs
  {
    var step := Check(cfg, existing, times[0]);
    RunInWindow(cfg, step.0, 1, times[1..]);
    var ds := Replay(cfg, existing, times).1;
    var rest := Replay(cfg, Some(step.0), times[1..]).1;
    assert ds == [step.1] + rest;
    forall i | 1 <= i < |times|
      ensures (ds[i].Admitted? <==> i < cfg.max)
      ensures ds[i].headers.remaining == Max(0, cfg.max - (i + 1))
    {
      assert ds[i] == rest[i - 1];
    }
  }

  /** Rollover: once the window has ended, even an exhausted key is admitted
      again, in a fresh window whose count is 1. */
  lemma RolloverRestoresBudget(cfg: Config, w: Window, now: int)
    requires now >= w.resetTime && cfg.max >= 1
    ensures var r := Check(cfg, Some(w), now);
            && r.1.Admitted?
            && r.0 == Window(1, now + cfg.windowMs, now)
            && r.1.headers.remaining == cfg.max - 1
  {
  }

  /** Under skipFailedRequests a rejection is taken back at once, so the stored
      count never rises above the ceiling. */
  lemma SkipFailedBoundsCount(cfg: Config, existing: Option<Window>, now: int)
    requires cfg.skipFailedRequests && cfg.max >= 0
    requires existing.Some? ==> existing.value.count <= cfg.max
    ensures Check(cfg, existing, now).0.count <= cfg.max
  {
  }

  /** Without skipFailedRequests a rejected request stays counted, even when
      skipSuccessfulRequests is set: the hook is installed only for admitted requests. */
  lemma RejectionsStayCounted(cfg: Config, existing: Option<Window>, now: int)
    requires !cfg.skipFailedRequests
    ensures var r := Check(cfg, existing, now);
            r.1.Limited? ==> r.0.count == CurrentWindow(cfg, existing, now).count + 1 > cfg.max
  {
  }

  /** Requests that are each completed before the next one arrives. */
  datatype Served = Served(time: int, statusCode: int)

  /** Counting each request and running its completion hook, when one was
      installed, before the next request arrives. */
  function ReplayCompleted(cfg: Config, w: Option<Window>, reqs: seq<Served>): (r: (Option<Window>, seq<Decision>))
    ensures |r.1| == |reqs|
    decreases |reqs|
  {
    if reqs == [] then (w, [])
    else
      var step := Check(cfg, w, reqs[0].time);
      var hooked := step.1.Admitted? && (cfg.skipSuccessfulRequests || cfg.skipFailedRequests);
      var after := if hooked then Completed(cfg, step.0, reqs[0].statusCode) else step.0;
      var rest := ReplayCompleted(cfg, Some(after), reqs[1..]);
      (rest.0, [step.1] + rest.1)
  }

  /** Skip-on-success: with skipSuccessfulRequests, requests that all succeed
      never use up the budget, however many there are, as long as each one
      completes before the next arrives and the window starts with room left
      (earlier failures may have stayed counted). The window keeps that room. */
  lemma {:induction false} SuccessfulRequestsNeverExhaust(cfg: Config, w: Option<Window>, reqs: seq<Served>)
    requires cfg.skipSuccessfulRequests && cfg.max >= 1
    requires w.Some? ==> w.value.count < cfg.max
    requires forall i | 0 <= i < |reqs| :: reqs[i].statusCode < 400
    ensures var r := ReplayCompleted(cfg, w, reqs);
            && (forall i | 0 <= i < |reqs| :: r.1[i].Admitted?)
            && (r.0.Some? ==> r.0.value.count < cfg.max)
    decreases |reqs|
  {
    if reqs != [] {
      var step := Check(cfg, w, reqs[0].time);
      var before := CurrentWindow(cfg, w, reqs[0].time);
      assert before.count < cfg.max;
      assert step.1.Admitted?;
      assert step.0.count == before.count + 1;
      assert Uncounts(cfg, reqs[0].statusCode);
      var after := Completed(cfg, step.0, reqs[0].statusCode);
      assert after.count == before.count;
      SuccessfulRequestsNeverExhaust(cfg, Some(after), reqs[1..]);
      var ds := ReplayCompleted(cfg, w, reqs).1;
      var rest := ReplayCompleted(cfg, Some(after), reqs[1..]).1;
      assert ds == [step.1] + rest;
      forall i | 1 <= i < |reqs| ensures ds[i].Admitted? {
        assert ds[i] == rest[i - 1];
      }
    }
  }

  /** Retry-After never increases as the clock approaches the reset time. */
  lemma RetryAfterNonIncreasing(resetTime: int, earlier: int, later: int)
    requires earlier <= later
    ensures CeilSeconds(resetTime - later) <= CeilSeconds(resetTime - earlier)
  {
  }

  // ---------------------------------------------------------------------
  // Key isolation: requests for other keys never change a key's decisions.
  // ---------------------------------------------------------------------

  /** A request for `key` at `time`. */
  datatype Arrival = Arrival(key: string, time: int)

  /** Counting an interleaving of requests for many keys in one store. */
  function ReplayStore(cfg: Config, view: map<string, Window>, reqs: seq<Arrival>): (r: (map<string, Window>, seq<Decision>))
    ensures |r.1| == |reqs|
    decreases |reqs|
  {
    if reqs == [] then (view, [])
    else
      var step := Check(cfg, Lookup(view, reqs[0].key), reqs[0].time);
      var rest := ReplayStore(cfg, view[reqs[0].key := step.0], reqs[1..]);
      (rest.0, [step.1] + rest.1)
  }

  /** The arrival times of the requests for `key`, in order. */
  function TimesOf(reqs: seq<Arrival>, key: string): (ts: seq<int>)
    ensures |ts| <= |reqs|
    ensures forall t :: t in ts <==> Arrival(key, t) in reqs
    decreases |reqs|
  {
    if reqs == [] then []
    else (if reqs[0].key == key then [reqs[0].time] else []) + TimesOf(reqs[1..], key)
  }

  /** The decisions taken on the requests for `key`, in order. */
  function DecisionsOf(reqs: seq<Arrival>, ds: seq<Decision>, key: string): seq<Decision>
    requires |ds| == |reqs|
    decreases |reqs|
  {
    if reqs == [] then []
    else (if reqs[0].key == key then [ds[0]] else []) + DecisionsOf(reqs[1..], ds[1..], key)
  }

  /** Key isolation: in any interleaving, the decisions on one key's requests are
      those it would get alone, and the key ends with the same record. */
  lemma {:induction false} KeyIsolation(cfg: Config, view: map<string, Window>, reqs: seq<Arrival>, key: string)
    ensures var r := ReplayStore(cfg, view, reqs);
            var alone := Replay(cfg, Lookup(view, key), TimesOf(reqs, key));
            DecisionsOf(reqs, r.1, key) == alone.1 && Lookup(r.0, key) == alone.0
    decreases |reqs|
  {
    if reqs != [] {
      var a := reqs[0];
      var step := Check(cfg, Lookup(view, a.key), a.time);
      var view' := view[a.key := step.0];
      KeyIsolation(cfg, view', reqs[1..], key);
      var r := ReplayStore(cfg, view, reqs);
      var rest := ReplayStore(cfg, view', reqs[1..]);
      assert r.1 == [step.1] + rest.1 && r.0 == rest.0;
      assert r.1[1..] == rest.1;
      assert DecisionsOf(reqs, r.1, key)
          == (if a.key == key then [step.1] else []) + DecisionsOf(reqs[1..], rest.1, key);
      if a.key == key {
        var ts := TimesOf(reqs[1..], key);
        assert TimesOf(reqs, key) == [a.time] + ts;
        assert ([a.time] + ts)[1..] == ts;
        assert Replay(cfg, Lookup(view, key), [a.time] + ts).1
            == [step.1] + Replay(cfg, Some(step.0), ts).1;
      } else {
        assert Lookup(view', key) == Lookup(view, key);
        assert TimesOf(reqs, key) == TimesOf(reqs[1..], key);
      }
    }
  }

  // ---------------------------------------------------------------------
  // The shared store: every limiter from the factory counts in one Map.
  // ---------------------------------------------------------------------

  /** Within a window that still has room, a request at the window's own start
      instant is admitted and counted. */
  lemma OneMoreInWindow(cfg: Config, i: nat, now: int)
    requires cfg.windowMs > 0 && i < cfg.max
    ensures var r := Check(cfg, if i == 0 then None else Some(Window(i, now + cfg.windowMs, now)), now);
            r.0 == Window(i + 1, now + cfg.windowMs, now) && r.1.Admitted?
  {
  }

  /** Further requests from `ip` at the instant its window opened, up to the
      limit: each is admitted and counted in the same record, which ends holding `n`. */
  method Repeat(limiter: FixedWindowLimiter, ip: string, now: int, from: nat, n: nat)
    requires limiter.store.Valid() && limiter.config.windowMs > 0 && 0 < from <= n <= limiter.config.max
    requires Lookup(limiter.store.view, ip) == Some(Window(from, now + limiter.config.windowMs, now))
    modifies limiter.store, limiter.store.RecordAt(ip)
    ensures limiter.store.Valid() && ip in limiter.store.entries
    ensures limiter.store.entries[ip] == old(limiter.store.entries[ip])
    ensures limiter.store.view == old(limiter.store.view)[ip := Window(n, now + limiter.config.windowMs, now)]
  {
    var store := limiter.store;
    var i := from;
    while i < n
      invariant from <= i <= n && store.Valid() && ip in store.entries
      invariant store.entries[ip] == old(store.entries[ip])
      invariant store.view == old(store.view)[ip := Window(i, now + limiter.config.windowMs, now)]
    {
      OneMoreInWindow(limiter.config, i, now);
      var o := limiter.Admit(ip, now);
      i := i + 1;
    }
  }

  /** As written: the general and the authentication limiters count in the same
      module-level store, so five ordinary requests from an address use up that
      address's five authentication attempts, and its first login is rejected. */
  method SharedStoreLeaks(ip: string, now: int) returns (login: Decision)
    ensures login.Limited? && login.headers.remaining == 0
  {
    var rateLimitStore := new WindowStore();
    var general := new FixedWindowLimiter(GeneralPolicy, rateLimitStore);
    var auth := new FixedWindowLimiter(AuthPolicy, rateLimitStore);
    var req := Request(ip, None);
    OneMoreInWindow(GeneralPolicy, 0, now);
    var o := general.Handle(false, req, now);
    Repeat(general, ip, now, 1, 5);
    o := auth.Handle(false, req, now);
    login := o.decision;
  }

  /** Corrected: each limiter owns its store, so the same five ordinary requests
      leave the authentication budget whole and the first login is admitted
      with four attempts remaining. */
  method OwnStoresIsolate(ip: string, now: int) returns (login: Decision)
    ensures login.Admitted? && login.headers.remaining == 4
  {
    var general := new FixedWindowLimiter.WithOwnStore(GeneralPolicy);
    var auth := new FixedWindowLimiter.WithOwnStore(AuthPolicy);
    var req := Request(ip, None);
    OneMoreInWindow(GeneralPolicy, 0, now);
    var o := general.Handle(false, req, now);
    Repeat(general, ip, now, 1, 5);
    o := auth.Handle(false, req, now);
    login := o.decision;
  }
}
