/** The sliding-window limiter of `createSlidingWindowRateLimiter`: per client
    address, a log of the times of its admitted requests, pruned to the window
    ending now on every request. */
module SlidingWindow {
  import FixedWindow

  const DefaultWindowMs := 60000
  const DefaultMax := 10
  const DefaultMessage := "Rate limit exceeded"

  /** The timestamps of `log` later than `windowStart`, in their order (`filter`). */
  function Prune(log: seq<int>, windowStart: int): (r: seq<int>)
    ensures |r| <= |log|
    ensures forall t :: t in r <==> t in log && t > windowStart
    decreases |log|
  {
    if log == [] then []
    else (if log[0] > windowStart then [log[0]] else []) + Prune(log[1..], windowStart)
  }

  /** The oldest timestamp of a non-empty log (`Math.min(...log)`). */
  function Oldest(log: seq<int>): (m: int)
    requires log != []
    ensures m in log && forall t | t in log :: m <= t
    decreases |log|
  {
    if |log| == 1 then log[0]
    else
      var rest := Oldest(log[1..]);
      assert forall t | t in log :: t == log[0] || t in log[1..];
      if log[0] <= rest then log[0] else rest
  }

  /** What the middleware answers. */
  datatype Verdict =
    | Allowed(limit: int, remaining: int)                       // `next()`, Limit and Remaining headers only
    | Rejected(limit: int, reset: int, retryAfter: int, message: string)  // Remaining 0 and a RateLimitError
    | Crashed  // an empty log with max <= 0: `Math.min()` is Infinity and formatting the reset time throws

  /** One request at `now` against the stored `log`: the log stored back and the
      verdict. `SlidingCheckMeetsRule` states what they are. */
  function SlidingCheck(windowMs: int, max: int, message: string, log: seq<int>, now: int): (r: (seq<int>, Verdict))
  {
    var valid := Prune(log, now - windowMs);
    if |valid| >= max then
      if valid == [] then (valid, Crashed)
      else
        var resetTime := Oldest(valid) + windowMs;
        (valid, Rejected(max, resetTime, FixedWindow.CeilSeconds(resetTime - now), message))
    else
      (valid + [now], Allowed(max, max - (|valid| + 1)))
  }

  /** A request is admitted exactly when fewer than `max` logged requests lie in
      the window ending now; an admitted request is appended to the pruned log
      and told how many remain; a rejected one learns when the oldest logged
      request leaves the window and how many whole seconds that is away; an
      empty log under a non-positive `max` cannot be answered. */
  lemma SlidingCheckMeetsRule(windowMs: int, max: int, message: string, log: seq<int>, now: int)
    ensures var r := SlidingCheck(windowMs, max, message, log, now);
            var valid := Prune(log, now - windowMs);
            && (r.1.Allowed? <==> |valid| < max)
            && (r.1.Crashed? <==> max <= 0 && valid == [])
            && (r.1.Allowed? ==> r.0 == valid + [now] && r.1 == Allowed(max, max - |r.0|) && r.1.remaining >= 0)
            && (!r.1.Allowed? ==> r.0 == valid)
            && (r.1.Rejected? ==> r.1.limit == max && r.1.message == message &&
                                  exists t | t in valid :: r.1.reset == t + windowMs)
            && (r.1.Rejected? ==> forall t | t in valid :: r.1.reset <= t + windowMs)
            && (r.1.Rejected? ==> 1000 * (r.1.retryAfter - 1) < r.1.reset - now <= 1000 * r.1.retryAfter)
            && (r.1.Rejected? ==> r.1.retryAfter >= 1)
  {
  }

  /** A limiter with its own `requests` Map from client address to log. */
  class SlidingWindowLimiter {
    const windowMs: int
    const max: int
    const message: string
    var requests: map<string, seq<int>>

    constructor (windowMs: int, max: int, message: string)
      ensures this.windowMs == windowMs && this.max == max && this.message == message
      ensures requests == map[]
    {
      this.windowMs := windowMs;
      this.max := max;
      this.message := message;
      requests := map[];
    }

    /** A limiter with every option omitted: one minute, ten requests. */
    constructor WithDefaults()
      ensures windowMs == DefaultWindowMs && max == DefaultMax && message == DefaultMessage
      ensures windowMs == 60000 && max == 10
      ensures requests == map[]
    {
      windowMs := DefaultWindowMs;
      max := DefaultMax;
      message := DefaultMessage;
      requests := map[];
    }

    /** The log stored for `ip`, empty when there is none yet. */
    function LogOf(ip: string): (log: seq<int>)
      reads this
      ensures ip !in requests ==> log == []
      ensures ip in requests ==> log == requests[ip]
    {
      if ip in requests then requests[ip] else []
    }

    /** The middleware, for a request from `ip` at `now`. */
    method Handle(ip: string, now: int) returns (v: Verdict)
      modifies this
      ensures var r := SlidingCheck(windowMs, max, message, old(LogOf(ip)), now);
              requests == old(requests)[ip := r.0] && v == r.1
    {
      if ip !in requests {
        requests := requests[ip := []];
      }
      var requestLog := requests[ip];
      var valid := Prune(requestLog, now - windowMs);
      requests := requests[ip := valid];
      if |valid| >= max {
        if valid == [] {
          return Crashed;
        }
        var resetTime := Oldest(valid) + windowMs;
        return Rejected(max, resetTime, FixedWindow.CeilSeconds(resetTime - now), message);
      }
      valid := valid + [now];
      requests := requests[ip := valid];
      v := Allowed(max, max - |valid|);
    }
  }

  // ---------------------------------------------------------------------
  // Properties
  // ---------------------------------------------------------------------

  /** Pruning twice keeps only what the later cut keeps. */
  lemma {:induction false} PruneTwice(log: seq<int>, earlier: int, later: int)
    requires earlier <= later
    ensures Prune(Prune(log, earlier), later) == Prune(log, later)
    decreases |log|
  {
    if log != [] {
      PruneTwice(log[1..], earlier, later);
      PruneAppend(if log[0] > earlier then [log[0]] else [], Prune(log[1..], earlier), later);
      if log[0] > earlier {
        assert Prune([log[0]], later) == if log[0] > later then [log[0]] else [];
      } else {
        assert Prune([], later) == [];
      }
    }
  }

  /** Pruning distributes over concatenation. */
  lemma {:induction false} PruneAppend(a: seq<int>, b: seq<int>, windowStart: int)
    ensures Prune(a + b, windowStart) == Prune(a, windowStart) + Prune(b, windowStart)
    decreases |a|
  {
    if a != [] {
      assert (a + b)[1..] == a[1..] + b;
      PruneAppend(a[1..], b, windowStart);
    } else {
      assert a + b == b;
    }
  }

  /** Counting requests one after the other from one address. */
  function Replay(windowMs: int, max: int, log: seq<int>, times: seq<int>): (r: (seq<int>, seq<Verdict>))
    ensures |r.1| == |times|
    decreases |times|
  {
    if times == [] then (log, [])
    else
      var step := SlidingCheck(windowMs, max, DefaultMessage, log, times[0]);
      var rest := Replay(windowMs, max, step.0, times[1..]);
      (rest.0, [step.1] + rest.1)
  }

  /** Which requests were admitted. */
  function AdmittedFlags(vs: seq<Verdict>): (fs: seq<bool>)
    ensures |fs| == |vs|
    decreases |vs|
  {
    if vs == [] then [] else [vs[0].Allowed?] + AdmittedFlags(vs[1..])
  }

  /** The sliding-window rule stated on the whole admitted history, never pruned:
      a request is admitted exactly when fewer than `max` of the requests admitted
      before it fall in the window of length `windowMs` ending at it. */
  function Reference(windowMs: int, max: int, history: seq<int>, times: seq<int>): (fs: seq<bool>)
    ensures |fs| == |times|
    decreases |times|
  {
    if times == [] then []
    else
      var ok := |Prune(history, times[0] - windowMs)| < max;
      [ok] + Reference(windowMs, max, history + (if ok then [times[0]] else []), times[1..])
  }

  /** Each request arrives no earlier than the one before it (`Date.now()` does not go back). */
  predicate Chronological(times: seq<int>)
    decreases |times|
  {
    |times| <= 1 || (times[0] <= times[1] && Chronological(times[1..]))
  }

  lemma AdmittedFlagsCons(v: Verdict, vs: seq<Verdict>)
    ensures AdmittedFlags([v] + vs) == [v.Allowed?] + AdmittedFlags(vs)
  {
    assert ([v] + vs)[1..] == vs;
  }

  /** One request, seen against the admitted history: the log pruned at `cut` and
      then checked at `now` behaves as the history pruned at the current window start. */
  lemma StepFollowsHistory(windowMs: int, max: int, history: seq<int>, cut: int, now: int)
    requires windowMs > 0 && cut <= now - windowMs
    ensures var step := SlidingCheck(windowMs, max, DefaultMessage, Prune(history, cut), now);
            && (step.1.Allowed? <==> |Prune(history, now - windowMs)| < max)
            && step.0 == Prune(history + (if step.1.Allowed? then [now] else []), now - windowMs)
  {
    var start := now - windowMs;
    var valid := Prune(history, start);
    PruneTwice(history, cut, start);
    var step := SlidingCheck(windowMs, max, DefaultMessage, Prune(history, cut), now);
    assert Prune(Prune(history, cut), start) == valid;
    if |valid| < max {
      assert step.0 == valid + [now];
      PruneAppend(history, [now], start);
      assert Prune([now], start) == [now];
    } else {
      assert step.0 == valid;
      assert history + [] == history;
    }
  }

  /** The generalisation behind `MatchesReference`: the stored log is the
      admitted history cut at some earlier window start `cut`. */
  lemma {:induction false} ReplayFollowsHistory(windowMs: int, max: int, log: seq<int>, history: seq<int>, cut: int, times: seq<int>)
    requires windowMs > 0 && Chronological(times) && log == Prune(history, cut)
    requires times != [] ==> cut <= times[0] - windowMs
    ensures AdmittedFlags(Replay(windowMs, max, log, times).1) == Reference(windowMs, max, history, times)
    decreases |times|
  {
    if times != [] {
      var now := times[0];
      var step := SlidingCheck(windowMs, max, DefaultMessage, log, now);
      StepFollowsHistory(windowMs, max, history, cut, now);
      var history' := history + (if step.1.Allowed? then [now] else []);
      ReplayFollowsHistory(windowMs, max, step.0, history', now - windowMs, times[1..]);
      AdmittedFlagsCons(step.1, Replay(windowMs, max, step.0, times[1..]).1);
    }
  }

  /** The sliding-window promise: from an empty log, the limiter admits exactly
      the requests `Reference` admits. */
  lemma MatchesReference(windowMs: int, max: int, times: seq<int>)
    requires windowMs > 0 && Chronological(times)
    ensures AdmittedFlags(Replay(windowMs, max, [], times).1) == Reference(windowMs, max, [], times)
  {
    if times != [] {
      assert Prune([], times[0] - windowMs) == [];
      ReplayFollowsHistory(windowMs, max, [], [], times[0] - windowMs, times);
    }
  }

  /** A log never grows past the ceiling: it holds at most `max` timestamps
      after a request when it held at most `max` before. */
  lemma LogStaysWithinMax(windowMs: int, max: int, log: seq<int>, now: int)
    requires |log| <= max
    ensures |SlidingCheck(windowMs, max, DefaultMessage, log, now).0| <= max
  {
  }

  /** A limit of two requests per ten seconds: requests at 0 s and 5 s pass,
      one at 8 s is rejected until 10 s (Retry-After 2), and one at 11 s passes
      because the request at 0 s has left the window. */
  method TwoPerTenSeconds(ip: string) returns (a: Verdict, b: Verdict, c: Verdict, d: Verdict)
    ensures a == Allowed(2, 1) && b == Allowed(2, 0)
    ensures c == Rejected(2, 10000, 2, DefaultMessage)
    ensures d == Allowed(2, 0)
  {
    var limiter := new SlidingWindowLimiter(10000, 2, DefaultMessage);
    a := limiter.Handle(ip, 0);
    assert Prune([], -10000) == [];
    b := limiter.Handle(ip, 5000);
    assert Prune([0], -5000) == [0];
    assert limiter.requests[ip] == [0, 5000];
    assert Prune([0, 5000], -2000) == [0, 5000];
    assert Oldest([0, 5000]) == 0;
    c := limiter.Handle(ip, 8000);
    assert Prune([0, 5000], 1000) == [5000];
    d := limiter.Handle(ip, 11000);
  }
}
