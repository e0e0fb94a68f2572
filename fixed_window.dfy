/** The fixed-window request rate limiter (`createRateLimiter`) and the
    module-level window store it shares with every limiter the factory
    builds, including the periodic sweep of stale windows.

    Times are integer milliseconds as `Date.now()` returns them; the clock
    is a parameter of every operation. */
module FixedWindow {
  import opened Wrappers

  /** Default window: 15 minutes. */
  const DefaultWindowMs: int := 15 * 60 * 1000
  /** Default ceiling per window. */
  const DefaultMax: int := 100
  /** The sweep drops windows that ended over a minute ago. */
  const StaleAfterMs: int := 60000
  /** The default rejection message. */
  const DefaultMessage: string := "Too many requests, please try again later."

  /** How a limiter derives the store key from a request. */
  datatype KeyGenerator =
    | ByIp          // `(req) => req.ip`, the default
    | ByUserOrIp    // `(req) => req.user?.id || req.ip`

  /** What of a request the limiter looks at: its address and, when
      authenticated, the user id. */
  datatype Request = Request(ip: string, userId: Option<string>)

  /** `keyGenerator(req)`; an absent or empty user id is falsy and falls back to the ip. */
  function KeyFor(gen: KeyGenerator, req: Request): (key: string)
    ensures gen.ByIp? ==> key == req.ip
    ensures gen.ByUserOrIp? && req.userId.Some? && req.userId.value != "" ==> key == req.userId.value
    ensures gen.ByUserOrIp? && (req.userId.None? || req.userId.value == "") ==> key == req.ip
  {
    match gen
    case ByIp => req.ip
    case ByUserOrIp =>
      if req.userId.Some? && req.userId.value != "" then req.userId.value else req.ip
  }

  /** The options of `createRateLimiter`, minus the `skip` predicate, whose
      verdict is passed per request. */
  datatype Config = Config(
    windowMs: int,
    max: int,
    message: string,
    keyGenerator: KeyGenerator,
    skipSuccessfulRequests: bool,
    skipFailedRequests: bool)

  /** The factory's defaults, which the general preset keeps. */
  const GeneralPolicy: Config :=
    Config(DefaultWindowMs, DefaultMax, DefaultMessage, ByIp, false, false)
  const StrictPolicy: Config :=
    Config(15 * 60 * 1000, 20, "Too many requests to this endpoint, please try again later.", ByIp, false, false)
  const AuthPolicy: Config :=
    Config(15 * 60 * 1000, 5, "Too many authentication attempts, please try again later.", ByIp, true, false)
  const ApiPolicy: Config :=
    Config(1 * 60 * 1000, 30, "API rate limit exceeded, please slow down.", ByUserOrIp, false, false)

  /** The value of one stored record `{count, resetTime, firstRequest}`. */
  datatype Window = Window(count: int, resetTime: int, firstRequest: int)

  /** The rate-limit headers; `retryAfter` is `Retry-After`, set only on rejection.
      `reset` is the reset time in milliseconds (the source prints it as ISO-8601). */
  datatype Headers = Headers(limit: int, remaining: int, reset: int, retryAfter: Option<int>)

  /** The verdict on one counted request: passed on, or handed a `RateLimitError`. */
  datatype Decision = Admitted(headers: Headers) | Limited(headers: Headers, message: string)

  function Max(a: int, b: int): int { if a >= b then a else b }
  function Min(a: int, b: int): int { if a <= b then a else b }

  /** `Math.ceil(x / 1000)` for an integer number of milliseconds. */
  function CeilSeconds(x: int): (r: int)
    ensures 1000 * (r - 1) < x <= 1000 * r
  {
    -((-x) / 1000)
  }

  /** A stale or missing record is replaced by a fresh window. */
  predicate StartsWindow(existing: Option<Window>, now: int)
  {
    existing.None? || now >= existing.value.resetTime
  }

  /** The window a request at `now` is counted in, before the increment. */
  function CurrentWindow(cfg: Config, existing: Option<Window>, now: int): (w: Window)
    ensures StartsWindow(existing, now) ==> w == Window(0, now + cfg.windowMs, now)
    ensures !StartsWindow(existing, now) ==> w == existing.value
  {
    if StartsWindow(existing, now) then Window(0, now + cfg.windowMs, now) else existing.value
  }

  /** One counted request for a key: the record stored afterwards and the decision. */
  function Check(cfg: Config, existing: Option<Window>, now: int): (r: (Window, Decision))
    // the window is chosen once: kept while it lasts, otherwise opened at `now`
    ensures r.0.resetTime == CurrentWindow(cfg, existing, now).resetTime
    ensures r.0.firstRequest == CurrentWindow(cfg, existing, now).firstRequest
    // the request at count == max is still admitted; the next one is the first rejection
    ensures r.1.Admitted? <==> CurrentWindow(cfg, existing, now).count < cfg.max
    // every counted request is counted, except a rejection under skipFailedRequests
    ensures r.0.count == CurrentWindow(cfg, existing, now).count
                         + (if r.1.Limited? && cfg.skipFailedRequests then 0 else 1)
    // headers: the limit, a never-negative remaining, the window's reset time
    ensures r.1.headers.limit == cfg.max
    ensures r.1.headers.remaining == Max(0, cfg.max - (CurrentWindow(cfg, existing, now).count + 1))
    ensures r.1.headers.remaining >= 0
    ensures r.1.headers.reset == r.0.resetTime
    // Retry-After only on rejection, and at least one second when windows are positive
    ensures r.1.headers.retryAfter.Some? <==> r.1.Limited?
    ensures r.1.Limited? && cfg.windowMs > 0 ==> r.1.headers.retryAfter.value >= 1
    ensures r.1.Limited? ==> r.1.message == cfg.message
  {
    var w := CurrentWindow(cfg, existing, now);
    var count := w.count + 1;
    (w.(count := StoredCount(cfg, count)), Decide(cfg, count, w.resetTime, now))
  }

  /** The verdict and headers for a request that brought the window's count to `count`. */
  function Decide(cfg: Config, count: int, resetTime: int, now: int): (d: Decision)
    // a count of max is still admitted; one past it is rejected
    ensures d.Admitted? <==> count <= cfg.max
    ensures d.headers.limit == cfg.max && d.headers.reset == resetTime
    ensures d.headers.remaining >= 0
    ensures count <= cfg.max ==> d.headers.remaining == cfg.max - count
    ensures d.headers.retryAfter.Some? <==> d.Limited?
    ensures d.Limited? && now < resetTime ==> d.headers.retryAfter.value >= 1
    ensures d.Limited? ==> d.message == cfg.message
  {
    var headers := Headers(cfg.max, Max(0, cfg.max - count), resetTime, None);
    if count > cfg.max then
      Limited(headers.(retryAfter := Some(CeilSeconds(resetTime - now))), cfg.message)
    else
      Admitted(headers)
  }

  /** The count kept after the decision: a rejection is taken back under skipFailedRequests. */
  function StoredCount(cfg: Config, count: int): (n: int)
    // at most the one request just counted is taken back
    ensures count - 1 <= n <= count
    ensures !cfg.skipFailedRequests ==> n == count
    // under skipFailedRequests a count that was within max stays within max
    ensures cfg.skipFailedRequests && count <= cfg.max + 1 ==> n <= cfg.max
  {
    if count > cfg.max && cfg.skipFailedRequests then count - 1 else count
  }

  /** The record `Check` stores is the current window with the stored count. */
  lemma CheckStoresCount(cfg: Config, existing: Option<Window>, now: int)
    ensures var w := CurrentWindow(cfg, existing, now);
            Check(cfg, existing, now).0 == w.(count := StoredCount(cfg, w.count + 1))
  {
  }

  /** The completion hook decrements when the final status matches a skip option:
      success (< 400) first, failure (>= 400) otherwise. */
  function Uncounts(cfg: Config, statusCode: int): (b: bool)
    ensures b ==> cfg.skipSuccessfulRequests || cfg.skipFailedRequests
    ensures statusCode < 400 ==> (b <==> cfg.skipSuccessfulRequests)
    ensures statusCode >= 400 ==> (b <==> cfg.skipFailedRequests)
  {
    if cfg.skipSuccessfulRequests && statusCode < 400 then true
    else if cfg.skipFailedRequests && statusCode >= 400 then true
    else false
  }

  /** The record value after the completion hook has run on it. */
  function Completed(cfg: Config, w: Window, statusCode: int): (r: Window)
    ensures r.resetTime == w.resetTime && r.firstRequest == w.firstRequest
    ensures r.count == w.count - 1 || r.count == w.count
  {
    if Uncounts(cfg, statusCode) then w.(count := w.count - 1) else w
  }

  /** Looking a key up in the abstract store. */
  function Lookup(view: map<string, Window>, key: string): (r: Option<Window>)
    ensures r.Some? <==> key in view
    ensures r.Some? ==> r.value == view[key]
  {
    if key in view then Some(view[key]) else None
  }

  /** A stored window is swept once it ended more than a minute ago. */
  predicate Stale(resetTime: int, now: int)
  {
    now - resetTime > StaleAfterMs
  }

  // ---------------------------------------------------------------------
  // The store and the limiter, as objects updated in place.
  // ---------------------------------------------------------------------

  /** One record of the store; the limiter increments `count` in place and
      the completion hook decrements the very object it captured. */
  class WindowRecord {
    var count: int
    const resetTime: int
    const firstRequest: int
    /** The key the record was created for; two keys never share a record. */
    ghost const key: string

    constructor (key: string, now: int, windowMs: int)
      ensures count == 0 && resetTime == now + windowMs && firstRequest == now
      ensures this.key == key
    {
      this.key := key;
      count := 0;
      resetTime := now + windowMs;
      firstRequest := now;
    }

    function Value(): (w: Window)
      reads this
      ensures w.count == count && w.resetTime == resetTime && w.firstRequest == firstRequest
    {
      Window(count, resetTime, firstRequest)
    }
  }

  /** The module-level `rateLimitStore` Map. */
  class WindowStore {
    var entries: map<string, WindowRecord>
    /** The store's contents as values. */
    ghost var view: map<string, Window>

    /** `view` mirrors the records, and each record sits under its own key,
        so no two keys share a record object. */
    ghost predicate Valid()
      reads this, entries.Values
    {
      && entries.Keys == view.Keys
      && (forall k | k in entries :: entries[k].key == k && entries[k].Value() == view[k])
    }

    /** The record a request for `key` may update in place. */
    function RecordAt(key: string): (s: set<WindowRecord>)
      reads this
      ensures key in entries ==> s == {entries[key]}
      ensures key !in entries ==> s == {}
    {
      if key in entries then {entries[key]} else {}
    }

    constructor ()
      ensures Valid() && entries == map[] && view == map[]
    {
      entries := map[];
      view := map[];
    }

    /** `data.count = count` on the record of `key`; every other record keeps its value. */
    method SetCount(key: string, count: int)
      requires Valid() && key in entries
      modifies this, entries[key]
      ensures Valid() && entries == old(entries)
      ensures view == old(view)[key := old(view)[key].(count := count)]
    {
      var data := entries[key];
      data.count := count;
      view := view[key := data.Value()];
      forall k | k in entries && k != key
        ensures entries[k].Value() == view[k]
      {
        assert entries[k] != data;
      }
    }

    /** The cleanup pass: deletes exactly the stale records and keeps the others,
        record objects included. */
    method Sweep(now: int)
      requires Valid()
      modifies this
      ensures Valid()
      ensures forall k :: k in entries <==> k in old(entries) && !Stale(old(entries)[k].resetTime, now)
      ensures forall k | k in entries :: entries[k] == old(entries)[k]
      ensures view.Keys == entries.Keys && forall k | k in view :: view[k] == old(view)[k]
    {
      var pending := entries.Keys;
      while pending != {}
        invariant pending <= entries.Keys <= old(entries).Keys
        invariant view.Keys == entries.Keys
        invariant forall k | k in entries :: entries[k] == old(entries)[k] && view[k] == old(view)[k]
        invariant forall k | k in old(entries) && k !in pending ::
                    k in entries <==> !Stale(old(entries)[k].resetTime, now)
        decreases pending
      {
        var key :| key in pending;
        if Stale(entries[key].resetTime, now) {
          entries := entries - {key};
          view := view - {key};
        }
        pending := pending - {key};
      }
    }
  }

  /** What the middleware does with one request. */
  datatype Outcome =
    | Skipped                                          // `skip(req)` held: `next()` untouched
    | Counted(decision: Decision, hook: Option<WindowRecord>)  // hook: the record the completion hook will decrement

  /** A limiter built by `createRateLimiter`: its options and the store it counts in. */
  class FixedWindowLimiter {
    const config: Config
    const store: WindowStore

    /** As written: the limiter counts in the store it is given (the module-level one). */
    constructor (config: Config, store: WindowStore)
      ensures this.config == config && this.store == store
    {
      this.config := config;
      this.store := store;
    }

    /** A limiter that owns a store of its own. */
    constructor WithOwnStore(config: Config)
      ensures this.config == config && fresh(store)
      ensures store.Valid() && store.view == map[]
    {
      this.config := config;
      this.store := new WindowStore();
    }

    /** The middleware: skip, derive the key, count. */
    method Handle(skip: bool, req: Request, now: int) returns (o: Outcome)
      requires store.Valid()
      modifies store, store.RecordAt(KeyFor(config.keyGenerator, req))
      ensures store.Valid()
      ensures skip ==> o == Skipped && unchanged(store) && store.view == old(store.view)
      ensures !skip ==> o.Counted?
      // the completion hook is installed only on admitted requests, and only with a skip option
      ensures !skip ==> (o.hook.Some? <==> o.decision.Admitted? && (config.skipSuccessfulRequests || config.skipFailedRequests))
      ensures !skip ==> var key := KeyFor(config.keyGenerator, req);
                        var r := Check(config, Lookup(old(store.view), key), now);
                        store.view == old(store.view)[key := r.0] && o.decision == r.1
      ensures !skip ==> var key := KeyFor(config.keyGenerator, req);
                        && key in store.entries
                        && (StartsWindow(Lookup(old(store.view), key), now) ==> fresh(store.entries[key]))
                        && (!StartsWindow(Lookup(old(store.view), key), now) ==> store.entries[key] == old(store.entries[key]))
                        && (o.hook.Some? ==> o.hook.value == store.entries[key])
    {
      if skip {
        return Skipped;
      }
      var key := KeyFor(config.keyGenerator, req);
      o := Admit(key, now);
    }

    /** Counting one request for `key` at `now`. */
    method Admit(key: string, now: int) returns (o: Outcome)
      requires store.Valid()
      modifies store, store.RecordAt(key)
      ensures store.Valid()
      ensures o.Counted? && key in store.entries
      ensures var r := Check(config, Lookup(old(store.view), key), now);
              store.view == old(store.view)[key := r.0] && o.decision == r.1
      // a new window is a new record object; otherwise the old object is updated
      ensures StartsWindow(Lookup(old(store.view), key), now) ==> fresh(store.entries[key])
      ensures !StartsWindow(Lookup(old(store.view), key), now) ==> store.entries[key] == old(store.entries[key])
      // the completion hook is installed only on admitted requests, and only with a skip option
      ensures o.hook.Some? <==> o.decision.Admitted? && (config.skipSuccessfulRequests || config.skipFailedRequests)
      ensures o.hook.Some? ==> o.hook.value == store.entries[key]
    {
      var data, count := Count(key, now);
      var decision := Decide(config, count, data.resetTime, now);
      if decision.Admitted? && (config.skipSuccessfulRequests || config.skipFailedRequests) {
        o := Counted(decision, Some(data));
      } else {
        o := Counted(decision, None);
      }
    }

    /** Steps 1-3 and the compensating decrement: the record for `key` after this
        request is counted, and the count the request brought it to. */
    method Count(key: string, now: int) returns (data: WindowRecord, count: int)
      requires store.Valid()
      modifies store, store.RecordAt(key)
      ensures store.Valid()
      ensures key in store.entries && store.entries[key] == data
      ensures var w := CurrentWindow(config, Lookup(old(store.view), key), now);
              count == w.count + 1 && data.resetTime == w.resetTime
      ensures store.view == old(store.view)[key := Check(config, Lookup(old(store.view), key), now).0]
      ensures StartsWindow(Lookup(old(store.view), key), now) ==> fresh(data)
      ensures !StartsWindow(Lookup(old(store.view), key), now) ==> data == old(store.entries[key])
    {
      ghost var v0 := store.view;
      ghost var w := CurrentWindow(config, Lookup(v0, key), now);
      data := WindowFor(key, now);
      count := data.count + 1;
      store.SetCount(key, StoredCount(config, count));
      CheckStoresCount(config, Lookup(v0, key), now);
      assert data.Value() == w.(count := StoredCount(config, count));
      assert store.view == v0[key := data.Value()];
    }

    /** Steps 1-2 of a count: the record for `key`, replaced by a fresh one when
        missing or expired. */
    method WindowFor(key: string, now: int) returns (data: WindowRecord)
      requires store.Valid()
      modifies store
      ensures store.Valid()
      ensures key in store.entries && store.entries[key] == data
      ensures data.Value() == CurrentWindow(config, Lookup(old(store.view), key), now)
      ensures store.view == old(store.view)[key := data.Value()]
      ensures StartsWindow(Lookup(old(store.view), key), now) ==> fresh(data)
      ensures !StartsWindow(Lookup(old(store.view), key), now) ==> data == old(store.entries[key])
    {
      if key !in store.entries || now >= store.entries[key].resetTime {
        data := new WindowRecord(key, now, config.windowMs);
        store.entries := store.entries[key := data];
        store.view := store.view[key := data.Value()];
      } else {
        data := store.entries[key];
      }
    }

    /** The completion hook, run when the admitted request's response is sent:
        it decrements the record it captured, whether or not the store still holds it. */
    method Complete(rec: WindowRecord, statusCode: int)
      requires store.Valid()
      modifies rec, store
      ensures store.Valid() && store.entries == old(store.entries)
      ensures rec.Value() == Completed(config, old(rec.Value()), statusCode)
      ensures forall k | k in store.entries ::
                store.view[k] == if store.entries[k] == rec then rec.Value() else old(store.view[k])
    {
      if config.skipSuccessfulRequests && statusCode < 400 {
        rec.count := rec.count - 1;
      } else if config.skipFailedRequests && statusCode >= 400 {
        rec.count := rec.count - 1;
      }
      store.view := map k | k in store.entries :: store.entries[k].Value();
    }
  }
}
